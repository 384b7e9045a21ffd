/** The parser as an automaton over a stack of trees: one move at a time, and whole runs. */
module RulesAutomaton {
  import opened RulesTables
  import opened RulesGrammar

  /** A grammar symbol on the stack, with the tree it stands for. */
  datatype Sym = T(tok: Token) | SV(s: Str) | FN(f: Str) | EX(e: Exp) | IN(e: Exp)

  /** The parse stack; every symbol is stored with the state entered after it. */
  datatype Stack = Bottom | Push(below: Stack, sym: Sym, state: int)

  function Top(stk: Stack): int {
    if stk.Bottom? then 0 else stk.state
  }

  function Depth(stk: Stack): nat {
    if stk.Bottom? then 0 else Depth(stk.below) + 1
  }

  function SymYield(sym: Sym): seq<Token> {
    match sym
    case T(tok) => [tok]
    case SV(s) => StrYield(s)
    case FN(f) => StrYield(f)
    case EX(e) => Yield(e)
    case IN(e) => Yield(e)
  }

  /** All tokens under the stack. */
  function StackYield(stk: Stack): seq<Token> {
    if stk.Bottom? then [] else StackYield(stk.below) + SymYield(stk.sym)
  }

  /** Which symbols lead from state `q` to state `s`: the transitions of the automaton, by target. */
  predicate Link(q: int, sym: Sym, s: int) {
    match s
    case 1 => sym.T? && sym.tok.IdTok? && StringStart(q)
    case 2 => sym.T? && sym.tok.ExpBinTok? && ExpStart(q)
    case 3 => sym == T(NotTok) && ExpStart(q)
    case 4 => sym == T(QuoteTok) && StringStart(q)
    case 5 => sym == T(LParTok) && ExpStart(q)
    case 6 => sym.IN? && q == 0
    case 7 => sym.SV? && ExpStart(q)
    case 8 => sym.FN? && StringStart(q)
    case 9 => sym.EX? && q == 0
    case 10 => sym == T(LParTok) && q == 1
    case 11 => sym == T(EqDoubleTok) && q == 2
    case 12 => sym.EX? && q == 3
    case 13 => sym.T? && sym.tok.StringTok? && q == 4
    case 14 => sym.T? && sym.tok.IdTok? && q == 4
    case 15 => sym.EX? && q == 5
    case 17 => sym == T(EqDoubleTok) && q == 7
    case 18 => sym == T(EqTripleTok) && q == 7
    case 19 => sym == T(AndTok) && (q == 9 || q == 15)
    case 20 => sym == T(OrTok) && (q == 9 || q == 15 || q == 29)
    case 21 => sym == T(RParTok) && q == 10
    case 22 => sym.SV? && q == 10
    case 23 => sym.T? && sym.tok.ExpBinTok? && q == 11
    case 24 => sym == T(QuoteTok) && q == 13
    case 25 => sym == T(QuoteTok) && q == 14
    case 26 => sym == T(RParTok) && q == 15
    case 27 => sym.SV? && q == 17
    case 28 => sym.SV? && q == 18
    case 29 => sym.EX? && q == 19
    case 30 => sym.EX? && q == 20
    case 31 => sym == T(RParTok) && q == 22
    case _ => false
  }

  /** How tight an expression must bind to stand in state `s`. */
  function Floor(s: int): nat {
    if s == 12 || s == 30 then 2 else if s == 29 then 1 else 0
  }

  predicate SymFits(sym: Sym, s: int) {
    match sym
    case EX(e) => Stratified(e) && Floor(s) <= Level(e)
    case IN(e) => Stratified(e)
    case _ => true
  }

  /** The stack is a path of the automaton, and its trees are stratified. */
  predicate Valid(stk: Stack) {
    stk.Push? ==>
      && Valid(stk.below)
      && Link(Top(stk.below), stk.sym, stk.state)
      && SymFits(stk.sym, stk.state)
      && (stk.sym == T(OrTok) && stk.below.Push? && stk.below.sym.EX? ==> 1 <= Level(stk.below.sym.e))
  }

  /** An AND expression on top of the stack is complete: the lookahead is not OR. */
  predicate Settled(stk: Stack, t: int) {
    stk.Push? && stk.sym.EX? && Level(stk.sym.e) == 0 ==> t != OR
  }

  /** A weight that every reduction lowers, unit reductions included. */
  function Weight(stk: Stack): nat {
    if stk.Bottom? then 0 else Weight(stk.below) + SymWeight(stk.sym)
  }

  function SymWeight(sym: Sym): nat {
    match sym case T(_) => 5 case FN(_) => 4 case SV(_) => 3 case EX(_) => 2 case IN(_) => 1
  }

  // ---- Shifts ----

  lemma ShiftIsLink(q: int, tok: Token)
    requires Act(q, Class(tok)).Shift?
    ensures Link(q, T(tok), Act(q, Class(tok)).state)
  {
  }

  lemma ShiftIsSound(stk: Stack, tok: Token, t: int)
    requires Valid(stk) && Settled(stk, Class(tok)) && Act(Top(stk), Class(tok)).Shift?
    ensures var stk1 := Push(stk, T(tok), Act(Top(stk), Class(tok)).state); Valid(stk1) && Settled(stk1, t)
  {
    ShiftIsLink(Top(stk), tok);
  }

  // ---- Reductions ----

  /** The right-hand side of a rule is on top of the stack. */
  predicate Handle(stk: Stack, rule: int) {
    && stk.Push?
    && match rule
       case 2 => stk.sym.EX?
       case 3 => Three(stk) && stk.below.sym.T? && stk.below.sym.tok.StringTok?
                 && stk.sym == T(QuoteTok) && stk.below.below.sym == T(QuoteTok)
       case 4 => stk.sym.FN?
       case 5 => Three(stk) && stk.below.sym.T? && stk.below.sym.tok.IdTok?
                 && stk.sym == T(QuoteTok) && stk.below.below.sym == T(QuoteTok)
       case 6 => Three(stk) && stk.below.below.sym.T? && stk.below.below.sym.tok.IdTok?
                 && stk.sym == T(RParTok) && stk.below.sym == T(LParTok)
       case 7 => Four(stk) && stk.below.below.below.sym.T? && stk.below.below.below.sym.tok.IdTok?
                 && stk.sym == T(RParTok) && stk.below.sym.SV? && stk.below.below.sym == T(LParTok)
       case 8 => stk.sym.SV?
       case 9 => Three(stk) && stk.sym.SV? && stk.below.sym == T(EqDoubleTok) && stk.below.below.sym.SV?
       case 10 => Three(stk) && stk.sym.SV? && stk.below.sym == T(EqTripleTok) && stk.below.below.sym.SV?
       case 11 => Three(stk) && stk.sym == T(RParTok) && stk.below.sym.EX? && stk.below.below.sym == T(LParTok)
       case 12 => Two(stk) && stk.sym.EX? && stk.below.sym == T(NotTok)
       case 13 => Three(stk) && stk.sym.EX? && stk.below.sym == T(AndTok) && stk.below.below.sym.EX?
       case 14 => Three(stk) && stk.sym.EX? && stk.below.sym == T(OrTok) && stk.below.below.sym.EX?
       case 15 => stk.sym.T? && stk.sym.tok.ExpBinTok?
       case 16 => Three(stk) && stk.sym.T? && stk.sym.tok.ExpBinTok? && stk.below.sym == T(EqDoubleTok)
                  && stk.below.below.sym.T? && stk.below.below.sym.tok.ExpBinTok?
       case _ => false
  }

  predicate Two(stk: Stack) { stk.Push? && stk.below.Push? }

  predicate Three(stk: Stack) { Two(stk) && stk.below.below.Push? }

  predicate Four(stk: Stack) { Three(stk) && stk.below.below.below.Push? }

  /** The stack below the handle of a rule. */
  function Base(stk: Stack, rule: int): Stack
    requires Handle(stk, rule)
  {
    if rule in {2, 4, 8, 15} then stk.below
    else if rule == 12 then stk.below.below
    else if rule == 7 then stk.below.below.below.below
    else stk.below.below.below
  }

  /** The symbol a rule builds from its handle. */
  function Built(stk: Stack, rule: int): Sym
    requires Handle(stk, rule)
  {
    match rule
    case 2 => IN(stk.sym.e)
    case 3 => SV(Literal(stk.below.sym.tok.text))
    case 4 => SV(stk.sym.f)
    case 5 => SV(IdLiteral(stk.below.sym.tok.text))
    case 6 => FN(Call0(stk.below.below.sym.tok.text))
    case 7 => FN(Call1(stk.below.below.below.sym.tok.text, stk.below.sym.s))
    case 8 => EX(Length(stk.sym.s))
    case 9 => EX(Equal(stk.below.below.sym.s, stk.sym.s))
    case 10 => EX(EqualNoCase(stk.below.below.sym.s, stk.sym.s))
    case 11 => EX(Paren(stk.below.sym.e))
    case 12 => EX(Not(stk.sym.e))
    case 13 => EX(And(stk.below.below.sym.e, stk.sym.e))
    case 14 => EX(Or(stk.below.below.sym.e, stk.sym.e))
    case 15 => EX(Bin(stk.sym.tok.n))
    case _ => EX(BinEqual(stk.below.below.sym.tok.n, stk.sym.tok.n))
  }

  /** The nonterminal of a symbol built by a rule. */
  function Nonterminal(sym: Sym): int {
    match sym case T(_) => -1 case SV(_) => STRING_VAL case FN(_) => FUNCTION case EX(_) => EXP case IN(_) => INPUT
  }

  /** The stack after reducing with `rule`. */
  function Reduced(stk: Stack, rule: int): Stack
    requires Handle(stk, rule)
  {
    var sym := Built(stk, rule);
    Push(Base(stk, rule), sym, Goto(Top(Base(stk, rule)), Nonterminal(sym)))
  }

  /** The only state that reduces by a rule. */
  function HandleState(rule: int): int {
    match rule
    case 2 => 9 case 3 => 24 case 4 => 8 case 5 => 25 case 6 => 21 case 7 => 31 case 8 => 7 case 9 => 27
    case 10 => 28 case 11 => 26 case 12 => 12 case 13 => 29 case 14 => 30 case 15 => 2 case 16 => 23 case _ => 16
  }

  lemma OneStatePerRule(s: int, t: int)
    requires Act(s, t).Reduce?
    ensures var rule := Act(s, t).rule; 1 <= rule <= 16 && s == HandleState(rule) && (rule == 13 ==> t != OR)
  {
  }

  lemma GotoIsLink(q: int, sym: Sym)
    requires Goto(q, Nonterminal(sym)) != -1
    ensures Link(q, sym, Goto(q, Nonterminal(sym)))
  {
  }

  ghost predicate HandleReady(stk: Stack, rule: int) {
    Handle(stk, rule) && Goto(Top(Base(stk, rule)), Nonterminal(Built(stk, rule))) != -1
  }

  lemma HandleOfUnitRule(stk: Stack, rule: int)
    requires Valid(stk) && rule in {2, 4, 8, 15} && Top(stk) == HandleState(rule)
    ensures HandleReady(stk, rule)
  {
  }

  lemma HandleOfStringRule(stk: Stack, rule: int)
    requires Valid(stk) && rule in {3, 5, 6} && Top(stk) == HandleState(rule)
    ensures HandleReady(stk, rule)
  {
    assert stk.below.Push? && Valid(stk.below);
    assert stk.below.below.Push? && Valid(stk.below.below);
  }

  lemma HandleOfCallRule(stk: Stack, rule: int)
    requires Valid(stk) && rule in {7} && Top(stk) == HandleState(rule)
    ensures HandleReady(stk, rule)
  {
    assert stk.below.Push? && Valid(stk.below);
    assert stk.below.below.Push? && Valid(stk.below.below);
    assert stk.below.below.below.Push? && Valid(stk.below.below.below);
  }

  lemma HandleOfComparison(stk: Stack, rule: int)
    requires Valid(stk) && rule in {9, 10, 16} && Top(stk) == HandleState(rule)
    ensures HandleReady(stk, rule)
  {
    assert stk.below.Push? && Valid(stk.below);
    assert stk.below.below.Push? && Valid(stk.below.below);
  }

  lemma HandleOfLogicRule(stk: Stack, rule: int)
    requires Valid(stk) && rule in {11, 12, 13, 14} && Top(stk) == HandleState(rule)
    ensures HandleReady(stk, rule)
  {
    assert stk.below.Push? && Valid(stk.below);
    if rule != 12 { assert stk.below.below.Push? && Valid(stk.below.below); }
  }

  /** A state that reduces by a rule has the rule's right-hand side on top of the stack. */
  lemma HandleOnTop(stk: Stack, rule: int)
    requires Valid(stk) && 2 <= rule <= 16 && Top(stk) == HandleState(rule)
    ensures HandleReady(stk, rule)
  {
    if rule in {2, 4, 8, 15} { HandleOfUnitRule(stk, rule); }
    else if rule in {3, 5, 6} { HandleOfStringRule(stk, rule); }
    else if rule == 7 { HandleOfCallRule(stk, rule); }
    else if rule in {9, 10, 16} { HandleOfComparison(stk, rule); }
    else { HandleOfLogicRule(stk, rule); }
  }

  lemma WeightFalls(stk: Stack, rule: int)
    requires Handle(stk, rule)
    ensures Weight(Reduced(stk, rule)) < Weight(stk)
  {
    if Two(stk) { assert Weight(stk.below) == Weight(stk.below.below) + SymWeight(stk.below.sym); }
    if Three(stk) { assert Weight(stk.below.below) == Weight(stk.below.below.below) + SymWeight(stk.below.below.sym); }
    if Four(stk) {
      assert Weight(stk.below.below.below)
          == Weight(stk.below.below.below.below) + SymWeight(stk.below.below.below.sym);
    }
  }

  lemma Assoc3(b: seq<Token>, x: seq<Token>, y: seq<Token>, z: seq<Token>)
    ensures ((b + x) + y) + z == b + (x + y + z)
  {
  }

  lemma Assoc4(b: seq<Token>, w: seq<Token>, x: seq<Token>, y: seq<Token>, z: seq<Token>)
    ensures (((b + w) + x) + y) + z == b + (w + x + y + z)
  {
  }

  lemma BuiltYield(stk: Stack, rule: int)
    requires Handle(stk, rule) && rule !in {2, 4, 8, 15}
    ensures SymYield(Built(stk, rule)) ==
      if rule == 12 then SymYield(stk.below.sym) + SymYield(stk.sym)
      else if rule == 7 then
        SymYield(stk.below.below.below.sym) + SymYield(stk.below.below.sym) + SymYield(stk.below.sym)
          + SymYield(stk.sym)
      else SymYield(stk.below.below.sym) + SymYield(stk.below.sym) + SymYield(stk.sym)
  {
  }

  /** A reduction keeps the tokens under the stack. */
  lemma ReductionKeepsYield(stk: Stack, rule: int)
    requires Handle(stk, rule)
    ensures StackYield(Reduced(stk, rule)) == StackYield(stk)
  {
    var base, b1 := StackYield(Base(stk, rule)), stk.below;
    if rule !in {2, 4, 8, 15} {
      BuiltYield(stk, rule);
      var b2 := b1.below;
      assert StackYield(b1) == StackYield(b2) + SymYield(b1.sym);
      if rule != 12 {
        var b3 := b2.below;
        assert StackYield(b2) == StackYield(b3) + SymYield(b2.sym);
        if rule == 7 {
          assert StackYield(b3) == StackYield(b3.below) + SymYield(b3.sym);
          Assoc4(base, SymYield(b3.sym), SymYield(b2.sym), SymYield(b1.sym), SymYield(stk.sym));
        } else {
          Assoc3(base, SymYield(b2.sym), SymYield(b1.sym), SymYield(stk.sym));
        }
      }
    }
  }

  /** A reduction keeps the stack valid. */
  lemma ReductionIsSound(stk: Stack, t: int, rule: int)
    requires Valid(stk) && Settled(stk, t) && Act(Top(stk), t) == Reduce(rule)
    ensures 2 <= rule && Handle(stk, rule)
    ensures var stk1 := Reduced(stk, rule); Valid(stk1) && Settled(stk1, t)
  {
    OneStatePerRule(Top(stk), t);
    assert rule != 1;
    HandleOnTop(stk, rule);
    var base, sym := Base(stk, rule), Built(stk, rule);
    GotoIsLink(Top(base), sym);
    BaseIsValid(stk, rule);
    BuiltFits(stk, t, rule);
  }

  lemma BaseIsValid(stk: Stack, rule: int)
    requires Valid(stk) && Handle(stk, rule)
    ensures Valid(Base(stk, rule))
  {
    if Two(stk) { assert Valid(stk.below); }
    if Three(stk) { assert Valid(stk.below.below); }
    if Four(stk) { assert Valid(stk.below.below.below); }
  }

  lemma BuiltFits(stk: Stack, t: int, rule: int)
    requires Valid(stk) && Settled(stk, t) && 2 <= rule <= 16 && Top(stk) == HandleState(rule) && HandleReady(stk, rule)
    requires rule == 13 ==> t != OR
    ensures SymFits(Built(stk, rule), Top(Reduced(stk, rule)))
    ensures Settled(Reduced(stk, rule), t)
  {
    if Two(stk) { assert Valid(stk.below); }
    if Three(stk) { assert Valid(stk.below.below); }
  }
}
