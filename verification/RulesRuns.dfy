/** Whole runs of the parser: which token sequences it accepts, with which tree, and where it rejects. */
module RulesRuns {
  import opened RulesTables
  import opened RulesGrammar
  import opened RulesAutomaton

  /** How a run ends: yyparse returns 0, 1 or 2.  A rejection carries the number of tokens shifted before it. */
  datatype Outcome = Accepted(e: Exp) | Rejected(at: nat) | Exhausted

  /** The class of the lookahead after `pos` tokens. */
  function ClassAt(tokens: seq<Token>, pos: nat): int {
    if pos < |tokens| then Class(tokens[pos]) else END
  }

  /** The run from `stk` after `pos` tokens, on stacks that may hold fewer than `limit` states. */
  function Run(tokens: seq<Token>, stk: Stack, pos: nat, limit: nat): (r: Outcome)
    requires pos <= |tokens|
    requires Valid(stk) && Settled(stk, ClassAt(tokens, pos))
    ensures r.Rejected? ==> pos <= r.at <= |tokens|
    decreases |tokens| - pos, Weight(stk)
  {
    var t := ClassAt(tokens, pos);
    if limit <= Depth(stk) + 1 then Exhausted
    else match Act(Top(stk), t)
      case Error => Rejected(pos)
      case Accept => AcceptHasInput(stk, t); Accepted(stk.sym.e)
      case Shift(q) =>
        OnlyTokensShift(tokens, stk, pos);
        ShiftIsSound(stk, tokens[pos], ClassAt(tokens, pos + 1));
        Run(tokens, Push(stk, T(tokens[pos]), q), pos + 1, limit)
      case Reduce(rule) =>
        ReductionIsSound(stk, t, rule);
        WeightFalls(stk, rule);
        Run(tokens, Reduced(stk, rule), pos, limit)
  }

  function Parse(tokens: seq<Token>, limit: nat): Outcome {
    Run(tokens, Bottom, 0, limit)
  }

  lemma ClassOfToken(tok: Token)
    ensures 0 < Code(tok) && 0 < Class(tok) < YYNTOKENS
  {
  }

  lemma AcceptHasInput(stk: Stack, t: int)
    requires Valid(stk) && Act(Top(stk), t) == Accept
    ensures stk.Push? && stk.below.Bottom? && stk.sym.IN? && t == END
  {
  }

  lemma OnlyTokensShift(tokens: seq<Token>, stk: Stack, pos: nat)
    requires pos <= |tokens| && Act(Top(stk), ClassAt(tokens, pos)).Shift?
    ensures pos < |tokens|
  {
  }

  /** A run that has come from one point to another ends alike from both. */
  ghost predicate RunsOn(tokens: seq<Token>, stk: Stack, pos: nat, stk1: Stack, pos1: nat, limit: nat) {
    && pos <= |tokens| && Valid(stk) && Settled(stk, ClassAt(tokens, pos))
    && pos1 <= |tokens| && Valid(stk1) && Settled(stk1, ClassAt(tokens, pos1))
    && Run(tokens, stk, pos, limit) == Run(tokens, stk1, pos1, limit)
  }

  /** The next move of a run, in the form the loop needs it. */
  ghost predicate Turn(tokens: seq<Token>, stk: Stack, pos: nat, limit: nat)
    requires pos <= |tokens| && Valid(stk) && Settled(stk, ClassAt(tokens, pos))
  {
    if limit <= Depth(stk) + 1 then Run(tokens, stk, pos, limit) == Exhausted
    else match Act(Top(stk), ClassAt(tokens, pos))
      case Error => Run(tokens, stk, pos, limit) == Rejected(pos)
      case Accept => stk.Push? && stk.below.Bottom? && stk.sym.IN?
        && Run(tokens, stk, pos, limit) == Accepted(stk.sym.e)
      case Shift(q) => pos < |tokens| && RunsOn(tokens, stk, pos, Push(stk, T(tokens[pos]), q), pos + 1, limit)
      case Reduce(rule) =>
        Handle(stk, rule) && Weight(Reduced(stk, rule)) < Weight(stk)
          && RunsOn(tokens, stk, pos, Reduced(stk, rule), pos, limit)
  }

  lemma RunTurns(tokens: seq<Token>, stk: Stack, pos: nat, limit: nat)
    requires pos <= |tokens| && Valid(stk) && Settled(stk, ClassAt(tokens, pos))
    ensures Turn(tokens, stk, pos, limit)
  {
    match Act(Top(stk), ClassAt(tokens, pos))
    case Error =>
    case Accept => AcceptHasInput(stk, ClassAt(tokens, pos));
    case Shift(q) =>
      OnlyTokensShift(tokens, stk, pos);
      ShiftIsSound(stk, tokens[pos], ClassAt(tokens, pos + 1));
    case Reduce(rule) =>
      ReductionIsSound(stk, ClassAt(tokens, pos), rule);
      WeightFalls(stk, rule);
  }

  // ---- Soundness ----

  lemma AcceptIsSound(tokens: seq<Token>, stk: Stack, pos: nat)
    requires pos <= |tokens| && Valid(stk) && Act(Top(stk), ClassAt(tokens, pos)) == Accept
      && StackYield(stk) == tokens[..pos]
    ensures stk.Push? && stk.sym.IN? && Writes(stk.sym.e, tokens)
  {
    AcceptHasInput(stk, ClassAt(tokens, pos));
    if pos < |tokens| { ClassOfToken(tokens[pos]); }
    assert StackYield(stk) == [] + Yield(stk.sym.e);
  }

  lemma ShiftYield(tokens: seq<Token>, stk: Stack, pos: nat, q: int)
    requires pos < |tokens| && StackYield(stk) == tokens[..pos]
    ensures StackYield(Push(stk, T(tokens[pos]), q)) == tokens[..pos + 1]
  {
    assert tokens[..pos + 1] == tokens[..pos] + [tokens[pos]];
  }

  lemma {:induction false} RunIsSound(tokens: seq<Token>, stk: Stack, pos: nat, limit: nat)
    requires pos <= |tokens| && Valid(stk) && Settled(stk, ClassAt(tokens, pos)) && StackYield(stk) == tokens[..pos]
    ensures var r := Run(tokens, stk, pos, limit); r.Accepted? ==> Writes(r.e, tokens)
    decreases |tokens| - pos, Weight(stk)
  {
    RunTurns(tokens, stk, pos, limit);
    if Depth(stk) + 1 < limit {
      match Act(Top(stk), ClassAt(tokens, pos))
      case Error =>
      case Accept => AcceptIsSound(tokens, stk, pos);
      case Shift(q) =>
        ShiftYield(tokens, stk, pos, q);
        RunIsSound(tokens, Push(stk, T(tokens[pos]), q), pos + 1, limit);
      case Reduce(rule) =>
        ReductionKeepsYield(stk, rule);
        RunIsSound(tokens, Reduced(stk, rule), pos, limit);
    }
  }

  // ---- Completeness ----

  /** How many symbols parsing a string value or an expression needs above the stack it starts on. */
  function StrNeed(s: Str): (n: nat)
    ensures 3 <= n
  {
    match s
    case Call1(_, a) => Max(2 + StrNeed(a), 4)
    case _ => 3
  }

  function Need(e: Exp): (n: nat)
    ensures 1 <= n
  {
    match e
    case Length(s) => StrNeed(s)
    case Equal(l, r) => Max(StrNeed(l), 2 + StrNeed(r))
    case EqualNoCase(l, r) => Max(StrNeed(l), 2 + StrNeed(r))
    case Paren(e1) => Max(1 + Need(e1), 3)
    case Not(e1) => 1 + Need(e1)
    case And(l, r) => Max(Need(l), 2 + Need(r))
    case Or(l, r) => Max(Need(l), 2 + Need(r))
    case Bin(_) => 1
    case BinEqual(_, _) => 3
  }

  function Max(a: nat, b: nat): nat {
    if a < b then b else a
  }

  ghost predicate At(tokens: seq<Token>, pos: nat, part: seq<Token>) {
    pos + |part| <= |tokens| && tokens[pos..pos + |part|] == part
  }

  lemma AtSplit(tokens: seq<Token>, pos: nat, a: seq<Token>, b: seq<Token>)
    requires At(tokens, pos, a + b)
    ensures At(tokens, pos, a) && At(tokens, pos + |a|, b)
  {
    assert tokens[pos..pos + |a|] == (a + b)[..|a|] == a;
    assert tokens[pos + |a|..pos + |a| + |b|] == (a + b)[|a|..] == b;
  }

  lemma AtToken(tokens: seq<Token>, pos: nat, tok: Token)
    requires At(tokens, pos, [tok])
    ensures pos < |tokens| && tokens[pos] == tok && ClassAt(tokens, pos) == Class(tok)
  {
    assert tokens[pos] == tokens[pos..pos + 1][0];
  }

  /** Names the points at which `Ready` and `Moves` are looked up; it keeps the verifier from following whole runs on
      its own. */
  predicate Look(stk: Stack, pos: nat) { true }

  /** A run may stand at `stk` after `pos` tokens. */
  ghost predicate Ready(tokens: seq<Token>, stk: Stack, pos: nat) {
    && pos <= |tokens|
    && forall s: Stack, p: nat {:trigger Look(s, p)} :: Look(s, p) && s == stk && p == pos ==>
         Valid(s) && Settled(s, ClassAt(tokens, p))
  }

  /** How runs on `tokens` end, from any stack and position. */
  type Ending = (Stack, nat) -> Outcome

  /** `run` makes the parser's move at one point: it ends the way it ends after the shift or the reduction. */
  ghost predicate MovesAt(run: Ending, tokens: seq<Token>, limit: nat, stk: Stack, pos: nat)
    requires pos <= |tokens|
  {
    if limit <= Depth(stk) + 1 then run(stk, pos) == Exhausted
    else match Act(Top(stk), ClassAt(tokens, pos))
      case Shift(q) => pos < |tokens| && run(stk, pos) == run(Push(stk, T(tokens[pos]), q), pos + 1)
      case Reduce(rule) => Handle(stk, rule) && run(stk, pos) == run(Reduced(stk, rule), pos)
      case _ => true
  }

  ghost predicate Moves(run: Ending, tokens: seq<Token>, limit: nat) {
    forall stk: Stack, pos: nat {:trigger Look(stk, pos)} ::
      Look(stk, pos) && Ready(tokens, stk, pos) ==> MovesAt(run, tokens, limit, stk, pos)
  }

  /** The run from `stk` comes to `stk1`, using up to `need` more symbols on the way; it ends there if they do not
      fit. */
  ghost predicate Leads(run: Ending, tokens: seq<Token>, stk: Stack, pos: nat, need: nat, stk1: Stack, pos1: nat,
                        limit: nat) {
    && Ready(tokens, stk1, pos1)
    && (if Depth(stk) + need + 1 < limit then run(stk, pos) == run(stk1, pos1) else run(stk, pos) == Exhausted)
    && (limit <= Depth(stk1) + 1 ==> run(stk1, pos1) == Exhausted)
  }

  lemma LeadsThen(run: Ending, tokens: seq<Token>, a: Stack, pa: nat, m: nat, b: Stack, pb: nat, n: nat, c: Stack,
                  pc: nat, limit: nat)
    requires Leads(run, tokens, a, pa, m, b, pb, limit) && Leads(run, tokens, b, pb, n, c, pc, limit)
    requires Depth(a) <= Depth(b)
    ensures Leads(run, tokens, a, pa, Max(m, Depth(b) - Depth(a) + n), c, pc, limit)
  {
  }

  lemma ShiftLeads(run: Ending, tokens: seq<Token>, stk: Stack, pos: nat, tok: Token, q: int, limit: nat)
    requires Moves(run, tokens, limit)
    requires Ready(tokens, stk, pos) && At(tokens, pos, [tok])
    requires Act(Top(stk), Class(tok)) == Shift(q)
    ensures Leads(run, tokens, stk, pos, 1, Push(stk, T(tok), q), pos + 1, limit)
  {
    AtToken(tokens, pos, tok);
    assert Look(stk, pos);
    ShiftIsSound(stk, tok, ClassAt(tokens, pos + 1));
    assert Look(Push(stk, T(tok), q), pos + 1);
  }

  lemma ReduceLeads(run: Ending, tokens: seq<Token>, stk: Stack, pos: nat, rule: int, limit: nat)
    requires Moves(run, tokens, limit)
    requires Ready(tokens, stk, pos) && Act(Top(stk), ClassAt(tokens, pos)) == Reduce(rule)
    ensures Handle(stk, rule) && Leads(run, tokens, stk, pos, 0, Reduced(stk, rule), pos, limit)
  {
    assert Look(stk, pos);
    ReductionIsSound(stk, ClassAt(tokens, pos), rule);
    assert Look(Reduced(stk, rule), pos);
  }

  function Over(stk: Stack, sym: Sym): Stack {
    Push(stk, sym, Goto(Top(stk), Nonterminal(sym)))
  }

  /** Two tokens in a row. */
  lemma ShiftTwo(run: Ending, tokens: seq<Token>, stk: Stack, pos: nat, x: Token, p: int, y: Token, q: int, limit: nat)
    requires Moves(run, tokens, limit)
    requires Ready(tokens, stk, pos) && At(tokens, pos, [x, y])
    requires Act(Top(stk), Class(x)) == Shift(p) && Act(p, Class(y)) == Shift(q)
    ensures Leads(run, tokens, stk, pos, 2, Push(Push(stk, T(x), p), T(y), q), pos + 2, limit)
  {
    assert [x, y] == [x] + [y];
    AtSplit(tokens, pos, [x], [y]);
    var s1 := Push(stk, T(x), p);
    ShiftLeads(run, tokens, stk, pos, x, p, limit);
    ShiftLeads(run, tokens, s1, pos + 1, y, q, limit);
    LeadsThen(run, tokens, stk, pos, 1, s1, pos + 1, 1, Push(s1, T(y), q), pos + 2, limit);
  }

  /** A token that completes the handle of `rule`. */
  lemma ThenClose(run: Ending, tokens: seq<Token>, stk: Stack, pos: nat, need: nat, s1: Stack, pos1: nat, tok: Token,
                  q: int,
                  rule: int, limit: nat)
    requires Moves(run, tokens, limit)
    requires Leads(run, tokens, stk, pos, need, s1, pos1, limit) && Depth(stk) <= Depth(s1) <= Depth(stk) + need
    requires At(tokens, pos1, [tok]) && Act(Top(s1), Class(tok)) == Shift(q)
    requires forall t :: Act(q, t) == Reduce(rule)
    ensures Handle(Push(s1, T(tok), q), rule)
    ensures Leads(run, tokens, stk, pos, Max(need, Depth(s1) - Depth(stk) + 1), Reduced(Push(s1, T(tok), q), rule),
                  pos1 + 1, limit)
  {
    var s2, n := Push(s1, T(tok), q), Depth(s1) - Depth(stk);
    ShiftLeads(run, tokens, s1, pos1, tok, q, limit);
    LeadsThen(run, tokens, stk, pos, need, s1, pos1, 1, s2, pos1 + 1, limit);
    ReduceLeads(run, tokens, s2, pos1 + 1, rule, limit);
    LeadsThen(run, tokens, stk, pos, Max(need, n + 1), s2, pos1 + 1, 0, Reduced(s2, rule), pos1 + 1, limit);
  }

  /** A handle of three tokens. */
  lemma ReadThree(run: Ending, tokens: seq<Token>, stk: Stack, pos: nat, x: Token, p: int, y: Token, q: int, z: Token,
                  r: int,
                  rule: int, limit: nat)
    requires Moves(run, tokens, limit)
    requires Ready(tokens, stk, pos) && At(tokens, pos, [x, y, z])
    requires Act(Top(stk), Class(x)) == Shift(p) && Act(p, Class(y)) == Shift(q) && Act(q, Class(z)) == Shift(r)
    requires forall t :: Act(r, t) == Reduce(rule)
    ensures var s3 := Push(Push(Push(stk, T(x), p), T(y), q), T(z), r);
      Handle(s3, rule) && Leads(run, tokens, stk, pos, 3, Reduced(s3, rule), pos + 3, limit)
  {
    assert [x, y, z] == [x, y] + [z];
    AtSplit(tokens, pos, [x, y], [z]);
    ShiftTwo(run, tokens, stk, pos, x, p, y, q, limit);
    ThenClose(run, tokens, stk, pos, 2, Push(Push(stk, T(x), p), T(y), q), pos + 2, z, r, rule, limit);
  }

  /** A function value, once reduced, becomes a string value. */
  lemma FunctionBecomesString(run: Ending, tokens: seq<Token>, stk: Stack, pos: nat, f: Str, need: nat, pos1: nat,
                              limit: nat)
    requires Moves(run, tokens, limit)
    requires Leads(run, tokens, stk, pos, need, Over(stk, FN(f)), pos1, limit) && StringStart(Top(stk)) && 1 <= need
    ensures Leads(run, tokens, stk, pos, need, Over(stk, SV(f)), pos1, limit)
  {
    var s1 := Over(stk, FN(f));
    ReduceLeads(run, tokens, s1, pos1, 4, limit);
    LeadsThen(run, tokens, stk, pos, need, s1, pos1, 0, Over(stk, SV(f)), pos1, limit);
  }

  lemma ReadQuoted(run: Ending, tokens: seq<Token>, stk: Stack, pos: nat, s: Str, limit: nat)
    requires Moves(run, tokens, limit)
    requires Ready(tokens, stk, pos) && StringStart(Top(stk)) && At(tokens, pos, StrYield(s))
      && (s.Literal? || s.IdLiteral?)
    ensures Leads(run, tokens, stk, pos, 3, Over(stk, SV(s)), pos + 3, limit)
  {
    if s.Literal? {
      ReadThree(run, tokens, stk, pos, QuoteTok, 4, StringTok(s.text), 13, QuoteTok, 24, 3, limit);
    } else {
      ReadThree(run, tokens, stk, pos, QuoteTok, 4, IdTok(s.text), 14, QuoteTok, 25, 5, limit);
    }
  }

  lemma ReadCall0(run: Ending, tokens: seq<Token>, stk: Stack, pos: nat, f: string, limit: nat)
    requires Moves(run, tokens, limit)
    requires Ready(tokens, stk, pos) && StringStart(Top(stk)) && At(tokens, pos, StrYield(Call0(f)))
    ensures Leads(run, tokens, stk, pos, 3, Over(stk, SV(Call0(f))), pos + 3, limit)
  {
    ReadThree(run, tokens, stk, pos, IdTok(f), 1, LParTok, 10, RParTok, 21, 6, limit);
    FunctionBecomesString(run, tokens, stk, pos, Call0(f), 3, pos + 3, limit);
  }

  /** A string value is read wherever one may begin. */
  lemma {:induction false} ReadString(run: Ending, tokens: seq<Token>, stk: Stack, pos: nat, s: Str, limit: nat)
    requires Moves(run, tokens, limit)
    requires Ready(tokens, stk, pos) && StringStart(Top(stk)) && At(tokens, pos, StrYield(s))
    ensures Leads(run, tokens, stk, pos, StrNeed(s), Over(stk, SV(s)), pos + |StrYield(s)|, limit)
    decreases s, 2
  {
    match s
    case Literal(x) => ReadQuoted(run, tokens, stk, pos, s, limit);
    case IdLiteral(x) => ReadQuoted(run, tokens, stk, pos, s, limit);
    case Call0(f) => ReadCall0(run, tokens, stk, pos, f, limit);
    case Call1(f, a) => ReadCall1(run, tokens, stk, pos, f, a, limit);
  }

  /** After an operand `sym`, the token `op`. */
  lemma ThenToken(run: Ending, tokens: seq<Token>, stk: Stack, pos: nat, need: nat, sym: Sym, pos1: nat, op: Token,
                  q: int, limit: nat)
    requires Moves(run, tokens, limit)
    requires Leads(run, tokens, stk, pos, need, Over(stk, sym), pos1, limit) && 1 <= need
    requires At(tokens, pos1, [op]) && Act(Top(Over(stk, sym)), Class(op)) == Shift(q)
    ensures Leads(run, tokens, stk, pos, Max(need, 2), Push(Over(stk, sym), T(op), q), pos1 + 1, limit)
  {
    var s1 := Over(stk, sym);
    ShiftLeads(run, tokens, s1, pos1, op, q, limit);
    LeadsThen(run, tokens, stk, pos, need, s1, pos1, 1, Push(s1, T(op), q), pos1 + 1, limit);
  }

  /** After two symbols, an operand `sym` that completes the handle of `rule`. */
  lemma ThenOperand(run: Ending, tokens: seq<Token>, stk: Stack, pos: nat, m: nat, s2: Stack, pos2: nat, n: nat,
                    sym: Sym, pos3: nat,
                    rule: int, limit: nat)
    requires Moves(run, tokens, limit)
    requires Leads(run, tokens, stk, pos, m, s2, pos2, limit) && Depth(s2) == Depth(stk) + 2
    requires Leads(run, tokens, s2, pos2, n, Over(s2, sym), pos3, limit) && 1 <= n
    requires Act(Top(Over(s2, sym)), ClassAt(tokens, pos3)) == Reduce(rule)
    ensures Handle(Over(s2, sym), rule)
    ensures Leads(run, tokens, stk, pos, Max(m, 2 + n), Reduced(Over(s2, sym), rule), pos3, limit)
  {
    var s3 := Over(s2, sym);
    LeadsThen(run, tokens, stk, pos, m, s2, pos2, n, s3, pos3, limit);
    ReduceLeads(run, tokens, s3, pos3, rule, limit);
    LeadsThen(run, tokens, stk, pos, Max(m, 2 + n), s3, pos3, 0, Reduced(s3, rule), pos3, limit);
  }

  lemma {:induction false} ReadArgument(run: Ending, tokens: seq<Token>, stk: Stack, pos: nat, f: string, a: Str,
                                        limit: nat)
    requires Moves(run, tokens, limit)
    requires Ready(tokens, stk, pos) && StringStart(Top(stk)) && At(tokens, pos, StrYield(Call1(f, a)))
    ensures var s2 := Push(Push(stk, T(IdTok(f)), 1), T(LParTok), 10);
      Leads(run, tokens, stk, pos, 2 + StrNeed(a), Over(s2, SV(a)), pos + 2 + |StrYield(a)|, limit)
    ensures At(tokens, pos + 2 + |StrYield(a)|, [RParTok])
    decreases Call1(f, a), 0
  {
    AtSplit(tokens, pos, [IdTok(f), LParTok] + StrYield(a), [RParTok]);
    AtSplit(tokens, pos, [IdTok(f), LParTok], StrYield(a));
    ShiftTwo(run, tokens, stk, pos, IdTok(f), 1, LParTok, 10, limit);
    var s2 := Push(Push(stk, T(IdTok(f)), 1), T(LParTok), 10);
    ReadString(run, tokens, s2, pos + 2, a, limit);
    LeadsThen(run, tokens, stk, pos, 2, s2, pos + 2, StrNeed(a), Over(s2, SV(a)), pos + 2 + |StrYield(a)|, limit);
  }

  lemma {:induction false} ReadCall1(run: Ending, tokens: seq<Token>, stk: Stack, pos: nat, f: string, a: Str,
                                     limit: nat)
    requires Moves(run, tokens, limit)
    requires Ready(tokens, stk, pos) && StringStart(Top(stk)) && At(tokens, pos, StrYield(Call1(f, a)))
    ensures Leads(run, tokens, stk, pos, StrNeed(Call1(f, a)), Over(stk, SV(Call1(f, a))), pos + |StrYield(a)| + 3,
                  limit)
    decreases Call1(f, a), 1
  {
    var pos3 := pos + 2 + |StrYield(a)|;
    ReadArgument(run, tokens, stk, pos, f, a, limit);
    var s2 := Push(Push(stk, T(IdTok(f)), 1), T(LParTok), 10);
    assert Depth(s2) == Depth(stk) + 2;
    ThenClose(run, tokens, stk, pos, 2 + StrNeed(a), Over(s2, SV(a)), pos3, RParTok, 31, 7, limit);
    FunctionBecomesString(run, tokens, stk, pos, Call1(f, a), StrNeed(Call1(f, a)), pos3 + 1, limit);
  }

  /** The conditions under which expression `e` is read between `pos` and `end`: it binds tightly enough where the run
      stands, and the token after it does not continue it. */
  ghost predicate MayRead(tokens: seq<Token>, stk: Stack, pos: nat, e: Exp, end: nat) {
    && Ready(tokens, stk, pos) && ExpStart(Top(stk))
    && At(tokens, pos, Yield(e)) && end == pos + |Yield(e)|
    && Stratified(e) && Floor(Goto(Top(stk), EXP)) <= Level(e)
    && Stops(ClassAt(tokens, end), Level(e))
  }

  /** A lookahead that does not continue an expression of the given level. */
  predicate Stops(t: int, level: nat) {
    t != EQ_DOUBLE && t != EQ_TRIPLE && (level == 0 ==> t != OR)
  }

  lemma ReadLength(run: Ending, tokens: seq<Token>, stk: Stack, pos: nat, s: Str, end: nat, limit: nat)
    requires Moves(run, tokens, limit) && MayRead(tokens, stk, pos, Length(s), end)
    ensures Leads(run, tokens, stk, pos, Need(Length(s)), Over(stk, EX(Length(s))), end, limit)
  {
    ReadString(run, tokens, stk, pos, s, limit);
    assert end == pos + |StrYield(s)|;
    var s1 := Over(stk, SV(s));
    ReduceLeads(run, tokens, s1, end, 8, limit);
    LeadsThen(run, tokens, stk, pos, StrNeed(s), s1, end, 0, Over(stk, EX(Length(s))), end, limit);
  }

  /** `e` compares `l` and `r` by the operator token `op`, which is shifted to state `q`. */
  predicate Compares(e: Exp, l: Str, op: Token, r: Str, q: int) {
    (op == EqDoubleTok && q == 17 && e == Equal(l, r)) || (op == EqTripleTok && q == 18 && e == EqualNoCase(l, r))
  }

  lemma ComparisonParts(tokens: seq<Token>, pos: nat, e: Exp, l: Str, op: Token, r: Str, q: int)
    requires Compares(e, l, op, r, q) && At(tokens, pos, Yield(e))
    ensures At(tokens, pos, StrYield(l)) && At(tokens, pos + |StrYield(l)|, [op])
    ensures At(tokens, pos + |StrYield(l)| + 1, StrYield(r))
    ensures |Yield(e)| == |StrYield(l)| + 1 + |StrYield(r)|
  {
    assert Yield(e) == StrYield(l) + [op] + StrYield(r);
    AtSplit(tokens, pos, StrYield(l) + [op], StrYield(r));
    AtSplit(tokens, pos, StrYield(l), [op]);
  }

  lemma ReadComparison(run: Ending, tokens: seq<Token>, stk: Stack, pos: nat, e: Exp, l: Str, op: Token, r: Str, q: int,
                       end: nat, limit: nat)
    requires Moves(run, tokens, limit) && MayRead(tokens, stk, pos, e, end) && Compares(e, l, op, r, q)
    ensures Leads(run, tokens, stk, pos, Need(e), Over(stk, EX(e)), end, limit)
  {
    var pos2 := pos + |StrYield(l)| + 1;
    ComparisonParts(tokens, pos, e, l, op, r, q);
    assert end == pos2 + |StrYield(r)|;
    ReadString(run, tokens, stk, pos, l, limit);
    var s2 := Push(Over(stk, SV(l)), T(op), q);
    ThenToken(run, tokens, stk, pos, StrNeed(l), SV(l), pos2 - 1, op, q, limit);
    ReadString(run, tokens, s2, pos2, r, limit);
    ComparisonReduces(run, tokens, stk, pos, e, l, op, pos2, r, q, end, limit);
  }

  lemma ComparisonReduces(run: Ending, tokens: seq<Token>, stk: Stack, pos: nat, e: Exp, l: Str, op: Token, pos2: nat,
                          r: Str, q: int, end: nat, limit: nat)
    requires Moves(run, tokens, limit) && Compares(e, l, op, r, q)
    requires var s2 := Push(Over(stk, SV(l)), T(op), q);
      && Leads(run, tokens, stk, pos, Max(StrNeed(l), 2), s2, pos2, limit)
      && Leads(run, tokens, s2, pos2, StrNeed(r), Over(s2, SV(r)), end, limit)
    ensures Leads(run, tokens, stk, pos, Need(e), Over(stk, EX(e)), end, limit)
  {
    var s2 := Push(Over(stk, SV(l)), T(op), q);
    assert Top(Over(s2, SV(r))) == if op == EqDoubleTok then 27 else 28;
    var rule := if op == EqDoubleTok then 9 else 10;
    ThenOperand(run, tokens, stk, pos, Max(StrNeed(l), 2), s2, pos2, StrNeed(r), SV(r), end, rule, limit);
    assert Need(e) == Max(StrNeed(l), 2 + StrNeed(r));
  }

  lemma ReadBin(run: Ending, tokens: seq<Token>, stk: Stack, pos: nat, n: bv32, end: nat, limit: nat)
    requires Moves(run, tokens, limit) && MayRead(tokens, stk, pos, Bin(n), end)
    ensures Leads(run, tokens, stk, pos, Need(Bin(n)), Over(stk, EX(Bin(n))), end, limit)
  {
    var s1 := Push(stk, T(ExpBinTok(n)), 2);
    ShiftLeads(run, tokens, stk, pos, ExpBinTok(n), 2, limit);
    ReduceLeads(run, tokens, s1, end, 15, limit);
    LeadsThen(run, tokens, stk, pos, 1, s1, end, 0, Over(stk, EX(Bin(n))), end, limit);
  }

  lemma ReadBinEqual(run: Ending, tokens: seq<Token>, stk: Stack, pos: nat, m: bv32, n: bv32, end: nat, limit: nat)
    requires Moves(run, tokens, limit) && MayRead(tokens, stk, pos, BinEqual(m, n), end)
    ensures Leads(run, tokens, stk, pos, Need(BinEqual(m, n)), Over(stk, EX(BinEqual(m, n))), end, limit)
  {
    ReadThree(run, tokens, stk, pos, ExpBinTok(m), 2, EqDoubleTok, 11, ExpBinTok(n), 23, 16, limit);
  }

  /** An expression is read wherever it may be: the run puts its tree on the stack. */
  lemma {:induction false} ReadExp(run: Ending, tokens: seq<Token>, stk: Stack, pos: nat, e: Exp, end: nat, limit: nat)
    requires Moves(run, tokens, limit) && MayRead(tokens, stk, pos, e, end)
    ensures Leads(run, tokens, stk, pos, Need(e), Over(stk, EX(e)), end, limit)
    decreases e, 1
  {
    match e
    case Length(s) => ReadLength(run, tokens, stk, pos, s, end, limit);
    case Equal(l, r) => ReadComparison(run, tokens, stk, pos, e, l, EqDoubleTok, r, 17, end, limit);
    case EqualNoCase(l, r) => ReadComparison(run, tokens, stk, pos, e, l, EqTripleTok, r, 18, end, limit);
    case Paren(e1) => ReadParen(run, tokens, stk, pos, e1, end, limit);
    case Not(e1) => ReadNot(run, tokens, stk, pos, e1, end, limit);
    case And(l, r) => ReadBinary(run, tokens, stk, pos, l, AndTok, r, 19, end, limit);
    case Or(l, r) => ReadBinary(run, tokens, stk, pos, l, OrTok, r, 20, end, limit);
    case Bin(n) => ReadBin(run, tokens, stk, pos, n, end, limit);
    case BinEqual(m, n) => ReadBinEqual(run, tokens, stk, pos, m, n, end, limit);
  }

  /** The operand of NOT is read up to the end of the negation. */
  lemma MayReadNegated(tokens: seq<Token>, stk: Stack, pos: nat, e: Exp, end: nat)
    requires MayRead(tokens, stk, pos, Not(e), end)
    ensures At(tokens, pos, [NotTok])
    ensures var s1 := Push(stk, T(NotTok), 3); Ready(tokens, s1, pos + 1) ==> MayRead(tokens, s1, pos + 1, e, end)
  {
    AtSplit(tokens, pos, [NotTok], Yield(e));
    assert end == pos + 1 + |Yield(e)|;
  }

  lemma {:induction false} ReadNot(run: Ending, tokens: seq<Token>, stk: Stack, pos: nat, e: Exp, end: nat, limit: nat)
    requires Moves(run, tokens, limit) && MayRead(tokens, stk, pos, Not(e), end)
    ensures Leads(run, tokens, stk, pos, Need(Not(e)), Over(stk, EX(Not(e))), end, limit)
    decreases Not(e), 0
  {
    var s1 := Push(stk, T(NotTok), 3);
    MayReadNegated(tokens, stk, pos, e, end);
    ShiftLeads(run, tokens, stk, pos, NotTok, 3, limit);
    ReadExp(run, tokens, s1, pos + 1, e, end, limit);
    var s2 := Over(s1, EX(e));
    LeadsThen(run, tokens, stk, pos, 1, s1, pos + 1, Need(e), s2, end, limit);
    ReduceLeads(run, tokens, s2, end, 12, limit);
    LeadsThen(run, tokens, stk, pos, 1 + Need(e), s2, end, 0, Over(stk, EX(Not(e))), end, limit);
  }

  /** The expression in parentheses is read up to the closing one. */
  lemma MayReadEnclosed(tokens: seq<Token>, stk: Stack, pos: nat, e: Exp, end: nat)
    requires MayRead(tokens, stk, pos, Paren(e), end)
    ensures pos + 2 <= end && At(tokens, pos, [LParTok]) && At(tokens, end - 1, [RParTok])
    ensures var s1 := Push(stk, T(LParTok), 5); Ready(tokens, s1, pos + 1) ==> MayRead(tokens, s1, pos + 1, e, end - 1)
  {
    AtSplit(tokens, pos, [LParTok] + Yield(e), [RParTok]);
    AtSplit(tokens, pos, [LParTok], Yield(e));
    assert end - 1 == pos + 1 + |Yield(e)|;
    AtToken(tokens, end - 1, RParTok);
  }

  lemma {:induction false} ReadParen(run: Ending, tokens: seq<Token>, stk: Stack, pos: nat, e: Exp, end: nat,
                                     limit: nat)
    requires Moves(run, tokens, limit) && MayRead(tokens, stk, pos, Paren(e), end)
    ensures Leads(run, tokens, stk, pos, Need(Paren(e)), Over(stk, EX(Paren(e))), end, limit)
    decreases Paren(e), 0
  {
    var s1 := Push(stk, T(LParTok), 5);
    MayReadEnclosed(tokens, stk, pos, e, end);
    ShiftLeads(run, tokens, stk, pos, LParTok, 5, limit);
    ReadExp(run, tokens, s1, pos + 1, e, end - 1, limit);
    var s2 := Over(s1, EX(e));
    LeadsThen(run, tokens, stk, pos, 1, s1, pos + 1, Need(e), s2, end - 1, limit);
    CloseParen(run, tokens, stk, pos, e, end, limit);
  }

  lemma CloseParen(run: Ending, tokens: seq<Token>, stk: Stack, pos: nat, e: Exp, end: nat, limit: nat)
    requires Moves(run, tokens, limit) && MayRead(tokens, stk, pos, Paren(e), end) && end > 0
    requires At(tokens, end - 1, [RParTok])
    requires var s2 := Over(Push(stk, T(LParTok), 5), EX(e));
      Leads(run, tokens, stk, pos, 1 + Need(e), s2, end - 1, limit)
    ensures Leads(run, tokens, stk, pos, Need(Paren(e)), Over(stk, EX(Paren(e))), end, limit)
  {
    var s2 := Over(Push(stk, T(LParTok), 5), EX(e));
    ThenClose(run, tokens, stk, pos, 1 + Need(e), s2, end - 1, RParTok, 26, 11, limit);
  }

  function Binary(op: Token, l: Exp, r: Exp): Exp {
    if op == AndTok then And(l, r) else Or(l, r)
  }

  /** AND is shifted to state 19, OR to state 20. */
  predicate Operator(op: Token, q: int) {
    (op == AndTok && q == 19) || (op == OrTok && q == 20)
  }

  /** Where the parts of a binary operation stand. */
  lemma BinaryParts(tokens: seq<Token>, pos: nat, l: Exp, op: Token, r: Exp)
    requires (op == AndTok || op == OrTok) && At(tokens, pos, Yield(Binary(op, l, r)))
    ensures At(tokens, pos, Yield(l)) && At(tokens, pos + |Yield(l)|, [op])
      && At(tokens, pos + |Yield(l)| + 1, Yield(r))
    ensures |Yield(Binary(op, l, r))| == |Yield(l)| + 1 + |Yield(r)|
  {
    assert Yield(Binary(op, l, r)) == Yield(l) + [op] + Yield(r);
    AtSplit(tokens, pos, Yield(l) + [op], Yield(r));
    AtSplit(tokens, pos, Yield(l), [op]);
  }

  /** The operands of a stratified operation bind tightly enough for the states they are read in. */
  lemma OperandsFit(base: int, l: Exp, op: Token, r: Exp, q: int)
    requires Operator(op, q) && Stratified(Binary(op, l, r)) && Floor(base) <= Level(Binary(op, l, r))
    ensures Stratified(l) && Floor(base) <= Level(l) && Stops(Class(op), Level(l))
    ensures Stratified(r) && ExpStart(q) && Floor(Goto(q, EXP)) <= Level(r) && 1 <= Level(r)
  {
  }

  /** After its left operand, a binary operation shifts its operator. */
  lemma OperatorShifts(base: int, op: Token, l: Exp, r: Exp, q: int)
    requires Operator(op, q) && ExpStart(base) && Floor(Goto(base, EXP)) <= Level(Binary(op, l, r))
    ensures Act(Goto(base, EXP), Class(op)) == Shift(q)
  {
  }

  /** The left operand is read up to the operator. */
  lemma MayReadLeft(tokens: seq<Token>, stk: Stack, pos: nat, l: Exp, op: Token, r: Exp, q: int, pos1: nat, end: nat)
    requires Operator(op, q) && MayRead(tokens, stk, pos, Binary(op, l, r), end) && pos1 == pos + |Yield(l)|
    ensures MayRead(tokens, stk, pos, l, pos1) && At(tokens, pos1, [op])
  {
    LeftStands(tokens, pos, l, op, r, pos1);
    LeftFits(Top(stk), l, op, r, q);
  }

  lemma LeftStands(tokens: seq<Token>, pos: nat, l: Exp, op: Token, r: Exp, pos1: nat)
    requires (op == AndTok || op == OrTok) && At(tokens, pos, Yield(Binary(op, l, r))) && pos1 == pos + |Yield(l)|
    ensures At(tokens, pos, Yield(l)) && At(tokens, pos1, [op]) && ClassAt(tokens, pos1) == Class(op)
  {
    BinaryParts(tokens, pos, l, op, r);
    AtToken(tokens, pos1, op);
  }

  lemma LeftFits(s: int, l: Exp, op: Token, r: Exp, q: int)
    requires Operator(op, q) && ExpStart(s) && Stratified(Binary(op, l, r))
    requires Floor(Goto(s, EXP)) <= Level(Binary(op, l, r))
    ensures Stratified(l) && Floor(Goto(s, EXP)) <= Level(l) && Stops(Class(op), Level(l))
  {
    OperandsFit(Goto(s, EXP), l, op, r, q);
  }

  /** The right operand is read up to the end of the operation. */
  lemma MayReadRight(tokens: seq<Token>, stk: Stack, pos: nat, l: Exp, op: Token, r: Exp, s2: Stack, q: int, end: nat)
    requires Operator(op, q) && MayRead(tokens, stk, pos, Binary(op, l, r), end)
    requires Ready(tokens, s2, pos + |Yield(l)| + 1) && Top(s2) == q
    ensures MayRead(tokens, s2, pos + |Yield(l)| + 1, r, end)
    ensures op == AndTok ==> ClassAt(tokens, end) != OR
  {
    BinaryParts(tokens, pos, l, op, r);
    OperandsFit(Goto(Top(stk), EXP), l, op, r, q);
  }

  /** The right operand of a binary operation, and the reduction. */
  lemma BinaryRight(run: Ending, tokens: seq<Token>, stk: Stack, pos: nat, l: Exp, op: Token, pos2: nat, r: Exp,
                    q: int, end: nat, limit: nat)
    requires Moves(run, tokens, limit) && Operator(op, q)
    requires var s2 := Push(Over(stk, EX(l)), T(op), q);
      && Leads(run, tokens, stk, pos, Max(Need(l), 2), s2, pos2, limit)
      && Leads(run, tokens, s2, pos2, Need(r), Over(s2, EX(r)), end, limit)
    requires op == AndTok ==> ClassAt(tokens, end) != OR
    ensures var e := Binary(op, l, r); Leads(run, tokens, stk, pos, Need(e), Over(stk, EX(e)), end, limit)
  {
    var s2 := Push(Over(stk, EX(l)), T(op), q);
    assert Top(Over(s2, EX(r))) == if op == AndTok then 29 else 30;
    var rule := if op == AndTok then 13 else 14;
    ThenOperand(run, tokens, stk, pos, Max(Need(l), 2), s2, pos2, Need(r), EX(r), end, rule, limit);
    assert Need(Binary(op, l, r)) == Max(Need(l), 2 + Need(r));
  }

  /** A binary operation; OR stops before AND, and AND before nothing but the end of its operands. */
  lemma {:induction false} ReadBinary(run: Ending, tokens: seq<Token>, stk: Stack, pos: nat, l: Exp, op: Token, r: Exp,
                                      q: int,
                                      end: nat, limit: nat)
    requires Moves(run, tokens, limit) && Operator(op, q) && MayRead(tokens, stk, pos, Binary(op, l, r), end)
    ensures var e := Binary(op, l, r); Leads(run, tokens, stk, pos, Need(e), Over(stk, EX(e)), end, limit)
    decreases Binary(op, l, r), 0
  {
    var s2, pos2 := Push(Over(stk, EX(l)), T(op), q), pos + |Yield(l)| + 1;
    MayReadLeft(tokens, stk, pos, l, op, r, q, pos2 - 1, end);
    OperatorShifts(Top(stk), op, l, r, q);
    ReadExp(run, tokens, stk, pos, l, pos2 - 1, limit);
    ThenToken(run, tokens, stk, pos, Need(l), EX(l), pos2 - 1, op, q, limit);
    MayReadRight(tokens, stk, pos, l, op, r, s2, q, end);
    ReadExp(run, tokens, s2, pos2, r, end, limit);
    BinaryRight(run, tokens, stk, pos, l, op, pos2, r, q, end, limit);
  }
}
