/** What the parser accepts, what it answers, and where it stops. */
module RulesTheorems {
  import opened RulesTables
  import opened RulesGrammar
  import opened RulesAutomaton
  import opened RulesRuns

  /** Every accepted token sequence is written by the stratified expression the parser finds. */
  lemma ParseIsSound(tokens: seq<Token>, limit: nat)
    ensures var r := Parse(tokens, limit);
      r.Accepted? ==> Writes(r.e, tokens)
  {
    RunIsSound(tokens, Bottom, 0, limit);
  }

  /** `Run` itself, as a function of the stack and the position. */
  ghost function RunOn(tokens: seq<Token>, limit: nat): Ending {
    (s: Stack, p: nat) =>
      if p <= |tokens| && Valid(s) && Settled(s, ClassAt(tokens, p)) then Run(tokens, s, p, limit) else Exhausted
  }

  lemma RunMoves(tokens: seq<Token>, limit: nat)
    ensures Moves(RunOn(tokens, limit), tokens, limit)
  {
    var run := RunOn(tokens, limit);
    forall s: Stack, p: nat | Look(s, p) && Ready(tokens, s, p)
      ensures MovesAt(run, tokens, limit, s, p)
    {
      var t := ClassAt(tokens, p);
      match Act(Top(s), t)
      case Shift(q) =>
        OnlyTokensShift(tokens, s, p);
        ShiftIsSound(s, tokens[p], ClassAt(tokens, p + 1));
      case Reduce(rule) => ReductionIsSound(s, t, rule);
      case _ =>
    }
  }

  /** The exact outcome on every sentence: it is accepted with its own tree if the stack has room for it, and exhausts
      the stack otherwise. */
  lemma ParseIsComplete(e: Exp, limit: nat)
    requires Stratified(e)
    ensures Parse(Yield(e), limit) == if Need(e) + 1 < limit then Accepted(e) else Exhausted
  {
    var tokens := Yield(e);
    var run := RunOn(tokens, limit);
    RunMoves(tokens, limit);
    assert tokens[0..|tokens|] == tokens;
    ReadExp(run, tokens, Bottom, 0, e, |tokens|, limit);
    if Need(e) + 1 < limit {
      var s1 := Over(Bottom, EX(e));
      assert Look(s1, |tokens|);
      ReductionIsSound(s1, END, 2);
      var s2 := Over(Bottom, IN(e));
      assert Run(tokens, s1, |tokens|, limit) == Run(tokens, s2, |tokens|, limit);
    }
  }

  /** The stratified grammar is unambiguous: no token sequence is written by two expressions. */
  lemma Unambiguous(e1: Exp, e2: Exp)
    requires Stratified(e1) && Stratified(e2) && Yield(e1) == Yield(e2)
    ensures e1 == e2
  {
    var limit := Need(e1) + Need(e2) + 2;
    ParseIsComplete(e1, limit);
    ParseIsComplete(e2, limit);
  }

  /** Rejection is exactly not being a sentence, within the depth limit. */
  lemma RejectedIffNoSentence(tokens: seq<Token>, limit: nat)
    requires !Parse(tokens, limit).Exhausted?
    ensures Parse(tokens, limit).Rejected? <==> !Sentence(tokens)
  {
    ParseIsSound(tokens, limit);
    if Sentence(tokens) {
      var e :| Writes(e, tokens);
      ParseIsComplete(e, limit);
    }
  }

  /** The outcome in terms of sentences alone. */
  lemma ParseVerdict(tokens: seq<Token>, limit: nat)
    ensures Parse(tokens, limit).Accepted? <==> exists e :: Writes(e, tokens) && Need(e) + 1 < limit
    ensures forall e | Writes(e, tokens) :: Parse(tokens, limit) == if Need(e) + 1 < limit then Accepted(e)
      else Exhausted
    ensures Parse(tokens, limit).Rejected? ==> !Sentence(tokens)
  {
    ParseIsSound(tokens, limit);
    forall e | Writes(e, tokens)
      ensures Parse(tokens, limit) == if Need(e) + 1 < limit then Accepted(e) else Exhausted
    {
      ParseIsComplete(e, limit);
    }
  }

  // ---- The first error ----

  /** `w` completes `tokens` to a sentence. */
  ghost predicate Completes(tokens: seq<Token>, w: seq<Token>) {
    Sentence(tokens + w)
  }

  ghost predicate Viable(tokens: seq<Token>) {
    exists w :: Completes(tokens, w)
  }

  lemma ViableBefore(tokens: seq<Token>, part: seq<Token>)
    requires Viable(tokens + part)
    ensures Viable(tokens)
  {
    var w :| Completes(tokens + part, w);
    assert tokens + part + w == tokens + (part + w);
    assert Completes(tokens, part + w);
  }

  lemma ViableInside(y: seq<Token>, a: seq<Token>, b: seq<Token>, c: seq<Token>)
    requires Viable(y + (a + b + c))
    ensures Viable(((y + a) + b) + c) && Viable((y + a) + b)
  {
    assert y + (a + b + c) == ((y + a) + b) + c;
    ViableBefore((y + a) + b, c);
  }

  lemma TwoBelow(stk: Stack)
    requires Two(stk)
    ensures StackYield(stk) == (StackYield(stk.below.below) + SymYield(stk.below.sym)) + SymYield(stk.sym)
    ensures Valid(stk) ==>
      && Valid(stk.below.below)
      && Link(Top(stk.below.below), stk.below.sym, stk.below.state)
      && SymFits(stk.below.sym, stk.below.state)
  {
    assert StackYield(stk) == StackYield(stk.below) + SymYield(stk.sym);
    assert StackYield(stk.below) == StackYield(stk.below.below) + SymYield(stk.below.sym);
    assert Valid(stk) ==> Valid(stk.below);
  }

  /** A valid stack on which an expression has been read can be completed. */
  lemma {:induction false} ExpCompletes(stk: Stack, e: Exp)
    requires Valid(stk) && ExpStart(Top(stk)) && Stratified(e) && Floor(Goto(Top(stk), EXP)) <= Level(e)
    ensures Viable(StackYield(stk) + Yield(e))
    decreases stk, 1
  {
    if stk.Bottom? {
      assert [] + Yield(e) + [] == Yield(e) && Writes(e, Yield(e));
      assert Completes([] + Yield(e), []);
    } else if stk.state == 3 {
      ExpCompletes(stk.below, Not(e));
      assert Yield(Not(e)) == [NotTok] + Yield(e) + [];
      ViableInside(StackYield(stk.below), [NotTok], Yield(e), []);
    } else if stk.state == 5 {
      ExpCompletes(stk.below, Paren(e));
      ViableInside(StackYield(stk.below), [LParTok], Yield(e), [RParTok]);
    } else {
      OperandCompletes(stk, e);
    }
  }

  lemma {:induction false} OperandCompletes(stk: Stack, e: Exp)
    requires Valid(stk) && stk.Push? && Stratified(e)
    requires (stk.state == 19 && 1 <= Level(e)) || (stk.state == 20 && 2 <= Level(e))
    ensures Viable(StackYield(stk) + Yield(e))
    decreases stk, 0
  {
    assert Two(stk) && stk.below.sym.EX?;
    TwoBelow(stk);
    var l := stk.below.sym.e;
    var e1 := if stk.state == 19 then And(l, e) else Or(l, e);
    ExpCompletes(stk.below.below, e1);
    ViableInside(StackYield(stk.below.below), Yield(l), [stk.sym.tok], Yield(e));
  }

  /** A valid stack on which a string value has been read can be completed. */
  lemma {:induction false} StringCompletes(stk: Stack, s: Str)
    requires Valid(stk) && StringStart(Top(stk))
    ensures Viable(StackYield(stk) + StrYield(s))
    decreases stk, 1
  {
    if ExpStart(Top(stk)) {
      ExpCompletes(stk, Length(s));
    } else if stk.state == 10 {
      CallCompletes(stk, s);
    } else {
      assert Two(stk);
      TwoBelow(stk);
      var b := stk.below;
      ExpCompletes(b.below, if stk.state == 17 then Equal(b.sym.s, s) else EqualNoCase(b.sym.s, s));
      ViableInside(StackYield(b.below), StrYield(b.sym.s), [stk.sym.tok], StrYield(s));
    }
  }

  lemma {:induction false} CallCompletes(stk: Stack, s: Str)
    requires Valid(stk) && Top(stk) == 10
    ensures Viable(StackYield(stk) + StrYield(s))
    decreases stk, 0
  {
    assert Two(stk);
    TwoBelow(stk);
    var b := stk.below;
    StringCompletes(b.below, Call1(b.sym.tok.text, s));
    assert [b.sym.tok, LParTok] + StrYield(s) + [RParTok] == [b.sym.tok] + [LParTok] + (StrYield(s) + [RParTok]);
    ViableInside(StackYield(b.below), [b.sym.tok], [LParTok], StrYield(s) + [RParTok]);
    assert StackYield(stk) + (StrYield(s) + [RParTok]) == (StackYield(stk) + StrYield(s)) + [RParTok];
    ViableBefore(StackYield(stk) + StrYield(s), [RParTok]);
  }

  /** Whatever is on a valid stack is the beginning of a sentence. */
  lemma {:induction false} StackIsViable(stk: Stack)
    requires Valid(stk)
    ensures Viable(StackYield(stk))
    decreases Weight(stk)
  {
    if Act(Top(stk), END).Reduce? {
      var rule := Act(Top(stk), END).rule;
      ReductionIsSound(stk, END, rule);
      WeightFalls(stk, rule);
      ReductionKeepsYield(stk, rule);
      StackIsViable(Reduced(stk, rule));
    } else if ExpStart(Top(stk)) {
      ExpCompletes(stk, Bin(0));
      ViableBefore(StackYield(stk), Yield(Bin(0)));
    } else if StringStart(Top(stk)) {
      StringCompletes(stk, Literal(""));
      ViableBefore(StackYield(stk), StrYield(Literal("")));
    } else if stk.state in {11, 13, 14} {
      UnfinishedPairIsViable(stk);
    } else {
      UnfinishedIsViable(stk);
    }
  }

  lemma UnfinishedIsViable(stk: Stack)
    requires Valid(stk) && stk.Push? && stk.state in {1, 4, 6, 15, 22}
    ensures Viable(StackYield(stk))
  {
    var y := StackYield(stk.below);
    match stk.state
    case 1 =>
      StringCompletes(stk.below, Call0(stk.sym.tok.text));
      assert StrYield(Call0(stk.sym.tok.text)) == [] + [stk.sym.tok] + [LParTok, RParTok];
      ViableInside(y, [], [stk.sym.tok], [LParTok, RParTok]);
      assert y + [] == y;
    case 4 =>
      StringCompletes(stk.below, Literal(""));
      assert StrYield(Literal("")) == [] + [QuoteTok] + [StringTok(""), QuoteTok];
      ViableInside(y, [], [QuoteTok], [StringTok(""), QuoteTok]);
      assert y + [] == y;
    case 6 =>
      assert StackYield(stk) + [] == Yield(stk.sym.e) && Writes(stk.sym.e, Yield(stk.sym.e));
      assert Completes(StackYield(stk), []);
    case 15 => ExpCompletes(stk.below, stk.sym.e);
    case _ => StringCompletes(stk.below, stk.sym.s);
  }

  lemma UnfinishedPairIsViable(stk: Stack)
    requires Valid(stk) && stk.Push? && stk.state in {11, 13, 14}
    ensures Viable(StackYield(stk))
  {
    assert Two(stk);
    TwoBelow(stk);
    var b := stk.below;
    if stk.state == 11 {
      ExpCompletes(b.below, BinEqual(b.sym.tok.n, 0));
      assert Yield(BinEqual(b.sym.tok.n, 0)) == [b.sym.tok] + [EqDoubleTok] + [ExpBinTok(0)];
      ViableInside(StackYield(b.below), [b.sym.tok], [EqDoubleTok], [ExpBinTok(0)]);
    } else {
      var s := if stk.state == 13 then Literal(stk.sym.tok.text) else IdLiteral(stk.sym.tok.text);
      StringCompletes(b.below, s);
      assert StrYield(s) == [QuoteTok] + [stk.sym.tok] + [QuoteTok];
      ViableInside(StackYield(b.below), [QuoteTok], [stk.sym.tok], [QuoteTok]);
    }
  }

  lemma {:induction false} RejectedRunIsViable(tokens: seq<Token>, stk: Stack, pos: nat, limit: nat)
    requires pos <= |tokens| && Valid(stk) && Settled(stk, ClassAt(tokens, pos)) && StackYield(stk) == tokens[..pos]
    ensures var r := Run(tokens, stk, pos, limit); r.Rejected? ==> Viable(tokens[..r.at])
    decreases |tokens| - pos, Weight(stk)
  {
    RunTurns(tokens, stk, pos, limit);
    if Depth(stk) + 1 < limit {
      match Act(Top(stk), ClassAt(tokens, pos))
      case Error => StackIsViable(stk);
      case Accept =>
      case Shift(q) =>
        ShiftYield(tokens, stk, pos, q);
        RejectedRunIsViable(tokens, Push(stk, T(tokens[pos]), q), pos + 1, limit);
      case Reduce(rule) =>
        ReductionKeepsYield(stk, rule);
        RejectedRunIsViable(tokens, Reduced(stk, rule), pos, limit);
    }
  }

  /** A rejected run depends only on the tokens up to the one it rejects. */
  lemma {:induction false} RejectionIsLocal(tokens: seq<Token>, other: seq<Token>, stk: Stack, pos: nat, limit: nat)
    requires pos <= |tokens| && Valid(stk) && Settled(stk, ClassAt(tokens, pos))
      && Run(tokens, stk, pos, limit).Rejected?
    requires var k := Run(tokens, stk, pos, limit).at; k < |tokens| && tokens[..k + 1] <= other
    ensures pos <= |other| && Settled(stk, ClassAt(other, pos))
    ensures Run(other, stk, pos, limit) == Run(tokens, stk, pos, limit)
    decreases |tokens| - pos, Weight(stk)
  {
    var k := Run(tokens, stk, pos, limit).at;
    assert tokens[pos] == tokens[..k + 1][pos] == other[pos];
    RunTurns(tokens, stk, pos, limit);
    RunTurns(other, stk, pos, limit);
    match Act(Top(stk), ClassAt(tokens, pos))
    case Error =>
    case Accept =>
    case Shift(q) => RejectionIsLocal(tokens, other, Push(stk, T(tokens[pos]), q), pos + 1, limit);
    case Reduce(rule) => RejectionIsLocal(tokens, other, Reduced(stk, rule), pos, limit);
  }

  /** The parser stops at the first error: what it has shifted begins a sentence, and with the next token it does not.
      */
  lemma RejectsAtFirstError(tokens: seq<Token>, limit: nat)
    requires Parse(tokens, limit).Rejected?
    ensures var k := Parse(tokens, limit).at;
      && k <= |tokens| && Viable(tokens[..k])
      && (if k < |tokens| then !Viable(tokens[..k + 1]) else !Sentence(tokens))
  {
    var k := Parse(tokens, limit).at;
    RejectedRunIsViable(tokens, Bottom, 0, limit);
    RejectedIffNoSentence(tokens, limit);
    if k < |tokens| && Viable(tokens[..k + 1]) {
      var w :| Completes(tokens[..k + 1], w);
      var other := tokens[..k + 1] + w;
      RejectionIsLocal(tokens, other, Bottom, 0, limit);
      RejectedIffNoSentence(other, limit);
    }
  }

  // ---- How deep rules may nest ----

  /** A number in as many pairs of parentheses. */
  function Nested(k: nat, n: bv32): seq<Token> {
    if k == 0 then [ExpBinTok(n)] else [LParTok] + Nested(k - 1, n) + [RParTok]
  }

  function NestedExp(k: nat, n: bv32): Exp {
    if k == 0 then Bin(n) else Paren(NestedExp(k - 1, n))
  }

  lemma {:induction false} NestedIs(k: nat, n: bv32)
    ensures Writes(NestedExp(k, n), Nested(k, n)) && Need(NestedExp(k, n)) == if k == 0 then 1 else k + 2
  {
    if k > 0 { NestedIs(k - 1, n); }
  }

  /** With stacks of ten thousand places, a number may stand in up to 9996 pairs of parentheses. */
  lemma NestingLimit(k: nat, n: bv32)
    ensures (exists e :: Writes(e, Nested(k, n)) && Need(e) + 1 < 10000) <==> k <= 9996
  {
    NestedIs(k, n);
    forall e | Writes(e, Nested(k, n))
      ensures e == NestedExp(k, n)
    {
      Unambiguous(e, NestedExp(k, n));
    }
  }
}
