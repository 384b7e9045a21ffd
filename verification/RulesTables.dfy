/** The packed LALR tables of the rules_checker parser and what they decode to.

    Each function `YY...` is the constant array of rules_checker.tab.c with that name in lower case; its
    precondition is the array's bound.  `PackedAction` and `PackedGoto` read them the way the parser loop does; `Act`
    and `Goto` are the same automaton written out state by state.  The lemmas of this module show that the two agree
    everywhere, so that all later proofs use the readable form. */
module RulesTables {

  const YYFINAL := 16
  const YYLAST := 36
  const YYNTOKENS := 14
  const YYNSTATES := 32
  const YYPACT_NINF := -12
  const YYTABLE_NINF := -1

  /** Left-hand side of each rule (yyr1). */
  function YYR1(i: int): int
    requires 0 <= i < 17
  {
    match i
      case 0 => 0 case 1 => 14 case 2 => 15 case 3 => 16 case 4 => 16 case 5 => 16 case 6 => 17 case 7 => 17
      case 8 => 18 case 9 => 18 case 10 => 18 case 11 => 18 case 12 => 18 case 13 => 18 case 14 => 18 case 15 => 18
      case _ => 18
  }

  /** Number of symbols on the right-hand side of each rule (yyr2). */
  function YYR2(i: int): int
    requires 0 <= i < 17
  {
    match i
      case 0 => 0 case 1 => 2 case 2 => 1 case 3 => 3 case 4 => 1 case 5 => 3 case 6 => 3 case 7 => 4
      case 8 => 1 case 9 => 3 case 10 => 3 case 11 => 3 case 12 => 2 case 13 => 3 case 14 => 3 case 15 => 1
      case _ => 3
  }

  /** Default rule of each state, 0 for an error (yydefact). */
  function YYDEFACT(i: int): int
    requires 0 <= i < 32
  {
    match i
      case 0 => 0 case 1 => 0 case 2 => 15 case 3 => 0 case 4 => 0 case 5 => 0 case 6 => 0 case 7 => 8
      case 8 => 4 case 9 => 2 case 10 => 0 case 11 => 0 case 12 => 12 case 13 => 0 case 14 => 0 case 15 => 0
      case 16 => 1 case 17 => 0 case 18 => 0 case 19 => 0 case 20 => 0 case 21 => 6 case 22 => 0 case 23 => 16
      case 24 => 3 case 25 => 5 case 26 => 11 case 27 => 9 case 28 => 10 case 29 => 13 case 30 => 14 case _ => 7
  }

  /** Default goto of each nonterminal (yydefgoto). */
  function YYDEFGOTO(i: int): int
    requires 0 <= i < 5
  {
    match i
      case 0 => -1 case 1 => 6 case 2 => 7 case 3 => 8 case _ => 9
  }

  /** Offset of each state in the packed table (yypact). */
  function YYPACT(i: int): int
    requires 0 <= i < 32
  {
    match i
      case 0 => 3 case 1 => -11 case 2 => 0 case 3 => 3 case 4 => 18 case 5 => 3 case 6 => 25 case 7 => 17
      case 8 => -12 case 9 => 20 case 10 => -1 case 11 => 21 case 12 => -12 case 13 => 19 case 14 => 22 case 15 => -4
      case 16 => -12 case 17 => 16 case 18 => 16 case 19 => 3 case 20 => 3 case 21 => -12 case 22 => 23 case 23 => -12
      case 24 => -12 case 25 => -12 case 26 => -12 case 27 => -12 case 28 => -12 case 29 => 26
      case 30 => -12 case _ => -12
  }

  /** Offset of each nonterminal in the packed table (yypgoto). */
  function YYPGOTO(i: int): int
    requires 0 <= i < 5
  {
    match i
      case 0 => -12 case 1 => -12 case 2 => 1 case 3 => -12 case _ => -3
  }

  /** Packed actions and gotos (yytable). */
  function YYTABLE(i: int): int
    requires 0 <= i < 37
  {
    match i
      case 0 => 12 case 1 => 10 case 2 => 15 case 3 => 1 case 4 => 19 case 5 => 20 case 6 => 11 case 7 => 1
      case 8 => 2 case 9 => 26 case 10 => 4 case 11 => 22 case 12 => 21 case 13 => 3 case 14 => 4 case 15 => 5
      case 16 => 29 case 17 => 30 case 18 => 27 case 19 => 28 case 20 => 1 case 21 => 13 case 22 => 14 case 23 => 17
      case 24 => 18 case 25 => 16 case 26 => 23 case 27 => 4 case 28 => 19 case 29 => 20 case 30 => 24 case 31 => 0
      case 32 => 0 case 33 => 25 case 34 => 0 case 35 => 20 case _ => 31
  }

  /** Owner of each packed entry (yycheck). */
  function YYCHECK(i: int): int
    requires 0 <= i < 37
  {
    match i
      case 0 => 3 case 1 => 12 case 2 => 5 case 3 => 4 case 4 => 8 case 5 => 9 case 6 => 6 case 7 => 4
      case 8 => 5 case 9 => 13 case 10 => 11 case 11 => 10 case 12 => 13 case 13 => 10 case 14 => 11 case 15 => 12
      case 16 => 19 case 17 => 20 case 18 => 17 case 19 => 18 case 20 => 4 case 21 => 3 case 22 => 4 case 23 => 6
      case 24 => 7 case 25 => 0 case 26 => 5 case 27 => 11 case 28 => 8 case 29 => 9 case 30 => 11 case 31 => -1
      case 32 => -1 case 33 => 11 case 34 => -1 case 35 => 9 case _ => 13
  }

  // Internal symbol numbers: terminals below YYNTOKENS, nonterminals from YYNTOKENS on.
  const END := 0
  const ERROR := 1
  const UNDEF := 2
  const STRING := 3
  const ID := 4
  const EXP_BIN := 5
  const EQ_DOUBLE := 6
  const EQ_TRIPLE := 7
  const AND := 8
  const OR := 9
  const NOT := 10
  const QUOTE := 11
  const LPAR := 12
  const RPAR := 13
  const INPUT := 15
  const STRING_VAL := 16
  const FUNCTION := 17
  const EXP := 18

  datatype Action = Shift(state: int) | Reduce(rule: int) | Accept | Error

  /** The default action of a state (label yydefault). */
  function DefaultAction(s: int): Action
    requires 0 <= s < YYNSTATES
  {
    if YYDEFACT(s) == 0 then Error else Reduce(YYDEFACT(s))
  }

  /** The action on lookahead class `t`, looked up in the packed tables as at label yybackup. */
  function PackedAction(s: int, t: int): Action
    requires 0 <= s < YYNSTATES && 0 <= t < YYNTOKENS
  {
    if YYPACT(s) == YYPACT_NINF then DefaultAction(s)
    else
      var yyn := YYPACT(s) + t;
      if yyn < 0 || YYLAST < yyn || YYCHECK(yyn) != t then DefaultAction(s)
      else
        var n := YYTABLE(yyn);
        if n == 0 || n == YYTABLE_NINF then Error
        else if n < 0 then Reduce(-n)
        else if n == YYFINAL then Accept
        else Shift(n)
  }

  /** The state entered after reducing to nonterminal `nt` on top of state `base` (end of yyreduce). */
  function PackedGoto(base: int, nt: int): int
    requires 0 <= base < YYNSTATES && YYNTOKENS <= nt <= EXP
  {
    var n := YYPGOTO(nt - YYNTOKENS) + base;
    if 0 <= n <= YYLAST && YYCHECK(n) == base then YYTABLE(n) else YYDEFGOTO(nt - YYNTOKENS)
  }

  /** States in which an expression may begin. */
  predicate ExpStart(s: int) {
    s == 0 || s == 3 || s == 5 || s == 19 || s == 20
  }

  /** States in which a string value may begin. */
  predicate StringStart(s: int) {
    ExpStart(s) || s == 10 || s == 17 || s == 18
  }

  /** The action table, state by state. */
  function Act(s: int, t: int): Action {
    if ExpStart(s) then
      if t == ID then Shift(1) else if t == EXP_BIN then Shift(2) else if t == NOT then Shift(3)
      else if t == QUOTE then Shift(4) else if t == LPAR then Shift(5) else Error
    else match s
      case 1 => if t == LPAR then Shift(10) else Error
      case 2 => if t == EQ_DOUBLE then Shift(11) else Reduce(15)
      case 4 => if t == STRING then Shift(13) else if t == ID then Shift(14) else Error
      case 6 => if t == END then Accept else Error
      case 7 => if t == EQ_DOUBLE then Shift(17) else if t == EQ_TRIPLE then Shift(18) else Reduce(8)
      case 8 => Reduce(4)
      case 9 => if t == AND then Shift(19) else if t == OR then Shift(20) else Reduce(2)
      case 10 => if t == ID then Shift(1) else if t == QUOTE then Shift(4)
                 else if t == RPAR then Shift(21) else Error
      case 11 => if t == EXP_BIN then Shift(23) else Error
      case 12 => Reduce(12)
      case 13 => if t == QUOTE then Shift(24) else Error
      case 14 => if t == QUOTE then Shift(25) else Error
      case 15 => if t == AND then Shift(19) else if t == OR then Shift(20)
                 else if t == RPAR then Shift(26) else Error
      case 16 => Reduce(1)
      case 17 => if t == ID then Shift(1) else if t == QUOTE then Shift(4) else Error
      case 18 => if t == ID then Shift(1) else if t == QUOTE then Shift(4) else Error
      case 21 => Reduce(6)
      case 22 => if t == RPAR then Shift(31) else Error
      case 23 => Reduce(16)
      case 24 => Reduce(3)
      case 25 => Reduce(5)
      case 26 => Reduce(11)
      case 27 => Reduce(9)
      case 28 => Reduce(10)
      case 29 => if t == OR then Shift(20) else Reduce(13)
      case 30 => Reduce(14)
      case 31 => Reduce(7)
      case _ => Error
  }

  /** The goto table on the bases where the nonterminal may begin; -1 elsewhere. */
  function Goto(base: int, nt: int): int {
    if nt == INPUT then (if base == 0 then 6 else -1)
    else if nt == STRING_VAL then
      if base == 17 then 27 else if base == 18 then 28 else if base == 10 then 22
      else if ExpStart(base) then 7 else -1
    else if nt == FUNCTION then (if StringStart(base) then 8 else -1)
    else if nt == EXP then
      if base == 3 then 12 else if base == 5 then 15 else if base == 19 then 29
      else if base == 20 then 30 else if base == 0 then 9 else -1
    else -1
  }

  lemma ActionRows0(s: int, t: int)
    requires 0 <= s < 5 && 0 <= t < YYNTOKENS
    ensures PackedAction(s, t) == Act(s, t)
  {
  }

  lemma ActionRows1(s: int, t: int)
    requires 5 <= s < 10 && 0 <= t < YYNTOKENS
    ensures PackedAction(s, t) == Act(s, t)
  {
  }

  lemma ActionRows2(s: int, t: int)
    requires 10 <= s < 13 && 0 <= t < YYNTOKENS
    ensures PackedAction(s, t) == Act(s, t)
  {
  }

  lemma ActionRows3(s: int, t: int)
    requires 13 <= s < 16 && 0 <= t < YYNTOKENS
    ensures PackedAction(s, t) == Act(s, t)
  {
  }

  lemma ActionRows4(s: int, t: int)
    requires 16 <= s < 22 && 0 <= t < YYNTOKENS
    ensures PackedAction(s, t) == Act(s, t)
  {
  }

  lemma ActionRows5(s: int, t: int)
    requires 22 <= s < 32 && 0 <= t < YYNTOKENS
    ensures PackedAction(s, t) == Act(s, t)
  {
  }

  /** The packed tables encode exactly the action table `Act`. */
  lemma PackedActionIsAct(s: int, t: int)
    requires 0 <= s < YYNSTATES && 0 <= t < YYNTOKENS
    ensures PackedAction(s, t) == Act(s, t)
  {
    if s < 5 { ActionRows0(s, t); }
    else if s < 10 { ActionRows1(s, t); }
    else if s < 13 { ActionRows2(s, t); }
    else if s < 16 { ActionRows3(s, t); }
    else if s < 22 { ActionRows4(s, t); }
    else { ActionRows5(s, t); }
  }

  lemma PackedGotoIsGoto(base: int, nt: int)
    requires 0 <= base < YYNSTATES && YYNTOKENS <= nt <= EXP
    requires Goto(base, nt) != -1
    ensures PackedGoto(base, nt) == Goto(base, nt)
  {
  }

  /** No state has an entry for the error token, so error recovery pops the whole stack. */
  lemma NoErrorEntry(s: int)
    requires 0 <= s < YYNSTATES && YYPACT(s) != YYPACT_NINF
    ensures var n := YYPACT(s) + ERROR; 0 <= n <= YYLAST ==> YYCHECK(n) != ERROR
  {
  }
}
