/** yyparse: the parser loop over a stack of states and a stack of semantic values. */
module RulesParser {
  import opened Wrappers
  import opened RulesTables
  import opened RulesGrammar
  import opened RulesAutomaton
  import opened RulesRuns
  import opened RulesTheorems

  /** The union YYSTYPE: which member was stored last decides which may be read. */
  datatype Value = Unset | IntVal(n: bv32) | OpVal(s: string)

  const YYINITDEPTH := 200
  const YYMAXDEPTH := 10000
  const YYEMPTY := -2
  const YYEOF := 0

  // ---- What the two stacks hold ----

  /** The states of a parse stack, bottom first. */
  function States(stk: Stack): (states: seq<int>)
    ensures |states| == Depth(stk) + 1 && states[|states| - 1] == Top(stk)
  {
    if stk.Bottom? then [0] else States(stk.below) + [stk.state]
  }

  /** The calls made when `sym` has been evaluated, when `calls` were made before. */
  function CallsAfter(sym: Sym, host: Host, calls: seq<Call>): seq<Call> {
    match sym
    case T(_) => calls
    case SV(s) => EvalStr(s, host, calls).1
    case FN(f) => EvalStr(f, host, calls).1
    case EX(e) => Eval(e, host, calls).1
    case IN(e) => Eval(e, host, calls).1
  }

  /** `v` is the semantic value of `sym`.  Tokens for which the lexer stores no value carry a stale one. */
  predicate Fits(v: Value, sym: Sym, host: Host, calls: seq<Call>) {
    match sym
    case T(StringTok(x)) => v == OpVal(x)
    case T(IdTok(x)) => v == OpVal(x)
    case T(ExpBinTok(n)) => v == IntVal(n)
    case T(_) => true
    case SV(s) => v == OpVal(EvalStr(s, host, calls).0)
    case FN(f) => v == OpVal(EvalStr(f, host, calls).0)
    case EX(e) => v == IntVal(Eval(e, host, calls).0)
    case IN(e) => v == IntVal(Eval(e, host, calls).0)
  }

  /** All the calls made for the symbols on the stack, from left to right, after the calls `before` the parse. */
  function StackCalls(stk: Stack, host: Host, before: seq<Call>): seq<Call> {
    if stk.Bottom? then before else CallsAfter(stk.sym, host, StackCalls(stk.below, host, before))
  }

  /** The value stack holds the values of the symbols; its lowest element is never set. */
  predicate Holds(stk: Stack, yyvs: seq<Value>, host: Host, before: seq<Call>) {
    && |yyvs| == Depth(stk) + 1
    && (stk.Push? ==>
         && Holds(stk.below, yyvs[..|yyvs| - 1], host, before)
         && Fits(yyvs[|yyvs| - 1], stk.sym, host, StackCalls(stk.below, host, before)))
  }

  /** One element down: the two stacks stay in step. */
  lemma Below(stk: Stack, yyvs: seq<Value>, host: Host, before: seq<Call>)
    requires stk.Push? && Holds(stk, yyvs, host, before)
    ensures Depth(stk.below) == Depth(stk) - 1
    ensures States(stk)[..Depth(stk)] == States(stk.below)
    ensures Holds(stk.below, yyvs[..Depth(stk)], host, before)
    ensures Fits(yyvs[Depth(stk)], stk.sym, host, StackCalls(stk.below, host, before))
  {
  }

  lemma Cut<A>(s: seq<A>, j: nat, i: nat)
    requires i <= j <= |s|
    ensures s[..j][..i] == s[..i] && (i < j ==> s[..j][i] == s[i])
  {
  }

  /** The values of the two topmost symbols, and the calls made for them. */
  ghost predicate FitTwo(stk: Stack, yyvs: seq<Value>, host: Host, before: seq<Call>) {
    && Two(stk) && 3 <= |yyvs|
    && var n := |yyvs| - 1;
    && Fits(yyvs[n], stk.sym, host, StackCalls(stk.below, host, before))
    && Fits(yyvs[n - 1], stk.below.sym, host, StackCalls(stk.below.below, host, before))
    && StackCalls(stk.below, host, before) == CallsAfter(stk.below.sym, host, StackCalls(stk.below.below, host, before))
  }

  lemma TopTwo(stk: Stack, yyvs: seq<Value>, host: Host, before: seq<Call>)
    requires Two(stk) && Holds(stk, yyvs, host, before)
    ensures FitTwo(stk, yyvs, host, before)
    ensures Depth(stk.below.below) == Depth(stk) - 2
    ensures States(stk)[..Depth(stk) - 1] == States(stk.below.below)
    ensures Holds(stk.below.below, yyvs[..Depth(stk) - 1], host, before)
  {
    var n := Depth(stk);
    Below(stk, yyvs, host, before);
    Below(stk.below, yyvs[..n], host, before);
    Cut(yyvs, n, n - 1);
    Cut(States(stk), n, n - 1);
  }

  /** The values of the three topmost symbols, and the calls made for them. */
  ghost predicate FitThree(stk: Stack, yyvs: seq<Value>, host: Host, before: seq<Call>) {
    && FitTwo(stk, yyvs, host, before) && Three(stk) && 4 <= |yyvs|
    && var b := stk.below.below;
    && Fits(yyvs[|yyvs| - 3], b.sym, host, StackCalls(b.below, host, before))
    && StackCalls(b, host, before) == CallsAfter(b.sym, host, StackCalls(b.below, host, before))
  }

  lemma TopThree(stk: Stack, yyvs: seq<Value>, host: Host, before: seq<Call>)
    requires Three(stk) && Holds(stk, yyvs, host, before)
    ensures FitThree(stk, yyvs, host, before)
    ensures Depth(stk.below.below.below) == Depth(stk) - 3
    ensures States(stk)[..Depth(stk) - 2] == States(stk.below.below.below)
    ensures Holds(stk.below.below.below, yyvs[..Depth(stk) - 2], host, before)
  {
    var n := Depth(stk);
    TopTwo(stk, yyvs, host, before);
    Below(stk.below.below, yyvs[..n - 1], host, before);
    Cut(yyvs, n - 1, n - 2);
    Cut(States(stk), n - 1, n - 2);
  }

  /** The values of the four symbols of a call with an argument. */
  ghost predicate FitFour(stk: Stack, yyvs: seq<Value>, host: Host, before: seq<Call>) {
    && FitThree(stk, yyvs, host, before) && Four(stk) && 5 <= |yyvs|
    && var b := stk.below.below.below;
    && Fits(yyvs[|yyvs| - 4], b.sym, host, StackCalls(b.below, host, before))
    && StackCalls(b, host, before) == CallsAfter(b.sym, host, StackCalls(b.below, host, before))
  }

  lemma TopFour(stk: Stack, yyvs: seq<Value>, host: Host, before: seq<Call>)
    requires Four(stk) && Holds(stk, yyvs, host, before)
    ensures FitFour(stk, yyvs, host, before)
    ensures Depth(stk.below.below.below.below) == Depth(stk) - 4
    ensures States(stk)[..Depth(stk) - 3] == States(stk.below.below.below.below)
    ensures Holds(stk.below.below.below.below, yyvs[..Depth(stk) - 3], host, before)
  {
    var n := Depth(stk);
    TopThree(stk, yyvs, host, before);
    Below(stk.below.below.below, yyvs[..n - 2], host, before);
    Cut(yyvs, n - 2, n - 3);
    Cut(States(stk), n - 2, n - 3);
  }

  /** Popping the handle of a rule pops as many elements of each stack as its right-hand side has symbols. */
  lemma PopHandle(stk: Stack, rule: int, yyvs: seq<Value>, host: Host, before: seq<Call>)
    requires 2 <= rule <= 16 && Handle(stk, rule) && Holds(stk, yyvs, host, before)
    ensures var n := Depth(stk) + 1 - YYR2(rule);
      && 0 < n && Depth(Base(stk, rule)) + 1 == n
      && States(stk)[..n] == States(Base(stk, rule))
      && Holds(Base(stk, rule), yyvs[..n], host, before)
  {
    if rule in {2, 4, 8, 15} {
      Below(stk, yyvs, host, before);
    } else if rule == 12 {
      TopTwo(stk, yyvs, host, before);
    } else if rule == 7 {
      TopFour(stk, yyvs, host, before);
    } else {
      PopThree(stk, rule, yyvs, host, before);
    }
  }

  lemma PopThree(stk: Stack, rule: int, yyvs: seq<Value>, host: Host, before: seq<Call>)
    requires 2 <= rule <= 16 && rule !in {2, 4, 8, 15, 12, 7} && Handle(stk, rule) && Holds(stk, yyvs, host, before)
    ensures YYR2(rule) == 3 && Depth(stk) >= 3 && Depth(Base(stk, rule)) + 3 == Depth(stk)
    ensures States(stk)[..Depth(stk) - 2] == States(Base(stk, rule))
    ensures Holds(Base(stk, rule), yyvs[..Depth(stk) - 2], host, before)
  {
    TopThree(stk, yyvs, host, before);
  }

  /** The semantic actions of the quoted texts. */
  method QuoteAction(rule: int, yyvs: seq<Value>, host: Host, ghost stk: Stack, ghost before: seq<Call>)
      returns (yyval: Value)
    requires rule in {3, 5} && Handle(stk, rule) && FitThree(stk, yyvs, host, before)
    ensures Fits(yyval, Built(stk, rule), host, StackCalls(Base(stk, rule), host, before))
    ensures StackCalls(stk, host, before) == CallsAfter(Built(stk, rule), host,
                                                        StackCalls(Base(stk, rule), host, before))
  {
    yyval := yyvs[|yyvs| - 2];
  }

  /** The semantic action of a call without argument. */
  method CallAction0(yyvs: seq<Value>, host: Host, calls: seq<Call>, ghost stk: Stack, ghost before: seq<Call>)
      returns (yyval: Value, calls': seq<Call>)
    requires Handle(stk, 6) && FitThree(stk, yyvs, host, before)
    requires calls == StackCalls(stk, host, before)
    ensures Fits(yyval, Built(stk, 6), host, StackCalls(Base(stk, 6), host, before))
    ensures calls' == CallsAfter(Built(stk, 6), host, StackCalls(Base(stk, 6), host, before))
  {
    var call := Call(yyvs[|yyvs| - 3].s, None);
    yyval := OpVal(host(calls, call));
    calls' := calls + [call];
  }

  /** The semantic action of a call with one argument. */
  method CallAction1(yyvs: seq<Value>, host: Host, calls: seq<Call>, ghost stk: Stack, ghost before: seq<Call>)
      returns (yyval: Value, calls': seq<Call>)
    requires Handle(stk, 7) && FitFour(stk, yyvs, host, before)
    requires calls == StackCalls(stk, host, before)
    ensures Fits(yyval, Built(stk, 7), host, StackCalls(Base(stk, 7), host, before))
    ensures calls' == CallsAfter(Built(stk, 7), host, StackCalls(Base(stk, 7), host, before))
  {
    var call := Call(yyvs[|yyvs| - 4].s, Some(yyvs[|yyvs| - 2].s));
    yyval := OpVal(host(calls, call));
    calls' := calls + [call];
  }

  /** The semantic actions of the rules with one symbol. */
  method UnitAction(rule: int, yyvs: seq<Value>, host: Host, ghost stk: Stack,
                    ghost before: seq<Call>) returns (yyval: Value)
    requires rule in {2, 4, 8, 15} && Handle(stk, rule) && 2 <= |yyvs|
    requires Fits(yyvs[|yyvs| - 1], stk.sym, host, StackCalls(stk.below, host, before))
    ensures Fits(yyval, Built(stk, rule), host, StackCalls(Base(stk, rule), host, before))
    ensures StackCalls(stk, host, before) == CallsAfter(Built(stk, rule), host,
                                                        StackCalls(Base(stk, rule), host, before))
  {
    var v := yyvs[|yyvs| - 1];
    yyval := if rule == 8 then IntVal(Width32(|v.s|)) else v;
  }

  /** The semantic actions of the comparisons. */
  method ComparisonAction(rule: int, yyvs: seq<Value>, host: Host, ghost stk: Stack, ghost before: seq<Call>)
      returns (yyval: Value)
    requires rule in {9, 10, 16} && Handle(stk, rule) && FitThree(stk, yyvs, host, before)
    ensures Fits(yyval, Built(stk, rule), host, StackCalls(Base(stk, rule), host, before))
    ensures StackCalls(stk, host, before) == CallsAfter(Built(stk, rule), host,
                                                        StackCalls(Base(stk, rule), host, before))
  {
    var v, w := yyvs[|yyvs| - 3], yyvs[|yyvs| - 1];
    match rule {
      case 9 => yyval := IntVal(Truth(v.s == w.s));
      case 10 => yyval := IntVal(Truth(EqualFolded(v.s, w.s)));
      case _ => yyval := IntVal(Truth(v.n == w.n));
    }
  }

  /** The semantic action of the parentheses. */
  method ParenAction(yyvs: seq<Value>, host: Host, ghost stk: Stack, ghost before: seq<Call>)
      returns (yyval: Value)
    requires Handle(stk, 11) && FitThree(stk, yyvs, host, before)
    ensures Fits(yyval, Built(stk, 11), host, StackCalls(Base(stk, 11), host, before))
    ensures StackCalls(stk, host, before) == CallsAfter(Built(stk, 11), host, StackCalls(Base(stk, 11), host, before))
  {
    yyval := yyvs[|yyvs| - 2];
  }

  /** The semantic action of NOT. */
  method NotAction(yyvs: seq<Value>, host: Host, ghost stk: Stack, ghost before: seq<Call>)
      returns (yyval: Value)
    requires Handle(stk, 12) && FitTwo(stk, yyvs, host, before)
    ensures Fits(yyval, Built(stk, 12), host, StackCalls(Base(stk, 12), host, before))
    ensures StackCalls(stk, host, before) == CallsAfter(Built(stk, 12), host, StackCalls(Base(stk, 12), host, before))
  {
    yyval := IntVal(Truth(yyvs[|yyvs| - 1].n == 0));
  }

  /** The semantic action of AND, on all 32 bits. */
  method AndAction(yyvs: seq<Value>, host: Host, ghost stk: Stack, ghost before: seq<Call>)
      returns (yyval: Value)
    requires Handle(stk, 13) && FitThree(stk, yyvs, host, before)
    ensures Fits(yyval, Built(stk, 13), host, StackCalls(Base(stk, 13), host, before))
    ensures StackCalls(stk, host, before) == CallsAfter(Built(stk, 13), host, StackCalls(Base(stk, 13), host, before))
  {
    yyval := IntVal(BitAnd(yyvs[|yyvs| - 3].n, yyvs[|yyvs| - 1].n));
  }

  /** The semantic action of OR, on all 32 bits. */
  method OrAction(yyvs: seq<Value>, host: Host, ghost stk: Stack, ghost before: seq<Call>)
      returns (yyval: Value)
    requires Handle(stk, 14) && FitThree(stk, yyvs, host, before)
    ensures Fits(yyval, Built(stk, 14), host, StackCalls(Base(stk, 14), host, before))
    ensures StackCalls(stk, host, before) == CallsAfter(Built(stk, 14), host, StackCalls(Base(stk, 14), host, before))
  {
    yyval := IntVal(BitOr(yyvs[|yyvs| - 3].n, yyvs[|yyvs| - 1].n));
  }

  /** The switch over the rule numbers in yyreduce. */
  method SemanticAction(rule: int, yyvs: seq<Value>, host: Host, calls: seq<Call>, ghost stk: Stack,
                        ghost before: seq<Call>)
      returns (yyval: Value, calls': seq<Call>)
    requires 2 <= rule <= 16 && Handle(stk, rule) && Holds(stk, yyvs, host, before)
    requires calls == StackCalls(stk, host, before)
    ensures Fits(yyval, Built(stk, rule), host, StackCalls(Base(stk, rule), host, before))
    ensures calls' == CallsAfter(Built(stk, rule), host, StackCalls(Base(stk, rule), host, before))
  {
    calls' := calls;
    if rule in {2, 4, 8, 15} {
      yyval := UnitAction(rule, yyvs, host, stk, before);
    } else if rule == 12 {
      TopTwo(stk, yyvs, host, before);
      yyval := NotAction(yyvs, host, stk, before);
    } else if rule == 7 {
      TopFour(stk, yyvs, host, before);
      yyval, calls' := CallAction1(yyvs, host, calls, stk, before);
    } else {
      TopThree(stk, yyvs, host, before);
      match rule {
        case 3 => yyval := QuoteAction(3, yyvs, host, stk, before);
        case 5 => yyval := QuoteAction(5, yyvs, host, stk, before);
        case 6 => yyval, calls' := CallAction0(yyvs, host, calls, stk, before);
        case 11 => yyval := ParenAction(yyvs, host, stk, before);
        case 13 => yyval := AndAction(yyvs, host, stk, before);
        case 14 => yyval := OrAction(yyvs, host, stk, before);
        case _ => yyval := ComparisonAction(rule, yyvs, host, stk, before);
      }
    }
  }

  /** What the lexer stores in yylval for a token; a token without a value leaves the old one in place. */
  function Stored(tok: Token, old_: Value): Value {
    match tok
    case StringTok(x) => OpVal(x)
    case IdTok(x) => OpVal(x)
    case ExpBinTok(n) => IntVal(n)
    case EqDoubleTok => OpVal("==")
    case EqTripleTok => OpVal("===")
    case _ => old_
  }

  /** Once the whole input has been reduced, `*ret` is its value. */
  predicate Reported(ret: Option<bv32>, stk: Stack, host: Host, before: seq<Call>) {
    stk.Push? && stk.sym.IN? ==> ret == Some(Eval(stk.sym.e, host, StackCalls(stk.below, host, before)).0)
  }

  /** yyreduce: the semantic action, popping the right-hand side, and the goto. */
  method ReduceBy(rule: int, yyss: seq<int>, yyvs: seq<Value>, host: Host, calls: seq<Call>, ret: Option<bv32>,
                  ghost stk: Stack, ghost t: int, ghost before: seq<Call>)
      returns (yystate: int, yyss': seq<int>, yyvs': seq<Value>, calls': seq<Call>, ret': Option<bv32>)
    requires Valid(stk) && Settled(stk, t) && Act(Top(stk), t) == Reduce(rule)
    requires yyss == States(stk) && Holds(stk, yyvs, host, before) && calls == StackCalls(stk, host, before)
    ensures 2 <= rule <= 16 && Handle(stk, rule)
    ensures var stk1 := Reduced(stk, rule);
      && yystate == Top(stk1) && yyss' == States(stk1) && |yyss'| <= |yyss|
      && Holds(stk1, yyvs', host, before) && calls' == StackCalls(stk1, host, before)
    ensures Reported(ret', Reduced(stk, rule), host, before)
  {
    OneStatePerRule(Top(stk), t);
    ReductionIsSound(stk, t, rule);
    HandleOnTop(stk, rule);
    PopHandle(stk, rule, yyvs, host, before);
    var yyval;
    yyval, calls' := SemanticAction(rule, yyvs, host, calls, stk, before);
    ret' := if rule == 2 then Some(yyval.n) else ret;
    yystate, yyss', yyvs' := PushGoto(yyss[..|yyss| - YYR2(rule)], yyvs[..|yyvs| - YYR2(rule)], YYR1(rule), yyval, host,
                                      Base(stk, rule), Built(stk, rule), before);
  }

  /** The end of it: the value and the state of the left-hand side go on the stacks. */
  method PushGoto(yyss: seq<int>, yyvs: seq<Value>, nonterminal: int, yyval: Value, host: Host, ghost stk: Stack,
                  ghost sym: Sym, ghost before: seq<Call>)
      returns (yystate: int, yyss': seq<int>, yyvs': seq<Value>)
    requires yyss == States(stk) && Holds(stk, yyvs, host, before)
    requires Fits(yyval, sym, host, StackCalls(stk, host, before))
    requires 0 <= Top(stk) < YYNSTATES && nonterminal == Nonterminal(sym)
    requires Goto(Top(stk), nonterminal) != -1 && YYNTOKENS <= nonterminal <= EXP
    ensures var stk1 := Push(stk, sym, Goto(Top(stk), nonterminal));
      yystate == Top(stk1) && yyss' == States(stk1) && Holds(stk1, yyvs', host, before)
  {
    yystate := GotoState(yyss[|yyss| - 1], nonterminal, stk, sym);
    yyss', yyvs' := yyss + [yystate], yyvs + [yyval];
    assert yyvs'[..|yyvs|] == yyvs;
  }

  /** The state after the reduction, looked up in the packed tables. */
  method GotoState(base: int, nonterminal: int, ghost stk: Stack, ghost sym: Sym) returns (yystate: int)
    requires 0 <= base < YYNSTATES && base == Top(stk) && nonterminal == Nonterminal(sym)
    requires Goto(base, nonterminal) != -1 && YYNTOKENS <= nonterminal <= EXP
    ensures yystate == Goto(base, nonterminal)
  {
    PackedGotoIsGoto(base, nonterminal);
    yystate := YYPGOTO(nonterminal - YYNTOKENS) + base;
    if 0 <= yystate <= YYLAST && YYCHECK(yystate) == base {
      yystate := YYTABLE(yystate);
    } else {
      yystate := YYDEFGOTO(nonterminal - YYNTOKENS);
    }
  }

  /** The lookahead variables: `next` tokens were taken from the lexer, `pos` of them shifted. */
  predicate Lookahead(tokens: seq<Token>, pos: nat, next: nat, yychar: int, yylval: Value) {
    && pos <= next <= |tokens|
    && if yychar == YYEMPTY then next == pos
       else if yychar == YYEOF then pos == |tokens|
       else pos < |tokens| && next == pos + 1 && yychar == Code(tokens[pos]) && yylval == Stored(tokens[pos], yylval)
  }

  /** yybackup: what to do in a state, reading a token only if the state needs one. */
  method Backup(tokens: seq<Token>, yystate: int, ghost pos: nat, next: nat, yychar: int, yylval: Value)
      returns (action: Action, next': nat, yychar': int, yylval': Value)
    requires 0 <= yystate < YYNSTATES && Lookahead(tokens, pos, next, yychar, yylval)
    ensures action == Act(yystate, ClassAt(tokens, pos))
    ensures Lookahead(tokens, pos, next', yychar', yylval') && (action.Shift? || action.Accept? ==> yychar' != YYEMPTY)
  {
    next', yychar', yylval' := next, yychar, yylval;
    PackedActionIsAct(yystate, ClassAt(tokens, pos));
    var yyn := YYPACT(yystate);
    if yyn == YYPACT_NINF {
      action := DefaultAction(yystate);
      return;
    }
    if yychar' == YYEMPTY {
      if next < |tokens| {
        next', yychar', yylval' := next + 1, Code(tokens[next]), Stored(tokens[next], yylval);
      } else {
        yychar' := YYEOF;
      }
    }
    if pos < |tokens| { ClassOfToken(tokens[pos]); }
    var yytoken := if yychar' <= YYEOF then YYEOF else Translate(yychar');
    yyn := yyn + yytoken;
    if yyn < 0 || YYLAST < yyn || YYCHECK(yyn) != yytoken {
      action := DefaultAction(yystate);
      return;
    }
    yyn := YYTABLE(yyn);
    if yyn <= 0 {
      action := if yyn == 0 || yyn == YYTABLE_NINF then Error else Reduce(-yyn);
    } else {
      action := if yyn == YYFINAL then Accept else Shift(yyn);
    }
  }

  /** yyerrlab1: the stack is popped for a state that can shift the error token; none can. */
  method Recover(yyss: seq<int>) returns (found: bool)
    requires 0 < |yyss| && forall i | 0 <= i < |yyss| :: 0 <= yyss[i] < YYNSTATES
    ensures !found
  {
    found := false;
    var top := |yyss| - 1;
    while true
      invariant 0 <= top < |yyss| && !found
      decreases top
    {
      var yyn := YYPACT(yyss[top]);
      if yyn != YYPACT_NINF {
        NoErrorEntry(yyss[top]);
        yyn := yyn + ERROR;
        found := 0 <= yyn <= YYLAST && YYCHECK(yyn) == ERROR;
        if found { return; }
      }
      if top == 0 { return; }
      top := top - 1;
    }
  }

  lemma StatesInRange(stk: Stack)
    requires Valid(stk)
    ensures forall i | 0 <= i < |States(stk)| :: 0 <= States(stk)[i] < YYNSTATES
  {
  }

  /** yysetstate: full stacks are doubled until they reach YYMAXDEPTH. */
  method Grow(yystacksize: nat, used: nat) returns (room: bool, yystacksize': nat)
    requires YYINITDEPTH <= yystacksize <= YYMAXDEPTH && used <= yystacksize
    ensures YYINITDEPTH <= yystacksize' <= YYMAXDEPTH
    ensures room <==> used < YYMAXDEPTH
    ensures room ==> used < yystacksize'
  {
    room, yystacksize' := true, yystacksize;
    if yystacksize <= used {
      if YYMAXDEPTH <= yystacksize {
        room := false;
        return;
      }
      yystacksize' := yystacksize * 2;
      if YYMAXDEPTH < yystacksize' { yystacksize' := YYMAXDEPTH; }
    }
  }

  lemma ShiftedStacks(stk: Stack, tok: Token, q: int, yyvs: seq<Value>, v: Value, host: Host, before: seq<Call>)
    requires Holds(stk, yyvs, host, before) && Fits(v, T(tok), host, StackCalls(stk, host, before))
    ensures var stk1 := Push(stk, T(tok), q);
      && Holds(stk1, yyvs + [v], host, before)
      && States(stk1) == States(stk) + [q]
      && StackCalls(stk1, host, before) == StackCalls(stk, host, before)
  {
    assert (yyvs + [v])[..|yyvs|] == yyvs;
  }

  /** What yyparse returns and leaves behind for each way a run ends. */
  predicate Answers(r: Outcome, host: Host, before: seq<Call>, yyresult: int, ret: Option<bv32>, calls: seq<Call>) {
    match r
    case Accepted(e) => yyresult == 0 && ret == Some(Eval(e, host, before).0) && calls == Eval(e, host, before).1
    case Rejected(_) => yyresult == 1
    case Exhausted => yyresult == 2
  }

  /** In terms of sentences. */
  lemma AnswersDecide(tokens: seq<Token>, host: Host, before: seq<Call>, yyresult: int, ret: Option<bv32>,
                      calls: seq<Call>)
    requires Answers(Parse(tokens, YYMAXDEPTH), host, before, yyresult, ret, calls)
    ensures yyresult == 0 <==> exists e :: Writes(e, tokens) && Need(e) + 1 < YYMAXDEPTH
    ensures forall e | Writes(e, tokens) && Need(e) + 1 < YYMAXDEPTH ::
              ret == Some(Eval(e, host, before).0) && calls == Eval(e, host, before).1
    ensures yyresult == 1 ==> !Sentence(tokens)
  {
    ParseVerdict(tokens, YYMAXDEPTH);
  }

  /** The parser.  `tokens` is what the lexer delivers before the end of input, `before` are the calls already made. */
  method YyParse(tokens: seq<Token>, host: Host, before: seq<Call>)
      returns (yyresult: int, ret: Option<bv32>, calls: seq<Call>)
    ensures yyresult == 0 <==> exists e :: Writes(e, tokens) && Need(e) + 1 < YYMAXDEPTH
    ensures forall e | Writes(e, tokens) && Need(e) + 1 < YYMAXDEPTH ::
              ret == Some(Eval(e, host, before).0) && calls == Eval(e, host, before).1
    ensures yyresult == 1 ==> !Sentence(tokens)
    ensures Answers(Parse(tokens, YYMAXDEPTH), host, before, yyresult, ret, calls)
  {
    var yystate, yychar, yylval, next := 0, YYEMPTY, Unset, 0;
    var yyss, yyvs: seq<Value> := [yystate], [Unset];
    var yystacksize := YYINITDEPTH;
    ret, calls := None, before;
    ghost var stk, pos := Bottom, 0;
    while true
      invariant pos <= |tokens| && Valid(stk) && Settled(stk, ClassAt(tokens, pos))
      invariant Parse(tokens, YYMAXDEPTH) == Run(tokens, stk, pos, YYMAXDEPTH)
      invariant yyss == States(stk) && yystate == Top(stk)
      invariant Holds(stk, yyvs, host, before) && calls == StackCalls(stk, host, before)
      invariant Reported(ret, stk, host, before)
      invariant YYINITDEPTH <= yystacksize <= YYMAXDEPTH && |yyss| <= yystacksize
      invariant Lookahead(tokens, pos, next, yychar, yylval)
      decreases |tokens| - pos, Weight(stk)
    {
      StatesInRange(stk);
      RunTurns(tokens, stk, pos, YYMAXDEPTH);
      var room;
      room, yystacksize := Grow(yystacksize, |yyss|);
      if !room {
        yyresult := 2;
        AnswersDecide(tokens, host, before, yyresult, ret, calls);
        return;
      }
      var action;
      action, next, yychar, yylval := Backup(tokens, yystate, pos, next, yychar, yylval);
      match action {
        case Accept =>
          yyresult := 0;
          AnswersDecide(tokens, host, before, yyresult, ret, calls);
          return;
        case Shift(q) =>
          ShiftedStacks(stk, tokens[pos], q, yyvs, yylval, host, before);
          yystate, yychar := q, YYEMPTY;
          yyss, yyvs := yyss + [yystate], yyvs + [yylval];
          stk, pos := Push(stk, T(tokens[pos]), q), pos + 1;
        case Reduce(rule) =>
          yystate, yyss, yyvs, calls, ret :=
            ReduceBy(rule, yyss, yyvs, host, calls, ret, stk, ClassAt(tokens, pos), before);
          stk := Reduced(stk, rule);
        case Error =>
          var found := Recover(yyss);
          assert !found;
          yyresult := 1;
          AnswersDecide(tokens, host, before, yyresult, ret, calls);
          return;
      }
    }
  }
}
