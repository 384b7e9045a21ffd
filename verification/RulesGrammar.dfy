/** Tokens, rule expressions, and what a rule expression means. */
module RulesGrammar {
  import opened Wrappers
  import opened TextOrder
  import opened RulesTables

  /** Character codes returned by the lexer that are none of its named tokens. */
  type OtherCode = c: int | 0 < c && c !in {34, 40, 41} && !(258 <= c <= 265) witness 1

  datatype Token =
    | StringTok(text: string)
    | IdTok(text: string)
    | ExpBinTok(n: bv32)
    | EqDoubleTok | EqTripleTok | AndTok | OrTok | NotTok
    | QuoteTok | LParTok | RParTok
    | OtherTok(other: OtherCode)

  /** The integer yylex returns for a token. */
  function Code(tok: Token): int {
    match tok
    case StringTok(_) => 258
    case IdTok(_) => 259
    case ExpBinTok(_) => 260
    case EqDoubleTok => 261
    case EqTripleTok => 262
    case AndTok => 263
    case OrTok => 264
    case NotTok => 265
    case QuoteTok => 34
    case LParTok => 40
    case RParTok => 41
    case OtherTok(c) => c
  }

  /** YYTRANSLATE: from the code of a token to its class. */
  function Translate(code: int): int
    requires 0 <= code
  {
    if code > 265 then UNDEF
    else if code == 0 then END
    else if code == 34 then QUOTE
    else if code == 40 then LPAR
    else if code == 41 then RPAR
    else if code == 256 then ERROR
    else if 258 <= code then code - 255
    else UNDEF
  }

  function Class(tok: Token): int {
    Translate(Code(tok))
  }

  /** A string value: a quoted text, or the answer of a function. */
  datatype Str =
    | Literal(text: string)
    | IdLiteral(text: string)
    | Call0(fn: string)
    | Call1(fn: string, arg: Str)

  datatype Exp =
    | Length(s: Str)
    | Equal(l: Str, r: Str)
    | EqualNoCase(l: Str, r: Str)
    | Paren(e: Exp)
    | Not(e: Exp)
    | And(left: Exp, right: Exp)
    | Or(left: Exp, right: Exp)
    | Bin(n: bv32)
    | BinEqual(m: bv32, n: bv32)

  /** How tightly the outermost operator of an expression binds. */
  function Level(e: Exp): nat {
    match e
    case And(_, _) => 0
    case Or(_, _) => 1
    case _ => 2
  }

  /** The stratified grammar: NOT binds tighter than OR, OR tighter than AND, and both associate to the left. */
  predicate Stratified(e: Exp) {
    match e
    case Paren(e1) => Stratified(e1)
    case Not(e1) => Stratified(e1) && 2 <= Level(e1)
    case And(l, r) => Stratified(l) && Stratified(r) && 1 <= Level(r)
    case Or(l, r) => Stratified(l) && Stratified(r) && 1 <= Level(l) && 2 <= Level(r)
    case _ => true
  }

  function StrYield(s: Str): seq<Token> {
    match s
    case Literal(x) => [QuoteTok, StringTok(x), QuoteTok]
    case IdLiteral(x) => [QuoteTok, IdTok(x), QuoteTok]
    case Call0(f) => [IdTok(f), LParTok, RParTok]
    case Call1(f, a) => [IdTok(f), LParTok] + StrYield(a) + [RParTok]
  }

  /** The tokens an expression is written with. */
  function Yield(e: Exp): seq<Token> {
    match e
    case Length(s) => StrYield(s)
    case Equal(l, r) => StrYield(l) + [EqDoubleTok] + StrYield(r)
    case EqualNoCase(l, r) => StrYield(l) + [EqTripleTok] + StrYield(r)
    case Paren(e1) => [LParTok] + Yield(e1) + [RParTok]
    case Not(e1) => [NotTok] + Yield(e1)
    case And(l, r) => Yield(l) + [AndTok] + Yield(r)
    case Or(l, r) => Yield(l) + [OrTok] + Yield(r)
    case Bin(n) => [ExpBinTok(n)]
    case BinEqual(m, n) => [ExpBinTok(m), EqDoubleTok, ExpBinTok(n)]
  }

  predicate Writes(e: Exp, tokens: seq<Token>) {
    Stratified(e) && Yield(e) == tokens
  }

  /** A token sequence is a sentence when a stratified expression is written with it. */
  ghost predicate Sentence(tokens: seq<Token>) {
    exists e :: Writes(e, tokens)
  }

  // ---- Meaning ----

  /** One call of `call_function`. */
  datatype Call = Call(fn: string, arg: Option<string>)

  /** What `call_function` answers to a call, given all the calls made before it. */
  type Host = (seq<Call>, Call) -> string

  /** The part of a string that strcasecmp sees. */
  function CString(s: string): string {
    if s == [] || s[0] == '\0' then [] else [s[0]] + CString(s[1..])
  }

  predicate EqualFolded(a: string, b: string) {
    var x, y := CString(a), CString(b);
    |x| == |y| && forall i | 0 <= i < |x| :: Lower(x[i]) == Lower(y[i])
  }

  function Truth(b: bool): bv32 {
    if b then 1 else 0
  }

  function BitAnd(v: bv32, w: bv32): bv32 {
    v & w
  }

  function BitOr(v: bv32, w: bv32): bv32 {
    v | w
  }

  /** The low 32 binary digits of a number. */
  function Width32(n: nat): bv32 {
    if n == 0 then 0 else Doubled(Width32(n / 2), n % 2 == 1)
  }

  function Doubled(v: bv32, odd: bool): bv32 {
    (v << 1) | Truth(odd)
  }

  /** The value of a string expression and all the calls made so far, when `calls` were made before. */
  function EvalStr(s: Str, host: Host, calls: seq<Call>): (string, seq<Call>) {
    match s
    case Literal(x) => (x, calls)
    case IdLiteral(x) => (x, calls)
    case Call0(f) =>
      var c := Call(f, None);
      (host(calls, c), calls + [c])
    case Call1(f, a) =>
      var (x, calls1) := EvalStr(a, host, calls);
      var c := Call(f, Some(x));
      (host(calls1, c), calls1 + [c])
  }

  /** The value of an expression; both operands are always evaluated, from left to right. */
  function Eval(e: Exp, host: Host, calls: seq<Call>): (bv32, seq<Call>) {
    match e
    case Length(s) =>
      var (x, calls1) := EvalStr(s, host, calls);
      (Width32(|x|), calls1)
    case Equal(l, r) =>
      var (x, calls1) := EvalStr(l, host, calls);
      var (y, calls2) := EvalStr(r, host, calls1);
      (Truth(x == y), calls2)
    case EqualNoCase(l, r) =>
      var (x, calls1) := EvalStr(l, host, calls);
      var (y, calls2) := EvalStr(r, host, calls1);
      (Truth(EqualFolded(x, y)), calls2)
    case Paren(e1) => Eval(e1, host, calls)
    case Not(e1) =>
      var (v, calls1) := Eval(e1, host, calls);
      (Truth(v == 0), calls1)
    case And(l, r) =>
      var (v, calls1) := Eval(l, host, calls);
      var (w, calls2) := Eval(r, host, calls1);
      (BitAnd(v, w), calls2)
    case Or(l, r) =>
      var (v, calls1) := Eval(l, host, calls);
      var (w, calls2) := Eval(r, host, calls1);
      (BitOr(v, w), calls2)
    case Bin(n) => (n, calls)
    case BinEqual(m, n) => (Truth(m == n), calls)
  }

  // ---- The order of calls ----

  /** The function names of the calls written in a string value, arguments before the call they belong to. */
  function StrCallSites(s: Str): seq<string> {
    match s
    case Call0(f) => [f]
    case Call1(f, a) => StrCallSites(a) + [f]
    case _ => []
  }

  /** The function names written in an expression in left-to-right post-order. */
  function CallSites(e: Exp): seq<string> {
    match e
    case Length(s) => StrCallSites(s)
    case Equal(l, r) => StrCallSites(l) + StrCallSites(r)
    case EqualNoCase(l, r) => StrCallSites(l) + StrCallSites(r)
    case Paren(e1) => CallSites(e1)
    case Not(e1) => CallSites(e1)
    case And(l, r) => CallSites(l) + CallSites(r)
    case Or(l, r) => CallSites(l) + CallSites(r)
    case _ => []
  }

  function Names(calls: seq<Call>): (names: seq<string>)
    ensures |names| == |calls|
  {
    seq(|calls|, i requires 0 <= i < |calls| => calls[i].fn)
  }

  lemma {:induction false} StrCallsInPostOrder(s: Str, host: Host, calls: seq<Call>)
    ensures Names(EvalStr(s, host, calls).1) == Names(calls) + StrCallSites(s)
  {
    match s
    case Literal(_) =>
    case IdLiteral(_) =>
    case Call0(_) =>
    case Call1(f, a) =>
      StrCallsInPostOrder(a, host, calls);
      var calls1 := EvalStr(a, host, calls).1;
      assert Names(EvalStr(s, host, calls).1) == Names(calls1) + [f];
  }

  /** Evaluation makes each call that is written in the expression once, in left-to-right post-order. */
  lemma {:induction false} CallsInPostOrder(e: Exp, host: Host, calls: seq<Call>)
    ensures Names(Eval(e, host, calls).1) == Names(calls) + CallSites(e)
  {
    match e
    case Length(s) => StrCallsInPostOrder(s, host, calls);
    case Equal(l, r) =>
      StrCallsInPostOrder(l, host, calls);
      StrCallsInPostOrder(r, host, EvalStr(l, host, calls).1);
    case EqualNoCase(l, r) =>
      StrCallsInPostOrder(l, host, calls);
      StrCallsInPostOrder(r, host, EvalStr(l, host, calls).1);
    case Paren(e1) => CallsInPostOrder(e1, host, calls);
    case Not(e1) => CallsInPostOrder(e1, host, calls);
    case And(l, r) =>
      CallsInPostOrder(l, host, calls);
      CallsInPostOrder(r, host, Eval(l, host, calls).1);
    case Or(l, r) =>
      CallsInPostOrder(l, host, calls);
      CallsInPostOrder(r, host, Eval(l, host, calls).1);
    case Bin(_) =>
    case BinEqual(_, _) =>
  }
}
