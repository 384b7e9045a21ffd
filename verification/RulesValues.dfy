/** What the value of a rule expression is, bit by bit and letter by letter. */
module RulesValues {
  import opened Wrappers
  import opened TextOrder
  import opened RulesGrammar

  // ---- Bits ----

  function Half(v: bv32): bv32 {
    v >> 1
  }

  predicate Odd(v: bv32) {
    v & 1 == 1
  }

  /** The bit with the weight 2 to the `i`. */
  predicate Bit(v: bv32, i: nat) {
    if i == 0 then Odd(v) else Bit(Half(v), i - 1)
  }

  /** The binary digit of a number with the weight 2 to the `i`. */
  predicate Digit(n: nat, i: nat) {
    if i == 0 then n % 2 == 1 else Digit(n / 2, i - 1)
  }

  lemma HalfAnd(v: bv32, w: bv32)
    ensures Half(BitAnd(v, w)) == BitAnd(Half(v), Half(w)) && (Odd(BitAnd(v, w)) <==> Odd(v) && Odd(w))
  {
  }

  lemma HalfOr(v: bv32, w: bv32)
    ensures Half(BitOr(v, w)) == BitOr(Half(v), Half(w)) && (Odd(BitOr(v, w)) <==> Odd(v) || Odd(w))
  {
  }

  lemma {:induction false} BitAndIs(v: bv32, w: bv32, i: nat)
    ensures Bit(BitAnd(v, w), i) <==> Bit(v, i) && Bit(w, i)
  {
    HalfAnd(v, w);
    if i > 0 { BitAndIs(Half(v), Half(w), i - 1); }
  }

  lemma {:induction false} BitOrIs(v: bv32, w: bv32, i: nat)
    ensures Bit(BitOr(v, w), i) <==> Bit(v, i) || Bit(w, i)
  {
    HalfOr(v, w);
    if i > 0 { BitOrIs(Half(v), Half(w), i - 1); }
  }

  lemma HalfDoubled(v: bv32, odd: bool)
    ensures Half(Doubled(v, odd)) == BitAnd(v, 0x7fff_ffff) && (Odd(Doubled(v, odd)) <==> odd)
  {
  }

  lemma HalfZero()
    ensures Half(0) == BitAnd(0, 0x7fff_ffff) && !Odd(0)
  {
  }

  lemma HalfWidth(n: nat)
    ensures Half(Width32(n)) == BitAnd(Width32(n / 2), 0x7fff_ffff) && (Odd(Width32(n)) <==> n % 2 == 1)
  {
    if n > 0 { HalfDoubled(Width32(n / 2), n % 2 == 1); } else { HalfZero(); }
  }

  /** As many ones as `k` says, up to 31. */
  function Ones(k: nat): bv32
    decreases 31 - k
  {
    if k >= 31 then 0x7fff_ffff else Half(Ones(k + 1))
  }

  lemma FiveLess(k: nat)
    requires 5 <= k <= 31
    ensures Ones(k - 5) == Ones(k) >> 5
  {
    assert Ones(k - 1) == Half(Ones(k)) && Ones(k - 2) == Half(Ones(k - 1)) && Ones(k - 3) == Half(Ones(k - 2));
    assert Ones(k - 4) == Half(Ones(k - 3)) && Ones(k - 5) == Half(Ones(k - 4));
  }

  lemma LastOne()
    ensures Ones(1) == 1
  {
    FiveLess(31);
    FiveLess(26);
    FiveLess(21);
    FiveLess(16);
    FiveLess(11);
    FiveLess(6);
  }

  predicate OnlyLow(m: bv32) {
    m & (m + 1) == 0
  }

  lemma HalfOnlyLow(m: bv32)
    requires OnlyLow(m)
    ensures OnlyLow(Half(m)) && (m != 0 ==> Odd(m)) && (Half(m) != 0 ==> m != 0)
  {
  }

  lemma {:induction false} OnesOnlyLow(k: nat)
    ensures OnlyLow(Ones(k))
    decreases 31 - k
  {
    if k < 31 {
      OnesOnlyLow(k + 1);
      HalfOnlyLow(Ones(k + 1));
    }
  }

  lemma {:induction false} OnesAreOdd(k: nat)
    requires 0 < k <= 31
    ensures Odd(Ones(k))
    decreases k
  {
    OnesOnlyLow(k);
    HalfOnlyLow(Ones(k));
    if k == 1 { LastOne(); } else { OnesAreOdd(k - 1); OddIsNotZero(Ones(k - 1)); }
  }

  lemma OddIsNotZero(v: bv32)
    requires Odd(v)
    ensures v != 0
  {
  }

  lemma {:induction false} OneBelow(k: nat, i: nat)
    requires i < k <= 31
    ensures Bit(Ones(k), i)
    decreases i
  {
    if i > 0 { OneBelow(k - 1, i - 1); } else { OnesAreOdd(k); }
  }

  /** The low 32 bits of a length are its low 32 binary digits. */
  lemma {:induction false} WidthBits(n: nat, i: nat)
    requires i < 32
    ensures Bit(Width32(n), i) <==> Digit(n, i)
    decreases i
  {
    HalfWidth(n);
    if i > 0 {
      OneBelow(31, i - 1);
      BitAndIs(Width32(n / 2), 0x7fff_ffff, i - 1);
      WidthBits(n / 2, i - 1);
    }
  }

  // ---- Values ----

  /** AND and OR work on every bit by itself. */
  lemma AndValue(l: Exp, r: Exp, host: Host, calls: seq<Call>, i: nat)
    ensures var (v, calls1) := Eval(l, host, calls); var (w, calls2) := Eval(r, host, calls1);
      && (Bit(Eval(And(l, r), host, calls).0, i) <==> Bit(v, i) && Bit(w, i))
      && Eval(And(l, r), host, calls).1 == calls2
  {
    var (v, calls1) := Eval(l, host, calls);
    BitAndIs(v, Eval(r, host, calls1).0, i);
  }

  lemma OrValue(l: Exp, r: Exp, host: Host, calls: seq<Call>, i: nat)
    ensures var (v, calls1) := Eval(l, host, calls); var (w, calls2) := Eval(r, host, calls1);
      && (Bit(Eval(Or(l, r), host, calls).0, i) <==> Bit(v, i) || Bit(w, i))
      && Eval(Or(l, r), host, calls).1 == calls2
  {
    var (v, calls1) := Eval(l, host, calls);
    BitOrIs(v, Eval(r, host, calls1).0, i);
  }

  /** NOT is one exactly on zero, and zero otherwise. */
  lemma NotValue(e: Exp, host: Host, calls: seq<Call>)
    ensures Eval(Not(e), host, calls).0 == if Eval(e, host, calls).0 == 0 then 1 else 0
    ensures Eval(Paren(e), host, calls) == Eval(e, host, calls)
  {
  }

  /** On truth values the three are the connectives. */
  lemma ConnectiveValues(l: Exp, r: Exp, host: Host, calls: seq<Call>)
    requires var (v, calls1) := Eval(l, host, calls); v <= 1 && Eval(r, host, calls1).0 <= 1
    ensures var (v, calls1) := Eval(l, host, calls); var w := Eval(r, host, calls1).0;
      && Eval(And(l, r), host, calls).0 == (if v == 1 && w == 1 then 1 else 0)
      && Eval(Or(l, r), host, calls).0 == (if v == 1 || w == 1 then 1 else 0)
      && Eval(Not(l), host, calls).0 == (if v == 1 then 0 else 1)
  {
    var (v, calls1) := Eval(l, host, calls);
    Connectives(v, Eval(r, host, calls1).0);
  }

  lemma Connectives(v: bv32, w: bv32)
    requires v <= 1 && w <= 1
    ensures BitAnd(v, w) == (if v == 1 && w == 1 then 1 else 0) && BitOr(v, w) == if v == 1 || w == 1 then 1 else 0
  {
  }

  /** A string alone is its length: every bit of the value is that binary digit of the length. */
  lemma LengthValue(s: Str, host: Host, calls: seq<Call>, i: nat)
    requires i < 32
    ensures Bit(Eval(Length(s), host, calls).0, i) <==> Digit(|EvalStr(s, host, calls).0|, i)
  {
    WidthBits(|EvalStr(s, host, calls).0|, i);
  }

  /** The double equals sign compares texts letter by letter, or numbers. */
  lemma EqualValue(l: Str, r: Str, m: bv32, n: bv32, host: Host, calls: seq<Call>)
    ensures var (x, calls1) := EvalStr(l, host, calls); var y := EvalStr(r, host, calls1).0;
      Eval(Equal(l, r), host, calls).0 == if |x| == |y| && forall i | 0 <= i < |x| :: x[i] == y[i] then 1 else 0
    ensures Eval(BinEqual(m, n), host, calls).0 == (if m == n then 1 else 0) && Eval(Bin(n), host, calls).0 == n
  {
  }

  /** The same letter, or the same letter of the alphabet in the other case. */
  predicate SameLetter(c: char, d: char) {
    c == d || ('A' <= c <= 'Z' && d as int == c as int + 32) || ('A' <= d <= 'Z' && c as int == d as int + 32)
  }

  predicate SameLetters(x: string, y: string) {
    |x| == |y| && forall i | 0 <= i < |x| :: SameLetter(x[i], y[i])
  }

  /** The first `n` characters are those before the first NUL, or all there are. */
  predicate EndsAt(x: string, n: nat) {
    n <= |x| && (forall i | 0 <= i < n :: x[i] != '\0') && (n == |x| || x[n] == '\0')
  }

  lemma {:induction false} CStringEnds(x: string)
    ensures EndsAt(x, |CString(x)|) && CString(x) == x[..|CString(x)|]
  {
    if x != [] && x[0] != '\0' { CStringEnds(x[1..]); }
  }

  lemma OneEnd(x: string, n: nat, m: nat)
    requires EndsAt(x, n) && EndsAt(x, m)
    ensures n == m
  {
  }

  lemma SameLetterIs(c: char, d: char)
    ensures SameLetter(c, d) <==> Lower(c) == Lower(d)
  {
  }

  /** The triple one compares up to the first NUL, without regard to the case of the letters A to Z. */
  lemma EqualNoCaseValue(l: Str, r: Str, host: Host, calls: seq<Call>, n: nat, m: nat)
    requires EndsAt(EvalStr(l, host, calls).0, n)
    requires EndsAt(EvalStr(r, host, EvalStr(l, host, calls).1).0, m)
    ensures var (x, calls1) := EvalStr(l, host, calls); var y := EvalStr(r, host, calls1).0;
      Eval(EqualNoCase(l, r), host, calls).0 == if n == m && SameLetters(x[..n], y[..m]) then 1 else 0
  {
    var (x, calls1) := EvalStr(l, host, calls);
    var y := EvalStr(r, host, calls1).0;
    FoldedIs(x, y, n, m);
    assert Eval(EqualNoCase(l, r), host, calls).0 == Truth(EqualFolded(x, y));
  }

  lemma FoldedIs(x: string, y: string, n: nat, m: nat)
    requires EndsAt(x, n) && EndsAt(y, m)
    ensures EqualFolded(x, y) <==> n == m && SameLetters(x[..n], y[..m])
  {
    CStringEnds(x);
    CStringEnds(y);
    OneEnd(x, n, |CString(x)|);
    OneEnd(y, m, |CString(y)|);
    forall i | 0 <= i < n && n == m
      ensures SameLetter(x[..n][i], y[..m][i]) <==> Lower(CString(x)[i]) == Lower(CString(y)[i])
    {
      SameLetterIs(x[i], y[i]);
    }
  }

  /** A call is the last one made so far, after those of its argument, and its value is what is answered to it, given
      all the calls before; a quoted text is its own value and calls nothing. */
  lemma CallValue(s: Str, host: Host, calls: seq<Call>)
    requires s.Call0? || s.Call1?
    ensures var (x, calls1) := EvalStr(s, host, calls);
      && calls1 != [] && x == host(calls1[..|calls1| - 1], calls1[|calls1| - 1])
      && calls1[|calls1| - 1].fn == s.fn && (s.Call0? ==> calls1 == calls + [Call(s.fn, None)])
      && (s.Call1? ==> calls1[..|calls1| - 1] == EvalStr(s.arg, host, calls).1)
      && (s.Call1? ==> calls1[|calls1| - 1].arg == Some(EvalStr(s.arg, host, calls).0))
  {
    if s.Call1? {
      var (a, calls0) := EvalStr(s.arg, host, calls);
      assert (calls0 + [Call(s.fn, Some(a))])[..|calls0|] == calls0;
    } else {
      assert (calls + [Call(s.fn, None)])[..|calls|] == calls;
    }
  }

  lemma TextValue(x: string, host: Host, calls: seq<Call>)
    ensures EvalStr(Literal(x), host, calls) == (x, calls) && EvalStr(IdLiteral(x), host, calls) == (x, calls)
  {
  }
}
