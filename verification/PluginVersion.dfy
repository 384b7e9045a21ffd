/** Plugin versions: up to four numbers, compared through one 32-bit number. */
module PluginVersion {
  import opened Decimals

  /** The value of a C int after a computation that may run over. */
  function Wrap(n: int): int {
    (n + 0x8000_0000) % 0x1_0000_0000 - 0x8000_0000
  }

  function Split(s: string): (parts: seq<string>)
    ensures parts != []
  {
    if s == "" then [""]
    else if s[0] == '.' then [""] + Split(s[1..])
    else var rest := Split(s[1..]); [[s[0]] + rest[0]] + rest[1..]
  }

  predicate OneOrTwo(c: char) {
    c == '1' || c == '2'
  }

  /** The pattern of the first number: no zero between two other digits. */
  predicate FirstMatches(s: string) {
    || (|s| == 1 && IsDigit(s[0]))
    || (|s| == 2 && IsDigit(s[0]) && s[0] != '0' && IsDigit(s[1]))
    || (|s| == 3 && OneOrTwo(s[0]) && IsDigit(s[1]) && s[1] != '0' && IsDigit(s[2]))
  }

  predicate RestMatches(s: string) {
    || (|s| == 1 && IsDigit(s[0]))
    || (|s| == 2 && IsDigit(s[0]) && IsDigit(s[1]))
    || (|s| == 3 && OneOrTwo(s[0]) && IsDigit(s[1]) && IsDigit(s[2]))
  }

  predicate Matches(parts: seq<string>) {
    1 <= |parts| <= 4 && FirstMatches(parts[0]) && forall i | 1 <= i < |parts| :: RestMatches(parts[i])
  }

  function Number(parts: seq<string>, i: nat): int {
    if i < |parts| then Atoi(parts[i]) else 0
  }

  /** convertVersion: a single number is not checked against 255; of several, each is. */
  function ConvertVersion(s: string): int {
    var parts := Split(s);
    if !Matches(parts) then -1
    else if |parts| == 1 then Wrap(Atoi(s) * 0x100_0000)
    else
      var n1, n2, n3, n4 := Number(parts, 0), Number(parts, 1), Number(parts, 2), Number(parts, 3);
      if n1 > 255 || n2 > 255 || n3 > 255 || n4 > 255 then -1
      else Wrap(n1 * 0x100_0000 + n2 * 0x1_0000 + n3 * 0x100 + n4)
  }

  // ---- Printed versions ----

  function Dotted(ns: seq<nat>): string
    requires ns != []
  {
    if |ns| == 1 then Decimal(ns[0]) else Decimal(ns[0]) + "." + Dotted(ns[1..])
  }

  function At(ns: seq<nat>, i: nat): nat {
    if i < |ns| then ns[i] else 0
  }

  /** The number a version stands for. */
  function Value(ns: seq<nat>): nat {
    At(ns, 0) * 0x100_0000 + At(ns, 1) * 0x1_0000 + At(ns, 2) * 0x100 + At(ns, 3)
  }

  lemma {:induction false} SplitPart(s: string, rest: string)
    requires '.' !in s
    ensures Split(s) == [s]
    ensures Split(s + "." + rest) == [s] + Split(rest)
  {
    if s == "" {
      assert s + "." + rest == "." + rest && ("." + rest)[1..] == rest;
    } else {
      SplitPart(s[1..], rest);
      assert (s + "." + rest)[1..] == s[1..] + "." + rest && [s[0]] + s[1..] == s;
      assert forall i | 0 <= i < |s[1..]| :: s[1..][i] in s;
    }
  }

  lemma {:induction false} SplitDotted(ns: seq<nat>)
    requires ns != []
    ensures |Split(Dotted(ns))| == |ns| && forall i | 0 <= i < |ns| :: Split(Dotted(ns))[i] == Decimal(ns[i])
  {
    if |ns| == 1 {
      SplitPart(Decimal(ns[0]), "");
    } else {
      SplitPart(Decimal(ns[0]), Dotted(ns[1..]));
      SplitDotted(ns[1..]);
    }
  }

  /** The lengths of small numbers, and their digits. */
  lemma SmallDecimal(n: nat)
    requires n < 1000
    ensures n < 10 ==> Decimal(n) == [DigitChar(n)]
    ensures 10 <= n < 100 ==> Decimal(n) == [DigitChar(n / 10), DigitChar(n % 10)]
    ensures 100 <= n ==> Decimal(n) == [DigitChar(n / 100), DigitChar(n / 10 % 10), DigitChar(n % 10)]
  {
    if 100 <= n { assert n / 10 / 10 == n / 100 < 10; }
  }

  lemma DecimalMatches(n: nat)
    requires n <= 255
    ensures RestMatches(Decimal(n))
    ensures FirstMatches(Decimal(n)) <==> n <= 99 || 110 <= n <= 199 || 210 <= n
  {
    SmallDecimal(n);
  }

  /** A printed version is read back as the number it stands for exactly when its first number is matched by the pattern
      and leaves the sign bit alone. */
  lemma ConvertsBackIff(ns: seq<nat>)
    requires 1 <= |ns| <= 4 && forall i | 0 <= i < |ns| :: ns[i] <= 255
    ensures ConvertVersion(Dotted(ns)) == Value(ns) <==> ns[0] <= 99 || 110 <= ns[0] <= 127
  {
    SplitDotted(ns);
    var parts := Split(Dotted(ns));
    forall i | 0 <= i < |ns|
      ensures Atoi(parts[i]) == ns[i] && RestMatches(parts[i])
      ensures i == 0 ==> (FirstMatches(parts[i]) <==> ns[i] <= 99 || 110 <= ns[i] <= 199 || 210 <= ns[i])
    {
      ReadsBack(ns[i], "");
      assert Decimal(ns[i]) + "" == Decimal(ns[i]);
      DecimalMatches(ns[i]);
    }
    if Matches(parts) { ConvertedIs(ns); }
  }

  lemma WrapIs(v: nat)
    requires v < 0x1_0000_0000
    ensures Wrap(v) == if v < 0x8000_0000 then v else v - 0x1_0000_0000
  {
  }

  lemma ConvertedIs(ns: seq<nat>)
    requires 1 <= |ns| <= 4 && forall i | 0 <= i < |ns| :: ns[i] <= 255
    requires Matches(Split(Dotted(ns))) && |Split(Dotted(ns))| == |ns|
    requires forall i | 0 <= i < |ns| :: Atoi(Split(Dotted(ns))[i]) == ns[i]
    ensures ConvertVersion(Dotted(ns)) == if ns[0] < 128 then Value(ns) else Value(ns) - 0x1_0000_0000
  {
    var parts := Split(Dotted(ns));
    forall i: nat | i < 4
      ensures Number(parts, i) == At(ns, i) <= 255
    {
    }
    if |ns| == 1 { SplitPart(Decimal(ns[0]), ""); }
    WrapIs(Value(ns));
    PartsConvert(Dotted(ns), ns);
  }

  lemma PartsConvert(s: string, ns: seq<nat>)
    requires Matches(Split(s)) && |Split(s)| == |ns| && (|ns| == 1 ==> Split(s) == [s])
    requires forall i: nat | i < 4 :: Number(Split(s), i) == At(ns, i) <= 255
    ensures ConvertVersion(s) == Wrap(Value(ns))
  {
    if |ns| == 1 {
      assert Number(Split(s), 0) == Atoi(s);
      assert Value(ns) == At(ns, 0) * 0x100_0000;
    } else {
      SeveralConvert(s, At(ns, 0), At(ns, 1), At(ns, 2), At(ns, 3));
    }
  }

  lemma SeveralConvert(s: string, n1: nat, n2: nat, n3: nat, n4: nat)
    requires Matches(Split(s)) && |Split(s)| > 1 && n1 <= 255 && n2 <= 255 && n3 <= 255 && n4 <= 255
    requires var parts := Split(s);
      Number(parts, 0) == n1 && Number(parts, 1) == n2 && Number(parts, 2) == n3 && Number(parts, 3) == n4
    ensures ConvertVersion(s) == Wrap(n1 * 0x100_0000 + n2 * 0x1_0000 + n3 * 0x100 + n4)
  {
  }

  // ---- All texts ----

  lemma {:induction false} LongDecimal(n: nat)
    requires n >= 1000
    ensures |Decimal(n)| > 3
  {
    if n < 10000 { SmallDecimal(n / 10); } else { LongDecimal(n / 10); }
  }

  /** The pattern takes every number up to 299, but from 100 to 109 and 200 to 209 not as the first. */
  lemma NumberMatches(n: nat)
    ensures RestMatches(Decimal(n)) <==> n <= 299
    ensures FirstMatches(Decimal(n)) <==> n <= 99 || 110 <= n <= 199 || 210 <= n <= 299
  {
    if n < 1000 { SmallDecimal(n); } else { LongDecimal(n); }
  }

  /** At most four numbers, none above 299, of several none above 255, and the first not with a zero between two digits.
      */
  predicate Readable(ns: seq<nat>) {
    && 1 <= |ns| <= 4 && (forall i | 0 <= i < |ns| :: ns[i] <= 299)
    && (|ns| > 1 ==> forall i | 0 <= i < |ns| :: ns[i] <= 255)
    && !(100 <= ns[0] <= 109) && !(200 <= ns[0] <= 209)
  }

  /** The 32-bit number with a sign that has the same low 32 bits. */
  predicate SameBits(v: int, n: int) {
    -0x8000_0000 <= v < 0x8000_0000 && (v - n) % 0x1_0000_0000 == 0
  }

  /** There is just one such number. */
  lemma OneWithBits(v: int, w: int, n: int)
    requires SameBits(v, n) && SameBits(w, n)
    ensures v == w && (-0x8000_0000 <= n < 0x8000_0000 ==> v == n)
  {
  }

  /** Whatever numbers are printed with dots between them: readable ones give their value in 32 bits, and all others
      give -1. */
  lemma DottedConverts(ns: seq<nat>)
    requires ns != []
    ensures if Readable(ns) then SameBits(ConvertVersion(Dotted(ns)), Value(ns)) else ConvertVersion(Dotted(ns)) == -1
  {
    MatchesIff(ns);
    if Matches(Split(Dotted(ns))) {
      WrapLaw(Value(ns));
      if |ns| == 1 {
        SingleIs(ns[0]);
        assert ns == [ns[0]];
      } else {
        NumbersAre(ns);
      }
    }
  }

  lemma MatchesIff(ns: seq<nat>)
    requires ns != []
    ensures Readable(ns) <==> Matches(Split(Dotted(ns))) && (|ns| > 1 ==> forall i | 0 <= i < |ns| :: ns[i] <= 255)
    ensures |Split(Dotted(ns))| == |ns| && forall i | 0 <= i < |ns| :: Atoi(Split(Dotted(ns))[i]) == ns[i]
  {
    var parts := Split(Dotted(ns));
    SplitDotted(ns);
    forall i | 0 <= i < |ns|
      ensures Atoi(parts[i]) == ns[i] && (RestMatches(parts[i]) <==> ns[i] <= 299)
      ensures FirstMatches(parts[i]) <==> ns[i] <= 99 || 110 <= ns[i] <= 199 || 210 <= ns[i] <= 299
    {
      ReadsBack(ns[i], "");
      assert Decimal(ns[i]) + "" == Decimal(ns[i]);
      NumberMatches(ns[i]);
    }
  }

  lemma SingleIs(n: nat)
    requires Matches(Split(Dotted([n])))
    ensures ConvertVersion(Dotted([n])) == Wrap(Value([n]))
  {
    MatchesIff([n]);
    SplitPart(Decimal(n), "");
  }

  lemma WrapLaw(v: int)
    ensures SameBits(Wrap(v), v)
  {
  }

  lemma NumbersAre(ns: seq<nat>)
    requires 1 < |ns| <= 4 && |Split(Dotted(ns))| == |ns| && Matches(Split(Dotted(ns)))
    requires forall i | 0 <= i < |ns| :: Atoi(Split(Dotted(ns))[i]) == ns[i]
    ensures ConvertVersion(Dotted(ns)) == if forall i | 0 <= i < |ns| :: ns[i] <= 255 then Wrap(Value(ns)) else -1
  {
    var parts := Split(Dotted(ns));
    assert Number(parts, 0) == At(ns, 0) && Number(parts, 1) == At(ns, 1);
    assert Number(parts, 2) == At(ns, 2) && Number(parts, 3) == At(ns, 3);
    assert (forall i | 0 <= i < |ns| :: ns[i] <= 255) <==>
      At(ns, 0) <= 255 && At(ns, 1) <= 255 && At(ns, 2) <= 255 && At(ns, 3) <= 255;
  }

  /** A text with a character that is no digit and no dot, or with an empty part or one of more than three digits, is no
      version. */
  lemma JunkIsRejected(s: string, i: nat)
    requires i < |Split(s)| && var part := Split(s)[i];
      |part| == 0 || |part| > 3 || exists k :: 0 <= k < |part| && !IsDigit(part[k])
    ensures ConvertVersion(s) == -1
  {
  }

  /** The parts are what stands between the dots. */
  lemma {:induction false} SplitJoins(s: string)
    ensures (forall i | 0 <= i < |Split(s)| :: '.' !in Split(s)[i]) && Joined(Split(s)) == s
  {
    if s != "" {
      SplitJoins(s[1..]);
      var rest := Split(s[1..]);
      assert s == [s[0]] + s[1..];
      if s[0] == '.' {
        assert ([""] + rest)[1..] == rest;
      } else {
        assert ([[s[0]] + rest[0]] + rest[1..])[1..] == rest[1..];
        if |rest| > 1 {
          assert [s[0]] + rest[0] + "." + Joined(rest[1..]) == [s[0]] + (rest[0] + "." + Joined(rest[1..]));
        }
      }
    }
  }

  function Joined(parts: seq<string>): string
    requires parts != []
  {
    if |parts| == 1 then parts[0] else parts[0] + "." + Joined(parts[1..])
  }

  /** Comparing the numbers compares the versions, position by position, a missing position counting as zero. */
  lemma ValueIsLexicographic(ns: seq<nat>, ms: seq<nat>)
    requires (forall i :: At(ns, i) <= 255) && forall i :: At(ms, i) <= 255
    ensures Value(ns) < Value(ms) <==>
            exists k: nat :: k < 4 && At(ns, k) < At(ms, k) && forall i: nat | i < k :: At(ns, i) == At(ms, i)
  {
    var k := if At(ns, 0) != At(ms, 0) then 0 else if At(ns, 1) != At(ms, 1) then 1 else if At(ns, 2) != At(ms, 2)
      then 2 else 3;
    if Value(ns) < Value(ms) {
      assert At(ns, k) < At(ms, k);
    }
  }
}
