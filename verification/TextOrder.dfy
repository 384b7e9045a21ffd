/** The order of the C library on texts without a terminator inside. */
module TextOrder {

  function Compare(a: string, b: string): int {
    if a == [] || b == [] then |a| - |b|
    else if a[0] != b[0] then a[0] as int - b[0] as int
    else Compare(a[1..], b[1..])
  }

  predicate Le(a: string, b: string) {
    Compare(a, b) <= 0
  }

  lemma {:induction false} CompareIsOrder(a: string, b: string)
    ensures Compare(a, b) == 0 <==> a == b
    ensures Compare(a, b) == -Compare(b, a)
  {
    if a != [] && b != [] {
      CompareIsOrder(a[1..], b[1..]);
      assert a == [a[0]] + a[1..] && b == [b[0]] + b[1..];
    }
  }

  /** The first place where two texts differ decides, or else the length: a shorter text comes before what continues
      it. */
  lemma {:induction false} FirstDifferenceDecides(a: string, b: string, k: nat)
    requires k <= |a| && k <= |b| && a[..k] == b[..k] && a != b
    requires k == |a| || k == |b| || a[k] != b[k]
    ensures Compare(a, b) < 0 <==> k == |a| || (k < |b| && a[k] < b[k])
    ensures Le(a, b) <==> k == |a| || (k < |b| && a[k] < b[k])
    decreases k
  {
    if k > 0 {
      assert a[0] == a[..k][0] == b[..k][0] == b[0];
      assert a[1..][..k - 1] == a[..k][1..] == b[1..][..k - 1];
      assert a == [a[0]] + a[1..] && b == [b[0]] + b[1..];
      FirstDifferenceDecides(a[1..], b[1..], k - 1);
    }
  }

  lemma {:induction false} LeIsTransitive(a: string, b: string, c: string)
    requires Le(a, b) && Le(b, c)
    ensures Le(a, c)
  {
    if a != [] && b != [] && c != [] && a[0] == b[0] == c[0] { LeIsTransitive(a[1..], b[1..], c[1..]); }
  }

  /** The letter case that the comparisons without regard to case see. */
  function Lower(c: char): char {
    if 'A' <= c <= 'Z' then c - 'A' + 'a' else c
  }
}
