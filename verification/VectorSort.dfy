/** The quicksort of the control program's vector: the pivot is held aside and a hole moves through the range. */
module VectorSort {
  import opened TextOrder

  /** An item of a vector; its number is its place there. */
  class VectorNode<D> {
    const Text: string
    var Number: int
    var Data: D

    constructor (text: string, data: D, number: int)
      ensures Text == text && Data == data && Number == number
    {
      Text, Data, Number := text, data, number;
    }
  }

  ghost predicate NonNull<D>(s: seq<VectorNode?<D>>, lo: int, hi: int) {
    forall k | 0 <= k < |s| && lo <= k < hi :: s[k] != null
  }

  ghost predicate Ordered<D>(s: seq<VectorNode?<D>>, lo: int, hi: int) {
    NonNull(s, lo, hi) && forall i, j | 0 <= i < j < |s| && lo <= i && j < hi :: Le(s[i].Text, s[j].Text)
  }

  ghost predicate AllBelow<D>(s: seq<VectorNode?<D>>, lo: int, hi: int, text: string) {
    forall k | 0 <= k < |s| && lo <= k < hi :: s[k] != null && Le(s[k].Text, text)
  }

  ghost predicate AllAbove<D>(s: seq<VectorNode?<D>>, lo: int, hi: int, text: string) {
    forall k | 0 <= k < |s| && lo <= k < hi :: s[k] != null && Le(text, s[k].Text)
  }

  /** The same items, and outside of a range at the same places. */
  ghost predicate Rearranged<T>(s: seq<T>, t: seq<T>, lo: int, hi: int) {
    |s| == |t| && multiset(s) == multiset(t) && forall k | 0 <= k < |s| && (k < lo || hi <= k) :: t[k] == s[k]
  }

  lemma SwapRearranges<T>(s: seq<T>, i: nat, j: nat)
    requires i < |s| && j < |s|
    ensures multiset(s[i := s[j]][j := s[i]]) == multiset(s)
  {
  }

  lemma ThreeParts<T>(s: seq<T>, lo: nat, hi: nat)
    requires lo <= hi <= |s|
    ensures multiset(s) == multiset(s[..lo]) + multiset(s[lo..hi]) + multiset(s[hi..])
  {
    assert s == s[..lo] + s[lo..hi] + s[hi..];
  }

  lemma Cancel<T>(a: multiset<T>, b: multiset<T>, b1: multiset<T>, c: multiset<T>)
    requires a + b + c == a + b1 + c
    ensures b == b1
  {
    forall x
      ensures b[x] == b1[x]
    {
      assert (a + b + c)[x] == a[x] + b[x] + c[x] && (a + b1 + c)[x] == a[x] + b1[x] + c[x];
    }
  }

  /** What stands in the range stood there before. */
  lemma RangeKept<T>(s: seq<T>, t: seq<T>, lo: nat, hi: nat, k: nat) returns (j: nat)
    requires Rearranged(s, t, lo, hi) && lo <= k < hi <= |s|
    ensures lo <= j < hi && s[j] == t[k]
  {
    ThreeParts(s, lo, hi);
    ThreeParts(t, lo, hi);
    assert s[..lo] == t[..lo] && s[hi..] == t[hi..];
    Cancel(multiset(s[..lo]), multiset(s[lo..hi]), multiset(t[lo..hi]), multiset(s[hi..]));
    assert t[k] == t[lo..hi][k - lo] && t[k] in t[lo..hi];
    assert t[k] in multiset(s[lo..hi]);
    var i :| 0 <= i < hi - lo && s[lo..hi][i] == t[k];
    j := lo + i;
  }

  lemma BoundsKept<D>(s: seq<VectorNode?<D>>, t: seq<VectorNode?<D>>, lo: nat, hi: nat, text: string)
    requires Rearranged(s, t, lo, hi) && lo <= hi <= |s|
    ensures AllBelow(s, lo, hi, text) ==> AllBelow(t, lo, hi, text)
    ensures AllAbove(s, lo, hi, text) ==> AllAbove(t, lo, hi, text)
    ensures NonNull(s, lo, hi) ==> NonNull(t, lo, hi)
  {
    forall k: nat | lo <= k < hi
      ensures exists j :: lo <= j < hi && s[j] == t[k]
    {
      var j := RangeKept(s, t, lo, hi, k);
    }
  }

  lemma RearrangedTrans<T>(s: seq<T>, t: seq<T>, u: seq<T>, lo: int, hi: int, lo1: int, hi1: int)
    requires Rearranged(s, t, lo, hi) && Rearranged(t, u, lo1, hi1) && lo <= lo1 && hi1 <= hi
    ensures Rearranged(s, u, lo, hi)
  {
  }

  /** Sorted halves around a pivot make a sorted range. */
  lemma Glue<D>(s: seq<VectorNode?<D>>, lo: nat, index: nat, hi: nat)
    requires lo <= index < hi <= |s| && s[index] != null
    requires Ordered(s, lo, index) && Ordered(s, index + 1, hi)
    requires AllBelow(s, lo, index, s[index].Text) && AllAbove(s, index + 1, hi, s[index].Text)
    ensures Ordered(s, lo, hi)
  {
    forall i, j | lo <= i < j < hi
      ensures s[i] != null && s[j] != null && Le(s[i].Text, s[j].Text)
    {
      if i < index < j { LeIsTransitive(s[i].Text, s[index].Text, s[j].Text); }
    }
  }

  /** The range with the pivot put into the hole. */
  ghost predicate Filled<T>(a: seq<T>, s: seq<T>, hole: nat, pivot: T) {
    |s| == |a| && hole < |s| && s[hole] == pivot && forall k | 0 <= k < |s| && k != hole :: a[k] == s[k]
  }

  /** The item at `from` goes into the hole, and leaves one behind. */
  lemma HoleMoves<T>(a: seq<T>, s: seq<T>, hole: nat, from: nat, pivot: T)
    requires Filled(a, s, hole, pivot) && from < |s| && from != hole
    ensures Filled(a[hole := a[from]], s[hole := s[from]][from := pivot], from, pivot)
  {
  }

  /** The range is split around left..right: nothing before is above the pivot, and nothing after below. */
  ghost predicate Split<D>(s: seq<VectorNode?<D>>, lo: nat, left: int, right: int, hi: nat, text: string) {
    AllBelow(s, lo, left, text) && AllAbove(s, right + 1, hi + 1, text) && NonNull(s, lo, hi + 1)
  }

  /** The item at `right` goes into the hole at `left`. */
  lemma MoveDown<D>(o: seq<VectorNode?<D>>, s: seq<VectorNode?<D>>, lo: nat, left: nat, right: nat, hi: nat,
                    pivot: VectorNode<D>)
    returns (t: seq<VectorNode?<D>>)
    requires lo <= left < right <= hi < |s| && s[left] == pivot && Split(s, lo, left, right, hi, pivot.Text)
    requires Le(s[right].Text, pivot.Text) && Rearranged(o, s, lo, hi + 1)
    ensures t == s[left := s[right]][right := pivot]
    ensures Rearranged(o, t, lo, hi + 1) && Split(t, lo, left + 1, right, hi, pivot.Text)
  {
    t := s[left := s[right]][right := pivot];
    SwapRearranges(s, left, right);
  }

  /** The item at `left` goes into the hole at `right`. */
  lemma MoveUp<D>(o: seq<VectorNode?<D>>, s: seq<VectorNode?<D>>, lo: nat, left: nat, right: nat, hi: nat,
                  pivot: VectorNode<D>)
    returns (t: seq<VectorNode?<D>>)
    requires lo <= left < right <= hi < |s| && s[right] == pivot && Split(s, lo, left, right, hi, pivot.Text)
    requires Le(pivot.Text, s[left].Text) && Rearranged(o, s, lo, hi + 1)
    ensures t == s[right := s[left]][left := pivot]
    ensures Rearranged(o, t, lo, hi + 1) && Split(t, lo, left, right - 1, hi, pivot.Text)
  {
    t := s[right := s[left]][left := pivot];
    SwapRearranges(s, right, left);
  }

  /** The loop of q_sort: the place of the pivot, with the range split around it. */
  method Partition<D>(a: array<VectorNode?<D>>, lo: nat, hi: nat) returns (index: nat)
    requires lo <= hi < a.Length && NonNull(a[..], lo, hi + 1)
    modifies a
    ensures lo <= index <= hi && Rearranged(old(a[..]), a[..], lo, hi + 1)
    ensures a[index] != null && AllBelow(a[..], lo, index, a[index].Text)
      && AllAbove(a[..], index + 1, hi + 1, a[index].Text)
  {
    var left, right := lo, hi;
    var pivot := a[left];
    ghost var s := a[..];
    while left < right
      invariant lo <= left <= right <= hi && pivot != null && NonNull(a[..], lo, hi + 1)
      invariant Filled(a[..], s, left, pivot) && Split(s, lo, left, right, hi, pivot.Text)
      invariant Rearranged(old(a[..]), s, lo, hi + 1)
      decreases right - left
    {
      ghost var width := right - left;
      right := ScanDown(a, s, lo, left, right, hi, pivot);
      if left != right {
        ghost var t := MoveDown(old(a[..]), s, lo, left, right, hi, pivot);
        HoleMoves(a[..], s, left, right, pivot);
        a[left] := a[right];
        left, s := left + 1, t;
      }
      left := ScanUp(a, s, lo, left, right, hi, pivot);
      if left != right {
        ghost var t := MoveUp(old(a[..]), s, lo, left, right, hi, pivot);
        HoleMoves(a[..], s, right, left, pivot);
        a[right] := a[left];
        right, s := right - 1, t;
      }
    }
    a[left] := pivot;
    index := left;
    assert a[..] == s;
  }

  /** The first inner loop, with the hole at `left`. */
  method ScanDown<D>(a: array<VectorNode?<D>>, ghost s: seq<VectorNode?<D>>, lo: nat, left: nat, start: nat, hi: nat,
                     pivot: VectorNode<D>) returns (right: nat)
    requires lo <= left < start <= hi < a.Length && NonNull(a[..], lo, hi + 1)
    requires Filled(a[..], s, left, pivot) && Split(s, lo, left, start, hi, pivot.Text)
    ensures left <= right <= start && Split(s, lo, left, right, hi, pivot.Text)
    ensures left < right ==> Le(a[right].Text, pivot.Text)
  {
    right := start;
    while Compare(a[right].Text, pivot.Text) >= 0 && left < right
      invariant left <= right <= start && Split(s, lo, left, right, hi, pivot.Text)
      decreases right
    {
      CompareIsOrder(a[right].Text, pivot.Text);
      right := right - 1;
    }
  }

  /** The second inner loop, with the hole at `right`; it may run before the hole has moved. */
  method ScanUp<D>(a: array<VectorNode?<D>>, ghost s: seq<VectorNode?<D>>, lo: nat, start: nat, right: nat, hi: nat,
                   pivot: VectorNode<D>) returns (left: nat)
    requires lo <= start <= right <= hi < a.Length && NonNull(a[..], lo, hi + 1)
    requires Filled(a[..], s, right, pivot) && Split(s, lo, start, right, hi, pivot.Text)
    ensures start <= left <= right && Split(s, lo, left, right, hi, pivot.Text)
    ensures left < right ==> Le(pivot.Text, a[left].Text)
  {
    left := start;
    while Compare(a[left].Text, pivot.Text) <= 0 && left < right
      invariant start <= left <= right && Split(s, lo, left, right, hi, pivot.Text)
      decreases right - left
    {
      left := left + 1;
    }
    CompareIsOrder(a[left].Text, pivot.Text);
  }

  /** Sorting both parts of a split range sorts the range. */
  lemma PartsSorted<D>(s: seq<VectorNode?<D>>, t: seq<VectorNode?<D>>, u: seq<VectorNode?<D>>, lo: nat, index: nat,
                       hi: nat)
    requires lo <= index <= hi < |s| && s[index] != null
    requires AllBelow(s, lo, index, s[index].Text) && AllAbove(s, index + 1, hi + 1, s[index].Text)
    requires Rearranged(s, t, lo, index) && Ordered(t, lo, index)
    requires Rearranged(t, u, index + 1, hi + 1) && Ordered(u, index + 1, hi + 1)
    ensures Rearranged(s, u, lo, hi + 1) && Ordered(u, lo, hi + 1)
  {
    BoundsKept(s, t, lo, index, s[index].Text);
    BoundsKept(t, u, index + 1, hi + 1, s[index].Text);
    Glue(u, lo, index, hi + 1);
  }

  method QSort<D>(a: array<VectorNode?<D>>, lo: nat, hi: nat)
    requires lo <= hi < a.Length && NonNull(a[..], lo, hi + 1)
    modifies a
    ensures Rearranged(old(a[..]), a[..], lo, hi + 1) && Ordered(a[..], lo, hi + 1)
    decreases hi - lo
  {
    var index := Partition(a, lo, hi);
    ghost var s := a[..];
    if lo < index { QSort(a, lo, index - 1); }
    ghost var t := a[..];
    if index < hi { QSort(a, index + 1, hi); }
    PartsSorted(s, t, a[..], lo, index, hi);
    RearrangedTrans(old(a[..]), s, a[..], lo, hi + 1, lo, hi + 1);
  }
}
