/** The growing array of named items the control program keeps its lists in. */
module Vectors {
  import opened Sequences
  import opened TextOrder
  import opened VectorSort

  /** The size of a pointer: arrays are allocated with that many times the places they need. */
  const POINTER_SIZE := 8

  lemma {:induction false} OnceEach<T>(s: seq<T>, x: T)
    requires Distinct(s)
    ensures multiset(s)[x] <= 1
  {
    if s != [] {
      var init, last := s[..|s| - 1], s[|s| - 1];
      OnceEach(init, x);
      assert s == init + [last];
      assert x == last ==> x !in init;
    }
  }

  lemma CountTwo<T>(s: seq<T>, i: nat, j: nat)
    requires i < j < |s|
    ensures s[i] == s[j] ==> multiset(s)[s[i]] >= 2
  {
    assert s == s[..j] + s[j..];
    assert s[i] in s[..j] && s[j] in s[j..];
  }

  lemma DistinctKept<T>(s: seq<T>, t: seq<T>)
    requires Distinct(s) && multiset(s) == multiset(t)
    ensures Distinct(t) && forall x :: x in t <==> x in s
  {
    forall i, j | 0 <= i < j < |t|
      ensures t[i] != t[j]
    {
      OnceEach(s, t[i]);
      CountTwo(t, i, j);
    }
    forall x
      ensures x in t <==> x in s
    {
      assert x in t <==> x in multiset(t);
      assert x in s <==> x in multiset(s);
    }
  }

  ghost function Items<D>(s: seq<VectorNode?<D>>): set<VectorNode<D>> {
    set n: VectorNode<D> | n in s
  }

  class Vector<D> {
    var Array: array?<VectorNode?<D>>
    var VectorSize: nat
    var Sorted: bool

    ghost function Nodes(): (s: seq<VectorNode?<D>>)
      reads this, Array
    {
      if Array == null || Array.Length < VectorSize then [] else Array[..VectorSize]
    }

    ghost function NodeSet(): set<VectorNode<D>>
      reads this, Array
    {
      Items(Nodes())
    }

    /** Every item knows its place, and the flag is only set on sorted items. The place after the last one exists too.
        */
    ghost predicate Valid()
      reads this, Array, NodeSet()`Number
    {
      && (VectorSize > 0 ==> Array != null && VectorSize < Array.Length)
      && |Nodes()| == VectorSize
      && (forall i | 0 <= i < VectorSize :: Nodes()[i] != null && Nodes()[i].Number == i)
      && (Sorted ==> Ordered(Nodes(), 0, VectorSize))
    }

    ghost predicate Named(i: nat, text: string)
      reads this, Array
    {
      i < |Nodes()| && Nodes()[i] != null && Nodes()[i].Text == text
    }

    constructor ()
      ensures Valid() && Nodes() == [] && Array == null
    {
      Array, VectorSize, Sorted := null, 0, false;
    }

    method Add(text: string, data: D) returns (node: VectorNode<D>)
      requires Valid()
      modifies this
      ensures Valid() && Nodes() == old(Nodes()) + [node] && fresh(node) && fresh(Array)
      ensures node.Text == text && node.Data == data && !Sorted
    {
      node := new VectorNode<D>(text, data, VectorSize);
      var newArray := new VectorNode?<D>[POINTER_SIZE * (VectorSize + 1)](_ => null);
      for i := 0 to VectorSize
        invariant forall k | 0 <= k < i :: newArray[k] == Nodes()[k]
        modifies newArray
      {
        newArray[i] := Array[i];
      }
      newArray[VectorSize] := node;
      ghost var before := Nodes();
      Array := newArray;
      VectorSize := VectorSize + 1;
      Sorted := false;
      assert Nodes() == before + [node];
    }

    method ReCount()
      requires Array != null && VectorSize < Array.Length && Distinct(Nodes()) && NonNull(Nodes(), 0, VectorSize)
      modifies NodeSet()`Number
      ensures forall i | 0 <= i < VectorSize :: Nodes()[i].Number == i
    {
      for i := 0 to VectorSize
        invariant forall k | 0 <= k < i :: Nodes()[k].Number == k
      {
        assert Nodes()[i] in Nodes();
        Array[i].Number := i;
      }
    }

    /** Sorts the items; they are the same items afterwards. */
    method Sort()
      requires Valid()
      modifies this`Sorted, Array, NodeSet()`Number
      ensures Valid() && multiset(Nodes()) == multiset(old(Nodes())) && Ordered(Nodes(), 0, VectorSize)
      ensures NodeSet() == old(NodeSet())
    {
      if Sorted || VectorSize < 2 { return; }
      Arrange();
      ghost var arranged := Nodes();
      ReCount();
      assert Nodes() == arranged;
      Sorted := true;
      assert Nodes() == arranged;
    }

    /** The call of q_sort on the whole vector. */
    method Arrange()
      requires Valid() && VectorSize > 0
      modifies Array
      ensures |Nodes()| == VectorSize && Ordered(Nodes(), 0, VectorSize) && Distinct(Nodes())
      ensures multiset(Nodes()) == multiset(old(Nodes())) && NodeSet() == old(NodeSet())
    {
      ghost var whole, before := Array[..], Nodes();
      QSort(Array, 0, VectorSize - 1);
      assert Array[..][..VectorSize] == Nodes() && whole[..VectorSize] == before;
      PrefixRearranged(whole, Array[..], VectorSize);
      DistinctKept(before, Nodes());
    }

    /** Adding followed by sorting, as the callers do it. */
    method Insert(text: string, data: D) returns (node: VectorNode<D>)
      requires Valid()
      modifies this, NodeSet()`Number
      ensures Valid() && fresh(node) && fresh(Array) && NodeSet() == old(NodeSet()) + {node}
      ensures node.Text == text && node.Data == data && node.Number >= 0 && Named(node.Number, text)
    {
      ghost var before := NodeSet();
      node := Add(text, data);
      assert NodeSet() == before + {node};
      Sort();
      assert node in NodeSet();
    }

    /** A text no place is named by is the text of no item. */
    lemma NotNamed(text: string)
      requires Valid() && forall i: nat :: !Named(i, text)
      ensures forall n <- NodeSet() :: n.Text != text
    {
      forall n | n in NodeSet()
        ensures n.Text != text
      {
        var k :| 0 <= k < |Nodes()| && Nodes()[k] == n;
        assert !Named(k, text);
      }
    }

    method Clear()
      requires Valid()
      modifies this
      ensures Valid() && Nodes() == [] && (old(VectorSize) > 0 ==> !Sorted) && (Array == null || Array == old(Array))
    {
      if VectorSize == 0 { return; }
      Array, VectorSize, Sorted := null, 0, false;
    }

    /** Copies the items over, leaving out the one at the index; the loop may read the place after the last item. */
    method Remove(index: int)
      requires Valid()
      modifies this, NodeSet()`Number
      ensures Valid() && Nodes() == Removed(old(Nodes()), index)
      ensures Sorted == (old(Sorted) && !(old(VectorSize) == 1 && index <= 1))
    {
      if VectorSize == 0 { return; }
      if index > VectorSize { return; }
      if VectorSize - 1 == 0 {
        Clear();
        return;
      }
      ghost var nodes := Nodes();
      var newArray := CopyWithout(index);
      RemovedKeeps(nodes, index);
      Replace(newArray);
    }

    /** The shorter array takes the place of the old one, and its items are counted again. */
    method Replace(newArray: array<VectorNode?<D>>)
      requires VectorSize > 1 && newArray.Length == POINTER_SIZE * (VectorSize - 1)
      requires var left := newArray[..VectorSize - 1];
        NonNull(left, 0, |left|) && Distinct(left) && (Sorted ==> Ordered(left, 0, |left|))
      modifies this, Items(newArray[..VectorSize - 1])`Number
      ensures Valid() && Nodes() == old(newArray[..VectorSize - 1]) && Sorted == old(Sorted)
    {
      ghost var left := newArray[..VectorSize - 1];
      Array := newArray;
      VectorSize := VectorSize - 1;
      assert Nodes() == left;
      ReCount();
      assert Nodes() == left;
    }

    /** Removal at a place there is takes out that item and no other. */
    method RemoveAt(index: nat)
      requires Valid() && index < VectorSize
      modifies this, NodeSet()`Number
      ensures Valid() && NodeSet() == old(NodeSet()) - {old(Nodes()[index])}
    {
      RemovedItems(Nodes(), index);
      Remove(index);
    }

    method CopyWithout(index: int) returns (newArray: array<VectorNode?<D>>)
      requires Valid() && VectorSize > 1 && index <= VectorSize
      ensures fresh(newArray) && newArray.Length == POINTER_SIZE * (VectorSize - 1)
      ensures newArray[..VectorSize - 1] == Removed(Nodes(), index)
    {
      newArray := new VectorNode?<D>[POINTER_SIZE * (VectorSize - 1)](_ => null);
      var a, b := 0, 0;
      while a < VectorSize
        invariant 0 <= a <= VectorSize + 1 && b == if 0 <= index < a then a - 1 else a
        invariant a == VectorSize + 1 ==> index == VectorSize - 1
        invariant forall k | 0 <= k < b && k < VectorSize - 1 :: newArray[k] == Removed(Nodes(), index)[k]
      {
        if a == index { a := a + 1; }
        if b < VectorSize - 1 { RemovedAt(Nodes(), index, b); }
        newArray[b] := Array[a];
        b := b + 1;
        a := a + 1;
      }
    }

    /** The item at an index, which callers never make negative. */
    method At(index: nat) returns (node: VectorNode?<D>)
      requires Valid()
      ensures if index < VectorSize then node == Nodes()[index] && node != null && node.Number == index
        else node == null
    {
      if index >= VectorSize { return null; }
      node := Array[index];
    }

    /** Where the text is, or -1 when no item has it. */
    method Get(text: string) returns (index: int)
      requires Valid()
      modifies this`Sorted, Array, NodeSet()`Number
      ensures Valid() && multiset(Nodes()) == multiset(old(Nodes())) && NodeSet() == old(NodeSet())
      ensures if index == -1 then forall i: nat :: !Named(i, text) else 0 <= index && Named(index, text)
    {
      if VectorSize == 0 { return -1; }
      if !Sorted { Sort(); }
      index := Search(text);
    }

    /** The binary search in the sorted items. */
    method Search(text: string) returns (index: int)
      requires Valid() && VectorSize > 0 && Ordered(Nodes(), 0, VectorSize)
      ensures if index == -1 then forall i: nat :: !Named(i, text) else 0 <= index && Named(index, text)
    {
      var high, low := VectorSize - 1, 0;
      while low <= high
        invariant 0 <= low <= high + 1 <= VectorSize
        invariant Missed(Nodes(), 0, low, text) && Missed(Nodes(), high + 1, VectorSize, text)
        decreases high - low
      {
        var center := (low + high) / 2;
        var ret := Compare(text, Array[center].Text);
        if ret == 0 {
          CompareIsOrder(text, Array[center].Text);
          return center;
        } else if ret < 0 {
          Outside(Nodes(), center, text);
          high := center - 1;
        } else {
          Outside(Nodes(), center, text);
          low := center + 1;
        }
      }
      index := -1;
    }
  }

  /** Removal: an index outside the vector still costs it its last item, unless it is beyond the end by more than one.
      */
  function Removed<T>(s: seq<T>, index: int): seq<T> {
    if s == [] || index > |s| then s
    else if 0 <= index < |s| then s[..index] + s[index + 1..]
    else s[..|s| - 1]
  }

  lemma RemovedAt<T>(s: seq<T>, index: int, b: nat)
    requires |s| > 1 && index <= |s| && b < |s| - 1
    ensures Removed(s, index)[b] == if 0 <= index <= b then s[b + 1] else s[b]
  {
  }

  lemma RemovedItems<D>(s: seq<VectorNode<D>>, index: nat)
    requires index < |s| && Distinct(s)
    ensures Items(Removed(s, index)) == Items(s) - {s[index]}
  {
    forall k | 0 <= k < |s| && k != index
      ensures s[k] in Removed(s, index)
    {
      assert s[k] == Removed(s, index)[if k < index then k else k - 1];
    }
  }

  /** Taking an item out keeps the others distinct and in order. */
  lemma RemovedKeeps<D>(s: seq<VectorNode?<D>>, index: int)
    ensures Distinct(s) ==> Distinct(Removed(s, index))
    ensures Ordered(s, 0, |s|) ==> Ordered(Removed(s, index), 0, |Removed(s, index)|)
    ensures NonNull(s, 0, |s|) ==> NonNull(Removed(s, index), 0, |s|)
    ensures forall x :: x in Removed(s, index) ==> x in s
  {
  }

  /** The text is not found in a range. */
  ghost predicate Missed<D>(s: seq<VectorNode?<D>>, lo: int, hi: int, text: string) {
    forall i | 0 <= i < |s| && lo <= i < hi :: s[i] != null && s[i].Text != text
  }

  /** What a sorted range says about one side once the middle is compared. */
  lemma Outside<D>(s: seq<VectorNode?<D>>, center: nat, text: string)
    requires center < |s| && Ordered(s, 0, |s|)
    ensures Compare(text, s[center].Text) < 0 ==> Missed(s, center, |s|, text)
    ensures Compare(text, s[center].Text) > 0 ==> Missed(s, 0, center + 1, text)
  {
    forall i | 0 <= i < |s|
      ensures s[i] != null
      ensures Compare(text, s[center].Text) < 0 && center <= i ==> s[i].Text != text
      ensures Compare(text, s[center].Text) > 0 && i <= center ==> s[i].Text != text
    {
      CompareIsOrder(s[i].Text, s[i].Text);
      Between(text, s[center].Text, s[i].Text);
    }
  }

  lemma Between(a: string, b: string, c: string)
    ensures Compare(a, b) < 0 && Le(b, c) ==> Compare(a, c) < 0
    ensures Compare(a, b) > 0 && Le(c, b) ==> Compare(a, c) > 0
  {
    CompareIsOrder(a, b);
    CompareIsOrder(a, c);
    CompareIsOrder(b, c);
    if Compare(a, b) < 0 && Le(b, c) {
      LeIsTransitive(a, b, c);
      if a == c { CompareIsOrder(b, a); }
    }
    if Compare(a, b) > 0 && Le(c, b) {
      LeIsTransitive(c, b, a);
    }
  }

  lemma PrefixRearranged<T>(s: seq<T>, t: seq<T>, n: nat)
    requires n <= |s| && Rearranged(s, t, 0, n)
    ensures multiset(s[..n]) == multiset(t[..n])
  {
    ThreeParts(s, 0, n);
    ThreeParts(t, 0, n);
    assert s[n..] == t[n..] && s[..0] == t[..0] && s[0..n] == s[..n] && t[0..n] == t[..n];
    Cancel(multiset(s[..0]), multiset(s[..n]), multiset(t[..n]), multiset(s[n..]));
  }
}
