/** A chain of filters in front of a stream: a list kept in step with parent pointers and a head pointer. */
module FilterChains {
  import opened Wrappers
  import opened Sequences

  type Bytes = seq<bv8>

  /** What a kind of filter does: the header it wants written (or none can be had), whether it changes the data, and
      what it makes of data written through it. */
  datatype Kind = Kind(modifies_: bool, header: Option<Bytes>, encode: Bytes -> Bytes)

  /** The stream at the end of a chain. */
  class Sink {
    var content: Bytes
    const broken: bool

    constructor (broken: bool)
      ensures content == [] && this.broken == broken
    {
      content, this.broken := [], broken;
    }

    method Write(data: Bytes) returns (ret: int)
      modifies this`content
      ensures if broken then ret != 0 && content == old(content) else ret == 0 && content == old(content) + data
    {
      if broken { return -1; }
      content := content + data;
      ret := 0;
    }
  }

  /** What a filter writes to. */
  datatype Target = ToStream(stream: Sink?) | ToFilter(filter: Filter)

  class Filter {
    const name: string
    const kind: Kind
    var parent: Target

    constructor (name: string, kind: Kind)
      ensures this.name == name && this.kind == kind && parent == ToStream(null)
    {
      this.name, this.kind, parent := name, kind, ToStream(null);
    }
  }

  /** What arrives at the stream when data is written to the head of the filters. */
  ghost function Through(fs: seq<Filter>, data: Bytes): Bytes {
    if fs == [] then data else Through(fs[1..], fs[0].kind.encode(data))
  }

  /** A chain composes its parts. */
  lemma {:induction false} ThroughParts(fs: seq<Filter>, gs: seq<Filter>, data: Bytes)
    ensures Through(fs + gs, data) == Through(gs, Through(fs, data))
    decreases |fs|
  {
    if fs == [] {
      assert fs + gs == gs;
    } else {
      assert (fs + gs)[1..] == fs[1..] + gs;
      ThroughParts(fs[1..], gs, fs[0].kind.encode(data));
    }
  }

  /** Where the `i`-th filter of the list has to write. */
  ghost function Next(fs: seq<Filter>, stream: Sink?, i: nat): Target
    requires i < |fs|
  {
    if i + 1 < |fs| then ToFilter(fs[i + 1]) else ToStream(stream)
  }

  /** What a filter in front of the list has to write to. */
  ghost function Head(fs: seq<Filter>, stream: Sink?): Target {
    if fs == [] then ToStream(stream) else ToFilter(fs[0])
  }

  /** Parent pointers follow the list, the last one goes to the stream, and no filter stands in the list twice. */
  ghost predicate Linked(fs: seq<Filter>, stream: Sink?)
    reads fs
  {
    fs == [] || (fs[0] !in fs[1..] && fs[0].parent == Head(fs[1..], stream) && Linked(fs[1..], stream))
  }

  /** The same, place by place. */
  lemma {:induction false} LinkedIff(fs: seq<Filter>, stream: Sink?)
    ensures Linked(fs, stream) <==> Distinct(fs) && forall i | 0 <= i < |fs| :: fs[i].parent == Next(fs, stream, i)
  {
    if fs != [] {
      var rest := fs[1..];
      LinkedIff(rest, stream);
      assert forall i | 0 < i < |fs| :: fs[i] == rest[i - 1] && Next(fs, stream, i) == Next(rest, stream, i - 1);
      assert Next(fs, stream, 0) == Head(rest, stream);
      assert Distinct(fs) <==> fs[0] !in rest && Distinct(rest);
      assert forall i | 0 <= i < |rest| :: rest[i] == fs[i + 1] && Next(rest, stream, i) == Next(fs, stream, i + 1);
    }
  }

  /** A filter of the list whose parent is the head of the list follows it no more. */
  lemma PresentBreaks(f: Filter, fs: seq<Filter>, stream: Sink?)
    requires f in fs && f.parent == Head(fs, stream)
    ensures !Linked(fs, stream) && !Linked([f] + fs, stream)
  {
    LinkedIff(fs, stream);
    var i :| 0 <= i < |fs| && fs[i] == f;
    assert Distinct(fs) ==> f.parent != Next(fs, stream, i);
    assert ([f] + fs)[1..] == fs;
  }

  /** Where a write from a target stands after `n` filters have passed it on to their parents. */
  ghost function Hops(fs: seq<Filter>, t: Target, n: nat): Target
    reads fs
    decreases n
  {
    if n == 0 || t.ToStream? || t.filter !in fs then t else Hops(fs, t.filter.parent, n - 1)
  }

  /** From a filter of a linked list before the `k`-th, a write goes on to the next one. */
  ghost predicate LinkedUpTo(fs: seq<Filter>, k: nat)
    reads fs
  {
    k < |fs| && forall i | 0 <= i < k :: fs[i].parent == ToFilter(fs[i + 1])
  }

  /** A write in a broken chain goes round for ever: after any number of filters it stands at a filter, never at the
      stream. */
  lemma {:induction false} WriteNeverEnds(fs: seq<Filter>, k: nat, i: nat, n: nat)
    requires LinkedUpTo(fs, k) && fs[k].parent == ToFilter(fs[0]) && i <= k
    ensures Hops(fs, ToFilter(fs[i]), n).ToFilter?
    decreases n
  {
    if n > 0 { WriteNeverEnds(fs, k, if i < k then i + 1 else 0, n - 1); }
  }

  lemma GoesRound(fs: seq<Filter>, k: nat)
    requires LinkedUpTo(fs, k) && fs[k].parent == ToFilter(fs[0])
    ensures forall n: nat :: Hops(fs, ToFilter(fs[k]), n).ToFilter?
  {
    forall n: nat
      ensures Hops(fs, ToFilter(fs[k]), n).ToFilter?
    {
      WriteNeverEnds(fs, k, k, n);
    }
  }

  class FiltersChain {
    var filters: seq<Filter>
    var firstFilter: Filter?
    var stream: Sink?
    var acceptDuplicates: bool

    ghost predicate Valid()
      reads this, filters
    {
      Linked(filters, stream) && firstFilter == if filters == [] then null else filters[0]
    }

    constructor ()
      ensures Valid() && filters == [] && stream == null && acceptDuplicates
    {
      filters, firstFilter, stream, acceptDuplicates := [], null, null, true;
    }

    method SetStream(s: Sink?)
      requires Valid()
      modifies this`stream, filters
      ensures Valid() && stream == s && filters == old(filters)
    {
      LinkedIff(filters, stream);
      for i := 0 to |filters|
        invariant forall k | 0 <= k < |filters| ::
          filters[k].parent == if k < i then Next(filters, s, k) else Next(filters, stream, k)
        modifies filters
      {
        if filters[i].parent == ToStream(stream) {
          filters[i].parent := ToStream(s);
        }
      }
      stream := s;
      LinkedIff(filters, s);
    }

    predicate IsFilterPresent(f: Filter)
      reads this
    {
      f in filters
    }

    /** A write that follows the parent pointers from a filter or stream on. */
    method WriteTo(start: Target, data: Bytes, ghost path: seq<Filter>) returns (ret: int)
      requires Linked(path, stream) && stream != null
      requires start == Head(path, stream)
      modifies stream
      ensures stream.broken ==> ret != 0 && stream.content == old(stream.content)
      ensures !stream.broken ==> ret == 0 && stream.content == old(stream.content) + Through(path, data)
    {
      var at, bytes := start, data;
      ghost var left := path;
      while at.ToFilter?
        invariant Linked(left, stream) && at == Head(left, stream)
        invariant Through(left, bytes) == Through(path, data)
        decreases |left|
      {
        bytes := at.filter.kind.encode(bytes);
        at := at.filter.parent;
        left := left[1..];
      }
      ret := at.stream.Write(bytes);
    }

    /** Writing through the chain is writing what the composition of its filters makes of the data. */
    method Write(data: Bytes) returns (ret: int)
      requires Valid()
      modifies stream
      ensures stream == null || stream.broken ==> ret != 0
      ensures stream != null && stream.broken ==> stream.content == old(stream.content)
      ensures stream != null && !stream.broken ==>
        ret == 0 && stream.content == old(stream.content) + Through(filters, data)
    {
      if stream == null { return -1; }
      if firstFilter != null {
        ret := WriteTo(ToFilter(firstFilter), data, filters);
      } else {
        ret := WriteTo(ToStream(stream), data, filters);
      }
    }

    /** The header of a filter goes through the filters that are there already. */
    method WriteHeader(f: Filter, ghost path: seq<Filter>) returns (ret: int)
      requires f.kind.header.Some?
      requires f.kind.header.value != [] ==> stream != null && Linked(path, stream) && f.parent == Head(path, stream)
      modifies stream
      ensures f.kind.header.value == [] ==> ret == 0
      ensures f.kind.header.value == [] && stream != null ==> stream.content == old(stream.content)
      ensures f.kind.header.value != [] && stream.broken ==> ret == 1 && stream.content == old(stream.content)
      ensures f.kind.header.value != [] && !stream.broken ==>
        ret == 0 && stream.content == old(stream.content) + Through(path, f.kind.header.value)
    {
      ret := 0;
      if f.kind.header.value != [] {
        var failed := WriteTo(f.parent, f.kind.header.value, path);
        if failed != 0 { ret := 1; }
      }
    }

    /** The first thing done to a filter that is added: what it writes goes to the head of the chain. In a chain that
        holds it already, writes then go round for ever. */
    method PutBefore(f: Filter)
      requires Valid()
      modifies f`parent
      ensures f.parent == Head(filters, stream) && (f !in filters ==> Valid())
      ensures f in filters ==> !Linked(filters, stream) && !Linked([f] + filters, stream)
      ensures f in filters ==> forall n: nat :: Hops(filters, ToFilter(f), n).ToFilter?
    {
      ghost var place: nat := 0;
      LinkedIff(filters, stream);
      if f in filters {
        place :| place < |filters| && filters[place] == f;
        assert forall i | 0 <= i < place :: filters[i] != f && filters[i].parent == ToFilter(filters[i + 1]);
      }
      f.parent := if firstFilter == null then ToStream(stream) else ToFilter(firstFilter);
      if f in filters {
        GoesRound(filters, place);
        PresentBreaks(f, filters, stream);
      }
    }

    /** Adds a filter in front. Its parent is set before anything is checked, so a filter that is already in the chain
        breaks it, and exactly then. */
    method AddFilter(f: Filter, sendData: bool) returns (ret: int)
      requires Valid()
      requires f in filters && acceptDuplicates && sendData ==> f.kind.header.None? || f.kind.header.value == []
      requires sendData && f.kind.header.Some? && f.kind.header.value != [] && (f !in filters || acceptDuplicates) ==>
        stream != null
      modifies this`filters, this`firstFilter, f`parent, stream
      ensures Valid() <==> f !in old(filters)
      ensures f in old(filters) ==> !Linked(filters, stream)
      ensures f in old(filters) ==> forall n: nat :: Hops(old(filters), ToFilter(f), n).ToFilter?
      ensures filters == if (f in old(filters) && !acceptDuplicates) || (sendData && f.kind.header.None?)
                         then old(filters) else [f] + old(filters)
      ensures ret == if f in old(filters) && !acceptDuplicates then 0
                     else if sendData && f.kind.header.None? then 1
                     else if sendData && f.kind.header.value != [] && stream.broken then 1 else 0
      ensures stream != null && f !in old(filters) && sendData && f.kind.header.Some? && f.kind.header.value != []
              && !stream.broken ==>
        stream.content == old(stream.content) + Through(old(filters), f.kind.header.value)
      ensures stream != null && (f in old(filters) || !sendData || f.kind.header.None? || f.kind.header.value == []
              || stream.broken) ==>
        stream.content == old(stream.content)
    {
      ret := 0;
      PutBefore(f);
      if !acceptDuplicates {
        if IsFilterPresent(f) { return 0; }
      }
      if sendData {
        if f.kind.header.None? { return 1; }
        ret := WriteHeader(f, filters);
      }
      assert ([f] + filters)[1..] == filters;
      firstFilter := f;
      filters := [f] + filters;
    }

    /** Takes a filter out, and with it just its factor of what is written. */
    method RemoveFilter(f: Filter)
      requires Valid()
      modifies this`filters, this`firstFilter, filters
      ensures Valid() && filters == Without(old(filters), f)
    {
      for i := 0 to |filters|
        invariant Valid() && filters == old(filters) && f !in filters[..i]
      {
        if filters[i] == f {
          WithoutAt(filters, i);
          Unlink(i);
          return;
        }
      }
      assert filters[..|filters|] == filters;
      WithoutNone(filters, f);
    }

    /** The filter before takes over the parent; without one, the next filter becomes the first. */
    method Unlink(i: nat)
      requires Valid() && i < |filters|
      modifies this`filters, this`firstFilter, filters
      ensures Valid() && filters == old(filters[..i] + filters[i + 1..])
    {
      LinkedIff(filters, stream);
      ghost var rest := filters[..i] + filters[i + 1..];
      DistinctWithout(filters, i);
      if i != 0 {
        filters[i - 1].parent := filters[i].parent;
      } else if i + 1 == |filters| {
        firstFilter := null;
      } else {
        firstFilter := filters[i + 1];
      }
      assert forall k | 0 <= k < |rest| :: rest[k].parent == Next(rest, stream, k);
      filters := filters[..i] + filters[i + 1..];
      LinkedIff(filters, stream);
    }

    method ClearAllFilters()
      modifies this`filters, this`firstFilter
      ensures Valid() && filters == [] && firstFilter == null
    {
      filters, firstFilter := [], null;
    }

    method HasModifiersFilters() returns (ret: bool)
      ensures ret <==> exists f :: f in filters && f.kind.modifies_
    {
      for i := 0 to |filters|
        invariant forall k | 0 <= k < i :: !filters[k].kind.modifies_
      {
        if filters[i].kind.modifies_ { return true; }
      }
      ret := false;
    }
  }

  lemma DistinctWithout(fs: seq<Filter>, i: nat)
    requires Distinct(fs) && i < |fs|
    ensures Distinct(fs[..i] + fs[i + 1..])
  {
  }

  ghost function Without(fs: seq<Filter>, f: Filter): seq<Filter> {
    if fs == [] then [] else if fs[0] == f then fs[1..] else [fs[0]] + Without(fs[1..], f)
  }

  lemma {:induction false} WithoutAt(fs: seq<Filter>, i: nat)
    requires i < |fs| && fs[i] !in fs[..i]
    ensures Without(fs, fs[i]) == fs[..i] + fs[i + 1..]
    decreases i
  {
    if i > 0 {
      assert fs[0] in fs[..i] && fs[1..][..i - 1] == fs[1..i];
      assert forall g :: g in fs[1..i] ==> g in fs[..i];
      WithoutAt(fs[1..], i - 1);
      assert fs[..i] + fs[i + 1..] == [fs[0]] + (fs[1..][..i - 1] + fs[1..][i..]);
    }
  }

  lemma {:induction false} WithoutNone(fs: seq<Filter>, f: Filter)
    requires f !in fs
    ensures Without(fs, f) == fs
  {
    if fs != [] { WithoutNone(fs[1..], f); }
  }

  /** A removed filter no longer takes part in what is written; all others do as before. */
  lemma RemovalDropsFactor(fs: seq<Filter>, i: nat, data: Bytes)
    requires i < |fs| && fs[i] !in fs[..i]
    ensures Through(fs, data) == Through(fs[i + 1..], fs[i].kind.encode(Through(fs[..i], data)))
    ensures Through(Without(fs, fs[i]), data) == Through(fs[i + 1..], Through(fs[..i], data))
  {
    WithoutAt(fs, i);
    assert fs == fs[..i] + fs[i..] && fs[i..][1..] == fs[i + 1..];
    ThroughParts(fs[..i], fs[i..], data);
    ThroughParts(fs[..i], fs[i + 1..], data);
  }
}
