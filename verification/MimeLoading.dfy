/** What any document leaves in the table: the last setting under each extension, wherever its groups are. */
module MimeLoading {
  import opened Wrappers
  import opened MimeDocument

  /** The nearest extension before a place is the given one. */
  ghost predicate Under(cs: seq<Child>, i: int, x: string) {
    exists e :: Opens(cs, e, i, x)
  }

  ghost predicate Opens(cs: seq<Child>, e: int, i: int, x: string) {
    0 <= e < i <= |cs| && cs[e] == Child(ExtTag, x) && forall k | e < k < i :: cs[k].tag != ExtTag
  }

  predicate Sets(c: Child, tag: Tag) {
    c.tag == tag && (tag == CmdTag ==> CommandNumber(c.text).Some?)
  }

  ghost predicate SetAt(cs: seq<Child>, x: string, tag: Tag, i: int) {
    0 <= i < |cs| && Sets(cs[i], tag) && Under(cs, i, x)
  }

  /** The last setting of a kind under an extension. */
  ghost predicate LastSet(cs: seq<Child>, x: string, tag: Tag, i: int) {
    SetAt(cs, x, tag, i) && forall j | i < j :: !SetAt(cs, x, tag, j)
  }

  ghost predicate Unset(cs: seq<Child>, x: string, tag: Tag) {
    forall i :: !SetAt(cs, x, tag, i)
  }

  /** What is set at all is set for the last time somewhere. */
  lemma {:induction false} SomeLast(cs: seq<Child>, x: string, tag: Tag, i: int) returns (last: int)
    requires SetAt(cs, x, tag, i)
    ensures i <= last < |cs| && LastSet(cs, x, tag, last)
    decreases |cs| - i
  {
    if j :| i < j && SetAt(cs, x, tag, j) { last := SomeLast(cs, x, tag, j); } else { last := i; }
  }

  /** At one place alone. */
  lemma OneLast(cs: seq<Child>, x: string, tag: Tag, i: int, j: int)
    requires LastSet(cs, x, tag, i) && LastSet(cs, x, tag, j)
    ensures i == j
  {
  }

  ghost predicate Mentions(cs: seq<Child>, x: string) {
    exists e :: 0 <= e < |cs| && cs[e] == Child(ExtTag, x)
  }

  /** The entry has the last type, the last known command and the last manager set under the extension. */
  ghost predicate EntryIs(cs: seq<Child>, x: string, e: Entry) {
    && (forall i :: LastSet(cs, x, MimeTag, i) ==> e.mime == Some(cs[i].text))
    && (forall i :: LastSet(cs, x, CmdTag, i) ==> CommandNumber(cs[i].text) == Some(e.cmd))
    && (forall i :: LastSet(cs, x, ManagerTag, i) ==> e.manager == ReadManager(cs[i].text))
    && (Unset(cs, x, MimeTag) ==> e.mime == None) && (Unset(cs, x, CmdTag) ==> e.cmd == 0)
    && (Unset(cs, x, ManagerTag) ==> e.manager == NoManager)
  }

  /** The table has the extensions that are mentioned, each with what was last set. */
  ghost predicate TableIs(cs: seq<Child>, table: map<string, Entry>) {
    && (forall x :: x in table <==> Mentions(cs, x))
    && (forall x <- table :: EntryIs(cs, x, table[x]))
  }

  ghost predicate LoadedAs(l: Loader, cs: seq<Child>) {
    TableIs(cs, l.table) && forall x :: l.current == Some(x) <==> Under(cs, |cs|, x)
  }

  // ---- One more child ----

  lemma UnderBefore(cs: seq<Child>, c: Child, i: int, x: string)
    requires i <= |cs|
    ensures Under(cs + [c], i, x) <==> Under(cs, i, x)
  {
    forall e
      ensures Opens(cs + [c], e, i, x) <==> Opens(cs, e, i, x)
    {
      assert 0 <= e < i ==> forall k | e <= k < i :: (cs + [c])[k] == cs[k];
    }
  }

  lemma UnderAfter(cs: seq<Child>, c: Child, x: string)
    ensures Under(cs + [c], |cs| + 1, x) <==> if c.tag == ExtTag then c.text == x else Under(cs, |cs|, x)
  {
    var ds, n, m := cs + [c], |cs|, |cs| + 1;
    if e :| Opens(ds, e, m, x) { OpensAfter(cs, c, e, x); }
    if c.tag == ExtTag {
      OpensAfter(cs, c, n, x);
      assert c.text == x ==> Opens(ds, n, n + 1, x);
    } else if e :| Opens(cs, e, n, x) {
      OpensAfter(cs, c, e, x);
      assert Opens(ds, e, n + 1, x);
    }
  }

  lemma OpensAfter(cs: seq<Child>, c: Child, e: nat, x: string)
    requires e <= |cs|
    ensures Opens(cs + [c], e, |cs| + 1, x) <==>
      if c.tag == ExtTag then e == |cs| && c.text == x else Opens(cs, e, |cs|, x)
  {
    var ds, n := cs + [c], |cs|;
    assert ds[n] == c && forall k | 0 <= k < n :: ds[k] == cs[k];
  }

  lemma SetBefore(cs: seq<Child>, c: Child, x: string, tag: Tag, i: int)
    ensures SetAt(cs + [c], x, tag, i) <==> SetAt(cs, x, tag, i) || (i == |cs| && Sets(c, tag) && Under(cs, |cs|, x))
  {
    if 0 <= i <= |cs| {
      UnderBefore(cs, c, i, x);
      assert (cs + [c])[i] == if i < |cs| then cs[i] else c;
    }
  }

  /** A child that sets something of the current extension is the last to do so. */
  lemma LastIsHere(cs: seq<Child>, c: Child, x: string, tag: Tag)
    requires Sets(c, tag) && Under(cs, |cs|, x)
    ensures !Unset(cs + [c], x, tag) && forall i :: LastSet(cs + [c], x, tag, i) ==> i == |cs|
  {
    SetBefore(cs, c, x, tag, |cs|);
  }

  /** Any other changes nothing. */
  lemma LastStays(cs: seq<Child>, c: Child, x: string, tag: Tag)
    requires !(Sets(c, tag) && Under(cs, |cs|, x))
    ensures Unset(cs + [c], x, tag) <==> Unset(cs, x, tag)
    ensures forall i :: LastSet(cs + [c], x, tag, i) ==> LastSet(cs, x, tag, i)
  {
    forall i
      ensures SetAt(cs + [c], x, tag, i) <==> SetAt(cs, x, tag, i)
    {
      SetBefore(cs, c, x, tag, i);
    }
  }

  lemma LastMoves(cs: seq<Child>, c: Child, x: string, tag: Tag)
    ensures Sets(c, tag) && Under(cs, |cs|, x) ==>
      !Unset(cs + [c], x, tag) && forall i :: LastSet(cs + [c], x, tag, i) ==> i == |cs|
    ensures !(Sets(c, tag) && Under(cs, |cs|, x)) ==>
      (Unset(cs + [c], x, tag) <==> Unset(cs, x, tag))
      && forall i :: LastSet(cs + [c], x, tag, i) ==> LastSet(cs, x, tag, i)
  {
    if Sets(c, tag) && Under(cs, |cs|, x) { LastIsHere(cs, c, x, tag); } else { LastStays(cs, c, x, tag); }
  }

  lemma MentionsMore(cs: seq<Child>, c: Child, x: string)
    ensures Mentions(cs + [c], x) <==> Mentions(cs, x) || c == Child(ExtTag, x)
  {
    var ds := cs + [c];
    assert ds[|cs|] == c && forall e | 0 <= e < |cs| :: ds[e] == cs[e];
    if Mentions(cs, x) {
      var e :| 0 <= e < |cs| && cs[e] == Child(ExtTag, x);
      assert ds[e] == Child(ExtTag, x);
    }
  }

  /** Nothing is set under an extension that is not mentioned. */
  lemma UnmentionedIsUnset(cs: seq<Child>, x: string, tag: Tag)
    requires !Mentions(cs, x)
    ensures Unset(cs, x, tag) && !Under(cs, |cs|, x)
  {
    forall i, e
      ensures !Opens(cs, e, i, x)
    {
    }
  }

  lemma EntryMoves(cs: seq<Child>, c: Child, x: string, e: Entry, e1: Entry)
    requires EntryIs(cs, x, e)
    requires var here := Under(cs, |cs|, x);
      && e1.mime == (if here && Sets(c, MimeTag) then Some(c.text) else e.mime)
      && e1.cmd == (if here && Sets(c, CmdTag) then CommandNumber(c.text).value else e.cmd)
      && e1.manager == (if here && Sets(c, ManagerTag) then ReadManager(c.text) else e.manager)
    ensures EntryIs(cs + [c], x, e1)
  {
    LastMoves(cs, c, x, MimeTag);
    LastMoves(cs, c, x, CmdTag);
    LastMoves(cs, c, x, ManagerTag);
    assert (cs + [c])[|cs|] == c && forall i | 0 <= i < |cs| :: (cs + [c])[i] == cs[i];
  }

  lemma ChildReads(l: Loader, cs: seq<Child>, c: Child)
    requires LoadedAs(l, cs) && Readable(l, c)
    ensures LoadedAs(ReadChild(l, c), cs + [c])
  {
    var l1 := ReadChild(l, c);
    forall x
      ensures l1.current == Some(x) <==> Under(cs + [c], |cs + [c]|, x)
      ensures x in l1.table <==> Mentions(cs + [c], x)
      ensures x in l1.table ==> EntryIs(cs + [c], x, l1.table[x])
    {
      CurrentReadsOn(l, cs, c, x);
      KeysReadOn(l, cs, c, x);
      if x in l1.table { EntryReadsOn(l, cs, c, x); }
    }
  }

  lemma CurrentReadsOn(l: Loader, cs: seq<Child>, c: Child, x: string)
    requires LoadedAs(l, cs) && Readable(l, c)
    ensures ReadChild(l, c).current == Some(x) <==> Under(cs + [c], |cs + [c]|, x)
  {
    UnderAfter(cs, c, x);
    NewCurrent(l, c);
  }

  lemma NewCurrent(l: Loader, c: Child)
    requires Readable(l, c)
    ensures ReadChild(l, c).current == if c.tag == ExtTag then Some(c.text) else l.current
  {
  }

  lemma KeysReadOn(l: Loader, cs: seq<Child>, c: Child, x: string)
    requires LoadedAs(l, cs) && Readable(l, c)
    ensures x in ReadChild(l, c).table <==> Mentions(cs + [c], x)
  {
    MentionsMore(cs, c, x);
    NewKeys(l, c, x);
  }

  lemma NewKeys(l: Loader, c: Child, x: string)
    requires Readable(l, c)
    ensures x in ReadChild(l, c).table <==> x in l.table || c == Child(ExtTag, x)
  {
  }

  lemma EntryReadsOn(l: Loader, cs: seq<Child>, c: Child, x: string)
    requires LoadedAs(l, cs) && Readable(l, c) && x in ReadChild(l, c).table
    ensures EntryIs(cs + [c], x, ReadChild(l, c).table[x])
  {
    if x !in l.table {
      NewEntry(l, c, x);
      UnmentionedIsUnset(cs, x, MimeTag);
      UnmentionedIsUnset(cs, x, CmdTag);
      UnmentionedIsUnset(cs, x, ManagerTag);
      EntryMoves(cs, c, x, Entry(None, 0, NoManager), Entry(None, 0, NoManager));
    } else {
      OldEntry(l, c, x);
      assert Under(cs, |cs|, x) <==> l.current == Some(x);
      EntryMoves(cs, c, x, l.table[x], ReadChild(l, c).table[x]);
    }
  }

  lemma NewEntry(l: Loader, c: Child, x: string)
    requires Readable(l, c) && x in ReadChild(l, c).table && x !in l.table
    ensures c == Child(ExtTag, x) && ReadChild(l, c).table[x] == Entry(None, 0, NoManager)
  {
  }

  /** A child changes one part of the current entry at most. */
  lemma OldEntry(l: Loader, c: Child, x: string)
    requires Readable(l, c) && x in l.table
    ensures x in ReadChild(l, c).table
    ensures var e, e1, here := l.table[x], ReadChild(l, c).table[x], l.current == Some(x);
      && e1.mime == (if here && Sets(c, MimeTag) then Some(c.text) else e.mime)
      && e1.cmd == (if here && Sets(c, CmdTag) then CommandNumber(c.text).value else e.cmd)
      && e1.manager == (if here && Sets(c, ManagerTag) then ReadManager(c.text) else e.manager)
  {
  }

  // ---- Whole documents ----

  function Children(doc: seq<Node>): seq<Child> {
    if doc == [] then [] else ChildrenOf(doc[0]) + Children(doc[1..])
  }

  lemma {:induction false} ReadsOn(l: Loader, cs: seq<Child>, ds: seq<Child>)
    ensures AllReadable(l, cs + ds) <==> AllReadable(l, cs) && AllReadable(ReadChildren(l, cs), ds)
    ensures AllReadable(l, cs + ds) ==> ReadChildren(l, cs + ds) == ReadChildren(ReadChildren(l, cs), ds)
    decreases |cs|
  {
    if cs == [] {
      assert cs + ds == ds;
    } else {
      assert (cs + ds)[1..] == cs[1..] + ds;
      if Readable(l, cs[0]) { ReadsOn(ReadChild(l, cs[0]), cs[1..], ds); }
    }
  }

  lemma {:induction false} DocIsChildren(l: Loader, doc: seq<Node>)
    ensures DocReadable(l, doc) <==> AllReadable(l, Children(doc))
    ensures DocReadable(l, doc) ==> ReadDoc(l, doc) == ReadChildren(l, Children(doc))
    decreases |doc|
  {
    if doc != [] {
      ReadsOn(l, ChildrenOf(doc[0]), Children(doc[1..]));
      if AllReadable(l, ChildrenOf(doc[0])) { DocIsChildren(ReadChildren(l, ChildrenOf(doc[0])), doc[1..]); }
    }
  }

  lemma {:induction false} ChildrenRead(cs: seq<Child>)
    requires AllReadable(EMPTY, cs)
    ensures LoadedAs(ReadChildren(EMPTY, cs), cs)
    decreases |cs|
  {
    if cs == [] {
      NothingRead();
    } else {
      var init, last := cs[..|cs| - 1], cs[|cs| - 1];
      assert cs == init + [last];
      ReadsOn(EMPTY, init, [last]);
      ChildrenRead(init);
      OneRead(ReadChildren(EMPTY, init), last);
      ChildReads(ReadChildren(EMPTY, init), init, last);
    }
  }

  lemma NothingRead()
    ensures LoadedAs(EMPTY, [])
  {
    forall x
      ensures !Mentions([], x) && !Under([], 0, x)
    {
    }
  }

  lemma OneRead(l: Loader, c: Child)
    ensures AllReadable(l, [c]) <==> Readable(l, c)
    ensures Readable(l, c) ==> ReadChildren(l, [c]) == ReadChild(l, c)
  {
    assert [c][1..] == [];
  }

  /** Loading any document that can be read: the table has exactly the extensions mentioned anywhere in it, and for each
      the last type, the last known command and the last manager that stand after it and before the next extension. */
  lemma LoadedIs(doc: seq<Node>)
    requires DocReadable(EMPTY, doc)
    ensures TableIs(Children(doc), ReadDoc(EMPTY, doc).table)
  {
    DocIsChildren(EMPTY, doc);
    ChildrenRead(Children(doc));
  }
}
