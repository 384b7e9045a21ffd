/** The table of MIME types: two vectors, the extensions pointing into the types. */
module MimeTypes {
  import opened Wrappers
  import opened Sequences
  import opened VectorSort
  import opened Vectors
  import opened MimeDocument

  /** The settings of an extension; the program allocates them apart, but every item owns its own. */
  datatype MimeNode = MimeNode(Type: VectorNode?<()>, Cmd: int, Manager: Manager)

  type ExtNode = VectorNode<MimeNode>
  type TypeNode = VectorNode<()>

  ghost function Value(d: MimeNode): Entry {
    Entry(if d.Type == null then None else Some(d.Type.Text), d.Cmd, d.Manager)
  }

  ghost function DataOf(exts: set<ExtNode>): map<ExtNode, MimeNode>
    reads exts`Data
  {
    map n | n in exts :: n.Data
  }

  /** The extensions are those of the table, and their types are items of the other vector. */
  ghost predicate Tied(data: map<ExtNode, MimeNode>, types: set<TypeNode>, contents: map<string, Entry>) {
    && (forall k :: k in contents <==> k in Texts(data))
    && (forall n <- data :: n.Text in contents && contents[n.Text] == Value(data[n]))
    && (forall n, m {:trigger data[n], data[m]} | n in data && m in data && n != m :: n.Text != m.Text)
    && (forall n <- data :: data[n].Type == null || data[n].Type in types)
  }

  ghost function Texts(data: map<ExtNode, MimeNode>): set<string> {
    set n | n in data :: n.Text
  }

  /** Names the data at which `Coherent` is looked up; it keeps the definition closed elsewhere. */
  predicate Look(data: map<ExtNode, MimeNode>) { true }

  ghost predicate Coherent(data: map<ExtNode, MimeNode>, types: set<TypeNode>, contents: map<string, Entry>) {
    forall d {:trigger Look(d)} :: Look(d) && d == data ==> Tied(d, types, contents)
  }

  lemma CoherentSet(data: map<ExtNode, MimeNode>, types: set<TypeNode>, contents: map<string, Entry>, node: ExtNode,
                    d: MimeNode)
    requires Coherent(data, types, contents) && (node in data || node.Text !in contents)
      && (d.Type == null || d.Type in types)
    ensures Coherent(data[node := d], types, contents[node.Text := Value(d)])
  {
    assert Look(data);
    TextsSet(data, node, d);
    assert Tied(data[node := d], types, contents[node.Text := Value(d)]);
  }

  lemma TextsSet(data: map<ExtNode, MimeNode>, node: ExtNode, d: MimeNode)
    ensures Texts(data[node := d]) == Texts(data) + {node.Text}
  {
    var data1 := data[node := d];
    assert forall n :: n in data ==> n in data1 && n.Text in Texts(data1);
    assert node in data1 && node.Text in Texts(data1);
  }

  lemma CoherentWithout(data: map<ExtNode, MimeNode>, types: set<TypeNode>, contents: map<string, Entry>, node: ExtNode)
    requires Coherent(data, types, contents) && node in data
    ensures Coherent(data - {node}, types, contents - {node.Text})
  {
    assert Look(data);
    var data1 := data - {node};
    assert forall n :: n in data1 ==> n in data && n.Text in Texts(data1);
  }

  lemma CoherentMore(data: map<ExtNode, MimeNode>, types: set<TypeNode>, types1: set<TypeNode>,
                     contents: map<string, Entry>)
    requires Coherent(data, types, contents) && types <= types1
    ensures Coherent(data, types1, contents)
  {
    assert Look(data);
  }

  lemma CoherentSays(data: map<ExtNode, MimeNode>, types: set<TypeNode>, contents: map<string, Entry>)
    requires Coherent(data, types, contents)
    ensures Tied(data, types, contents)
  {
    assert Look(data);
  }

  class MIMEtypeXML {
    const Mime: Vector<()>
    const Ext: Vector<MimeNode>
    /** What is set for every extension. */
    ghost var Contents: map<string, Entry>

    ghost function Repr(): set<object>
      reads this, Mime, Ext, Mime.Array, Ext.Array
    {
      {this, Mime, Ext} + (if Mime.Array == null then {} else {Mime.Array})
        + (if Ext.Array == null then {} else {Ext.Array})
      + Mime.NodeSet() + Ext.NodeSet()
    }

    ghost predicate Valid()
      reads this, Repr()
    {
      Mime.Valid() && Ext.Valid() && Coherent(DataOf(Ext.NodeSet()), Mime.NodeSet(), Contents)
    }

    constructor ()
      ensures Valid() && Contents == map[] && fresh(Repr())
    {
      Mime := new Vector<()>();
      Ext := new Vector<MimeNode>();
      Contents := map[];
    }

    /** The footprint only grows by new objects. */
    twostate predicate Grown()
      reads this, Mime, Ext, Mime.Array, Ext.Array
    {
      && (Mime.Array == old(Mime.Array) || Mime.Array == null || fresh(Mime.Array))
      && (Ext.Array == old(Ext.Array) || Ext.Array == null || fresh(Ext.Array))
      && (forall n <- Mime.NodeSet() :: n in old(Mime.NodeSet()) || fresh(n))
      && (forall n <- Ext.NodeSet() :: n in old(Ext.NodeSet()) || fresh(n))
    }

    method AddExt(name: string) returns (r: nat)
      requires Valid()
      modifies this`Contents, Ext, Ext.Array, Ext.NodeSet()`Number
      ensures Valid() && Grown() && Ext.Named(r, name)
      ensures Contents == if name in old(Contents) then old(Contents)
        else old(Contents)[name := Entry(None, 0, NoManager)]
    {
      var i := FindExt(name);
      if i != -1 { return i; }
      r := NewExt(name);
    }

    method FindExt(name: string) returns (i: int)
      requires Valid()
      modifies Ext`Sorted, Ext.Array, Ext.NodeSet()`Number
      ensures Valid() && Ext.NodeSet() == old(Ext.NodeSet())
      ensures if i == -1 then name !in Contents else i >= 0 && Ext.Named(i, name) && name in Contents
    {
      i := Ext.Get(name);
      assert DataOf(Ext.NodeSet()) == old(DataOf(Ext.NodeSet()));
      InTable(name);
    }

    /** An extension is in the table exactly when some place is named by it. */
    lemma InTable(name: string)
      requires Valid()
      ensures name in Contents <==> exists i: nat :: Ext.Named(i, name)
    {
      CoherentSays(DataOf(Ext.NodeSet()), Mime.NodeSet(), Contents);
      if exists i: nat :: Ext.Named(i, name) {
        var i: nat :| Ext.Named(i, name);
        assert Ext.Nodes()[i] in DataOf(Ext.NodeSet());
      } else {
        Ext.NotNamed(name);
      }
    }

    method NewExt(name: string) returns (r: nat)
      requires Valid() && name !in Contents
      modifies this`Contents, Ext, Ext.NodeSet()`Number
      ensures Valid() && Grown() && Ext.Named(r, name)
      ensures Contents == old(Contents)[name := Entry(None, 0, NoManager)]
    {
      ghost var types, data, contents := Mime.NodeSet(), DataOf(Ext.NodeSet()), Contents;
      var ret := InsertExt(name);
      Contents := Contents[name := Entry(None, 0, NoManager)];
      CoherentSet(data, types, contents, ret, MimeNode(null, 0, NoManager));
      r := ret.Number;
    }

    method InsertExt(name: string) returns (node: ExtNode)
      requires Mime.Valid() && Ext.Valid()
      modifies Ext, Ext.NodeSet()`Number
      ensures Ext.Valid() && fresh(node) && fresh(Ext.Array) && Ext.NodeSet() == old(Ext.NodeSet()) + {node}
      ensures Mime.Valid() && Mime.NodeSet() == old(Mime.NodeSet())
      ensures DataOf(Ext.NodeSet()) == old(DataOf(Ext.NodeSet()))[node := MimeNode(null, 0, NoManager)]
      ensures node.Text == name && node.Number >= 0 && Ext.Named(node.Number, name)
    {
      node := Ext.Insert(name, MimeNode(null, 0, NoManager));
      assert Mime.Valid() == old(Mime.Valid());
    }

    method AddMime(name: string) returns (r: nat)
      requires Valid()
      modifies Mime, Mime.Array, Mime.NodeSet()`Number
      ensures Valid() && Grown() && Mime.Named(r, name)
    {
      var i := FindMime(name);
      if i != -1 { return i; }
      r := NewMime(name);
    }

    method FindMime(name: string) returns (i: int)
      requires Valid()
      modifies Mime`Sorted, Mime.Array, Mime.NodeSet()`Number
      ensures Valid() && Mime.NodeSet() == old(Mime.NodeSet())
      ensures i == -1 || (i >= 0 && Mime.Named(i, name))
    {
      i := Mime.Get(name);
    }

    method NewMime(name: string) returns (r: nat)
      requires Valid()
      modifies Mime, Mime.NodeSet()`Number
      ensures Valid() && Grown() && Mime.Named(r, name)
    {
      ghost var types := Mime.NodeSet();
      var ret := Mime.Insert(name, ());
      CoherentMore(DataOf(Ext.NodeSet()), types, Mime.NodeSet(), Contents);
      r := ret.Number;
    }

    /** The settings of an extension are replaced. */
    method Change(ext: nat, ghost name: string, data: MimeNode)
      requires Valid() && Ext.Named(ext, name) && (data.Type == null || data.Type in Mime.NodeSet())
      modifies this`Contents, Ext.NodeSet()`Data
      ensures Valid() && Contents == old(Contents)[name := Value(data)]
    {
      var node := Ext.At(ext);
      assert node in Ext.NodeSet();
      ghost var exts, types, before := Ext.NodeSet(), Mime.NodeSet(), DataOf(Ext.NodeSet());
      CoherentSet(before, types, Contents, node, data);
      Contents := Contents[name := Value(data)];
      node.Data := data;
      assert Ext.Valid() == old(Ext.Valid()) && Mime.Valid() == old(Mime.Valid());
      assert Ext.NodeSet() == exts && Mime.NodeSet() == types;
      assert DataOf(exts) == before[node := data];
    }

    /** The settings at a place are those the table has for its text. */
    lemma SettingsAt(ext: nat, name: string)
      requires Valid() && Ext.Named(ext, name)
      ensures name in Contents && Contents[name] == Value(Ext.Nodes()[ext].Data)
      ensures var t := Ext.Nodes()[ext].Data.Type; t == null || t in Mime.NodeSet()
    {
      CoherentSays(DataOf(Ext.NodeSet()), Mime.NodeSet(), Contents);
      assert Ext.Nodes()[ext] in DataOf(Ext.NodeSet());
    }

    method SetType(ext: nat, mime: nat, ghost name: string, ghost text: string)
      requires Valid() && Ext.Named(ext, name) && Mime.Named(mime, text)
      modifies this`Contents, Ext.NodeSet()`Data
      ensures Valid() && name in old(Contents)
      ensures Contents == old(Contents)[name := old(Contents)[name].(mime := Some(text))]
    {
      SettingsAt(ext, name);
      var node := Ext.At(ext);
      var t := Mime.At(mime);
      assert t in Mime.NodeSet();
      Change(ext, name, node.Data.(Type := t));
    }

    method SetCmd(ext: nat, cmd: int, ghost name: string)
      requires Valid() && Ext.Named(ext, name)
      modifies this`Contents, Ext.NodeSet()`Data
      ensures Valid() && name in old(Contents)
      ensures Contents == old(Contents)[name := old(Contents)[name].(cmd := cmd)]
    {
      SettingsAt(ext, name);
      var node := Ext.At(ext);
      Change(ext, name, node.Data.(Cmd := cmd));
    }

    method SetManager(ext: nat, manager: Manager, ghost name: string)
      requires Valid() && Ext.Named(ext, name)
      modifies this`Contents, Ext.NodeSet()`Data
      ensures Valid() && name in old(Contents)
      ensures Contents == old(Contents)[name := old(Contents)[name].(manager := manager)]
    {
      SettingsAt(ext, name);
      var node := Ext.At(ext);
      Change(ext, name, node.Data.(Manager := manager));
    }

    /** The place of an extension's type in the sorted types, however often they have been sorted since it was set. */
    method GetType(ext: nat, ghost name: string) returns (r: int)
      requires Valid() && Ext.Named(ext, name)
      ensures name in Contents
      ensures if Contents[name].mime.None? then r == 0 else r >= 0 && Mime.Named(r, Contents[name].mime.value)
    {
      SettingsAt(ext, name);
      var node := Ext.At(ext);
      var ret := node.Data.Type;
      if ret == null { return 0; }
      ghost var k :| 0 <= k < |Mime.Nodes()| && Mime.Nodes()[k] == ret;
      r := ret.Number;
    }

    method GetSettings(ext: nat, ghost name: string) returns (cmd: int, manager: Manager)
      requires Valid() && Ext.Named(ext, name)
      ensures name in Contents && cmd == Contents[name].cmd && manager == Contents[name].manager
    {
      SettingsAt(ext, name);
      var node := Ext.At(ext);
      return node.Data.Cmd, node.Data.Manager;
    }

    /** The extension at a place goes, with its settings; its type stays. */
    method RemoveExt(ext: nat, ghost name: string)
      requires Valid() && Ext.Named(ext, name)
      modifies this`Contents, Ext, Ext.NodeSet()`Number
      ensures Valid() && Contents == old(Contents) - {name}
    {
      ghost var data, contents, node := DataOf(Ext.NodeSet()), Contents, Ext.Nodes()[ext];
      Contents := Contents - {name};
      Ext.RemoveAt(ext);
      assert DataOf(Ext.NodeSet()) == data - {node};
      CoherentWithout(data, Mime.NodeSet(), contents, node);
    }

    method Clear()
      requires Valid()
      modifies this`Contents, Mime, Ext
      ensures Valid() && Grown() && Contents == map[]
    {
      Mime.Clear();
      Ext.Clear();
      Contents := map[];
      assert Ext.NodeSet() == {} && DataOf(Ext.NodeSet()) == map[];
    }

    /** The vectors hold what the loader has read, and the place it is at is that of its extension. */
    ghost predicate ReadSofar(l: Loader, extNumber: nat)
      reads this, Ext, Ext.Array
    {
      Contents == l.table && (l.current.Some? ==> Ext.Named(extNumber, l.current.value))
    }

    method ReadMime(text: string, extNumber: nat, ghost name: string)
      requires Valid() && Ext.Named(extNumber, name)
      modifies this`Contents, Mime, Mime.Array, Mime.NodeSet()`Number, Ext.NodeSet()`Data
      ensures Valid() && Grown() && name in old(Contents) && Ext.Named(extNumber, name)
      ensures Contents == old(Contents)[name := old(Contents)[name].(mime := Some(text))]
    {
      var mime := AddMime(text);
      SetType(extNumber, mime, name, text);
    }

    method ReadOne(c: Child, extNumber: nat, ghost l: Loader) returns (next: nat)
      requires Valid() && ReadSofar(l, extNumber) && Readable(l, c)
      modifies Repr()
      ensures Valid() && Grown() && ReadSofar(ReadChild(l, c), next)
    {
      next := extNumber;
      match c.tag {
        case ExtTag =>
          next := AddExt(c.text);
        case MimeTag =>
          ReadMime(c.text, extNumber, l.current.value);
        case CmdTag =>
          var cmd := CommandNumber(c.text);
          if cmd.Some? { SetCmd(extNumber, cmd.value, l.current.value); }
        case ManagerTag =>
          SetManager(extNumber, ReadManager(c.text), l.current.value);
        case OtherTag =>
      }
    }

    /** The inner loop of load_core: the children of one group. */
    method ReadGroup(children: seq<Child>, extNumber: nat, ghost l: Loader) returns (next: nat)
      requires Valid() && ReadSofar(l, extNumber) && AllReadable(l, children)
      modifies Repr()
      ensures Valid() && Grown() && ReadSofar(ReadChildren(l, children), next)
    {
      next := extNumber;
      ghost var at := l;
      for k := 0 to |children|
        invariant Valid() && Grown() && ReadSofar(at, next)
        invariant AllReadable(at, children[k..]) && ReadChildren(at, children[k..]) == ReadChildren(l, children)
      {
        ChildStep(at, children, k);
        next := ReadOne(children[k], next, at);
        at := ReadChild(at, children[k]);
      }
      assert children[|children|..] == [];
    }

    /** load_core, on the nodes below the root: the table becomes what the document says. */
    method LoadCore(doc: seq<Node>) returns (ret: int)
      requires Valid() && DocReadable(EMPTY, doc)
      modifies Repr()
      ensures ret == 0 && Valid() && Contents == ReadDoc(EMPTY, doc).table
    {
      Clear();
      ReadNodes(doc);
      SortTypes();
      ret := 0;
    }

    /** The outer loop; extensions keep their place from one group to the next. */
    method ReadNodes(doc: seq<Node>)
      requires Valid() && DocReadable(EMPTY, doc) && Contents == map[]
      modifies Repr()
      ensures Valid() && Grown() && Contents == ReadDoc(EMPTY, doc).table
    {
      var extNumber := 0;
      ghost var at := EMPTY;
      for k := 0 to |doc|
        invariant Valid() && Grown() && ReadSofar(at, extNumber)
        invariant DocReadable(at, doc[k..]) && ReadDoc(at, doc[k..]) == ReadDoc(EMPTY, doc)
      {
        DocStep(at, doc, k);
        extNumber := ReadNode(doc[k], extNumber, at);
        at := ReadChildren(at, ChildrenOf(doc[k]));
      }
      assert doc[|doc|..] == [];
    }

    method ReadNode(node: Node, extNumber: nat, ghost l: Loader) returns (next: nat)
      requires Valid() && ReadSofar(l, extNumber) && AllReadable(l, ChildrenOf(node))
      modifies Repr()
      ensures Valid() && Grown() && ReadSofar(ReadChildren(l, ChildrenOf(node)), next)
    {
      next := extNumber;
      if node.MimeTypeNode? { next := ReadGroup(node.children, extNumber, l); }
    }

    method SortTypes()
      requires Valid()
      modifies Mime`Sorted, Mime.Array, Mime.NodeSet()`Number
      ensures Valid()
    {
      Mime.Sort();
    }

    /** The first type, as the types are sorted. */
    ghost function FirstType(): (first: Option<string>)
      reads this, Mime, Mime.Array
      requires |Mime.Nodes()| > 0 ==> Mime.Nodes()[0] != null
      ensures first.Some? <==> Mime.Nodes() != []
    {
      if |Mime.Nodes()| > 0 then Some(Mime.Nodes()[0].Text) else None
    }

    /** save_core: a group for every extension. What the command buffer holds before each is not known. */
    method SaveCore(stale: seq<string>) returns (ret: int, doc: seq<Node>, ghost names: seq<string>)
      requires Valid() && |stale| == Ext.VectorSize && forall name <- Contents :: Savable(Contents[name], FirstType())
      ensures ret == (if Contents == map[] then -1 else 0)
      ensures |names| == |stale| && ListsTable(names, Contents)
      ensures doc == SaveAll(names, Contents, FirstType(), stale)
    {
      doc, names := [], [];
      if Ext.VectorSize == 0 {
        CoherentSays(DataOf(Ext.NodeSet()), Mime.NodeSet(), Contents);
        return -1, [], [];
      }
      for i := 0 to Ext.VectorSize
        invariant SavedSofar(i, names, doc, stale)
      {
        var group;
        ghost var name;
        group, name := SaveOne(i, stale[i]);
        SaveNext(i, names, doc, stale, name);
        names := names + [name];
        doc := doc + [group];
      }
      assert stale[..|stale|] == stale;
      AllNamed(names);
      ret := 0;
    }

    /** The first extensions have been saved. */
    ghost predicate SavedSofar(i: nat, names: seq<string>, doc: seq<Node>, stale: seq<string>)
      reads this, Repr()
    {
      && |names| == i <= |stale| && (|Mime.Nodes()| > 0 ==> Mime.Nodes()[0] != null)
      && AllSavable(names, Contents, FirstType())
      && (forall k | 0 <= k < i :: Ext.Named(k, names[k])) && doc == SaveAll(names, Contents, FirstType(), stale[..i])
    }

    lemma SaveNext(i: nat, names: seq<string>, doc: seq<Node>, stale: seq<string>, name: string)
      requires SavedSofar(i, names, doc, stale) && i < |stale| && Ext.Named(i, name)
      requires name in Contents && Savable(Contents[name], FirstType())
      ensures SavedSofar(i + 1, names + [name], doc + [SaveEntry(name, Contents[name], FirstType(), stale[i])], stale)
    {
      assert AllSavable(names + [name], Contents, FirstType());
      SaveMore(names, Contents, FirstType(), stale[..i], name, stale[i]);
      assert stale[..i] + [stale[i]] == stale[..i + 1];
    }

    lemma AllNamed(names: seq<string>)
      requires Valid() && |names| == Ext.VectorSize > 0 && forall k | 0 <= k < |names| :: Ext.Named(k, names[k])
      ensures Contents != map[] && forall name :: name in names <==> name in Contents
      ensures Distinct(names)
    {
      CoherentSays(DataOf(Ext.NodeSet()), Mime.NodeSet(), Contents);
      forall name
        ensures name in names <==> name in Contents
      {
        InTable(name);
        if name in Contents {
          var i: nat :| Ext.Named(i, name);
          assert names[i] == name;
        }
      }
      assert names[0] in names;
      forall i, j | 0 <= i < j < |names|
        ensures names[i] != names[j]
      {
        var data := DataOf(Ext.NodeSet());
        assert Ext.Nodes()[i] in data && Ext.Nodes()[j] in data && Ext.Nodes()[i] != Ext.Nodes()[j];
      }
    }

    /** The group of one extension; its type is looked up by the place it is sorted to. */
    method SaveOne(i: nat, stale: string) returns (group: Node, ghost name: string)
      requires Valid() && i < Ext.VectorSize && forall name <- Contents :: Savable(Contents[name], FirstType())
      ensures Ext.Named(i, name) && name in Contents && Savable(Contents[name], FirstType())
      ensures group == SaveEntry(name, Contents[name], FirstType(), stale)
    {
      var node := Ext.At(i);
      name := node.Text;
      SettingsAt(i, name);
      var place := GetType(i, name);
      assert Valid() == old(Valid());
      var t := Mime.At(place);
      assert t.Text == TypeText(Contents[name], FirstType());
      assert Valid() == old(Valid());
      var cmd, manager := GetSettings(i, name);
      group := MimeTypeNode([Child(ExtTag, node.Text), Child(MimeTag, t.Text), Child(CmdTag, CommandText(cmd, stale)),
                             Child(ManagerTag, ManagerText(manager))]);
    }
  }

  lemma {:induction false} SaveMore(names: seq<string>, table: map<string, Entry>, first: Option<string>,
                                    stale: seq<string>,
                                    name: string, last: string)
    requires |stale| == |names| && AllSavable(names + [name], table, first)
    ensures name in names + [name] && forall n <- names :: n in names + [name]
    ensures SaveAll(names + [name], table, first, stale + [last])
         == SaveAll(names, table, first, stale) + [SaveEntry(name, table[name], first, last)]
  {
    assert (names + [name])[|names|] == name;
    if names == [] {
      assert names + [name] == [name] && stale + [last] == [last];
    } else {
      assert (names + [name])[1..] == names[1..] + [name] && (stale + [last])[1..] == stale[1..] + [last];
      SaveMore(names[1..], table, first, stale[1..], name, last);
    }
  }
}
