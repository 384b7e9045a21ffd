/** The document the MIME types are kept in: what saving writes and what loading makes of it. */
module MimeDocument {
  import opened Wrappers
  import opened Sequences
  import opened TextOrder

  /** The manager of a type; `NoManager` is the shared constant the program compares by its address. */
  datatype Manager = NoManager | Manager(text: string)

  datatype Entry = Entry(mime: Option<string>, cmd: int, manager: Manager)

  datatype Tag = ExtTag | MimeTag | CmdTag | ManagerTag | OtherTag

  datatype Child = Child(tag: Tag, text: string)

  /** A node of the document below the root: a group of children, or anything else. */
  datatype Node = MimeTypeNode(children: seq<Child>) | OtherNode

  const COMMANDS := 12
  const CMD_EXECUTESCGI := 11

  function CommandName(cmd: int): string
    requires 0 <= cmd < COMMANDS
  {
    match cmd
    case 0 => "SEND"
    case 1 => "SENDLINK"
    case 2 => "RUNCGI"
    case 3 => "RUNFASTCGI"
    case 4 => "RUNSCGI"
    case 5 => "RUNISAPI"
    case 6 => "RUNMSCGI"
    case 7 => "EXECUTEWINCGI"
    case 8 => "EXECUTE"
    case 9 => "EXECUTEISAPI"
    case 10 => "EXECUTEFASTCGI"
    case _ => "EXECUTESCGI"
  }

  function CommandNumber(text: string): Option<int> {
    if text == "SEND" then Some(0)
    else if text == "RUNCGI" then Some(2)
    else if text == "RUNMSCGI" then Some(6)
    else if text == "EXECUTE" then Some(8)
    else if text == "RUNISAPI" then Some(5)
    else if text == "EXECUTEISAPI" then Some(9)
    else if text == "SENDLINK" then Some(1)
    else if text == "EXECUTEWINCGI" then Some(7)
    else if text == "RUNFASTCGI" then Some(3)
    else if text == "EXECUTEFASTCGI" then Some(10)
    else if text == "RUNSCGI" then Some(4)
    else if text == "EXECUTESCGI" then Some(11)
    else None
  }

  /** The text in the command buffer, when it held `stale` before: the copy of the last command is cut before its
      terminator, so that what the buffer held behind it follows, and for an unknown command nothing is copied. */
  function CommandText(cmd: int, stale: string): string {
    if !(0 <= cmd < COMMANDS) then stale
    else if cmd == CMD_EXECUTESCGI then CommandName(cmd) + stale
    else CommandName(cmd)
  }

  predicate SpellsNone(text: string) {
    |text| == 4 && Lower(text[0]) == 'n' && Lower(text[1]) == 'o' && Lower(text[2]) == 'n' && Lower(text[3]) == 'e'
  }

  function ManagerText(m: Manager): string {
    if m.NoManager? then "NONE" else m.text
  }

  function ReadManager(text: string): Manager {
    if SpellsNone(text) then NoManager else Manager(text)
  }

  /** Only four letters can spell it, each small or capital; any other text is kept as it is. */
  lemma NoneIff(text: string)
    ensures ReadManager(text) == NoManager <==>
            && |text| == 4 && (text[0] == 'n' || text[0] == 'N') && (text[1] == 'o' || text[1] == 'O')
            && (text[2] == 'n' || text[2] == 'N') && (text[3] == 'e' || text[3] == 'E')
    ensures ReadManager(text) == NoManager || ReadManager(text) == Manager(text)
  {
  }

  // ---- Loading ----

  /** The extension the loader is at, and the table so far. */
  datatype Loader = Loader(current: Option<string>, table: map<string, Entry>)

  /** The loader follows the content of every child it knows, and needs an extension to set anything of. */
  predicate Readable(l: Loader, c: Child) {
    && (c.tag != OtherTag ==> c.text != "")
    && (c.tag == MimeTag || c.tag == ManagerTag || (c.tag == CmdTag && CommandNumber(c.text).Some?) ==>
          l.current.Some? && l.current.value in l.table)
  }

  function ReadChild(l: Loader, c: Child): (l1: Loader)
    requires Readable(l, c)
    ensures (l.current.Some? ==> l.current.value in l.table) ==> (l1.current.Some? ==> l1.current.value in l1.table)
  {
    match c.tag
    case ExtTag => Loader(Some(c.text), if c.text in l.table then l.table
      else l.table[c.text := Entry(None, 0, NoManager)])
    case MimeTag => l.(table := l.table[l.current.value := l.table[l.current.value].(mime := Some(c.text))])
    case CmdTag =>
      if CommandNumber(c.text).None? then l
      else l.(table := l.table[l.current.value := l.table[l.current.value].(cmd := CommandNumber(c.text).value)])
    case ManagerTag =>
      l.(table := l.table[l.current.value := l.table[l.current.value].(manager := ReadManager(c.text))])
    case OtherTag => l
  }

  predicate AllReadable(l: Loader, cs: seq<Child>)
    decreases |cs|
  {
    cs == [] || (Readable(l, cs[0]) && AllReadable(ReadChild(l, cs[0]), cs[1..]))
  }

  function ReadChildren(l: Loader, cs: seq<Child>): Loader
    requires AllReadable(l, cs)
    decreases |cs|
  {
    if cs == [] then l else ReadChildren(ReadChild(l, cs[0]), cs[1..])
  }

  function ChildrenOf(n: Node): seq<Child> {
    if n.MimeTypeNode? then n.children else []
  }

  predicate DocReadable(l: Loader, doc: seq<Node>)
    decreases |doc|
  {
    doc == [] || (AllReadable(l, ChildrenOf(doc[0])) && DocReadable(ReadChildren(l, ChildrenOf(doc[0])), doc[1..]))
  }

  function ReadDoc(l: Loader, doc: seq<Node>): Loader
    requires DocReadable(l, doc)
    decreases |doc|
  {
    if doc == [] then l else ReadDoc(ReadChildren(l, ChildrenOf(doc[0])), doc[1..])
  }

  const EMPTY := Loader(None, map[])

  lemma ChildStep(l: Loader, cs: seq<Child>, k: nat)
    requires k < |cs| && AllReadable(l, cs[k..])
    ensures Readable(l, cs[k]) && AllReadable(ReadChild(l, cs[k]), cs[k + 1..])
    ensures ReadChildren(l, cs[k..]) == ReadChildren(ReadChild(l, cs[k]), cs[k + 1..])
  {
    assert cs[k..][1..] == cs[k + 1..];
  }

  lemma DocStep(l: Loader, doc: seq<Node>, k: nat)
    requires k < |doc| && DocReadable(l, doc[k..])
    ensures AllReadable(l, ChildrenOf(doc[k])) && DocReadable(ReadChildren(l, ChildrenOf(doc[k])), doc[k + 1..])
    ensures ReadDoc(l, doc[k..]) == ReadDoc(ReadChildren(l, ChildrenOf(doc[k])), doc[k + 1..])
  {
    assert doc[k..][1..] == doc[k + 1..];
  }

  // ---- Saving ----

  /** An extension without a type is saved with the first of all types; there has to be one. */
  predicate Savable(e: Entry, first: Option<string>) {
    e.mime.Some? || first.Some?
  }

  function TypeText(e: Entry, first: Option<string>): string
    requires Savable(e, first)
  {
    if e.mime.Some? then e.mime.value else first.value
  }

  function SaveEntry(name: string, e: Entry, first: Option<string>, stale: string): Node
    requires Savable(e, first)
  {
    MimeTypeNode([Child(ExtTag, name), Child(MimeTag, TypeText(e, first)), Child(CmdTag, CommandText(e.cmd, stale)),
                  Child(ManagerTag, ManagerText(e.manager))])
  }

  /** An extension nothing was set for is saved with the first type, to be sent, and without a manager; and every group
      has the four children, each once. */
  lemma NewEntrySaved(name: string, e: Entry, first: string, stale: string)
    ensures SaveEntry(name, Entry(None, 0, NoManager), Some(first), stale) == MimeTypeNode(
              [Child(ExtTag, name), Child(MimeTag, first), Child(CmdTag, "SEND"), Child(ManagerTag, "NONE")])
    ensures var cs := SaveEntry(name, e, Some(first), stale).children;
      && |cs| == 4 && cs[0] == Child(ExtTag, name)
      && cs[1] == Child(MimeTag, if e.mime.Some? then e.mime.value else first) && cs[2].tag == CmdTag
      && cs[3] == Child(ManagerTag, if e.manager.Manager? then e.manager.text else "NONE")
  {
  }

  predicate AllSavable(names: seq<string>, table: map<string, Entry>, first: Option<string>) {
    forall n <- names :: n in table && Savable(table[n], first)
  }

  /** The document for a list of extensions; `stale` says what the command buffer held at each. */
  function SaveAll(names: seq<string>, table: map<string, Entry>, first: Option<string>, stale: seq<string>)
    : (doc: seq<Node>)
    requires |stale| == |names| && AllSavable(names, table, first)
    ensures |doc| == |names|
  {
    if names == [] then []
    else [SaveEntry(names[0], table[names[0]], first, stale[0])] + SaveAll(names[1..], table, first, stale[1..])
  }

  // ---- Round trip ----

  /** No text is written empty; the loader follows the content of every child. */
  predicate Full(name: string, e: Entry, first: Option<string>, stale: string)
    requires Savable(e, first)
  {
    name != "" && TypeText(e, first) != "" && CommandText(e.cmd, stale) != "" && ManagerText(e.manager) != ""
  }

  function ReadCommand(text: string): (cmd: int)
    ensures 0 <= cmd < COMMANDS
  {
    if CommandNumber(text).Some? then CommandNumber(text).value else 0
  }

  /** What becomes of an entry that is saved and loaded. */
  function Reloaded(e: Entry, first: Option<string>, stale: string): Entry
    requires Savable(e, first)
  {
    Entry(Some(TypeText(e, first)), ReadCommand(CommandText(e.cmd, stale)), ReadManager(ManagerText(e.manager)))
  }

  /** What an entry needs to come back: a name, a type, one of the commands, no empty text, a manager that does not
      spell "none", and for the command whose copy is cut short a buffer that happens to hold a terminator. */
  predicate Survives(name: string, e: Entry, stale: string) {
    && SurvivesAnyBuffer(name, e.(cmd := 0))
    && 0 <= e.cmd < COMMANDS && (e.cmd == CMD_EXECUTESCGI ==> stale == "")
  }

  predicate SurvivesAnyBuffer(name: string, e: Entry) {
    && name != "" && e.mime.Some? && e.mime.value != "" && 0 <= e.cmd < COMMANDS && e.cmd != CMD_EXECUTESCGI
    && (e.manager.Manager? ==> e.manager.text != "" && !SpellsNone(e.manager.text))
  }

  lemma ReloadedIff(name: string, e: Entry, first: Option<string>, stale: string)
    requires Savable(e, first)
    ensures Full(name, e, first, stale) && Reloaded(e, first, stale) == e <==> Survives(name, e, stale)
  {
    if 0 <= e.cmd < COMMANDS { CommandReads(e.cmd, stale); }
  }

  lemma CommandReads(cmd: int, stale: string)
    requires 0 <= cmd < COMMANDS
    ensures CommandText(cmd, stale) != ""
    ensures CommandNumber(CommandText(cmd, stale)) == if cmd == CMD_EXECUTESCGI && stale != "" then None else Some(cmd)
  {
    if cmd == CMD_EXECUTESCGI {
      var text := "EXECUTESCGI" + stale;
      assert text[7] == 'S' && |text| == 11 + |stale|;
      assert stale == "" ==> text == "EXECUTESCGI";
    }
  }

  lemma ReadFirst(l: Loader, c: Child, rest: seq<Child>)
    ensures AllReadable(l, [c] + rest) <==> Readable(l, c) && AllReadable(ReadChild(l, c), rest)
    ensures AllReadable(l, [c] + rest) ==> ReadChildren(l, [c] + rest) == ReadChildren(ReadChild(l, c), rest)
  {
    assert ([c] + rest)[1..] == rest;
  }

  /** The children of a saved extension are read one after another, each if it has content. */
  lemma EntryReads(l: Loader, name: string, e: Entry, first: Option<string>, stale: string)
    requires Savable(e, first) && name !in l.table
    ensures var cs := SaveEntry(name, e, first, stale).children;
      && (AllReadable(l, cs) <==> Full(name, e, first, stale))
      && (AllReadable(l, cs) ==> ReadChildren(l, cs) == Loader(Some(name), l.table[name := Reloaded(e, first, stale)]))
  {
    var a, b := Child(ExtTag, name), Child(MimeTag, TypeText(e, first));
    var c, d := Child(CmdTag, CommandText(e.cmd, stale)), Child(ManagerTag, ManagerText(e.manager));
    assert SaveEntry(name, e, first, stale).children == [a] + ([b] + ([c] + ([d] + [])));
    ReadFirst(l, a, [b] + ([c] + ([d] + [])));
    if name != "" {
      var l1 := ReadChild(l, a);
      ReadFirst(l1, b, [c] + ([d] + []));
      if TypeText(e, first) != "" {
        var l2 := ReadChild(l1, b);
        ReadFirst(l2, c, [d] + []);
        if CommandText(e.cmd, stale) != "" { ReadFirst(ReadChild(l2, c), d, []); }
      }
    }
  }

  predicate AllFull(names: seq<string>, table: map<string, Entry>, first: Option<string>, stale: seq<string>)
    requires |stale| == |names| && AllSavable(names, table, first)
  {
    forall i | 0 <= i < |names| :: Full(names[i], table[names[i]], first, stale[i])
  }

  lemma FirstFull(names: seq<string>, table: map<string, Entry>, first: Option<string>, stale: seq<string>)
    requires |stale| == |names| > 0 && AllSavable(names, table, first)
    ensures AllSavable(names[1..], table, first)
    ensures AllFull(names, table, first, stale) <==>
            Full(names[0], table[names[0]], first, stale[0]) && AllFull(names[1..], table, first, stale[1..])
  {
    assert forall i | 0 < i < |names| :: names[i] == names[1..][i - 1] && stale[i] == stale[1..][i - 1];
    assert forall i | 0 <= i < |names| - 1 :: names[1..][i] == names[i + 1] && stale[1..][i] == stale[i + 1];
  }

  /** What was saved can be loaded exactly when no text is empty; then every extension comes back, as `Reloaded` says,
      and no other. */
  lemma {:induction false} SavedReads(l: Loader, names: seq<string>, table: map<string, Entry>, first: Option<string>,
                                      stale: seq<string>)
    requires |stale| == |names| && AllSavable(names, table, first) && forall n <- names :: n !in l.table
    requires Distinct(names)
    ensures var doc := SaveAll(names, table, first, stale);
      && (DocReadable(l, doc) <==> AllFull(names, table, first, stale))
      && (DocReadable(l, doc) ==> Loaded(l, names, table, first, stale, ReadDoc(l, doc).table))
    decreases |names|
  {
    if names != [] {
      var name, doc := names[0], SaveAll(names, table, first, stale);
      FirstFull(names, table, first, stale);
      EntryReads(l, name, table[name], first, stale[0]);
      assert doc[1..] == SaveAll(names[1..], table, first, stale[1..]);
      if Full(name, table[name], first, stale[0]) {
        var l1 := Loader(Some(name), l.table[name := Reloaded(table[name], first, stale[0])]);
        SavedReads(l1, names[1..], table, first, stale[1..]);
        if DocReadable(l, doc) { LoadedFirst(l, names, table, first, stale, ReadDoc(l1, doc[1..]).table); }
      }
    }
  }

  /** The table after loading the extensions on top of what was there. */
  ghost predicate Loaded(l: Loader, names: seq<string>, table: map<string, Entry>, first: Option<string>,
                         stale: seq<string>,
                         loaded: map<string, Entry>)
    requires |stale| == |names| && AllSavable(names, table, first)
  {
    && (forall n :: n in loaded <==> n in l.table || n in names)
    && (forall n <- l.table :: loaded[n] == l.table[n])
    && (forall i | 0 <= i < |names| :: loaded[names[i]] == Reloaded(table[names[i]], first, stale[i]))
  }

  lemma LoadedFirst(l: Loader, names: seq<string>, table: map<string, Entry>, first: Option<string>, stale: seq<string>,
                    loaded: map<string, Entry>)
    requires |stale| == |names| > 0 && AllSavable(names, table, first) && names[0] !in l.table
    requires AllSavable(names[1..], table, first)
    requires var l1 := Loader(Some(names[0]), l.table[names[0] := Reloaded(table[names[0]], first, stale[0])]);
      Loaded(l1, names[1..], table, first, stale[1..], loaded)
    ensures Loaded(l, names, table, first, stale, loaded)
  {
    var l1 := Loader(Some(names[0]), l.table[names[0] := Reloaded(table[names[0]], first, stale[0])]);
    FirstOrLater(names);
    forall n
      ensures n in loaded <==> n in l.table || n in names
    {
      assert n in loaded <==> n in l1.table || n in names[1..];
    }
    forall i | 0 < i < |names|
      ensures loaded[names[i]] == Reloaded(table[names[i]], first, stale[i])
    {
      assert names[i] == names[1..][i - 1] && stale[i] == stale[1..][i - 1];
    }
  }

  lemma FirstOrLater(names: seq<string>)
    requires names != []
    ensures forall n :: n in names <==> n == names[0] || n in names[1..]
  {
    assert names == [names[0]] + names[1..];
  }

  /** Saving and loading gives the table back. */
  ghost predicate ComesBack(names: seq<string>, table: map<string, Entry>, first: Option<string>, stale: seq<string>)
    requires |stale| == |names| && AllSavable(names, table, first)
  {
    var doc := SaveAll(names, table, first, stale);
    DocReadable(EMPTY, doc) && ReadDoc(EMPTY, doc).table == table
  }

  /** The list has each extension of the table once. */
  ghost predicate ListsTable(names: seq<string>, table: map<string, Entry>) {
    && (forall n :: n in names <==> n in table)
    && Distinct(names)
  }

  /** The round trip: the saved table comes back unchanged exactly when every entry survives. */
  lemma RoundTripIff(names: seq<string>, table: map<string, Entry>, first: Option<string>, stale: seq<string>)
    requires |stale| == |names| && ListsTable(names, table) && AllSavable(names, table, first)
    ensures ComesBack(names, table, first, stale) <==>
            forall i | 0 <= i < |names| :: Survives(names[i], table[names[i]], stale[i])
  {
    SavedReads(EMPTY, names, table, first, stale);
    forall i | 0 <= i < |names|
      ensures (Full(names[i], table[names[i]], first, stale[i])
               && Reloaded(table[names[i]], first, stale[i]) == table[names[i]]) <==>
              Survives(names[i], table[names[i]], stale[i])
    {
      assert names[i] in names;
      ReloadedIff(names[i], table[names[i]], first, stale[i]);
    }
    var doc := SaveAll(names, table, first, stale);
    if DocReadable(EMPTY, doc) { SameTable(names, table, ReadDoc(EMPTY, doc).table); }
  }

  /** Whatever the command buffer held: the table comes back from every save exactly when every extension has a name, a
      type and a command other than the one whose copy is cut short, no text is empty, and no manager spells "none". */
  lemma RoundTripAlwaysIff(names: seq<string>, table: map<string, Entry>, first: Option<string>)
    requires ListsTable(names, table) && AllSavable(names, table, first)
    ensures (forall stale: seq<string> | |stale| == |names| :: ComesBack(names, table, first, stale)) <==>
            forall n <- table :: SurvivesAnyBuffer(n, table[n])
  {
    if forall n <- table :: SurvivesAnyBuffer(n, table[n]) {
      forall stale: seq<string> | |stale| == |names|
        ensures ComesBack(names, table, first, stale)
      {
        assert forall i | 0 <= i < |names| :: names[i] in names;
        RoundTripIff(names, table, first, stale);
      }
    } else {
      var full := seq(|names|, (i: nat) => "x");
      RoundTripIff(names, table, first, full);
      var n :| n in table && !SurvivesAnyBuffer(n, table[n]);
      var i :| 0 <= i < |names| && names[i] == n;
      assert !Survives(names[i], table[names[i]], full[i]);
    }
  }

  lemma SameTable(names: seq<string>, table: map<string, Entry>, loaded: map<string, Entry>)
    requires loaded.Keys == table.Keys && (forall n <- names :: n in table) && forall n <- table :: n in names
    ensures loaded == table <==> forall i | 0 <= i < |names| :: loaded[names[i]] == table[names[i]]
  {
    if forall i | 0 <= i < |names| :: loaded[names[i]] == table[names[i]] {
      forall n | n in table
        ensures loaded[n] == table[n]
      {
        var i :| 0 <= i < |names| && names[i] == n;
      }
    }
  }
}
