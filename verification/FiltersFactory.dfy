/** Construction of a filter chain from a list of names. */
module FiltersFactories {
  import opened Wrappers
  import opened FilterChains

  /** Whether a text holds another anywhere. */
  predicate Substring(text: string, part: string) {
    part <= text || (text != "" && Substring(text[1..], part))
  }

  predicate OccursAt(text: string, part: string, i: int) {
    0 <= i <= |text| - |part| && text[i..i + |part|] == part
  }

  lemma {:induction false} SubstringIff(text: string, part: string)
    ensures Substring(text, part) <==> exists i :: OccursAt(text, part, i)
  {
    assert OccursAt(text, part, 0) <==> part <= text;
    if text != "" {
      SubstringIff(text[1..], part);
      if i :| OccursAt(text[1..], part, i) {
        assert text[i + 1..i + 1 + |part|] == text[1..][i..i + |part|];
        assert OccursAt(text, part, i + 1);
      }
      if i :| OccursAt(text, part, i) && i > 0 {
        assert text[i..i + |part|] == text[1..][i - 1..i - 1 + |part|];
        assert OccursAt(text[1..], part, i - 1);
      }
    }
  }

  /** Whether a name is looked at: without a list of accepted names all are; with one, those found anywhere in its
      text. */
  predicate Wanted(accepted: Option<string>, name: string) {
    accepted.None? || Substring(accepted.value, name)
  }

  /** The same, without saying how it is found out. */
  ghost predicate Listed(accepted: Option<string>, name: string) {
    accepted.None? || exists i :: OccursAt(accepted.value, name, i)
  }

  lemma WantedIff(accepted: Option<string>, name: string)
    ensures Wanted(accepted, name) <==> Listed(accepted, name)
  {
    if accepted.Some? { SubstringIff(accepted.value, name); }
  }

  /** The filters a name can stand for: the built-in ones, and those of plugins. */
  datatype Sources = Sources(staticFilters: map<string, Kind>, dynamicFilters: map<string, Kind>)

  function Lookup(s: Sources, name: string): Option<Kind> {
    if name in s.staticFilters then Some(s.staticFilters[name])
    else if name in s.dynamicFilters then Some(s.dynamicFilters[name])
    else None
  }

  /** What is done with a name. */
  datatype Answer = Skip | Refuse | Make(kind: Kind)

  /** A name stops the construction when it is unknown, or when what it makes changes data and that is not allowed. */
  function AnswerTo(s: Sources, name: string, onlyNotModifiers: bool, accepted: Option<string>): Answer {
    if !Wanted(accepted, name) then Skip
    else if Lookup(s, name).None? || (onlyNotModifiers && Lookup(s, name).value.modifies_) then Refuse
    else Make(Lookup(s, name).value)
  }

  /** What a name adds in front: a filter without a header is left out. */
  function Adds(s: Sources, name: string, onlyNotModifiers: bool, accepted: Option<string>): seq<string> {
    var a := AnswerTo(s, name, onlyNotModifiers, accepted);
    if a.Make? && a.kind.header.Some? then [name] else []
  }

  /** The names of the filters in the chain after a construction on top of some, or nothing when a name is refused. */
  function Assemble(s: Sources, names: seq<string>, onlyNotModifiers: bool, accepted: Option<string>,
                    below: seq<string>)
    : Option<seq<string>>
  {
    if names == [] then Some(below)
    else if AnswerTo(s, names[0], onlyNotModifiers, accepted).Refuse? then None
    else Assemble(s, names[1..], onlyNotModifiers, accepted, Adds(s, names[0], onlyNotModifiers, accepted) + below)
  }

  lemma AssembleStep(s: Sources, names: seq<string>, i: nat, onlyNotModifiers: bool, accepted: Option<string>,
                     below: seq<string>)
    requires i < |names|
    ensures Assemble(s, names[i..], onlyNotModifiers, accepted, below) ==
      if AnswerTo(s, names[i], onlyNotModifiers, accepted).Refuse? then None
      else Assemble(s, names[i + 1..], onlyNotModifiers, accepted,
                    Adds(s, names[i], onlyNotModifiers, accepted) + below)
  {
    assert names[i..][1..] == names[i + 1..];
  }

  /** What the names add, in the reverse of their order. */
  function Made(s: Sources, names: seq<string>, onlyNotModifiers: bool, accepted: Option<string>): seq<string> {
    if names == [] then []
    else Made(s, names[1..], onlyNotModifiers, accepted) + Adds(s, names[0], onlyNotModifiers, accepted)
  }

  /** The construction succeeds exactly when no name is refused, and then puts what the names add, reversed, before what
      was there. */
  lemma {:induction false} AssembleIs(s: Sources, names: seq<string>, onlyNotModifiers: bool, accepted: Option<string>,
                                      below: seq<string>)
    ensures Assemble(s, names, onlyNotModifiers, accepted, below).Some? <==>
            forall k | 0 <= k < |names| :: !AnswerTo(s, names[k], onlyNotModifiers, accepted).Refuse?
    ensures Assemble(s, names, onlyNotModifiers, accepted, below).Some? ==>
      Assemble(s, names, onlyNotModifiers, accepted, below).value == Made(s, names, onlyNotModifiers, accepted) + below
    decreases |names|
  {
    if names != [] {
      AssembleIs(s, names[1..], onlyNotModifiers, accepted, Adds(s, names[0], onlyNotModifiers, accepted) + below);
      assert forall k | 0 < k < |names| :: names[k] == names[1..][k - 1];
    }
  }

  ghost function Names(fs: seq<Filter>): seq<string> {
    if fs == [] then [] else [fs[0].name] + Names(fs[1..])
  }

  /** The filter is of the kind its name stands for. */
  ghost predicate MadeFor(s: Sources, f: Filter) {
    Lookup(s, f.name) == Some(f.kind)
  }

  /** The name is unknown, or what it makes changes data and that is not allowed. */
  predicate Unfit(s: Sources, name: string, onlyNotModifiers: bool) {
    Lookup(s, name).None? || (onlyNotModifiers && Lookup(s, name).value.modifies_)
  }

  /** The filter was made for a wanted name, and has a header. */
  ghost predicate MadeOf(s: Sources, names: seq<string>, accepted: Option<string>, f: Filter) {
    f.name in names && Listed(accepted, f.name) && MadeFor(s, f) && f.kind.header.Some?
  }

  /** A construction fails exactly when some wanted name is unfit; otherwise every wanted name with a header adds one.
      */
  lemma {:induction false} AssembleUses(s: Sources, names: seq<string>, onlyNotModifiers: bool,
                                        accepted: Option<string>, below: seq<string>)
    ensures Assemble(s, names, onlyNotModifiers, accepted, below).None? <==>
      exists k :: 0 <= k < |names| && Listed(accepted, names[k]) && Unfit(s, names[k], onlyNotModifiers)
    ensures Assemble(s, names, onlyNotModifiers, accepted, below).Some? ==>
      forall k | 0 <= k < |names| && Listed(accepted, names[k]) && Lookup(s, names[k]).value.header.Some? ::
        names[k] in Assemble(s, names, onlyNotModifiers, accepted, below).value
  {
    AssembleIs(s, names, onlyNotModifiers, accepted, below);
    forall k | 0 <= k < |names|
      ensures AnswerTo(s, names[k], onlyNotModifiers, accepted).Refuse? <==>
        Listed(accepted, names[k]) && Unfit(s, names[k], onlyNotModifiers)
      ensures Adds(s, names[k], onlyNotModifiers, accepted) <= [names[k]]
    {
      WantedIff(accepted, names[k]);
    }
    if Assemble(s, names, onlyNotModifiers, accepted, below).Some? {
      forall k | 0 <= k < |names| && Listed(accepted, names[k]) && Lookup(s, names[k]).value.header.Some?
        ensures names[k] in Made(s, names, onlyNotModifiers, accepted)
      {
        WantedIff(accepted, names[k]);
        MadeHas(s, names, onlyNotModifiers, accepted, k);
      }
    }
  }

  lemma {:induction false} MadeHas(s: Sources, names: seq<string>, onlyNotModifiers: bool, accepted: Option<string>,
                                   k: nat)
    requires k < |names| && Adds(s, names[k], onlyNotModifiers, accepted) == [names[k]]
    ensures names[k] in Made(s, names, onlyNotModifiers, accepted)
    decreases k
  {
    if k > 0 { MadeHas(s, names[1..], onlyNotModifiers, accepted, k - 1); }
  }

  class FiltersFactory {
    var sources: Sources

    constructor ()
      ensures sources == Sources(map[], map[])
    {
      sources := Sources(map[], map[]);
    }

    method Insert(name: string, kind: Kind)
      modifies this
      ensures Lookup(sources, name) == Some(kind)
      ensures forall other :: other != name ==> Lookup(sources, other) == Lookup(old(sources), other)
    {
      sources := sources.(staticFilters := sources.staticFilters[name := kind]);
    }

    method GetFilter(name: string) returns (f: Filter?)
      ensures if Lookup(sources, name).None? then f == null
              else f != null && fresh(f) && f.name == name && f.kind == Lookup(sources, name).value
    {
      if name in sources.staticFilters {
        f := new Filter(name, sources.staticFilters[name]);
      } else if name in sources.dynamicFilters {
        f := new Filter(name, sources.dynamicFilters[name]);
      } else {
        f := null;
      }
    }

    /** All or nothing: either every wanted name can be made and the new filters stand before the old ones, the last
        name first, or the chain is left empty. */
    method Chain(c: FiltersChain, names: seq<string>, out: Sink, onlyNotModifiers: bool, accepted: Option<string>)
      returns (ret: int)
      requires c.Valid()
      modifies c, c.filters, out
      ensures c.Valid() && c.stream == out
      ensures ret == 0 <==> Assemble(sources, names, onlyNotModifiers, accepted, Names(old(c.filters))).Some?
      ensures ret == 0 ==> Some(Names(c.filters)) == Assemble(sources, names, onlyNotModifiers, accepted,
        Names(old(c.filters)))
      ensures ret != 0 ==> c.filters == []
      ensures ret != 0 <==>
        exists k :: 0 <= k < |names| && Listed(accepted, names[k]) && Unfit(sources, names[k], onlyNotModifiers)
      ensures forall f <- c.filters :: f in old(c.filters) || MadeOf(sources, names, accepted, f)
      ensures ret == 0 ==>
        forall k | 0 <= k < |names| && Listed(accepted, names[k]) && Lookup(sources, names[k]).value.header.Some? ::
          names[k] in Names(c.filters)
    {
      ghost var before, s := c.filters, sources;
      AssembleUses(s, names, onlyNotModifiers, accepted, Names(before));
      c.SetStream(out);
      for i := 0 to |names|
        invariant c.Valid() && c.stream == out && sources == s
        invariant forall f <- c.filters :: f in before || (fresh(f) && MadeOf(s, names, accepted, f))
        invariant Assemble(s, names[i..], onlyNotModifiers, accepted, Names(c.filters))
               == Assemble(s, names, onlyNotModifiers, accepted, Names(before))
      {
        AssembleStep(s, names, i, onlyNotModifiers, accepted, Names(c.filters));
        ret := AddNamed(c, names[i], onlyNotModifiers, accepted);
        if ret != 0 { return; }
      }
      ret := 0;
    }

    /** The body of the loop: what adding the filter returns is not looked at. */
    method AddNamed(c: FiltersChain, name: string, onlyNotModifiers: bool, accepted: Option<string>) returns (ret: int)
      requires c.Valid() && c.stream != null
      modifies c, c.stream
      ensures c.Valid() && c.stream == old(c.stream) && forall f <- c.filters ::
        f in old(c.filters) || (fresh(f) && MadeOf(sources, [name], accepted, f))
      ensures ret == 0 <==> !AnswerTo(sources, name, onlyNotModifiers, accepted).Refuse?
      ensures ret != 0 ==> c.filters == []
      ensures ret == 0 ==> Names(c.filters) == Adds(sources, name, onlyNotModifiers, accepted) + Names(old(c.filters))
    {
      WantedIff(accepted, name);
      if !Wanted(accepted, name) { return 0; }
      var n := GetFilter(name);
      if n == null || (onlyNotModifiers && n.kind.modifies_) {
        c.ClearAllFilters();
        return 1;
      }
      var ignored := c.AddFilter(n, true);
      ret := 0;
    }
  }
}
