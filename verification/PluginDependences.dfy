/** What removing plugins with missing or incompatible dependences means, apart from how it is computed. */
module PluginDependences {

  /** A plugin as its descriptor gives it; `deps` maps the names it depends on to the least and greatest versions. */
  datatype PluginInfo = PluginInfo(version: int, msMinVersion: int, msMaxVersion: int, deps: map<string, (int, int)>)

  type Infos = map<string, PluginInfo>

  predicate DependsOn(infos: Infos, a: string, b: string) {
    a in infos && b in infos[a].deps
  }

  function DependedOn(infos: Infos): set<string> {
    set a, b | a in infos && b in infos[a].deps :: b
  }

  predicate OutOfRange(infos: Infos, a: string, b: string) {
    a in infos && b in infos[a].deps && b in infos
    && (infos[b].version < infos[a].deps[b].0 || infos[b].version > infos[a].deps[b].1)
  }

  /** Names removed for their own sake: only names that something depends on are looked at. */
  ghost predicate Seed(infos: Infos, d: string) {
    && d in DependedOn(infos)
    && (d !in infos || infos[d].version == 0 || exists b :: OutOfRange(infos, d, b))
  }

  /** With a name, whatever depends on it. */
  ghost predicate Closed(infos: Infos, names: set<string>) {
    forall a, b :: b in names && DependsOn(infos, a, b) ==> a in names
  }

  ghost predicate HasSeeds(infos: Infos, names: set<string>) {
    forall d :: Seed(infos, d) ==> d in names
  }

  /** The least set of names that contains the seeds and is closed. */
  ghost predicate Removal(infos: Infos, names: set<string>) {
    && HasSeeds(infos, names) && Closed(infos, names)
    && forall more :: HasSeeds(infos, more) && Closed(infos, more) ==> names <= more
  }

  /** There is only one such set, so no order of iteration can matter. */
  lemma RemovalIsUnique(infos: Infos, names: set<string>, others: set<string>)
    requires Removal(infos, names) && Removal(infos, others)
    ensures names == others
  {
  }

  /** A name is removed exactly when it is a seed or depends on a removed name. */
  lemma RemovedIff(infos: Infos, names: set<string>, a: string)
    requires Removal(infos, names)
    ensures a in names <==> Seed(infos, a) || exists b :: b in names && DependsOn(infos, a, b)
  {
    if !Seed(infos, a) && !exists b :: b in names && DependsOn(infos, a, b) {
      assert HasSeeds(infos, names - {a}) && Closed(infos, names - {a});
    }
  }

  /** Every dependence of a survivor is installed, has a version, and survives; and if anything depends on the survivor,
      its dependences are in range. */
  lemma SurvivorIsSupported(infos: Infos, names: set<string>, a: string, b: string)
    requires Removal(infos, names) && a in infos && a !in names && b in infos[a].deps
    ensures b in infos && b !in names && infos[b].version != 0
    ensures a in DependedOn(infos) ==> infos[a].deps[b].0 <= infos[b].version <= infos[a].deps[b].1
  {
    assert DependsOn(infos, a, b) && b in DependedOn(infos);
    assert !Seed(infos, b);
    if a in DependedOn(infos) {
      assert !Seed(infos, a);
      assert !OutOfRange(infos, a, b);
    }
  }

  /** The server versions a plugin declares never matter, and its version ranges only when something depends on it. */
  lemma UncheckedRangesDoNotMatter(infos: Infos, others: Infos, names: set<string>)
    requires Removal(infos, names) && others.Keys == infos.Keys
    requires forall a <- infos :: others[a].version == infos[a].version && others[a].deps.Keys == infos[a].deps.Keys
    requires forall a <- infos :: a in DependedOn(infos) ==> others[a].deps == infos[a].deps
    ensures Removal(others, names)
  {
    assert forall a, b :: DependsOn(others, a, b) <==> DependsOn(infos, a, b);
    assert DependedOn(others) == DependedOn(infos) by {
      forall b
        ensures b in DependedOn(others) <==> b in DependedOn(infos)
      {
        if b in DependedOn(others) { var a :| a in others && b in others[a].deps; assert DependsOn(infos, a, b); }
        if b in DependedOn(infos) { var a :| a in infos && b in infos[a].deps; assert DependsOn(others, a, b); }
      }
    }
    forall d
      ensures Seed(others, d) <==> Seed(infos, d)
    {
      assert d in DependedOn(infos) ==> forall b :: OutOfRange(others, d, b) <==> OutOfRange(infos, d, b);
    }
    forall more: set<string>
      ensures HasSeeds(others, more) <==> HasSeeds(infos, more)
      ensures Closed(others, more) <==> Closed(infos, more)
    {
    }
  }

  /** So a plugin nothing depends on survives next to a dependence it declares itself incompatible with. */
  lemma IncompatibleSurvives()
    ensures var infos: Infos := map["a" := PluginInfo(1, 0, 0, map["b" := (2, 3)]), "b" := PluginInfo(1, 0, 0, map[])];
      OutOfRange(infos, "a", "b") && Removal(infos, {})
  {
    var infos: Infos := map["a" := PluginInfo(1, 0, 0, map["b" := (2, 3)]), "b" := PluginInfo(1, 0, 0, map[])];
    assert DependedOn(infos) == {"b"};
    assert forall b :: !OutOfRange(infos, "b", b);
  }

  // ---- Closed form ----

  predicate Rises(infos: Infos, p: seq<string>, i: nat) {
    i + 1 < |p| ==> DependsOn(infos, p[i + 1], p[i])
  }

  /** Each name of a path depends on the one before it. */
  ghost predicate Path(infos: Infos, p: seq<string>) {
    forall i: nat {:trigger Rises(infos, p, i)} :: Rises(infos, p, i)
  }

  /** The name lies at the end of a path of dependences up from a seed. */
  ghost predicate RisesFromSeed(infos: Infos, name: string) {
    exists p :: PathFromSeed(infos, p, name)
  }

  ghost predicate PathFromSeed(infos: Infos, p: seq<string>, name: string) {
    Path(infos, p) && |p| > 0 && Seed(infos, p[0]) && p[|p| - 1] == name
  }

  lemma SeedRises(infos: Infos, d: string)
    requires Seed(infos, d)
    ensures RisesFromSeed(infos, d)
  {
    assert forall i: nat :: Rises(infos, [d], i);
    assert PathFromSeed(infos, [d], d);
  }

  lemma DependentRises(infos: Infos, a: string, b: string)
    requires RisesFromSeed(infos, b) && DependsOn(infos, a, b)
    ensures RisesFromSeed(infos, a)
  {
    var p :| PathFromSeed(infos, p, b);
    var q := p + [a];
    forall i: nat
      ensures Rises(infos, q, i)
    {
      if i + 1 < |p| { assert Rises(infos, p, i); }
    }
    assert PathFromSeed(infos, q, a);
  }

  lemma {:induction false} PathIsRemoved(infos: Infos, names: set<string>, p: seq<string>, i: nat)
    requires HasSeeds(infos, names) && Closed(infos, names) && Path(infos, p) && i < |p| && Seed(infos, p[0])
    ensures p[i] in names
    decreases i
  {
    if i > 0 {
      PathIsRemoved(infos, names, p, i - 1);
      assert Rises(infos, p, i - 1);
    }
  }

  /** A name is removed exactly when it lies on a path of dependences up from a seed. */
  lemma RemovedIffRises(infos: Infos, names: set<string>, name: string)
    requires Removal(infos, names)
    ensures name in names <==> RisesFromSeed(infos, name)
  {
    RisenIsClosed(infos);
    assert names <= Risen(infos);
    if RisesFromSeed(infos, name) {
      var p :| PathFromSeed(infos, p, name);
      PathIsRemoved(infos, names, p, |p| - 1);
    }
  }

  ghost function Risen(infos: Infos): set<string> {
    set x | x in infos.Keys + DependedOn(infos) && RisesFromSeed(infos, x)
  }

  lemma RisenIsClosed(infos: Infos)
    ensures HasSeeds(infos, Risen(infos)) && Closed(infos, Risen(infos))
  {
    var risen := Risen(infos);
    forall d | Seed(infos, d)
      ensures d in risen
    {
      SeedRises(infos, d);
    }
    forall a, b | b in risen && DependsOn(infos, a, b)
      ensures a in risen
    {
      DependentRises(infos, a, b);
    }
  }

  /** The survivors agree with all their declared ranges exactly when every incompatible plugin that nothing depends on
      lies on a path of dependences up from a seed. */
  lemma SurvivorsCompatibleIff(infos: Infos, names: set<string>)
    requires Removal(infos, names)
    ensures (forall a, b :: a in infos && a !in names ==> !OutOfRange(infos, a, b)) <==>
            (forall a, b :: a !in DependedOn(infos) && OutOfRange(infos, a, b) ==> RisesFromSeed(infos, a))
  {
    forall a
      ensures a in names <==> RisesFromSeed(infos, a)
    {
      RemovedIffRises(infos, names, a);
    }
    forall a, b | OutOfRange(infos, a, b) && a in DependedOn(infos)
      ensures a in names
    {
      assert Seed(infos, a);
    }
  }

  // ---- In terms of the descriptors ----

  /** The name is installed with a version, and all the dependences it declares that are installed are within the
      versions it declares for them. */
  ghost predicate Satisfied(infos: Infos, d: string) {
    && d in infos && infos[d].version != 0
    && forall b :: b in infos[d].deps && b in infos ==> infos[d].deps[b].0 <= infos[b].version <= infos[d].deps[b].1
  }

  lemma SeedIff(infos: Infos, d: string)
    ensures Seed(infos, d) <==> (exists a :: a in infos && d in infos[a].deps) && !Satisfied(infos, d)
  {
    if d in DependedOn(infos) && d in infos && infos[d].version != 0 && !Satisfied(infos, d) {
      var b :| b in infos[d].deps && b in infos
        && !(infos[d].deps[b].0 <= infos[b].version <= infos[d].deps[b].1);
      assert OutOfRange(infos, d, b);
    }
    if b :| OutOfRange(infos, d, b) { assert !Satisfied(infos, d); }
  }

  /** All the dependences it declares are installed, too. */
  ghost predicate FullySatisfied(infos: Infos, d: string) {
    && d in infos && infos[d].version != 0
    && forall b :: b in infos[d].deps ==> b in infos && infos[d].deps[b].0 <= infos[b].version <= infos[d].deps[b].1
  }

  /** Nothing is removed exactly when every name something depends on is installed with a version, and every dependence
      it declares is within the versions it declares for it. */
  lemma NothingRemovedIff(infos: Infos)
    ensures Removal(infos, {}) <==> forall a, d :: a in infos && d in infos[a].deps ==> FullySatisfied(infos, d)
  {
    forall d
      ensures Seed(infos, d) <==> (exists a :: a in infos && d in infos[a].deps) && !Satisfied(infos, d)
    {
      SeedIff(infos, d);
    }
    if Removal(infos, {}) {
      forall a, d | a in infos && d in infos[a].deps
        ensures FullySatisfied(infos, d)
      {
        assert Satisfied(infos, d);
        assert forall b | b in infos[d].deps :: !Seed(infos, b);
      }
    } else {
      var d :| Seed(infos, d);
      var a :| a in infos && d in infos[a].deps;
      assert !FullySatisfied(infos, d);
    }
  }

  /** A plugin survives exactly when every name its dependences lead down to, itself included when something depends on
      it, is installed with a version and within range of its own dependences. */
  lemma SurvivesIff(infos: Infos, names: set<string>, name: string)
    requires Removal(infos, names)
    ensures name !in names <==> Supported(infos, name)
  {
    RemovedIffRises(infos, names, name);
    if p :| LeadsDown(infos, p, name) && !Satisfied(infos, p[0]) {
      if |p| > 1 { assert Rises(infos, p, 0) && p[1] in infos && p[0] in infos[p[1]].deps; }
      SeedIff(infos, p[0]);
      assert PathFromSeed(infos, p, name);
    } else if RisesFromSeed(infos, name) {
      var p :| PathFromSeed(infos, p, name);
      SeedIff(infos, p[0]);
      assert LeadsDown(infos, p, name);
    }
  }

  ghost predicate Supported(infos: Infos, name: string) {
    forall p :: LeadsDown(infos, p, name) ==> Satisfied(infos, p[0])
  }

  /** The dependences of a name lead down to the first name of the path; to itself only if something depends on it. */
  ghost predicate LeadsDown(infos: Infos, p: seq<string>, name: string) {
    Path(infos, p) && |p| > 0 && p[|p| - 1] == name && (|p| == 1 ==> exists a :: a in infos && name in infos[a].deps)
  }

  // ---- The cascade ----

  /** The plugins that depend on `name` themselves. */
  function Above(infos: Infos, name: string): (above: set<string>)
    ensures forall a :: a in above <==> DependsOn(infos, a, name)
  {
    set a | a in infos && name in infos[a].deps
  }

  /** The recursion from `name` to what depends on it ends within `depth` levels. */
  ghost predicate Unwinds(infos: Infos, name: string, depth: nat)
    decreases depth
  {
    depth > 0 && forall a <- Above(infos, name) :: Unwinds(infos, a, depth - 1)
  }

  ghost predicate Terminates(infos: Infos, name: string) {
    exists depth: nat :: Unwinds(infos, name, depth)
  }

  /** `name` and all that depends on it, directly or not. */
  ghost function Upward(infos: Infos, name: string, depth: nat): set<string>
    requires Unwinds(infos, name, depth)
    decreases depth, 0
  {
    {name} + UpwardFrom(infos, Above(infos, name), depth - 1)
  }

  ghost function UpwardFrom(infos: Infos, names: set<string>, depth: nat): set<string>
    requires forall a <- names :: Unwinds(infos, a, depth)
    decreases depth, 1
  {
    set a, x | a in names && x in Upward(infos, a, depth) :: x
  }

  lemma {:induction false} UpwardIsClosed(infos: Infos, name: string, depth: nat)
    requires Unwinds(infos, name, depth)
    ensures name in Upward(infos, name, depth) && Closed(infos, Upward(infos, name, depth))
    ensures forall b :: b in Upward(infos, name, depth) ==> Terminates(infos, b)
    decreases depth
  {
    forall a | a in Above(infos, name)
      ensures a in Upward(infos, a, depth - 1) && Closed(infos, Upward(infos, a, depth - 1))
      ensures forall b :: b in Upward(infos, a, depth - 1) ==> Terminates(infos, b)
    {
      UpwardIsClosed(infos, a, depth - 1);
    }
  }

  lemma {:induction false} UpwardIsLeast(infos: Infos, name: string, depth: nat, more: set<string>)
    requires Unwinds(infos, name, depth) && name in more && Closed(infos, more)
    ensures Upward(infos, name, depth) <= more
    decreases depth
  {
    forall a | a in Above(infos, name)
      ensures Upward(infos, a, depth - 1) <= more
    {
      UpwardIsLeast(infos, a, depth - 1, more);
    }
  }

  /** Going from `name` to what depends on it, one can come to some name twice. */
  ghost predicate MeetsCycle(infos: Infos, name: string) {
    exists p: seq<string>, i: nat, j: nat ::
      Path(infos, p) && |p| > 0 && p[0] == name && i < j < |p| && p[i] == p[j]
  }

  lemma {:induction false} NoWayBack(infos: Infos, p: seq<string>, depth: nat)
    requires Path(infos, p) && |p| > 1 && p[0] == p[|p| - 1] && Unwinds(infos, p[0], depth)
    ensures false
    decreases depth
  {
    assert Rises(infos, p, 0) && p[1] in Above(infos, p[0]);
    var q := p[1..] + [p[1]];
    forall i: nat
      ensures Rises(infos, q, i)
    {
      assert Rises(infos, p, i + 1);
    }
    NoWayBack(infos, q, depth - 1);
  }

  lemma {:induction false} UnwindsAlong(infos: Infos, p: seq<string>, i: nat, depth: nat)
    requires Path(infos, p) && i < |p| && Unwinds(infos, p[0], depth)
    ensures i < depth && Unwinds(infos, p[i], depth - i)
    decreases i
  {
    if i > 0 {
      UnwindsAlong(infos, p, i - 1, depth);
      assert Rises(infos, p, i - 1) && p[i] in Above(infos, p[i - 1]);
    }
  }

  lemma {:induction false} LongPath(infos: Infos, name: string, depth: nat) returns (p: seq<string>)
    requires !Unwinds(infos, name, depth)
    ensures |p| == depth + 1 && p[0] == name && Path(infos, p)
    decreases depth
  {
    if depth == 0 {
      p := [name];
    } else {
      var a :| a in Above(infos, name) && !Unwinds(infos, a, depth - 1);
      var rest := LongPath(infos, a, depth - 1);
      p := [name] + rest;
      forall i: nat
        ensures Rises(infos, p, i)
      {
        if i > 0 { assert Rises(infos, rest, i - 1); }
      }
    }
  }

  lemma {:induction false} Pigeonhole(s: seq<string>, names: set<string>) returns (i: nat, j: nat)
    requires (forall x <- s :: x in names) && |s| > |names|
    ensures i < j < |s| && s[i] == s[j]
    decreases |s|
  {
    var last, init := s[|s| - 1], s[..|s| - 1];
    if last in init {
      i :| i < |init| && init[i] == last;
      j := |init|;
    } else {
      i, j := Pigeonhole(init, names - {last});
    }
  }

  /** The cascade from a name, which remembers no visited names, ends exactly when no cycle is met on the way up. */
  lemma TerminatesIff(infos: Infos, name: string)
    ensures Terminates(infos, name) <==> !MeetsCycle(infos, name)
  {
    if Terminates(infos, name) && MeetsCycle(infos, name) {
      var depth: nat :| Unwinds(infos, name, depth);
      var p: seq<string>, i: nat, j: nat :| Path(infos, p) && |p| > 0 && p[0] == name && i < j < |p| && p[i] == p[j];
      UnwindsAlong(infos, p, i, depth);
      var q := p[i..j + 1];
      forall k: nat
        ensures Rises(infos, q, k)
      {
        assert Rises(infos, p, i + k);
      }
      NoWayBack(infos, q, depth - i);
    }
    if !Terminates(infos, name) {
      var n := |infos.Keys| + 1;
      assert !Unwinds(infos, name, n);
      var p := LongPath(infos, name, n);
      forall x | x in p[1..]
        ensures x in infos.Keys
      {
        var k :| 0 <= k < |p[1..]| && p[1..][k] == x;
        assert Rises(infos, p, k);
      }
      var i, j := Pigeonhole(p[1..], infos.Keys);
      assert p[i + 1] == p[j + 1];
    }
  }

  /** Whatever depends on a name the cascade ends from, it ends from. */
  lemma TerminatesUpward(infos: Infos, a: string, b: string)
    requires Terminates(infos, b) && DependsOn(infos, a, b)
    ensures Terminates(infos, a)
  {
    assert a in Above(infos, b);
    var depth: nat :| Unwinds(infos, b, depth);
    assert Unwinds(infos, a, depth - 1);
  }
}
