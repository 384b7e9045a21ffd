/** Resolution of plugin dependences, in the order of hash maps nobody controls. */
module PluginsManagement {
  import opened PluginDependences

  type Flags = map<string, bool>

  function Marked(remove: Flags): set<string> {
    set k | k in remove && remove[k]
  }

  /** A missing flag reads as false. */
  predicate Get(remove: Flags, name: string) {
    name in remove && remove[name]
  }

  /** `dependsOn` lists, under each name, the plugins that depend on it, for the pairs in question. */
  ghost predicate Lists(dependsOn: map<string, seq<string>>, pairs: set<(string, string)>) {
    && (forall b <- dependsOn :: dependsOn[b] != [])
    && (forall a, b :: (b in dependsOn && a in dependsOn[b]) <==> (a, b) in pairs)
  }

  ghost function Pairs(infos: Infos, names: set<string>): set<(string, string)> {
    set a, b | a in names && a in infos && b in infos[a].deps :: (a, b)
  }

  function Names(s: seq<string>): set<string> {
    set a | a in s
  }

  lemma Dependents(infos: Infos, dependsOn: map<string, seq<string>>, name: string)
    requires Lists(dependsOn, Pairs(infos, infos.Keys))
    ensures Above(infos, name) == if name in dependsOn then Names(dependsOn[name]) else {}
  {
    assert forall a :: DependsOn(infos, a, name) <==> (a, name) in Pairs(infos, infos.Keys);
  }

  ghost function PairsOf(name: string, names: set<string>): set<(string, string)> {
    set b | b in names :: (name, b)
  }

  lemma OneMore(dependsOn: map<string, seq<string>>, b: string, a: string, pairs: set<(string, string)>)
    requires Lists(dependsOn, pairs)
    ensures Lists(dependsOn[b := [a] + if b in dependsOn then dependsOn[b] else []], pairs + {(a, b)})
  {
  }

  lemma DependedOnKeys(infos: Infos, dependsOn: map<string, seq<string>>)
    requires Lists(dependsOn, Pairs(infos, infos.Keys))
    ensures dependsOn.Keys == DependedOn(infos)
  {
    forall b
      ensures b in dependsOn <==> b in DependedOn(infos)
    {
      if b in dependsOn {
        assert dependsOn[b][0] in dependsOn[b];
        assert (dependsOn[b][0], b) in Pairs(infos, infos.Keys);
      }
      if b in DependedOn(infos) {
        var a :| a in infos && b in infos[a].deps;
        assert (a, b) in Pairs(infos, infos.Keys);
      }
    }
  }

  /** What holds of the marked names while the second loop has looked at the names in `done`. */
  ghost predicate Sofar(infos: Infos, marked: set<string>, done: set<string>) {
    && Closed(infos, marked)
    && (forall d :: d in done && Seed(infos, d) ==> d in marked)
    && (forall b <- marked :: Terminates(infos, b))
    && forall more :: HasSeeds(infos, more) && Closed(infos, more) ==> marked <= more
  }

  lemma CascadeKeeps(infos: Infos, marked: set<string>, done: set<string>, name: string, depth: nat)
    requires Sofar(infos, marked, done) && Unwinds(infos, name, depth)
    requires forall more :: HasSeeds(infos, more) && Closed(infos, more) ==> name in more
    ensures Sofar(infos, marked + Upward(infos, name, depth), done + {name})
  {
    UpwardIsClosed(infos, name, depth);
    forall more | HasSeeds(infos, more) && Closed(infos, more)
      ensures Upward(infos, name, depth) <= more
    {
      UpwardIsLeast(infos, name, depth, more);
    }
  }

  lemma SeedsTerminate(infos: Infos)
    requires forall d :: Seed(infos, d) ==> !MeetsCycle(infos, d)
    ensures forall d :: Seed(infos, d) ==> Terminates(infos, d)
  {
    forall d | Seed(infos, d)
      ensures Terminates(infos, d)
    {
      TerminatesIff(infos, d);
    }
  }

  /** If no plugin goes, nothing was to be removed at all. */
  lemma KeptAllIff(infos: Infos, names: set<string>)
    requires Removal(infos, names)
    ensures infos - names == infos <==>
      forall a, d :: a in infos && d in infos[a].deps ==> FullySatisfied(infos, d)
  {
    NothingRemovedIff(infos);
    if Removal(infos, {}) {
      RemovalIsUnique(infos, names, {});
    } else {
      var d :| Seed(infos, d);
      SeedIff(infos, d);
      var a :| a in infos && d in infos[a].deps;
      assert DependsOn(infos, a, d) && a in names;
    }
  }

  lemma SurvivorsAreSupported(infos: Infos, names: set<string>)
    requires Removal(infos, names)
    ensures forall name :: name in infos - names <==> name in infos && Supported(infos, name)
  {
    forall name
      ensures name !in names <==> Supported(infos, name)
    {
      SurvivesIff(infos, names, name);
    }
  }

  class PluginsManager {
    var pluginsInfos: Infos

    constructor (infos: Infos)
      ensures pluginsInfos == infos
    {
      pluginsInfos := infos;
    }

    /** recursiveDependencesFallDown: marks a name and everything that depends on it. */
    static method FallDown(name: string, remove: Flags, dependsOn: map<string, seq<string>>,
                           ghost infos: Infos, ghost depth: nat) returns (marked: Flags)
      requires Lists(dependsOn, Pairs(infos, infos.Keys)) && Unwinds(infos, name, depth)
      ensures Marked(marked) == Marked(remove) + Upward(infos, name, depth)
      decreases depth
    {
      marked := remove[name := true];
      assert Marked(marked) == Marked(remove) + {name};
      Dependents(infos, dependsOn, name);
      if name !in dependsOn || dependsOn[name] == [] {
        return;
      }
      var dependsList := dependsOn[name];
      ghost var above: set<string> := {};
      assert forall a <- dependsList :: a in Above(infos, name);
      for i := 0 to |dependsList|
        invariant Names(dependsList[..i]) <= Above(infos, name)
        invariant Marked(marked) == Marked(remove) + {name} + UpwardFrom(infos, Names(dependsList[..i]), depth - 1)
      {
        assert dependsList[i] in Above(infos, name);
        marked := FallDown(dependsList[i], marked, dependsOn, infos, depth - 1);
        MoreAbove(infos, dependsList, i, depth - 1);
      }
      assert dependsList[..|dependsList|] == dependsList;
    }

    static lemma MoreAbove(infos: Infos, list: seq<string>, i: nat, depth: nat)
      requires i < |list| && forall a <- list :: Unwinds(infos, a, depth)
      ensures Names(list[..i + 1]) == Names(list[..i]) + {list[i]}
      ensures forall a <- Names(list[..i + 1]) :: Unwinds(infos, a, depth)
      ensures UpwardFrom(infos, Names(list[..i + 1]), depth)
           == UpwardFrom(infos, Names(list[..i]), depth) + Upward(infos, list[i], depth)
    {
    }

    /** The first loop of `load`: who depends on whom, and a false flag for every plugin fit for this server. */
    method ReadDependences(msVersion: int) returns (dependsOn: map<string, seq<string>>, remove: Flags)
      ensures Lists(dependsOn, Pairs(pluginsInfos, pluginsInfos.Keys))
      ensures Marked(remove) == {}
    {
      dependsOn, remove := map[], map[];
      var todo := pluginsInfos.Keys;
      while todo != {}
        invariant todo <= pluginsInfos.Keys && Marked(remove) == {}
        invariant Lists(dependsOn, Pairs(pluginsInfos, pluginsInfos.Keys - todo))
        decreases |todo|
      {
        var name :| name in todo;
        var pinfo := pluginsInfos[name];
        if !(msVersion < pinfo.msMinVersion || msVersion > pinfo.msMaxVersion) {
          remove := remove[name := false];
        }
        dependsOn := ReadPlugin(name, pinfo, dependsOn, Pairs(pluginsInfos, pluginsInfos.Keys - todo));
        assert Pairs(pluginsInfos, pluginsInfos.Keys - (todo - {name}))
            == Pairs(pluginsInfos, pluginsInfos.Keys - todo) + PairsOf(name, pinfo.deps.Keys);
        todo := todo - {name};
      }
      assert pluginsInfos.Keys - todo == pluginsInfos.Keys;
    }

    method ReadPlugin(name: string, pinfo: PluginInfo, before: map<string, seq<string>>,
                      ghost pairs: set<(string, string)>)
      returns (dependsOn: map<string, seq<string>>)
      requires Lists(before, pairs)
      ensures Lists(dependsOn, pairs + PairsOf(name, pinfo.deps.Keys))
    {
      dependsOn := before;
      var todo := pinfo.deps.Keys;
      assert pairs + PairsOf(name, {}) == pairs;
      while todo != {}
        invariant todo <= pinfo.deps.Keys
        invariant Lists(dependsOn, pairs + PairsOf(name, pinfo.deps.Keys - todo))
        decreases |todo|
      {
        var dname :| dname in todo;
        var deps := if dname in dependsOn then dependsOn[dname] else [];
        ghost var earlier := dependsOn;
        dependsOn := dependsOn[dname := [name] + deps];
        OneMore(earlier, dname, name, pairs + PairsOf(name, pinfo.deps.Keys - todo));
        assert pairs + PairsOf(name, pinfo.deps.Keys - (todo - {dname}))
            == pairs + PairsOf(name, pinfo.deps.Keys - todo) + {(name, dname)};
        todo := todo - {dname};
      }
      assert pinfo.deps.Keys - todo == pinfo.deps.Keys;
    }

    /** `load`, up to the start of the plugins that are left. It returns for every order of its iterations, because no
        cycle lies above a seed. */
    method Load(msVersion: int)
      requires forall d :: Seed(pluginsInfos, d) ==> !MeetsCycle(pluginsInfos, d)
      modifies this
      ensures exists names :: Removal(old(pluginsInfos), names) && pluginsInfos == old(pluginsInfos) - names
      ensures forall name :: name in pluginsInfos <==> name in old(pluginsInfos) && Supported(old(pluginsInfos), name)
      ensures pluginsInfos == old(pluginsInfos) <==> forall a, d ::
        a in old(pluginsInfos) && d in old(pluginsInfos)[a].deps ==> FullySatisfied(old(pluginsInfos), d)
    {
      ghost var infos := pluginsInfos;
      var dependsOn, remove := ReadDependences(msVersion);
      SeedsTerminate(infos);
      DependedOnKeys(infos, dependsOn);
      var todo := dependsOn.Keys;
      while todo != {}
        invariant todo <= dependsOn.Keys && pluginsInfos == infos
        invariant Sofar(infos, Marked(remove), dependsOn.Keys - todo)
        decreases |todo|
      {
        var dname :| dname in todo;
        remove := LoadOne(dname, remove, dependsOn, dependsOn.Keys - todo);
        assert dependsOn.Keys - (todo - {dname}) == dependsOn.Keys - todo + {dname};
        todo := todo - {dname};
      }
      assert dependsOn.Keys - todo == DependedOn(infos);
      assert Removal(infos, Marked(remove));
      KeptAllIff(infos, Marked(remove));
      SurvivorsAreSupported(infos, Marked(remove));
      RemoveMarked(remove);
    }

    method RemoveMarked(remove: Flags)
      modifies this
      ensures pluginsInfos == old(pluginsInfos) - Marked(remove)
    {
      var todo := remove.Keys;
      while todo != {}
        invariant todo <= remove.Keys && pluginsInfos == old(pluginsInfos) - (Marked(remove) - todo)
        decreases |todo|
      {
        var name :| name in todo;
        if remove[name] { RemovePlugin(name); }
        todo := todo - {name};
      }
      assert Marked(remove) - todo == Marked(remove);
    }

    method RemovePlugin(name: string)
      modifies this
      ensures pluginsInfos == old(pluginsInfos) - {name}
    {
      pluginsInfos := pluginsInfos - {name};
    }

    static method Cascade(name: string, remove: Flags, dependsOn: map<string, seq<string>>,
                          ghost infos: Infos, ghost before: Flags, ghost done: set<string>) returns (marked: Flags)
      requires Lists(dependsOn, Pairs(infos, infos.Keys)) && Terminates(infos, name)
      requires Marked(before) <= Marked(remove) <= Marked(before) + {name} && Sofar(infos, Marked(before), done)
      requires forall more :: HasSeeds(infos, more) && Closed(infos, more) ==> name in more
      ensures Sofar(infos, Marked(marked), done + {name})
    {
      ghost var depth: nat :| Unwinds(infos, name, depth);
      marked := FallDown(name, remove, dependsOn, infos, depth);
      CascadeKeeps(infos, Marked(before), done, name, depth);
      UpwardIsClosed(infos, name, depth);
      assert Marked(marked) == Marked(before) + Upward(infos, name, depth);
    }

    /** The body of the second loop, for one name something depends on. */
    method LoadOne(dname: string, before: Flags, dependsOn: map<string, seq<string>>, ghost done: set<string>)
      returns (remove: Flags)
      requires Lists(dependsOn, Pairs(pluginsInfos, pluginsInfos.Keys)) && dname in dependsOn
      requires dependsOn.Keys == DependedOn(pluginsInfos)
      requires forall d :: Seed(pluginsInfos, d) ==> Terminates(pluginsInfos, d)
      requires Sofar(pluginsInfos, Marked(before), done)
      ensures Sofar(pluginsInfos, Marked(remove), done + {dname})
    {
      remove := before;
      if dname !in pluginsInfos || pluginsInfos[dname].version == 0 {
        remove := remove[dname := true];
        assert Marked(remove) == Marked(before) + {dname};
        assert Seed(pluginsInfos, dname);
      }
      if Get(remove, dname) {
        remove := Cascade(dname, remove, dependsOn, pluginsInfos, before, done);
        return;
      }
      var todo := pluginsInfos[dname].deps.Keys;
      while todo != {}
        invariant todo <= pluginsInfos[dname].deps.Keys
        invariant forall b :: b in pluginsInfos[dname].deps && b !in todo ==> !OutOfRange(pluginsInfos, dname, b)
        decreases |todo|
      {
        var depN :| depN in todo;
        assert DependsOn(pluginsInfos, dname, depN) && depN in DependedOn(pluginsInfos);
        if depN !in pluginsInfos || Get(remove, depN) {
          if depN !in pluginsInfos { assert Seed(pluginsInfos, depN); TerminatesUpward(pluginsInfos, dname, depN); }
          remove := Cascade(dname, remove, dependsOn, pluginsInfos, before, done);
          return;
        }
        var pdep := pluginsInfos[dname].deps[depN];
        if pluginsInfos[depN].version < pdep.0 || pluginsInfos[depN].version > pdep.1 {
          assert OutOfRange(pluginsInfos, dname, depN);
          assert Seed(pluginsInfos, dname);
          remove := Cascade(dname, remove, dependsOn, pluginsInfos, before, done);
          return;
        }
        todo := todo - {depN};
      }
      assert !Seed(pluginsInfos, dname);
    }
  }
}
