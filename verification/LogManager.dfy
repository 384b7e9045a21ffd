/** The log manager: the methods that keep the registry. */
module LogManagement {
  import opened Wrappers
  import opened Sequences
  import opened LogRegistry

  class LogManager {
    var logStreams: map<string, StreamId>
    var logStreamOwners: map<string, seq<Owner>>
    var owners: map<Owner, Types>
    /** The streams that were deleted, in order. */
    var deleted: seq<StreamId>

    function State(): Registry
      reads this
    {
      Registry(logStreams, logStreamOwners, owners)
    }

    constructor ()
      ensures State() == Registry(map[], map[], map[]) && Coherent(State()) && deleted == []
    {
      logStreams, logStreamOwners, owners, deleted := map[], map[], map[], [];
      new;
      assert forall o, l :: !Uses(State(), o, l);
      assert forall o, t, l :: !Owns(State(), o, t, l);
    }

    // ---- Queries; a subscript of a map enters an empty value when there is none ----

    predicate ContainsOwner(o: Owner)
      reads this
    {
      o in owners
    }

    method ContainsLocation(l: string) returns (r: bool)
      requires Coherent(State())
      modifies this`logStreamOwners
      ensures State() == old(State()) && (r <==> l in logStreams)
    {
      if l !in logStreams { return false; }
      logStreamOwners := logStreamOwners[l := SharersOf(State(), l)];
      assert State() == old(State());
      r := logStreamOwners[l] != [];
    }

    method ContainsType(o: Owner, t: string) returns (r: bool)
      modifies this`owners
      ensures State() == WithOwner(old(State()), o) && (r <==> t in TypesOf(old(State()), o))
    {
      owners := owners[o := TypesOf(State(), o)];
      assert State() == WithOwner(old(State()), o);
      r := t in owners[o];
    }

    method ContainsTuple(o: Owner, t: string, l: string) returns (r: bool)
      requires Coherent(State())
      modifies this`owners, this`logStreamOwners
      ensures State() == WithType(old(State()), o, t) && (r <==> Owns(old(State()), o, t, l))
    {
      assert Owns(State(), o, t, l) ==> Uses(State(), o, l);
      owners := owners[o := TypesOf(State(), o)[t := LocationsOf(State(), o, t)]];
      if l !in owners[o][t] { return false; }
      assert Owns(old(State()), o, t, l);
      logStreamOwners := logStreamOwners[l := SharersOf(State(), l)];
      assert logStreamOwners == old(logStreamOwners);
      r := o in logStreamOwners[l];
    }

    // ---- Adding ----

    method AddOwner(o: Owner) returns (failure: bool)
      modifies this`owners
      ensures failure <==> o == NULL
      ensures State() == if failure then old(State()) else WithOwner(old(State()), o)
    {
      failure := true;
      if o != NULL {
        if !ContainsOwner(o) { owners := owners[o := map[]]; }
        failure := false;
      }
    }

    method AddType(o: Owner, t: string) returns (failure: bool)
      modifies this`owners
      ensures failure <==> t == ""
      ensures State() == if failure then old(State()) else WithType(old(State()), o, t)
    {
      failure := true;
      if t != "" {
        ghost var types := TypesOf(State(), o);
        var present := ContainsType(o, t);
        assert owners[o] == types;
        if !present {
          owners := owners[o := owners[o][t := map[]]];
        } else {
          assert types[t := types[t]] == types;
        }
        failure := false;
        assert owners == old(owners)[o := types[t := LocationsOf(old(State()), o, t)]];
      }
    }

    method AddStream(o: Owner, t: string, l: string, ls: StreamId) returns (failure: bool)
      requires Coherent(State()) && o in owners && t in owners[o] && (l in logStreams ==> ls == logStreams[l])
      modifies this`owners, this`logStreams, this`logStreamOwners
      ensures !failure && State() == Entered(old(State()), o, t, l, ls)
    {
      assert l in owners[o][t] ==> Owns(State(), o, t, l);
      var known := ContainsLocation(l);
      if !known { logStreams := logStreams[l := ls]; }
      assert logStreams == old(logStreams)[l := ls];
      EnterOwner(o, t, l, ls);
      EnterSharer(o, l);
      failure := !(l in logStreams && logStreamOwners[l] != [] && l in owners[o][t] && o in logStreamOwners[l]);
    }

    method EnterOwner(o: Owner, t: string, l: string, ls: StreamId)
      requires o in owners && t in owners[o] && (l in owners[o][t] ==> owners[o][t][l] == ls)
      modifies this`owners
      ensures owners == old(owners)[o := old(owners)[o][t := old(owners)[o][t][l := ls]]]
    {
      if l !in owners[o][t] {
        owners := owners[o := owners[o][t := owners[o][t][l := ls]]];
      } else {
        assert owners[o][t][l := ls] == owners[o][t] && owners[o][t := owners[o][t]] == owners[o];
      }
    }

    method EnterSharer(o: Owner, l: string)
      modifies this`logStreamOwners
      ensures var list := SharersOf(old(State()), l);
        logStreamOwners == old(logStreamOwners)[l := list + if o in list then [] else [o]]
    {
      var list := SharersOf(State(), l);
      logStreamOwners := logStreamOwners[l := list];
      if o !in list { logStreamOwners := logStreamOwners[l := list + [o]]; }
      assert logStreamOwners[l] == list + if o in list then [] else [o];
    }

    /** The three helpers in turn, until one fails. */
    method AddAll(o: Owner, t: string, l: string, ls: StreamId) returns (failure: bool)
      requires Coherent(State()) && (l in logStreams ==> ls == logStreams[l])
      modifies this`owners, this`logStreams, this`logStreamOwners
      ensures failure <==> o == NULL || t == ""
      ensures State() == if o == NULL then old(State()) else if t == "" then WithOwner(old(State()), o)
                         else Entered(old(State()), o, t, l, ls)
    {
      failure := AddOwner(o);
      if failure { return; }
      WithOwnerCoherent(old(State()), o);
      failure := AddTyped(o, t, l, ls);
      if !failure { EnteredAfterOwner(old(State()), o, t, l, ls); }
    }

    method AddTyped(o: Owner, t: string, l: string, ls: StreamId) returns (failure: bool)
      requires Coherent(State()) && (l in logStreams ==> ls == logStreams[l])
      modifies this`owners, this`logStreams, this`logStreamOwners
      ensures failure <==> t == ""
      ensures State() == if t == "" then old(State()) else Entered(old(State()), o, t, l, ls)
    {
      failure := AddType(o, t);
      if failure { return; }
      WithTypeCoherent(old(State()), o, t);
      failure := AddStream(o, t, l, ls);
      EnteredAfterType(old(State()), o, t, l, ls);
    }

    /** `add`: the factory has made the stream `created` if the location is not known, or none. */
    method Add(o: Owner, t: string, l: string, created: Option<StreamId>) returns (failure: bool)
      requires Coherent(State()) && New(State(), created)
      modifies this`owners, this`logStreams, this`logStreamOwners
      ensures failure <==> !Adds(old(State()), o, t, l, created)
      ensures State() == AfterAdd(old(State()), o, t, l, created) && Coherent(State())
    {
      failure := true;
      AddCoherent(State(), o, t, l, created);
      var known := ContainsLocation(l);
      if !known {
        if created.Some? { failure := AddAll(o, t, l, created.value); }
        return;
      }
      if !ContainsOwner(o) {
        failure := AddAll(o, t, l, logStreams[l]);
      } else {
        var present := ContainsType(o, t);
        if !present { failure := AddTyped(o, t, l, logStreams[l]); }
      }
    }

    // ---- Removing ----

    /** The locations an owner has under any of its types. */
    method Locations(o: Owner) returns (toRemove: set<string>)
      requires o in owners
      ensures forall l :: l in toRemove <==> Listed(owners[o], l)
    {
      toRemove := {};
      var types := owners[o].Keys;
      while types != {}
        invariant types <= owners[o].Keys
        invariant forall l :: l in toRemove <==> Listed(owners[o] - types, l)
        decreases |types|
      {
        var t :| t in types;
        ghost var before := toRemove;
        var left := owners[o][t].Keys;
        while left != {}
          invariant left <= owners[o][t].Keys
          invariant forall l :: l in toRemove <==> l in before || (l in owners[o][t] && l !in left)
          decreases |left|
        {
          var l :| l in left;
          toRemove := toRemove + {l};
          left := left - {l};
        }
        ListedMore(owners[o], types, t);
        types := types - {t};
      }
      assert owners[o] - types == owners[o];
    }

    /** One location loses an owner; without owners its stream is deleted and both its entries go. */
    method RemoveFrom(o: Owner, l: string)
      requires l in logStreams && l in logStreamOwners
      modifies this`logStreams, this`logStreamOwners, this`deleted
      ensures var list := Drop(old(logStreamOwners)[l], o);
        if list == [] then
          && logStreams == old(logStreams) - {l} && logStreamOwners == old(logStreamOwners) - {l}
          && deleted == old(deleted) + [old(logStreams)[l]]
        else
          logStreams == old(logStreams) && logStreamOwners == old(logStreamOwners)[l := list] && deleted == old(deleted)
    {
      logStreamOwners := logStreamOwners[l := Drop(logStreamOwners[l], o)];
      if |logStreamOwners[l]| == 0 {
        deleted := deleted + [logStreams[l]];
        logStreams := logStreams - {l};
        logStreamOwners := logStreamOwners - {l};
      }
    }

    /** `remove`: the owner goes, and with it exactly the streams nobody else uses, each deleted once. */
    method Remove(o: Owner) returns (failure: bool, ghost gone: seq<string>)
      requires Coherent(State())
      modifies this
      ensures failure <==> o !in old(owners)
      ensures Coherent(State()) && State() == if failure then old(State()) else AfterRemove(old(State()), o)
      ensures Distinct(gone) && forall l :: l in gone <==> !failure && Sole(old(State()), o, l)
      ensures forall l <- gone :: l in old(logStreams)
      ensures deleted == old(deleted) + StreamsAt(old(logStreams), gone)
    {
      gone := [];
      if !ContainsOwner(o) {
        return true, [];
      }
      RemoveCoherent(State(), o);
      ghost var r := State();
      var toRemove := Locations(o);
      owners := owners - {o};
      gone := RemoveFromAll(o, toRemove, r);
      failure := false;
    }

    /** The loop over the locations the owner had. */
    method RemoveFromAll(o: Owner, locations: set<string>, ghost r: Registry) returns (ghost gone: seq<string>)
      requires Coherent(r) && logStreams == r.streams && logStreamOwners == r.sharers
      requires o in r.owners && forall l :: l in locations <==> Listed(r.owners[o], l)
      modifies this`logStreams, this`logStreamOwners, this`deleted
      ensures logStreams == AfterRemove(r, o).streams && logStreamOwners == AfterRemove(r, o).sharers
      ensures Distinct(gone) && forall l :: l in gone <==> Sole(r, o, l)
      ensures forall l <- gone :: l in r.streams
      ensures deleted == old(deleted) + StreamsAt(r.streams, gone)
    {
      gone := [];
      var toRemove := locations;
      ghost var seen: set<string> := {};
      ghost var ids: seq<StreamId> := [];
      ListedIsUsed(r, o);
      while toRemove != {}
        invariant seen + toRemove == locations && seen !! toRemove
        invariant logStreams == StreamsLeft(r, o, seen) && logStreamOwners == SharersLeft(r, o, seen)
        invariant Gone(r, o, seen, gone) && ids == StreamsAt(r.streams, gone) && deleted == old(deleted) + ids
        decreases |toRemove|
      {
        var l :| l in toRemove;
        LeftStep(r, o, seen, l);
        GoneStep(r, o, seen, gone, l);
        AtMore(r.streams, gone, l);
        OneMoved(seen, toRemove, l);
        RemoveFrom(o, l);
        if Sole(r, o, l) {
          Associates(old(deleted), ids, r.streams[l]);
          gone, ids := gone + [l], ids + [r.streams[l]];
        }
        seen, toRemove := seen + {l}, toRemove - {l};
      }
      AllLeft(r, o, seen);
    }
  }

  lemma Associates(a: seq<StreamId>, b: seq<StreamId>, x: StreamId)
    ensures (a + b) + [x] == a + (b + [x])
  {
  }

  /** A location is under some type. */
  ghost predicate Listed(types: Types, l: string) {
    exists t :: t in types && l in types[t]
  }

  lemma ListedMore(all: Types, types: set<string>, t: string)
    requires t in types && types <= all.Keys
    ensures forall l :: Listed(all - (types - {t}), l) <==> Listed(all - types, l) || l in all[t]
  {
    var more, few := all - (types - {t}), all - types;
    assert t in more && more[t] == all[t] && forall u :: u in few ==> u in more && more[u] == few[u];
    assert forall u :: u in more ==> u == t || (u in few && more[u] == few[u]);
  }

  lemma ListedIsUsed(r: Registry, o: Owner)
    requires Coherent(r) && o in r.owners
    ensures forall l :: Listed(r.owners[o], l) <==> Uses(r, o, l)
  {
    forall l
      ensures Listed(r.owners[o], l) <==> Uses(r, o, l)
    {
      if Listed(r.owners[o], l) {
        var t :| t in r.owners[o] && l in r.owners[o][t];
        assert Owns(r, o, t, l);
      }
      if Uses(r, o, l) {
        var t :| Owns(r, o, t, l);
        assert t in r.owners[o] && l in r.owners[o][t];
      }
    }
  }

  lemma OneMoved(seen: set<string>, left: set<string>, l: string)
    requires l in left && seen !! left
    ensures (seen + {l}) + (left - {l}) == seen + left && (seen + {l}) !! (left - {l}) && |left - {l}| < |left|
  {
  }

  /** The locations in `seen` whose streams were deleted, each once. */
  ghost predicate Gone(r: Registry, o: Owner, seen: set<string>, gone: seq<string>) {
    Distinct(gone) && (forall l :: l in gone <==> l in seen && Sole(r, o, l)) && forall l <- gone :: l in r.streams
  }

  lemma GoneStep(r: Registry, o: Owner, seen: set<string>, gone: seq<string>, l: string)
    requires Gone(r, o, seen, gone) && l !in seen && l in r.streams
    ensures Gone(r, o, seen + {l}, if Sole(r, o, l) then gone + [l] else gone)
  {
    if Sole(r, o, l) { DistinctMore(gone, l); }
  }

  lemma DistinctMore(s: seq<string>, l: string)
    requires Distinct(s)
    ensures (forall m :: m in s + [l] <==> m in s || m == l) && (l !in s ==> Distinct(s + [l]))
  {
    var s1 := s + [l];
    forall i, j | 0 <= i < j < |s1| && l !in s
      ensures s1[i] != s1[j]
    {
      assert s1[i] == s[i] && s[i] in s;
    }
  }

  /** The streams of some locations, in order. */
  ghost function StreamsAt(streams: map<string, StreamId>, ls: seq<string>): seq<StreamId>
    requires forall l <- ls :: l in streams
  {
    if ls == [] then [] else StreamsAt(streams, ls[..|ls| - 1]) + [streams[ls[|ls| - 1]]]
  }

  lemma AtMore(streams: map<string, StreamId>, ls: seq<string>, l: string)
    requires (forall m <- ls :: m in streams) && l in streams
    ensures StreamsAt(streams, ls + [l]) == StreamsAt(streams, ls) + [streams[l]]
  {
    assert (ls + [l])[..|ls|] == ls;
  }

  /** The two maps once the locations in `seen` are dealt with. */
  ghost function StreamsLeft(r: Registry, o: Owner, seen: set<string>): map<string, StreamId> {
    map l | l in r.streams && !(l in seen && Sole(r, o, l)) :: r.streams[l]
  }

  ghost function SharersLeft(r: Registry, o: Owner, seen: set<string>): map<string, seq<Owner>> {
    map l | l in r.sharers && !(l in seen && Sole(r, o, l)) :: if l in seen then Drop(r.sharers[l], o) else r.sharers[l]
  }

  lemma LeftStep(r: Registry, o: Owner, seen: set<string>, l: string)
    requires l in r.streams && Uses(r, o, l) && l !in seen
    ensures l in StreamsLeft(r, o, seen) && StreamsLeft(r, o, seen)[l] == r.streams[l]
    ensures l in SharersLeft(r, o, seen) && SharersLeft(r, o, seen)[l] == r.sharers[l]
    ensures StreamsLeft(r, o, seen + {l}) == if Sole(r, o, l) then StreamsLeft(r, o, seen) - {l}
      else StreamsLeft(r, o, seen)
    ensures SharersLeft(r, o, seen + {l})
         == if Sole(r, o, l) then SharersLeft(r, o, seen) - {l} else SharersLeft(r, o, seen)[l := Drop(r.sharers[l], o)]
  {
  }

  lemma AllLeft(r: Registry, o: Owner, seen: set<string>)
    requires Coherent(r) && forall l :: l in seen <==> Uses(r, o, l)
    ensures StreamsLeft(r, o, seen) == AfterRemove(r, o).streams && SharersLeft(r, o, seen) == AfterRemove(r, o).sharers
  {
    forall l | l in r.sharers && l !in seen
      ensures Drop(r.sharers[l], o) == r.sharers[l]
    {
      DropIs(r.sharers[l], o);
      assert !Uses(r, o, l);
    }
    SameLeft(r, o, seen);
  }

  lemma SameLeft(r: Registry, o: Owner, seen: set<string>)
    requires forall l :: l in seen <==> Uses(r, o, l)
    requires forall l | l in r.sharers && l !in seen :: Drop(r.sharers[l], o) == r.sharers[l]
    ensures StreamsLeft(r, o, seen) == AfterRemove(r, o).streams && SharersLeft(r, o, seen) == AfterRemove(r, o).sharers
  {
  }

  lemma WithTypeCoherent(r: Registry, o: Owner, t: string)
    requires Coherent(r)
    ensures Coherent(WithType(r, o, t)) && forall o1, t1, l1 :: Owns(WithType(r, o, t), o1, t1, l1) <==>
      Owns(r, o1, t1, l1)
  {
    var r1 := WithType(r, o, t);
    assert forall o1, t1, l1 :: Owns(r1, o1, t1, l1) <==> Owns(r, o1, t1, l1);
    assert forall o1, l1 :: Uses(r1, o1, l1) <==> Uses(r, o1, l1);
  }

  lemma EnteredAfterOwner(r: Registry, o: Owner, t: string, l: string, s: StreamId)
    ensures Entered(WithOwner(r, o), o, t, l, s) == Entered(r, o, t, l, s)
  {
    assert WithOwner(r, o).owners[o := map[]] == r.owners[o := map[]];
    assert Entered(WithOwner(r, o), o, t, l, s).owners == Entered(r, o, t, l, s).owners;
  }

  lemma EnteredAfterType(r: Registry, o: Owner, t: string, l: string, s: StreamId)
    ensures Entered(WithType(r, o, t), o, t, l, s) == Entered(r, o, t, l, s)
  {
    var r1 := WithType(r, o, t);
    assert TypesOf(r1, o)[t := LocationsOf(r1, o, t)[l := s]] == TypesOf(r, o)[t := LocationsOf(r, o, t)[l := s]];
    assert Entered(r1, o, t, l, s).owners == Entered(r, o, t, l, s).owners;
  }
}
