/** The registry of log streams: three maps, by location, by location to its users, and by user. */
module LogRegistry {
  import opened Wrappers
  import opened Sequences

  type Owner = nat
  type StreamId = nat

  /** The owner pointer that is no object. */
  const NULL: Owner := 0

  type Types = map<string, map<string, StreamId>>

  /** `streams` has one stream for every location, `sharers` lists who uses it, and `owners` says what every owner has
      under which type. */
  datatype Registry = Registry(streams: map<string, StreamId>, sharers: map<string, seq<Owner>>,
                               owners: map<Owner, Types>)

  predicate Owns(r: Registry, o: Owner, t: string, l: string) {
    o in r.owners && t in r.owners[o] && l in r.owners[o][t]
  }

  predicate Uses(r: Registry, o: Owner, l: string) {
    l in r.sharers && o in r.sharers[l]
  }

  /** The three maps describe the same relation between owners, types and locations. */
  ghost predicate Coherent(r: Registry) {
    && r.streams.Keys == r.sharers.Keys
    && (forall l <- r.sharers :: r.sharers[l] != [] && Distinct(r.sharers[l]))
    && (forall o, l {:trigger Uses(r, o, l)} :: Uses(r, o, l) <==> exists t :: Owns(r, o, t, l))
    && (forall o, t, l {:trigger Owns(r, o, t, l)} :: Owns(r, o, t, l) ==>
      l in r.streams && r.owners[o][t][l] == r.streams[l])
    && (forall l, m | l in r.streams && m in r.streams && r.streams[l] == r.streams[m] :: l == m)
  }

  // ---- Adding ----

  function WithOwner(r: Registry, o: Owner): Registry {
    if o in r.owners then r else r.(owners := r.owners[o := map[]])
  }

  function TypesOf(r: Registry, o: Owner): Types {
    if o in r.owners then r.owners[o] else map[]
  }

  function LocationsOf(r: Registry, o: Owner, t: string): map<string, StreamId> {
    if t in TypesOf(r, o) then TypesOf(r, o)[t] else map[]
  }

  function SharersOf(r: Registry, l: string): seq<Owner> {
    if l in r.sharers then r.sharers[l] else []
  }

  function WithType(r: Registry, o: Owner, t: string): Registry {
    r.(owners := r.owners[o := TypesOf(r, o)[t := LocationsOf(r, o, t)]])
  }

  /** The stream is entered in all three maps. */
  function Entered(r: Registry, o: Owner, t: string, l: string, s: StreamId): Registry {
    Registry(r.streams[l := s],
             r.sharers[l := SharersOf(r, l) + if o in SharersOf(r, l) then [] else [o]],
             r.owners[o := TypesOf(r, o)[t := LocationsOf(r, o, t)[l := s]]])
  }

  /** When adding succeeds. A known location is not added to a type the owner already has, even if the type does not
      have it; and a null owner is only noticed where the owner has to be added. */
  predicate Adds(r: Registry, o: Owner, t: string, l: string, created: Option<StreamId>) {
    t != "" && if l !in r.streams then created.Some? && o != NULL else if o !in r.owners then o != NULL
      else t !in r.owners[o]
  }

  function AfterAdd(r: Registry, o: Owner, t: string, l: string, created: Option<StreamId>): Registry {
    if Adds(r, o, t, l, created) then Entered(r, o, t, l, if l in r.streams then r.streams[l] else created.value)
    else if (l in r.streams || created.Some?) && o != NULL && t == "" then WithOwner(r, o)
    else r
  }

  /** The factory makes streams that are not registered yet. */
  ghost predicate New(r: Registry, created: Option<StreamId>) {
    created.Some? ==> forall m <- r.streams :: r.streams[m] != created.value
  }

  lemma EnteredOwns(r: Registry, o: Owner, t: string, l: string, s: StreamId)
    ensures forall o1, t1, l1 :: Owns(Entered(r, o, t, l, s), o1, t1, l1) <==>
      Owns(r, o1, t1, l1) || (o1 == o && t1 == t && l1 == l)
  {
  }

  lemma EnteredUses(r: Registry, o: Owner, t: string, l: string, s: StreamId, o1: Owner, l1: string)
    requires Uses(r, o1, l1) <==> exists t1 :: Owns(r, o1, t1, l1)
    ensures Uses(Entered(r, o, t, l, s), o1, l1) <==> exists t1 :: Owns(Entered(r, o, t, l, s), o1, t1, l1)
  {
    var r1 := Entered(r, o, t, l, s);
    EnteredOwns(r, o, t, l, s);
    assert Uses(r1, o1, l1) <==> Uses(r, o1, l1) || (o1 == o && l1 == l);
    assert Owns(r1, o, t, l);
    if Uses(r, o1, l1) {
      var t1 :| Owns(r, o1, t1, l1);
      assert Owns(r1, o1, t1, l1);
    }
  }

  lemma EnteredCoherent(r: Registry, o: Owner, t: string, l: string, s: StreamId)
    requires Coherent(r) && if l in r.streams then s == r.streams[l] else forall m <- r.streams :: r.streams[m] != s
    ensures Coherent(Entered(r, o, t, l, s))
  {
    var r1 := Entered(r, o, t, l, s);
    EnteredOwns(r, o, t, l, s);
    forall o1, l1
      ensures Uses(r1, o1, l1) <==> exists t1 :: Owns(r1, o1, t1, l1)
    {
      EnteredUses(r, o, t, l, s, o1, l1);
    }
    forall o1, t1, l1 | Owns(r1, o1, t1, l1)
      ensures l1 in r1.streams && r1.owners[o1][t1][l1] == r1.streams[l1]
    {
      assert Owns(r, o1, t1, l1) || (o1 == o && t1 == t && l1 == l);
    }
  }

  lemma WithOwnerCoherent(r: Registry, o: Owner)
    requires Coherent(r)
    ensures Coherent(WithOwner(r, o)) && forall o1, t1, l1 :: Owns(WithOwner(r, o), o1, t1, l1) <==> Owns(r, o1, t1, l1)
  {
    var r1 := WithOwner(r, o);
    assert forall o1, t1, l1 :: Owns(r1, o1, t1, l1) <==> Owns(r, o1, t1, l1);
    assert forall o1, l1 :: Uses(r1, o1, l1) <==> Uses(r, o1, l1);
  }

  /** Adding keeps the maps together, and adds just that entry to the relation or nothing at all. */
  lemma AddCoherent(r: Registry, o: Owner, t: string, l: string, created: Option<StreamId>)
    requires Coherent(r) && New(r, created)
    ensures var r1 := AfterAdd(r, o, t, l, created);
      && Coherent(r1)
      && (forall o1, t1, l1 :: Owns(r1, o1, t1, l1) <==>
            Owns(r, o1, t1, l1) || (Adds(r, o, t, l, created) && o1 == o && t1 == t && l1 == l))
      && (!Adds(r, o, t, l, created) ==> r1.streams == r.streams && r1.sharers == r.sharers)
  {
    if Adds(r, o, t, l, created) {
      var s := if l in r.streams then r.streams[l] else created.value;
      EnteredCoherent(r, o, t, l, s);
      EnteredOwns(r, o, t, l, s);
    } else {
      WithOwnerCoherent(r, o);
    }
  }

  /** A tuple that is not registered yet can still be refused: its owner and type must be there already, and so must
      its location, for another tuple. With a non-null owner, a type, and a factory that makes streams, it is exactly
      then. */
  lemma AddRefusedIff(r: Registry, o: Owner, t: string, l: string, s: StreamId)
    requires Coherent(r) && o != NULL && t != "" && !Owns(r, o, t, l)
    ensures !Adds(r, o, t, l, Some(s)) <==> l in r.streams && o in r.owners && t in r.owners[o]
  {
  }

  /** In the other cases: a tuple that is there, a missing type, an unknown location the factory makes no stream for, or
      one without an owner is refused, and no stream is entered for it; with an owner, a type, and a stream where one is
      needed, everything is added whose owner is new, whose location is unknown, or whose owner has no such type. */
  lemma AddsIff(r: Registry, o: Owner, t: string, l: string, created: Option<StreamId>)
    requires Coherent(r)
    ensures Owns(r, o, t, l) ==> !Adds(r, o, t, l, created)
    ensures t == "" || (l !in r.streams && (created.None? || o == NULL)) ==> !Adds(r, o, t, l, created)
    ensures o == NULL && o !in r.owners ==> !Adds(r, o, t, l, created)
    ensures (t != "" && (l in r.streams || created.Some?) && (o != NULL || (o in r.owners && l in r.streams))
             && (o !in r.owners || l !in r.streams || t !in r.owners[o])) ==> Adds(r, o, t, l, created)
    ensures !Adds(r, o, t, l, created) ==>
      AfterAdd(r, o, t, l, created).streams == r.streams && AfterAdd(r, o, t, l, created).sharers == r.sharers
  {
  }

  /** A tuple that was added has the stream its location had, or else the one that was made for it. */
  lemma AddedStream(r: Registry, o: Owner, t: string, l: string, created: Option<StreamId>)
    requires Coherent(r) && New(r, created) && Adds(r, o, t, l, created)
    ensures var r1 := AfterAdd(r, o, t, l, created);
      && Owns(r1, o, t, l)
      && (l in r.streams ==> r1.owners[o][t][l] == r.streams[l])
      && (l !in r.streams ==> created.Some? && r1.owners[o][t][l] == created.value)
      && (forall m <- r1.streams :: m == l || (m in r.streams && r1.streams[m] == r.streams[m]))
  {
    AddCoherent(r, o, t, l, created);
  }

  /** For one: the second of two types of an owner cannot be given the location of the first any more. */
  lemma KnownLocationRefused(s: StreamId, s1: StreamId)
    requires s != s1
    ensures var r := AfterAdd(AfterAdd(Registry(map[], map[], map[]), 1, "a", "x", Some(s)), 1, "b", "y", Some(s1));
      Coherent(r) && !Owns(r, 1, "b", "x") && !Adds(r, 1, "b", "x", Some(s))
  {
    var r0 := Registry(map[], map[], map[]);
    var r1 := AfterAdd(r0, 1, "a", "x", Some(s));
    assert forall o, l :: !Uses(r0, o, l);
    assert forall o, t, l :: !Owns(r0, o, t, l);
    AddCoherent(r0, 1, "a", "x", Some(s));
    AddCoherent(r1, 1, "b", "y", Some(s1));
  }

  // ---- Removing ----

  function Drop(s: seq<Owner>, o: Owner): seq<Owner> {
    if s == [] then [] else (if s[0] == o then [] else [s[0]]) + Drop(s[1..], o)
  }

  lemma {:induction false} DropIs(s: seq<Owner>, o: Owner)
    ensures forall x :: x in Drop(s, o) <==> x in s && x != o
    ensures Distinct(s) ==> Distinct(Drop(s, o))
    ensures o !in s ==> Drop(s, o) == s
  {
    if s != [] {
      DropIs(s[1..], o);
      assert s == [s[0]] + s[1..];
      var d := Drop(s[1..], o);
      if Distinct(s) {
        assert s[0] !in s[1..] && Distinct(s[1..]);
        assert Distinct([s[0]] + d);
      }
    }
  }

  /** The locations only `o` uses. */
  ghost predicate Sole(r: Registry, o: Owner, l: string) {
    Uses(r, o, l) && Drop(r.sharers[l], o) == []
  }

  /** An owner is the only one exactly when it has the location under some type, and nobody else has. */
  lemma SoleIff(r: Registry, o: Owner, l: string)
    requires Coherent(r)
    ensures Sole(r, o, l) <==> (exists t :: Owns(r, o, t, l)) && forall o1, t :: Owns(r, o1, t, l) ==> o1 == o
  {
    if Uses(r, o, l) {
      var users := r.sharers[l];
      DropIs(users, o);
      if Drop(users, o) == [] {
        forall o1, t | Owns(r, o1, t, l)
          ensures o1 == o
        {
          assert Uses(r, o1, l);
        }
      } else {
        var o1 := Drop(users, o)[0];
        assert o1 in Drop(users, o) && Uses(r, o1, l);
      }
    }
  }

  ghost function AfterRemove(r: Registry, o: Owner): Registry {
    Registry(map l | l in r.streams && !Sole(r, o, l) :: r.streams[l],
             map l | l in r.sharers && !Sole(r, o, l) :: Drop(r.sharers[l], o),
             r.owners - {o})
  }

  lemma RemoveCoherent(r: Registry, o: Owner)
    requires Coherent(r)
    ensures var r1 := AfterRemove(r, o);
      && Coherent(r1)
      && forall o1, t1, l1 :: Owns(r1, o1, t1, l1) <==> Owns(r, o1, t1, l1) && o1 != o
  {
    var r1 := AfterRemove(r, o);
    forall l | l in r.sharers
      ensures forall x :: x in Drop(r.sharers[l], o) <==> x in r.sharers[l] && x != o
      ensures Distinct(Drop(r.sharers[l], o)) && (!Sole(r, o, l) ==> Drop(r.sharers[l], o) != [])
    {
      DropIs(r.sharers[l], o);
    }
    assert forall o1, t1, l1 :: Owns(r1, o1, t1, l1) <==> Owns(r, o1, t1, l1) && o1 != o;
    forall o1, l1
      ensures Uses(r1, o1, l1) <==> exists t1 :: Owns(r1, o1, t1, l1)
    {
      assert Uses(r1, o1, l1) <==> Uses(r, o1, l1) && o1 != o;
      if Uses(r, o1, l1) && o1 != o { var t1 :| Owns(r, o1, t1, l1); assert Owns(r1, o1, t1, l1); }
    }
    forall o1, t1, l1 | Owns(r1, o1, t1, l1)
      ensures l1 in r1.streams && r1.owners[o1][t1][l1] == r1.streams[l1]
    {
      assert Owns(r, o1, t1, l1) && Uses(r, o1, l1) && Uses(r1, o1, l1);
    }
  }

  /** A location keeps its stream exactly when someone else has it, too. */
  lemma RemovedStreams(r: Registry, o: Owner, l: string)
    requires Coherent(r)
    ensures l in AfterRemove(r, o).streams <==> exists o1, t :: o1 != o && Owns(r, o1, t, l)
    ensures l in AfterRemove(r, o).streams ==> AfterRemove(r, o).streams[l] == r.streams[l]
  {
    SoleIff(r, o, l);
    if l in r.streams && !Sole(r, o, l) {
      var o1 := r.sharers[l][0];
      assert Uses(r, o1, l);
    }
  }

  lemma EnteredDrops(r: Registry, o: Owner, t: string, l: string, s: StreamId, m: string)
    requires o !in SharersOf(r, m)
    ensures Drop(SharersOf(Entered(r, o, t, l, s), m), o) == SharersOf(r, m)
  {
    DropIs(SharersOf(r, m), o);
    AppendDrop(SharersOf(r, m), o);
    assert SharersOf(r, m) + [] == SharersOf(r, m);
  }

  /** Adding for an owner that is not there, and removing the owner again, restores the registry. */
  lemma AddThenRemove(r: Registry, o: Owner, t: string, l: string, created: Option<StreamId>)
    requires Coherent(r) && New(r, created) && o !in r.owners && Adds(r, o, t, l, created)
    ensures AfterRemove(AfterAdd(r, o, t, l, created), o) == r
  {
    forall m
      ensures o !in SharersOf(r, m)
    {
      assert !Uses(r, o, m);
    }
    EnteredThenRemoved(r, o, t, l, if l in r.streams then r.streams[l] else created.value);
  }

  lemma EnteredThenRemoved(r: Registry, o: Owner, t: string, l: string, s: StreamId)
    requires r.streams.Keys == r.sharers.Keys && (forall m <- r.sharers :: r.sharers[m] != [])
    requires o !in r.owners && (forall m :: o !in SharersOf(r, m)) && (l in r.streams ==> s == r.streams[l])
    ensures AfterRemove(Entered(r, o, t, l, s), o) == r
  {
    var r1 := Entered(r, o, t, l, s);
    forall m
      ensures Drop(SharersOf(r1, m), o) == SharersOf(r, m)
    {
      EnteredDrops(r, o, t, l, s, m);
    }
    OwnersRestored(r, o, t, l, s);
    RestoredMaps(r, r1, o, l);
  }

  lemma OwnersRestored(r: Registry, o: Owner, t: string, l: string, s: StreamId)
    requires o !in r.owners
    ensures AfterRemove(Entered(r, o, t, l, s), o).owners == r.owners
  {
  }

  lemma RestoredMaps(r: Registry, r1: Registry, o: Owner, l: string)
    requires r.streams.Keys == r.sharers.Keys && (forall m <- r.sharers :: r.sharers[m] != [])
    requires r1.streams.Keys == r1.sharers.Keys == r.sharers.Keys + {l} && o in r1.sharers[l]
    requires (forall m <- r.streams :: r1.streams[m] == r.streams[m]) && forall m ::
      Drop(SharersOf(r1, m), o) == SharersOf(r, m)
    ensures AfterRemove(r1, o).streams == r.streams && AfterRemove(r1, o).sharers == r.sharers
  {
    forall m | m in r1.sharers
      ensures m in r.sharers <==> !Sole(r1, o, m)
    {
      assert Drop(SharersOf(r1, m), o) == SharersOf(r, m);
    }
    var r2 := AfterRemove(r1, o);
    assert r2.streams.Keys == r.streams.Keys && r2.sharers.Keys == r.sharers.Keys;
    forall m | m in r.sharers
      ensures r2.sharers[m] == r.sharers[m]
    {
      assert Drop(SharersOf(r1, m), o) == SharersOf(r, m);
    }
  }

  lemma {:induction false} AppendDrop(s: seq<Owner>, o: Owner)
    ensures Drop(s + [o], o) == Drop(s, o)
  {
    if s == [] {
      assert s + [o] == [o] && Drop([o], o) == [] + Drop([o][1..], o);
    } else {
      AppendDrop(s[1..], o);
      assert (s + [o])[1..] == s[1..] + [o];
    }
  }
}
