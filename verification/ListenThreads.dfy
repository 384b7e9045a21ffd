/** The listening sockets of the server, and their exchange as a transaction when the server reboots. */
module ListenThreads {
  import opened Wrappers

  type Port = nat
  type Socket = nat

  /** The sockets of a port; either may be missing, but not both. */
  datatype SocketInformation = SocketInformation(port: Port, ipv4: Option<Socket>, ipv6: Option<Socket>)

  type Ports = map<Port, SocketInformation>

  function SocketSet(si: SocketInformation): set<Socket> {
    (if si.ipv4.Some? then {si.ipv4.value} else {}) + (if si.ipv6.Some? then {si.ipv6.value} else {})
  }

  function Live(used: Ports): set<Socket> {
    set p, s | p in used && s in SocketSet(used[p]) :: s
  }

  /** The live sockets are those entered for some port, for either family. */
  lemma LiveIff(used: Ports, x: Socket)
    ensures x in Live(used) <==> exists p :: p in used && (used[p].ipv4 == Some(x) || used[p].ipv6 == Some(x))
  {
    if p :| p in used && (used[p].ipv4 == Some(x) || used[p].ipv6 == Some(x)) { assert x in SocketSet(used[p]); }
  }

  /** Every port is entered under its own number, and no socket serves twice. */
  ghost predicate Apart(used: Ports) {
    && (forall p <- used :: used[p].port == p && used[p].ipv4 != used[p].ipv6)
    && (forall p, q | p in used && q in used && p != q :: SocketSet(used[p]) !! SocketSet(used[q]))
  }

  function Only(used: Ports, ports: set<Port>): Ports {
    map p | p in used && p in ports :: used[p]
  }

  lemma OnlyAll(used: Ports)
    ensures Only(used, used.Keys) == used
  {
  }

  lemma LiveParts(used: Ports, a: set<Port>, b: set<Port>)
    requires Apart(used) && a !! b
    ensures Live(Only(used, a + b)) == Live(Only(used, a)) + Live(Only(used, b))
    ensures Live(Only(used, a)) !! Live(Only(used, b))
    ensures multiset(Live(Only(used, a + b))) == multiset(Live(Only(used, a))) + multiset(Live(Only(used, b)))
  {
    var x, y, z := Live(Only(used, a)), Live(Only(used, b)), Live(Only(used, a + b));
    forall s
      ensures s in z <==> s in x + y
    {
      if s in z {
        var p :| p in Only(used, a + b) && s in SocketSet(used[p]);
        assert p in Only(used, a) || p in Only(used, b);
      }
      if s in x { var p :| p in Only(used, a) && s in SocketSet(used[p]); assert p in Only(used, a + b); }
      if s in y { var p :| p in Only(used, b) && s in SocketSet(used[p]); assert p in Only(used, a + b); }
    }
    forall s | s in x
      ensures s !in y
    {
      var p :| p in Only(used, a) && s in SocketSet(used[p]);
      forall q | q in Only(used, b)
        ensures s !in SocketSet(used[q])
      {
        assert p in used && q in used && p != q;
      }
    }
  }

  lemma LiveOne(used: Ports, p: Port)
    requires p in used
    ensures Live(Only(used, {p})) == SocketSet(used[p])
  {
    assert p in Only(used, {p});
  }

  /** What making the sockets of a port gives: those of the map, or none. */
  function MadeFor(made: Ports, p: Port): SocketInformation {
    if p in made then made[p] else SocketInformation(p, None, None)
  }

  /** The sockets made for new ports are new, and no two ports get the same one. */
  ghost predicate Makes(used: Ports, made: Ports) {
    && Apart(made) && (forall p <- made :: SocketSet(made[p]) != {})
    && forall p, q | p in used && q in made :: SocketSet(used[p]) !! SocketSet(made[q])
  }

  class ListenThreads {
    var usedPorts: Ports
    var fastRebooting: bool
    var committingFastReboot: bool
    var frPortsToAdd: seq<Port>
    var frPortsToRemove: seq<SocketInformation>
    /** The sockets the scheduler listens on. */
    var listeners: multiset<Socket>
    /** The sockets that were closed. */
    var closed: multiset<Socket>

    ghost predicate Valid()
      reads this
    {
      && Apart(usedPorts) && (forall p <- usedPorts :: SocketSet(usedPorts[p]) != {})
      && !committingFastReboot && frPortsToRemove == [] && (!fastRebooting ==> frPortsToAdd == [])
    }

    constructor ()
      ensures Valid() && usedPorts == map[] && !fastRebooting && listeners == multiset{} && closed == multiset{}
    {
      usedPorts, fastRebooting, committingFastReboot, frPortsToAdd, frPortsToRemove := map[], false, false, [], [];
      listeners, closed := multiset{}, multiset{};
    }

    method RegisterListener(si: SocketInformation)
      modifies this`listeners
      ensures si.ipv4.None? || si.ipv4 != si.ipv6 ==> listeners == old(listeners) + multiset(SocketSet(si))
      ensures forall x :: listeners[x] == old(listeners)[x] + (if si.ipv4 == Some(x) then 1 else 0)
                                          + (if si.ipv6 == Some(x) then 1 else 0)
    {
      if si.ipv4.Some? { listeners := listeners + multiset{si.ipv4.value}; }
      if si.ipv6.Some? { listeners := listeners + multiset{si.ipv6.value}; }
    }

    /** While a reboot is under way the port is only noted; otherwise its sockets, if any could be made, are entered and
        registered. */
    method CreateServerAndListener(port: Port, made: SocketInformation) returns (ret: int)
      requires made.port == port && (made.ipv4.None? || made.ipv4 != made.ipv6)
      modifies this`frPortsToAdd, this`usedPorts, this`listeners
      ensures frPortsToAdd == if fastRebooting then old(frPortsToAdd) + [port] else old(frPortsToAdd)
      ensures ret == if !fastRebooting && SocketSet(made) == {} then 1 else 0
      ensures if fastRebooting || SocketSet(made) == {} then usedPorts == old(usedPorts) && listeners == old(listeners)
              else usedPorts == old(usedPorts)[port := made] && listeners == old(listeners) + multiset(SocketSet(made))
    {
      if fastRebooting {
        frPortsToAdd := frPortsToAdd + [port];
        return 0;
      }
      if made.ipv4.None? && made.ipv6.None? { return 1; }
      usedPorts := usedPorts[port := made];
      RegisterListener(made);
      ret := 0;
    }

    method AddListeningThread(port: Port, made: Ports)
      requires Valid() && Makes(usedPorts, made)
      modifies this`frPortsToAdd, this`usedPorts, this`listeners
      ensures Valid()
      ensures fastRebooting ==>
        frPortsToAdd == old(frPortsToAdd) + [port] && usedPorts == old(usedPorts) && listeners == old(listeners)
      ensures !fastRebooting ==> usedPorts == if port in old(usedPorts) || port !in made then old(usedPorts)
                                              else old(usedPorts)[port := made[port]]
      ensures !fastRebooting && old(listeners) == multiset(Live(old(usedPorts))) ==>
        listeners == multiset(Live(usedPorts))
    {
      if !(fastRebooting || committingFastReboot) {
        if port in usedPorts { return; }
      }
      ghost var used := usedPorts;
      var ret := CreateServerAndListener(port, MadeFor(made, port));
      if !fastRebooting && port in made { LiveMore(used, port, made[port]); }
    }

    method BeginFastReboot()
      requires Valid()
      modifies this`fastRebooting
      ensures Valid() && fastRebooting
    {
      fastRebooting := true;
    }

    /** Gives the transaction up: the ports stay as they are, and all of them are registered. */
    method RollbackFastReboot()
      requires Apart(usedPorts) && forall p <- usedPorts :: SocketSet(usedPorts[p]) != {}
      modifies this`fastRebooting, this`committingFastReboot, this`frPortsToAdd, this`frPortsToRemove, this`listeners
      ensures Valid() && !fastRebooting && listeners == old(listeners) + multiset(Live(usedPorts))
    {
      fastRebooting := false;
      committingFastReboot := false;
      OnlyAll(usedPorts);
      RegisterAll(usedPorts.Keys);
      frPortsToAdd := [];
      frPortsToRemove := [];
    }

    /** Registers some of the used ports. */
    method RegisterAll(ports: set<Port>)
      requires Apart(usedPorts) && ports <= usedPorts.Keys
      modifies this`listeners
      ensures listeners == old(listeners) + multiset(Live(Only(usedPorts, ports)))
    {
      var todo := ports;
      ghost var done: set<Port> := {};
      LiveNone(usedPorts);
      while todo != {}
        invariant Parts(ports, done, todo)
        invariant listeners == old(listeners) + multiset(Live(Only(usedPorts, done)))
        decreases |todo|
      {
        var p :| p in todo;
        MovePart(ports, done, todo, p);
        RegisterOne(p, done, old(listeners));
        done, todo := done + {p}, todo - {p};
      }
      assert done == ports;
    }

    method RegisterOne(p: Port, ghost done: set<Port>, ghost before: multiset<Socket>)
      requires Apart(usedPorts) && p in usedPorts && p !in done
      requires listeners == before + multiset(Live(Only(usedPorts, done)))
      modifies this`listeners
      ensures listeners == before + multiset(Live(Only(usedPorts, done + {p})))
    {
      LiveStep(usedPorts, done, p);
      RegisterListener(usedPorts[p]);
    }

    /** Nothing is closed between the start of a reboot and its end. While one is committed, the sockets of the removed
        ports are closed; otherwise those of all ports, of which none is left. */
    method Terminate(ghost dropped: Ports)
      requires Apart(if committingFastReboot then dropped else usedPorts)
      requires committingFastReboot ==> Lists(dropped, frPortsToRemove)
      modifies this`closed, this`usedPorts
      ensures usedPorts == if fastRebooting || committingFastReboot then old(usedPorts) else map[]
      ensures closed == old(closed) + if fastRebooting then multiset{}
                                      else multiset(Live(if committingFastReboot then dropped else old(usedPorts)))
    {
      if fastRebooting { return; }
      if committingFastReboot {
        CloseAll(frPortsToRemove, dropped);
      } else {
        var sockets := AllSockets();
        CloseAll(sockets, usedPorts);
        usedPorts := map[];
      }
    }

    /** The information of all ports, in the order of the map. */
    method AllSockets() returns (sockets: seq<SocketInformation>)
      requires Apart(usedPorts)
      ensures Lists(usedPorts, sockets)
    {
      var todo := usedPorts.Keys;
      ghost var done: set<Port> := {};
      sockets := [];
      NoneListed(usedPorts);
      while todo != {}
        invariant Parts(usedPorts.Keys, done, todo) && Lists(Only(usedPorts, done), sockets)
        decreases |todo|
      {
        var p :| p in todo;
        MovePart(usedPorts.Keys, done, todo, p);
        ListedInFront(usedPorts, done, sockets, p);
        sockets := [usedPorts[p]] + sockets;
        done, todo := done + {p}, todo - {p};
      }
      AllDone(usedPorts, done, sockets);
    }

    method CloseAll(sis: seq<SocketInformation>, ghost dropped: Ports)
      requires Apart(dropped) && Lists(dropped, sis)
      modifies this`closed
      ensures closed == old(closed) + multiset(Live(dropped))
    {
      LiveNone(dropped);
      assert PortsOf(sis[..0]) == {};
      for i := 0 to |sis|
        invariant closed == old(closed) + multiset(Live(Only(dropped, PortsOf(sis[..i]))))
      {
        ListedOnce(dropped, sis, i);
        CloseOne(sis[i], dropped, PortsOf(sis[..i]), old(closed));
      }
      AllListed(dropped, sis);
    }

    method CloseOne(si: SocketInformation, ghost dropped: Ports, ghost done: set<Port>, ghost before: multiset<Socket>)
      requires Apart(dropped) && si.port in dropped && dropped[si.port] == si && si.port !in done
      requires closed == before + multiset(Live(Only(dropped, done)))
      modifies this`closed
      ensures closed == before + multiset(Live(Only(dropped, done + {si.port})))
    {
      LiveStep(dropped, done, si.port);
      Close(si);
    }

    /** New ports are created where that succeeds. */
    method CreateAll(ports: set<Port>, made: Ports)
      requires !fastRebooting && Makes(usedPorts, made) && ports !! usedPorts.Keys
      modifies this`usedPorts, this`listeners, this`frPortsToAdd
      ensures usedPorts == old(usedPorts) + Only(made, ports) && frPortsToAdd == old(frPortsToAdd)
      ensures listeners == old(listeners) + multiset(Live(Only(made, ports)))
    {
      var todo := ports;
      ghost var done: set<Port> := {};
      LiveNone(made);
      assert Only(made, {}) == map[];
      while todo != {}
        invariant Parts(ports, done, todo) && frPortsToAdd == old(frPortsToAdd)
        invariant usedPorts == old(usedPorts) + Only(made, done)
        invariant listeners == old(listeners) + multiset(Live(Only(made, done)))
        decreases |todo|
      {
        var p :| p in todo;
        MovePart(ports, done, todo, p);
        CreateOne(p, made, done, old(usedPorts), old(listeners));
        done, todo := done + {p}, todo - {p};
      }
      assert done == ports;
    }

    method CreateOne(p: Port, made: Ports, ghost done: set<Port>, ghost used: Ports, ghost before: multiset<Socket>)
      requires !fastRebooting && Apart(made) && (forall q <- made :: SocketSet(made[q]) != {}) && p !in done
      requires usedPorts == used + Only(made, done) && listeners == before + multiset(Live(Only(made, done)))
      modifies this`usedPorts, this`listeners, this`frPortsToAdd
      ensures usedPorts == used + Only(made, done + {p}) && listeners == before + multiset(Live(Only(made, done + {p})))
      ensures frPortsToAdd == old(frPortsToAdd)
    {
      var ret := CreateServerAndListener(p, MadeFor(made, p));
      OnlyStep(used, made, done, p);
      if p in made { LiveStep(made, done, p); }
    }

    /** Ports that are not wanted any more leave the table, and their sockets wait to be closed. */
    method RemoveAll(ports: set<Port>)
      requires ports <= usedPorts.Keys && frPortsToRemove == [] && forall p <- usedPorts :: usedPorts[p].port == p
      modifies this`usedPorts, this`frPortsToRemove
      ensures usedPorts == old(usedPorts) - ports && Lists(Only(old(usedPorts), ports), frPortsToRemove)
    {
      var todo := ports;
      ghost var done: set<Port> := {};
      while todo != {}
        invariant Parts(ports, done, todo) && usedPorts == old(usedPorts) - done
        invariant Lists(Only(old(usedPorts), done), frPortsToRemove)
        decreases |todo|
      {
        var p :| p in todo;
        MovePart(ports, done, todo, p);
        ListsMore(old(usedPorts), done, frPortsToRemove, p);
        frPortsToRemove := frPortsToRemove + [usedPorts[p]];
        usedPorts := usedPorts - {p};
        done, todo := done + {p}, todo - {p};
      }
      assert done == ports;
    }

    /** Ends the transaction: the used ports become the requested ones, as far as they can be made. Those used before
        keep their sockets; every live socket is registered once, and every socket of a dropped port is closed once.
        */
    method CommitFastReboot(made: Ports)
      requires Valid() && Makes(usedPorts, made)
      modifies this
      ensures Valid() && !fastRebooting
      ensures usedPorts == Exchanged(old(usedPorts), Requested(old(frPortsToAdd)), made)
      ensures listeners == old(listeners) + multiset(Live(usedPorts))
      ensures closed == old(closed) + multiset(Live(old(usedPorts) - Requested(old(frPortsToAdd))))
    {
      ghost var used := usedPorts;
      fastRebooting := false;
      committingFastReboot := true;
      var newPorts := Requested(frPortsToAdd);
      ExchangePorts(made, newPorts);
      CloseRemoved(used - newPorts);
    }

    /** The part of it in which the removed ports are closed. */
    method CloseRemoved(ghost dropped: Ports)
      requires Apart(usedPorts) && forall p <- usedPorts :: SocketSet(usedPorts[p]) != {}
      requires committingFastReboot && !fastRebooting && Apart(dropped) && Lists(dropped, frPortsToRemove)
      modifies this`closed, this`usedPorts, this`frPortsToAdd, this`frPortsToRemove, this`committingFastReboot
      ensures Valid() && usedPorts == old(usedPorts) && closed == old(closed) + multiset(Live(dropped))
    {
      Terminate(dropped);
      frPortsToAdd, frPortsToRemove, committingFastReboot := [], [], false;
    }

    /** The part of it before sockets are closed. */
    method ExchangePorts(made: Ports, newPorts: set<Port>)
      requires !fastRebooting && frPortsToRemove == [] && Apart(usedPorts) && Makes(usedPorts, made)
      requires forall p <- usedPorts :: SocketSet(usedPorts[p]) != {}
      modifies this`usedPorts, this`listeners, this`frPortsToAdd, this`frPortsToRemove
      ensures usedPorts == Exchanged(old(usedPorts), newPorts, made) && Apart(usedPorts)
      ensures forall p <- usedPorts :: SocketSet(usedPorts[p]) != {}
      ensures listeners == old(listeners) + multiset(Live(usedPorts))
      ensures Apart(old(usedPorts) - newPorts) && Lists(old(usedPorts) - newPorts, frPortsToRemove)
    {
      var presentPorts := usedPorts.Keys;
      var intersection, toRemove, toAdd := presentPorts * newPorts, presentPorts - newPorts, newPorts - presentPorts;
      ExchangedSum(usedPorts, made, newPorts, listeners);
      RegisterAll(intersection);
      Exchange(toAdd, toRemove, made, newPorts);
    }

    /** What the server does when its hosts have changed: the scheduler forgets all its listeners, the ports of the
        new configuration are requested, and the change is committed, or rolled back when the configuration cannot be
        read. All or nothing: in both cases exactly the sockets in use are registered, each once. */
    method Reload(ports: seq<Port>, failed: bool, made: Ports)
      requires Valid() && !fastRebooting && Makes(usedPorts, made)
      modifies this
      ensures Valid() && !fastRebooting && listeners == multiset(Live(usedPorts))
      ensures failed ==> usedPorts == old(usedPorts) && closed == old(closed)
      ensures !failed ==> usedPorts == Exchanged(old(usedPorts), Requested(ports), made)
      ensures !failed ==> closed == old(closed) + multiset(Live(old(usedPorts) - Requested(ports)))
    {
      listeners := multiset{};
      BeginFastReboot();
      Terminate(map[]);
      for i := 0 to |ports|
        invariant Valid() && fastRebooting && frPortsToAdd == ports[..i]
        invariant usedPorts == old(usedPorts) && listeners == multiset{} && closed == old(closed)
      {
        AddListeningThread(ports[i], made);
      }
      assert ports[..|ports|] == ports;
      if failed { RollbackFastReboot(); } else { CommitFastReboot(made); }
    }

    method Exchange(toAdd: set<Port>, toRemove: set<Port>, made: Ports, ghost requested: set<Port>)
      requires !fastRebooting && frPortsToRemove == [] && Apart(usedPorts) && Makes(usedPorts, made)
      requires toAdd == requested - usedPorts.Keys && toRemove == usedPorts.Keys - requested
      modifies this`usedPorts, this`listeners, this`frPortsToAdd, this`frPortsToRemove
      ensures usedPorts == Exchanged(old(usedPorts), requested, made)
      ensures listeners == old(listeners) + multiset(Live(Only(made, toAdd)))
      ensures Apart(old(usedPorts) - requested) && Lists(old(usedPorts) - requested, frPortsToRemove)
    {
      CommitLeaves(usedPorts, made, requested);
      CreateAll(toAdd, made);
      RemoveAll(toRemove);
    }

    method Close(si: SocketInformation)
      requires si.ipv4 != si.ipv6
      modifies this`closed
      ensures closed == old(closed) + multiset(SocketSet(si))
      ensures forall x :: closed[x] == old(closed)[x] + (if si.ipv4 == Some(x) then 1 else 0)
                                       + (if si.ipv6 == Some(x) then 1 else 0)
    {
      if si.ipv4.Some? { closed := closed + multiset{si.ipv4.value}; }
      if si.ipv6.Some? { closed := closed + multiset{si.ipv6.value}; }
    }
  }

  lemma LiveNone(used: Ports)
    ensures multiset(Live(Only(used, {}))) == multiset{}
  {
    assert Live(Only(used, {})) == {};
  }

  function Requested(ports: seq<Port>): set<Port> {
    set p | p in ports
  }

  /** What the used ports become. */
  function Exchanged(used: Ports, requested: set<Port>, made: Ports): Ports {
    Only(used, requested) + Only(made, requested - used.Keys)
  }

  /** A port is used after the exchange exactly when it was requested, and was used before or could be made; if it was
      used before it keeps its sockets. */
  lemma ExchangedIff(used: Ports, requested: seq<Port>, made: Ports, p: Port)
    ensures var used1 := Exchanged(used, Requested(requested), made);
      && (p in used1 <==> p in requested && (p in used || p in made))
      && (p in used1 && p in used ==> used1[p] == used[p])
      && (p in used1 && p !in used ==> used1[p] == made[p])
  {
  }

  lemma OnlyStep(used: Ports, made: Ports, done: set<Port>, p: Port)
    ensures p in made ==> used + Only(made, done + {p}) == (used + Only(made, done))[p := made[p]]
    ensures p !in made ==> Only(made, done + {p}) == Only(made, done)
  {
    if p in made { assert Only(made, done + {p}) == Only(made, done)[p := made[p]]; }
  }

  lemma ExchangedApart(used: Ports, made: Ports, requested: set<Port>)
    requires Apart(used) && Makes(used, made)
    ensures Apart(Exchanged(used, requested, made))
  {
  }

  lemma ExchangedParts(used: Ports, made: Ports, requested: set<Port>)
    ensures var all, kept, added := Exchanged(used, requested, made), used.Keys * requested, requested - used.Keys;
      kept !! added && Only(all, kept + added) == all && Only(all, kept) == Only(used, kept)
        && Only(all, added) == Only(made, added)
  {
  }

  lemma ExchangedLive(used: Ports, made: Ports, requested: set<Port>)
    requires Apart(used) && Makes(used, made)
    ensures multiset(Live(Exchanged(used, requested, made)))
         == multiset(Live(Only(used, used.Keys * requested))) + multiset(Live(Only(made, requested - used.Keys)))
  {
    ExchangedApart(used, made, requested);
    ExchangedParts(used, made, requested);
    LiveParts(Exchanged(used, requested, made), used.Keys * requested, requested - used.Keys);
  }

  lemma ExchangedSum(used: Ports, made: Ports, requested: set<Port>, before: multiset<Socket>)
    requires Apart(used) && Makes(used, made) && forall p <- used :: SocketSet(used[p]) != {}
    ensures before + multiset(Live(Only(used, used.Keys * requested)))
      + multiset(Live(Only(made, requested - used.Keys)))
         == before + multiset(Live(Exchanged(used, requested, made)))
    ensures Apart(Exchanged(used, requested, made))
    ensures forall p <- Exchanged(used, requested, made) :: SocketSet(Exchanged(used, requested, made)[p]) != {}
  {
    ExchangedLive(used, made, requested);
    ExchangedApart(used, made, requested);
  }

  /** The table as the commit leaves it. */
  lemma CommitLeaves(used: Ports, made: Ports, requested: set<Port>)
    ensures (used + Only(made, requested - used.Keys)) - (used.Keys - requested) == Exchanged(used, requested, made)
    ensures Only(used + Only(made, requested - used.Keys), used.Keys - requested) == used - requested
  {
  }

  lemma ListsMore(used: Ports, done: set<Port>, sis: seq<SocketInformation>, p: Port)
    requires p in used && p !in done && used[p].port == p && Lists(Only(used, done), sis)
    ensures Lists(Only(used, done + {p}), sis + [used[p]])
  {
    var sis1 := sis + [used[p]];
    assert forall si :: si in sis1 <==> si in sis || si == used[p];
    assert forall q :: q in PortsOf(sis1) <==> q in PortsOf(sis) || q == p;
    assert forall i | 0 <= i < |sis| :: sis[i] in sis;
  }

  lemma NoneListed(used: Ports)
    ensures Lists(Only(used, {}), []) && Parts(used.Keys, {}, used.Keys)
  {
  }

  lemma AllDone(used: Ports, done: set<Port>, sis: seq<SocketInformation>)
    requires Parts(used.Keys, done, {}) && Lists(Only(used, done), sis)
    ensures Lists(used, sis)
  {
    assert done == used.Keys;
    OnlyAll(used);
  }

  lemma ListedInFront(used: Ports, done: set<Port>, sis: seq<SocketInformation>, p: Port)
    requires p in used && p !in done && used[p].port == p && Lists(Only(used, done), sis)
    ensures Lists(Only(used, done + {p}), [used[p]] + sis)
  {
    var sis1 := [used[p]] + sis;
    assert forall si :: si in sis1 <==> si in sis || si == used[p];
    assert forall q :: q in PortsOf(sis1) <==> q in PortsOf(sis) || q == p;
    assert forall i | 0 <= i < |sis| :: sis[i] in sis;
  }

  /** A commit closes no socket that is in use after it. */
  lemma ExchangedStayOpen(used: Ports, made: Ports, requested: set<Port>)
    requires Apart(used) && Makes(used, made)
    ensures Live(Exchanged(used, requested, made)) !! Live(used - requested)
  {
    forall s | s in Live(Exchanged(used, requested, made))
      ensures s !in Live(used - requested)
    {
      var p :| p in Exchanged(used, requested, made) && s in SocketSet(Exchanged(used, requested, made)[p]);
      assert forall q | q in used && q !in requested ::
        SocketSet(Exchanged(used, requested, made)[p]) !! SocketSet(used[q]);
    }
  }

  ghost predicate Parts(all: set<Port>, done: set<Port>, todo: set<Port>) {
    forall p :: (p in all <==> p in done || p in todo) && !(p in done && p in todo)
  }

  lemma MovePart(all: set<Port>, done: set<Port>, todo: set<Port>, p: Port)
    requires Parts(all, done, todo) && p in todo
    ensures p in all && p !in done && Parts(all, done + {p}, todo - {p})
  {
  }

  function PortsOf(sis: seq<SocketInformation>): set<Port> {
    set si | si in sis :: si.port
  }

  /** The sequence holds the information of each of the ports, once. */
  ghost predicate Lists(used: Ports, sis: seq<SocketInformation>) {
    && (forall si <- sis :: si.port in used && used[si.port] == si)
    && (forall p <- used :: p in PortsOf(sis))
    && (forall i, j | 0 <= i < j < |sis| :: sis[i].port != sis[j].port)
  }

  lemma ListedOnce(used: Ports, sis: seq<SocketInformation>, i: nat)
    requires Lists(used, sis) && i < |sis|
    ensures sis[i].port in used && used[sis[i].port] == sis[i] && sis[i].port !in PortsOf(sis[..i])
    ensures PortsOf(sis[..i + 1]) == PortsOf(sis[..i]) + {sis[i].port}
  {
    assert sis[i] in sis && sis[..i + 1] == sis[..i] + [sis[i]];
    forall si | si in sis[..i]
      ensures si.port != sis[i].port
    {
      var k :| 0 <= k < i && sis[k] == si;
    }
    assert forall si :: si in sis[..i + 1] <==> si in sis[..i] || si == sis[i];
  }

  lemma AllListed(used: Ports, sis: seq<SocketInformation>)
    requires Lists(used, sis)
    ensures sis[..|sis|] == sis && Only(used, PortsOf(sis)) == used
  {
  }

  lemma LiveStep(used: Ports, done: set<Port>, p: Port)
    requires Apart(used) && p in used && p !in done
    ensures multiset(Live(Only(used, done + {p}))) == multiset(Live(Only(used, done))) + multiset(SocketSet(used[p]))
  {
    LiveParts(used, done, {p});
    LiveOne(used, p);
  }

  lemma LiveMore(used: Ports, p: Port, si: SocketInformation)
    requires Apart(used) && p !in used && si.port == p && si.ipv4 != si.ipv6
    requires forall q <- used :: SocketSet(used[q]) !! SocketSet(si)
    ensures Apart(used[p := si]) && Live(used[p := si]) == Live(used) + SocketSet(si) && Live(used) !! SocketSet(si)
    ensures multiset(Live(used[p := si])) == multiset(Live(used)) + multiset(SocketSet(si))
  {
    var used1 := used[p := si];
    assert Apart(used1);
    LiveParts(used1, used.Keys, {p});
    LiveOne(used1, p);
    assert Only(used1, used.Keys + {p}) == used1 && Only(used1, used.Keys) == used;
  }
}
