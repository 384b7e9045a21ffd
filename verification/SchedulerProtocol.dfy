/** The dispatcher thread and the worker threads as a protocol: every step is what one thread does between two points
    where others may interleave. */
module SchedulerProtocol {
  import opened Wrappers
  import opened ReadyQueues
  import opened Scheduling

  type Agent = nat

  /** The thread that runs the event loop; every other agent is a worker. */
  const DISPATCHER: Agent := 0

  datatype Conn = Conn(handle: Handle, scheduled: bool)

  datatype EventKind = ReadEvent | TimeoutEvent

  /** Where a thread stands. */
  datatype Pc =
    | Starting                              // worker: created, not yet counted as free
    | Idle                                  // dispatcher: in the event loop; worker: about to call getConnection
    | PastLock                              // worker: let through by the semaphore
    | Missed                                // worker: found no connection
    | Got(c: ConnId)                        // worker: took a connection
    | Serving(c: ConnId)                    // worker: serves the connection
    | Sending(c: ConnId)                    // worker: the connection is in the table, its message not sent yet
    | Finished                              // worker: about to return to its loop
    | Fired(handle: Handle, ev: EventKind)  // dispatcher: in newData, before the table lookup
    | Found(c: ConnId, ev: EventKind)       // dispatcher: in newData, after the lookup
    | Arming(c: ConnId)                     // dispatcher: a new connection is in the table, its event not armed yet
    | Pushing(c: ConnId)                    // the scheduled flag is set, the connection not pushed yet
    | Checking                              // pushed, the number of threads not checked yet
    | Posting                               // checked, the semaphore not posted yet
    | Removing(c: ConnId)                   // out of the table, not destroyed yet

  /** `conns` are the live connections, `table` the handle map, `messages` the connections sent to the event loop with
      their handles, `armed` the one-shot events, `free` the counter of free threads. */
  datatype State = State(
    ready: Ready, sem: nat, conns: map<ConnId, Conn>, table: map<Handle, ConnId>,
    messages: seq<(Handle, ConnId)>, armed: multiset<Handle>,
    agents: map<Agent, Pc>, free: int, maxThreads: nat)

  /** What the protocol handler of a connection answers; `Other` is a code the worker does not know. */
  datatype Verdict = Delete | Keep | NoWait | Other

  datatype Step =
    | ListenerTimeout
    | Accept(c: ConnId, handle: Handle, fast: bool)
    | TakeMessage
    | Fire(handle: Handle, ev: EventKind)
    | Lookup
    | ToHandler                              // the connection's own handler takes the event, and leaves it live
    | ReadReady
    | Spare                                  // a timeout, but the protocol's buffer refuses the deletion
    | TimeOut
    | Arm
    | PushTo(a: Agent, p: nat)
    | Check(a: Agent, spawned: Option<Agent>)
    | Post(a: Agent)
    | Destroy(a: Agent)
    | Start(a: Agent)
    | Lock(a: Agent)
    | Pop(a: Agent)
    | Engage(a: Agent)                       // the worker stops counting as free
    | Serve(a: Agent, v: Verdict)
    | Send(a: Agent)
    | Return(a: Agent)
    | Exit(a: Agent)

  /** The steps a worker can take, too. */
  predicate OfThread(step: Step) {
    || step.PushTo? || step.Check? || step.Post? || step.Destroy? || step.Start? || step.Lock? || step.Pop?
    || step.Engage? || step.Serve? || step.Send? || step.Return? || step.Exit?
  }

  function At(s: State, a: Agent): Pc {
    if a in s.agents then s.agents[a] else Finished
  }

  predicate WorkerAt(s: State, a: Agent, pc: Pc) {
    a in s.agents && a != DISPATCHER && s.agents[a] == pc
  }

  /** Whether a step is possible. */
  ghost predicate Can(s: State, step: Step) {
    var d := At(s, DISPATCHER);
    match step
    case ListenerTimeout => d == Idle
    case Accept(c, h, _) => d == Idle && c !in s.conns && forall c1 <- s.conns :: s.conns[c1].handle != h
    case TakeMessage => d == Idle && s.messages != []
    case Fire(h, _) => d == Idle && s.armed[h] > 0
    case Lookup => d.Fired?
    case ToHandler => d.Found?
    case ReadReady => d.Found? && d.ev == ReadEvent
    case Spare => d.Found? && d.ev == TimeoutEvent
    case TimeOut => d.Found? && d.ev == TimeoutEvent && d.c in s.conns && !s.conns[d.c].scheduled
    case Arm => d.Arming?
    case PushTo(a, p) => At(s, a).Pushing? && p < PRIORITY_CLASSES
    case Check(a, spawned) =>
      && At(s, a) == Checking
      && (spawned.Some? ==> spawned.value !in s.agents && |s.agents| <= s.maxThreads && s.free < 1)
    case Post(a) => At(s, a) == Posting
    case Destroy(a) => At(s, a).Removing?
    case Start(a) => WorkerAt(s, a, Starting)
    case Lock(a) => WorkerAt(s, a, Idle) && s.sem > 0
    case Pop(a) => WorkerAt(s, a, PastLock)
    case Engage(a) => a != DISPATCHER && (At(s, a).Got? || At(s, a) == Missed)
    case Serve(a, _) => a != DISPATCHER && At(s, a).Serving?
    case Send(a) => a != DISPATCHER && At(s, a).Sending?
    case Return(a) => WorkerAt(s, a, Finished)
    case Exit(a) => WorkerAt(s, a, Idle)
  }

  function Moved(s: State, a: Agent, pc: Pc): State {
    s.(agents := s.agents[a := pc])
  }

  /** Back to the event loop, or to the end of the worker's turn. */
  function Through(a: Agent): Pc {
    if a == DISPATCHER then Idle else Finished
  }

  /** In a reachable state `c` is live whenever a step sets its flag or asks for its handle (`StepIsSound`). */
  function Flagged(s: State, c: ConnId, scheduled: bool): State {
    if c in s.conns then s.(conns := s.conns[c := s.conns[c].(scheduled := scheduled)]) else s
  }

  function HandleOf(s: State, c: ConnId): Handle {
    if c in s.conns then s.conns[c].handle else 0
  }

  /** The effect of a step. */
  ghost function Do(s: State, step: Step): State
    requires Valid(s.ready) && Can(s, step)
  {
    var d := At(s, DISPATCHER);
    match step
    case ListenerTimeout => s.(sem := s.sem + 1)
    case Accept(c, h, fast) =>
      var s1 := s.(conns := s.conns[c := Conn(h, fast)]);
      if fast then Moved(s1, DISPATCHER, Pushing(c)) else Moved(s1.(table := s1.table[h := c]), DISPATCHER, Arming(c))
    case TakeMessage => s.(messages := s.messages[1..], armed := s.armed + multiset{s.messages[0].0})
    case Fire(h, ev) => Moved(s.(armed := s.armed - multiset{h}), DISPATCHER, Fired(h, ev))
    case Lookup => Moved(s, DISPATCHER, if d.handle in s.table then Found(s.table[d.handle], d.ev) else Idle)
    case ToHandler => Moved(s, DISPATCHER, Idle)
    case ReadReady => Moved(Flagged(s, d.c, true), DISPATCHER, Pushing(d.c))
    case Spare => Moved(s, DISPATCHER, Idle)
    case TimeOut => Moved(s.(table := s.table - {HandleOf(s, d.c)}), DISPATCHER, Removing(d.c))
    case Arm => Moved(s.(armed := s.armed + multiset{HandleOf(s, d.c)}), DISPATCHER, Idle)
    case PushTo(a, p) => Moved(s.(ready := Push(s.ready, p, s.agents[a].c)), a, Checking)
    case Check(a, spawned) =>
      var s1 := Moved(s, a, Posting);
      if spawned.Some? then Moved(s1, spawned.value, Starting) else s1
    case Post(a) => Moved(s.(sem := s.sem + 1), a, Through(a))
    case Destroy(a) => Moved(s.(conns := s.conns - {s.agents[a].c}), a, Through(a))
    case Start(a) => Moved(s.(free := s.free + 1), a, Idle)
    case Lock(a) => Moved(s.(sem := s.sem - 1), a, PastLock)
    case Pop(a) =>
      var (c, ready) := Get(s.ready);
      var s1 := s.(ready := ready);
      if c.None? then Moved(s1, a, Missed)
      else Moved(Flagged(s1, c.value, false), a, Got(c.value))
    case Engage(a) =>
      Moved(s.(free := s.free - 1), a, if s.agents[a].Got? then Serving(s.agents[a].c) else Finished)
    case Serve(a, v) =>
      var c := s.agents[a].c;
      var h := HandleOf(s, c);
      match v {
        case Delete => Moved(s.(table := s.table - {h}), a, Removing(c))
        case Keep => Moved(Flagged(s, c, false).(table := s.table[h := c]), a, Sending(c))
        case NoWait => Moved(Flagged(s, c, true), a, Pushing(c))
        case Other => Moved(s, a, Finished)
      }
    case Send(a) =>
      var c := s.agents[a].c;
      Moved(s.(messages := s.messages + [(HandleOf(s, c), c)]), a, Finished)
    case Return(a) => Moved(s.(free := s.free + 1), a, Idle)
    case Exit(a) => s.(agents := s.agents - {a}, free := s.free - 1)
  }

  // ---- Ownership ----

  /** The places a connection can be in. */
  datatype Spot = Message(i: nat) | Event(h: Handle) | Queued(p: nat, i: nat) | Thread(a: Agent)

  predicate PcHolds(s: State, pc: Pc, c: ConnId) {
    match pc
    case Fired(h, _) => h in s.table && s.table[h] == c
    case Got(c1) => c1 == c
    case Serving(c1) => c1 == c
    case Sending(c1) => c1 == c
    case Found(c1, _) => c1 == c
    case Arming(c1) => c1 == c
    case Pushing(c1) => c1 == c
    case Removing(c1) => c1 == c
    case _ => false
  }

  predicate Holds(s: State, x: Spot, c: ConnId) {
    match x
    case Message(i) => i < |s.messages| && s.messages[i].1 == c
    case Event(h) => s.armed[h] > 0 && h in s.table && s.table[h] == c
    case Queued(p, i) => p < |s.ready.queues| && i < |s.ready.queues[p]| && s.ready.queues[p][i] == c
    case Thread(a) => a in s.agents && PcHolds(s, s.agents[a], c)
  }

  /** A connection is in one place at most. */
  ghost predicate SingleOwner(s: State) {
    forall c, x, y :: Holds(s, x, c) && Holds(s, y, c) ==> x == y
  }

  /** Whatever is somewhere is live, and the handle map points to live connections under their own handles. */
  ghost predicate NoDangling(s: State) {
    && (forall c, x :: Holds(s, x, c) ==> c in s.conns)
    && (forall h <- s.table :: s.table[h] in s.conns && s.conns[s.table[h]].handle == h)
    && (forall c, c1 | c in s.conns && c1 in s.conns && s.conns[c].handle == s.conns[c1].handle :: c == c1)
  }

  /** Every event, fired or armed or to be armed, is of a connection in the table. */
  ghost predicate EventsInTable(s: State) {
    && (forall h :: s.armed[h] > 0 ==> s.armed[h] == 1 && h in s.table)
    && (forall i | 0 <= i < |s.messages| :: s.messages[i].0 in s.table && s.table[s.messages[i].0] == s.messages[i].1)
    && (forall a <- s.agents ::
          match s.agents[a]
          case Fired(h, _) => h in s.table
          case Sending(c) => c in s.conns && s.conns[c].handle in s.table && s.table[s.conns[c].handle] == c
          case Arming(c) => c in s.conns && s.conns[c].handle in s.table && s.table[s.conns[c].handle] == c
          case Removing(c) => c in s.conns && s.conns[c].handle !in s.table
          case _ => true)
  }

  predicate InQueue(r: Ready, c: ConnId)
    requires Valid(r)
  {
    c in r.queues[0] || c in r.queues[1] || c in r.queues[2]
  }

  ghost predicate BeingPushed(agents: map<Agent, Pc>, c: ConnId) {
    exists a :: a in agents && agents[a] == Pushing(c)
  }

  /** The scheduled flag is set exactly while the connection is queued, or about to be. */
  ghost predicate FlagIsExact(s: State)
    requires Valid(s.ready)
  {
    forall c <- s.conns :: s.conns[c].scheduled <==> InQueue(s.ready, c) || BeingPushed(s.agents, c)
  }

  ghost predicate Sound(s: State) {
    && Valid(s.ready) && DISPATCHER in s.agents
    && SingleOwner(s) && NoDangling(s) && EventsInTable(s) && FlagIsExact(s)
  }

  lemma Held(s: State, a: Agent, c: ConnId)
    requires Sound(s) && Holds(s, Thread(a), c)
    ensures c in s.conns
  {
  }

  lemma PopIsLive(s: State)
    requires Sound(s) && Get(s.ready).0.Some?
    ensures Get(s.ready).0.value in s.conns && Holds(s, Queued(Served(s.ready), 0), Get(s.ready).0.value)
  {
    GetTakesOldest(s.ready);
    assert Holds(s, Queued(Served(s.ready), 0), Get(s.ready).0.value);
  }

  // ---- Every step keeps single ownership ----

  /** After a step, `c0` has gone from `from` to `to`, and every other connection is only where it was before. */
  ghost predicate OnlyMoves(s: State, s1: State, c0: ConnId, from: Spot, to: Spot) {
    forall x, c {:trigger Holds(s1, x, c)} ::
      Holds(s1, x, c) ==> (c == c0 && x == to) || (x != from && x != to && Holds(s, x, c))
  }

  /** After a step, connections are only where they were before. */
  ghost predicate NothingMoves(s: State, s1: State) {
    forall x, c {:trigger Holds(s1, x, c)} :: Holds(s1, x, c) ==> Holds(s, x, c)
  }

  lemma OwnersMove(s: State, s1: State, c0: ConnId, from: Spot, to: Spot)
    requires Sound(s) && OnlyMoves(s, s1, c0, from, to) && (Holds(s, from, c0) || c0 !in s.conns)
    requires c0 in s1.conns && s.conns.Keys <= s1.conns.Keys
    ensures SingleOwner(s1) && forall c, x :: Holds(s1, x, c) ==> c in s1.conns
  {
  }

  lemma OwnersStay(s: State, s1: State)
    requires Sound(s) && NothingMoves(s, s1) && s.conns.Keys <= s1.conns.Keys
    ensures SingleOwner(s1) && forall c, x :: Holds(s1, x, c) ==> c in s1.conns
  {
  }

  /** A connection held by a thread is neither queued nor about to be pushed by another. */
  lemma HeldIsNotQueued(s: State, a: Agent, c: ConnId)
    requires Sound(s) && Holds(s, Thread(a), c)
    ensures c in s.conns && !InQueue(s.ready, c) && (s.agents[a] != Pushing(c) ==> !BeingPushed(s.agents, c))
  {
    forall p: nat, i: nat | p < PRIORITY_CLASSES && i < |s.ready.queues[p]|
      ensures s.ready.queues[p][i] != c
    {
      assert !Holds(s, Queued(p, i), c);
    }
    forall b | b in s.agents && b != a
      ensures s.agents[b] != Pushing(c)
    {
      assert !Holds(s, Thread(b), c);
    }
  }

  /** Moving one thread changes who is being pushed only for the connections of its old and its new place. */
  lemma PushersMove(agents: map<Agent, Pc>, a: Agent, pc: Pc)
    ensures forall c {:trigger BeingPushed(agents[a := pc], c)} ::
      (a !in agents || agents[a] != Pushing(c)) && pc != Pushing(c) ==>
        (BeingPushed(agents[a := pc], c) <==> BeingPushed(agents, c))
    ensures pc.Pushing? ==> BeingPushed(agents[a := pc], pc.c)
  {
    var agents1 := agents[a := pc];
    forall c | (a !in agents || agents[a] != Pushing(c)) && pc != Pushing(c)
      ensures BeingPushed(agents1, c) <==> BeingPushed(agents, c)
    {
      if BeingPushed(agents, c) {
        var b :| b in agents && agents[b] == Pushing(c);
        assert b in agents1 && agents1[b] == Pushing(c);
      }
    }
    if pc.Pushing? { assert a in agents1 && agents1[a] == Pushing(pc.c); }
  }

  /** Steps that only move a thread between places without a connection, or with the same one. */
  ghost predicate Quiet(s: State, s1: State, a: Agent) {
    && s1.ready == s.ready && s1.conns == s.conns && s1.table == s.table && s1.messages == s.messages
      && s1.armed == s.armed
    && a in s1.agents && s1.agents == s.agents[a := s1.agents[a]]
    && !s1.agents[a].Pushing? && !s1.agents[a].Removing? && !s1.agents[a].Sending?
    && !s1.agents[a].Arming? && !s1.agents[a].Fired?
    && (a in s.agents ==> !s.agents[a].Pushing?)
    && forall c :: Holds(s1, Thread(a), c) ==> Holds(s, Thread(a), c)
  }

  lemma QuietIsSound(s: State, s1: State, a: Agent)
    requires Sound(s) && Quiet(s, s1, a)
    ensures Sound(s1)
  {
    assert NothingMoves(s, s1);
    OwnersStay(s, s1);
    PushersMove(s.agents, a, s1.agents[a]);
  }

  lemma EventSteps(s: State, step: Step)
    requires Sound(s) && Can(s, step)
    requires step.ListenerTimeout? || step.Lookup? || step.ToHandler? || step.Spare?
    ensures Sound(Do(s, step))
  {
    QuietIsSound(s, Do(s, step), DISPATCHER);
  }

  lemma ThreadSteps(s: State, step: Step, a: Agent)
    requires Sound(s) && Can(s, step)
    requires step == Post(a) || step == Start(a) || step == Lock(a) || step == Engage(a) || step == Return(a)
               || step == Serve(a, Other)
    ensures Sound(Do(s, step))
  {
    ThreadStepsAreQuiet(s, step, a);
    QuietIsSound(s, Do(s, step), a);
  }

  lemma ThreadStepsAreQuiet(s: State, step: Step, a: Agent)
    requires Valid(s.ready) && Can(s, step)
    requires step == Post(a) || step == Start(a) || step == Lock(a) || step == Engage(a) || step == Return(a)
               || step == Serve(a, Other)
    ensures Quiet(s, Do(s, step), a)
  {
  }

  lemma CheckIsSound(s: State, a: Agent, spawned: Option<Agent>)
    requires Sound(s) && Can(s, Check(a, spawned))
    ensures Sound(Do(s, Check(a, spawned)))
  {
    var s1 := Moved(s, a, Posting);
    QuietIsSound(s, s1, a);
    if spawned.Some? { QuietIsSound(s1, Moved(s1, spawned.value, Starting), spawned.value); }
  }

  lemma ExitIsSound(s: State, a: Agent)
    requires Sound(s) && Can(s, Exit(a))
    ensures Sound(Do(s, Exit(a)))
  {
    var s1 := Do(s, Exit(a));
    ExitMovesNothing(s, a);
    OwnersStay(s, s1);
    PushersMove(s1.agents, a, Idle);
    assert s1.agents[a := Idle] == s.agents;
  }

  lemma ExitMovesNothing(s: State, a: Agent)
    requires Valid(s.ready) && Can(s, Exit(a))
    ensures NothingMoves(s, Do(s, Exit(a)))
  {
  }

  /** A connection that is not live is nowhere. */
  lemma NewIsNowhere(s: State, c: ConnId)
    requires Sound(s) && c !in s.conns
    ensures !InQueue(s.ready, c) && !BeingPushed(s.agents, c) && forall x :: !Holds(s, x, c)
  {
    forall p: nat, i: nat | p < PRIORITY_CLASSES && i < |s.ready.queues[p]|
      ensures s.ready.queues[p][i] != c
    {
      assert !Holds(s, Queued(p, i), c);
    }
    forall b | b in s.agents
      ensures s.agents[b] != Pushing(c)
    {
      assert !Holds(s, Thread(b), c);
    }
  }

  lemma AcceptFastIsSound(s: State, c: ConnId, h: Handle)
    requires Sound(s) && Can(s, Accept(c, h, true))
    ensures Sound(Do(s, Accept(c, h, true)))
  {
    var s1, d := Do(s, Accept(c, h, true)), Thread(DISPATCHER);
    NewIsNowhere(s, c);
    AcceptFastMovesOne(s, c, h);
    OwnersMove(s, s1, c, d, d);
    PushersMove(s.agents, DISPATCHER, Pushing(c));
  }

  lemma AcceptFastMovesOne(s: State, c: ConnId, h: Handle)
    requires Sound(s) && Can(s, Accept(c, h, true))
    ensures OnlyMoves(s, Do(s, Accept(c, h, true)), c, Thread(DISPATCHER), Thread(DISPATCHER))
  {
  }

  lemma AcceptKeepsEvents(s: State, c: ConnId, h: Handle)
    requires Sound(s) && Can(s, Accept(c, h, false))
    ensures EventsInTable(Do(s, Accept(c, h, false)))
  {
    assert h !in s.table;
  }

  lemma AcceptIsSound(s: State, c: ConnId, h: Handle)
    requires Sound(s) && Can(s, Accept(c, h, false))
    ensures Sound(Do(s, Accept(c, h, false)))
  {
    var s1, d := Do(s, Accept(c, h, false)), Thread(DISPATCHER);
    AcceptKeepsEvents(s, c, h);
    AcceptKeepsOwners(s, c, h);
    NewIsNowhere(s, c);
    PushersMove(s.agents, DISPATCHER, Arming(c));
  }

  lemma AcceptKeepsOwners(s: State, c: ConnId, h: Handle)
    requires Sound(s) && Can(s, Accept(c, h, false))
    ensures SingleOwner(Do(s, Accept(c, h, false))) && NoDangling(Do(s, Accept(c, h, false)))
  {
    var s1, d := Do(s, Accept(c, h, false)), Thread(DISPATCHER);
    AcceptMovesOne(s, c, h);
    OwnersMove(s, s1, c, d, d);
  }

  lemma AcceptMovesOne(s: State, c: ConnId, h: Handle)
    requires Sound(s) && Can(s, Accept(c, h, false))
    ensures OnlyMoves(s, Do(s, Accept(c, h, false)), c, Thread(DISPATCHER), Thread(DISPATCHER))
  {
    assert h !in s.table;
    var s1 := Do(s, Accept(c, h, false));
    forall x, c1 | Holds(s1, x, c1)
      ensures (c1 == c && x == Thread(DISPATCHER)) || (x != Thread(DISPATCHER) && Holds(s, x, c1))
    {
      match x
      case Event(h1) => assert h1 != h;
      case Thread(a) => assert a == DISPATCHER || s1.agents[a] == s.agents[a];
      case _ =>
    }
  }


  lemma FireIsSound(s: State, h: Handle, ev: EventKind)
    requires Sound(s) && Can(s, Fire(h, ev))
    ensures Sound(Do(s, Fire(h, ev)))
  {
    var s1 := Do(s, Fire(h, ev));
    var c := s.table[h];
    assert Holds(s, Event(h), c);
    assert OnlyMoves(s, s1, c, Event(h), Thread(DISPATCHER));
    OwnersMove(s, s1, c, Event(h), Thread(DISPATCHER));
    PushersMove(s.agents, DISPATCHER, Fired(h, ev));
  }

  /** Where a connection was before the event loop took the first message. */
  function BeforeTake(x: Spot, h: Handle): Spot {
    if x.Message? then Message(x.i + 1) else if x == Event(h) then Message(0) else x
  }

  lemma TakeMessageIsSound(s: State)
    requires Sound(s) && Can(s, TakeMessage)
    ensures Sound(Do(s, TakeMessage))
  {
    var s1 := Do(s, TakeMessage);
    var (h, c) := s.messages[0];
    assert Holds(s, Message(0), c);
    assert !Holds(s, Event(h), c);
    forall x, c1 | Holds(s1, x, c1)
      ensures Holds(s, BeforeTake(x, h), c1)
    {
    }
    forall x, y, c1 | Holds(s1, x, c1) && Holds(s1, y, c1)
      ensures x == y
    {
      assert Holds(s, BeforeTake(x, h), c1) && Holds(s, BeforeTake(y, h), c1);
    }
  }

  /** Setting or clearing the flag of a connection by the thread that holds it. */
  lemma FlaggingIsSound(s: State, a: Agent, c: ConnId, pc: Pc)
    requires Sound(s) && Holds(s, Thread(a), c) && (s.agents[a].Found? || s.agents[a].Serving?) && c in s.conns
    requires pc == Pushing(c)
    ensures Sound(Moved(Flagged(s, c, true), a, pc))
  {
    var s1 := Moved(Flagged(s, c, true), a, pc);
    FlaggingMovesNothing(s, a, c);
    OwnersMove(s, s1, c, Thread(a), Thread(a));
    PushersMove(s.agents, a, pc);
  }

  lemma FlaggingMovesNothing(s: State, a: Agent, c: ConnId)
    requires Sound(s) && Holds(s, Thread(a), c) && (s.agents[a].Found? || s.agents[a].Serving?) && c in s.conns
    ensures OnlyMoves(s, Moved(Flagged(s, c, true), a, Pushing(c)), c, Thread(a), Thread(a))
  {
  }

  /** While a thread serves a connection, nothing else refers to the connection's handle. */
  lemma HandleIsFree(s: State, a: Agent, c: ConnId, h: Handle)
    requires Sound(s) && Holds(s, Thread(a), c) && (s.agents[a].Found? || s.agents[a].Serving?)
    requires c in s.conns && s.conns[c].handle == h
    ensures s.armed[h] == 0
    ensures forall i | 0 <= i < |s.messages| :: s.messages[i].0 != h
    ensures forall b, ev :: b in s.agents ==> s.agents[b] != Fired(h, ev)
    ensures forall b, c1 :: b in s.agents && c1 in s.conns && s.conns[c1].handle == h ==>
              s.agents[b] != Sending(c1) && s.agents[b] != Arming(c1) && s.agents[b] != Removing(c1)
  {
    assert !Holds(s, Event(h), c);
    forall i | 0 <= i < |s.messages|
      ensures s.messages[i].0 != h
    {
      assert !Holds(s, Message(i), c);
    }
    forall b, ev | b in s.agents
      ensures s.agents[b] != Fired(h, ev)
    {
      if b != a { assert !Holds(s, Thread(b), c); }
    }
    forall b, c1 | b in s.agents && c1 in s.conns && s.conns[c1].handle == h
      ensures s.agents[b] != Sending(c1) && s.agents[b] != Arming(c1) && s.agents[b] != Removing(c1)
    {
      assert c1 == c;
      if b != a { assert !Holds(s, Thread(b), c); }
    }
  }

  /** Taking a connection out of the table, by the thread that holds it. */
  lemma RemovalIsSound(s: State, a: Agent, c: ConnId)
    requires Sound(s) && Holds(s, Thread(a), c) && (s.agents[a].Found? || s.agents[a].Serving?) && c in s.conns
    ensures Sound(Moved(s.(table := s.table - {s.conns[c].handle}), a, Removing(c)))
  {
    RemovalKeepsEvents(s, a, c);
    RemovalKeepsOwners(s, a, c);
    PushersMove(s.agents, a, Removing(c));
  }

  lemma RemovalKeepsEvents(s: State, a: Agent, c: ConnId)
    requires Sound(s) && Holds(s, Thread(a), c) && (s.agents[a].Found? || s.agents[a].Serving?) && c in s.conns
    ensures EventsInTable(Moved(s.(table := s.table - {s.conns[c].handle}), a, Removing(c)))
  {
    HandleIsFree(s, a, c, s.conns[c].handle);
  }

  lemma RemovalKeepsOwners(s: State, a: Agent, c: ConnId)
    requires Sound(s) && Holds(s, Thread(a), c) && (s.agents[a].Found? || s.agents[a].Serving?) && c in s.conns
    ensures var s1 := Moved(s.(table := s.table - {s.conns[c].handle}), a, Removing(c));
      SingleOwner(s1) && NoDangling(s1)
  {
    var s1 := Moved(s.(table := s.table - {s.conns[c].handle}), a, Removing(c));
    assert OnlyMoves(s, s1, c, Thread(a), Thread(a));
    OwnersMove(s, s1, c, Thread(a), Thread(a));
  }

  /** Keeping a connection: its flag is cleared and it is put in the table. */
  lemma KeepIsSound(s: State, a: Agent)
    requires Sound(s) && Can(s, Serve(a, Keep))
    ensures Sound(Do(s, Serve(a, Keep)))
  {
    var c := s.agents[a].c;
    assert Holds(s, Thread(a), c);
    KeepKeepsEvents(s, a);
    KeepKeepsOwners(s, a);
    HeldIsNotQueued(s, a, c);
    PushersMove(s.agents, a, Sending(c));
  }

  lemma KeepKeepsEvents(s: State, a: Agent)
    requires Sound(s) && Can(s, Serve(a, Keep))
    ensures EventsInTable(Do(s, Serve(a, Keep)))
  {
    var c := s.agents[a].c;
    assert Holds(s, Thread(a), c);
    HandleIsFree(s, a, c, s.conns[c].handle);
    KeepKeepsArmed(s, a);
  }

  lemma KeepKeepsArmed(s: State, a: Agent)
    requires Sound(s) && Can(s, Serve(a, Keep))
    ensures var s1 := Do(s, Serve(a, Keep));
      && (forall h :: s1.armed[h] > 0 ==> s1.armed[h] == 1 && h in s1.table)
      && forall i | 0 <= i < |s1.messages| ::
           s1.messages[i].0 in s1.table && s1.table[s1.messages[i].0] == s1.messages[i].1
  {
    var c := s.agents[a].c;
    assert Holds(s, Thread(a), c);
    HandleIsFree(s, a, c, s.conns[c].handle);
  }

  lemma KeepKeepsOwners(s: State, a: Agent)
    requires Sound(s) && Can(s, Serve(a, Keep))
    ensures var s1 := Do(s, Serve(a, Keep)); SingleOwner(s1) && NoDangling(s1)
  {
    var c := s.agents[a].c;
    assert Holds(s, Thread(a), c);
    KeepMovesOne(s, a);
    OwnersMove(s, Do(s, Serve(a, Keep)), c, Thread(a), Thread(a));
  }

  lemma KeepMovesOne(s: State, a: Agent)
    requires Sound(s) && Can(s, Serve(a, Keep))
    ensures OnlyMoves(s, Do(s, Serve(a, Keep)), s.agents[a].c, Thread(a), Thread(a))
  {
    var c := s.agents[a].c;
    assert Holds(s, Thread(a), c);
    var h, s1 := s.conns[c].handle, Do(s, Serve(a, Keep));
    HandleIsFree(s, a, c, h);
    forall x, c1 | Holds(s1, x, c1)
      ensures (c1 == c && x == Thread(a)) || (x != Thread(a) && Holds(s, x, c1))
    {
      match x
      case Event(h1) => assert h1 != h;
      case Thread(b) => assert b == a || s1.agents[b] == s.agents[b];
      case _ =>
    }
  }

  lemma SendMovesOne(s: State, a: Agent)
    requires Sound(s) && Can(s, Send(a))
    ensures Holds(s, Thread(a), s.agents[a].c)
    ensures OnlyMoves(s, Do(s, Send(a)), s.agents[a].c, Thread(a), Message(|s.messages|))
  {
    assert Holds(s, Thread(a), s.agents[a].c);
  }

  lemma SendIsSound(s: State, a: Agent)
    requires Sound(s) && Can(s, Send(a))
    ensures Sound(Do(s, Send(a)))
  {
    var c, s1 := s.agents[a].c, Do(s, Send(a));
    SendMovesOne(s, a);
    OwnersMove(s, s1, c, Thread(a), Message(|s.messages|));
    PushersMove(s.agents, a, Finished);
  }

  lemma ArmMovesOne(s: State)
    requires Sound(s) && Can(s, Arm)
    ensures var c := s.agents[DISPATCHER].c; var h := HandleOf(s, c);
      !Holds(s, Event(h), c) && OnlyMoves(s, Do(s, Arm), c, Thread(DISPATCHER), Event(h))
  {
    var c := s.agents[DISPATCHER].c;
    assert Holds(s, Thread(DISPATCHER), c);
    assert !Holds(s, Event(HandleOf(s, c)), c);
  }

  lemma ArmIsSound(s: State)
    requires Sound(s) && Can(s, Arm)
    ensures Sound(Do(s, Arm))
  {
    var c, s1 := s.agents[DISPATCHER].c, Do(s, Arm);
    assert Holds(s, Thread(DISPATCHER), c);
    var h := s.conns[c].handle;
    ArmMovesOne(s);
    OwnersMove(s, s1, c, Thread(DISPATCHER), Event(h));
    PushersMove(s.agents, DISPATCHER, Idle);
  }

  /** Pushing a connection that the thread holds and has flagged. */
  lemma PushIsSound(s: State, a: Agent, p: nat)
    requires Sound(s) && Can(s, PushTo(a, p))
    ensures Sound(Do(s, PushTo(a, p)))
  {
    var c, s1 := s.agents[a].c, Do(s, PushTo(a, p));
    var to := Queued(p, |s.ready.queues[p]|);
    assert Holds(s, Thread(a), c);
    PushMovesOne(s, a, p);
    OwnersMove(s, s1, c, Thread(a), to);
    PushKeepsFlag(s, a, p);
  }

  lemma PushMovesOne(s: State, a: Agent, p: nat)
    requires Sound(s) && Can(s, PushTo(a, p))
    ensures OnlyMoves(s, Do(s, PushTo(a, p)), s.agents[a].c, Thread(a), Queued(p, |s.ready.queues[p]|))
  {
    var c, s1 := s.agents[a].c, Do(s, PushTo(a, p));
    var to := Queued(p, |s.ready.queues[p]|);
    forall x, c1 | Holds(s1, x, c1)
      ensures (c1 == c && x == to) || (x != Thread(a) && x != to && Holds(s, x, c1))
    {
      match x
      case Queued(p1, i) => if p1 == p { PushedAt(s.ready, p, c, i); }
      case Thread(b) => assert b == a || s1.agents[b] == s.agents[b];
      case _ =>
    }
  }

  lemma PushedAt(r: Ready, p: nat, c: ConnId, i: nat)
    requires Valid(r) && p < PRIORITY_CLASSES && i < |Push(r, p, c).queues[p]|
    ensures Push(r, p, c).queues[p][i] == if i < |r.queues[p]| then r.queues[p][i] else c
  {
  }

  lemma PushKeepsFlag(s: State, a: Agent, p: nat)
    requires Sound(s) && Can(s, PushTo(a, p))
    ensures FlagIsExact(Do(s, PushTo(a, p)))
  {
    var c := s.agents[a].c;
    PushersMove(s.agents, a, Checking);
    PushedIsQueued(s.ready, p, c);
    assert BeingPushed(s.agents, c);
  }

  lemma PushedIsQueued(r: Ready, p: nat, c: ConnId)
    requires Valid(r) && p < PRIORITY_CLASSES
    ensures forall c1 :: InQueue(Push(r, p, c), c1) <==> InQueue(r, c1) || c1 == c
  {
    var q := r.queues[p];
    assert forall c1 :: c1 in q + [c] <==> c1 in q || c1 == c;
  }

  /** The oldest connection of a class goes to the worker, and the ones behind it move up. */
  function BeforePop(x: Spot, p: nat, a: Agent): Spot {
    if x == Thread(a) then Queued(p, 0) else if x.Queued? && x.p == p then Queued(p, x.i + 1) else x
  }

  lemma PopIsSound(s: State, a: Agent)
    requires Sound(s) && Can(s, Pop(a))
    ensures Sound(Do(s, Pop(a)))
  {
    if Get(s.ready).0.Some? { PopTakesIsSound(s, a); } else { PopMissesIsSound(s, a); }
  }

  lemma PopMissesIsSound(s: State, a: Agent)
    requires Sound(s) && Can(s, Pop(a)) && Get(s.ready).0.None?
    ensures Sound(Do(s, Pop(a)))
  {
    var s1 := Do(s, Pop(a));
    GetTakesOldest(s.ready);
    PushersMove(s.agents, a, Missed);
    assert NothingMoves(s, s1);
    OwnersStay(s, s1);
  }

  lemma PopTakesIsSound(s: State, a: Agent)
    requires Sound(s) && Can(s, Pop(a)) && Get(s.ready).0.Some?
    ensures Sound(Do(s, Pop(a)))
  {
    GetTakesOldest(s.ready);
    PopIsLive(s);
    PopKeepsOwners(s, a);
    PopKeepsLive(s, a);
    PopClearsFlag(s, a);
  }

  lemma PopMovesUp(s: State, a: Agent, s1: State, x: Spot, c1: ConnId)
    requires Sound(s) && Can(s, Pop(a)) && Get(s.ready).0.Some? && s1 == Do(s, Pop(a)) && Holds(s1, x, c1)
    ensures Holds(s, BeforePop(x, Served(s.ready), a), c1)
  {
    GetTakesOldest(s.ready);
    PopIsLive(s);
  }

  lemma PopKeepsOwners(s: State, a: Agent)
    requires Sound(s) && Can(s, Pop(a)) && Get(s.ready).0.Some?
    ensures SingleOwner(Do(s, Pop(a)))
  {
    var s1 := Do(s, Pop(a));
    forall x, y, c1 | Holds(s1, x, c1) && Holds(s1, y, c1)
      ensures x == y
    {
      PopMovesUp(s, a, s1, x, c1);
      PopMovesUp(s, a, s1, y, c1);
    }
  }

  lemma PopKeepsLive(s: State, a: Agent)
    requires Sound(s) && Can(s, Pop(a)) && Get(s.ready).0.Some?
    ensures NoDangling(Do(s, Pop(a)))
  {
    var s1 := Do(s, Pop(a));
    PopIsLive(s);
    assert s1.conns.Keys == s.conns.Keys;
    forall x, c1 {:trigger Holds(s1, x, c1)} | Holds(s1, x, c1)
      ensures c1 in s.conns
    {
      PopMovesUp(s, a, s1, x, c1);
    }
  }

  lemma PopClearsFlag(s: State, a: Agent)
    requires Sound(s) && Can(s, Pop(a)) && Get(s.ready).0.Some?
    ensures FlagIsExact(Do(s, Pop(a)))
  {
    var s1, p, c := Do(s, Pop(a)), Served(s.ready), Get(s.ready).0.value;
    GetTakesOldest(s.ready);
    PopIsLive(s);
    PushersMove(s.agents, a, Got(c));
    forall c1 | c1 in s.conns
      ensures InQueue(s1.ready, c1) <==> InQueue(s.ready, c1) && c1 != c
    {
      OthersStayQueued(s, c1);
    }
    forall b | b in s.agents
      ensures s.agents[b] != Pushing(c)
    {
      assert !Holds(s, Thread(b), c);
    }
  }

  lemma OthersStayQueued(s: State, c1: ConnId)
    requires Sound(s) && Get(s.ready).0.Some?
    ensures Valid(Get(s.ready).1)
    ensures InQueue(Get(s.ready).1, c1) <==> InQueue(s.ready, c1) && c1 != Get(s.ready).0.value
  {
    GetTakesOldest(s.ready);
    var p, c, r1 := Served(s.ready), Get(s.ready).0.value, Get(s.ready).1;
    var q := s.ready.queues[p];
    assert q == [c] + q[1..];
    assert Holds(s, Queued(p, 0), c);
    forall k: nat, i: nat | k < PRIORITY_CLASSES && i < |r1.queues[k]|
      ensures r1.queues[k][i] != c
    {
      assert !Holds(s, Queued(k, if k == p then i + 1 else i), c);
    }
  }

  /** A connection that was taken out of the table is nowhere else, and is destroyed. */
  lemma DestroyIsSound(s: State, a: Agent)
    requires Sound(s) && Can(s, Destroy(a))
    ensures Sound(Do(s, Destroy(a)))
  {
    var c, s1 := s.agents[a].c, Do(s, Destroy(a));
    assert Holds(s, Thread(a), c);
    DestroyMovesNothing(s, a);
    DestroyKeepsEvents(s, a);
    PushersMove(s.agents, a, Through(a));
  }

  lemma DestroyMovesNothing(s: State, a: Agent)
    requires Sound(s) && Can(s, Destroy(a))
    ensures var s1 := Do(s, Destroy(a)); NothingMoves(s, s1) && forall x :: !Holds(s1, x, s.agents[a].c)
  {
    var c, s1 := s.agents[a].c, Do(s, Destroy(a));
    assert Holds(s, Thread(a), c);
    assert NothingMoves(s, s1);
    forall x
      ensures !Holds(s1, x, c)
    {
      assert x != Thread(a) ==> !Holds(s, x, c);
    }
  }

  lemma DestroyKeepsEvents(s: State, a: Agent)
    requires Sound(s) && Can(s, Destroy(a))
    ensures EventsInTable(Do(s, Destroy(a)))
  {
    var c := s.agents[a].c;
    assert Holds(s, Thread(a), c);
    forall b | b in s.agents && b != a
      ensures s.agents[b] != Sending(c) && s.agents[b] != Arming(c) && s.agents[b] != Removing(c)
    {
      assert !Holds(s, Thread(b), c);
    }
  }

  /** Every step of the dispatcher keeps every clause. */
  lemma DispatcherStepIsSound(s: State, step: Step)
    requires Sound(s) && Can(s, step)
    requires step.ListenerTimeout? || step.Accept? || step.TakeMessage? || step.Fire? || step.Lookup? || step.ToHandler?
               || step.ReadReady? || step.Spare? || step.TimeOut? || step.Arm?
    ensures Sound(Do(s, step))
  {
    match step
    case Accept(c, h, fast) => if fast { AcceptFastIsSound(s, c, h); } else { AcceptIsSound(s, c, h); }
    case TakeMessage => TakeMessageIsSound(s);
    case Fire(h, ev) => FireIsSound(s, h, ev);
    case ReadReady => FoundStepIsSound(s, step);
    case TimeOut => FoundStepIsSound(s, step);
    case Arm => ArmIsSound(s);
    case _ => EventSteps(s, step);
  }

  lemma FoundStepIsSound(s: State, step: Step)
    requires Sound(s) && Can(s, step) && (step.ReadReady? || step.TimeOut?)
    ensures Sound(Do(s, step))
  {
    var c := s.agents[DISPATCHER].c;
    assert Holds(s, Thread(DISPATCHER), c);
    if step.ReadReady? { FlaggingIsSound(s, DISPATCHER, c, Pushing(c)); } else { RemovalIsSound(s, DISPATCHER, c); }
  }

  /** Every step keeps every clause. */
  lemma StepIsSound(s: State, step: Step)
    requires Sound(s) && Can(s, step)
    ensures Sound(Do(s, step))
  {
    match step
    case PushTo(a, p) => PushIsSound(s, a, p);
    case Check(a, spawned) => CheckIsSound(s, a, spawned);
    case Post(a) => ThreadSteps(s, step, a);
    case Destroy(a) => DestroyIsSound(s, a);
    case Start(a) => ThreadSteps(s, step, a);
    case Lock(a) => ThreadSteps(s, step, a);
    case Pop(a) => PopIsSound(s, a);
    case Engage(a) => ThreadSteps(s, step, a);
    case Serve(a, v) => ServeIsSound(s, a, v);
    case Send(a) => SendIsSound(s, a);
    case Return(a) => ThreadSteps(s, step, a);
    case Exit(a) => ExitIsSound(s, a);
    case _ => DispatcherStepIsSound(s, step);
  }

  lemma ServeIsSound(s: State, a: Agent, v: Verdict)
    requires Sound(s) && Can(s, Serve(a, v))
    ensures Sound(Do(s, Serve(a, v)))
  {
    var c := s.agents[a].c;
    assert Holds(s, Thread(a), c);
    Held(s, a, c);
    match v
    case Delete => RemovalIsSound(s, a, c);
    case Keep => KeepIsSound(s, a);
    case NoWait => FlaggingIsSound(s, a, c, Pushing(c));
    case Other => ThreadSteps(s, Serve(a, Other), a);
  }
}
