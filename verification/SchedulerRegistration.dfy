/** What the dispatcher still does with a new connection once it is scheduled: it may mark it as one too many, and it
    writes its number into it. A connection of a protocol with the fast check is in a ready queue by then. */
module SchedulerRegistration {
  import opened Wrappers
  import opened ReadyQueues
  import opened Scheduling
  import opened SchedulerProtocol
  import opened SchedulerTheorems

  /** A connection that is accepted and not registered yet. */
  datatype Fresh = Fresh(c: ConnId, handle: Handle, fast: bool)

  datatype Registry = Registry(base: State, pending: Option<Fresh>)

  /** `Register` is the moment at which the dispatcher writes to the new connection. */
  datatype Move = Base(step: Step) | Register

  /** The steps the dispatcher takes from its loop, to which it returns only after it has registered the connection. */
  predicate FromLoop(step: Step) {
    step.ListenerTimeout? || step.Accept? || step.TakeMessage? || step.Fire?
  }

  ghost predicate CanMove(r: Registry, m: Move) {
    match m
    case Base(step) => Can(r.base, step) && (FromLoop(step) ==> r.pending.None?)
    case Register => r.pending.Some? && At(r.base, DISPATCHER) == Idle
  }

  ghost function DoMove(r: Registry, m: Move): Registry
    requires Valid(r.base.ready) && CanMove(r, m)
  {
    match m
    case Base(step) =>
      Registry(Do(r.base, step), if step.Accept? then Some(Fresh(step.c, step.handle, step.fast)) else r.pending)
    case Register => r.(pending := None)
  }

  lemma MoveIsSafe(r: Registry, m: Move)
    requires Safe(r.base) && CanMove(r, m)
    ensures Safe(DoMove(r, m).base)
  {
    if m.Base? { StepIsSafe(r.base, m.step); }
  }

  /** A run from the start of the server, by its last move. */
  datatype Run = Begun | Then(before: Run, m: Move)

  ghost predicate PossibleRun(s: State, run: Run)
    requires Initial(s)
    decreases run, 0
  {
    run.Begun? || (PossibleRun(s, run.before) && CanMove(StateAfter(s, run.before), run.m))
  }

  ghost function StateAfter(s: State, run: Run): (r: Registry)
    requires Initial(s) && PossibleRun(s, run)
    ensures Safe(r.base)
    decreases run, 1
  {
    match run
    case Begun => InitialIsSafe(s); Registry(s, None)
    case Then(before, m) => MoveIsSafe(StateAfter(s, before), m); DoMove(StateAfter(s, before), m)
  }

  /** The write is to a live connection that no other thread holds. */
  ghost predicate SafeToRegister(r: Registry) {
    CanMove(r, Register) ==>
      r.pending.value.c in r.base.conns && forall a :: !Holds(r.base, Thread(a), r.pending.value.c)
  }

  // ---- Without the fast check ----

  /** A slowly accepted connection is held by the dispatcher, and then by its own event, until it is registered. */
  ghost predicate EventKeepsFresh(r: Registry) {
    r.pending.Some? && !r.pending.value.fast ==> KeptFor(r.base, r.pending.value.c, r.pending.value.handle)
  }

  ghost predicate KeptFor(s: State, c: ConnId, h: Handle) {
    if At(s, DISPATCHER) == Idle then Holds(s, Event(h), c)
    else At(s, DISPATCHER) == Arming(c) && HandleIs(s, c, h)
  }

  predicate HandleIs(s: State, c: ConnId, h: Handle) {
    c in s.conns && s.conns[c].handle == h
  }

  lemma HandleStays(s: State, step: Step, c: ConnId, h: Handle)
    requires Valid(s.ready) && Can(s, step) && !FromLoop(step) && HandleIs(s, c, h) && c in Do(s, step).conns
    ensures HandleIs(Do(s, step), c, h)
  {
  }

  /** While the dispatcher is in its loop, or about to arm an event, only workers and the arming can go on. */
  lemma DispatcherStays(s: State, step: Step)
    requires Valid(s.ready) && DISPATCHER in s.agents && Can(s, step) && !FromLoop(step)
    requires At(s, DISPATCHER) == Idle || (At(s, DISPATCHER).Arming? && !step.Arm?)
    ensures At(Do(s, step), DISPATCHER) == At(s, DISPATCHER)
    ensures OfThread(step)
  {
  }

  /** A step of a worker destroys no connection that is held elsewhere. */
  lemma OthersLive(s: State, step: Step, x: Spot, c: ConnId)
    requires Sound(s) && Can(s, step) && OfThread(step) && Holds(s, x, c) && (step.Destroy? ==> x != Thread(step.a))
    ensures c in Do(s, step).conns
  {
    if step.Destroy? {
      assert Holds(s, Thread(step.a), s.agents[step.a].c);
    } else {
      OnlyDestroyed(s, step);
    }
  }

  lemma OnlyDestroyed(s: State, step: Step)
    requires Valid(s.ready) && Can(s, step) && OfThread(step) && !step.Destroy?
    ensures s.conns.Keys <= Do(s, step).conns.Keys
  {
  }

  lemma EventStays(s: State, step: Step, c: ConnId, h: Handle)
    requires Sound(s) && Can(s, step) && !FromLoop(step) && At(s, DISPATCHER) == Idle && Holds(s, Event(h), c)
    ensures Holds(Do(s, step), Event(h), c)
  {
    DispatcherStays(s, step);
    OthersLive(s, step, Event(h), c);
    if !Abandons(step) { StepFollows(s, step, Event(h), c); }
  }

  lemma StepKeepsFor(s: State, step: Step, c: ConnId, h: Handle)
    requires Sound(s) && Can(s, step) && !FromLoop(step) && KeptFor(s, c, h)
    ensures KeptFor(Do(s, step), c, h)
  {
    if At(s, DISPATCHER) == Idle {
      DispatcherStays(s, step);
      EventStays(s, step, c, h);
    } else if step.Arm? {
      assert Holds(s, Thread(DISPATCHER), c);
      FollowArm(s, Thread(DISPATCHER), c);
    } else {
      DispatcherStays(s, step);
      OthersLive(s, step, Thread(DISPATCHER), c);
      HandleStays(s, step, c, h);
    }
  }

  lemma MoveKeepsFresh(r: Registry, m: Move)
    requires Safe(r.base) && CanMove(r, m) && EventKeepsFresh(r)
    ensures EventKeepsFresh(DoMove(r, m))
  {
    if m.Base? && !FromLoop(m.step) && r.pending.Some? && !r.pending.value.fast {
      StepKeepsFor(r.base, m.step, r.pending.value.c, r.pending.value.handle);
    }
  }

  lemma {:induction false} RunKeepsFresh(s: State, run: Run)
    requires Initial(s) && PossibleRun(s, run)
    ensures EventKeepsFresh(StateAfter(s, run))
  {
    if run.Then? {
      RunKeepsFresh(s, run.before);
      MoveKeepsFresh(StateAfter(s, run.before), run.m);
    }
  }

  /** A slowly accepted connection is always registered safely: it is live, and its event alone holds it. */
  lemma SlowRegistrationIsSafe(s: State, run: Run)
    requires Initial(s) && PossibleRun(s, run)
    ensures var r := StateAfter(s, run); r.pending.Some? && !r.pending.value.fast ==> SafeToRegister(r)
  {
    RunKeepsFresh(s, run);
    var r := StateAfter(s, run);
    if CanMove(r, Register) && !r.pending.value.fast { EventHoldsAlone(r.base, r.pending.value.c,
      r.pending.value.handle); }
  }

  lemma EventHoldsAlone(s: State, c: ConnId, h: Handle)
    requires Sound(s) && Holds(s, Event(h), c)
    ensures c in s.conns && forall a :: !Holds(s, Thread(a), c)
  {
  }

  // ---- With the fast check ----

  /** All connections are accepted alike, with or without the fast check. */
  predicate AcceptsOnly(run: Run, fast: bool) {
    run.Then? ==> AcceptsOnly(run.before, fast) && (run.m.Base? && run.m.step.Accept? ==> run.m.step.fast == fast)
  }

  /** A run that has come to a state. */
  ghost predicate Comes(s: State, run: Run, fast: bool, r: Registry)
    requires Initial(s)
  {
    PossibleRun(s, run) && AcceptsOnly(run, fast) && StateAfter(s, run) == r
  }

  lemma Steps(s: State, run: Run, fast: bool, s0: State, pending: Option<Fresh>, step: Step,
              s1: State) returns (longer: Run)
    requires Initial(s) && Comes(s, run, fast, Registry(s0, pending)) && !step.Accept?
      && (FromLoop(step) ==> pending.None?)
    requires Valid(s0.ready) && Can(s0, step) && Do(s0, step) == s1
    ensures Comes(s, longer, fast, Registry(s1, pending))
  {
    longer := Then(run, Base(step));
  }

  // What single steps do, for the runs below.

  lemma Starts(s: State, run: Run, fast: bool, s0: State, pending: Option<Fresh>, w: Agent) returns (longer: Run,
                                                                                                     s1: State)
    requires Initial(s) && Comes(s, run, fast, Registry(s0, pending))
    requires WorkerAt(s0, w, Starting)
    ensures Comes(s, longer, fast, Registry(s1, pending)) && s1 == Moved(s0.(free := s0.free + 1), w, Idle)
  {
    s1 := Moved(s0.(free := s0.free + 1), w, Idle);
    longer := Steps(s, run, fast, s0, pending, Start(w), s1);
  }

  lemma Accepts(s: State, run: Run, fast: bool, s0: State, c: ConnId, h: Handle) returns (longer: Run, s1: State)
    requires Initial(s) && Comes(s, run, fast, Registry(s0, None))
    requires At(s0, DISPATCHER) == Idle && s0.conns == map[]
    ensures Comes(s, longer, fast, Registry(s1, Some(Fresh(c, h, fast))))
    ensures fast ==> s1 == Moved(s0.(conns := map[c := Conn(h, true)]), DISPATCHER, Pushing(c))
    ensures !fast ==>
      s1 == Moved(s0.(conns := map[c := Conn(h, false)], table := s0.table[h := c]), DISPATCHER, Arming(c))
  {
    s1 := Do(s0, Accept(c, h, fast));
    longer := Then(run, Base(Accept(c, h, fast)));
  }

  lemma Registers(s: State, run: Run, fast: bool, s0: State, pending: Option<Fresh>) returns (longer: Run)
    requires Initial(s) && Comes(s, run, fast, Registry(s0, pending)) && pending.Some? && At(s0, DISPATCHER) == Idle
    ensures Comes(s, longer, fast, Registry(s0, None))
  {
    longer := Then(run, Register);
  }

  lemma PushFirst(c: ConnId)
    ensures Push(Ready([[], [], []], 0, 0), 0, c) == Ready([[c], [], []], 0, 0)
  {
    var q: seq<seq<ConnId>> := [[], [], []];
    assert q[0] + [c] == [c];
    assert q[0 := [c]] == [[c], [], []];
  }

  lemma Pushes(s: State, run: Run, fast: bool, s0: State, pending: Option<Fresh>, c: ConnId) returns (longer: Run,
                                                                                                      s1: State)
    requires Initial(s) && Comes(s, run, fast, Registry(s0, pending))
    requires At(s0, DISPATCHER) == Pushing(c) && s0.ready == Ready([[], [], []], 0, 0)
    ensures Comes(s, longer, fast, Registry(s1, pending)) && s1
      == Moved(s0.(ready := Ready([[c], [], []], 0, 0)), DISPATCHER, Checking)
  {
    PushFirst(c);
    s1 := Moved(s0.(ready := Ready([[c], [], []], 0, 0)), DISPATCHER, Checking);
    longer := Steps(s, run, fast, s0, pending, PushTo(DISPATCHER, 0), s1);
  }

  lemma Checks(s: State, run: Run, fast: bool, s0: State, pending: Option<Fresh>) returns (longer: Run, s1: State)
    requires Initial(s) && Comes(s, run, fast, Registry(s0, pending))
    requires At(s0, DISPATCHER) == Checking
    ensures Comes(s, longer, fast, Registry(s1, pending)) && s1 == Moved(s0, DISPATCHER, Posting)
  {
    s1 := Moved(s0, DISPATCHER, Posting);
    longer := Steps(s, run, fast, s0, pending, Check(DISPATCHER, None), s1);
  }

  lemma Posts(s: State, run: Run, fast: bool, s0: State, pending: Option<Fresh>) returns (longer: Run, s1: State)
    requires Initial(s) && Comes(s, run, fast, Registry(s0, pending))
    requires At(s0, DISPATCHER) == Posting
    ensures Comes(s, longer, fast, Registry(s1, pending)) && s1 == Moved(s0.(sem := s0.sem + 1), DISPATCHER, Idle)
  {
    s1 := Moved(s0.(sem := s0.sem + 1), DISPATCHER, Idle);
    longer := Steps(s, run, fast, s0, pending, Post(DISPATCHER), s1);
  }

  lemma Locks(s: State, run: Run, fast: bool, s0: State, pending: Option<Fresh>, w: Agent) returns (longer: Run,
                                                                                                    s1: State)
    requires Initial(s) && Comes(s, run, fast, Registry(s0, pending))
    requires WorkerAt(s0, w, Idle) && s0.sem > 0
    ensures Comes(s, longer, fast, Registry(s1, pending)) && s1 == Moved(s0.(sem := s0.sem - 1), w, PastLock)
  {
    s1 := Moved(s0.(sem := s0.sem - 1), w, PastLock);
    longer := Steps(s, run, fast, s0, pending, Lock(w), s1);
  }

  lemma Pops(s: State, run: Run, fast: bool, s0: State, pending: Option<Fresh>, w: Agent,
             c: ConnId) returns (longer: Run, s1: State)
    requires Initial(s) && Comes(s, run, fast, Registry(s0, pending))
    requires WorkerAt(s0, w, PastLock) && s0.ready == Ready([[c], [], []], 0, 0)
    ensures Comes(s, longer, fast, Registry(s1, pending)) && s1
      == Moved(Flagged(s0.(ready := Get(s0.ready).1), c, false), w, Got(c))
  {
    GetTakesOldest(s0.ready);
    s1 := Moved(Flagged(s0.(ready := Get(s0.ready).1), c, false), w, Got(c));
    longer := Steps(s, run, fast, s0, pending, Pop(w), s1);
  }

  lemma Engages(s: State, run: Run, fast: bool, s0: State, pending: Option<Fresh>, w: Agent,
                c: ConnId) returns (longer: Run, s1: State)
    requires Initial(s) && Comes(s, run, fast, Registry(s0, pending))
    requires WorkerAt(s0, w, Got(c))
    ensures Comes(s, longer, fast, Registry(s1, pending)) && s1 == Moved(s0.(free := s0.free - 1), w, Serving(c))
  {
    s1 := Moved(s0.(free := s0.free - 1), w, Serving(c));
    longer := Steps(s, run, fast, s0, pending, Engage(w), s1);
  }

  lemma Deletes(s: State, run: Run, fast: bool, s0: State, pending: Option<Fresh>, w: Agent,
                c: ConnId) returns (longer: Run, s1: State)
    requires Initial(s) && Comes(s, run, fast, Registry(s0, pending))
    requires WorkerAt(s0, w, Serving(c))
    ensures Comes(s, longer, fast, Registry(s1, pending)) && s1
      == Moved(s0.(table := s0.table - {HandleOf(s0, c)}), w, Removing(c))
  {
    s1 := Moved(s0.(table := s0.table - {HandleOf(s0, c)}), w, Removing(c));
    longer := Steps(s, run, fast, s0, pending, Serve(w, Delete), s1);
  }

  lemma Destroys(s: State, run: Run, fast: bool, s0: State, pending: Option<Fresh>, w: Agent,
                 c: ConnId) returns (longer: Run, s1: State)
    requires Initial(s) && Comes(s, run, fast, Registry(s0, pending))
    requires WorkerAt(s0, w, Removing(c))
    ensures Comes(s, longer, fast, Registry(s1, pending)) && s1 == Moved(s0.(conns := s0.conns - {c}), w, Finished)
  {
    s1 := Moved(s0.(conns := s0.conns - {c}), w, Finished);
    longer := Steps(s, run, fast, s0, pending, Destroy(w), s1);
  }

  lemma Arms(s: State, run: Run, fast: bool, s0: State, pending: Option<Fresh>, c: ConnId) returns (longer: Run,
                                                                                                    s1: State)
    requires Initial(s) && Comes(s, run, fast, Registry(s0, pending))
    requires At(s0, DISPATCHER) == Arming(c)
    ensures Comes(s, longer, fast, Registry(s1, pending)) && s1
      == Moved(s0.(armed := s0.armed + multiset{HandleOf(s0, c)}), DISPATCHER, Idle)
  {
    s1 := Moved(s0.(armed := s0.armed + multiset{HandleOf(s0, c)}), DISPATCHER, Idle);
    longer := Steps(s, run, fast, s0, pending, Arm, s1);
  }

  lemma Fires(s: State, run: Run, fast: bool, s0: State, h: Handle, ev: EventKind) returns (longer: Run, s1: State)
    requires Initial(s) && Comes(s, run, fast, Registry(s0, None))
    requires At(s0, DISPATCHER) == Idle && s0.armed[h] > 0
    ensures Comes(s, longer, fast, Registry(s1, None))
    ensures s1 == Moved(s0.(armed := s0.armed - multiset{h}), DISPATCHER, Fired(h, ev))
  {
    s1 := Moved(s0.(armed := s0.armed - multiset{h}), DISPATCHER, Fired(h, ev));
    longer := Steps(s, run, fast, s0, None, Fire(h, ev), s1);
  }

  lemma Looks(s: State, run: Run, fast: bool, s0: State, h: Handle, ev: EventKind) returns (longer: Run, s1: State)
    requires Initial(s) && Comes(s, run, fast, Registry(s0, None))
    requires At(s0, DISPATCHER) == Fired(h, ev) && h in s0.table
    ensures Comes(s, longer, fast, Registry(s1, None)) && s1 == Moved(s0, DISPATCHER, Found(s0.table[h], ev))
  {
    s1 := Moved(s0, DISPATCHER, Found(s0.table[h], ev));
    longer := Steps(s, run, fast, s0, None, Lookup, s1);
  }

  lemma Reads(s: State, run: Run, fast: bool, s0: State, c: ConnId) returns (longer: Run, s1: State)
    requires Initial(s) && Comes(s, run, fast, Registry(s0, None))
    requires At(s0, DISPATCHER) == Found(c, ReadEvent)
    ensures Comes(s, longer, fast, Registry(s1, None))
    ensures s1.agents == s0.agents[DISPATCHER := Pushing(c)] && s1.ready == s0.ready
  {
    s1 := Moved(Flagged(s0, c, true), DISPATCHER, Pushing(c));
    longer := Steps(s, run, fast, s0, None, ReadReady, s1);
  }

  // ---- Runs with the fast check ----

  /** A worker has started, and the dispatcher has accepted a connection and pushed it. */
  lemma ComesToPush(s: State, w: Agent, c: ConnId, h: Handle) returns (run: Run, s1: State)
    requires Initial(s) && w in s.agents && w != DISPATCHER
    ensures Comes(s, run, true, Registry(s1, Some(Fresh(c, h, true))))
    ensures WorkerAt(s1, w, Idle) && At(s1, DISPATCHER) == Checking && s1.ready == Ready([[c], [], []], 0, 0)
  {
    run, s1 := Starts(s, Begun, true, s, None, w);
    run, s1 := Accepts(s, run, true, s1, c, h);
    run, s1 := Pushes(s, run, true, s1, Some(Fresh(c, h, true)), c);
  }

  /** The dispatcher has posted the semaphore and is back to register the connection, which a worker has taken. */
  lemma ComesToPop(s: State, w: Agent, c: ConnId, h: Handle) returns (run: Run, s1: State)
    requires Initial(s) && w in s.agents && w != DISPATCHER
    ensures Comes(s, run, true, Registry(s1, Some(Fresh(c, h, true))))
    ensures WorkerAt(s1, w, Got(c)) && At(s1, DISPATCHER) == Idle
  {
    var f := Some(Fresh(c, h, true));
    run, s1 := ComesToPush(s, w, c, h);
    run, s1 := Checks(s, run, true, s1, f);
    run, s1 := Posts(s, run, true, s1, f);
    run, s1 := Locks(s, run, true, s1, f, w);
    run, s1 := Pops(s, run, true, s1, f, w, c);
  }

  /** The write and the service overlap: with the fast check, a worker may serve the connection when it is registered.
      */
  lemma FastRegistrationRaces(s: State, w: Agent, c: ConnId, h: Handle) returns (run: Run, s1: State)
    requires Initial(s) && w in s.agents && w != DISPATCHER
    ensures Comes(s, run, true, Registry(s1, Some(Fresh(c, h, true))))
    ensures CanMove(Registry(s1, Some(Fresh(c, h, true))), Register) && WorkerAt(s1, w, Serving(c))
  {
    run, s1 := ComesToPop(s, w, c, h);
    run, s1 := Engages(s, run, true, s1, Some(Fresh(c, h, true)), w, c);
  }

  /** The connection may even be gone: the worker has deleted it, and the dispatcher writes to an object that the pool
      may hand out again. */
  lemma FastRegistrationOutlives(s: State, w: Agent, c: ConnId, h: Handle) returns (run: Run, s1: State)
    requires Initial(s) && w in s.agents && w != DISPATCHER
    ensures Comes(s, run, true, Registry(s1, Some(Fresh(c, h, true))))
    ensures CanMove(Registry(s1, Some(Fresh(c, h, true))), Register) && c !in s1.conns
  {
    run, s1 := FastRegistrationRaces(s, w, c, h);
    run, s1 := Deletes(s, run, true, s1, Some(Fresh(c, h, true)), w, c);
    run, s1 := Destroys(s, run, true, s1, Some(Fresh(c, h, true)), w, c);
  }

  // ---- Both ----

  lemma {:induction false} PendingAccepted(s: State, run: Run, fast: bool)
    requires Initial(s) && PossibleRun(s, run) && AcceptsOnly(run, fast)
    ensures StateAfter(s, run).pending.Some? ==> StateAfter(s, run).pending.value.fast == fast
  {
    if run.Then? { PendingAccepted(s, run.before, fast); }
  }

  lemma RaceIsUnsafe(r: Registry, w: Agent)
    requires CanMove(r, Register) && WorkerAt(r.base, w, Serving(r.pending.value.c))
    ensures !SafeToRegister(r)
  {
    assert Holds(r.base, Thread(w), r.pending.value.c);
  }

  lemma SlowRunIsSafe(s: State, run: Run)
    requires Initial(s) && AcceptsOnly(run, false) && PossibleRun(s, run)
    ensures SafeToRegister(StateAfter(s, run))
  {
    PendingAccepted(s, run, false);
    SlowRegistrationIsSafe(s, run);
  }

  /** Every registration of every run is safe. */
  ghost predicate AlwaysSafe(s: State, fast: bool)
    requires Initial(s)
  {
    forall run {:trigger AcceptsOnly(run, fast)} ::
      AcceptsOnly(run, fast) && PossibleRun(s, run) ==> SafeToRegister(StateAfter(s, run))
  }

  lemma FastIsNotAlwaysSafe(s: State, w: Agent)
    requires Initial(s) && w in s.agents && w != DISPATCHER
    ensures !AlwaysSafe(s, true)
  {
    var run, s1 := FastRegistrationRaces(s, w, 0, 0);
    RaceIsUnsafe(Registry(s1, Some(Fresh(0, 0, true))), w);
    assert AcceptsOnly(run, true);
  }

  lemma SlowIsAlwaysSafe(s: State)
    requires Initial(s)
    ensures AlwaysSafe(s, false)
  {
    forall run | AcceptsOnly(run, false) && PossibleRun(s, run)
      ensures SafeToRegister(StateAfter(s, run))
    {
      SlowRunIsSafe(s, run);
    }
  }

  /** In a server with a worker, every registration of every run is safe exactly when the protocols do without the fast
      check. */
  lemma RegistrationIsSafeIff(s: State, w: Agent, fast: bool)
    requires Initial(s) && w in s.agents && w != DISPATCHER
    ensures AlwaysSafe(s, fast) <==> !fast
  {
    if fast { FastIsNotAlwaysSafe(s, w); } else { SlowIsAlwaysSafe(s); }
  }

  // ---- A run that loses a connection ----

  /** A worker has started, and the dispatcher has accepted a connection. */
  lemma ComesToArm(s: State, w: Agent, c: ConnId, h: Handle) returns (run: Run, s1: State)
    requires Initial(s) && w in s.agents && w != DISPATCHER
    ensures Comes(s, run, false, Registry(s1, Some(Fresh(c, h, false)))) && At(s1, DISPATCHER) == Arming(c)
    ensures WorkerAt(s1, w, Idle) && s1.ready == Ready([[], [], []], 0, 0)
    ensures HandleOf(s1, c) == h && h in s1.table && s1.table[h] == c
  {
    run, s1 := Starts(s, Begun, false, s, None, w);
    run, s1 := Accepts(s, run, false, s1, c, h);
  }

  /** The connection is registered, and its event armed. */
  lemma ComesToWait(s: State, w: Agent, c: ConnId, h: Handle) returns (run: Run, s1: State)
    requires Initial(s) && w in s.agents && w != DISPATCHER
    ensures Comes(s, run, false, Registry(s1, None)) && At(s1, DISPATCHER) == Idle
    ensures WorkerAt(s1, w, Idle) && s1.ready == Ready([[], [], []], 0, 0)
    ensures s1.armed[h] > 0 && h in s1.table && s1.table[h] == c
  {
    run, s1 := ComesToArm(s, w, c, h);
    run, s1 := Arms(s, run, false, s1, Some(Fresh(c, h, false)), c);
    run := Registers(s, run, false, s1, Some(Fresh(c, h, false)));
  }

  /** It has something to read. */
  lemma ComesToFind(s: State, w: Agent, c: ConnId, h: Handle) returns (run: Run, s1: State)
    requires Initial(s) && w in s.agents && w != DISPATCHER
    ensures Comes(s, run, false, Registry(s1, None)) && At(s1, DISPATCHER) == Found(c, ReadEvent)
    ensures WorkerAt(s1, w, Idle) && s1.ready == Ready([[], [], []], 0, 0)
  {
    run, s1 := ComesToWait(s, w, c, h);
    run, s1 := Fires(s, run, false, s1, h, ReadEvent);
    run, s1 := Looks(s, run, false, s1, h, ReadEvent);
  }

  lemma ComesToRead(s: State, w: Agent, c: ConnId, h: Handle) returns (run: Run, s1: State)
    requires Initial(s) && w in s.agents && w != DISPATCHER
    ensures Comes(s, run, false, Registry(s1, None)) && At(s1, DISPATCHER) == Pushing(c)
    ensures WorkerAt(s1, w, Idle) && s1.ready == Ready([[], [], []], 0, 0)
  {
    run, s1 := ComesToFind(s, w, c, h);
    run, s1 := Reads(s, run, false, s1, c);
  }

  /** It is pushed. */
  lemma ComesToCheck(s: State, w: Agent, c: ConnId, h: Handle) returns (run: Run, s1: State)
    requires Initial(s) && w in s.agents && w != DISPATCHER
    ensures Comes(s, run, false, Registry(s1, None)) && At(s1, DISPATCHER) == Checking
    ensures WorkerAt(s1, w, Idle) && s1.ready == Ready([[c], [], []], 0, 0)
  {
    run, s1 := ComesToRead(s, w, c, h);
    run, s1 := Pushes(s, run, false, s1, None, c);
  }

  /** And the worker serves it. */
  lemma ComesToServe(s: State, w: Agent, c: ConnId, h: Handle) returns (run: Run, s1: State)
    requires Initial(s) && w in s.agents && w != DISPATCHER
    ensures Comes(s, run, false, Registry(s1, None)) && WorkerAt(s1, w, Serving(c))
  {
    run, s1 := ComesToCheck(s, w, c, h);
    run, s1 := Checks(s, run, false, s1, None);
    run, s1 := Posts(s, run, false, s1, None);
    run, s1 := Locks(s, run, false, s1, None, w);
    run, s1 := Pops(s, run, false, s1, None, w, c);
    run, s1 := Engages(s, run, false, s1, None, w, c);
  }

  /** A connection whose protocol answers with a code the worker does not know, as the HTTP protocol does when it
      answers with the result of an error page or of a redirection, is live for ever after, and nowhere. */
  lemma UnknownAnswerLosesConnection(s: State, w: Agent, c: ConnId, h: Handle) returns (run: Run)
    requires Initial(s) && w in s.agents && w != DISPATCHER
    ensures PossibleRun(s, run) && AcceptsOnly(run, false)
    ensures var s1 := StateAfter(s, run).base; c in s1.conns && forall x :: !Holds(s1, x, c)
  {
    var s0, s1;
    run, s0 := ComesToServe(s, w, c, h);
    s1 := Moved(s0, w, Finished);
    run := Steps(s, run, false, s0, None, Serve(w, Other), s1);
    ServedIsLost(s0, w, c);
  }

  lemma ServedIsLost(s: State, w: Agent, c: ConnId)
    requires Sound(s) && WorkerAt(s, w, Serving(c))
    ensures var s1 := Moved(s, w, Finished); c in s1.conns && forall x :: !Holds(s1, x, c)
  {
    assert Holds(s, Thread(w), c);
    var s1 := Moved(s, w, Finished);
    forall x
      ensures !Holds(s1, x, c)
    {
      assert x != Thread(w) ==> !Holds(s, x, c);
    }
  }
}
