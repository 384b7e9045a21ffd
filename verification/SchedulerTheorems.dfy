/** What holds in every state the dispatcher and the workers can reach, however their steps interleave. */
module SchedulerTheorems {
  import opened Wrappers
  import opened ReadyQueues
  import opened Scheduling
  import opened SchedulerProtocol

  // ---- No lost wakeup ----

  /** Threads that stand for a connection the semaphore does not count: let through but not popped yet, or pushed but
      not posted yet. */
  predicate Owes(pc: Pc) {
    pc == PastLock || pc == Checking || pc == Posting
  }

  function Owing(agents: map<Agent, Pc>): set<Agent> {
    set a | a in agents && Owes(agents[a])
  }

  /** Every queued connection is matched by a unit of the semaphore or by a thread on its way. */
  ghost predicate NoLostWakeup(s: State)
    requires Valid(s.ready)
  {
    Size(s.ready) <= s.sem + |Owing(s.agents)|
  }

  // ---- The counter of free threads ----

  predicate CountsAsFree(a: Agent, pc: Pc) {
    a != DISPATCHER && (pc == Idle || pc == PastLock || pc == Missed || pc.Got?)
  }

  function FreeWorkers(agents: map<Agent, Pc>): set<Agent> {
    set a | a in agents && CountsAsFree(a, agents[a])
  }

  /** The counter is the number of workers between the end of one service and the start of the next. */
  ghost predicate CounterIsExact(s: State) {
    s.free == |FreeWorkers(s.agents)|
  }

  /** The dispatcher stays in its own part of the program and the workers in theirs. */
  predicate Belongs(a: Agent, pc: Pc) {
    if a == DISPATCHER then !(pc.Starting? || pc.PastLock? || pc.Missed? || pc.Got? || pc.Serving? || pc.Sending?
      || pc.Finished?)
    else !(pc.Fired? || pc.Found? || pc.Arming?)
  }

  ghost predicate Placed(s: State) {
    Valid(s.ready) && DISPATCHER in s.agents && forall a <- s.agents :: Belongs(a, s.agents[a])
  }

  ghost predicate Safe(s: State) {
    && Sound(s) && NoLostWakeup(s) && CounterIsExact(s)
    && Placed(s)
    && |s.agents| <= s.maxThreads + 1
  }

  function Ind(b: bool): nat {
    if b then 1 else 0
  }

  lemma CountMoves(o: set<Agent>, o1: set<Agent>, a: Agent)
    requires o1 - {a} == o - {a}
    ensures |o1| == |o| - Ind(a in o) + Ind(a in o1)
  {
    assert a in o ==> o == (o - {a}) + {a};
    assert a in o1 ==> o1 == (o1 - {a}) + {a};
  }

  /** Moving one thread changes each count by that thread alone. */
  lemma OwingMoves(agents: map<Agent, Pc>, a: Agent, pc: Pc)
    ensures |Owing(agents[a := pc])| == |Owing(agents)| - Ind(a in agents && Owes(agents[a])) + Ind(Owes(pc))
  {
    CountMoves(Owing(agents), Owing(agents[a := pc]), a);
  }

  lemma FreeWorkersMove(agents: map<Agent, Pc>, a: Agent, pc: Pc)
    ensures |FreeWorkers(agents[a := pc])|
         == |FreeWorkers(agents)| - Ind(a in agents && CountsAsFree(a, agents[a])) + Ind(CountsAsFree(a, pc))
  {
    CountMoves(FreeWorkers(agents), FreeWorkers(agents[a := pc]), a);
  }

  lemma AgentsGrow(agents: map<Agent, Pc>, a: Agent, pc: Pc)
    ensures |agents[a := pc]| == |agents| + Ind(a !in agents)
  {
    assert agents[a := pc].Keys == agents.Keys + {a};
    assert |agents[a := pc].Keys| == |agents[a := pc]| && |agents.Keys| == |agents|;
  }

  lemma WorkerGone(agents: map<Agent, Pc>, a: Agent)
    requires a in agents && agents[a] == Idle && a != DISPATCHER
    ensures |Owing(agents - {a})| == |Owing(agents)|
    ensures |FreeWorkers(agents - {a})| == |FreeWorkers(agents)| - 1
    ensures |agents - {a}| == |agents| - 1
  {
    assert Owing(agents - {a}) == Owing(agents);
    assert FreeWorkers(agents - {a}) == FreeWorkers(agents) - {a};
    assert (agents - {a}).Keys == agents.Keys - {a};
    assert |(agents - {a}).Keys| == |agents - {a}| && |agents.Keys| == |agents|;
  }

  /** A step that moves thread `a` alone, and changes the queues, the semaphore and the counter in step with it. */
  ghost predicate Balanced(s: State, s1: State, a: Agent) {
    && a in s.agents && a in s1.agents && s1.agents == s.agents[a := s1.agents[a]] && s1.maxThreads == s.maxThreads
    && Valid(s.ready) && Valid(s1.ready)
    && (Size(s1.ready) == 0
        || Size(s1.ready) - Size(s.ready) <= s1.sem - s.sem + Ind(Owes(s1.agents[a])) - Ind(Owes(s.agents[a])))
    && s1.free - s.free == Ind(CountsAsFree(a, s1.agents[a])) - Ind(CountsAsFree(a, s.agents[a]))
    && Belongs(a, s1.agents[a])
  }

  lemma BalancedIsSafe(s: State, s1: State, a: Agent)
    requires Safe(s) && Sound(s1) && Balanced(s, s1, a)
    ensures Safe(s1)
  {
    OwingMoves(s.agents, a, s1.agents[a]);
    FreeWorkersMove(s.agents, a, s1.agents[a]);
    AgentsGrow(s.agents, a, s1.agents[a]);
  }

  lemma LoopStepIsBalanced(s: State, step: Step)
    requires Placed(s) && Can(s, step)
    requires step.ListenerTimeout? || step.Accept? || step.TakeMessage? || step.Fire? || step.Lookup?
    ensures Balanced(s, Do(s, step), DISPATCHER)
  {
  }

  lemma EventStepIsBalanced(s: State, step: Step)
    requires Placed(s) && Can(s, step)
    requires step.ToHandler? || step.ReadReady? || step.Spare? || step.TimeOut? || step.Arm?
    ensures Balanced(s, Do(s, step), DISPATCHER)
  {
  }

  lemma PostingStepIsBalanced(s: State, step: Step, a: Agent)
    requires Placed(s) && Can(s, step)
    requires (step.PushTo? && step.a == a) || step == Check(a, None) || step == Post(a) || step == Destroy(a)
    ensures Balanced(s, Do(s, step), a)
  {
  }

  lemma GettingStepIsBalanced(s: State, step: Step, a: Agent)
    requires Placed(s) && Can(s, step) && (step == Start(a) || step == Lock(a) || step == Pop(a))
    ensures Balanced(s, Do(s, step), a)
  {
    if step == Pop(a) { PopIsBalanced(s, a); }
  }

  lemma PopIsBalanced(s: State, a: Agent)
    requires Placed(s) && Can(s, Pop(a))
    ensures Balanced(s, Do(s, Pop(a)), a)
  {
    GetTakesOldest(s.ready);
  }

  lemma ServingStepIsBalanced(s: State, step: Step, a: Agent)
    requires Placed(s) && Can(s, step)
    requires step == Engage(a) || step == Send(a) || step == Return(a)
    ensures Balanced(s, Do(s, step), a)
  {
  }

  lemma VerdictIsBalanced(s: State, a: Agent, v: Verdict)
    requires Placed(s) && Can(s, Serve(a, v))
    ensures Balanced(s, Do(s, Serve(a, v)), a)
  {
    var s1 := Do(s, Serve(a, v));
    assert s1.ready == s.ready && s1.sem == s.sem && s1.free == s.free;
  }

  /** The steps after which as many threads run as before. */
  lemma StepIsBalanced(s: State, step: Step) returns (a: Agent)
    requires Placed(s) && Can(s, step) && !step.Exit? && (step.Check? ==> step.spawned.None?)
    ensures Balanced(s, Do(s, step), a)
  {
    if step.ListenerTimeout? || step.Accept? || step.TakeMessage? || step.Fire? || step.Lookup? {
      a := DISPATCHER; LoopStepIsBalanced(s, step);
    } else if step.ToHandler? || step.ReadReady? || step.Spare? || step.TimeOut? || step.Arm? {
      a := DISPATCHER; EventStepIsBalanced(s, step);
    } else if step.PushTo? || step.Check? || step.Post? || step.Destroy? {
      a := step.a; PostingStepIsBalanced(s, step, a);
    } else if step.Start? || step.Lock? || step.Pop? {
      a := step.a; GettingStepIsBalanced(s, step, a);
    } else if step.Serve? {
      a := step.a; VerdictIsBalanced(s, a, step.v);
    } else {
      a := step.a; ServingStepIsBalanced(s, step, a);
    }
  }

  /** A thread is created only while every worker is busy and there are fewer of them than the limit. */
  lemma SpawnsOnlyInNeed(s: State, a: Agent, b: Agent)
    requires Safe(s) && Can(s, Check(a, Some(b)))
    ensures forall w :: w in s.agents && w != DISPATCHER ==>
      !(s.agents[w] == Idle || s.agents[w] == PastLock || s.agents[w] == Missed || s.agents[w].Got?)
    ensures |s.agents - {DISPATCHER}| < s.maxThreads
  {
    assert FreeWorkers(s.agents) == {};
    forall w | w in s.agents
      ensures !CountsAsFree(w, s.agents[w])
    {
      assert w !in FreeWorkers(s.agents);
    }
    WithoutOne(s.agents, DISPATCHER);
  }

  lemma WithoutOne(agents: map<Agent, Pc>, a: Agent)
    requires a in agents
    ensures |agents - {a}| == |agents| - 1
  {
    assert (agents - {a}).Keys == agents.Keys - {a};
    assert |(agents - {a}).Keys| == |agents - {a}| && |agents.Keys| == |agents|;
  }

  lemma SpawnIsSafe(s: State, a: Agent, b: Agent)
    requires Safe(s) && Can(s, Check(a, Some(b))) && Sound(Do(s, Check(a, Some(b))))
    ensures Safe(Do(s, Check(a, Some(b))))
  {
    var s1 := Moved(s, a, Posting);
    OwingMoves(s.agents, a, Posting);
    FreeWorkersMove(s.agents, a, Posting);
    AgentsGrow(s.agents, a, Posting);
    OwingMoves(s1.agents, b, Starting);
    FreeWorkersMove(s1.agents, b, Starting);
    AgentsGrow(s1.agents, b, Starting);
  }

  lemma ExitIsSafe(s: State, a: Agent)
    requires Safe(s) && Can(s, Exit(a)) && Sound(Do(s, Exit(a)))
    ensures Safe(Do(s, Exit(a)))
  {
    WorkerGone(s.agents, a);
  }

  lemma StepIsSafe(s: State, step: Step)
    requires Safe(s) && Can(s, step)
    ensures Safe(Do(s, step))
  {
    StepIsSound(s, step);
    if step.Exit? {
      ExitIsSafe(s, step.a);
    } else if step.Check? && step.spawned.Some? {
      SpawnIsSafe(s, step.a, step.spawned.value);
    } else {
      var a := StepIsBalanced(s, step);
      BalancedIsSafe(s, Do(s, step), a);
    }
  }

  // ---- Runs ----

  /** Nothing is connected, the dispatcher is in its loop and the static workers have been created. */
  ghost predicate Initial(s: State) {
    && s.ready == Ready([[], [], []], 0, 0) && s.sem == 0
    && s.conns == map[] && s.table == map[] && s.messages == [] && s.armed == multiset{}
    && DISPATCHER in s.agents && s.free == 0 && |s.agents| <= s.maxThreads + 1
    && forall a <- s.agents :: s.agents[a] == if a == DISPATCHER then Idle else Starting
  }

  lemma InitialIsSafe(s: State)
    requires Initial(s)
    ensures Safe(s)
  {
    assert forall x, c :: !Holds(s, x, c);
    assert Owing(s.agents) == {} && FreeWorkers(s.agents) == {};
  }

  ghost predicate Possible(s: State, steps: seq<Step>)
    requires Sound(s)
    decreases |steps|
  {
    steps == [] || (Can(s, steps[0]) && (StepIsSound(s, steps[0]); Possible(Do(s, steps[0]), steps[1..])))
  }

  ghost function Reached(s: State, steps: seq<Step>): State
    requires Sound(s) && Possible(s, steps)
    decreases |steps|
  {
    if steps == [] then s else StepIsSound(s, steps[0]); Reached(Do(s, steps[0]), steps[1..])
  }

  lemma {:induction false} RunsAreSafe(s: State, steps: seq<Step>)
    requires Safe(s) && Possible(s, steps)
    ensures Safe(Reached(s, steps))
    decreases |steps|
  {
    if steps != [] {
      StepIsSafe(s, steps[0]);
      RunsAreSafe(Do(s, steps[0]), steps[1..]);
    }
  }

  /** Safety over all runs: single ownership, exact flags, no dangling table entry, no lost wakeup, an exact counter of
      free threads and no more workers than the limit. */
  lemma EveryRunIsSafe(s: State, steps: seq<Step>)
    requires Initial(s)
    ensures Safe(s)
    ensures Possible(s, steps) ==> Safe(Reached(s, steps))
  {
    InitialIsSafe(s);
    if Possible(s, steps) { RunsAreSafe(s, steps); }
  }

  // ---- What follows from it ----

  /** A queued connection never waits with nobody coming for it: the semaphore is open, or a thread is past it, or one
      is about to post. */
  lemma QueuedIsExpected(s: State)
    requires Safe(s) && Size(s.ready) > 0
    ensures s.sem > 0 || exists a :: a in s.agents && Owes(s.agents[a])
  {
    if s.sem == 0 {
      var a :| a in Owing(s.agents);
      assert a in s.agents && Owes(s.agents[a]);
    }
  }

  /** A one-shot event finds its connection in the table: live, registered under the event's own handle, not flagged and
      held by nobody else. */
  lemma EventFindsItsConnection(s: State, h: Handle, ev: EventKind)
    requires Safe(s) && At(s, DISPATCHER) == Fired(h, ev)
    ensures h in s.table && s.table[h] in s.conns
    ensures s.conns[s.table[h]].handle == h && !s.conns[s.table[h]].scheduled
    ensures forall x :: Holds(s, x, s.table[h]) <==> x == Thread(DISPATCHER)
    ensures At(Do(s, Lookup), DISPATCHER) == Found(s.table[h], ev)
  {
    assert Holds(s, Thread(DISPATCHER), s.table[h]);
    HeldIsNotQueued(s, DISPATCHER, s.table[h]);
  }

  // ---- No connection is lost ----

  /** The steps after which nobody is left to look after the connection: its own handler took the event, its timeout
      was not allowed to delete it, or its protocol answered with an unknown code. */
  predicate Abandons(step: Step) {
    step.ToHandler? || step.Spare? || (step.Serve? && step.v == Other)
  }

  ghost predicate NoneLost(s: State) {
    forall c <- s.conns :: exists x :: Holds(s, x, c)
  }

  /** Where a connection goes in a step. */
  ghost function Follow(s: State, step: Step, x: Spot, c: ConnId): Spot
    requires Valid(s.ready) && Can(s, step) && Holds(s, x, c)
  {
    match step
    case TakeMessage =>
      if x.Message? then (if x.i == 0 then Event(s.messages[0].0) else Message(x.i - 1)) else x
    case Fire(h, _) => if x == Event(h) then Thread(DISPATCHER) else x
    case Arm => if x == Thread(DISPATCHER) then Event(HandleOf(s, c)) else x
    case PushTo(a, p) => if x == Thread(a) then Queued(p, |s.ready.queues[p]|) else x
    case Pop(a) =>
      if x.Queued? && x.p == Served(s.ready) then (if x.i == 0 then Thread(a) else Queued(x.p, x.i - 1)) else x
    case Send(a) => if x == Thread(a) then Message(|s.messages|) else x
    case _ => x
  }

  lemma FollowLoopSteps(s: State, step: Step, x: Spot, c: ConnId)
    requires Sound(s) && Can(s, step) && Holds(s, x, c)
    requires step.ListenerTimeout? || step.Accept? || step.Lookup?
    ensures Holds(Do(s, step), Follow(s, step, x, c), c)
  {
    if step.Accept? { FollowAccept(s, step.c, step.handle, step.fast, x, c); }
  }

  lemma FollowAccept(s: State, c0: ConnId, h: Handle, fast: bool, x: Spot, c: ConnId)
    requires Sound(s) && Can(s, Accept(c0, h, fast)) && Holds(s, x, c)
    ensures Holds(Do(s, Accept(c0, h, fast)), x, c)
  {
    assert x != Thread(DISPATCHER);
  }

  lemma FollowTake(s: State, x: Spot, c: ConnId)
    requires Sound(s) && Can(s, TakeMessage) && Holds(s, x, c)
    ensures Holds(Do(s, TakeMessage), Follow(s, TakeMessage, x, c), c)
  {
  }

  lemma FollowFire(s: State, h: Handle, ev: EventKind, x: Spot, c: ConnId)
    requires Sound(s) && Can(s, Fire(h, ev)) && Holds(s, x, c)
    ensures Holds(Do(s, Fire(h, ev)), Follow(s, Fire(h, ev), x, c), c)
  {
  }

  lemma FollowArm(s: State, x: Spot, c: ConnId)
    requires Sound(s) && Can(s, Arm) && Holds(s, x, c)
    ensures Holds(Do(s, Arm), Follow(s, Arm, x, c), c)
  {
    assert Holds(s, Thread(DISPATCHER), s.agents[DISPATCHER].c);
  }

  lemma FollowTableSteps(s: State, a: Agent, c0: ConnId, x: Spot, c: ConnId)
    requires Sound(s) && Holds(s, Thread(a), c0) && (s.agents[a].Found? || s.agents[a].Serving?) && c0 in s.conns
    requires Holds(s, x, c)
    ensures Holds(Moved(s.(table := s.table - {s.conns[c0].handle}), a, Removing(c0)), x, c)
  {
    HandleIsFree(s, a, c0, s.conns[c0].handle);
  }

  lemma FollowEventSteps(s: State, step: Step, x: Spot, c: ConnId)
    requires Sound(s) && Can(s, step) && Holds(s, x, c) && (step.ReadReady? || step.TimeOut?)
    ensures Holds(Do(s, step), Follow(s, step, x, c), c)
  {
    assert Holds(s, Thread(DISPATCHER), s.agents[DISPATCHER].c);
    if step.TimeOut? { FollowTableSteps(s, DISPATCHER, s.agents[DISPATCHER].c, x, c); }
  }

  lemma FollowPostingSteps(s: State, step: Step, x: Spot, c: ConnId)
    requires Valid(s.ready) && Can(s, step) && Holds(s, x, c) && c in Do(s, step).conns
    requires step.PushTo? || step.Check? || step.Destroy?
    ensures Holds(Do(s, step), Follow(s, step, x, c), c)
  {
  }

  lemma FollowPop(s: State, a: Agent, x: Spot, c: ConnId)
    requires Valid(s.ready) && Can(s, Pop(a)) && Holds(s, x, c)
    ensures Holds(Do(s, Pop(a)), Follow(s, Pop(a), x, c), c)
  {
    GetTakesOldest(s.ready);
    if Get(s.ready).0.Some? { FollowTaken(s, a, x, c); }
  }

  lemma FollowTaken(s: State, a: Agent, x: Spot, c: ConnId)
    requires Valid(s.ready) && Can(s, Pop(a)) && Holds(s, x, c) && Get(s.ready).0.Some?
    ensures Holds(Do(s, Pop(a)), Follow(s, Pop(a), x, c), c)
  {
    GetTakesOldest(s.ready);
    assert x != Thread(a);
  }

  lemma FollowSend(s: State, a: Agent, x: Spot, c: ConnId)
    requires Valid(s.ready) && Can(s, Send(a)) && Holds(s, x, c)
    ensures Holds(Do(s, Send(a)), Follow(s, Send(a), x, c), c)
  {
  }

  lemma FollowWorkerSteps(s: State, step: Step, x: Spot, c: ConnId)
    requires Valid(s.ready) && Can(s, step) && Holds(s, x, c)
    requires step.Post? || step.Start? || step.Lock? || step.Engage? || step.Return? || step.Exit?
    ensures Holds(Do(s, step), x, c)
  {
  }

  lemma FollowVerdict(s: State, a: Agent, v: Verdict, x: Spot, c: ConnId)
    requires Sound(s) && Can(s, Serve(a, v)) && Holds(s, x, c) && v != Other
    ensures Holds(Do(s, Serve(a, v)), x, c)
  {
    assert Holds(s, Thread(a), s.agents[a].c);
    HandleIsFree(s, a, s.agents[a].c, s.conns[s.agents[a].c].handle);
    if v == Delete { FollowTableSteps(s, a, s.agents[a].c, x, c); }
  }

  /** A connection that a step does not destroy is where `Follow` says. */
  lemma StepFollows(s: State, step: Step, x: Spot, c: ConnId)
    requires Sound(s) && Can(s, step) && Holds(s, x, c) && c in Do(s, step).conns && !Abandons(step)
    ensures Holds(Do(s, step), Follow(s, step, x, c), c)
  {
    if step.ListenerTimeout? || step.Accept? || step.Lookup? {
      FollowLoopSteps(s, step, x, c);
    } else if step.TakeMessage? {
      FollowTake(s, x, c);
    } else if step.Fire? {
      FollowFire(s, step.handle, step.ev, x, c);
    } else if step.Arm? {
      FollowArm(s, x, c);
    } else if step.ReadReady? || step.TimeOut? {
      FollowEventSteps(s, step, x, c);
    } else if step.Serve? {
      FollowVerdict(s, step.a, step.v, x, c);
    } else if step.Pop? {
      FollowPop(s, step.a, x, c);
    } else if step.Send? {
      FollowSend(s, step.a, x, c);
    } else if step.PushTo? || step.Check? || step.Destroy? {
      FollowPostingSteps(s, step, x, c);
    } else {
      FollowWorkerSteps(s, step, x, c);
    }
  }

  /** The connection an abandoning step leaves behind: live, and nowhere. */
  lemma AbandonedIsNowhere(s: State, step: Step) returns (c: ConnId)
    requires Sound(s) && Can(s, step) && Abandons(step)
    ensures c in Do(s, step).conns && forall x :: !Holds(Do(s, step), x, c)
  {
    var a := if step.Serve? then step.a else DISPATCHER;
    c := s.agents[a].c;
    assert Holds(s, Thread(a), c);
    Held(s, a, c);
    var s1 := Do(s, step);
    forall x
      ensures !Holds(s1, x, c)
    {
      assert x != Thread(a) ==> !Holds(s, x, c);
    }
  }

  /** Connections that come into being in a step have an owner at once. */
  lemma NewHasOwner(s: State, step: Step, c: ConnId)
    requires Valid(s.ready) && Can(s, step) && c in Do(s, step).conns && c !in s.conns
    ensures Holds(Do(s, step), Thread(DISPATCHER), c)
  {
    assert step.Accept?;
  }

  /** A step loses no connection exactly when it is not one of the three abandoning kinds: with single ownership, every
      live connection then has exactly one owner. */
  lemma StepLosesNone(s: State, step: Step)
    requires Safe(s) && Can(s, step) && NoneLost(s)
    ensures NoneLost(Do(s, step)) <==> !Abandons(step)
  {
    if Abandons(step) {
      var c := AbandonedIsNowhere(s, step);
    } else {
      forall c | c in Do(s, step).conns
        ensures exists x :: Holds(Do(s, step), x, c)
      {
        if c in s.conns {
          var x :| Holds(s, x, c);
          StepFollows(s, step, x, c);
        } else {
          NewHasOwner(s, step, c);
        }
      }
    }
  }

  /** Over whole runs: while no step abandons, every live connection has exactly one owner. */
  lemma {:induction false} RunsLoseNone(s: State, steps: seq<Step>)
    requires Safe(s) && NoneLost(s) && Possible(s, steps) && forall step <- steps :: !Abandons(step)
    ensures Safe(Reached(s, steps))
    ensures forall c <- Reached(s, steps).conns :: exists x ::
      Holds(Reached(s, steps), x, c) && forall y :: Holds(Reached(s, steps), y, c) ==> y == x
    decreases |steps|
  {
    if steps == [] {
      forall c | c in s.conns
        ensures exists x :: Holds(s, x, c) && forall y :: Holds(s, y, c) ==> y == x
      {
        var x :| Holds(s, x, c);
      }
    } else {
      StepIsSafe(s, steps[0]);
      StepLosesNone(s, steps[0]);
      RunsLoseNone(Do(s, steps[0]), steps[1..]);
    }
  }
}
