/** Handlers of connections of their own, which the dispatcher calls in place of the ready queues. The proxy's frees the
    connection and leaves the handle map as it is. */
module SchedulerHandlers {
  import opened ReadyQueues
  import opened SchedulerProtocol
  import opened SchedulerTheorems

  /** The state after the handler; `ToHandler` is the case in which the connection is not freed. */
  function AfterHandler(s: State, freed: bool): State {
    var d := At(s, DISPATCHER);
    Moved(if freed && d.Found? then s.(conns := s.conns - {d.c}) else s, DISPATCHER, Idle)
  }

  /** The connection the dispatcher has looked up is in the table. */
  ghost predicate FoundInTable(s: State) {
    var d := At(s, DISPATCHER);
    d.Found? ==> d.c in s.conns && s.conns[d.c].handle in s.table && s.table[s.conns[d.c].handle] == d.c
  }

  /** It stays there, as no other thread holds it. */
  lemma StepKeepsFound(s: State, step: Step)
    requires Safe(s) && Can(s, step) && FoundInTable(s)
    ensures FoundInTable(Do(s, step))
  {
    if step.Lookup? {
      StepIsSound(s, step);
      FoundIsInTable(s);
    } else if At(Do(s, step), DISPATCHER).Found? {
      FoundStays(s, step);
      OthersKeepFound(s, step, At(s, DISPATCHER).c);
    }
  }

  lemma FoundStays(s: State, step: Step)
    requires Valid(s.ready) && Placed(s) && Can(s, step) && !step.Lookup?
    ensures At(Do(s, step), DISPATCHER).Found? ==> At(s, DISPATCHER) == At(Do(s, step), DISPATCHER) && OfThread(step)
  {
  }

  lemma FoundIsInTable(s: State)
    requires Safe(s) && Can(s, Lookup)
    ensures FoundInTable(Do(s, Lookup))
  {
  }

  lemma OthersKeepFound(s: State, step: Step, c: ConnId)
    requires Safe(s) && Can(s, step) && FoundInTable(s) && !step.Lookup?
    requires At(Do(s, step), DISPATCHER).Found? && At(s, DISPATCHER) == At(Do(s, step), DISPATCHER)
    requires At(s, DISPATCHER).c == c && OfThread(step)
    ensures FoundInTable(Do(s, step))
  {
    if step.Serve? {
      ServeKeepsFound(s, step.a, step.v, c);
    } else if step.Destroy? {
      DestroyKeepsFound(s, step.a, c);
    } else {
      OthersKeepTable(s, step, c);
    }
  }

  predicate KeepsTable(s: State, s1: State, c: ConnId) {
    s1.table == s.table && c in s.conns && c in s1.conns && s1.conns[c].handle == s.conns[c].handle
  }

  lemma OthersKeepTable(s: State, step: Step, c: ConnId)
    requires Valid(s.ready) && Can(s, step) && At(s, DISPATCHER).Found? && c in s.conns
    requires OfThread(step) && !step.Serve? && !step.Destroy?
    ensures KeepsTable(s, Do(s, step), c)
  {
    if step.PushTo? || step.Check? || step.Post? || step.Start? || step.Lock? {
      PushersKeepTable(s, step, c);
    } else {
      TakersKeepTable(s, step, c);
    }
  }

  lemma PushersKeepTable(s: State, step: Step, c: ConnId)
    requires Valid(s.ready) && Can(s, step) && c in s.conns
    requires step.PushTo? || step.Check? || step.Post? || step.Start? || step.Lock?
    ensures KeepsTable(s, Do(s, step), c)
  {
  }

  lemma TakersKeepTable(s: State, step: Step, c: ConnId)
    requires Valid(s.ready) && Can(s, step) && c in s.conns
    requires step.Pop? || step.Engage? || step.Send? || step.Return? || step.Exit?
    ensures KeepsTable(s, Do(s, step), c)
  {
  }

  lemma DestroyKeepsFound(s: State, a: Agent, c: ConnId)
    requires Safe(s) && Can(s, Destroy(a)) && FoundInTable(s)
    requires At(s, DISPATCHER).Found? && At(s, DISPATCHER).c == c
    ensures FoundInTable(Do(s, Destroy(a)))
  {
    assert Holds(s, Thread(DISPATCHER), c);
    assert Holds(s, Thread(a), s.agents[a].c);
  }

  lemma ServeKeepsFound(s: State, a: Agent, v: Verdict, c: ConnId)
    requires Safe(s) && Can(s, Serve(a, v)) && FoundInTable(s)
    requires At(s, DISPATCHER).Found? && At(s, DISPATCHER).c == c
    ensures FoundInTable(Do(s, Serve(a, v)))
  {
    var c1 := s.agents[a].c;
    assert Holds(s, Thread(DISPATCHER), c);
    assert Holds(s, Thread(a), c1);
    assert c1 in s.conns && s.conns[c1].handle != s.conns[c].handle;
  }

  lemma {:induction false} RunsKeepFound(s: State, steps: seq<Step>)
    requires Safe(s) && FoundInTable(s) && Possible(s, steps)
    ensures Safe(Reached(s, steps)) && FoundInTable(Reached(s, steps))
    decreases |steps|
  {
    if steps != [] {
      StepIsSafe(s, steps[0]);
      StepKeepsFound(s, steps[0]);
      RunsKeepFound(Do(s, steps[0]), steps[1..]);
    }
  }

  /** In every state in which the dispatcher may call a handler, the handle map points to live connections afterwards
      exactly when the handler does not free its connection; and then the step is sound. */
  lemma HandlerIsSoundIff(s: State, steps: seq<Step>, freed: bool)
    requires Initial(s) && Sound(s) && Possible(s, steps) && At(Reached(s, steps), DISPATCHER).Found?
    ensures var s1 := AfterHandler(Reached(s, steps), freed);
      && (NoDangling(s1) <==> !freed) && (Sound(s1) <==> !freed)
  {
    EveryRunIsSafe(s, steps);
    RunsKeepFound(s, steps);
    var r := Reached(s, steps);
    if freed { FreedDangles(r); } else { StepIsSound(r, ToHandler); }
  }

  lemma FreedDangles(s: State)
    requires Sound(s) && FoundInTable(s) && At(s, DISPATCHER).Found?
    ensures !NoDangling(AfterHandler(s, true))
  {
    var s1, c := AfterHandler(s, true), At(s, DISPATCHER).c;
    var h := s.conns[c].handle;
    assert h in s1.table && s1.table[h] !in s1.conns;
  }
}
