/** The ready queues within the protocol: whatever the threads do in between, they run as on their own, so that their
    laws hold in every interleaving. */
module SchedulerFairness {
  import opened Wrappers
  import opened ReadyQueues
  import opened SchedulerProtocol
  import opened SchedulerTheorems

  /** What a step does to the ready queues. */
  function EventOf(s: State, step: Step): (ev: Option<Event>)
    ensures Valid(s.ready) && Can(s, step) && ev.Some? && ev.value.Pushed? ==> ev.value.p < PRIORITY_CLASSES
  {
    match step
    case PushTo(a, p) => if At(s, a).Pushing? then Some(Pushed(p, At(s, a).c)) else None
    case Pop(_) => Some(Asked)
    case _ => None
  }

  /** What a run does to them. */
  ghost function Trace(s: State, steps: seq<Step>): (evs: seq<Event>)
    requires Sound(s) && Possible(s, steps)
    ensures Wellformed(evs)
    decreases |steps|
  {
    if steps == [] then []
    else
      StepIsSound(s, steps[0]);
      var rest := Trace(Do(s, steps[0]), steps[1..]);
      if EventOf(s, steps[0]).Some? then [EventOf(s, steps[0]).value] + rest else rest
  }

  lemma StepRuns(s: State, step: Step)
    requires Sound(s) && Can(s, step)
    ensures var ev := EventOf(s, step);
      Do(s, step).ready == if ev.Some? then After(s.ready, ev.value) else s.ready
  {
    if !OfThread(step) {
      LoopKeepsQueues(s, step);
    } else if !step.PushTo? && !step.Pop? {
      ThreadsKeepQueues(s, step);
    }
  }

  lemma LoopKeepsQueues(s: State, step: Step)
    requires Sound(s) && Can(s, step) && !OfThread(step)
    ensures Do(s, step).ready == s.ready
  {
  }

  lemma ThreadsKeepQueues(s: State, step: Step)
    requires Sound(s) && Can(s, step) && OfThread(step) && !step.PushTo? && !step.Pop?
    ensures Do(s, step).ready == s.ready
  {
  }

  /** In every run the queues are those that its pushes and requests alone lead to. */
  lemma {:induction false} QueuesRunAlone(s: State, steps: seq<Step>)
    requires Sound(s) && Possible(s, steps)
    ensures Reached(s, steps).ready == Run(s.ready, Trace(s, steps))
    decreases |steps|
  {
    if steps != [] {
      StepIsSound(s, steps[0]);
      StepRuns(s, steps[0]);
      QueuesRunAlone(Do(s, steps[0]), steps[1..]);
      var ev, rest := EventOf(s, steps[0]), Trace(Do(s, steps[0]), steps[1..]);
      if ev.Some? { assert ([ev.value] + rest)[1..] == rest; }
    }
  }

  /** So every class is first in, first out in every interleaving. */
  lemma RunsAreFifo(s: State, steps: seq<Step>, p: nat)
    requires Sound(s) && Possible(s, steps) && p < PRIORITY_CLASSES
    ensures Valid(Reached(s, steps).ready)
    ensures TakenFrom(s.ready, Trace(s, steps), p) + Reached(s, steps).ready.queues[p]
         == s.ready.queues[p] + PushedTo(Trace(s, steps), p)
  {
    QueuesRunAlone(s, steps);
    ClassIsFifo(s.ready, Trace(s, steps), p);
  }

  // ---- Bounded waiting ----

  /** How many connections the workers of a run ask for. */
  function Pops(steps: seq<Step>): nat {
    if steps == [] then 0 else (if steps[0].Pop? then 1 else 0) + Pops(steps[1..])
  }

  /** A step takes the connection at place `k`, or leaves it there or one place further on; a request brings it nearer.
      */
  lemma StepLowersWait(s: State, step: Step, p: nat, k: nat) returns (k1: nat)
    requires Sound(s) && Can(s, step) && p < PRIORITY_CLASSES && k < |s.ready.queues[p]|
    requires !(step.Pop? && Served(s.ready) == p && k == 0)
    ensures var r, r1 := s.ready, Do(s, step).ready;
      && Valid(r1) && k1 < |r1.queues[p]| && r1.queues[p][k1] == r.queues[p][k]
      && Wait(r1.cur, r1.done, p, k1) + (if step.Pop? then 1 else 0) <= Wait(r.cur, r.done, p, k)
  {
    StepRuns(s, step);
    k1 := k;
    if EventOf(s, step).Some? { k1 := EventLowersWait(s.ready, EventOf(s, step).value, p, k); }
  }

  lemma PopGets(s: State, a: Agent, p: nat)
    requires Sound(s) && Can(s, Pop(a)) && p < PRIORITY_CLASSES && s.ready.queues[p] != [] && Served(s.ready) == p
    ensures At(Do(s, Pop(a)), a) == Got(s.ready.queues[p][0])
  {
    GetTakesOldest(s.ready);
  }

  lemma {:induction false} GotWithin(s: State, steps: seq<Step>, p: nat, k: nat) returns (i: nat)
    requires Sound(s) && Possible(s, steps) && p < PRIORITY_CLASSES && k < |s.ready.queues[p]|
    requires Wait(s.ready.cur, s.ready.done, p, k) <= Pops(steps)
    ensures i < |steps| && steps[i].Pop? && Pops(steps[..i]) < Wait(s.ready.cur, s.ready.done, p, k)
    ensures Possible(s, steps[..i + 1])
    ensures At(Reached(s, steps[..i + 1]), steps[i].a) == Got(s.ready.queues[p][k])
    decreases |steps|
  {
    WaitIsBounded(s.ready.cur, s.ready.done, p, k);
    StepIsSound(s, steps[0]);
    if steps[0].Pop? && Served(s.ready) == p && k == 0 {
      i := 0;
      PopGets(s, steps[0].a, p);
      FirstStep(s, steps);
    } else {
      var k1 := StepLowersWait(s, steps[0], p, k);
      var j := GotWithin(Do(s, steps[0]), steps[1..], p, k1);
      i := j + 1;
      assert steps[..i][1..] == steps[1..][..j];
      LaterStep(s, steps, j + 1);
    }
  }

  lemma FirstStep(s: State, steps: seq<Step>)
    requires Sound(s) && steps != [] && Can(s, steps[0])
    ensures Possible(s, steps[..1]) && Reached(s, steps[..1]) == Do(s, steps[0])
  {
    assert steps[..1] == [steps[0]] && [steps[0]][1..] == [];
    StepIsSound(s, steps[0]);
  }

  lemma LaterStep(s: State, steps: seq<Step>, n: nat)
    requires Sound(s) && n < |steps| && Can(s, steps[0]) && Sound(Do(s, steps[0]))
    requires Possible(Do(s, steps[0]), steps[1..][..n])
    ensures Possible(s, steps[..n + 1]) && Reached(s, steps[..n + 1]) == Reached(Do(s, steps[0]), steps[1..][..n])
  {
    assert steps[..n + 1][1..] == steps[1..][..n];
  }

  /** Bounded waiting: however the steps of the threads interleave, the connection with `k` others before it in class
      `p` goes to the worker that makes one of the next 6 * (k / (p + 1) + 1) requests. */
  lemma GotInTime(s: State, steps: seq<Step>, p: nat, k: nat) returns (i: nat)
    requires Sound(s) && Possible(s, steps) && p < PRIORITY_CLASSES && k < |s.ready.queues[p]|
    requires 6 * (k / (p + 1) + 1) <= Pops(steps)
    ensures i < |steps| && steps[i].Pop? && Pops(steps[..i]) < 6 * (k / (p + 1) + 1)
    ensures Possible(s, steps[..i + 1])
    ensures At(Reached(s, steps[..i + 1]), steps[i].a) == Got(s.ready.queues[p][k])
  {
    WaitIsBounded(s.ready.cur, s.ready.done, p, k);
    i := GotWithin(s, steps, p, k);
  }
}
