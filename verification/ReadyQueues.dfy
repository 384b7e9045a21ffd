/** The ready queues of the connections scheduler: three priority classes served by a weighted round robin. */
module ReadyQueues {
  import opened Wrappers

  /** A connection, by the address of its object. */
  type ConnId = nat

  const PRIORITY_CLASSES := 3

  /** The queues, the class being served, and how many connections it has served in this turn. */
  datatype Ready = Ready(queues: seq<seq<ConnId>>, cur: nat, done: nat)

  /** A class serves at most one connection more than its number in a turn. */
  predicate Valid(r: Ready) {
    |r.queues| == PRIORITY_CLASSES && r.cur < PRIORITY_CLASSES && r.done <= r.cur + 1
  }

  function Size(r: Ready): nat
    requires Valid(r)
  {
    |r.queues[0]| + |r.queues[1]| + |r.queues[2]|
  }

  /** The turn passes on when the class has served its share or has nothing to serve. */
  function Turn(r: Ready): (r1: Ready)
    requires Valid(r)
    ensures Valid(r1)
  {
    if r.done > r.cur || r.queues[r.cur] == [] then Ready(r.queues, (r.cur + 1) % PRIORITY_CLASSES, 0) else r
  }

  /** Up to `n` classes are looked at, and the first connection found is taken. */
  function Scan(r: Ready, n: nat): (Option<ConnId>, Ready)
    requires Valid(r)
    decreases n
  {
    if n == 0 then (None, r)
    else
      var r1 := Turn(r);
      var q := r1.queues[r1.cur];
      if q != [] then (Some(q[0]), Ready(r1.queues[r1.cur := q[1..]], r1.cur, r1.done + 1))
      else Scan(r1, n - 1)
  }

  function Get(r: Ready): (Option<ConnId>, Ready)
    requires Valid(r)
  {
    Scan(r, PRIORITY_CLASSES)
  }

  function Push(r: Ready, p: nat, c: ConnId): (r1: Ready)
    requires Valid(r) && p < PRIORITY_CLASSES
    ensures Valid(r1) && Size(r1) == Size(r) + 1
  {
    r.(queues := r.queues[p := r.queues[p] + [c]])
  }

  /** The class that is served next, if any queue holds a connection. */
  function Served(r: Ready): nat
    requires Valid(r)
  {
    if r.done <= r.cur && r.queues[r.cur] != [] then r.cur
    else if r.queues[(r.cur + 1) % PRIORITY_CLASSES] != [] then (r.cur + 1) % PRIORITY_CLASSES
    else if r.queues[(r.cur + 2) % PRIORITY_CLASSES] != [] then (r.cur + 2) % PRIORITY_CLASSES
    else r.cur
  }

  /** `Get` is work conserving: it finds a connection whenever there is one, takes the oldest of the class it serves,
      and leaves all else in place. */
  lemma GetTakesOldest(r: Ready)
    requires Valid(r)
    ensures var (c, r1) := Get(r);
      && Valid(r1)
      && (c.None? <==> Size(r) == 0)
      && (c.None? ==> r1.queues == r.queues)
      && (c.Some? ==>
            var p := Served(r);
            && r.queues[p] != [] && c.value == r.queues[p][0]
            && r1.queues == r.queues[p := r.queues[p][1..]]
            && Size(r1) == Size(r) - 1
            && r1.cur == p && r1.done == (if p == r.cur && r.done <= r.cur then r.done + 1 else 1))
  {
    var r1 := Turn(r);
    if r1.queues[r1.cur] == [] {
      var r2 := Turn(r1);
      assert Scan(r, 3) == Scan(r1, 2);
      if r2.queues[r2.cur] == [] {
        assert Scan(r1, 2) == Scan(r2, 1);
        var r3 := Turn(r2);
        if r3.queues[r3.cur] == [] { assert Scan(r2, 1) == Scan(r3, 0); }
      }
    }
  }

  // ---- Runs ----

  /** What happens to the queues between two moments: a connection is pushed, or one is asked for. */
  datatype Event = Pushed(p: nat, c: ConnId) | Asked

  predicate Wellformed(evs: seq<Event>) {
    forall ev <- evs :: ev.Pushed? ==> ev.p < PRIORITY_CLASSES
  }

  function After(r: Ready, ev: Event): (r1: Ready)
    requires Valid(r) && (ev.Pushed? ==> ev.p < PRIORITY_CLASSES)
    ensures Valid(r1)
  {
    GetTakesOldest(r);
    if ev.Pushed? then Push(r, ev.p, ev.c) else Get(r).1
  }

  function Run(r: Ready, evs: seq<Event>): (r1: Ready)
    requires Valid(r) && Wellformed(evs)
    ensures Valid(r1)
    decreases |evs|
  {
    if evs == [] then r else Run(After(r, evs[0]), evs[1..])
  }

  function Pushes(ev: Event, p: nat): seq<ConnId> {
    if ev.Pushed? && ev.p == p then [ev.c] else []
  }

  /** The connection an event takes from class `p`, if it does. */
  function Takes(r: Ready, ev: Event, p: nat): seq<ConnId>
    requires Valid(r)
  {
    if ev.Asked? && Get(r).0.Some? && Served(r) == p then [Get(r).0.value] else []
  }

  /** The connections pushed to class `p`, in order. */
  function PushedTo(evs: seq<Event>, p: nat): seq<ConnId> {
    if evs == [] then [] else Pushes(evs[0], p) + PushedTo(evs[1..], p)
  }

  /** The connections taken from class `p`, in order. */
  function TakenFrom(r: Ready, evs: seq<Event>, p: nat): seq<ConnId>
    requires Valid(r) && Wellformed(evs)
    decreases |evs|
  {
    if evs == [] then [] else Takes(r, evs[0], p) + TakenFrom(After(r, evs[0]), evs[1..], p)
  }

  lemma EventIsFifo(r: Ready, ev: Event, p: nat)
    requires Valid(r) && (ev.Pushed? ==> ev.p < PRIORITY_CLASSES) && p < PRIORITY_CLASSES
    ensures Takes(r, ev, p) + After(r, ev).queues[p] == r.queues[p] + Pushes(ev, p)
  {
    GetTakesOldest(r);
  }

  /** Every class is first in, first out, and loses nothing: what was taken, followed by what still waits, is what
      waited at the start, followed by what was pushed. */
  lemma {:induction false} ClassIsFifo(r: Ready, evs: seq<Event>, p: nat)
    requires Valid(r) && Wellformed(evs) && p < PRIORITY_CLASSES
    ensures TakenFrom(r, evs, p) + Run(r, evs).queues[p] == r.queues[p] + PushedTo(evs, p)
    decreases |evs|
  {
    if evs != [] {
      var r1, rest := After(r, evs[0]), evs[1..];
      EventIsFifo(r, evs[0], p);
      ClassIsFifo(r1, rest, p);
      Chain(Takes(r, evs[0], p), TakenFrom(r1, rest, p), Run(r1, rest).queues[p], r1.queues[p], PushedTo(rest, p),
            r.queues[p], Pushes(evs[0], p));
    }
  }

  lemma Chain(t: seq<ConnId>, ts: seq<ConnId>, q2: seq<ConnId>, q1: seq<ConnId>, us: seq<ConnId>, q: seq<ConnId>,
              u: seq<ConnId>)
    requires t + q1 == q + u && ts + q2 == q1 + us
    ensures (t + ts) + q2 == q + (u + us)
  {
    assert (t + ts) + q2 == t + (ts + q2) == (t + q1) + us == q + (u + us);
  }

  /** How many connections were asked for. */
  function Asks(evs: seq<Event>): nat {
    if evs == [] then 0 else (if evs[0].Asked? then 1 else 0) + Asks(evs[1..])
  }

  /** A bound on the number of requests from the start of a turn of class `p` until the connection with `k` others
      before it is taken: every full turn of the class costs a round of six. */
  function FromTurn(p: nat, k: nat): nat {
    if k < p + 1 then k + 1 else 6 + FromTurn(p, k - (p + 1))
  }

  /** The same bound from any moment: what the classes before `p` may still serve comes first. */
  function Wait(cur: nat, done: nat, p: nat, k: nat): nat
    requires cur < PRIORITY_CLASSES && done <= cur + 1 && p < PRIORITY_CLASSES
  {
    if cur == p then
      var left := p + 1 - done;
      if k < left then k + 1 else left + (5 - p) + FromTurn(p, k - left)
    else
      var next := (cur + 1) % PRIORITY_CLASSES;
      (cur + 1 - done) + (if next == p then 0 else next + 1) + FromTurn(p, k)
  }

  lemma {:induction false} FromTurnIsBounded(p: nat, k: nat)
    requires p < PRIORITY_CLASSES
    ensures 0 < FromTurn(p, k) <= 6 * (k / (p + 1)) + k % (p + 1) + 1
  {
    if p + 1 <= k {
      FromTurnIsBounded(p, k - (p + 1));
      assert (k - (p + 1)) / (p + 1) == k / (p + 1) - 1 && (k - (p + 1)) % (p + 1) == k % (p + 1);
    }
  }

  lemma WaitIsBounded(cur: nat, done: nat, p: nat, k: nat)
    requires cur < PRIORITY_CLASSES && done <= cur + 1 && p < PRIORITY_CLASSES
    ensures 0 < Wait(cur, done, p, k) <= 6 * (k / (p + 1) + 1)
  {
    FromTurnIsBounded(p, k);
    if cur == p && p + 1 - done <= k { FromTurnIsBounded(p, k - (p + 1 - done)); }
  }

  /** Serving a class uses up one of its share; passing the turn on costs nothing. */
  lemma TurnsLowerWait(cur: nat, done: nat, p: nat, k: nat)
    requires cur < PRIORITY_CLASSES && done <= cur + 1 && p < PRIORITY_CLASSES
    ensures done <= cur && (cur != p || k > 0) ==>
              Wait(cur, done + 1, p, if cur == p then k - 1 else k) < Wait(cur, done, p, k)
    ensures cur != p || done > cur ==>
              Wait((cur + 1) % PRIORITY_CLASSES, 0, p, k) <= Wait(cur, done, p, k)
  {
  }

  /** A connection with `k` others before it in class `p` is nearer to being taken after a class was served. */
  ghost predicate Lowers(r: Ready, r1: Ready, p: nat, k: nat)
    requires Valid(r) && p < PRIORITY_CLASSES
  {
    && Valid(r1)
    && if r1.cur != p then Wait(r1.cur, r1.done, p, k) < Wait(r.cur, r.done, p, k)
       else k > 0 ==> Wait(r1.cur, r1.done, p, k - 1) < Wait(r.cur, r.done, p, k)
  }

  lemma TurnKeepsWait(r: Ready, p: nat, k: nat)
    requires Valid(r) && p < PRIORITY_CLASSES && k < |r.queues[p]|
    ensures var r1 := Turn(r);
      && r1.queues == r.queues && (r1.queues[r1.cur] == [] || r1.done <= r1.cur)
      && Wait(r1.cur, r1.done, p, k) <= Wait(r.cur, r.done, p, k)
  {
    TurnsLowerWait(r.cur, r.done, p, k);
  }

  lemma TakingLowersWait(r: Ready, queues: seq<seq<ConnId>>, p: nat, k: nat)
    requires Valid(r) && p < PRIORITY_CLASSES && r.done <= r.cur && |queues| == PRIORITY_CLASSES
    ensures Lowers(r, Ready(queues, r.cur, r.done + 1), p, k)
  {
    TurnsLowerWait(r.cur, r.done, p, k);
  }

  /** Each request either takes the connection or lowers the bound. */
  lemma RequestLowersWait(r: Ready, p: nat, k: nat)
    requires Valid(r) && p < PRIORITY_CLASSES && k < |r.queues[p]|
    ensures Size(r) > 0
    ensures var r1 := Get(r).1;
      && Valid(r1)
      && if Served(r) != p then Wait(r1.cur, r1.done, p, k) < Wait(r.cur, r.done, p, k)
         else k > 0 ==> Wait(r1.cur, r1.done, p, k - 1) < Wait(r.cur, r.done, p, k)
  {
    GetTakesOldest(r);
    ScanLowersWait(r, PRIORITY_CLASSES, p, k);
  }

  lemma {:induction false} ScanLowersWait(r: Ready, n: nat, p: nat, k: nat)
    requires Valid(r) && p < PRIORITY_CLASSES && k < |r.queues[p]|
    ensures Scan(r, n).0.Some? ==> Lowers(r, Scan(r, n).1, p, k)
    decreases n
  {
    if n > 0 {
      var r1 := Turn(r);
      TurnKeepsWait(r, p, k);
      if r1.queues[r1.cur] == [] {
        ScanLowersWait(r1, n - 1, p, k);
      } else {
        TakingLowersWait(r1, r1.queues[r1.cur := r1.queues[r1.cur][1..]], p, k);
      }
    }
  }

  /** An event takes the connection at place `k`, or leaves it there or one place further on; a request brings it
      nearer. */
  lemma EventLowersWait(r: Ready, ev: Event, p: nat, k: nat) returns (k1: nat)
    requires Valid(r) && (ev.Pushed? ==> ev.p < PRIORITY_CLASSES) && p < PRIORITY_CLASSES && k < |r.queues[p]|
    requires !(ev.Asked? && Served(r) == p && k == 0)
    ensures var r1 := After(r, ev);
      && k1 < |r1.queues[p]| && r1.queues[p][k1] == r.queues[p][k]
      && Wait(r1.cur, r1.done, p, k1) + (if ev.Asked? then 1 else 0) <= Wait(r.cur, r.done, p, k)
      && k1 == k - if ev.Asked? && Served(r) == p then 1 else 0
  {
    k1 := if ev.Asked? && Served(r) == p then k - 1 else k;
    if ev.Asked? {
      GetTakesOldest(r);
      RequestLowersWait(r, p, k);
    }
  }

  /** Bounded waiting: whatever is pushed in between, the connection with `k` others before it in class `p` is the
      answer to one of the next 6 * (k / (p + 1) + 1) requests. */
  lemma {:induction false} WaitingIsBounded(r: Ready, evs: seq<Event>, p: nat, k: nat) returns (i: nat)
    requires Valid(r) && Wellformed(evs) && p < PRIORITY_CLASSES && k < |r.queues[p]|
    requires 6 * (k / (p + 1) + 1) <= Asks(evs)
    ensures i < |evs| && evs[i].Asked? && Asks(evs[..i]) < 6 * (k / (p + 1) + 1)
    ensures var ri := Run(r, evs[..i]);
      Served(ri) == p && Get(ri).0 == Some(r.queues[p][k]) && |TakenFrom(r, evs[..i], p)| == k
  {
    WaitIsBounded(r.cur, r.done, p, k);
    i := TakenWithin(r, evs, p, k);
  }

  lemma {:induction false} TakenWithin(r: Ready, evs: seq<Event>, p: nat, k: nat) returns (i: nat)
    requires Valid(r) && Wellformed(evs) && p < PRIORITY_CLASSES && k < |r.queues[p]|
    requires Wait(r.cur, r.done, p, k) <= Asks(evs)
    ensures i < |evs| && evs[i].Asked? && Asks(evs[..i]) < Wait(r.cur, r.done, p, k)
    ensures var ri := Run(r, evs[..i]);
      Served(ri) == p && Get(ri).0 == Some(r.queues[p][k]) && |TakenFrom(r, evs[..i], p)| == k
    decreases |evs|
  {
    WaitIsBounded(r.cur, r.done, p, k);
    TakesOne(r, evs[0], p);
    var r1 := After(r, evs[0]);
    if evs[0].Asked? && Served(r) == p && k == 0 {
      i := 0;
    } else {
      var k1 := EventLowersWait(r, evs[0], p, k);
      var j := TakenWithin(r1, evs[1..], p, k1);
      i := j + 1;
      PrefixFrom(r, evs, j, p);
    }
  }

  lemma TakesOne(r: Ready, ev: Event, p: nat)
    requires Valid(r) && p < PRIORITY_CLASSES && r.queues[p] != []
    ensures |Takes(r, ev, p)| == if ev.Asked? && Served(r) == p then 1 else 0
    ensures Served(r) == p ==> Get(r).0 == Some(r.queues[p][0])
  {
    GetTakesOldest(r);
  }

  /** A run over some events is one event and the run over those after it. */
  lemma PrefixFrom(r: Ready, evs: seq<Event>, j: nat, p: nat)
    requires Valid(r) && Wellformed(evs) && j < |evs|
    ensures var r1, prefix, rest := After(r, evs[0]), evs[..j + 1], evs[1..][..j];
      && Run(r, prefix) == Run(r1, rest) && Asks(prefix) == (if evs[0].Asked? then 1 else 0) + Asks(rest)
      && TakenFrom(r, prefix, p) == Takes(r, evs[0], p) + TakenFrom(r1, rest, p)
  {
    assert evs[..j + 1][1..] == evs[1..][..j];
  }
}
