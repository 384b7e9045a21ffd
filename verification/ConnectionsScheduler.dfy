/** The state the connections scheduler updates under its locks, and the methods that update it. */
module Scheduling {
  import opened Wrappers
  import opened ReadyQueues

  type Handle = nat

  /** The priority class of a connection: its own priority, or its host's when it has none, cut to the classes there
      are. */
  function ClassOf(priority: int, hostDefault: Option<int>): (p: nat)
    ensures p < PRIORITY_CLASSES
    ensures 0 <= priority <= 2 ==> p == priority
    ensures (priority < -1 ==> p == 0) && (priority > 2 ==> p == 2)
  {
    var p := if priority == -1 && hostDefault.Some? then hostDefault.value else priority;
    if p < 0 then 0 else if p >= PRIORITY_CLASSES then PRIORITY_CLASSES - 1 else p
  }

  /** More priority never means a lower class; and the default of the host counts for priority -1, and for no other. */
  lemma ClassFollowsPriority(priority: int, more: int, hostDefault: Option<int>)
    ensures priority <= more ==> ClassOf(priority, None) <= ClassOf(more, None)
    ensures priority != -1 ==> ClassOf(priority, hostDefault) == ClassOf(priority, None)
    ensures ClassOf(-1, None) == 0 && ClassOf(-1, Some(-1)) == 0
    ensures more != -1 ==> ClassOf(-1, Some(more)) == ClassOf(more, None)
  {
  }

  class ConnectionsScheduler {
    var ready: array<seq<ConnId>>
    var currentPriority: nat
    var currentPriorityDone: nat
    var connections: map<Handle, ConnId>
    /** The connections whose scheduled flag is set. */
    var scheduled: set<ConnId>

    function State(): Ready
      reads this, ready
    {
      Ready(ready[..], currentPriority, currentPriorityDone)
    }

    constructor ()
      ensures Valid(State()) && Size(State()) == 0 && connections == map[] && scheduled == {} && fresh(ready)
    {
      ready := new seq<ConnId>[PRIORITY_CLASSES](_ => []);
      currentPriority, currentPriorityDone := 0, 0;
      connections, scheduled := map[], {};
    }

    /** addReadyConnectionImpl, up to the release of the ready mutex. */
    method PushReady(c: ConnId, priority: int, hostDefault: Option<int>)
      requires Valid(State())
      modifies this`scheduled, ready
      ensures State() == Push(old(State()), ClassOf(priority, hostDefault), c)
      ensures scheduled == old(scheduled) + {c}
      ensures 0 <= priority <= 2 ==> ready[priority] == old(ready[priority]) + [c]
      ensures priority < -1 || (priority == -1 && (hostDefault.None? || hostDefault.value < 0)) ==>
        ready[0] == old(ready[0]) + [c]
      ensures priority > 2 || (priority == -1 && hostDefault.Some? && hostDefault.value > 2) ==>
        ready[2] == old(ready[2]) + [c]
      ensures priority == -1 && hostDefault.Some? && 0 <= hostDefault.value <= 2 ==>
        ready[hostDefault.value] == old(ready[hostDefault.value]) + [c]
    {
      var p := if priority == -1 && hostDefault.Some? then hostDefault.value else priority;
      if p < 0 { p := 0; }
      if PRIORITY_CLASSES - 1 < p { p := PRIORITY_CLASSES - 1; }
      scheduled := scheduled + {c};
      ready[p] := ready[p] + [c];
    }

    /** getConnection, after the semaphore has let the caller through. */
    method PopReady() returns (ret: Option<ConnId>)
      requires Valid(State())
      modifies this`currentPriority, this`currentPriorityDone, this`scheduled, ready
      ensures (ret, State()) == Get(old(State()))
      ensures scheduled == old(scheduled) - (if ret.Some? then {ret.value} else {})
    {
      ret := None;
      var i := 0;
      while i < PRIORITY_CLASSES
        invariant i <= PRIORITY_CLASSES && ret == None && Valid(State())
        invariant Get(old(State())) == Scan(State(), PRIORITY_CLASSES - i)
        invariant scheduled == old(scheduled)
      {
        ghost var before := State();
        if currentPriorityDone > currentPriority || |ready[currentPriority]| == 0 {
          currentPriority := (currentPriority + 1) % PRIORITY_CLASSES;
          currentPriorityDone := 0;
        }
        assert State() == Turn(before);
        if |ready[currentPriority]| != 0 {
          ret := Some(ready[currentPriority][0]);
          scheduled := scheduled - {ret.value};
          ready[currentPriority] := ready[currentPriority][1..];
          currentPriorityDone := currentPriorityDone + 1;
          return;
        }
        i := i + 1;
      }
    }

    /** addWaitingConnectionImpl, up to the release of the connections mutex. */
    method PutWaiting(c: ConnId, handle: Handle)
      modifies this`scheduled, this`connections
      ensures scheduled == old(scheduled) - {c} && connections == old(connections)[handle := c]
    {
      scheduled := scheduled - {c};
      connections := connections[handle := c];
    }

    /** removeConnection, for a connection whose socket has the given handle, or that has none. */
    method RemoveConnection(socket: Option<Handle>)
      modifies this`connections
      ensures connections == old(connections) - (if socket.Some? then {socket.value} else {})
    {
      if socket.Some? { connections := connections - {socket.value}; }
    }
  }
}
