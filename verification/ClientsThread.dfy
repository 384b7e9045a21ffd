/** How a worker puts a request together from what it receives, call by call. */
module ClientsThread {

  type Byte = bv8

  /** The most bytes of a request a worker looks at, terminator included. */
  const KB8 := 8192

  /** What the protocol answers. Before an answer not to wait it puts into the connection's buffer itself what the next
      call is to hand over. After an answer of none of the four codes the connection is neither deleted nor handed on.
      */
  datatype Answer = DeleteConnection | KeepConnection | IncompleteRequest | IncompleteNoWait(left: seq<Byte>)
    | OtherAnswer

  /** What became of a call: the connection was deleted before the protocol saw anything, because nothing was received
      or because too much was there, or the protocol was handed some bytes. */
  datatype Outcome = NothingReceived | TooLong | Handed(request: seq<Byte>)

  /** What a connection keeps of a request, and whether the next call does not receive. */
  datatype Pending = Pending(kept: seq<Byte>, force: bool)

  function OutcomeOf(s: Pending, received: seq<Byte>): Outcome {
    if s.force then if |s.kept| < KB8 then Handed(s.kept) else TooLong
    else if received == [] then NothingReceived
    else if |s.kept + received| < KB8 then Handed(s.kept + received) else TooLong
  }

  function KeptAfter(kept: seq<Byte>, request: seq<Byte>, answer: Answer): seq<Byte> {
    match answer
    case KeepConnection => []
    case IncompleteRequest => request
    case IncompleteNoWait(left) => left
    case _ => kept
  }

  // ---- Runs ----

  /** One call: what is received, and the protocol's answer. */
  datatype Call = Call(received: seq<Byte>, answer: Answer)

  function Step(s: Pending, call: Call): Pending {
    var o := OutcomeOf(s, call.received);
    if o.Handed? then Pending(KeptAfter(s.kept, o.request, call.answer), call.answer.IncompleteNoWait?)
    else Pending(s.kept, false)
  }

  /** What a connection keeps after some calls. */
  function After(s: Pending, calls: seq<Call>): Pending
    decreases |calls|
  {
    if calls == [] then s else After(Step(s, calls[0]), calls[1..])
  }

  /** A connection as it is accepted; its first call may be one that does not receive. */
  function Accepted(first: bool): Pending {
    Pending([], first)
  }

  function Init(calls: seq<Call>): seq<Call>
    requires calls != []
  {
    calls[..|calls| - 1]
  }

  function Last(calls: seq<Call>): Call
    requires calls != []
  {
    calls[|calls| - 1]
  }

  /** Whether the next call does not receive: at the start, or after an answer not to wait. */
  predicate Forced(first: bool, calls: seq<Call>) {
    if calls == [] then first else Last(calls).answer.IncompleteNoWait?
  }

  /** What the next call receives. */
  function Received(first: bool, calls: seq<Call>, received: seq<Byte>): seq<Byte> {
    if Forced(first, calls) then [] else received
  }

  /** What is kept for the next call: nothing of a whole request, all of an incomplete one, and what the protocol left
      when it answered not to wait. */
  function Kept(first: bool, calls: seq<Call>): seq<Byte>
    decreases |calls|, 1
  {
    if calls == [] then [] else KeptAfter(Kept(first, Init(calls)), LastRequest(first, calls), Last(calls).answer)
  }

  /** What the last call hands over. */
  function LastRequest(first: bool, calls: seq<Call>): seq<Byte>
    requires calls != []
    decreases |calls|, 0
  {
    Kept(first, Init(calls)) + Received(first, Init(calls), Last(calls).received)
  }

  /** Every call that receives gets something, and no more than there is room for; none finds too much in the buffer,
      and no answer ends the life of the connection. */
  ghost predicate Orderly(first: bool, calls: seq<Call>) {
    calls == [] || (Orderly(first, Init(calls)) && Fits(first, Init(calls), Last(calls).received)
      && !Last(calls).answer.DeleteConnection? && !Last(calls).answer.OtherAnswer?)
  }

  predicate Fits(first: bool, calls: seq<Call>, received: seq<Byte>) {
    if Forced(first, calls) then |Kept(first, calls)| < KB8 else 0 < |received| <= KB8 - |Kept(first, calls)| - 1
  }

  lemma {:induction false} AfterLast(s: Pending, calls: seq<Call>, last: Call)
    ensures After(s, calls + [last]) == Step(After(s, calls), last)
    decreases |calls|
  {
    if calls == [] {
      assert calls + [last] == [last] && [last][1..] == [];
    } else {
      AfterLast(Step(s, calls[0]), calls[1..], last);
      assert (calls + [last])[1..] == calls[1..] + [last];
    }
  }

  lemma OneCall(s: Pending, call: Call)
    ensures After(s, [call]) == Step(s, call)
  {
    AfterLast(s, [], call);
    assert [] + [call] == [call];
  }

  /** What a connection keeps after orderly calls. */
  lemma {:induction false} KeepsRest(first: bool, calls: seq<Call>)
    requires Orderly(first, calls)
    ensures After(Accepted(first), calls) == Pending(Kept(first, calls), Forced(first, calls))
    decreases |calls|
  {
    if calls != [] {
      KeepsRest(first, Init(calls));
      HandedIs(first, Init(calls), Last(calls).received);
      AfterLast(Accepted(first), Init(calls), Last(calls));
      assert calls == Init(calls) + [Last(calls)];
    }
  }

  lemma HandedIs(first: bool, calls: seq<Call>, received: seq<Byte>)
    requires Fits(first, calls, received)
    ensures OutcomeOf(Pending(Kept(first, calls), Forced(first, calls)), received)
         == Handed(Kept(first, calls) + Received(first, calls, received))
  {
    assert Kept(first, calls) + [] == Kept(first, calls);
  }

  /** What a call hands to the protocol, after any number of orderly calls; it is always less than the limit. */
  lemma HandsRest(first: bool, calls: seq<Call>, received: seq<Byte>)
    requires Orderly(first, calls) && Fits(first, calls, received)
    ensures OutcomeOf(After(Accepted(first), calls), received)
         == Handed(Kept(first, calls) + Received(first, calls, received))
    ensures |Kept(first, calls) + Received(first, calls, received)| < KB8
  {
    KeepsRest(first, calls);
    HandedIs(first, calls, received);
  }

  /** After an answer not to wait the next call hands over exactly what the protocol left. */
  lemma HandsLeft(first: bool, calls: seq<Call>, received: seq<Byte>)
    requires calls != [] && Orderly(first, calls) && Last(calls).answer.IncompleteNoWait?
    ensures |Last(calls).answer.left| < KB8 ==>
      OutcomeOf(After(Accepted(first), calls), received) == Handed(Last(calls).answer.left)
    ensures |Last(calls).answer.left| >= KB8 ==> OutcomeOf(After(Accepted(first), calls), received) == TooLong
  {
    KeepsRest(first, calls);
  }

  // ---- Conservation ----

  predicate EndsWith(s: seq<Byte>, end: seq<Byte>) {
    |end| <= |s| && s[|s| - |end|..] == end
  }

  /** Whenever the protocol answers not to wait, what it leaves is the end of what it was handed. */
  predicate LeavesEnds(first: bool, calls: seq<Call>) {
    calls == [] || (LeavesEnds(first, Init(calls))
      && (Last(calls).answer.IncompleteNoWait? ==> EndsWith(LastRequest(first, calls), Last(calls).answer.left)))
  }

  /** What the protocol has used up: the requests it called whole, and of those it wants to go on with at once the part
      in front of what it left. */
  function Consumed(first: bool, calls: seq<Call>): seq<Byte> {
    if calls == [] then [] else Consumed(first, Init(calls)) + LastConsumed(first, calls)
  }

  function LastConsumed(first: bool, calls: seq<Call>): seq<Byte>
    requires calls != []
  {
    UsedOf(LastRequest(first, calls), Last(calls).answer)
  }

  function UsedOf(request: seq<Byte>, answer: Answer): seq<Byte> {
    match answer
    case KeepConnection => request
    case IncompleteNoWait(left) => if |left| <= |request| then request[..|request| - |left|] else []
    case _ => []
  }

  /** All that was received. */
  function All(first: bool, calls: seq<Call>): seq<Byte> {
    if calls == [] then []
    else All(first, Init(calls)) + Received(first, Init(calls), Last(calls).received)
  }

  /** What was used up, followed by what is kept, is what was received. */
  ghost predicate Balanced(first: bool, calls: seq<Call>) {
    Consumed(first, calls) + Kept(first, calls) == All(first, calls)
  }

  /** The balance holds after each of the calls. */
  ghost predicate AlwaysBalanced(first: bool, calls: seq<Call>) {
    Balanced(first, calls) && (calls != [] ==> AlwaysBalanced(first, Init(calls)))
  }

  /** One call keeps the balance exactly when it leaves an end. */
  lemma BalanceKept(first: bool, calls: seq<Call>)
    requires calls != [] && Orderly(first, calls) && Balanced(first, Init(calls))
    ensures Balanced(first, calls) <==>
      (Last(calls).answer.IncompleteNoWait? ==> EndsWith(LastRequest(first, calls), Last(calls).answer.left))
  {
    var kept, last := Kept(first, Init(calls)), Last(calls);
    Regroup(Consumed(first, Init(calls)), kept, Received(first, Init(calls), last.received),
            LastConsumed(first, calls), Kept(first, calls));
    UsedUp(kept, LastRequest(first, calls), last.answer);
  }

  /** When what was used up before and what was kept are all, and the bytes handed over are split, the whole is as
      before exactly when nothing changes within those bytes. */
  lemma Regroup(c: seq<Byte>, kept: seq<Byte>, received: seq<Byte>, used: seq<Byte>, left: seq<Byte>)
    ensures (c + used) + left == (c + kept) + received <==> used + left == kept + received
  {
    Assoc(c, used, left);
    Assoc(c, kept, received);
    SamePrefix(c, used + left, kept + received);
  }

  lemma UsedUp(kept: seq<Byte>, request: seq<Byte>, a: Answer)
    requires !a.DeleteConnection? && !a.OtherAnswer?
    ensures UsedOf(request, a) + KeptAfter(kept, request, a) == request <==>
      (a.IncompleteNoWait? ==> EndsWith(request, a.left))
  {
    if a.IncompleteNoWait? { EndIs(request, a.left); }
  }

  lemma SamePrefix(x: seq<Byte>, y: seq<Byte>, z: seq<Byte>)
    ensures x + y == x + z <==> y == z
  {
    assert (x + y)[|x|..] == y && (x + z)[|x|..] == z;
  }

  lemma EndIs(s: seq<Byte>, end: seq<Byte>)
    ensures (if |end| <= |s| then s[..|s| - |end|] else []) + end == s <==> EndsWith(s, end)
  {
    if |end| <= |s| {
      assert s == s[..|s| - |end|] + s[|s| - |end|..];
      SamePrefix(s[..|s| - |end|], end, s[|s| - |end|..]);
    }
  }

  /** No byte is lost, doubled or out of place, at any time in a run, exactly when whatever the protocol leaves is the
      end of what it was handed. */
  lemma {:induction false} BalancedIff(first: bool, calls: seq<Call>)
    requires Orderly(first, calls)
    ensures AlwaysBalanced(first, calls) <==> LeavesEnds(first, calls)
    decreases |calls|
  {
    if calls != [] {
      BalancedIff(first, Init(calls));
      if Balanced(first, Init(calls)) { BalanceKept(first, calls); }
    }
  }

  /** Then what is kept always leaves room to receive. */
  lemma EndsStayShort(first: bool, calls: seq<Call>)
    requires Orderly(first, calls) && LeavesEnds(first, calls)
    ensures |Kept(first, calls)| < KB8
  {
  }

  /** And a call always hands over what was received and not used up: nothing is ever too long. */
  lemma HandsUnused(first: bool, calls: seq<Call>, received: seq<Byte>)
    requires Orderly(first, calls) && LeavesEnds(first, calls)
    requires !Forced(first, calls) ==> 0 < |received| <= KB8 - |Kept(first, calls)| - 1
    ensures var o := OutcomeOf(After(Accepted(first), calls), received);
      o.Handed? && Consumed(first, calls) + o.request == All(first, calls) + Received(first, calls, received)
  {
    EndsStayShort(first, calls);
    HandsRest(first, calls, received);
    BalancedNow(first, calls);
    var kept, r := Kept(first, calls), Received(first, calls, received);
    Assoc(Consumed(first, calls), kept, r);
  }

  lemma BalancedNow(first: bool, calls: seq<Call>)
    requires Orderly(first, calls) && LeavesEnds(first, calls)
    ensures Balanced(first, calls)
  {
    BalancedIff(first, calls);
  }

  lemma Assoc(x: seq<Byte>, y: seq<Byte>, z: seq<Byte>)
    ensures x + (y + z) == (x + y) + z
  {
  }

  // ---- Since the last whole request ----

  /** All that was received since the protocol last had a whole request. */
  function SinceKeep(first: bool, calls: seq<Call>): seq<Byte> {
    if calls == [] || Last(calls).answer.KeepConnection? then []
    else SinceKeep(first, Init(calls)) + Received(first, Init(calls), Last(calls).received)
  }

  /** Since then, every answer not to wait left all that was handed over. */
  predicate LeavesAll(first: bool, calls: seq<Call>) {
    calls == [] || Last(calls).answer.KeepConnection? || (LeavesAll(first, Init(calls))
      && (Last(calls).answer.IncompleteNoWait? ==> Last(calls).answer.left == LastRequest(first, calls)))
  }

  lemma {:induction false} UnusedSinceKeep(first: bool, calls: seq<Call>)
    requires Orderly(first, calls) && LeavesEnds(first, calls)
    ensures |Kept(first, calls)| <= |SinceKeep(first, calls)|
    ensures if LeavesAll(first, calls) then Kept(first, calls) == SinceKeep(first, calls)
            else |Kept(first, calls)| < |SinceKeep(first, calls)|
    decreases |calls|
  {
    if calls != [] && !Last(calls).answer.KeepConnection? {
      UnusedSinceKeep(first, Init(calls));
      if Last(calls).answer.IncompleteNoWait? { WholeEnd(LastRequest(first, calls), Last(calls).answer.left); }
    }
  }

  lemma WholeEnd(s: seq<Byte>, end: seq<Byte>)
    requires EndsWith(s, end)
    ensures if end == s then |end| == |s| else |end| < |s|
  {
    if |end| == |s| { assert s[0..] == s; }
  }

  /** A call hands over all that was received since the protocol last had a whole request exactly when every answer not
      to wait since then left all that was handed over. */
  lemma HandsAllSinceKeepIff(first: bool, calls: seq<Call>, received: seq<Byte>)
    requires Orderly(first, calls) && LeavesEnds(first, calls) && Fits(first, calls, received)
    ensures var all := SinceKeep(first, calls) + Received(first, calls, received);
      OutcomeOf(After(Accepted(first), calls), received) == Handed(all) <==> LeavesAll(first, calls)
  {
    HandsRest(first, calls, received);
    UnusedSinceKeep(first, calls);
    var handed, all := Kept(first, calls) + Received(first, calls, received),
      SinceKeep(first, calls) + Received(first, calls, received);
    if !LeavesAll(first, calls) { assert |handed| < |all|; }
  }

  // ---- Pipelining ----

  /** The bytes before the first NUL. */
  function StrLen(s: seq<Byte>): (n: nat)
    ensures n <= |s|
  {
    if s == [] || s[0] == 0 then 0 else 1 + StrLen(s[1..])
  }

  /** The HTTP answer to a request without a body that was served well and keeps the connection: `n` is the length of
      its header. What comes behind the header is stored for the next call when there is a byte of it by strlen. */
  function Pipelined(request: seq<Byte>, n: nat): Answer
    requires n <= |request|
  {
    if StrLen(request) == n then KeepConnection else IncompleteNoWait(request[n..])
  }

  lemma {:induction false} NoNulBefore(s: seq<Byte>, n: nat)
    requires n <= |s| && forall i | 0 <= i < n :: s[i] != 0
    ensures StrLen(s) == n <==> n == |s| || s[n] == 0
    decreases n
  {
    if n > 0 { NoNulBefore(s[1..], n - 1); }
  }

  /** What the HTTP protocol leaves is always an end of the request. Of what comes behind a header without NUL the next
      call has all, exactly when it does not begin with a NUL. */
  lemma PipelinedKeepsRest(request: seq<Byte>, n: nat)
    requires n <= |request|
    ensures Pipelined(request, n).IncompleteNoWait? ==>
      Pipelined(request, n).left == request[n..] && EndsWith(request, Pipelined(request, n).left)
    ensures (forall i | 0 <= i < n :: request[i] != 0) ==>
      (KeptAfter([], request, Pipelined(request, n)) == request[n..] <==> n == |request| || request[n] != 0)
  {
    if forall i | 0 <= i < n :: request[i] != 0 { NoNulBefore(request, n); }
  }

  class Connection {
    var buffer: seq<Byte>
    var forceControl: bool

    constructor (forceControl: bool)
      ensures State() == Accepted(forceControl)
    {
      buffer, this.forceControl := [], forceControl;
    }

    function State(): Pending
      reads this
    {
      Pending(buffer, forceControl)
    }
  }

  class Worker {
    /** The thread's own buffer, used for one call after another. */
    var buffer: array<Byte>

    constructor (bufferSize: nat)
      requires KB8 <= bufferSize
      ensures fresh(buffer) && buffer.Length == bufferSize
    {
      buffer := new Byte[bufferSize];
    }

    /** The call of recv: at most `room` bytes are stored from an offset on. */
    method Recv(offset: nat, room: nat, received: seq<Byte>) returns (err: nat)
      requires |received| <= room && offset + room <= buffer.Length
      modifies buffer
      ensures err == |received| && buffer[offset..offset + err] == received
    {
      err := |received|;
      for i := 0 to err
        invariant buffer[offset..offset + i] == received[..i]
      {
        buffer[offset + i] := received[i];
        assert buffer[offset..offset + i + 1] == buffer[offset..offset + i] + [received[i]];
      }
    }

    /** controlConnections for a connection: `received` is what recv delivers, and `answer` what the protocol answers
        when it is handed a request. Unless it is deleted or abandoned, the connection goes back to the scheduler. */
    method ControlConnections(c: Connection, received: seq<Byte>, answer: Answer) returns (o: Outcome, deleted: bool)
      requires KB8 <= buffer.Length
      requires !c.forceControl ==> |c.buffer| < KB8 && |received| <= KB8 - |c.buffer| - 1
      modifies c, buffer
      ensures o == OutcomeOf(old(c.State()), received)
      ensures o.NothingReceived? <==> !old(c.forceControl) && received == []
      ensures o.TooLong? <==> old(c.forceControl) && |old(c.buffer)| >= 8192
      ensures o.Handed? ==> o.request == if old(c.forceControl) then old(c.buffer) else old(c.buffer) + received
      ensures deleted <==> (!old(c.forceControl) && received == [])
                           || (old(c.forceControl) && |old(c.buffer)| >= 8192) || answer == DeleteConnection
      ensures o.Handed? && answer == KeepConnection ==> c.buffer == [] && !c.forceControl
      ensures o.Handed? && answer == IncompleteRequest ==> c.buffer == o.request && !c.forceControl
      ensures o.Handed? && answer.IncompleteNoWait? ==> c.buffer == answer.left && c.forceControl
      ensures !o.Handed? || answer.DeleteConnection? || answer.OtherAnswer? ==>
        c.buffer == old(c.buffer) && !c.forceControl
      ensures c.State() == After(old(c.State()), [Call(received, answer)])
    {
      OneCall(c.State(), Call(received, answer));
      o := Receive(c, received);
      if !o.Handed? { return o, true; }
      deleted := false;
      Control(c, answer);
      match answer {
        case DeleteConnection => deleted := true;
        case KeepConnection => c.buffer := [];
        case IncompleteRequest => c.buffer := o.request;
        case IncompleteNoWait(_) => c.forceControl := true;
        case OtherAnswer =>
      }
    }

    /** The protocol's part: before it answers not to wait it fills the connection's buffer. */
    method Control(c: Connection, answer: Answer)
      modifies c`buffer
      ensures c.buffer == if answer.IncompleteNoWait? then answer.left else old(c.buffer)
    {
      if answer.IncompleteNoWait? { c.buffer := answer.left; }
    }

    /** The part of it before the protocol is called: the request is put together in the thread's buffer. */
    method Receive(c: Connection, received: seq<Byte>) returns (o: Outcome)
      requires KB8 <= buffer.Length
      requires !c.forceControl ==> |c.buffer| < KB8 && |received| <= KB8 - |c.buffer| - 1
      modifies c`forceControl, buffer
      ensures o == OutcomeOf(old(c.State()), received)
      ensures o.NothingReceived? <==> !old(c.forceControl) && received == []
      ensures o.TooLong? <==> old(c.forceControl) && |c.buffer| >= 8192
      ensures o.Handed? ==> o.request == if old(c.forceControl) then c.buffer else c.buffer + received
      ensures o.Handed? ==> |o.request| < KB8 && o.request <= buffer[..]
      ensures !c.forceControl
    {
      var dataRead, err := |c.buffer|, 0;
      ghost var got := if c.forceControl then [] else received;
      if !c.forceControl {
        err := Recv(dataRead, KB8 - dataRead - 1, received);
        if err <= 0 { return NothingReceived; }
      }
      c.forceControl := false;
      if dataRead + err < KB8 {
        buffer[dataRead + err] := 0;
      } else {
        return TooLong;
      }
      assert buffer[dataRead..][..err] == got;
      CopyIn(c.buffer);
      var nBytesToRead := dataRead + err;
      assert buffer[dataRead..nBytesToRead] == buffer[dataRead..][..err] && c.buffer + [] == c.buffer;
      assert buffer[..nBytesToRead] == buffer[..dataRead] + buffer[dataRead..nBytesToRead] == c.buffer + got;
      o := Handed(buffer[..nBytesToRead]);
    }

    /** The bytes kept from earlier calls go to the front. */
    method CopyIn(data: seq<Byte>)
      requires |data| <= buffer.Length
      modifies buffer
      ensures buffer[..|data|] == data && buffer[|data|..] == old(buffer[|data|..])
    {
      for i := 0 to |data|
        invariant buffer[..i] == data[..i] && buffer[|data|..] == old(buffer[|data|..])
      {
        buffer[i] := data[i];
        assert buffer[..i + 1] == buffer[..i] + [data[i]];
      }
    }
  }
}
