/**
 Correlation of replies on the RMI session (src/airo_fanuc/rmi_client.py): one requester
 at a time (the holder of the request lock), the one receiving thread, and anyone who
 polls the ring of asynchronous packets. `Step` runs one atomic action (one hold of the
 state lock, one inbox operation); an action that is not due does nothing.

 A packet is reduced to the three fields that route it; a field that is absent or not a
 string is `None`. `nr` numbers the packets as they are read.
 */
module RmiDispatch {
  import opened Options

  const MAX_ASYNC_QUEUE := 64

  datatype Packet = Packet(nr: nat, command: Option<string>, communication: Option<string>, instruction: Option<string>)

  /** A waiter: the number of its request and the identifier the reply must echo. */
  datatype Waiter = Waiter(serial: nat, identifier: Option<string>)

  datatype Message = Reply(p: Packet) | Failure

  datatype Requester =
    | Idle
    | Registered(w: Waiter)          // waiter installed, request not yet sent
    | Waiting(w: Waiter)             // in inbox.get
    | Leaving(w: Waiter, got: Option<Message>)  // took a message, timed out or failed to send; about to clear the waiter

  datatype Receiver =
    | Reading
    | Read(p: Packet)
    | Putting(w: Waiter, m: Message)  // chose this waiter; about to put
    | Orphaned(p: Packet)

  datatype Returned = Returned(w: Waiter, p: Packet)

  datatype State = State(
    open: bool, pending: Option<Waiter>, inboxes: map<nat, Message>, ring: seq<Packet>,
    requester: Requester, receiver: Receiver,
    requests: nat, packets: nat, stashed: seq<Packet>, polled: nat, put: seq<Packet>, returned: seq<Returned>)

  datatype Action =
    | OpenSession | CloseSocket | Register(identifier: Option<string>) | Send(ok: bool) | Take | TimeOut | Clear
    | Receive(command: Option<string>, communication: Option<string>, instruction: Option<string>)
    | Route | Put | Stash | SocketError(current: bool)
    | Poll

  function Init(): State {
    State(false, None, map[], [], Idle, Reading, 0, 0, [], 0, [], [])
  }

  predicate IsPush(p: Packet) {
    || p.communication in {Some("FRC_SystemFault"), Some("FRC_Terminate"), Some("FRC_AsbnReady")}
    || p.command == Some("Unknown")
  }

  /** The reply echoes the identifier in one of the three fields; no identifier matches anything. */
  predicate Matches(p: Packet, identifier: Option<string>) {
    identifier.None? || identifier in {p.command, p.communication, p.instruction}
  }

  function LastOf(s: seq<Packet>, n: nat): seq<Packet> { if |s| <= n then s else s[|s| - n..] }

  /** deque.append with maxlen: the oldest goes when it is full. */
  function Appended(ring: seq<Packet>, p: Packet): seq<Packet> { LastOf(ring + [p], MAX_ASYNC_QUEUE) }

  function Stashed(s: State, p: Packet): State {
    s.(ring := Appended(s.ring, p), stashed := s.stashed + [p], receiver := Reading)
  }

  function RequesterStep(s: State, a: Action): State {
    match a
    case OpenSession => if s.requester.Idle? then s.(open := true) else s
    case CloseSocket => if s.requester.Idle? then s.(open := false) else s
    case Register(identifier) =>
      if s.requester.Idle? && s.open then
        var w := Waiter(s.requests, identifier);
        s.(requests := s.requests + 1, pending := Some(w), requester := Registered(w))
      else s
    case Send(ok) =>
      if !s.requester.Registered? then s
      else if ok then s.(requester := Waiting(s.requester.w))
      else s.(requester := Leaving(s.requester.w, None))
    case Take =>
      if s.requester.Waiting? && s.requester.w.serial in s.inboxes then
        var w := s.requester.w;
        s.(requester := Leaving(w, Some(s.inboxes[w.serial])), inboxes := s.inboxes - {w.serial})
      else s
    case TimeOut =>
      if s.requester.Waiting? && s.requester.w.serial !in s.inboxes then s.(requester := Leaving(s.requester.w, None)) else s
    case Clear =>
      if s.requester.Leaving? then
        var w, got := s.requester.w, s.requester.got;
        s.(pending := if s.pending == Some(w) then None else s.pending, requester := Idle,
           returned := if got.Some? && got.value.Reply? then s.returned + [Returned(w, got.value.p)] else s.returned)
      else s
    case _ => s
  }

  function ReceiverStep(s: State, a: Action): State {
    match a
    case Receive(command, communication, instruction) =>
      if s.receiver.Reading? then
        s.(receiver := Read(Packet(s.packets, command, communication, instruction)), packets := s.packets + 1)
      else s
    case Route =>
      if !s.receiver.Read? then s
      else
        var p := s.receiver.p;
        if IsPush(p) then Stashed(s, p)
        else if s.pending.Some? && Matches(p, s.pending.value.identifier) then s.(receiver := Putting(s.pending.value, Reply(p)))
        else s.(receiver := Orphaned(p))
    case Put =>
      if s.receiver.Putting? && s.receiver.w.serial !in s.inboxes then
        var w, m := s.receiver.w, s.receiver.m;
        s.(inboxes := s.inboxes[w.serial := m], receiver := Reading, put := if m.Reply? then s.put + [m.p] else s.put)
      else s
    case Stash => if s.receiver.Orphaned? then Stashed(s, s.receiver.p) else s
    case SocketError(current) =>  // on the open socket, or on one already replaced
      if s.receiver.Reading? then
        s.(open := s.open && !current, pending := None,
           receiver := if s.pending.Some? then Putting(s.pending.value, Failure) else Reading)
      else s
    case _ => s
  }

  predicate OfReceiver(a: Action) { a.Receive? || a.Route? || a.Put? || a.Stash? || a.SocketError? }

  function Step(s: State, a: Action): State {
    if a.Poll? then s.(ring := [], polled := |s.stashed|)
    else if OfReceiver(a) then ReceiverStep(s, a)
    else RequesterStep(s, a)
  }

  function Run(s: State, schedule: seq<Action>): State {
    if schedule == [] then s else Step(Run(s, schedule[..|schedule| - 1]), schedule[|schedule| - 1])
  }

  lemma RunStep(s: State, schedule: seq<Action>, a: Action)
    ensures Run(s, schedule + [a]) == Step(Run(s, schedule), a)
  {
    assert (schedule + [a])[..|schedule|] == schedule;
  }

  lemma RunTwo(s: State, a: Action, b: Action)
    ensures Run(s, [a, b]) == Step(Step(s, a), b)
  {
    RunOne(s, a);
    RunStep(s, [a], b);
    hide Run, Step;
    assert [a] + [b] == [a, b];
  }

  lemma RunOne(s: State, a: Action)
    ensures Run(s, [a]) == Step(s, a)
  {
    hide Step;
    assert [a][..0] == [];
  }

  // ---- the invariant -----------------------------------------------------------

  predicate Answers(w: Waiter, m: Message) { m.Reply? ==> Matches(m.p, w.identifier) && !IsPush(m.p) }

  function WaiterOf(q: Requester): Option<Waiter> { if q.Idle? then None else Some(q.w) }

  /** Requests are numbered in order; only the newest can be under way. */
  predicate Waiters(s: State) {
    && (s.pending.Some? ==> s.pending == WaiterOf(s.requester))
    && (!s.requester.Idle? ==> s.requester.w.serial + 1 == s.requests)
    && (s.receiver.Putting? ==> s.receiver.w.serial < s.requests)
    && (forall k :: k in s.inboxes ==> k < s.requests)
  }

  /** Everything on the way to the waiter of request `k` answers the request. */
  predicate Answering(s: State, w: Waiter) {
    && (s.receiver.Putting? && s.receiver.w.serial == w.serial ==> s.receiver.w == w && Answers(w, s.receiver.m))
    && (w.serial in s.inboxes ==> Answers(w, s.inboxes[w.serial]))
  }

  predicate Delivery(s: State) {
    && (s.requester.Registered? || s.requester.Waiting? ==> Answering(s, s.requester.w))
    && (s.requester.Leaving? ==> (s.requester.got.Some? ==> Answers(s.requester.w, s.requester.got.value)))
    && (s.requester.Leaving? && s.receiver.Putting? && s.receiver.w.serial == s.requester.w.serial ==> s.receiver.w == s.requester.w)
    && (forall i :: 0 <= i < |s.returned| ==>
          s.returned[i].w.serial + (if s.requester.Idle? then 0 else 1) < s.requests
          && Answers(s.returned[i].w, Reply(s.returned[i].p)))
    && (forall i, j :: 0 <= i < j < |s.returned| ==> s.returned[i].w.serial < s.returned[j].w.serial)
  }

  predicate RingOk(s: State) {
    s.polled <= |s.stashed| && s.ring == LastOf(s.stashed[s.polled..], MAX_ASYNC_QUEUE)
  }

  lemma StepKeepsWaiters(s: State, a: Action)
    requires Waiters(s)
    ensures Waiters(Step(s, a))
  {
  }

  lemma RequesterKeepsDelivery(s: State, a: Action)
    requires Waiters(s) && Delivery(s)
    ensures Delivery(RequesterStep(s, a))
  {
  }

  lemma ReceiverKeepsDelivery(s: State, a: Action)
    requires Waiters(s) && Delivery(s)
    ensures Delivery(ReceiverStep(s, a))
  {
  }

  lemma LastOfAppend(s: seq<Packet>, p: Packet, n: nat)
    requires n > 0
    ensures LastOf(s + [p], n) == LastOf(LastOf(s, n) + [p], n)
  {
  }

  lemma StashKeepsRing(s: State, p: Packet)
    requires RingOk(s)
    ensures RingOk(Stashed(s, p))
  {
    hide LastOf;
    LastOfAppend(s.stashed[s.polled..], p, MAX_ASYNC_QUEUE);
    assert (s.stashed + [p])[s.polled..] == s.stashed[s.polled..] + [p];
  }

  lemma StepKeepsRing(s: State, a: Action)
    requires RingOk(s)
    ensures RingOk(Step(s, a))
  {
    hide Stashed, IsPush, Matches, LastOf;
    if a.Route? && s.receiver.Read? { StashKeepsRing(s, s.receiver.p); }
    if a.Stash? && s.receiver.Orphaned? { StashKeepsRing(s, s.receiver.p); }
    if a.Poll? { PolledRing(s.stashed); }
  }

  lemma PolledRing(stashed: seq<Packet>)
    ensures LastOf(stashed[|stashed|..], MAX_ASYNC_QUEUE) == []
  {
  }

  lemma {:induction false} RunKeepsInv(schedule: seq<Action>)
    ensures var s := Run(Init(), schedule); Waiters(s) && Delivery(s) && RingOk(s)
  {
    hide RequesterStep, ReceiverStep;
    if schedule != [] {
      var before, a := schedule[..|schedule| - 1], schedule[|schedule| - 1];
      RunKeepsInv(before);
      var s := Run(Init(), before);
      StepKeepsWaiters(s, a);
      RequesterKeepsDelivery(s, a);
      ReceiverKeepsDelivery(s, a);
      StepKeepsRing(s, a);
    }
  }

  /** At most one request waits, and the installed waiter is that request's. */
  lemma {:induction false} OneWaiter(schedule: seq<Action>)
    ensures var s := Run(Init(), schedule); s.pending.Some? ==> s.pending == WaiterOf(s.requester)
  {
    RunKeepsInv(schedule);
  }

  /** The ack of a program call, which nobody waits for. */
  predicate IsCallAck(p: Packet) { p.instruction == Some("FRC_Call") && p.command.None? && p.communication.None? }

  /**
   Every reply returned echoes its request's identifier and is no push packet; no request
   gets two; and a request that is not itself an FRC_Call never gets an FRC_Call ack.
   */
  lemma {:induction false} RepliesEcho(schedule: seq<Action>)
    ensures var s := Run(Init(), schedule);
            && (forall r :: r in s.returned ==> Matches(r.p, r.w.identifier) && !IsPush(r.p))
            && (forall r :: r in s.returned && r.w.identifier.Some? && r.w.identifier != Some("FRC_Call") ==> !IsCallAck(r.p))
            && (forall i, j :: 0 <= i < j < |s.returned| ==> s.returned[i].w.serial < s.returned[j].w.serial)
  {
    RunKeepsInv(schedule);
  }

  /** The ring is the last at most 64 packets stashed since the last poll, in order, reopens or not. */
  lemma {:induction false} RingIsLatest(schedule: seq<Action>)
    ensures var s := Run(Init(), schedule);
            s.polled <= |s.stashed| && s.ring == LastOf(s.stashed[s.polled..], MAX_ASYNC_QUEUE)
  {
    RunKeepsInv(schedule);
  }

  // ---- every packet goes to one place ------------------------------------------

  function CountNr(ps: seq<Packet>, nr: nat): nat {
    if ps == [] then 0 else (if ps[0].nr == nr then 1 else 0) + CountNr(ps[1..], nr)
  }

  function InHand(r: Receiver, nr: nat): nat {
    match r
    case Reading => 0
    case Read(p) => if p.nr == nr then 1 else 0
    case Putting(_, m) => if m.Reply? && m.p.nr == nr then 1 else 0
    case Orphaned(p) => if p.nr == nr then 1 else 0
  }

  predicate Routed(s: State, nr: nat) {
    InHand(s.receiver, nr) + CountNr(s.stashed, nr) + CountNr(s.put, nr) == if nr < s.packets then 1 else 0
  }

  lemma {:induction false} CountNrAppend(ps: seq<Packet>, p: Packet, nr: nat)
    ensures CountNr(ps + [p], nr) == CountNr(ps, nr) + (if p.nr == nr then 1 else 0)
  {
    if ps == [] {
      assert (ps + [p])[1..] == [];
    } else {
      CountNrAppend(ps[1..], p, nr);
      assert (ps + [p])[1..] == ps[1..] + [p];
    }
  }

  lemma ReceiverRoutes(s: State, a: Action, nr: nat)
    requires Routed(s, nr)
    ensures Routed(ReceiverStep(s, a), nr)
  {
    hide LastOf, IsPush, Matches;
    match a {
      case Route => if s.receiver.Read? { CountNrAppend(s.stashed, s.receiver.p, nr); }
      case Put => if s.receiver.Putting? && s.receiver.m.Reply? { CountNrAppend(s.put, s.receiver.m.p, nr); }
      case Stash => if s.receiver.Orphaned? { CountNrAppend(s.stashed, s.receiver.p, nr); }
      case _ =>
    }
  }

  lemma StepRoutes(s: State, a: Action, nr: nat)
    requires Routed(s, nr)
    ensures Routed(Step(s, a), nr)
  {
    hide CountNr, ReceiverStep;
    ReceiverRoutes(s, a, nr);
  }

  /** Each packet read goes to exactly one of a waiter's inbox and the ring, once, or is still in the receiver's hand. */
  lemma {:induction false} EachPacketOnce(schedule: seq<Action>, nr: nat)
    ensures var s := Run(Init(), schedule);
            InHand(s.receiver, nr) + CountNr(s.stashed, nr) + CountNr(s.put, nr) == if nr < s.packets then 1 else 0
  {
    if schedule != [] {
      EachPacketOnce(schedule[..|schedule| - 1], nr);
      hide Step;
      StepRoutes(Run(Init(), schedule[..|schedule| - 1]), schedule[|schedule| - 1], nr);
    }
  }

  // ---- where a packet goes -----------------------------------------------------

  /** The packet echoes the identifier in its command, communication or instruction field. */
  predicate Echoes(p: Packet, name: string) {
    p.command == Some(name) || p.communication == Some(name) || p.instruction == Some(name)
  }

  /** The three asynchronous announcements, and the answer to a request that was not understood. */
  predicate Announces(p: Packet) {
    || p.communication == Some("FRC_SystemFault") || p.communication == Some("FRC_Terminate")
    || p.communication == Some("FRC_AsbnReady") || p.command == Some("Unknown")
  }

  /**
   A packet that has been read is chosen for the installed waiter if and only if it announces
   nothing and either echoes the waiter's identifier or the request had none; an announcement goes
   to the ring at once, and any other packet is an orphan.
   */
  lemma RoutedIff(s: State, p: Packet)
    requires s.receiver == Read(p)
    ensures var s' := Step(s, Route);
            var wanted := s.pending.Some? && (s.pending.value.identifier.None? || Echoes(p, s.pending.value.identifier.value));
            && (!Announces(p) && wanted <==> s'.receiver.Putting?)
            && (!Announces(p) && wanted ==> s' == s.(receiver := Putting(s.pending.value, Reply(p))))
            && (!Announces(p) && !wanted ==> s' == s.(receiver := Orphaned(p)))
            && (Announces(p) ==> s'.receiver.Reading? && s'.stashed == s.stashed + [p] && s'.put == s.put)
  {
    hide Appended;
  }

  /** A reply that echoes the identifier of the request that waits is the one the request returns. */
  lemma EchoIsReturned(s: State, p: Packet, w: Waiter)
    requires s.receiver == Read(p) && s.pending == Some(w) && s.requester == Waiting(w) && w.serial !in s.inboxes
    requires !Announces(p) && w.identifier.Some? && Echoes(p, w.identifier.value)
    ensures Run(s, [Route, Put, Take, Clear])
            == s.(receiver := Reading, pending := None, requester := Idle, put := s.put + [p], returned := s.returned + [Returned(w, p)])
  {
    RoutedIff(s, p);
    RunTwo(s, Route, Put);
    hide Run, IsPush, Matches, Appended;
    var delivered := s.(receiver := Reading, inboxes := s.inboxes[w.serial := Reply(p)], put := s.put + [p]);
    assert Step(Step(s, Route), Put) == delivered;
    hide Step;
    TakenAndCleared(delivered, w, p);
    RunStep(s, [Route, Put], Take);
    RunStep(s, [Route, Put] + [Take], Clear);
    assert [Route, Put] + [Take] + [Clear] == [Route, Put, Take, Clear];
    assert delivered.inboxes - {w.serial} == s.inboxes;
  }

  lemma TakenAndCleared(s: State, w: Waiter, p: Packet)
    requires s.requester == Waiting(w) && s.pending == Some(w) && w.serial in s.inboxes && s.inboxes[w.serial] == Reply(p)
    ensures Step(Step(s, Take), Clear)
            == s.(inboxes := s.inboxes - {w.serial}, pending := None, requester := Idle, returned := s.returned + [Returned(w, p)])
  {
  }

  // ---- how a request ends ------------------------------------------------------

  /** Only an open session takes a request, one at a time; the next number and the identifier are the waiter's. */
  lemma SessionGates(s: State, identifier: Option<string>)
    ensures s.requester.Idle? ==>
              && Run(s, [CloseSocket, Register(identifier)]) == s.(open := false)
              && var w := Waiter(s.requests, identifier);
                 Run(s, [OpenSession, Register(identifier)])
                 == s.(open := true, requests := s.requests + 1, pending := Some(w), requester := Registered(w))
    ensures !s.requester.Idle? ==> Step(s, OpenSession) == Step(s, CloseSocket) == Step(s, Register(identifier)) == s
  {
    RunTwo(s, CloseSocket, Register(identifier));
    RunTwo(s, OpenSession, Register(identifier));
    hide Run;
  }

  /** A request that cannot be sent, or that nobody answers in time, ends with nothing and leaves no waiter behind. */
  lemma UnansweredEnds(s: State, w: Waiter)
    requires s.pending == Some(w)
    ensures s.requester == Registered(w) ==> Run(s, [Send(false), Clear]) == s.(pending := None, requester := Idle)
    ensures s.requester == Waiting(w) && w.serial !in s.inboxes ==>
              Run(s, [TimeOut, Clear]) == s.(pending := None, requester := Idle)
  {
    RunTwo(s, Send(false), Clear);
    RunTwo(s, TimeOut, Clear);
    hide Run;
  }

  /** A dead socket fails the request that waits, and from then on no packet is taken for its reply; the session is closed only if the socket was still its own. */
  lemma SocketErrorFails(s: State, w: Waiter, current: bool)
    requires s.receiver.Reading? && s.pending == Some(w) && s.requester == Waiting(w) && w.serial !in s.inboxes
    ensures Step(s, SocketError(current)) == s.(open := s.open && !current, pending := None, receiver := Putting(w, Failure))
    ensures Run(s, [SocketError(current), Put] + [Take, Clear])
            == s.(open := s.open && !current, pending := None, requester := Idle)
  {
    RunTwo(s, SocketError(current), Put);
    hide Run;
    var failed := s.(open := s.open && !current, pending := None, inboxes := s.inboxes[w.serial := Failure]);
    RunTwo(failed, Take, Clear);
    RunStep(s, [SocketError(current), Put], Take);
    RunStep(s, [SocketError(current), Put] + [Take], Clear);
    assert [SocketError(current), Put] + [Take] + [Clear] == [SocketError(current), Put] + [Take, Clear];
    assert failed.inboxes - {w.serial} == s.inboxes;
  }

  // ---- when the receiver blocks ------------------------------------------------

  /** The put waits on a full inbox. */
  predicate Blocked(s: State) { s.receiver.Putting? && s.receiver.w.serial in s.inboxes }

  /** The request the receiver is putting to can still take from its inbox. */
  predicate StillWanted(s: State)
    requires s.receiver.Putting?
  {
    (s.requester.Registered? || s.requester.Waiting?) && s.requester.w.serial == s.receiver.w.serial
  }

  lemma {:induction false} UnwantedBlocksForever(s: State, schedule: seq<Action>)
    requires Waiters(s) && Blocked(s) && !StillWanted(s)
    ensures var s' := Run(s, schedule);
            Waiters(s') && s'.receiver == s.receiver && Blocked(s') && !StillWanted(s')
    decreases |schedule|
  {
    if schedule != [] {
      UnwantedBlocksForever(s, schedule[..|schedule| - 1]);
      UnwantedStaysBlocked(Run(s, schedule[..|schedule| - 1]), schedule[|schedule| - 1]);
      StepKeepsWaiters(Run(s, schedule[..|schedule| - 1]), schedule[|schedule| - 1]);
    }
  }

  lemma UnwantedStaysBlocked(s: State, a: Action)
    requires Waiters(s) && Blocked(s) && !StillWanted(s)
    ensures var s' := Step(s, a); s'.receiver == s.receiver && Blocked(s') && !StillWanted(s')
  {
  }

  /** The receiving thread, blocked on a full inbox, ever goes on if and only if that request still waits. */
  lemma BlockedReceiverFreedIff(before: seq<Action>)
    requires Blocked(Run(Init(), before))
    ensures (exists schedule :: !Blocked(Run(Run(Init(), before), schedule))) <==> StillWanted(Run(Init(), before))
  {
    var s := Run(Init(), before);
    RunKeepsInv(before);
    if StillWanted(s) {
      assert Run(s, []) == s;
      RunStep(s, [], Send(true));
      RunStep(s, [] + [Send(true)], Take);
      assert !Blocked(Run(s, [] + [Send(true)] + [Take]));
    } else {
      forall schedule ensures Blocked(Run(s, schedule)) { UnwantedBlocksForever(s, schedule); }
    }
  }

  lemma Extend(s: State, trace: seq<Action>, a: Action) returns (s': State, more: seq<Action>)
    requires s == Run(Init(), trace)
    ensures s' == Step(s, a) && s' == Run(Init(), more)
  {
    more := trace + [a];
    s' := Step(s, a);
    RunStep(Init(), trace, a);
  }

  lemma MatchingPacketArrives(s: State, trace: seq<Action>, name: Option<string>) returns (s': State, more: seq<Action>)
    requires s == Run(Init(), trace) && s.receiver.Reading? && s.pending.Some? && s.pending.value.identifier == name
    requires name.Some? && name.value == "FRC_GetStatus"
    ensures s' == Run(Init(), more)
    ensures s' == s.(packets := s.packets + 1, receiver := Putting(s.pending.value, Reply(Packet(s.packets, name, None, None))))
  {
    hide Run, Stashed;
    s', more := Extend(s, trace, Receive(name, None, None));
    s', more := Extend(s', more, Route);
  }

  lemma RequestTimesOut(name: Option<string>) returns (s: State, trace: seq<Action>)
    ensures s == Run(Init(), trace)
    ensures var w := Waiter(0, name);
            s == Init().(open := true, pending := Some(w), requests := 1, requester := Leaving(w, None))
  {
    assert Run(Init(), []) == Init();
    hide Run, Stashed;
    s, trace := Extend(Init(), [], OpenSession);
    s, trace := Extend(s, trace, Register(name));
    s, trace := Extend(s, trace, Send(true));
    s, trace := Extend(s, trace, TimeOut);
  }

  /** Two matching packets that arrive as a request times out leave the receiving thread blocked for good. */
  lemma ReceiverCanBlockForever()
    ensures exists before :: var s := Run(Init(), before); Blocked(s) && !StillWanted(s)
  {
    hide Run, Stashed;
    var name := Some("FRC_GetStatus");
    var s, trace := RequestTimesOut(name);
    s, trace := MatchingPacketArrives(s, trace, name);
    s, trace := Extend(s, trace, Put);
    s, trace := MatchingPacketArrives(s, trace, name);
    assert Blocked(s) && !StillWanted(s);
  }

  // ---- the receiving thread's own methods --------------------------------------

  lemma AppendedForm(ring: seq<Packet>, p: Packet)
    requires |ring| <= MAX_ASYNC_QUEUE
    ensures Appended(ring, p) == if |ring| == MAX_ASYNC_QUEUE then ring[1..] + [p] else ring + [p]
  {
    assert (ring + [p])[1..] == if |ring| > 0 then ring[1..] + [p] else [];
  }

  lemma RingFits(s: State)
    requires RingOk(s)
    ensures |s.ring| <= MAX_ASYNC_QUEUE
  {
  }

  class Client {
    var pending: Option<Waiter>
    var inboxes: map<nat, Message>
    var asyncPackets: seq<Packet>
    ghost var state: State

    ghost predicate Agrees()
      reads this
    {
      state.pending == pending && state.inboxes == inboxes && state.ring == asyncPackets && RingOk(state)
    }

    /** _stash_async_packet: onto the ring, evicting the oldest when it is full. */
    method StashAsyncPacket(p: Packet)
      requires Agrees() && state.receiver == Orphaned(p)
      modifies this`asyncPackets, this`state
      ensures Agrees() && state == Step(old(state), Stash)
      ensures asyncPackets != [] && asyncPackets[|asyncPackets| - 1] == p
    {
      StepKeepsRing(state, Stash);
      RingFits(state);
      AppendedForm(asyncPackets, p);
      hide LastOf, Appended, RingOk, IsPush, Matches;
      asyncPackets := if |asyncPackets| == MAX_ASYNC_QUEUE then asyncPackets[1..] + [p] else asyncPackets + [p];
      state := Step(state, Stash);
    }

    /** _dispatch: a push packet or an orphan to the ring, a matching reply to the waiter; `stuck` on a full inbox. */
    method Dispatch(p: Packet) returns (stuck: bool)
      requires Agrees() && state.receiver == Read(p)
      modifies this
      ensures Agrees() && state == Step(Step(Step(old(state), Route), Put), Stash)
      ensures stuck <==> Blocked(state)
      ensures !stuck ==> state.receiver.Reading?
    {
      StepKeepsRing(state, Route);
      hide LastOf, Appended, RingOk, Matches, IsPush;
      if IsPush(p) {
        asyncPackets := Appended(asyncPackets, p);
        state := Step(state, Route);
        return false;
      }
      state := Step(state, Route);
      if pending.Some? && Matches(p, pending.value.identifier) {
        if pending.value.serial in inboxes { return true; }
        inboxes := inboxes[pending.value.serial := Reply(p)];
        StepKeepsRing(state, Put);
        state := Step(state, Put);
        return false;
      }
      StashAsyncPacket(p);
      return false;
    }

    /** poll_async_packets: everything stashed since the last poll, at most the last 64. */
    method PollAsyncPackets() returns (drained: seq<Packet>)
      requires Agrees()
      modifies this`asyncPackets, this`state
      ensures Agrees() && state == Step(old(state), Poll) && asyncPackets == []
      ensures drained == LastOf(old(state).stashed[old(state).polled..], MAX_ASYNC_QUEUE)
    {
      StepKeepsRing(state, Poll);
      drained := asyncPackets;
      asyncPackets := [];
      state := Step(state, Poll);
    }
  }
}
