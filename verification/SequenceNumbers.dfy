/**
 The client's side of the SequenceID (src/airo_fanuc/rmi_client.py): how calls are numbered,
 what a restart, a reseed, a disconnect and a broken connection do to the numbers, and the
 methods that do it.
 */
module SequenceNumbers {
  import opened Options
  import opened SequenceId

  function Sends(reaches: seq<bool>): seq<Action> { seq(|reaches|, i requires 0 <= i < |reaches| => SendCall(reaches[i])) }

  function Delivers(n: nat): seq<Action> { seq(n, _ => Deliver) }

  /** The numbers of the calls that reach the wire, when the first one sent is numbered `first`. */
  function Numbers(first: nat, reaches: seq<bool>): seq<nat>
    decreases |reaches|
  {
    if reaches == [] then [] else (if reaches[0] then [first] else []) + Numbers(first + 1, reaches[1..])
  }

  function Calls(numbers: seq<nat>, base: Option<nat>): seq<Message> {
    seq(|numbers|, i requires 0 <= i < |numbers| => Call(numbers[i], base))
  }

  function Accepts(numbers: seq<nat>, base: Option<nat>): seq<Event> {
    seq(|numbers|, i requires 0 <= i < |numbers| => Accepted(numbers[i], base))
  }

  lemma {:induction false} RunConcat(s: State, a: seq<Action>, b: seq<Action>)
    ensures Run(s, a + b) == Run(Run(s, a), b)
    decreases |b|
  {
    if b == [] {
      assert a + b == a;
    } else {
      var n := |b| - 1;
      RunConcat(s, a, b[..n]);
      assert (a + b)[..|a + b| - 1] == a + b[..n] && (a + b)[|a + b| - 1] == b[n];
    }
  }

  lemma RunFirst(s: State, a: Action, rest: seq<Action>)
    ensures Run(s, [a] + rest) == Run(Step(s, a), rest)
  {
    RunConcat(s, [a], rest);
    RunOne(s, a);
    hide Run, Step;
  }

  /** Calls are numbered one by one, those that never reach the wire included, and all carry the client's reading. */
  lemma {:induction false} NumbersInOrder(s: State, reaches: seq<bool>)
    requires s.holder.Free?
    ensures Run(s, Sends(reaches)) ==
            s.(client := s.client + |reaches|, sent := s.sent + |Numbers(s.client, reaches)|,
               wire := s.wire + Calls(Numbers(s.client, reaches), s.base))
    decreases |reaches|
  {
    if reaches == [] {
      assert s.wire + Calls([], s.base) == s.wire;
    } else {
      var s', rest := Step(s, SendCall(reaches[0])), Numbers(s.client + 1, reaches[1..]);
      assert Sends(reaches) == [SendCall(reaches[0])] + Sends(reaches[1..]);
      CallsFirst(s.client, rest, s.base);
      assert s'.wire + Calls(rest, s.base) == s.wire + Calls(Numbers(s.client, reaches), s.base);
      hide Run, Calls, Sends, Numbers;
      RunFirst(s, SendCall(reaches[0]), Sends(reaches[1..]));
      NumbersInOrder(s', reaches[1..]);
    }
  }

  predicate Ascending(numbers: seq<nat>, from: nat) {
    && (forall i :: 0 <= i < |numbers| ==> numbers[i] >= from)
    && (forall i, j :: 0 <= i < j < |numbers| ==> numbers[i] < numbers[j])
  }

  lemma {:induction false} NumbersAscend(first: nat, reaches: seq<bool>)
    ensures Ascending(Numbers(first, reaches), first)
    decreases |reaches|
  {
    if reaches != [] { NumbersAscend(first + 1, reaches[1..]); }
  }

  lemma AscendingRest(numbers: seq<nat>, from: nat)
    requires Ascending(numbers, from) && numbers != []
    ensures Ascending(numbers[1..], numbers[0] + 1)
  {
  }

  lemma AcceptsFirst(numbers: seq<nat>, base: Option<nat>)
    requires numbers != []
    ensures Accepts(numbers, base) == [Accepted(numbers[0], base)] + Accepts(numbers[1..], base)
  {
  }

  lemma CallsFirst(first: nat, rest: seq<nat>, base: Option<nat>)
    ensures Calls([first] + rest, base) == [Call(first, base)] + Calls(rest, base)
  {
  }

  lemma FirstAccepted(s: State, numbers: seq<nat>, base: Option<nat>)
    requires numbers != [] && numbers[0] >= s.controller && s.wire == Calls(numbers, base)
    ensures Step(s, Deliver)
            == s.(wire := Calls(numbers[1..], base), controller := numbers[0] + 1, accepted := s.accepted + [numbers[0]],
                  log := s.log + [Accepted(numbers[0], base)])
  {
    assert s.wire[1..] == Calls(numbers[1..], base);
  }

  /** The state once the controller has accepted these calls and nothing else is on the wire. */
  function AllAccepted(s: State, numbers: seq<nat>, base: Option<nat>): State {
    s.(wire := [], accepted := s.accepted + numbers, log := s.log + Accepts(numbers, base),
       controller := if numbers == [] then s.controller else numbers[|numbers| - 1] + 1)
  }

  lemma AcceptedInTurn(s: State, s': State, numbers: seq<nat>, base: Option<nat>)
    requires numbers != []
    requires s' == s.(wire := s'.wire, controller := numbers[0] + 1, accepted := s.accepted + [numbers[0]],
                      log := s.log + [Accepted(numbers[0], base)])
    ensures AllAccepted(s', numbers[1..], base) == AllAccepted(s, numbers, base)
  {
    AcceptsFirst(numbers, base);
    hide Accepts;
    assert s.accepted + numbers == s'.accepted + numbers[1..];
    assert s.log + Accepts(numbers, base) == s'.log + Accepts(numbers[1..], base);
  }

  /** A controller that expects no more than the first number accepts ascending calls one and all. */
  lemma {:induction false} AscendingCallsAccepted(s: State, numbers: seq<nat>, base: Option<nat>)
    requires Ascending(numbers, s.controller) && s.wire == Calls(numbers, base)
    ensures Run(s, Delivers(|numbers|)) == AllAccepted(s, numbers, base)
    decreases |numbers|
  {
    if numbers == [] {
      assert s.accepted + numbers == s.accepted && s.log + Accepts(numbers, base) == s.log;
    } else {
      FirstAccepted(s, numbers, base);
      AscendingRest(numbers, s.controller);
      assert Delivers(|numbers|) == [Deliver] + Delivers(|numbers| - 1);
      hide Run, Step, Calls, Accepts, Delivers, Ascending, AllAccepted;
      var s' := Step(s, Deliver);
      RunFirst(s, Deliver, Delivers(|numbers| - 1));
      AscendingCallsAccepted(s', numbers[1..], base);
      AcceptedInTurn(s, s', numbers, base);
    }
  }

  /**
   A client whose next number the controller has not passed can send any number of calls, losing any
   of them on the way: each that arrives is accepted under its own number, in order.
   */
  lemma BurstIsAccepted(s: State, reaches: seq<bool>)
    requires s.holder.Free? && s.wire == [] && s.controller <= s.client
    ensures var numbers := Numbers(s.client, reaches);
            var s' := Run(s, Sends(reaches) + Delivers(|numbers|));
            && s'.accepted == s.accepted + numbers && s'.log == s.log + Accepts(numbers, s.base)
            && s'.client == s.client + |reaches| && s'.controller <= s'.client
  {
    hide Run, Step, Numbers, Sends, Delivers, Calls, Accepts, Ascending;
    var numbers: seq<nat> := Numbers(s.client, reaches);
    RunConcat(s, Sends(reaches), Delivers(|numbers|));
    NumbersInOrder(s, reaches);
    NumbersAscend(s.client, reaches);
    AscendingFrom(numbers, s.client, s.controller);
    NumbersBelow(s.client, reaches);
    var sent := s.(client := s.client + |reaches|, sent := s.sent + |numbers|, wire := Calls(numbers, s.base));
    assert s.wire + Calls(numbers, s.base) == Calls(numbers, s.base);
    AscendingCallsAccepted(sent, numbers, s.base);
  }

  lemma AscendingFrom(numbers: seq<nat>, from: nat, lower: nat)
    requires Ascending(numbers, from) && lower <= from
    ensures Ascending(numbers, lower)
  {
  }

  lemma {:induction false} NumbersBelow(first: nat, reaches: seq<bool>)
    ensures forall i :: 0 <= i < |Numbers(first, reaches)| ==> Numbers(first, reaches)[i] < first + |reaches|
    decreases |reaches|
  {
    if reaches != [] { NumbersBelow(first + 1, reaches[1..]); }
  }

  /** A new process numbers from 1: its first call, sent without asking, is dropped exactly by a controller that expects more. */
  lemma RestartedCallDroppedIff(s: State)
    requires s.holder.Free? && s.wire == []
    ensures var s' := Run(s, [RestartClient, SendCall(true), Deliver]);
            s'.log == s.log + [if s.controller > 1 then Dropped(1, None) else Accepted(1, None)]
  {
    RunThree(s, RestartClient, SendCall(true), Deliver);
    hide Run, Without;
    assert Orphans([]) == [];
  }

  lemma RunThree(s: State, a: Action, b: Action, c: Action)
    ensures Run(s, [a, b, c]) == Step(Step(Step(s, a), b), c)
  {
    RunOne(s, a);
    RunStep(s, [a], b);
    RunStep(s, [a] + [b], c);
    hide Run, Step;
    assert [a] + [b] + [c] == [a, b, c];
  }

  lemma RunOne(s: State, a: Action)
    ensures Run(s, [a]) == Step(s, a)
  {
    hide Step;
    assert [a][..0] == [];
  }

  /** The locked reseed of a new process: ask, read, assign. */
  const RESEED := [SendStatus(true), Deliver, TakeReply] + [Assign, SendCall(true), Deliver]

  lemma Reseeds(s: State)
    requires s.holder.Free? && s.wire == [] && s.replies == []
    ensures Run(s, [SendStatus(true), Deliver, TakeReply])
            == s.(holder := Seeding(Reading(s.controller, |s.log|, s.sent)), log := s.log + [StatusRead(s.controller)])
  {
    RunThree(s, SendStatus(true), Deliver, TakeReply);
    hide Run;
  }

  /** And with the reseed its first call is accepted, whatever the controller expects, under that number or 1. */
  lemma ReseedHeals(s: State)
    requires s.holder.Free? && s.wire == [] && s.replies == []
    ensures var s' := Run(s, RESEED);
            var number := if s.controller < 1 then 1 else s.controller;
            && s'.log == s.log + [StatusRead(s.controller), Accepted(number, Some(|s.log|))]
            && s'.client == s'.controller == number + 1 && s'.holder.Free?
  {
    RunConcat(s, [SendStatus(true), Deliver, TakeReply], [Assign, SendCall(true), Deliver]);
    Reseeds(s);
    var asked := s.(holder := Seeding(Reading(s.controller, |s.log|, s.sent)), log := s.log + [StatusRead(s.controller)]);
    RunThree(asked, Assign, SendCall(true), Deliver);
    hide Run;
  }

  /** A public reseed takes the number as it is, a locked one at least 1. */
  lemma AssignedNumber(s: State, i: nat)
    ensures s.holder.Seeding? ==> Step(s, Assign).client == (if s.holder.r.value < 1 then 1 else s.holder.r.value)
    ensures i < |s.loose| ==> Step(s, AssignLoose(i)).client == s.loose[i].value
  {
  }

  /** A disconnect that arrives puts the controller back to 1, and leaves the client's numbers alone. */
  lemma DisconnectResets(s: State)
    requires s.holder.Free? && s.wire == []
    ensures var s' := Run(s, [SendDisconnect, Deliver]);
            s' == s.(controller := 1, log := s.log + [Reset])
  {
    RunFirst(s, SendDisconnect, [Deliver]);
    RunFirst(Step(s, SendDisconnect), Deliver, []);
    assert [SendDisconnect, Deliver] == [SendDisconnect] + [Deliver] && [Deliver] + [] == [Deliver];
    hide Run;
  }

  /** While a request is under way nobody else sends, and no process restarts around it. */
  lemma LockIsExclusive(s: State, reaches: bool, locked: bool)
    requires !s.holder.Free?
    ensures Step(s, SendCall(reaches)) == Step(s, SendDisconnect) == Step(s, SendStatus(locked)) == Step(s, RestartClient) == s
  {
  }

  /** Nobody is left to receive a reply to anything on the wire, and none is on its way. */
  predicate NoneLive(s: State) { s.replies == [] && forall i :: 0 <= i < |s.wire| && s.wire[i].Status? ==> !s.wire[i].live }

  lemma StepStaysSilent(s: State, a: Action)
    requires NoneLive(s) && !a.SendStatus?
    ensures NoneLive(Step(s, a))
  {
  }

  lemma {:induction false} RunStaysSilent(s: State, schedule: seq<Action>)
    requires NoneLive(s) && forall i :: 0 <= i < |schedule| ==> !schedule[i].SendStatus?
    ensures NoneLive(Run(s, schedule))
    decreases |schedule|
  {
    hide Step, NoneLive;
    if schedule != [] {
      RunStaysSilent(s, schedule[..|schedule| - 1]);
      StepStaysSilent(Run(s, schedule[..|schedule| - 1]), schedule[|schedule| - 1]);
    }
  }

  /**
   No reply crosses a break: what was on the wire is lost from some point on, the calls before it
   are as they were, and until somebody asks again no reply arrives, whatever happens.
   */
  lemma NoReplyAcrossBreak(s: State, kept: nat, schedule: seq<Action>)
    requires kept <= |s.wire| && forall i :: 0 <= i < |schedule| ==> !schedule[i].SendStatus?
    ensures var broken := Step(s, Break(kept));
            && |broken.wire| == kept
            && (forall i :: 0 <= i < kept && !s.wire[i].Status? ==> broken.wire[i] == s.wire[i])
            && broken.client == s.client && broken.controller == s.controller
            && Run(broken, schedule).replies == []
  {
    RunStaysSilent(Step(s, Break(kept)), schedule);
    hide Run;
  }

  /** Nor a restart: the new process starts at 1 with nothing read, and gets no reply to what the old one asked. */
  lemma NoReplyAcrossRestart(s: State, schedule: seq<Action>)
    requires s.holder.Free? && forall i :: 0 <= i < |schedule| ==> !schedule[i].SendStatus?
    ensures var restarted := Step(s, RestartClient);
            && restarted.client == 1 && restarted.base == None && restarted.loose == [] && restarted.controller == s.controller
            && |restarted.wire| == |s.wire| && (forall i :: 0 <= i < |s.wire| && !s.wire[i].Status? ==> restarted.wire[i] == s.wire[i])
            && Run(restarted, schedule).replies == []
  {
    RunStaysSilent(Step(s, RestartClient), schedule);
    hide Run;
  }

  /** The oldest reply goes to the request that asks, or to the ring when nobody is seen to wait, and then it is gone. */
  lemma ReplyGoesOnce(s: State)
    requires s.replies != []
    ensures Step(s, OrphanReply) == s.(replies := s.replies[1..])
    ensures s.holder.Asking? ==> Step(s, TakeReply).replies == s.replies[1..] && !Step(s, TakeReply).holder.Asking?
  {
  }

  // ---- the client's methods ----------------------------------------------------

  /** A send of a call: whether it reaches the wire, whether it raises, and if so what the dropped socket still delivers. */
  datatype Attempt = Attempt(reaches: bool, raises: bool, kept: nat)

  function CallSchedule(first: Attempt, second: Attempt): seq<Action> {
    [SendCall(first.reaches)]
    + if first.raises then [Break(first.kept), SendCall(second.reaches)] + (if second.raises then [Break(second.kept)] else []) else []
  }

  lemma NotYet(s: State)
    ensures Run(s, []) == s
  {
  }

  lemma CallSteps(s: State, reaches: bool)
    requires s.holder.Free?
    ensures var s' := Step(s, SendCall(reaches)); s'.client == s.client + 1 && s'.holder.Free?
  {
  }

  lemma BreakSteps(s: State, kept: nat)
    ensures var s' := Step(s, Break(kept)); s'.client == s.client && s'.holder == s.holder
  {
  }

  class Client {
    var instructionSeqId: nat
    ghost var link: State

    ghost predicate Valid()
      reads this
    {
      link.client == instructionSeqId
    }

    constructor (controller: nat)
      ensures Valid() && link == Init(controller) && instructionSeqId == 1
    {
      instructionSeqId := 1;
      link := Init(controller);
    }

    /** program_call: each attempt takes a number of its own, and the second is made only when the first raises. */
    method ProgramCall(first: Attempt, second: Attempt) returns (returned: bool)
      requires Valid() && link.holder.Free?
      modifies this
      ensures Valid() && link == Run(old(link), CallSchedule(first, second))
      ensures returned <==> !first.raises || !second.raises
      ensures instructionSeqId == old(instructionSeqId) + if first.raises then 2 else 1
    {
      hide Run, Step;
      var attempt := 1;
      ghost var trace: seq<Action> := [];
      NotYet(link);
      while attempt <= 2
        invariant 1 <= attempt <= 3
        invariant Valid() && link.holder.Free? && link == Run(old(link), trace)
        invariant instructionSeqId == old(instructionSeqId) + attempt - 1
        invariant attempt == 1 ==> trace == []
        invariant attempt == 2 ==> first.raises && trace == [SendCall(first.reaches), Break(first.kept)]
        invariant attempt == 3 ==> first.raises && second.raises && trace == CallSchedule(first, second)
      {
        var a := if attempt == 1 then first else second;
        instructionSeqId := instructionSeqId + 1;
        CallSteps(link, a.reaches);
        link, trace := Extend(old(link), link, trace, SendCall(a.reaches));
        if !a.raises {
          assert trace == CallSchedule(first, second);
          return true;
        }
        BreakSteps(link, a.kept);
        link, trace := Extend(old(link), link, trace, Break(a.kept));
        attempt := attempt + 1;
      }
      return false;
    }

    /** _reseed_seq_id_from_controller_locked, once the status is there. */
    method ReseedLocked(next: nat)
      requires Valid() && link.holder.Seeding? && link.holder.r.value == next
      modifies this
      ensures Valid() && link == Step(old(link), Assign) && link.holder.Free?
      ensures instructionSeqId == if next < 1 then 1 else next
    {
      link := Step(link, Assign);
      instructionSeqId := if next < 1 then 1 else next;
    }

    /** reseed_sequence_id_from_controller, after it has let go of the lock: whatever has been sent since. */
    method Reseed(ghost i: nat, next: nat) returns (r: nat)
      requires Valid() && i < |link.loose| && link.loose[i].value == next
      modifies this
      ensures Valid() && link == Step(old(link), AssignLoose(i)) && instructionSeqId == r == next
    {
      link := Step(link, AssignLoose(i));
      instructionSeqId := next;
      return next;
    }
  }
}
