/**
 Agreement on the SequenceID of program calls between the RMI client
 (src/airo_fanuc/rmi_client.py) and a controller that silently drops a call numbered
 below the one it expects (src/airo_fanuc/testing/fake_crx_rmi.py).

 Requests travel first in, first out; a transport failure loses what it loses. `Step`
 runs one action; an action that is not due does nothing. One client at a time talks to
 the controller.
 */
module SequenceId {
  import opened Options

  /**
   A value of NextSequenceID that a reply carried: `at` is where in the log the controller read
   it, `sent` how many calls had been put on the wire when it was asked for.
   */
  datatype Reading = Reading(value: nat, at: nat, sent: nat)

  /** `base` is the reading that the number comes from; `live` says whether anyone is left to receive the reply. */
  datatype Message = Call(seqId: nat, base: Option<nat>) | Status(live: bool, sent: nat) | Disconnect

  /** What the controller did, in order. */
  datatype Event = Accepted(seqId: nat, base: Option<nat>) | Dropped(seqId: nat, base: Option<nat>) | StatusRead(value: nat) | Reset

  /** Who holds the request lock. */
  datatype Holder =
    | Free
    | Asking(locked: bool)   // status sent; `locked` for the reseed inside initialize
    | Seeding(r: Reading)    // the locked reseed has its reply and will assign before it lets go

  datatype State = State(
    client: nat,             // _instruction_seq_id
    base: Option<nat>,       // the reading it was last assigned from
    controller: nat,         // NextSequenceID
    wire: seq<Message>, replies: seq<Reading>, holder: Holder,
    loose: seq<Reading>,     // read by a public reseed but not yet assigned, the lock released
    sent: nat, accepted: seq<nat>, log: seq<Event>)

  datatype Action =
    | SendCall(reaches: bool) | SendDisconnect
    | SendStatus(locked: bool) | TakeReply | OrphanReply | Abandon | Assign | AssignLoose(i: nat)
    | Deliver | Break(kept: nat)
    | RestartClient

  function Init(controller: nat): State { State(1, None, controller, [], [], Free, [], 0, [], []) }

  /** The controller handles the oldest request. */
  function DeliverStep(s: State): State
    requires s.wire != []
  {
    var rest := s.(wire := s.wire[1..]);
    match s.wire[0]
    case Call(seqId, base) =>
      if seqId < s.controller then rest.(log := s.log + [Dropped(seqId, base)])
      else rest.(controller := seqId + 1, accepted := s.accepted + [seqId], log := s.log + [Accepted(seqId, base)])
    case Status(live, sent) =>
      var read := rest.(log := s.log + [StatusRead(s.controller)]);
      if live then read.(replies := s.replies + [Reading(s.controller, |s.log|, sent)]) else read
    case Disconnect => rest.(controller := 1, log := s.log + [Reset])
  }

  function Orphan(m: Message): Message { if m.Status? then m.(live := false) else m }

  function Orphans(ms: seq<Message>): (r: seq<Message>)
    ensures |r| == |ms| && forall i :: 0 <= i < |ms| ==> r[i] == Orphan(ms[i])
  {
    if ms == [] then [] else [Orphan(ms[0])] + Orphans(ms[1..])
  }

  function AtLeastOne(n: nat): nat { if n < 1 then 1 else n }

  function Without(xs: seq<Reading>, i: nat): seq<Reading>
    requires i < |xs|
  {
    xs[..i] + xs[i + 1..]
  }

  function Sent(s: State): State {
    s.(client := s.client + 1, sent := s.sent + 1, wire := s.wire + [Call(s.client, s.base)])
  }

  function Step(s: State, a: Action): State {
    match a
    case SendCall(reaches) =>
      if !s.holder.Free? then s else if reaches then Sent(s) else s.(client := s.client + 1)
    case SendDisconnect => if s.holder.Free? then s.(wire := s.wire + [Disconnect]) else s
    case SendStatus(locked) =>
      if s.holder.Free? then s.(wire := s.wire + [Status(true, s.sent)], holder := Asking(locked)) else s
    case TakeReply =>
      if !s.holder.Asking? || s.replies == [] then s
      else if s.holder.locked then s.(replies := s.replies[1..], holder := Seeding(s.replies[0]))
      else s.(replies := s.replies[1..], holder := Free, loose := s.loose + [s.replies[0]])
    case OrphanReply =>  // the receiving thread saw no waiter when it looked, and stashes the reply
      if s.replies != [] then s.(replies := s.replies[1..]) else s
    case Abandon => if s.holder.Asking? then s.(holder := Free) else s
    case Assign =>
      if s.holder.Seeding? then
        s.(client := AtLeastOne(s.holder.r.value), base := Some(s.holder.r.at), holder := Free)
      else s
    case AssignLoose(i) =>
      if i < |s.loose| then s.(client := s.loose[i].value, base := Some(s.loose[i].at), loose := Without(s.loose, i)) else s
    case Deliver => if s.wire != [] then DeliverStep(s) else s
    case Break(kept) => if kept <= |s.wire| then s.(wire := Orphans(s.wire[..kept]), replies := []) else s
    case RestartClient =>
      if s.holder.Free? then s.(client := 1, base := None, wire := Orphans(s.wire), replies := [], loose := []) else s
  }

  function Run(s: State, schedule: seq<Action>): State {
    if schedule == [] then s else Step(Run(s, schedule[..|schedule| - 1]), schedule[|schedule| - 1])
  }

  // ---- which calls are dropped -------------------------------------------------

  /** The number the controller expects after these events. */
  function Expected(first: nat, log: seq<Event>): nat {
    if log == [] then first
    else
      match log[|log| - 1]
      case Accepted(seqId, _) => seqId + 1
      case Reset => 1
      case _ => Expected(first, log[..|log| - 1])
  }

  /** Between two positions a call with this number or a higher one was accepted, and no disconnect came after it. */
  predicate Overtaken(log: seq<Event>, from: int, upTo: nat, seqId: nat)
    requires -1 <= from && upTo <= |log|
  {
    exists i :: from < i < upTo && log[i].Accepted? && log[i].seqId >= seqId && NoReset(log, i, upTo)
  }

  predicate NoReset(log: seq<Event>, from: int, upTo: nat)
    requires -1 <= from && upTo <= |log|
  {
    forall k :: from < k < upTo ==> !log[k].Reset?
  }

  predicate EventOk(first: nat, log: seq<Event>, j: nat)
    requires j < |log|
  {
    match log[j]
    case Accepted(seqId, base) => seqId >= Expected(first, log[..j]) && BaseOk(log[..j], seqId, base)
    case Dropped(seqId, base) => seqId < Expected(first, log[..j]) && BaseOk(log[..j], seqId, base)
    case StatusRead(value) => value == Expected(first, log[..j])
    case Reset => true
  }

  /** A number comes from a value that the controller read, and is at least that value. */
  predicate BaseOk(log: seq<Event>, seqId: nat, base: Option<nat>) {
    seqId >= 1 && (base.Some? ==> base.value < |log| && log[base.value].StatusRead? && log[base.value].value <= seqId)
  }

  predicate ReadingOk(log: seq<Event>, r: Reading) { r.at < |log| && log[r.at] == StatusRead(r.value) && r.value >= 1 }

  ghost predicate Logged(first: nat, s: State) {
    && s.controller == Expected(first, s.log) >= 1
    && (forall j :: 0 <= j < |s.log| ==> EventOk(first, s.log, j))
    && BaseOk(s.log, s.client, s.base)
    && (forall m :: m in s.wire && m.Call? ==> BaseOk(s.log, m.seqId, m.base))
    && (forall r :: r in s.replies ==> ReadingOk(s.log, r))
    && (forall r :: r in s.loose ==> ReadingOk(s.log, r))
    && (s.holder.Seeding? ==> ReadingOk(s.log, s.holder.r))
  }

  lemma EventStays(first: nat, log: seq<Event>, e: Event, j: nat)
    requires j < |log| && EventOk(first, log, j)
    ensures EventOk(first, log + [e], j)
  {
    assert (log + [e])[..j] == log[..j];
  }

  lemma LongerLog(log: seq<Event>, e: Event)
    ensures forall seqId, base :: BaseOk(log, seqId, base) ==> BaseOk(log + [e], seqId, base)
    ensures forall r :: ReadingOk(log, r) ==> ReadingOk(log + [e], r)
  {
  }

  lemma EventsStay(first: nat, log: seq<Event>, e: Event)
    requires forall j :: 0 <= j < |log| ==> EventOk(first, log, j)
    requires EventOk(first, log + [e], |log|)
    ensures forall j :: 0 <= j < |log + [e]| ==> EventOk(first, log + [e], j)
  {
    hide EventOk;
    forall j | 0 <= j < |log + [e]| ensures EventOk(first, log + [e], j) {
      if j < |log| { EventStays(first, log, e, j); }
    }
  }

  /** What a delivery appends to the log. */
  function Outcome(s: State): Event
    requires s.wire != []
  {
    match s.wire[0]
    case Call(seqId, base) => if seqId < s.controller then Dropped(seqId, base) else Accepted(seqId, base)
    case Status(_, _) => StatusRead(s.controller)
    case Disconnect => Reset
  }

  lemma DeliverAppends(s: State)
    requires s.wire != []
    ensures var s' := DeliverStep(s);
            && s'.log == s.log + [Outcome(s)] && s'.wire == s.wire[1..]
            && s'.client == s.client && s'.base == s.base && s'.loose == s.loose && s'.holder == s.holder
            && (s'.replies == s.replies
                || (s.wire[0].Status? && s'.replies == s.replies + [Reading(s.controller, |s.log|, s.wire[0].sent)]))
  {
  }

  lemma OutcomeOk(first: nat, s: State)
    requires s.wire != [] && s.controller == Expected(first, s.log) >= 1
    requires s.wire[0].Call? ==> BaseOk(s.log, s.wire[0].seqId, s.wire[0].base)
    ensures EventOk(first, s.log + [Outcome(s)], |s.log|)
    ensures DeliverStep(s).controller == Expected(first, s.log + [Outcome(s)]) >= 1
  {
    var log := s.log + [Outcome(s)];
    assert log[..|s.log|] == s.log && log[|s.log|] == Outcome(s);
  }

  lemma DeliverLogs(first: nat, s: State)
    requires Logged(first, s) && s.wire != []
    ensures Logged(first, DeliverStep(s))
  {
    assert s.wire[0] in s.wire;
    OutcomeOk(first, s);
    DeliverAppends(s);
    hide DeliverStep, EventOk, Expected;
    EventsStay(first, s.log, Outcome(s));
    LongerLog(s.log, Outcome(s));
    NewReadingOk(s);
    forall m | m in s.wire[1..] ensures m in s.wire {}
    hide BaseOk, ReadingOk, Outcome;
  }

  lemma NewReadingOk(s: State)
    requires s.wire != [] && s.controller >= 1
    ensures s.wire[0].Status? ==> ReadingOk(s.log + [Outcome(s)], Reading(s.controller, |s.log|, s.wire[0].sent))
  {
  }

  lemma OrphansAreCalls(wire: seq<Message>, kept: nat)
    requires kept <= |wire|
    ensures forall m :: m in Orphans(wire[..kept]) && m.Call? ==> m in wire
  {
    var rest := Orphans(wire[..kept]);
    forall m | m in rest && m.Call? ensures m in wire {
      var i :| 0 <= i < |rest| && rest[i] == m;
      assert wire[..kept][i] == wire[i];
    }
  }

  lemma StepLogs(first: nat, s: State, a: Action)
    requires Logged(first, s)
    ensures Logged(first, Step(s, a))
  {
    hide DeliverStep, Expected, EventOk;
    match a {
      case Deliver => if s.wire != [] { DeliverLogs(first, s); }
      case Break(kept) => if kept <= |s.wire| { OrphansAreCalls(s.wire, kept); }
      case RestartClient =>
        OrphansAreCalls(s.wire, |s.wire|);
        assert s.wire[..|s.wire|] == s.wire;
      case TakeReply => if s.replies != [] { assert s.replies[0] in s.replies; }
      case AssignLoose(i) => if i < |s.loose| { assert s.loose[i] in s.loose; }
      case _ =>
    }
  }

  lemma {:induction false} RunLogs(controller: nat, schedule: seq<Action>)
    requires controller >= 1
    ensures Logged(controller, Run(Init(controller), schedule))
  {
    if schedule != [] {
      hide Step, Logged;
      RunLogs(controller, schedule[..|schedule| - 1]);
      StepLogs(controller, Run(Init(controller), schedule[..|schedule| - 1]), schedule[|schedule| - 1]);
    }
  }

  /** What the controller expects has passed a number exactly when that number was overtaken since it had not. */
  lemma {:induction false} PassedIffOvertaken(first: nat, log: seq<Event>, from: int, upTo: nat, seqId: nat)
    requires -1 <= from < upTo <= |log| && seqId >= 1
    requires forall j :: 0 <= j < |log| ==> EventOk(first, log, j)
    requires Expected(first, log[..from + 1]) <= seqId
    ensures Expected(first, log[..upTo]) > seqId <==> Overtaken(log, from, upTo, seqId)
    decreases upTo
  {
    if upTo > from + 1 {
      PassedIffOvertaken(first, log, from, upTo - 1, seqId);
      assert EventOk(first, log, upTo - 1);
      assert log[..upTo][..upTo - 1] == log[..upTo - 1] && log[..upTo][upTo - 1] == log[upTo - 1];
      if i :| from < i < upTo - 1 && log[i].Accepted? && log[i].seqId >= seqId && NoReset(log, i, upTo - 1) {
        assert !log[upTo - 1].Reset? ==> NoReset(log, i, upTo);
      }
      if i :| from < i < upTo && log[i].Accepted? && log[i].seqId >= seqId && NoReset(log, i, upTo) {
        assert i < upTo - 1 ==> NoReset(log, i, upTo - 1);
      }
      if log[upTo - 1].Accepted? { assert NoReset(log, upTo - 1, upTo); }
    }
  }

  /**
   For every schedule: a call whose number comes from a status is dropped if and only if,
   between the controller's reading of that status and the call's delivery, a call with that
   number or a higher one was accepted (and no disconnect came after it).
   */
  lemma CallDroppedIff(controller: nat, schedule: seq<Action>, j: nat)
    requires controller >= 1
    requires var log := Run(Init(controller), schedule).log;
             j < |log| && (log[j].Accepted? || log[j].Dropped?) && log[j].base.Some?
    ensures var log := Run(Init(controller), schedule).log;
            var at := log[j].base.value;
            && at < j && log[at].StatusRead? && log[at].value <= log[j].seqId
            && (log[j].Dropped? <==> Overtaken(log, at, j, log[j].seqId))
  {
    RunLogs(controller, schedule);
    hide Run, EventOk, Overtaken;
    LoggedCallDroppedIff(controller, Run(Init(controller), schedule).log, j);
  }

  lemma LoggedCallDroppedIff(first: nat, log: seq<Event>, j: nat)
    requires forall i :: 0 <= i < |log| ==> EventOk(first, log, i)
    requires j < |log| && (log[j].Accepted? || log[j].Dropped?) && log[j].base.Some?
    ensures var at := log[j].base.value;
            && at < j && log[at].StatusRead? && log[at].value <= log[j].seqId
            && (log[j].Dropped? <==> Overtaken(log, at, j, log[j].seqId))
  {
    assert EventOk(first, log, j);
    var at := log[j].base.value;
    assert EventOk(first, log, at);
    assert log[..at + 1][..at] == log[..at] && log[..at + 1][at] == log[at];
    hide Overtaken;
    PassedIffOvertaken(first, log, at, j, log[j].seqId);
  }

  /**
   And a call of a client that never asked is dropped if and only if its number was overtaken,
   or the controller was past it from the start and has not been reset.
   */
  lemma UnaskedCallDroppedIff(controller: nat, schedule: seq<Action>, j: nat)
    requires controller >= 1
    requires var log := Run(Init(controller), schedule).log;
             j < |log| && (log[j].Accepted? || log[j].Dropped?) && log[j].base.None?
    ensures var log := Run(Init(controller), schedule).log;
            log[j].Dropped? <==>
            Overtaken(log, -1, j, log[j].seqId) || (controller > log[j].seqId && NoReset(log, -1, j))
  {
    RunLogs(controller, schedule);
    hide Run;
    var log := Run(Init(controller), schedule).log;
    assert EventOk(controller, log, j);
    PassedFromStart(controller, log, j, log[j].seqId);
  }

  lemma {:induction false} PassedFromStart(first: nat, log: seq<Event>, upTo: nat, seqId: nat)
    requires upTo <= |log| && seqId >= 1
    requires forall j :: 0 <= j < |log| ==> EventOk(first, log, j)
    ensures Expected(first, log[..upTo]) > seqId <==>
            Overtaken(log, -1, upTo, seqId) || (first > seqId && NoReset(log, -1, upTo))
    decreases upTo
  {
    if upTo > 0 {
      PassedFromStart(first, log, upTo - 1, seqId);
      assert EventOk(first, log, upTo - 1);
      assert log[..upTo][..upTo - 1] == log[..upTo - 1] && log[..upTo][upTo - 1] == log[upTo - 1];
      if i :| -1 < i < upTo - 1 && log[i].Accepted? && log[i].seqId >= seqId && NoReset(log, i, upTo - 1) {
        assert !log[upTo - 1].Reset? ==> NoReset(log, i, upTo);
      }
      if i :| -1 < i < upTo && log[i].Accepted? && log[i].seqId >= seqId && NoReset(log, i, upTo) {
        assert i < upTo - 1 ==> NoReset(log, i, upTo - 1);
      }
      if log[upTo - 1].Accepted? { assert NoReset(log, upTo - 1, upTo); }
    }
  }

  // ---- when none is ------------------------------------------------------------

  /** The value assigned, if one is, was asked for after the last call that was sent. */
  predicate AssignsCurrent(s: State, a: Action) {
    && (a.Assign? && s.holder.Seeding? ==> s.holder.r.sent == s.sent)
    && (a.AssignLoose? && a.i < |s.loose| ==> s.loose[a.i].sent == s.sent)
  }

  /** No call is sent between a status request and the assignment of the value it brought. */
  predicate Undisturbed(s: State, schedule: seq<Action>) {
    schedule == [] ||
    (var before := schedule[..|schedule| - 1];
     Undisturbed(s, before) && AssignsCurrent(Run(s, before), schedule[|schedule| - 1]))
  }

  predicate NoCalls(wire: seq<Message>) { forall m :: m in wire ==> !m.Call? }

  predicate Numbered(m: Message) { m.Call? && m.base.Some? }

  /**
   The calls on the wire that carry a number from a status go up from what the controller
   expects, ahead of any others, and a client that has asked is past them all.
   */
  predicate Ahead(s: State) {
    && (forall i :: 0 <= i < |s.wire| && Numbered(s.wire[i]) ==> s.controller <= s.wire[i].seqId)
    && (forall i, j :: 0 <= i < j < |s.wire| && s.wire[i].Call? && Numbered(s.wire[j]) ==>
          Numbered(s.wire[i]) && s.wire[i].seqId < s.wire[j].seqId)
    && (s.base.Some? ==>
          && s.controller <= s.client
          && forall i :: 0 <= i < |s.wire| && s.wire[i].Call? ==> Numbered(s.wire[i]) && s.wire[i].seqId < s.client)
  }

  predicate Agreed(s: State) {
    && s.controller >= 1 && s.client >= 1 && Ahead(s)
    && (forall e :: e in s.log && e.Dropped? ==> e.base.None?)
  }

  /** A value asked for after the last call is still at least what the controller expects, and no call is on the wire. */
  predicate CurrentOk(s: State, r: Reading) {
    r.sent <= s.sent && (r.sent == s.sent ==> r.value >= s.controller && NoCalls(s.wire))
  }

  predicate Fresh(s: State) {
    && (forall i :: 0 <= i < |s.wire| && s.wire[i].Status? ==> s.wire[i].sent <= s.sent)
    && (forall i, j :: 0 <= i < j < |s.wire| && s.wire[i].Status? && s.wire[i].sent == s.sent ==> !s.wire[j].Call?)
    && (forall r :: r in s.replies ==> CurrentOk(s, r))
    && (forall r :: r in s.loose ==> CurrentOk(s, r))
    && (s.holder.Seeding? ==> CurrentOk(s, s.holder.r))
  }

  lemma SendKeepsAgreed(s: State, a: Action)
    requires Agreed(s) && (a.SendCall? || a.SendDisconnect? || a.SendStatus?)
    ensures Agreed(Step(s, a))
  {
  }

  lemma SendKeepsFresh(s: State, a: Action)
    requires Fresh(s) && (a.SendCall? || a.SendDisconnect? || a.SendStatus?)
    ensures Fresh(Step(s, a))
  {
  }

  lemma DeliverKeepsAgreed(s: State)
    requires Agreed(s) && s.wire != []
    ensures Agreed(DeliverStep(s))
  {
    forall j | 0 <= j < |s.wire| - 1 ensures s.wire[1..][j] == s.wire[j + 1] {}
  }

  lemma DeliverKeepsFresh(s: State)
    requires Agreed(s) && Fresh(s) && s.wire != []
    ensures Fresh(DeliverStep(s))
  {
    var rest := s.wire[1..];
    assert s.wire[0] in s.wire;
    forall m | m in rest ensures m in s.wire {}
    forall j | 0 <= j < |rest| ensures rest[j] == s.wire[j + 1] {}
    if s.wire[0].Status? && s.wire[0].sent == s.sent {
      forall m | m in rest ensures !m.Call? {
        var j :| 0 <= j < |rest| && rest[j] == m;
      }
    }
  }

  lemma BreakKeepsAgreed(s: State, kept: nat)
    requires kept <= |s.wire| && Agreed(s)
    ensures Agreed(Step(s, Break(kept)))
  {
    var wire := Orphans(s.wire[..kept]);
    forall i | 0 <= i < |wire| ensures wire[i] == Orphan(s.wire[i]) {}
  }

  lemma BreakKeepsFresh(s: State, kept: nat)
    requires kept <= |s.wire| && Fresh(s)
    ensures Fresh(Step(s, Break(kept)))
  {
    var wire := Orphans(s.wire[..kept]);
    OrphansAreCalls(s.wire, kept);
    forall i | 0 <= i < |wire| ensures wire[i] == Orphan(s.wire[i]) {}
  }

  lemma RestartKeeps(s: State)
    requires Agreed(s) && Fresh(s)
    ensures var s' := Step(s, RestartClient); Agreed(s') && Fresh(s')
  {
    var wire := Orphans(s.wire);
    forall i | 0 <= i < |wire| ensures wire[i] == Orphan(s.wire[i]) {}
  }

  predicate OfReply(a: Action) { a.Assign? || a.AssignLoose? || a.TakeReply? || a.OrphanReply? || a.Abandon? }

  lemma AssignKeepsAgreed(s: State, a: Action)
    requires Agreed(s) && Fresh(s) && AssignsCurrent(s, a) && OfReply(a)
    ensures Agreed(Step(s, a))
  {
    if a.Assign? && s.holder.Seeding? { CurrentSeeds(s, s.holder.r); }
    if a.AssignLoose? && a.i < |s.loose| {
      assert s.loose[a.i] in s.loose;
      CurrentSeeds(s, s.loose[a.i]);
    }
  }

  lemma CurrentSeeds(s: State, r: Reading)
    requires s.controller >= 1 && CurrentOk(s, r) && r.sent == s.sent
    ensures r.value >= s.controller && r.value == AtLeastOne(r.value) && forall i :: 0 <= i < |s.wire| ==> !s.wire[i].Call?
  {
    forall i | 0 <= i < |s.wire| ensures !s.wire[i].Call? { assert s.wire[i] in s.wire; }
  }

  lemma AssignKeepsFresh(s: State, a: Action)
    requires Fresh(s) && OfReply(a)
    ensures Fresh(Step(s, a))
  {
    hide NoCalls;
    if s.replies != [] {
      assert s.replies[0] in s.replies;
      forall r | r in s.replies[1..] ensures r in s.replies {}
    }
    if a.AssignLoose? && a.i < |s.loose| {
      forall r | r in Without(s.loose, a.i) ensures r in s.loose {}
    }
  }

  lemma StepKeeps(s: State, a: Action)
    requires Agreed(s) && Fresh(s) && AssignsCurrent(s, a)
    ensures Agreed(Step(s, a)) && Fresh(Step(s, a))
  {
    hide Agreed, Fresh, DeliverStep, AssignsCurrent, Orphans, Without;
    match a {
      case SendCall(_) => SendKeepsAgreed(s, a); SendKeepsFresh(s, a);
      case SendDisconnect => SendKeepsAgreed(s, a); SendKeepsFresh(s, a);
      case SendStatus(_) => SendKeepsAgreed(s, a); SendKeepsFresh(s, a);
      case Deliver =>
        if s.wire != [] {
          DeliverKeepsAgreed(s);
          DeliverKeepsFresh(s);
        }
      case Break(kept) => if kept <= |s.wire| { BreakKeepsAgreed(s, kept); BreakKeepsFresh(s, kept); }
      case RestartClient => RestartKeeps(s);
      case _ => AssignKeepsAgreed(s, a); AssignKeepsFresh(s, a);
    }
  }

  lemma {:induction false} UndisturbedRunKeeps(controller: nat, schedule: seq<Action>)
    requires controller >= 1 && Undisturbed(Init(controller), schedule)
    ensures var s := Run(Init(controller), schedule); Agreed(s) && Fresh(s)
  {
    hide Step, AssignsCurrent;
    if schedule != [] {
      var before := schedule[..|schedule| - 1];
      UndisturbedRunKeeps(controller, before);
      StepKeeps(Run(Init(controller), before), schedule[|schedule| - 1]);
    }
  }

  /**
   Once the client has read its number from the controller, the number is never below what
   the controller gets to expect, and no call with such a number is dropped or overtaken: over
   any calls, losses, late or lost replies, reopens, disconnects and restarts in which no call
   is sent between a status request and the assignment of what it brought.
   */
  lemma NoCallDropped(controller: nat, schedule: seq<Action>)
    requires controller >= 1 && Undisturbed(Init(controller), schedule)
    ensures var s := Run(Init(controller), schedule);
            && (forall e :: e in s.log && e.Dropped? ==> e.base.None?)
            && (forall j :: 0 <= j < |s.log| && s.log[j].Accepted? && s.log[j].base.Some? ==>
                  s.log[j].base.value < j && !Overtaken(s.log, s.log[j].base.value, j, s.log[j].seqId))
            && (s.base.Some? ==> s.controller <= s.client)
            && (s.base.Some? ==> forall m :: m in s.wire && m.Call? ==> m.seqId >= s.controller)
  {
    UndisturbedRunKeeps(controller, schedule);
    var s := Run(Init(controller), schedule);
    forall j | 0 <= j < |s.log| && s.log[j].Accepted? && s.log[j].base.Some?
      ensures s.log[j].base.value < j && !Overtaken(s.log, s.log[j].base.value, j, s.log[j].seqId)
    {
      CallDroppedIff(controller, schedule, j);
    }
  }

  // ---- the two ways to disturb a reseed ----------------------------------------

  function CallAtOnce(s: State): State { Step(Step(s, SendCall(true)), Deliver) }

  lemma RunStep(s: State, schedule: seq<Action>, a: Action)
    ensures Run(s, schedule + [a]) == Step(Run(s, schedule), a)
  {
    assert (schedule + [a])[..|schedule|] == schedule;
  }

  /**
   From any state a run can reach with nothing on the wire: the first call after a public
   reseed assigns is dropped if and only if its number was overtaken since the controller read it.
   */
  lemma RacedReseedDropsIff(controller: nat, before: seq<Action>, i: nat)
    requires controller >= 1
    requires var s := Run(Init(controller), before); i < |s.loose| && s.holder.Free? && s.wire == []
    ensures var s := Run(Init(controller), before);
            var r, s' := s.loose[i], CallAtOnce(Step(s, AssignLoose(i)));
            && r.at < |s.log| && |s'.log| == |s.log| + 1
            && (s'.log[|s.log|] == Dropped(r.value, Some(r.at)) <==> Overtaken(s.log, r.at, |s.log|, r.value))
            && (s'.log[|s.log|] == Accepted(r.value, Some(r.at)) <==> !Overtaken(s.log, r.at, |s.log|, r.value))
  {
    var s := Run(Init(controller), before);
    var r := s.loose[i];
    RunLogs(controller, before);
    assert r in s.loose;
    RunStep(Init(controller), before, AssignLoose(i));
    RunStep(Init(controller), before + [AssignLoose(i)], SendCall(true));
    RunStep(Init(controller), before + [AssignLoose(i)] + [SendCall(true)], Deliver);
    hide Run;
    var s' := CallAtOnce(Step(s, AssignLoose(i)));
    assert s.wire + [Call(r.value, Some(r.at))] == [Call(r.value, Some(r.at))];
    CallDroppedIff(controller, before + [AssignLoose(i)] + [SendCall(true)] + [Deliver], |s.log|);
    OvertakenInPrefix(s.log, s'.log, r.at, r.value);
  }

  lemma OvertakenInPrefix(log: seq<Event>, more: seq<Event>, from: nat, seqId: nat)
    requires from < |log| <= |more| && more[..|log|] == log
    ensures Overtaken(log, from, |log|, seqId) <==> Overtaken(more, from, |log|, seqId)
  {
    forall k | 0 <= k < |log| ensures more[k] == log[k] { assert more[..|log|][k] == more[k]; }
    if i :| from < i < |log| && log[i].Accepted? && log[i].seqId >= seqId && NoReset(log, i, |log|) {
      assert NoReset(more, i, |log|);
    }
    if i :| from < i < |log| && more[i].Accepted? && more[i].seqId >= seqId && NoReset(more, i, |log|) {
      assert NoReset(log, i, |log|);
    }
  }

  lemma Extend(start: State, s: State, trace: seq<Action>, a: Action) returns (s': State, more: seq<Action>)
    requires s == Run(start, trace)
    ensures s' == Step(s, a) && s' == Run(start, more) && more == trace + [a]
  {
    more := trace + [a];
    s' := Step(s, a);
    RunStep(start, trace, a);
  }

  lemma AskedAgain(next: nat) returns (s: State, trace: seq<Action>)
    requires next >= 1
    ensures s == Run(Init(next), trace)
    ensures s == Init(next).(wire := [Status(true, 0), Status(true, 0)], holder := Asking(true))
  {
    var s0 := Init(next);
    assert Run(s0, []) == s0;
    hide Run, DeliverStep, Sent, Without, Orphans;
    s, trace := Extend(s0, s0, [], SendStatus(true));
    s, trace := Extend(s0, s, trace, Abandon);
    assert s == s0.(wire := [Status(true, 0)]);
    s, trace := Extend(s0, s, trace, SendStatus(true));
    assert s.wire == [Status(true, 0), Status(true, 0)];
  }

  /** And there is such a run: a status is read, a call slips in, the value is assigned, and the next call is dropped. */
  lemma RacedReseedDrops(next: nat)
    requires next >= 1
    ensures exists before :: var s := Run(Init(next), before);
              && |s.loose| == 1 && s.holder.Free? && s.wire == []
              && Overtaken(s.log, s.loose[0].at, |s.log|, s.loose[0].value)
    ensures exists schedule :: Dropped(next, Some(1)) in Run(Init(next), schedule).log
  {
    var s, trace := StatusReadThenCall(next);
    var r := s.loose[0];
    assert s.log[2].Accepted? && s.log[2].seqId >= r.value && NoReset(s.log, 2, |s.log|);
    assert Overtaken(s.log, r.at, |s.log|, r.value);
    RacedReseedDropsIff(next, trace, 0);
    RunStep(Init(next), trace, AssignLoose(0));
    RunStep(Init(next), trace + [AssignLoose(0)], SendCall(true));
    RunStep(Init(next), trace + [AssignLoose(0)] + [SendCall(true)], Deliver);
    hide Run;
    var s' := CallAtOnce(Step(s, AssignLoose(0)));
    assert s'.log[|s.log|] == Dropped(next, Some(1));
    assert Dropped(next, Some(1)) in s'.log;
  }

  lemma Reseeded(next: nat) returns (s: State, trace: seq<Action>)
    requires next >= 1
    ensures s == Run(Init(next), trace) && s == Init(next).(client := next, base := Some(0), log := [StatusRead(next)])
  {
    var s0 := Init(next);
    assert Run(s0, []) == s0;
    hide Run, Sent, Orphans;
    s, trace := Extend(s0, s0, [], SendStatus(false));
    assert s.wire == [Status(true, 0)];
    s, trace := Extend(s0, s, trace, Deliver);
    assert s.wire == [] && s.replies == [Reading(next, 0, 0)] && s.log == [StatusRead(next)];
    hide DeliverStep;
    s, trace := Extend(s0, s, trace, TakeReply);
    assert s.replies == [] && s.loose == [Reading(next, 0, 0)];
    s, trace := Extend(s0, s, trace, AssignLoose(0));
    assert s.loose == [];
  }

  lemma StatusReadThenCall(next: nat) returns (s: State, trace: seq<Action>)
    requires next >= 1
    ensures s == Run(Init(next), trace) && s.holder.Free? && s.wire == [] && s.loose == [Reading(next, 1, 0)]
    ensures s.log == [StatusRead(next), StatusRead(next), Accepted(next, Some(0))]
  {
    hide Run, Orphans, Without;
    var s0 := Init(next);
    s, trace := Reseeded(next);
    s, trace := Extend(s0, s, trace, SendStatus(false));
    assert s.wire == [Status(true, 0)];
    s, trace := Extend(s0, s, trace, Deliver);
    assert s.wire == [] && s.replies == [Reading(next, 1, 0)] && s.log == [StatusRead(next), StatusRead(next)];
    s, trace := Extend(s0, s, trace, TakeReply);
    assert s.loose == [Reading(next, 1, 0)];
    s, trace := Extend(s0, s, trace, SendCall(true));
    assert s.wire == [Call(next, Some(0))];
    s, trace := Extend(s0, s, trace, Deliver);
  }

  /** A status request is given up without closing the socket, and its reply serves the next one. */
  lemma StatusGivenUp(next: nat) returns (s: State, trace: seq<Action>)
    requires next >= 1
    ensures s == Run(Init(next), trace)
    ensures s == Init(next).(client := next, base := Some(0), wire := [Status(true, 0)], log := [StatusRead(next)])
  {
    hide Run, Sent, Without, Orphans;
    var s0 := Init(next);
    s, trace := AskedAgain(next);
    s, trace := Extend(s0, s, trace, Deliver);
    assert s.wire == [Status(true, 0)] && s.replies == [Reading(next, 0, 0)] && s.log == [StatusRead(next)];
    hide DeliverStep;
    s, trace := Extend(s0, s, trace, TakeReply);
    s, trace := Extend(s0, s, trace, Assign);
  }

  /**
   The late reply then serves a reseed after a call: even the locked reseed goes backwards, and the
   next call is dropped. Requests other than these three are not shown. On a socket that keeps its
   order, the reply to the Initialize before every locked reseed would flush a late status reply
   first, unless the Initialize was itself answered by a late reply of its own.
   */
  lemma LateReplyDrops(next: nat)
    requires next >= 1
    ensures exists schedule :: Dropped(next, Some(1)) in Run(Init(next), schedule).log
  {
    hide Run;
    var s0 := Init(next);
    var s, trace := StatusGivenUp(next);
    s, trace := Extend(s0, s, trace, SendCall(true));
    assert s.wire == [Status(true, 0), Call(next, Some(0))];
    s, trace := Extend(s0, s, trace, Deliver);
    assert s.wire == [Call(next, Some(0))] && s.replies == [Reading(next, 1, 0)];
    s, trace := Extend(s0, s, trace, Deliver);
    assert s.controller == next + 1 && s.wire == [];
    s, trace := Extend(s0, s, trace, SendStatus(true));
    s, trace := Extend(s0, s, trace, TakeReply);
    s, trace := Extend(s0, s, trace, Assign);
    assert s.client == next && s.base == Some(1) && s.wire == [Status(true, 1)];
    s, trace := Extend(s0, s, trace, SendCall(true));
    s, trace := Extend(s0, s, trace, Deliver);
    assert s.wire == [Call(next, Some(1))];
    s, trace := Extend(s0, s, trace, Deliver);
    assert s.log[|s.log| - 1] == Dropped(next, Some(1));
  }

  // ---- the controller's handlers -----------------------------------------------

  class Controller {
    var nextSequenceId: nat
    var launched: seq<nat>
    ghost var link: State

    ghost predicate Valid()
      reads this
    {
      link.controller == nextSequenceId && link.accepted == launched
    }

    /** _handle_call: a stale or repeated number is dropped without an answer. */
    method HandleCall(seqId: nat) returns (ack: bool)
      requires Valid() && link.wire != [] && link.wire[0].Call? && link.wire[0].seqId == seqId
      modifies this
      ensures Valid() && link == DeliverStep(old(link))
      ensures ack <==> seqId >= old(nextSequenceId)
      ensures ack ==> nextSequenceId > old(nextSequenceId) && launched == old(launched) + [seqId]
      ensures !ack ==> nextSequenceId == old(nextSequenceId) && launched == old(launched)
    {
      link := DeliverStep(link);
      if seqId < nextSequenceId { return false; }
      nextSequenceId := seqId + 1;
      launched := launched + [seqId];
      return true;
    }

    method HandleDisconnect()
      requires Valid() && link.wire != [] && link.wire[0] == Disconnect
      modifies this
      ensures Valid() && link == DeliverStep(old(link)) && nextSequenceId == 1
    {
      link := DeliverStep(link);
      nextSequenceId := 1;
    }

    /** _handle_get_status: the answer is the same whether or not anyone is left to receive it. */
    method HandleGetStatus() returns (next: nat)
      requires Valid() && link.wire != [] && link.wire[0].Status?
      modifies this
      ensures Valid() && link == DeliverStep(old(link)) && next == nextSequenceId == old(nextSequenceId)
      ensures if old(link).wire[0].live then |link.replies| == |old(link).replies| + 1 && link.replies[|old(link).replies|].value == next
              else link.replies == old(link).replies
    {
      link := DeliverStep(link);
      return nextSequenceId;
    }
  }
}
