/**
 The table of recent motion resolutions (src/cpp/rt_core/realtime_core.cpp): one
 real-time writer stores a status and then an id into the oldest slot, while any
 thread scans the slots for an id. `Step` runs one atomic load or store; a schedule is
 any list of actions. Ids are recorded at most once and are never 0, as motion ids are.
 */
module ResolutionTable {
  import Bits
  import opened Options
  import opened Motion

  const SLOTS := 1024

  datatype Writer = WIdle | WStatusStored(rec: Record)

  datatype Reader =
    | RIdle
    | RScan(id: nat, i: nat, from: nat)                    // about to load the id of slot i
    | RHit(id: nat, i: nat, from: nat)                     // slot i had the id
    | RMissed(id: nat, from: nat)                           // about to load the active id
    | RActive(id: nat, from: nat)                           // the active id matched
    | RDone(id: nat, from: nat, upTo: nat, answer: MotionStatus)

  datatype Action =
    | StoreStatus(id: nat, status: MotionStatus) | StoreId
    | PublishActiveId(id: nat) | PublishActiveStatus(status: MotionStatus)
    | Query(r: nat, id: nat) | LoadId(r: nat) | LoadStatus(r: nat) | LoadActiveId(r: nat) | LoadActiveStatus(r: nat)

  /**
   `hist` lists the completed records; `from` and `upTo` are its length when a query begins and
   ends. `published` lists the completed publications of the active motion, and `publishing` is
   the id of one that has stored its id and not yet its status.
   */
  datatype State = State(ids: seq<nat>, statuses: seq<MotionStatus>, head: nat, writer: Writer,
                         activeId: nat, activeStatus: MotionStatus,
                         readers: map<nat, Reader>, hist: seq<Record>,
                         publishing: Option<nat>, published: seq<Record>)

  predicate Sized(s: State) { |s.ids| == |s.statuses| == SLOTS && s.head < SLOTS }

  function Init(): (s: State)
    ensures Sized(s)
  {
    State(seq(SLOTS, _ => 0), seq(SLOTS, _ => Pending), 0, WIdle, 0, Pending, map[], [], None, [])
  }

  function ReaderOf(s: State, r: nat): Reader {
    if r in s.readers then s.readers[r] else RIdle
  }

  predicate Recorded(hist: seq<Record>, id: nat) {
    exists p :: 0 <= p < |hist| && hist[p].id == id
  }

  /** Record `p` is among the last `SLOTS - 1` of the first `n`. */
  predicate Recent(p: nat, n: nat) { p < n <= p + SLOTS - 1 }

  ghost predicate SlotInv(s: State, k: nat)
    requires k < |s.ids| == |s.statuses|
  {
    && (k >= |s.hist| ==> s.ids[k] == 0)
    && (forall p :: 0 <= p < |s.hist| <= p + SLOTS && p % SLOTS == k ==>
          && s.ids[k] == s.hist[p].id
          && (s.writer.WIdle? || k != s.head ==> s.statuses[k] == s.hist[p].status))
  }

  ghost predicate ReaderInv(s: State, c: Reader) {
    match c
    case RIdle => true
    case RScan(id, i, from) =>
      && id != 0 && i <= SLOTS && from <= |s.hist|
      && forall p :: 0 <= p < from && Recent(p, |s.hist|) && s.hist[p].id == id ==> i <= p % SLOTS
    case RHit(id, i, from) =>
      && id != 0 && i < SLOTS && from <= |s.hist|
      && forall p :: 0 <= p < from && Recent(p, |s.hist|) && s.hist[p].id == id ==> i == p % SLOTS
    case RMissed(id, from) =>
      && id != 0 && from <= |s.hist|
      && forall p :: 0 <= p < from && s.hist[p].id == id ==> !Recent(p, |s.hist|)
    case RActive(id, from) =>
      && id != 0 && from <= |s.hist|
      && forall p :: 0 <= p < from && s.hist[p].id == id ==> !Recent(p, |s.hist|)
    case RDone(id, from, upTo, answer) =>
      && from <= upTo <= |s.hist|
      && (id == 0 ==> answer == Pending)
      && forall p :: 0 <= p < from && Recent(p, upTo) && s.hist[p].id == id ==> answer == s.hist[p].status
  }

  ghost predicate Inv(s: State) {
    && Sized(s)
    && s.head == |s.hist| % SLOTS
    && (forall k :: 0 <= k < SLOTS ==> SlotInv(s, k))
    && (forall p, q :: 0 <= p < q < |s.hist| ==> s.hist[p].id != s.hist[q].id)
    && (forall p :: 0 <= p < |s.hist| ==> s.hist[p].id != 0)
    && (s.writer.WStatusStored? ==>
          s.writer.rec.id != 0 && !Recorded(s.hist, s.writer.rec.id) && s.statuses[s.head] == s.writer.rec.status)
    && (forall r :: r in s.readers ==> ReaderInv(s, s.readers[r]))
  }

  function WriterStep(s: State, a: Action): (s': State)
    requires Sized(s)
    ensures Sized(s')
  {
    match a
    case StoreStatus(id, status) =>
      if s.writer.WIdle? && id != 0 && !Recorded(s.hist, id) then
        s.(statuses := s.statuses[s.head := status], writer := WStatusStored(Record(id, status)))
      else s
    case StoreId =>
      if s.writer.WStatusStored? then
        s.(ids := s.ids[s.head := s.writer.rec.id], head := (s.head + 1) % SLOTS,
           writer := WIdle, hist := s.hist + [s.writer.rec])
      else s
    case PublishActiveId(id) => if s.publishing.None? then s.(activeId := id, publishing := Some(id)) else s
    case PublishActiveStatus(status) =>
      if s.publishing.Some? then
        s.(activeStatus := status, publishing := None, published := s.published + [Record(s.publishing.value, status)])
      else s
    case _ => s
  }

  /** What the reader does next; `n` is the number of records completed by now. */
  function ReaderNext(s: State, c: Reader, a: Action): Reader
    requires Sized(s)
  {
    var n := |s.hist|;
    match a
    case Query(_, id) =>
      if c.RIdle? || c.RDone? then
        if id == 0 then RDone(0, n, n, Pending) else RScan(id, 0, n)
      else c
    case LoadId(_) =>
      if c.RScan? && c.i < SLOTS then
        if s.ids[c.i] == c.id then RHit(c.id, c.i, c.from)
        else if c.i + 1 == SLOTS then RMissed(c.id, c.from)
        else RScan(c.id, c.i + 1, c.from)
      else c
    case LoadStatus(_) =>
      if c.RHit? && c.i < SLOTS then RDone(c.id, c.from, n, s.statuses[c.i]) else c
    case LoadActiveId(_) =>
      if c.RMissed? then
        if s.activeId == c.id then RActive(c.id, c.from) else RDone(c.id, c.from, n, Pending)
      else c
    case LoadActiveStatus(_) =>
      if c.RActive? then RDone(c.id, c.from, n, s.activeStatus) else c
    case _ => c
  }

  predicate OfReader(a: Action) {
    a.Query? || a.LoadId? || a.LoadStatus? || a.LoadActiveId? || a.LoadActiveStatus?
  }

  function Step(s: State, a: Action): (s': State)
    requires Sized(s)
    ensures Sized(s')
  {
    if OfReader(a) then s.(readers := s.readers[a.r := ReaderNext(s, ReaderOf(s, a.r), a)])
    else WriterStep(s, a)
  }

  lemma SlotOfRecord(s: State, p: nat)
    requires Inv(s) && p < |s.hist| <= p + SLOTS
    ensures s.ids[p % SLOTS] == s.hist[p].id
    ensures s.writer.WIdle? || |s.hist| < p + SLOTS ==> s.statuses[p % SLOTS] == s.hist[p].status
  {
    assert SlotInv(s, p % SLOTS);
  }

  /** A slot holding the id of a recorded motion is that record's own slot. */
  lemma SlotHoldingId(s: State, k: nat, p: nat)
    requires Inv(s) && k < SLOTS && p < |s.hist| && s.ids[k] == s.hist[p].id
    ensures p % SLOTS == k
  {
    var q := NewestAt(|s.hist|, k);
    SlotOf(s, k, q);
    hide SlotInv, ReaderInv, Recorded;
  }

  /** A slot with a nonzero id holds the record of the newest position that falls on it. */
  lemma SlotOf(s: State, k: nat, q: int)
    requires Inv(s) && k < SLOTS && s.ids[k] != 0
    requires q < |s.hist| <= q + SLOTS && (if q >= 0 then q % SLOTS == k else k >= |s.hist|)
    ensures q >= 0 && s.ids[k] == s.hist[q].id
  {
    assert SlotInv(s, k);
  }

  /** The last of `n` positions that falls on slot `k`; negative when none does. */
  lemma NewestAt(n: nat, k: nat) returns (q: int)
    requires k < SLOTS
    ensures q < n <= q + SLOTS && (if q >= 0 then q % SLOTS == k else k >= n)
  {
    var h, laps := n % SLOTS, n / SLOTS;
    assert n == SLOTS * laps + h;
    if k < h {
      q := SLOTS * laps + k;
      Bits.ModUnique(q, SLOTS, laps, k);
    } else {
      q := SLOTS * (laps - 1) + k;
      if q >= 0 { Bits.ModUnique(q, SLOTS, laps - 1, k); }
    }
  }

  lemma ReaderKeepsInv(s: State, c: Reader, a: Action)
    requires Inv(s) && ReaderInv(s, c) && OfReader(a)
    ensures ReaderInv(s, ReaderNext(s, c, a))
  {
    match a {
      case LoadId(_) =>
        if c.RScan? && c.i < SLOTS {
          forall p | 0 <= p < c.from && Recent(p, |s.hist|) && s.hist[p].id == c.id
            ensures (s.ids[c.i] == c.id) == (c.i == p % SLOTS)
          {
            SlotOfRecord(s, p);
            if s.ids[c.i] == c.id { SlotHoldingId(s, c.i, p); }
          }
        }
      case LoadStatus(_) =>
        if c.RHit? {
          forall p | 0 <= p < c.from && Recent(p, |s.hist|) && s.hist[p].id == c.id
            ensures s.statuses[c.i] == s.hist[p].status
          {
            SlotOfRecord(s, p);
          }
        }
      case _ =>
    }
  }

  lemma WriterKeepsReader(s: State, c: Reader, a: Action)
    requires Inv(s) && ReaderInv(s, c)
    ensures ReaderInv(WriterStep(s, a), c)
  {
    var s' := WriterStep(s, a);
    forall p | 0 <= p < |s.hist| && Recent(p, |s'.hist|) ensures Recent(p, |s.hist|) && s'.hist[p] == s.hist[p] {}
  }

  lemma WriterKeepsSlot(s: State, a: Action, k: nat)
    requires Inv(s) && k < SLOTS
    ensures SlotInv(WriterStep(s, a), k)
  {
    assert SlotInv(s, k);
    if a.StoreId? && s.writer.WStatusStored? {
      var s' := WriterStep(s, a);
      forall p | 0 <= p < |s'.hist| <= p + SLOTS && p % SLOTS == k
        ensures s'.ids[k] == s'.hist[p].id && s'.statuses[k] == s'.hist[p].status
      {
        if p < |s.hist| { assert s.hist[p] == s'.hist[p]; }
      }
    }
  }

  lemma ReaderStepKeepsInv(s: State, a: Action)
    requires Inv(s) && OfReader(a)
    ensures Inv(Step(s, a))
  {
    var s' := Step(s, a);
    ReaderKeepsInv(s, ReaderOf(s, a.r), a);
    hide ReaderNext;
    forall k | 0 <= k < SLOTS ensures SlotInv(s', k) { assert SlotInv(s, k); }
    forall r | r in s'.readers ensures ReaderInv(s', s'.readers[r]) {
      if r == a.r { assert ReaderInv(s, s'.readers[r]); } else { assert ReaderInv(s, s.readers[r]); }
    }
  }

  lemma WriterStepKeepsInv(s: State, a: Action)
    requires Inv(s) && !OfReader(a)
    ensures Inv(Step(s, a))
  {
    var s' := Step(s, a);
    forall k | 0 <= k < SLOTS ensures SlotInv(s', k) { WriterKeepsSlot(s, a, k); }
    forall r | r in s'.readers ensures ReaderInv(s', s'.readers[r]) { WriterKeepsReader(s, s.readers[r], a); }
  }

  lemma StepKeepsInv(s: State, a: Action)
    requires Inv(s)
    ensures Inv(Step(s, a))
  {
    hide Inv, Step;
    if OfReader(a) { ReaderStepKeepsInv(s, a); } else { WriterStepKeepsInv(s, a); }
  }

  function Run(s: State, schedule: seq<Action>): (s': State)
    requires Sized(s)
    ensures Sized(s')
    decreases |schedule|
  {
    if schedule == [] then s else Run(Step(s, schedule[0]), schedule[1..])
  }

  lemma {:induction false} RunKeepsInv(s: State, schedule: seq<Action>)
    requires Inv(s)
    ensures Inv(Run(s, schedule))
    decreases |schedule|
  {
    if schedule != [] {
      StepKeepsInv(s, schedule[0]);
      RunKeepsInv(Step(s, schedule[0]), schedule[1..]);
    }
  }

  lemma InitInv()
    ensures Inv(Init())
  {
    forall k | 0 <= k < SLOTS ensures SlotInv(Init(), k) {}
  }

  /**
   For every schedule: a query for a motion that was recorded when the query began and
   is still among the last `SLOTS - 1` records when it ends answers its recorded status.
   */
  lemma {:induction false} RecentResolutionIsExact(schedule: seq<Action>, r: nat, p: nat)
    ensures var s := Run(Init(), schedule);
            var c := ReaderOf(s, r);
            c.RDone? && p < c.from && p < |s.hist| && Recent(p, c.upTo) && s.hist[p].id == c.id ==> c.answer == s.hist[p].status
  {
    InitInv();
    RunKeepsInv(Init(), schedule);
    var s := Run(Init(), schedule);
    if r in s.readers { assert ReaderInv(s, s.readers[r]); }
  }

  /** The schedule that records the motions 1 to `n`, each as done. */
  function RecordAll(n: nat): seq<Action> {
    if n == 0 then [] else RecordAll(n - 1) + [StoreStatus(n, Done), StoreId]
  }

  lemma {:induction false} RunConcat(s: State, a: seq<Action>, b: seq<Action>)
    requires Sized(s)
    ensures Run(s, a + b) == Run(Run(s, a), b)
    decreases |a|
  {
    if a == [] {
      assert a + b == b;
    } else {
      RunConcat(Step(s, a[0]), a[1..], b);
      assert (a + b)[1..] == a[1..] + b;
    }
  }

  lemma {:induction false} RecordAllRuns(n: nat)
    ensures var s := Run(Init(), RecordAll(n));
            && s.writer.WIdle? && s.readers == map[] && |s.hist| == n
            && forall p :: 0 <= p < n ==> s.hist[p] == Record(p + 1, Done)
  {
    if n > 0 {
      RecordAllRuns(n - 1);
      var s := Run(Init(), RecordAll(n - 1));
      RunConcat(Init(), RecordAll(n - 1), [StoreStatus(n, Done), StoreId]);
      var s1 := Step(s, StoreStatus(n, Done));
      var s2 := Step(s1, StoreId);
      assert Run(s, [StoreStatus(n, Done), StoreId]) == s2 by {
        assert [StoreStatus(n, Done), StoreId][1..] == [StoreId];
        assert Run(s1, [StoreId]) == Run(s2, []);
      }
    }
  }

  /** A query that finds the oldest of `SLOTS` records while its slot is being overwritten. */
  lemma CaughtMidOverwrite(s: State, status: MotionStatus)
    requires Inv(s) && s.writer.WIdle? && s.readers == map[] && |s.hist| == SLOTS && s.hist[0].id == 1
    requires forall p :: 0 <= p < SLOTS ==> s.hist[p].id != SLOTS + 1
    ensures var s' := Run(s, [Query(0, 1), LoadId(0), StoreStatus(SLOTS + 1, status), LoadStatus(0)]);
            s'.hist == s.hist && ReaderOf(s', 0) == RDone(1, SLOTS, SLOTS, status)
  {
    SlotOfRecord(s, 0);
    var t := [Query(0, 1), LoadId(0), StoreStatus(SLOTS + 1, status), LoadStatus(0)];
    var s1 := Step(s, t[0]);
    var s2 := Step(s1, t[1]);
    var s3 := Step(s2, t[2]);
    FourSteps(s, t, s1, s2, s3, Step(s3, t[3]));
  }

  /**
   One record fewer is needed for a reason: the oldest of the last `SLOTS` records can
   be answered with the status of the record that is about to overwrite it.
   */
  lemma OldestSlotMisleads(status: MotionStatus)
    ensures exists schedule :: var s := Run(Init(), schedule);
              && |s.hist| == SLOTS && s.hist[0] == Record(1, Done)
              && ReaderOf(s, 0) == RDone(1, SLOTS, SLOTS, status)
  {
    RecordAllRuns(SLOTS);
    InitInv();
    RunKeepsInv(Init(), RecordAll(SLOTS));
    var tail := [Query(0, 1), LoadId(0), StoreStatus(SLOTS + 1, status), LoadStatus(0)];
    CaughtMidOverwrite(Run(Init(), RecordAll(SLOTS)), status);
    RunConcat(Init(), RecordAll(SLOTS), tail);
  }

  lemma FourSteps(s: State, t: seq<Action>, s1: State, s2: State, s3: State, s4: State)
    requires Sized(s) && Sized(s1) && Sized(s2) && Sized(s3) && |t| == 4
    requires s1 == Step(s, t[0]) && s2 == Step(s1, t[1]) && s3 == Step(s2, t[2]) && s4 == Step(s3, t[3])
    requires Sized(s4)
    ensures Run(s, t) == s4
  {
    assert t[1..][1..] == t[2..] && t[2..][1..] == t[3..] && t[3..][1..] == [];
    assert Run(s, t) == Run(s1, t[1..]) && Run(s1, t[1..]) == Run(s2, t[2..]);
    assert Run(s2, t[2..]) == Run(s3, t[3..]) && Run(s3, t[3..]) == Run(s4, []);
  }

  lemma RunNext(s: State, schedule: seq<Action>, a: Action)
    requires Sized(s)
    ensures Run(s, schedule + [a]) == Step(Run(s, schedule), a)
  {
    RunConcat(s, schedule, [a]);
    assert Run(Run(s, schedule), [a]) == Run(Step(Run(s, schedule), a), []);
  }

  // ---- a motion that is not in the table ---------------------------------------

  /** The newest completed publication; before the first one the active motion is none, and pending. */
  function Newest(published: seq<Record>): Record {
    if published == [] then Record(0, Pending) else published[|published| - 1]
  }

  predicate Publishes(s: State) {
    && s.activeStatus == Newest(s.published).status
    && s.activeId == if s.publishing.Some? then s.publishing.value else Newest(s.published).id
  }

  lemma {:induction false} RunPublishes(s: State, schedule: seq<Action>)
    requires Sized(s) && Publishes(s)
    ensures Publishes(Run(s, schedule))
    decreases |schedule|
  {
    if schedule != [] {
      hide Run;
      StepPublishes(s, schedule[0]);
      RunPublishes(Step(s, schedule[0]), schedule[1..]);
      assert Run(s, schedule) == Run(Step(s, schedule[0]), schedule[1..]) by { RunHead(s, schedule); }
    }
  }

  lemma RunHead(s: State, schedule: seq<Action>)
    requires Sized(s) && schedule != []
    ensures Run(s, schedule) == Run(Step(s, schedule[0]), schedule[1..])
  {
  }

  lemma StepPublishes(s: State, a: Action)
    requires Sized(s) && Publishes(s)
    ensures Publishes(Step(s, a))
  {
    hide ReaderNext;
  }

  /** Step `k` finds the query of motion `id` at the active id, past the whole table. */
  predicate ComparesAt(schedule: seq<Action>, k: nat, r: nat, id: nat, from: nat)
    requires k < |schedule|
  {
    schedule[k] == LoadActiveId(r) && ReaderOf(Run(Init(), schedule[..k]), r) == RMissed(id, from)
  }

  /** Step `j` found the motion to be the active one, if it was published as such. */
  predicate ActiveAt(schedule: seq<Action>, j: nat, r: nat, id: nat, from: nat)
    requires j < |schedule|
  {
    ComparesAt(schedule, j, r, id, from) && Run(Init(), schedule[..j]).activeId == id
  }

  /** Step `k` found another motion to be the active one. */
  predicate InactiveAt(schedule: seq<Action>, k: nat, r: nat, id: nat, from: nat)
    requires k < |schedule|
  {
    ComparesAt(schedule, k, r, id, from) && Run(Init(), schedule[..k]).activeId != id
  }

  /** Step `k` loads the active status for the query. */
  predicate AnswersAt(schedule: seq<Action>, k: nat, r: nat, id: nat, from: nat, answer: MotionStatus)
    requires k < |schedule|
  {
    var s := Run(Init(), schedule[..k]);
    schedule[k] == LoadActiveStatus(r) && ReaderOf(s, r) == RActive(id, from) && answer == Newest(s.published).status
  }

  /** Why a query that missed the whole table has the state it has. */
  ghost predicate Explained(schedule: seq<Action>, r: nat) {
    var s := Run(Init(), schedule);
    match ReaderOf(s, r)
    case RHit(id, _, _) => Recorded(s.hist, id)
    case RActive(id, from) => exists j :: 0 <= j < |schedule| && ActiveAt(schedule, j, r, id, from)
    case RDone(id, from, upTo, answer) =>
      && upTo <= |s.hist|
      && (id == 0 || Recorded(s.hist, id) || AnsweredLive(schedule, r, id, from, answer))
    case _ => true
  }

  ghost predicate AnsweredLive(schedule: seq<Action>, r: nat, id: nat, from: nat, answer: MotionStatus) {
    || (answer == Pending && exists k :: 0 <= k < |schedule| && InactiveAt(schedule, k, r, id, from))
    || (exists j, k :: 0 <= j < k < |schedule| && ActiveAt(schedule, j, r, id, from) && AnswersAt(schedule, k, r, id, from, answer))
  }

  lemma CompareLonger(schedule: seq<Action>, a: Action, k: nat, r: nat, id: nat, from: nat)
    requires k < |schedule|
    ensures ComparesAt(schedule + [a], k, r, id, from) == ComparesAt(schedule, k, r, id, from)
    ensures ActiveAt(schedule + [a], k, r, id, from) == ActiveAt(schedule, k, r, id, from)
    ensures InactiveAt(schedule + [a], k, r, id, from) == InactiveAt(schedule, k, r, id, from)
    ensures forall answer :: AnswersAt(schedule + [a], k, r, id, from, answer) == AnswersAt(schedule, k, r, id, from, answer)
  {
    assert (schedule + [a])[..k] == schedule[..k];
  }

  lemma LiveLonger(schedule: seq<Action>, a: Action, r: nat, id: nat, from: nat, answer: MotionStatus)
    requires AnsweredLive(schedule, r, id, from, answer)
    ensures AnsweredLive(schedule + [a], r, id, from, answer)
  {
    hide ActiveAt, InactiveAt, AnswersAt, ComparesAt;
    if k :| 0 <= k < |schedule| && answer == Pending && InactiveAt(schedule, k, r, id, from) {
      CompareLonger(schedule, a, k, r, id, from);
    } else {
      var j, k :| 0 <= j < k < |schedule| && ActiveAt(schedule, j, r, id, from) && AnswersAt(schedule, k, r, id, from, answer);
      CompareLonger(schedule, a, j, r, id, from);
      CompareLonger(schedule, a, k, r, id, from);
    }
  }

  lemma HitIsRecorded(s: State, k: nat)
    requires Inv(s) && k < SLOTS && s.ids[k] != 0
    ensures Recorded(s.hist, s.ids[k])
  {
    var q := NewestAt(|s.hist|, k);
    SlotOf(s, k, q);
    hide SlotInv, ReaderInv;
    assert s.hist[q].id == s.ids[k];
  }

  lemma RecordedStays(s: State, a: Action, id: nat)
    requires Sized(s) && Recorded(s.hist, id)
    ensures Recorded(Step(s, a).hist, id) && |s.hist| <= |Step(s, a).hist|
  {
    var p :| 0 <= p < |s.hist| && s.hist[p].id == id;
    assert Step(s, a).hist[p].id == id;
  }

  /** A step of the query itself. */
  lemma ReaderExplained(schedule: seq<Action>, a: Action, r: nat)
    requires Explained(schedule, r) && OfReader(a) && a.r == r
    ensures Explained(schedule + [a], r)
  {
    var s, n, longer := Run(Init(), schedule), |schedule|, schedule + [a];
    RunNext(Init(), schedule, a);
    InitInv();
    RunKeepsInv(Init(), schedule);
    RunPublishes(Init(), schedule);
    assert longer[..n] == schedule && longer[n] == a;
    var c := ReaderOf(s, r);
    if r in s.readers { assert ReaderInv(s, s.readers[r]); }
    match c {
      case RScan(id, i, _) => if a.LoadId? && i < SLOTS && s.ids[i] == id { HitIsRecorded(s, i); }
      case RMissed(id, from) =>
        if a.LoadActiveId? {
          hide Run, Inv;
          assert ComparesAt(longer, n, r, id, from);
          if s.activeId == id { assert ActiveAt(longer, n, r, id, from); } else { assert InactiveAt(longer, n, r, id, from); }
        }
      case RActive(id, from) =>
        hide Run, Inv;
        var j :| 0 <= j < n && ActiveAt(schedule, j, r, id, from);
        CompareLonger(schedule, a, j, r, id, from);
        if a.LoadActiveStatus? { assert AnswersAt(longer, n, r, id, from, s.activeStatus); }
      case RDone(id, from, _, answer) =>
        hide Run, Inv;
        if AnsweredLive(schedule, r, id, from, answer) { LiveLonger(schedule, a, r, id, from, answer); }
      case _ =>
    }
  }

  /** A step of anybody else. */
  lemma OtherExplained(schedule: seq<Action>, a: Action, r: nat)
    requires Explained(schedule, r) && (OfReader(a) ==> a.r != r)
    ensures Explained(schedule + [a], r)
  {
    var s := Run(Init(), schedule);
    RunNext(Init(), schedule, a);
    var c := ReaderOf(s, r);
    assert ReaderOf(Step(s, a), r) == c && |s.hist| <= |Step(s, a).hist|;
    hide Run, Step;
    match c {
      case RHit(id, _, _) => RecordedStays(s, a, id);
      case RActive(id, from) =>
        var j :| 0 <= j < |schedule| && ActiveAt(schedule, j, r, id, from);
        CompareLonger(schedule, a, j, r, id, from);
      case RDone(id, from, _, answer) =>
        if Recorded(s.hist, id) { RecordedStays(s, a, id); }
        if AnsweredLive(schedule, r, id, from, answer) { LiveLonger(schedule, a, r, id, from, answer); }
      case _ =>
    }
  }

  lemma {:induction false} RunExplained(schedule: seq<Action>, r: nat)
    ensures Explained(schedule, r)
    decreases |schedule|
  {
    if schedule != [] {
      var before := schedule[..|schedule| - 1];
      RunExplained(before, r);
      assert schedule == before + [schedule[|schedule| - 1]];
      hide Explained;
      var a := schedule[|schedule| - 1];
      if OfReader(a) && a.r == r { ReaderExplained(before, a, r); } else { OtherExplained(before, a, r); }
    }
  }

  /**
   For every schedule, a query of a motion that has no record answers as follows: pending, if the
   active id it compared was another's; else, when the active id was the motion's, the status
   of the publication that was the newest completed one when it loaded the status.
   */
  lemma UnrecordedAnswer(schedule: seq<Action>, r: nat)
    requires var s := Run(Init(), schedule);
             var c := ReaderOf(s, r); c.RDone? && c.id != 0 && !Recorded(s.hist, c.id)
    ensures var c := ReaderOf(Run(Init(), schedule), r);
            AnsweredLive(schedule, r, c.id, c.from, c.answer)
  {
    RunExplained(schedule, r);
  }

  function Loads(r: nat, n: nat): seq<Action> { seq(n, _ => LoadId(r)) }

  /** A scan with nobody in between that finds nothing. */
  lemma {:induction false} ScanMisses(s: State, r: nat, id: nat, i: nat, from: nat)
    requires Sized(s) && ReaderOf(s, r) == RScan(id, i, from) && i < SLOTS
    requires forall k :: i <= k < SLOTS ==> s.ids[k] != id
    ensures Run(s, Loads(r, SLOTS - i)) == s.(readers := s.readers[r := RMissed(id, from)])
    decreases SLOTS - i
  {
    var s' := Step(s, LoadId(r));
    var rest := Loads(r, SLOTS - i - 1);
    assert Loads(r, SLOTS - i) == [LoadId(r)] + rest;
    RunConcat(s, [LoadId(r)], rest);
    assert Run(s, [LoadId(r)]) == Run(s', []);
    if i + 1 < SLOTS {
      ScanMisses(s', r, id, i + 1, from);
      assert s'.readers[r := RMissed(id, from)] == s.readers[r := RMissed(id, from)];
    }
  }

  lemma Extend(s: State, trace: seq<Action>, a: Action) returns (s': State, more: seq<Action>)
    requires s == Run(Init(), trace)
    ensures s' == Step(s, a) && s' == Run(Init(), more)
  {
    more := trace + [a];
    s' := Step(s, a);
    RunNext(Init(), trace, a);
  }

  /** After motion 1 is done, a query of motion 2 scans a table that does not have it. */
  lemma OneIsDone() returns (s: State, trace: seq<Action>)
    ensures s == Run(Init(), trace)
    ensures s == Init().(ids := Init().ids[0 := 1], statuses := Init().statuses[0 := Done], head := 1, hist := [Record(1, Done)],
                         activeId := 1, activeStatus := Done, published := [Record(1, Done)])
  {
    RecordedInOrder(Init(), 1, Done);
    trace := [StoreStatus(1, Done), StoreId];
    s := Run(Init(), trace);
    hide Run;
    s, trace := Extend(s, trace, PublishActiveId(1));
    s, trace := Extend(s, trace, PublishActiveStatus(Done));
  }

  lemma ScannedForTwo() returns (s: State, trace: seq<Action>)
    ensures s == Run(Init(), trace) && s.readers == map[0 := RMissed(2, 1)] && s.hist == [Record(1, Done)]
    ensures s.publishing.None? && s.published == [Record(1, Done)] && s.activeStatus == Done && s.writer.WIdle?
  {
    s, trace := OneIsDone();
    hide Run;
    s, trace := Extend(s, trace, Query(0, 2));
    hide Step;
    ScanMisses(s, 0, 2, 0, 1);
    RunConcat(Init(), trace, Loads(0, SLOTS));
    trace := trace + Loads(0, SLOTS);
    s := Run(Init(), trace);
  }

  /**
   The id and the status of the active motion are stored one after the other, so a query between
   the two stores can give a motion that has only just become active the status of the one
   before it: here motion 2 is answered as done, though nothing has said anything of it yet.
   */
  lemma NewMotionCanLookDone()
    ensures exists schedule :: var s := Run(Init(), schedule);
              && ReaderOf(s, 0) == RDone(2, 1, 1, Done)
              && s.hist == [Record(1, Done)] && s.published == [Record(1, Done)] && s.publishing == Some(2)
  {
    hide Run;
    var s, trace := ScannedForTwo();
    s, trace := Extend(s, trace, PublishActiveId(2));
    s, trace := Extend(s, trace, LoadActiveId(0));
    assert ReaderOf(s, 0) == RActive(2, 1);
    s, trace := Extend(s, trace, LoadActiveStatus(0));
  }

  /** Record `p` of `n` still has its slot when no write is in progress. */
  predicate Kept(p: nat, n: nat) { p < n <= p + SLOTS }

  /** The kept record that slot `k` of the table holds. */
  ghost function KeptIn(k: nat, n: nat): (p: nat)
    requires k < SLOTS && (k < n || SLOTS <= n)
    ensures Kept(p, n) && p % SLOTS == k
  {
    var laps := if k < n % SLOTS then n / SLOTS else n / SLOTS - 1;
    Bits.ModUnique(SLOTS * laps + k, SLOTS, laps, k);
    SLOTS * laps + k
  }

  /** The slots hold the last records, each motion recorded once and none of them motion 0. */
  ghost predicate Keeps(ids: seq<nat>, statuses: seq<MotionStatus>, hist: seq<Record>) {
    && |ids| == |statuses| == SLOTS
    && (forall p, q :: 0 <= p < q < |hist| ==> hist[p].id != hist[q].id)
    && (forall p :: 0 <= p < |hist| ==> hist[p].id != 0)
    && (forall k :: |hist| <= k < SLOTS ==> ids[k] == 0)
    && (forall p :: 0 <= p < |hist| && Kept(p, |hist|) ==>
          ids[p % SLOTS] == hist[p].id && statuses[p % SLOTS] == hist[p].status)
  }

  lemma KeepsNext(ids: seq<nat>, statuses: seq<MotionStatus>, hist: seq<Record>, r: Record)
    requires Keeps(ids, statuses, hist) && r.id != 0 && !Recorded(hist, r.id)
    ensures var k := |hist| % SLOTS; Keeps(ids[k := r.id], statuses[k := r.status], hist + [r])
  {
  }

  /** The table in place: one writer call and one query, neither interrupted. */
  class Table {
    const ids: array<nat>
    const statuses: array<MotionStatus>
    var head: nat
    var activeId: nat
    var activeStatus: MotionStatus
    ghost var history: seq<Record>
    ghost var published: seq<Record>

    /** The state of the machine when nobody is in the middle of anything. */
    ghost function Model(): State
      reads this, ids, statuses
    {
      State(ids[..], statuses[..], head, WIdle, activeId, activeStatus, map[], history, None, published)
    }

    ghost predicate Valid()
      reads this, ids, statuses
    {
      && ids.Length == statuses.Length == SLOTS
      && head == |history| % SLOTS
      && Keeps(ids[..], statuses[..], history)
    }

    constructor ()
      ensures Valid() && Model() == Init() && fresh(ids) && fresh(statuses)
    {
      ids := new nat[SLOTS](_ => 0);
      statuses := new MotionStatus[SLOTS](_ => Pending);
      head, activeId, activeStatus, history, published := 0, 0, Pending, [], [];
    }

    method RecordResolution(id: nat, status: MotionStatus)
      requires Valid() && id != 0 && !Recorded(history, id)
      modifies this`head, this`history, ids, statuses
      ensures Valid() && history == old(history) + [Record(id, status)]
      ensures Sized(old(Model())) && Model() == Run(old(Model()), [StoreStatus(id, status), StoreId])
    {
      RecordedInOrder(Model(), id, status);
      KeepsNext(ids[..], statuses[..], history, Record(id, status));
      hide Run, Step, Recorded, Keeps;
      statuses[head] := status;
      ids[head] := id;
      head := (head + 1) % SLOTS;
      history := history + [Record(id, status)];
    }

    /** The end of publish: the id of the active motion, then its status. */
    method PublishActive(id: nat, status: MotionStatus)
      requires Valid()
      modifies this`activeId, this`activeStatus, this`published
      ensures Valid() && activeId == id && activeStatus == status
      ensures Sized(old(Model())) && Model() == Run(old(Model()), [PublishActiveId(id), PublishActiveStatus(status)])
    {
      TwoSteps(Model(), PublishActiveId(id), PublishActiveStatus(status));
      hide Run;
      activeId := id;
      activeStatus := status;
      published := published + [Record(id, status)];
    }

    /** motion_status, alone: one run of a reader over the table. */
    method Status(id: nat) returns (status: MotionStatus, ghost trace: seq<Action>)
      requires Valid()
      ensures id == 0 ==> status == Pending
      ensures forall p :: 0 <= p < |history| && Kept(p, |history|) && history[p].id == id ==> status == history[p].status
      ensures id != 0 && (forall p :: 0 <= p < |history| && Kept(p, |history|) ==> history[p].id != id) ==>
                status == if activeId == id then activeStatus else Pending
      ensures forall a :: a in trace ==> OfReader(a) && a.r == 0
      ensures Sized(Model())
      ensures var n := |history|;
              Run(Model(), trace) == Model().(readers := map[0 := RDone(id, n, n, status)])
    {
      hide Run, Step, Kept;
      ghost var m, n, c := Model(), |history|, RIdle;
      trace, c := Ask(m, id);
      if id == 0 {
        return Pending, trace;
      }
      for i := 0 to SLOTS
        invariant forall j :: 0 <= j < i ==> ids[j] != id
        invariant forall a :: a in trace ==> OfReader(a) && a.r == 0
        invariant c == if i == SLOTS then RMissed(id, n) else RScan(id, i, n)
        invariant Run(m, trace) == m.(readers := map[0 := c])
      {
        trace, c := Advance(m, trace, c, LoadId(0));
        if ids[i] == id {
          ghost var p := KeptIn(i, |history|);
          assert history[p].id == id;
          trace, c := Advance(m, trace, c, LoadStatus(0));
          return statuses[i], trace;
        }
      }
      trace, c := Advance(m, trace, c, LoadActiveId(0));
      if activeId == id {
        trace, c := Advance(m, trace, c, LoadActiveStatus(0));
        return activeStatus, trace;
      }
      return Pending, trace;
    }
  }

  lemma Ask(m: State, id: nat) returns (trace: seq<Action>, c: Reader)
    requires Sized(m) && m.readers == map[]
    ensures trace == [Query(0, id)] && Run(m, trace) == m.(readers := map[0 := c])
    ensures var n := |m.hist|; c == if id == 0 then RDone(0, n, n, Pending) else RScan(id, 0, n)
  {
    trace := [Query(0, id)];
    OneStep(m, Query(0, id));
    c := ReaderOf(Step(m, Query(0, id)), 0);
  }

  lemma Advance(m: State, trace: seq<Action>, c: Reader, a: Action) returns (more: seq<Action>, c': Reader)
    requires Sized(m) && OfReader(a) && a.r == 0 && Run(m, trace) == m.(readers := map[0 := c])
    ensures more == trace + [a] && c' == ReaderNext(m, c, a) && Run(m, more) == m.(readers := map[0 := c'])
  {
    more, c' := trace + [a], ReaderNext(m, c, a);
    RunNext(m, trace, a);
    assert map[0 := c][0 := c'] == map[0 := c'];
  }

  lemma RecordedInOrder(s: State, id: nat, status: MotionStatus)
    requires Sized(s) && s.writer.WIdle? && id != 0 && !Recorded(s.hist, id)
    ensures Run(s, [StoreStatus(id, status), StoreId])
            == s.(statuses := s.statuses[s.head := status], ids := s.ids[s.head := id], head := (s.head + 1) % SLOTS,
                  hist := s.hist + [Record(id, status)])
  {
    TwoSteps(s, StoreStatus(id, status), StoreId);
  }

  lemma OneStep(s: State, a: Action)
    requires Sized(s)
    ensures Run(s, [a]) == Step(s, a)
  {
    assert Run(s, [a]) == Run(Step(s, a), []);
  }

  lemma TwoSteps(s: State, a: Action, b: Action)
    requires Sized(s)
    ensures Run(s, [a, b]) == Step(Step(s, a), b)
  {
    OneStep(s, a);
    RunNext(s, [a], b);
    assert [a, b] == [a] + [b];
  }
}
