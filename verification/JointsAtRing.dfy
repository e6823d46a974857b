/**
 The joint-history ring with one sequence lock per slot (src/cpp/rt_core/rings.hpp).

 `Step` runs one atomic load or store of the writer or of one of any number of
 readers; the stamp and each joint are separate stores and separate loads. A schedule
 is any list of actions, an action whose thread is elsewhere does nothing. Memory is
 sequentially consistent and the 64-bit counters do not wrap.
 */
module JointsAtRing {
  import opened Bits

  const CAP := 256
  const CAP_LOG2 := 8
  const JOINTS := 6
  const INT64_MAX := 0x7fff_ffff_ffff_ffff

  type Vec6 = v: seq<real> | |v| == JOINTS witness [0.0, 0.0, 0.0, 0.0, 0.0, 0.0]

  datatype Entry = Entry(mono: int, q: Vec6)

  datatype Slot = Slot(seqNo: nat, mono: int, q: Vec6)

  datatype Writer =
    | WIdle
    | WLoaded(e: Entry, i: nat, s: nat)            // seq loaded as s
    | WWriting(e: Entry, i: nat, s: nat, done: nat) // seq is s + 1; mono stored if done > 0, then done - 1 joints
    | WStable(i: nat)                              // seq is s + 2, index not yet advanced

  datatype Reader =
    | RIdle
    | RCounted(n: nat)                             // count_ loaded
    | RCopying(n: nat, k: nat, s1: nat, got: nat, mono: int, q: Vec6) // mono copied if got > 0, then got - 1 joints
    | RDone(n: nat, k: nat, ok: bool, e: Entry)    // read_slot returned

  datatype Action =
    | PushLoadSeq(e: Entry) | PushStoreOdd | PushStoreField | PushStoreEven | PushAdvance
    | LoadCount(r: nat) | LoadSeq(r: nat, k: nat) | LoadField(r: nat) | RecheckSeq(r: nat)

  /** `hist` is the history of pushes whose even sequence store is done. */
  datatype State = State(slots: seq<Slot>, writeIdx: nat, count: nat, writer: Writer,
                         readers: map<nat, Reader>, hist: seq<Entry>)

  const ZERO: Vec6 := [0.0, 0.0, 0.0, 0.0, 0.0, 0.0]

  function Mask(i: nat): nat { And(i, CAP - 1) }

  lemma MaskIsRemainder(i: nat)
    ensures Mask(i) == i % CAP
  {
    assert Pow2(CAP_LOG2) == CAP by {
      assert Pow2(4) == 16;
      Pow2Split(4, 4);
    }
    MaskIsMod(i, CAP_LOG2);
  }

  /** What the code's types say of a state: indices are in range. */
  predicate Sized(s: State) {
    && |s.slots| == CAP
    && (s.writer.WLoaded? || s.writer.WWriting? ==> s.writer.i < CAP)
    && (s.writer.WWriting? ==> s.writer.done <= JOINTS + 1)
    && (forall r :: r in s.readers && s.readers[r].RCopying? ==> s.readers[r].k < CAP && s.readers[r].got <= JOINTS + 1)
  }

  function Init(): (s: State)
    ensures Sized(s)
  {
    State(seq(CAP, _ => Slot(0, 0, ZERO)), 0, 0, WIdle, map[], [])
  }

  function ReaderOf(s: State, r: nat): Reader {
    if r in s.readers then s.readers[r] else RIdle
  }

  function Min(a: nat, b: nat): nat { if a < b then a else b }

  /** Number of pushes out of the first `n` that went to slot `k`. */
  function Laps(n: nat, k: nat): nat
    requires k < CAP
  {
    (n + CAP - 1 - k) / CAP
  }

  /** The last push out of the first `n` that went to slot `k`. */
  function Latest(n: nat, k: nat): (i: nat)
    requires k < CAP && Laps(n, k) > 0
    ensures i < n && i % CAP == k && n <= i + CAP
  {
    CAP * (Laps(n, k) - 1) + k
  }

  /** Slot `k` holds the newest push that went there. */
  ghost predicate Holds(slot: Slot, hist: seq<Entry>, k: nat)
    requires k < CAP
  {
    Laps(|hist|, k) > 0 ==> slot.mono == hist[Latest(|hist|, k)].mono && slot.q == hist[Latest(|hist|, k)].q
  }

  ghost predicate Writing(s: State, k: nat) {
    s.writer.WWriting? && s.writer.i == k
  }

  ghost predicate SlotInv(s: State, k: nat)
    requires k < CAP == |s.slots|
  {
    && s.slots[k].seqNo == 2 * Laps(|s.hist|, k) + (if Writing(s, k) then 1 else 0)
    && (!Writing(s, k) ==> Holds(s.slots[k], s.hist, k))
  }

  ghost predicate WriterInv(s: State)
    requires |s.slots| == CAP
  {
    && |s.hist| == s.writeIdx + (if s.writer.WStable? then 1 else 0)
    && match s.writer
       case WIdle => true
       case WStable(_) => true
       case WLoaded(e, i, sq) => i == s.writeIdx % CAP && sq == s.slots[i].seqNo
       case WWriting(e, i, sq, done) =>
         && i == s.writeIdx % CAP && s.slots[i].seqNo == sq + 1
         && done <= JOINTS + 1
         && (done > 0 ==> s.slots[i].mono == e.mono && s.slots[i].q[..done - 1] == e.q[..done - 1])
  }

  /** While the sequence number is unchanged, everything copied so far is still there. */
  ghost predicate ReaderInv(s: State, reader: Reader)
    requires |s.slots| == CAP
  {
    match reader
    case RIdle => true
    case RCounted(n) => n <= s.count
    case RCopying(n, k, s1, got, mono, q) =>
      && k < n <= s.count <= CAP && s1 % 2 == 0 && 2 <= s1 <= s.slots[k].seqNo
      && got <= JOINTS + 1
      && (s.slots[k].seqNo == s1 && got > 0 ==>
            mono == s.slots[k].mono && q[..got - 1] == s.slots[k].q[..got - 1])
    case RDone(n, k, ok, e) => n <= s.count && (ok ==> exists i :: 0 <= i < |s.hist| && i % CAP == k && s.hist[i] == e)
  }

  ghost predicate Inv(s: State) {
    && Sized(s)
    && s.count == Min(s.writeIdx, CAP)
    && WriterInv(s)
    && (forall k :: 0 <= k < CAP ==> SlotInv(s, k))
    && (forall r :: r in s.readers ==> ReaderInv(s, s.readers[r]))
  }

  function StoreField(slot: Slot, e: Entry, done: nat): Slot
    requires done <= JOINTS
  {
    if done == 0 then slot.(mono := e.mono) else slot.(q := slot.q[done - 1 := e.q[done - 1]])
  }

  function LoadedField(slot: Slot, c: Reader): Reader
    requires c.RCopying? && c.got <= JOINTS
  {
    if c.got == 0 then c.(mono := slot.mono, got := 1)
    else c.(q := c.q[c.got - 1 := slot.q[c.got - 1]], got := c.got + 1)
  }

  function WriterStep(s: State, a: Action): (s': State)
    requires Sized(s)
    ensures Sized(s')
  {
    match a
    case PushLoadSeq(e) =>
      if s.writer.WIdle? then
        var i := Mask(s.writeIdx);
        MaskIsRemainder(s.writeIdx);
        s.(writer := WLoaded(e, i, s.slots[i].seqNo))
      else s
    case PushStoreOdd =>
      if s.writer.WLoaded? then
        var w := s.writer;
        s.(slots := s.slots[w.i := s.slots[w.i].(seqNo := w.s + 1)], writer := WWriting(w.e, w.i, w.s, 0))
      else s
    case PushStoreField =>
      if s.writer.WWriting? && s.writer.done <= JOINTS then
        var w := s.writer;
        s.(slots := s.slots[w.i := StoreField(s.slots[w.i], w.e, w.done)], writer := w.(done := w.done + 1))
      else s
    case PushStoreEven =>
      if s.writer.WWriting? && s.writer.done == JOINTS + 1 then
        var w := s.writer;
        s.(slots := s.slots[w.i := s.slots[w.i].(seqNo := w.s + 2)],
           writer := WStable(w.i), hist := s.hist + [w.e])
      else s
    case PushAdvance =>
      if s.writer.WStable? then
        s.(writeIdx := s.writeIdx + 1, count := Min(s.writeIdx + 1, CAP), writer := WIdle)
      else s
    case _ => s
  }

  function ReaderStep(s: State, a: Action): (s': State)
    requires Sized(s)
    ensures Sized(s')
  {
    match a
    case LoadCount(r) =>
      s.(readers := s.readers[r := RCounted(s.count)])
    case LoadSeq(r, k) =>
      var c := ReaderOf(s, r);
      if (c.RCounted? || c.RDone?) && k < c.n && k < CAP then
        var s1 := s.slots[k].seqNo;
        if s1 % 2 == 1 then s.(readers := s.readers[r := RDone(c.n, k, false, Entry(0, ZERO))])
        else s.(readers := s.readers[r := RCopying(c.n, k, s1, 0, 0, ZERO)])
      else s
    case LoadField(r) =>
      var c := ReaderOf(s, r);
      if c.RCopying? && c.got <= JOINTS then
        s.(readers := s.readers[r := LoadedField(s.slots[c.k], c)])
      else s
    case RecheckSeq(r) =>
      var c := ReaderOf(s, r);
      if c.RCopying? && c.got == JOINTS + 1 then
        s.(readers := s.readers[r := RDone(c.n, c.k, s.slots[c.k].seqNo == c.s1, Entry(c.mono, c.q))])
      else s
    case _ => s
  }

  function Step(s: State, a: Action): (s': State)
    requires Sized(s)
    ensures Sized(s')
  {
    match a
    case LoadCount(_) => ReaderStep(s, a)
    case LoadSeq(_, _) => ReaderStep(s, a)
    case LoadField(_) => ReaderStep(s, a)
    case RecheckSeq(_) => ReaderStep(s, a)
    case _ => WriterStep(s, a)
  }

  lemma LapsNext(n: nat, k: nat)
    requires k < CAP
    ensures Laps(n + 1, k) == Laps(n, k) + (if n % CAP == k then 1 else 0)
    ensures k < Min(n, CAP) ==> Laps(n, k) > 0
    ensures Laps(n, k) > 0 && n % CAP != k ==> Latest(n + 1, k) == Latest(n, k)
    ensures n % CAP == k ==> Latest(n + 1, k) == n
  {
  }

  /** Every writer action leaves a slot's fields alone while its sequence number is even. */
  lemma WriterIsQuiet(s: State, a: Action, k: nat)
    requires Inv(s) && k < CAP
    ensures var s' := WriterStep(s, a);
            && |s'.slots| == CAP && s'.slots[k].seqNo >= s.slots[k].seqNo
            && (s'.slots[k].seqNo == s.slots[k].seqNo && s.slots[k].seqNo % 2 == 0 ==> s'.slots[k] == s.slots[k])
            && s'.count >= s.count && s.hist <= s'.hist
  {
    assert SlotInv(s, k);
    if s.writer.WWriting? || s.writer.WLoaded? { assert SlotInv(s, s.writer.i); }
  }

  lemma WriterKeepsSlots(s: State, a: Action)
    requires Inv(s)
    ensures var s' := WriterStep(s, a);
            |s'.slots| == CAP && forall k :: 0 <= k < CAP ==> SlotInv(s', k)
  {
    var s' := WriterStep(s, a);
    forall k | 0 <= k < CAP ensures SlotInv(s', k) {
      assert SlotInv(s, k);
      LapsNext(|s.hist|, k);
    }
  }

  lemma WriterKeepsWriter(s: State, a: Action)
    requires Inv(s)
    ensures WriterInv(WriterStep(s, a)) && WriterStep(s, a).count == Min(WriterStep(s, a).writeIdx, CAP)
  {
    MaskIsRemainder(s.writeIdx);
  }

  lemma WriterKeepsReader(s: State, a: Action, c: Reader)
    requires Inv(s) && ReaderInv(s, c)
    ensures |WriterStep(s, a).slots| == CAP && ReaderInv(WriterStep(s, a), c)
  {
    var s' := WriterStep(s, a);
    WriterIsQuiet(s, a, if c.RCopying? then c.k else 0);
    if c.RDone? && c.ok {
      var i :| 0 <= i < |s.hist| && i % CAP == c.k && s.hist[i] == c.e;
      assert s'.hist[i] == c.e;
    }
  }

  /** A read that ends on the sequence number it started from copied the slot's newest push whole. */
  lemma RecheckedCopyIsLatest(s: State, r: nat)
    requires Inv(s) && r in s.readers && s.readers[r].RCopying? && s.readers[r].got == JOINTS + 1
    requires s.slots[s.readers[r].k].seqNo == s.readers[r].s1
    ensures var c := s.readers[r];
            && Laps(|s.hist|, c.k) > 0
            && Entry(c.mono, c.q) == s.hist[Latest(|s.hist|, c.k)]
  {
    var c := s.readers[r];
    assert ReaderInv(s, c) && SlotInv(s, c.k);
    assert c.q[..JOINTS] == c.q && s.slots[c.k].q[..JOINTS] == s.slots[c.k].q;
  }

  lemma ReaderKeepsOwn(s: State, a: Action, r: nat)
    requires Inv(s) && (a == LoadCount(r) || (a.LoadSeq? && a.r == r) || a == LoadField(r) || a == RecheckSeq(r))
    ensures var s' := ReaderStep(s, a);
            && s' == s.(readers := s'.readers)
            && (s' == s || (r in s'.readers && ReaderInv(s', s'.readers[r]) && s'.readers == s.readers[r := s'.readers[r]]))
  {
    var c := ReaderOf(s, r);
    if r in s.readers { assert ReaderInv(s, c); }
    match a {
      case LoadSeq(_, k) =>
        if k < CAP {
          assert SlotInv(s, k);
          LapsNext(s.writeIdx, k);
          if |s.hist| != s.writeIdx { LapsNext(s.writeIdx, k); }
        }
      case RecheckSeq(_) =>
        if c.RCopying? && c.got == JOINTS + 1 && s.slots[c.k].seqNo == c.s1 {
          RecheckedCopyIsLatest(s, r);
        }
      case _ =>
    }
  }

  lemma StepKeepsInv(s: State, a: Action)
    requires Inv(s)
    ensures Inv(Step(s, a))
  {
    var s' := Step(s, a);
    if a.LoadCount? || a.LoadSeq? || a.LoadField? || a.RecheckSeq? {
      ReaderKeepsOwn(s, a, a.r);
      forall k | 0 <= k < CAP ensures SlotInv(s', k) { assert SlotInv(s, k); }
      forall r | r in s'.readers ensures ReaderInv(s', s'.readers[r]) {
        if r != a.r { assert ReaderInv(s, s.readers[r]); }
      }
    } else {
      WriterKeepsSlots(s, a);
      WriterKeepsWriter(s, a);
      forall r | r in s'.readers ensures ReaderInv(s', s'.readers[r]) {
        WriterKeepsReader(s, a, s.readers[r]);
      }
    }
  }

  function Run(s: State, schedule: seq<Action>): (s': State)
    requires Sized(s)
    ensures Sized(s')
    decreases |schedule|
  {
    if schedule == [] then s else Run(Step(s, schedule[0]), schedule[1..])
  }

  lemma {:induction false} RunConcat(s: State, a: seq<Action>, b: seq<Action>)
    requires Sized(s)
    ensures Run(s, a + b) == Run(Run(s, a), b)
    decreases |a|
  {
    if a == [] {
      assert a + b == b;
    } else {
      RunConcat(Step(s, a[0]), a[1..], b);
      assert (a + b)[1..] == a[1..] + b;
    }
  }

  lemma TwoSteps(s: State, a: Action, b: Action)
    requires Sized(s)
    ensures Run(s, [a, b]) == Step(Step(s, a), b)
  {
    assert [a, b][1..] == [b] && [b][1..] == [];
    assert Run(Step(s, a), [b]) == Run(Step(Step(s, a), b), []);
  }

  function Repeated(a: Action, n: nat): seq<Action> { seq(n, _ => a) }

  lemma RunFirst(s: State, a: Action, n: nat)
    requires Sized(s)
    ensures Run(s, Repeated(a, n + 1)) == Run(Step(s, a), Repeated(a, n))
  {
    assert Repeated(a, n + 1)[1..] == Repeated(a, n);
  }

  /** The stamp and the joints, one store after the other. */
  lemma {:induction false} StoreFields(s: State)
    requires Sized(s) && s.writer.WWriting?
    requires var w := s.writer;
             w.done > 0 ==> s.slots[w.i].mono == w.e.mono && s.slots[w.i].q[..w.done - 1] == w.e.q[..w.done - 1]
    ensures var w := s.writer;
            Run(s, Repeated(PushStoreField, JOINTS + 1 - w.done))
            == s.(slots := s.slots[w.i := Slot(s.slots[w.i].seqNo, w.e.mono, w.e.q)], writer := w.(done := JOINTS + 1))
    decreases JOINTS + 1 - s.writer.done
  {
    var w := s.writer;
    if w.done == JOINTS + 1 {
      assert s.slots[w.i].q == w.e.q;
      assert s.slots[w.i := s.slots[w.i]] == s.slots;
    } else {
      var s' := Step(s, PushStoreField);
      RunFirst(s, PushStoreField, JOINTS - w.done);
      StoreFields(s');
      var full := Slot(s.slots[w.i].seqNo, w.e.mono, w.e.q);
      assert s'.slots[w.i := full] == s.slots[w.i := full];
    }
  }

  /** One call of push, as the writer's actions. */
  function PushSchedule(e: Entry): seq<Action> {
    [PushLoadSeq(e), PushStoreOdd] + (Repeated(PushStoreField, JOINTS + 1) + [PushStoreEven, PushAdvance])
  }

  /** Wherever the readers stand, the writer's own steps complete a push: the slot, the two counters, the history. */
  lemma PushCompletes(s: State, e: Entry)
    requires Sized(s) && s.writer.WIdle?
    ensures var i := s.writeIdx % CAP;
            Run(s, PushSchedule(e))
            == s.(slots := s.slots[i := Slot(s.slots[i].seqNo + 2, e.mono, e.q)], writeIdx := s.writeIdx + 1,
                  count := Min(s.writeIdx + 1, CAP), hist := s.hist + [e])
  {
    PushBegins(s, e);
    PushStores(s, e);
    Completed(s, e);
    hide Run, Mask, Min, Sized, Begun, Stored, Repeated;
    RunConcat(s, [PushLoadSeq(e), PushStoreOdd], Repeated(PushStoreField, JOINTS + 1) + [PushStoreEven, PushAdvance]);
    RunConcat(Begun(s, e), Repeated(PushStoreField, JOINTS + 1), [PushStoreEven, PushAdvance]);
  }

  lemma Completed(s: State, e: Entry)
    requires Sized(s) && s.writer.WIdle?
    ensures var i := s.writeIdx % CAP;
            Run(Stored(s, e), [PushStoreEven, PushAdvance])
            == s.(slots := s.slots[i := Slot(s.slots[i].seqNo + 2, e.mono, e.q)], writeIdx := s.writeIdx + 1,
                  count := Min(s.writeIdx + 1, CAP), hist := s.hist + [e])
  {
    PushEnds(Stored(s, e));
    hide Run, Min;
    var i := s.writeIdx % CAP;
    var full := Slot(s.slots[i].seqNo + 2, e.mono, e.q);
    assert Stored(s, e).slots[i := full] == s.slots[i := full];
  }

  /** The push has made the slot's number odd. */
  ghost function Begun(s: State, e: Entry): (b: State)
    requires Sized(s) && s.writer.WIdle?
    ensures Sized(b)
  {
    var i := s.writeIdx % CAP;
    s.(slots := s.slots[i := s.slots[i].(seqNo := s.slots[i].seqNo + 1)], writer := WWriting(e, i, s.slots[i].seqNo, 0))
  }

  /** And has stored the whole entry. */
  ghost function Stored(s: State, e: Entry): (b: State)
    requires Sized(s) && s.writer.WIdle?
    ensures Sized(b)
  {
    var i := s.writeIdx % CAP;
    s.(slots := s.slots[i := Slot(s.slots[i].seqNo + 1, e.mono, e.q)], writer := WWriting(e, i, s.slots[i].seqNo, JOINTS + 1))
  }

  lemma PushStores(s: State, e: Entry)
    requires Sized(s) && s.writer.WIdle?
    ensures Run(Begun(s, e), Repeated(PushStoreField, JOINTS + 1)) == Stored(s, e)
  {
    StoreFields(Begun(s, e));
    hide Run;
    var i := s.writeIdx % CAP;
    var full := Slot(s.slots[i].seqNo + 1, e.mono, e.q);
    assert Begun(s, e).slots[i := full] == s.slots[i := full];
  }

  lemma PushBegins(s: State, e: Entry)
    requires Sized(s) && s.writer.WIdle?
    ensures Run(s, [PushLoadSeq(e), PushStoreOdd]) == Begun(s, e)
  {
    MaskIsRemainder(s.writeIdx);
    TwoSteps(s, PushLoadSeq(e), PushStoreOdd);
    hide Run, Mask;
  }

  lemma PushEnds(s: State)
    requires Sized(s) && s.writer.WWriting? && s.writer.done == JOINTS + 1
    ensures var w := s.writer;
            Run(s, [PushStoreEven, PushAdvance])
            == s.(slots := s.slots[w.i := s.slots[w.i].(seqNo := w.s + 2)], writeIdx := s.writeIdx + 1,
                  count := Min(s.writeIdx + 1, CAP), writer := WIdle, hist := s.hist + [w.e])
  {
    TwoSteps(s, PushStoreEven, PushAdvance);
    hide Run;
  }

  lemma LoadsNext(s: State, r: nat)
    requires Sized(s) && r in s.readers && s.readers[r].RCopying? && s.readers[r].got <= JOINTS
    requires var c := s.readers[r];
             c.got > 0 ==> c.mono == s.slots[c.k].mono && c.q[..c.got - 1] == s.slots[c.k].q[..c.got - 1]
    ensures var c, c' := s.readers[r], LoadedField(s.slots[s.readers[r].k], s.readers[r]);
            && Step(s, LoadField(r)) == s.(readers := s.readers[r := c'])
            && c'.RCopying? && c'.n == c.n && c'.k == c.k && c'.s1 == c.s1 && c'.got == c.got + 1
            && c'.mono == s.slots[c.k].mono && c'.q[..c'.got - 1] == s.slots[c.k].q[..c'.got - 1]
  {
  }

  /** The loads of the stamp and the joints, one after the other, with no store in between. */
  lemma {:induction false} LoadFields(s: State, r: nat)
    requires Sized(s) && r in s.readers && s.readers[r].RCopying?
    requires var c := s.readers[r];
             c.got > 0 ==> c.mono == s.slots[c.k].mono && c.q[..c.got - 1] == s.slots[c.k].q[..c.got - 1]
    ensures var c := s.readers[r];
            Run(s, Repeated(LoadField(r), JOINTS + 1 - c.got))
            == s.(readers := s.readers[r := RCopying(c.n, c.k, c.s1, JOINTS + 1, s.slots[c.k].mono, s.slots[c.k].q)])
    decreases JOINTS + 1 - s.readers[r].got
  {
    var c := s.readers[r];
    if c.got == JOINTS + 1 {
      assert c.q == s.slots[c.k].q;
      assert s.readers[r := c] == s.readers;
    } else {
      var s' := Step(s, LoadField(r));
      LoadsNext(s, r);
      RunFirst(s, LoadField(r), JOINTS - c.got);
      hide Step, Repeated, Run;
      LoadFields(s', r);
      var full := RCopying(c.n, c.k, c.s1, JOINTS + 1, s.slots[c.k].mono, s.slots[c.k].q);
      assert s'.readers[r := full] == s.readers[r := full];
    }
  }

  /** One call of read_slot, as a reader's actions. */
  function ReadSchedule(r: nat, k: nat): seq<Action> {
    [LoadSeq(r, k)] + (Repeated(LoadField(r), JOINTS + 1) + [RecheckSeq(r)])
  }

  lemma OneStep(s: State, a: Action)
    requires Sized(s)
    ensures Run(s, [a]) == Step(s, a)
  {
    assert Run(s, [a]) == Run(Step(s, a), []);
  }

  /** Read with no push in between, a published slot that is not being written gives its entry. */
  lemma ReadCompletes(s: State, r: nat, k: nat)
    requires Sized(s) && r in s.readers && (s.readers[r].RCounted? || s.readers[r].RDone?)
    requires k < s.readers[r].n && k < CAP && s.slots[k].seqNo % 2 == 0
    ensures Run(s, ReadSchedule(r, k))
            == s.(readers := s.readers[r := RDone(s.readers[r].n, k, true, Entry(s.slots[k].mono, s.slots[k].q))])
  {
    var n, slot := s.readers[r].n, s.slots[k];
    var begun := s.(readers := s.readers[r := RCopying(n, k, slot.seqNo, 0, 0, ZERO)]);
    var loaded := s.(readers := s.readers[r := RCopying(n, k, slot.seqNo, JOINTS + 1, slot.mono, slot.q)]);
    ReadBegins(s, r, k);
    ReadsFields(s, begun, r);
    ReadEnds(loaded, r);
    hide Run, Step, Repeated, LoadedField;
    RunConcat(s, [LoadSeq(r, k)], Repeated(LoadField(r), JOINTS + 1) + [RecheckSeq(r)]);
    RunConcat(begun, Repeated(LoadField(r), JOINTS + 1), [RecheckSeq(r)]);
    var full := RDone(n, k, true, Entry(slot.mono, slot.q));
    assert loaded.readers[r := full] == s.readers[r := full];
  }

  lemma ReadBegins(s: State, r: nat, k: nat)
    requires Sized(s) && r in s.readers && (s.readers[r].RCounted? || s.readers[r].RDone?)
    requires k < s.readers[r].n && k < CAP && s.slots[k].seqNo % 2 == 0
    ensures Run(s, [LoadSeq(r, k)]) == s.(readers := s.readers[r := RCopying(s.readers[r].n, k, s.slots[k].seqNo, 0, 0, ZERO)])
  {
    OneStep(s, LoadSeq(r, k));
    hide Run;
  }

  lemma ReadsFields(s: State, begun: State, r: nat)
    requires Sized(begun) && r in begun.readers && begun.readers[r].RCopying? && begun.readers[r].got == 0
    requires begun == s.(readers := s.readers[r := begun.readers[r]])
    ensures var c := begun.readers[r];
            Run(begun, Repeated(LoadField(r), JOINTS + 1))
            == s.(readers := s.readers[r := RCopying(c.n, c.k, c.s1, JOINTS + 1, s.slots[c.k].mono, s.slots[c.k].q)])
  {
    LoadFields(begun, r);
    hide Run, Step;
    var c := begun.readers[r];
    var all := RCopying(c.n, c.k, c.s1, JOINTS + 1, s.slots[c.k].mono, s.slots[c.k].q);
    assert begun.readers[r := all] == s.readers[r := all];
  }

  lemma ReadAlone(s: State, k: nat)
    requires Sized(s) && s.readers == map[] && k < s.count && k < CAP && s.slots[k].seqNo % 2 == 0
    ensures Run(s.(readers := map[0 := RCounted(s.count)]), ReadSchedule(0, k))
            == s.(readers := map[0 := RDone(s.count, k, true, Entry(s.slots[k].mono, s.slots[k].q))])
  {
    var m := s.(readers := map[0 := RCounted(s.count)]);
    hide Run;
    ReadCompletes(m, 0, k);
    var full := RDone(s.count, k, true, Entry(s.slots[k].mono, s.slots[k].q));
    assert m.readers[0 := full] == map[0 := full];
  }

  lemma ReadEnds(s: State, r: nat)
    requires Sized(s) && r in s.readers && s.readers[r].RCopying? && s.readers[r].got == JOINTS + 1
    requires s.slots[s.readers[r].k].seqNo == s.readers[r].s1
    ensures var c := s.readers[r];
            Run(s, [RecheckSeq(r)]) == s.(readers := s.readers[r := RDone(c.n, c.k, true, Entry(c.mono, c.q))])
  {
    OneStep(s, RecheckSeq(r));
    hide Run;
  }

  lemma InitInv()
    ensures Inv(Init())
  {
    forall k | 0 <= k < CAP ensures SlotInv(Init(), k) {}
  }

  lemma {:induction false} RunKeepsInv(s: State, schedule: seq<Action>)
    requires Inv(s)
    ensures Inv(Run(s, schedule))
    decreases |schedule|
  {
    if schedule != [] {
      StepKeepsInv(s, schedule[0]);
      RunKeepsInv(Step(s, schedule[0]), schedule[1..]);
    }
  }

  /**
   No torn read: for every schedule of one writer and any number of readers, a pair
   that `read_slot` returns was pushed, whole, by one push that went to that slot.
   */
  lemma {:induction false} NoTornRead(schedule: seq<Action>, r: nat)
    ensures var s := Run(Init(), schedule);
            var c := ReaderOf(s, r);
            c.RDone? && c.ok ==> exists i :: 0 <= i < |s.hist| && i % CAP == c.k && s.hist[i] == c.e
  {
    InitInv();
    RunKeepsInv(Init(), schedule);
    var s := Run(Init(), schedule);
    if r in s.readers { assert ReaderInv(s, s.readers[r]); }
  }

  function Distance(mono: int, query: int): nat {
    if mono > query then mono - query else query - mono
  }

  /** The pushes the ring still holds: the last 256. */
  function Kept(hist: seq<Entry>): seq<Entry> {
    hist[|hist| - Min(|hist|, CAP)..]
  }

  /** Slots and kept pushes correspond one to one. */
  lemma SlotsAreKept(n: nat)
    ensures forall k :: 0 <= k < Min(n, CAP) ==> Laps(n, k) > 0 && n - Min(n, CAP) <= Latest(n, k) < n
    ensures forall i :: n - Min(n, CAP) <= i < n ==>
              i % CAP < Min(n, CAP) && Laps(n, i % CAP) > 0 && Latest(n, i % CAP) == i
  {
    forall k | 0 <= k < Min(n, CAP)
      ensures Laps(n, k) > 0 && n - Min(n, CAP) <= Latest(n, k) < n
    {
      LapsNext(n, k);
    }
  }

  /** Entry `e` is at least as near the query as every kept push. */
  ghost predicate IsNearest(e: Entry, hist: seq<Entry>, query: int) {
    e in Kept(hist) && forall o :: o in Kept(hist) ==> Distance(e.mono, query) <= Distance(o.mono, query)
  }

  ghost predicate Synced(slots: seq<Slot>, hist: seq<Entry>)
    requires |slots| == CAP
  {
    forall k :: 0 <= k < CAP ==> slots[k].seqNo == 2 * Laps(|hist|, k) && Holds(slots[k], hist, k)
  }

  lemma PushedSlots(before: seq<Slot>, after: seq<Slot>, hist: seq<Entry>, e: Entry)
    requires |before| == CAP && Synced(before, hist)
    requires var i := |hist| % CAP; after == before[i := Slot(before[i].seqNo + 2, e.mono, e.q)]
    ensures |after| == CAP && Synced(after, hist + [e])
  {
    forall k | 0 <= k < CAP
      ensures after[k].seqNo == 2 * Laps(|hist| + 1, k) && Holds(after[k], hist + [e], k)
    {
      LapsNext(|hist|, k);
    }
  }

  /** The ring in place, with no push in progress between calls. */
  class Ring {
    const slots: array<Slot>
    var writeIdx: nat
    var count: nat
    ghost var history: seq<Entry>

    /** The state of the machine with the writer between pushes and nobody reading. */
    ghost function Model(): State
      reads this, slots
    {
      State(slots[..], writeIdx, count, WIdle, map[], history)
    }

    ghost predicate Valid()
      reads this, slots
    {
      && slots.Length == CAP
      && |history| == writeIdx
      && count == Min(writeIdx, CAP)
      && Synced(slots[..], history)
    }

    constructor ()
      ensures Valid() && Model() == Init() && fresh(slots)
    {
      slots := new Slot[CAP](_ => Slot(0, 0, ZERO));
      writeIdx, count, history := 0, 0, [];
    }

    method Push(mono: int, q: Vec6)
      requires Valid()
      modifies this, slots
      ensures Valid() && history == old(history) + [Entry(mono, q)]
      ensures Sized(old(Model())) && Model() == Run(old(Model()), PushSchedule(Entry(mono, q)))
    {
      PushCompletes(Model(), Entry(mono, q));
      hide Run, Step, PushSchedule;
      MaskIsRemainder(writeIdx);
      var i := Mask(writeIdx);
      var s := slots[i].seqNo;
      slots[i] := slots[i].(seqNo := s + 1);
      slots[i] := slots[i].(mono := mono);
      slots[i] := slots[i].(q := q);
      slots[i] := slots[i].(seqNo := s + 2);
      PushedSlots(old(slots[..]), slots[..], history, Entry(mono, q));
      history := history + [Entry(mono, q)];
      writeIdx := writeIdx + 1;
      count := if writeIdx < CAP then writeIdx else CAP;
    }

    method ReadSlot(k: nat) returns (ok: bool, mono: int, q: Vec6)
      requires Valid() && k < CAP
      ensures ok && mono == slots[k].mono && q == slots[k].q
      ensures Sized(Model())
      ensures k < count ==>
                Run(Model().(readers := map[0 := RCounted(count)]), ReadSchedule(0, k))
                == Model().(readers := map[0 := RDone(count, k, ok, Entry(mono, q))])
    {
      if k < count {
        ReadAlone(Model(), k);
      }
      hide Run, ReadSchedule;
      MaskIsRemainder(k);
      var slot := slots[Mask(k)];
      var s1 := slot.seqNo;
      if s1 % 2 == 1 {
        return false, 0, ZERO;
      }
      mono, q := slot.mono, slot.q;
      ok := slots[Mask(k)].seqNo == s1;
    }

    /** The scan refines a search of the list of kept pushes. */
    method Nearest(query: int) returns (found: bool, out: Vec6)
      requires Valid()
      ensures found <==> exists e :: e in Kept(history) && Distance(e.mono, query) < INT64_MAX
      ensures found ==> exists e :: IsNearest(e, history, query) && out == e.q
    {
      hide Run, ReadSchedule;
      var n := count;
      var bestDt := INT64_MAX;
      out, found := ZERO, false;
      ghost var at := 0;
      for k := 0 to n
        invariant found ==> at < k && bestDt == Distance(slots[at].mono, query) < INT64_MAX && out == slots[at].q
        invariant !found ==> bestDt == INT64_MAX
        invariant forall j :: 0 <= j < k ==> bestDt <= Distance(slots[j].mono, query)
      {
        var ok, mono, q := ReadSlot(k);
        if ok {
          var dt := Distance(mono, query);
          if dt < bestDt {
            bestDt, out, found := dt, q, true;
            at := k;
          }
        }
      }
      SlotsAreKept(writeIdx);
      EveryKeptIsFar(query, bestDt);
      if found {
        var i := Latest(writeIdx, at);
        assert Kept(history)[i - (writeIdx - n)] == history[i];
        assert IsNearest(history[i], history, query);
      }
    }

    lemma EveryKeptIsFar(query: int, dt: nat)
      requires Valid()
      requires forall j :: 0 <= j < count ==> dt <= Distance(slots[j].mono, query)
      ensures forall e :: e in Kept(history) ==> dt <= Distance(e.mono, query)
    {
      SlotsAreKept(writeIdx);
      forall e | e in Kept(history) ensures dt <= Distance(e.mono, query) {
        var j :| 0 <= j < count && Kept(history)[j] == e;
        var i := writeIdx - count + j;
        assert history[i] == e && Holds(slots[i % CAP], history, i % CAP);
      }
    }
  }
}
