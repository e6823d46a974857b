/**
 The single-producer/single-consumer ring (src/cpp/rt_core/rings.hpp).

 `Step` runs one atomic load or store of one of the two threads; a schedule is any
 list of such actions, and an action whose thread is elsewhere does nothing, so the
 lemmas about `Run` hold for every interleaving. `pushed` and `popped` are the
 histories of the calls that returned true. Memory is sequentially consistent.
 */
module SpscRing {
  import opened Bits

  datatype Producer<T> =
    | PIdle
    | PHasTail(v: T, tail: nat)               // tail_ is loaded
    | PNotFull(v: T, tail: nat, next: nat)    // head_ is loaded and is not next
    | PWritten(v: T, tail: nat, next: nat)    // buf_[tail] holds v

  datatype Consumer<T> =
    | CIdle
    | CHasHead(head: nat)                     // head_ is loaded
    | CNotEmpty(head: nat)                    // tail_ is loaded and is not head
    | CRead(head: nat, out: T)                // buf_[head] is copied out

  datatype Action<T> =
    | PushLoadTail(v: T) | PushLoadHead | PushWrite | PushStoreTail
    | PopLoadHead | PopLoadTail | PopReadSlot | PopStoreHead

  /** `k` is the base-two logarithm of the capacity. */
  datatype State<T> = State(k: nat, buf: seq<T>, head: nat, tail: nat,
                            prod: Producer<T>, cons: Consumer<T>,
                            pushed: seq<T>, popped: seq<T>)

  function Cap(k: nat): nat { Pow2(k) }

  function Wrap(i: nat, k: nat): nat { And(i, Pow2(k) - 1) }

  /** The queue that a pair of indices stands for. */
  function Items<T>(buf: seq<T>, head: nat, tail: nat): (items: seq<T>)
    requires head < |buf| && tail < |buf|
  {
    if head <= tail then buf[head..tail] else buf[head..] + buf[..tail]
  }

  ghost predicate Inv<T>(s: State<T>) {
    var cap, c, p := Cap(s.k), |s.popped|, |s.pushed|;
    && |s.buf| == cap
    && c <= p < c + cap
    && s.popped == s.pushed[..c]
    && s.head == c % cap && s.tail == p % cap
    && (forall i | c <= i < p :: s.buf[i % cap] == s.pushed[i])
    && ProducerInv(s)
    && ConsumerInv(s)
  }

  ghost predicate ProducerInv<T>(s: State<T>)
    requires |s.buf| == Cap(s.k) && s.tail < |s.buf|
  {
    match s.prod
    case PIdle => true
    case PHasTail(_, tail) => tail == s.tail
    case PNotFull(_, tail, next) =>
      tail == s.tail && next == (tail + 1) % Cap(s.k) && |s.pushed| + 1 < |s.popped| + Cap(s.k)
    case PWritten(v, tail, next) =>
      && tail == s.tail && next == (tail + 1) % Cap(s.k) && |s.pushed| + 1 < |s.popped| + Cap(s.k)
      && s.buf[tail] == v
  }

  ghost predicate ConsumerInv<T>(s: State<T>) {
    match s.cons
    case CIdle => true
    case CHasHead(head) => head == s.head
    case CNotEmpty(head) => head == s.head && |s.popped| < |s.pushed|
    case CRead(head, out) => head == s.head && |s.popped| < |s.pushed| && out == s.pushed[|s.popped|]
  }

  function Init<T>(k: nat, fill: T): (s: State<T>) {
    State(k, seq(Cap(k), _ => fill), 0, 0, PIdle, CIdle, [], [])
  }

  /** One atomic action; the index bounds of both slot accesses follow from `Inv`. */
  function Step<T>(s: State<T>, a: Action<T>): (s': State<T>)
    requires Inv(s)
  {
    match a
    case PushLoadTail(v) =>
      if s.prod.PIdle? then s.(prod := PHasTail(v, s.tail)) else s
    case PushLoadHead =>
      if s.prod.PHasTail? then
        var next := Wrap(s.prod.tail + 1, s.k);
        if next == s.head then s.(prod := PIdle)
        else s.(prod := PNotFull(s.prod.v, s.prod.tail, next))
      else s
    case PushWrite =>
      if s.prod.PNotFull? then
        s.(buf := s.buf[s.prod.tail := s.prod.v], prod := PWritten(s.prod.v, s.prod.tail, s.prod.next))
      else s
    case PushStoreTail =>
      if s.prod.PWritten? then
        s.(tail := s.prod.next, prod := PIdle, pushed := s.pushed + [s.prod.v])
      else s
    case PopLoadHead =>
      if s.cons.CIdle? then s.(cons := CHasHead(s.head)) else s
    case PopLoadTail =>
      if s.cons.CHasHead? then
        if s.cons.head == s.tail then s.(cons := CIdle) else s.(cons := CNotEmpty(s.cons.head))
      else s
    case PopReadSlot =>
      if s.cons.CNotEmpty? then s.(cons := CRead(s.cons.head, s.buf[s.cons.head])) else s
    case PopStoreHead =>
      if s.cons.CRead? then
        s.(head := Wrap(s.cons.head + 1, s.k), cons := CIdle, popped := s.popped + [s.cons.out])
      else s
  }

  /** `next == head` in push means exactly that `cap - 1` items are held. */
  lemma FullTest(c: nat, p: nat, cap: nat)
    requires cap > 0 && c <= p < c + cap
    ensures (p % cap + 1) % cap == c % cap <==> p + 1 == c + cap
  {
    ModNext(p, cap);
    if p + 1 == c + cap {
      Regroup(p + 1, cap, 1, c);
    } else {
      ModDistinct(c, p + 1, cap);
    }
  }

  /** `head == tail` in pop means exactly that nothing is held. */
  lemma EmptyTest(c: nat, p: nat, cap: nat)
    requires cap > 0 && c <= p < c + cap
    ensures c % cap == p % cap <==> c == p
  {
    if c < p { ModDistinct(c, p, cap); }
  }

  lemma LoadHeadKeepsInv<T>(s: State<T>)
    requires Inv(s)
    ensures Inv(Step(s, PushLoadHead))
  {
    MaskIsMod(s.tail + 1, s.k);
    FullTest(|s.popped|, |s.pushed|, Cap(s.k));
  }

  lemma StoreTailKeepsInv<T>(s: State<T>)
    requires Inv(s)
    ensures Inv(Step(s, PushStoreTail))
  {
    ModNext(|s.pushed|, Cap(s.k));
  }

  lemma LoadTailKeepsInv<T>(s: State<T>)
    requires Inv(s)
    ensures Inv(Step(s, PopLoadTail))
  {
    EmptyTest(|s.popped|, |s.pushed|, Cap(s.k));
  }

  lemma StoreHeadKeepsInv<T>(s: State<T>)
    requires Inv(s)
    ensures Inv(Step(s, PopStoreHead))
  {
    MaskIsMod(s.head + 1, s.k);
    ModNext(|s.popped|, Cap(s.k));
  }

  lemma OtherStepsKeepInv<T>(s: State<T>, a: Action<T>)
    requires Inv(s) && (a.PushLoadTail? || a.PopLoadHead? || a.PopReadSlot?)
    ensures Inv(Step(s, a))
  {
    hide And, Pow2;
  }

  lemma StepKeepsInv<T>(s: State<T>, a: Action<T>)
    requires Inv(s)
    ensures Inv(Step(s, a))
  {
    hide Inv, Step;
    match a {
      case PushLoadHead => LoadHeadKeepsInv(s);
      case PushWrite => WriteKeepsInv(s);
      case PushStoreTail => StoreTailKeepsInv(s);
      case PopLoadTail => LoadTailKeepsInv(s);
      case PopStoreHead => StoreHeadKeepsInv(s);
      case _ => OtherStepsKeepInv(s, a);
    }
  }

  lemma WriteKeepsInv<T>(s: State<T>)
    requires Inv(s)
    ensures Inv(Step(s, PushWrite))
  {
    var cap, c, p := Cap(s.k), |s.popped|, |s.pushed|;
    forall i | c <= i < p ensures i % cap != p % cap { ModDistinct(i, p, cap); }
  }

  function Run<T>(s: State<T>, schedule: seq<Action<T>>): (s': State<T>)
    requires Inv(s)
    ensures Inv(s')
    decreases |schedule|
  {
    if schedule == [] then s
    else
      StepKeepsInv(s, schedule[0]);
      Run(Step(s, schedule[0]), schedule[1..])
  }

  /** The producer is about to write a slot that the consumer is about to read. */
  ghost predicate SlotRace<T>(s: State<T>) {
    s.prod.PNotFull? && s.cons.CNotEmpty? && s.prod.tail == s.cons.head
  }

  /**
   For every schedule: the successful pops are a prefix of the successful pushes, in
   order; the ring holds the rest, at most `cap - 1` items; and no slot is written
   while it is read.
   */
  lemma {:induction false} Linearizable<T>(k: nat, fill: T, schedule: seq<Action<T>>)
    ensures Inv(Init(k, fill))
    ensures var s := Run(Init(k, fill), schedule);
            && s.popped <= s.pushed
            && |s.pushed| - |s.popped| <= Cap(k) - 1
            && s.head < |s.buf| && s.tail < |s.buf|
            && Items(s.buf, s.head, s.tail) == s.pushed[|s.popped|..]
            && !SlotRace(s)
  {
    var s := Run(Init(k, fill), schedule);
    RunKeepsCapacity(Init(k, fill), schedule);
    ItemsAreUnpopped(s);
    ModNext(|s.pushed|, Cap(k));
    if SlotRace(s) { ModDistinct(|s.popped|, |s.pushed|, Cap(k)); }
  }

  lemma {:induction false} RunKeepsCapacity<T>(s: State<T>, schedule: seq<Action<T>>)
    requires Inv(s)
    ensures Run(s, schedule).k == s.k
    decreases |schedule|
  {
    if schedule != [] {
      StepKeepsInv(s, schedule[0]);
      RunKeepsCapacity(Step(s, schedule[0]), schedule[1..]);
    }
  }

  lemma {:induction false} ItemsAreUnpopped<T>(s: State<T>)
    requires Inv(s)
    ensures Items(s.buf, s.head, s.tail) == s.pushed[|s.popped|..]
  {
    var cap, c, p := Cap(s.k), |s.popped|, |s.pushed|;
    var items := Items(s.buf, s.head, s.tail);
    ItemsLength(c, p, cap);
    forall j | 0 <= j < p - c
      ensures items[j] == s.pushed[c + j]
    {
      var i := c + j;
      SlotOf(c, j, cap);
      assert s.buf[i % cap] == s.pushed[i];
    }
  }

  lemma ItemsLength(c: nat, p: nat, cap: nat)
    requires cap > 0 && c <= p < c + cap
    ensures (if c % cap <= p % cap then p % cap - c % cap else cap - c % cap + p % cap) == p - c
  {
    SlotOf(c, p - c, cap);
  }

  lemma SlotOf(c: nat, j: nat, cap: nat)
    requires cap > 0 && j < cap
    ensures (c + j) % cap == if c % cap + j < cap then c % cap + j else c % cap + j - cap
  {
    var q, r := c / cap, c % cap;
    if r + j < cap {
      ModUnique(c + j, cap, q, r + j);
    } else {
      assert cap * (q + 1) == cap * q + cap;
      ModUnique(c + j, cap, q + 1, r + j - cap);
    }
  }

  /** A call reports full or empty exactly when the queue is so at its second load. */
  lemma {:induction false} RefusalsAreExact<T>(s: State<T>)
    requires Inv(s)
    ensures s.prod.PHasTail? ==>
              (Step(s, PushLoadHead).prod.PIdle? <==> |s.pushed| - |s.popped| == Cap(s.k) - 1)
    ensures s.cons.CHasHead? ==>
              (Step(s, PopLoadTail).cons.CIdle? <==> s.pushed == s.popped)
  {
    MaskIsMod(s.tail + 1, s.k);
    FullTest(|s.popped|, |s.pushed|, Cap(s.k));
    EmptyTest(|s.popped|, |s.pushed|, Cap(s.k));
  }

  lemma FourSteps<T>(s: State<T>, a: Action<T>, b: Action<T>, c: Action<T>, d: Action<T>) returns (s1: State<T>, s2: State<T>, s3: State<T>)
    requires Inv(s)
    ensures s1 == Step(s, a) && Inv(s1) && s2 == Step(s1, b) && Inv(s2) && s3 == Step(s2, c) && Inv(s3)
    ensures Run(s, [a, b, c, d]) == Step(s3, d)
  {
    StepKeepsInv(s, a);
    s1 := Step(s, a);
    StepKeepsInv(s1, b);
    s2 := Step(s1, b);
    StepKeepsInv(s2, c);
    s3 := Step(s2, c);
    StepKeepsInv(s3, d);
    hide Step, Inv;
    assert [a, b, c, d][1..] == [b, c, d] && [b, c, d][1..] == [c, d] && [c, d][1..] == [d] && [d][1..] == [];
    assert Run(Step(s3, d), []) == Step(s3, d);
    assert Run(s3, [d]) == Run(Step(s3, d), []);
    assert Run(s2, [c, d]) == Run(s3, [d]);
    assert Run(s1, [b, c, d]) == Run(s2, [c, d]);
  }

  /** Four steps of its own complete a push, wherever the consumer stands: it appends, or refuses when the queue is full. */
  lemma PushCompletes<T>(s: State<T>, v: T)
    requires Inv(s) && s.prod.PIdle?
    ensures var s' := Run(s, [PushLoadTail(v), PushLoadHead, PushWrite, PushStoreTail]);
            && s'.prod.PIdle? && s'.cons == s.cons && s'.popped == s.popped
            && s'.pushed == if |s.pushed| - |s.popped| == Cap(s.k) - 1 then s.pushed else s.pushed + [v]
  {
    var s1, s2, s3 := FourSteps(s, PushLoadTail(v), PushLoadHead, PushWrite, PushStoreTail);
    RefusalsAreExact(s1);
    hide Inv, Cap, Wrap;
  }

  /** And four steps a pop, wherever the producer stands: it takes the oldest, or refuses when the queue is empty. */
  lemma PopCompletes<T>(s: State<T>)
    requires Inv(s) && s.cons.CIdle?
    ensures var s' := Run(s, [PopLoadHead, PopLoadTail, PopReadSlot, PopStoreHead]);
            && s'.cons.CIdle? && s'.prod == s.prod && s'.pushed == s.pushed
            && s'.popped == if s.pushed == s.popped then s.popped else s.pushed[..|s.popped| + 1]
  {
    var s1, s2, s3 := FourSteps(s, PopLoadHead, PopLoadTail, PopReadSlot, PopStoreHead);
    RefusalsAreExact(s1);
    var s' := Step(s3, PopStoreHead);
    StepKeepsInv(s3, PopStoreHead);
    assert s'.popped == s'.pushed[..|s'.popped|];
    hide Inv, Cap, Wrap;
  }

  /** The ring in place: the two calls and the two queries as the source writes them. */
  class Ring<T(0)> {
    const k: nat
    const buf: array<T>
    var head: nat
    var tail: nat

    ghost predicate Valid()
      reads this
    {
      buf.Length == Cap(k) && head < buf.Length && tail < buf.Length
    }

    ghost function Contents(): seq<T>
      requires Valid()
      reads this, buf
    {
      Items(buf[..], head, tail)
    }

    constructor (k: nat)
      ensures Valid() && Contents() == [] && this.k == k && fresh(buf)
    {
      this.k := k;
      buf := new T[Pow2(k)];
      head, tail := 0, 0;
    }

    method Push(v: T) returns (ok: bool)
      requires Valid()
      modifies this`tail, buf
      ensures Valid()
      ensures ok == (|old(Contents())| < Cap(k) - 1)
      ensures Contents() == if ok then old(Contents()) + [v] else old(Contents())
    {
      MaskIsMod(tail + 1, k);
      var next := Wrap(tail + 1, k);
      NextIndex(tail, Cap(k));
      if next == head {
        return false;
      }
      ghost var before := buf[..];
      buf[tail] := v;
      assert buf[..] == before[tail := v];
      tail := next;
      return true;
    }

    method Pop() returns (ok: bool, out: T)
      requires Valid()
      modifies this`head
      ensures Valid()
      ensures ok == (old(Contents()) != [])
      ensures if ok then [out] + Contents() == old(Contents()) else Contents() == []
    {
      out := buf[head];
      if head == tail {
        return false, out;
      }
      MaskIsMod(head + 1, k);
      NextIndex(head, Cap(k));
      head := Wrap(head + 1, k);
      return true, out;
    }

    /** Size as the source computes it: a 64-bit unsigned difference, masked. */
    method Size() returns (n: nat)
      requires Valid() && k <= 64
      ensures n == |Contents()|
    {
      n := Wrap((tail - head) % Pow2(64), k);
      MaskIsMod((tail - head) % Pow2(64), k);
      MaskedDifference(tail, head, k);
      hide And;
    }
  }

  lemma NextIndex(i: nat, cap: nat)
    requires i < cap
    ensures (i + 1) % cap == if i + 1 == cap then 0 else i + 1
  {
    if i + 1 == cap { ModUnique(cap, cap, 1, 0); } else { ModUnique(i + 1, cap, 0, i + 1); }
  }

  /** The unsigned wrap-around of `tail - head` is harmless, as the capacity divides 2^64. */
  lemma {:induction false} MaskedDifference(tail: nat, head: nat, k: nat)
    requires tail < Pow2(k) && head < Pow2(k) && k <= 64
    ensures (tail - head) % Pow2(64) % Pow2(k) == if head <= tail then tail - head else Pow2(k) - head + tail
  {
    Pow2Split(k, 64 - k);
    DifferenceModulo(tail, head, Pow2(k), Pow2(64 - k), Pow2(64));
  }

  lemma DifferenceModulo(tail: nat, head: nat, m: nat, c: nat, n: int)
    requires tail < m && head < m && c > 0 && n == m * c
    ensures n > 0 && (tail - head) % n % m == if head <= tail then tail - head else m - head + tail
  {
    var below := m * (c - 1);
    assert n == below + m;
    WrapOnce(tail - head, n);
    if head <= tail {
      ModUnique(tail - head, m, 0, tail - head);
    } else {
      Regroup(n + tail - head, m, c - 1, m - head + tail);
      ModUnique(m - head + tail, m, 0, m - head + tail);
    }
  }

  lemma WrapOnce(d: int, m: int)
    requires m > 0 && -m <= d < m
    ensures d % m == if d < 0 then d + m else d
  {
    var q, r := d / m, d % m;
    assert d == m * q + r;
    Multiples(m, q);
    Multiples(m, q + 1);
  }
}
