/**
 Anti-stacking of the gripper dispatcher over bring-ups, retries and processes
 (src/airo_fanuc/supervisor.py, src/airo_fanuc/rmi_client.py). The controller side
 follows src/airo_fanuc/testing/fake_crx_rmi.py, except that nothing but the operator
 ends a forked dispatcher, as the supervisor's comments and the client's documentation say.

 What the network and the controller do is given as data: one `Attempt` for each run of
 the bring-up ladder, one `Send` for each send of a call, one `Poll` for each register read.
 */
module BringUp {
  /** A send returns or raises, and the call launches or not: the controller drops a stale call in silence. */
  datatype Send = Delivered | Lost | DeliveredButRaised | Ignored

  /** A read of the trigger register fails, or finds that a dispatcher, if there is one, has or has not run. */
  datatype Poll = Broken | Polled(dispatcherRan: bool)

  datatype Probe = Probe(writesOk: bool, polls: seq<Poll>)

  /** Connect, preflight, initialize and reset; a preflight block is not retried. */
  datatype Prelude = Proceeds | Fails | Blocks

  datatype Attempt = Attempt(prelude: Prelude, probe: Probe, first: Send, second: Send, flushOk: bool, streamsOk: bool)

  datatype Verdict = Up | Retry | Blocked

  /** `forks`: dispatchers running on the controller. `launches`: launcher calls that returned. */
  datatype Outcome = Outcome(forks: nat, latched: bool, launches: nat, verdict: Verdict)

  // ---- what the ladder does ----------------------------------------------------

  /** The trigger clears only when a dispatcher runs; the first broken read ends the probe. */
  function Answered(forks: nat, polls: seq<Poll>): bool {
    polls != [] && polls[0].Polled? && ((forks > 0 && polls[0].dispatcherRan) || Answered(forks, polls[1..]))
  }

  function Alive(forks: nat, probe: Probe): bool { probe.writesOk && Answered(forks, probe.polls) }

  predicate Returns(s: Send) { s.Delivered? || s.Ignored? }

  function Launches(s: Send): nat { if s.Delivered? || s.DeliveredButRaised? then 1 else 0 }

  /** program_call: one retry after a transport error; how many launches, and whether it returns. */
  function Call(first: Send, second: Send): (nat, bool) {
    if Returns(first) then (Launches(first), true) else (Launches(first) + Launches(second), Returns(second))
  }

  function Once(forks: nat, latched: bool, gripper: bool, a: Attempt): Outcome {
    if a.prelude.Fails? then Outcome(forks, latched, 0, Retry)
    else if a.prelude.Blocks? then Outcome(forks, latched, 0, Blocked)
    else
      var verdict := if a.streamsOk then Up else Retry;
      if !gripper || latched then Outcome(forks, latched, 0, verdict)
      else if Alive(forks, a.probe) then Outcome(forks, true, 0, verdict)
      else
        var (more, returned) := Call(a.first, a.second);
        if !returned then Outcome(forks + more, false, 0, Retry)
        else Outcome(forks + more, true, 1, if a.flushOk then verdict else Retry)
  }

  /** bringup: attempts until one is up or blocked; `attempts` has one entry for each retry allowed. */
  function Attempts(forks: nat, latched: bool, gripper: bool, attempts: seq<Attempt>): Outcome
    decreases |attempts|
  {
    if attempts == [] then Outcome(forks, latched, 0, Retry)
    else
      var o := Once(forks, latched, gripper, attempts[0]);
      if !o.verdict.Retry? then o
      else
        var rest := Attempts(o.forks, o.latched, gripper, attempts[1..]);
        rest.(launches := o.launches + rest.launches)
  }

  /** What happens to the controller over its life: bring-ups of any processes, and the operator's ABORT ALL. */
  datatype Event = BringUpCall(gripper: bool, attempts: seq<Attempt>) | OperatorAbortAll

  function After(forks: nat, history: seq<Event>): nat
    decreases |history|
  {
    if history == [] then forks
    else
      var before := After(forks, history[..|history| - 1]);
      match history[|history| - 1]
      case OperatorAbortAll => 0
      case BringUpCall(gripper, attempts) => Attempts(before, false, gripper, attempts).forks
  }

  // ---- what runs, and what stacks ----------------------------------------------

  /** The state before attempt `i`, if the attempts before it all ended in a retry. */
  function Before(forks: nat, latched: bool, gripper: bool, attempts: seq<Attempt>, i: nat): Outcome
    requires i <= |attempts|
    decreases i
  {
    if i == 0 then Outcome(forks, latched, 0, Retry)
    else
      var o := Once(forks, latched, gripper, attempts[0]);
      if !o.verdict.Retry? then o else Before(o.forks, o.latched, gripper, attempts[1..], i - 1)
  }

  /** Attempt `i` is made. */
  predicate Ran(forks: nat, latched: bool, gripper: bool, attempts: seq<Attempt>, i: nat) {
    i < |attempts| && Before(forks, latched, gripper, attempts, i).verdict.Retry?
  }

  /** The attempt gets as far as the probe. */
  predicate Probes(latched: bool, gripper: bool, a: Attempt) { a.prelude.Proceeds? && gripper && !latched }

  /** The attempt gets as far as the launcher call. */
  predicate Calls(forks: nat, latched: bool, gripper: bool, a: Attempt) {
    Probes(latched, gripper, a) && !Alive(forks, a.probe)
  }

  /** The call launches beside a live dispatcher, or launches twice by itself. */
  predicate StacksOnce(forks: nat, latched: bool, gripper: bool, a: Attempt) {
    Calls(forks, latched, gripper, a) && Call(a.first, a.second).0 >= if forks > 0 then 1 else 2
  }

  predicate StacksAt(forks: nat, latched: bool, gripper: bool, attempts: seq<Attempt>, i: nat) {
    && Ran(forks, latched, gripper, attempts, i)
    && var s := Before(forks, latched, gripper, attempts, i);
       StacksOnce(s.forks, s.latched, gripper, attempts[i])
  }

  predicate Stacks(forks: nat, latched: bool, gripper: bool, attempts: seq<Attempt>) {
    exists i :: 0 <= i < |attempts| && StacksAt(forks, latched, gripper, attempts, i)
  }

  /** Whatever is there, up to one. */
  function AtLeastOne(forks: nat): nat { if forks == 0 then 1 else forks }

  lemma {:induction false} NothingAnswersWithoutFork(polls: seq<Poll>)
    ensures !Answered(0, polls)
  {
    if polls != [] { NothingAnswersWithoutFork(polls[1..]); }
  }

  lemma OnceStacksIff(forks: nat, latched: bool, gripper: bool, a: Attempt)
    ensures var o := Once(forks, latched, gripper, a);
            forks <= o.forks && (o.forks > AtLeastOne(forks) <==> StacksOnce(forks, latched, gripper, a))
  {
    NothingAnswersWithoutFork(a.probe.polls);
  }

  lemma {:induction false} StacksUnfold(forks: nat, latched: bool, gripper: bool, attempts: seq<Attempt>)
    requires attempts != []
    ensures var o := Once(forks, latched, gripper, attempts[0]);
            Stacks(forks, latched, gripper, attempts) <==>
            || StacksOnce(forks, latched, gripper, attempts[0])
            || (o.verdict.Retry? && Stacks(o.forks, o.latched, gripper, attempts[1..]))
  {
    var o, rest := Once(forks, latched, gripper, attempts[0]), attempts[1..];
    hide Once, StacksOnce;
    forall i | 0 < i < |attempts|
      ensures StacksAt(forks, latched, gripper, attempts, i) <==> o.verdict.Retry? && StacksAt(o.forks, o.latched, gripper, rest, i - 1)
    {
      assert attempts[i] == rest[i - 1];
    }
    assert StacksAt(forks, latched, gripper, attempts, 0) <==> StacksOnce(forks, latched, gripper, attempts[0]);
    if i :| 0 <= i < |rest| && StacksAt(o.forks, o.latched, gripper, rest, i) {
      assert o.verdict.Retry? ==> StacksAt(forks, latched, gripper, attempts, i + 1);
    }
    if i :| 0 <= i < |attempts| && StacksAt(forks, latched, gripper, attempts, i) {
      assert i > 0 ==> StacksAt(o.forks, o.latched, gripper, rest, i - 1);
    }
  }

  /**
   For any failures of any step: a bring-up ends with more dispatchers than it found, not counting
   a first one, if and only if some attempt that was made launched beside a live dispatcher its
   probe did not see, or launched with both sends of one call.
   */
  lemma {:induction false} BringUpStacksIff(forks: nat, latched: bool, gripper: bool, attempts: seq<Attempt>)
    ensures var o := Attempts(forks, latched, gripper, attempts);
            && forks <= o.forks
            && (o.forks > AtLeastOne(forks) <==> Stacks(forks, latched, gripper, attempts))
    decreases |attempts|
  {
    if attempts != [] {
      var o := Once(forks, latched, gripper, attempts[0]);
      OnceStacksIff(forks, latched, gripper, attempts[0]);
      StacksUnfold(forks, latched, gripper, attempts);
      hide Once, StacksOnce, Stacks;
      BringUpStacksIff(o.forks, o.latched, gripper, attempts[1..]);
    }
  }

  /** Bring-up `k` of the history stacks, on what the history before it left. */
  predicate StacksIn(forks: nat, history: seq<Event>, k: nat)
    requires k < |history|
  {
    history[k].BringUpCall? && Stacks(After(forks, history[..k]), false, history[k].gripper, history[k].attempts)
  }

  lemma StepOfHistory(forks: nat, history: seq<Event>, k: nat)
    requires k < |history|
    ensures var before, after := After(forks, history[..k]), After(forks, history[..k + 1]);
            && (StacksIn(forks, history, k) ==> after > AtLeastOne(before))
            && (!StacksIn(forks, history, k) ==> after <= AtLeastOne(before))
  {
    assert history[..k + 1][..k] == history[..k] && history[..k + 1][k] == history[k];
    hide Stacks;
    if history[k].BringUpCall? {
      BringUpStacksIff(After(forks, history[..k]), false, history[k].gripper, history[k].attempts);
    }
  }

  lemma {:induction false} NeverStacked(forks: nat, history: seq<Event>, k: nat)
    requires forks <= 1 && k <= |history|
    requires forall j :: 0 <= j < k ==> !StacksIn(forks, history, j)
    ensures After(forks, history[..k]) <= 1
  {
    hide StacksIn;
    if k == 0 {
      assert history[..0] == [];
    } else {
      NeverStacked(forks, history, k - 1);
      StepOfHistory(forks, history, k - 1);
    }
  }

  /**
   For any history of processes, bring-ups, retries, failures and operator stops: the controller at
   some point holds two dispatchers if and only if some bring-up stacks.
   */
  lemma HistoryStacksIff(forks: nat, history: seq<Event>)
    requires forks <= 1
    ensures (exists k :: 0 <= k <= |history| && After(forks, history[..k]) > 1) <==>
            exists k :: 0 <= k < |history| && StacksIn(forks, history, k)
  {
    if k :| 0 <= k < |history| && StacksIn(forks, history, k) {
      StepOfHistory(forks, history, k);
      assert After(forks, history[..k + 1]) > 1;
    } else {
      forall k | 0 <= k <= |history| ensures After(forks, history[..k]) <= 1 { NeverStacked(forks, history, k); }
    }
  }

  /** After an ABORT ALL nothing is left of what ran, whatever it was; a bring-up goes on from what the history left. */
  lemma AbortAllClears(forks: nat, history: seq<Event>, gripper: bool, attempts: seq<Attempt>)
    ensures After(forks, history + [OperatorAbortAll]) == 0
    ensures After(forks, history + [BringUpCall(gripper, attempts)]) == Attempts(After(forks, history), false, gripper, attempts).forks
    ensures After(forks, []) == forks
  {
    assert (history + [OperatorAbortAll])[..|history|] == history;
    assert (history + [BringUpCall(gripper, attempts)])[..|history|] == history;
  }

  // ---- the guarantees ----------------------------------------------------------

  /** A live dispatcher answers: the writes go through and it runs before any read breaks. */
  predicate Answers(p: Probe) { p.writesOk && Answered(1, p.polls) }

  /** A send of the call that raises has launched nothing. */
  predicate FailsClean(a: Attempt) {
    !a.first.DeliveredButRaised? && (a.first.Lost? ==> !a.second.DeliveredButRaised?)
  }

  /** The call returns without having launched anything: what it sent last was dropped as stale. */
  predicate ReturnsIdle(a: Attempt) { Call(a.first, a.second) == (0, true) }

  lemma {:induction false} AnyForkAnswers(forks: nat, polls: seq<Poll>)
    requires forks > 0
    ensures Answered(forks, polls) == Answered(1, polls)
  {
    if polls != [] { AnyForkAnswers(forks, polls[1..]); }
  }

  /** Every probe of the bring-up that is made beside a live dispatcher is answered. */
  predicate LiveProbesAnswer(forks: nat, latched: bool, gripper: bool, attempts: seq<Attempt>) {
    forall i :: 0 <= i < |attempts| && Ran(forks, latched, gripper, attempts, i) ==>
      var s := Before(forks, latched, gripper, attempts, i);
      Probes(s.latched, gripper, attempts[i]) && s.forks > 0 ==> Answers(attempts[i].probe)
  }

  /** Attempt `i` is made and gets as far as the launcher call. */
  predicate CallsAt(forks: nat, latched: bool, gripper: bool, attempts: seq<Attempt>, i: nat) {
    && Ran(forks, latched, gripper, attempts, i)
    && var s := Before(forks, latched, gripper, attempts, i);
       Calls(s.forks, s.latched, gripper, attempts[i])
  }

  /** Every launcher call of the bring-up that is made and raises has launched nothing. */
  predicate CallsFailClean(forks: nat, latched: bool, gripper: bool, attempts: seq<Attempt>) {
    forall i :: 0 <= i < |attempts| && CallsAt(forks, latched, gripper, attempts, i) ==> FailsClean(attempts[i])
  }

  predicate Dependable(forks: nat, history: seq<Event>, k: nat)
    requires k < |history|
  {
    history[k].BringUpCall? ==>
      var before := After(forks, history[..k]);
      && LiveProbesAnswer(before, false, history[k].gripper, history[k].attempts)
      && CallsFailClean(before, false, history[k].gripper, history[k].attempts)
  }

  lemma ReliableDoesNotStack(forks: nat, latched: bool, gripper: bool, attempts: seq<Attempt>)
    requires LiveProbesAnswer(forks, latched, gripper, attempts) && CallsFailClean(forks, latched, gripper, attempts)
    ensures !Stacks(forks, latched, gripper, attempts)
  {
    hide Before, Once;
    forall i | 0 <= i < |attempts| ensures !StacksAt(forks, latched, gripper, attempts, i) {
      var s := Before(forks, latched, gripper, attempts, i);
      if Ran(forks, latched, gripper, attempts, i) && s.forks > 0 { AnyForkAnswers(s.forks, attempts[i].probe.polls); }
    }
  }

  /**
   No stacking: over any history and at every point of it, one dispatcher at most, if every probe
   made beside a live dispatcher is answered and no launcher send both launches and raises.
   */
  lemma AtMostOneDispatcher(forks: nat, history: seq<Event>)
    requires forks <= 1 && forall k :: 0 <= k < |history| ==> Dependable(forks, history, k)
    ensures forall k :: 0 <= k <= |history| ==> After(forks, history[..k]) <= 1
    ensures After(forks, history) <= 1
  {
    forall k | 0 <= k < |history| ensures !StacksIn(forks, history, k) {
      assert Dependable(forks, history, k);
      if history[k].BringUpCall? {
        ReliableDoesNotStack(After(forks, history[..k]), false, history[k].gripper, history[k].attempts);
      }
    }
    hide StacksIn, Dependable;
    forall k | 0 <= k <= |history| ensures After(forks, history[..k]) <= 1 { NeverStacked(forks, history, k); }
    assert history[..|history|] == history;
  }

  /** A bring-up that finds a live dispatcher keeps it alone if and only if no call after an unanswered probe launches. */
  lemma LiveDispatcherIsKept(forks: nat, gripper: bool, attempts: seq<Attempt>)
    requires forks > 0
    ensures Attempts(forks, false, gripper, attempts).forks == forks <==>
            forall i :: 0 <= i < |attempts| && Ran(forks, false, gripper, attempts, i) ==>
              var s := Before(forks, false, gripper, attempts, i);
              Probes(s.latched, gripper, attempts[i]) && !Answers(attempts[i].probe) ==>
                Call(attempts[i].first, attempts[i].second).0 == 0
  {
    BringUpStacksIff(forks, false, gripper, attempts);
    hide Attempts, Once;
    forall i | 0 <= i < |attempts| && Ran(forks, false, gripper, attempts, i)
      ensures var s := Before(forks, false, gripper, attempts, i);
              StacksAt(forks, false, gripper, attempts, i) <==>
              Probes(s.latched, gripper, attempts[i]) && !Answers(attempts[i].probe)
              && Call(attempts[i].first, attempts[i].second).0 > 0
    {
      BeforeGrows(forks, false, gripper, attempts, i);
      AnyForkAnswers(Before(forks, false, gripper, attempts, i).forks, attempts[i].probe.polls);
    }
  }

  lemma {:induction false} BeforeGrows(forks: nat, latched: bool, gripper: bool, attempts: seq<Attempt>, i: nat)
    requires i <= |attempts|
    ensures Before(forks, latched, gripper, attempts, i).forks >= forks
    decreases i
  {
    if i > 0 {
      var o := Once(forks, latched, gripper, attempts[0]);
      if o.verdict.Retry? { BeforeGrows(o.forks, o.latched, gripper, attempts[1..], i - 1); }
    }
  }

  /** Attempt `i` is the first whose call launches. */
  predicate FirstToLaunch(gripper: bool, attempts: seq<Attempt>, i: nat) {
    && CallsAt(0, false, gripper, attempts, i) && Before(0, false, gripper, attempts, i).forks == 0
    && Call(attempts[i].first, attempts[i].second).0 > 0
  }

  /**
   A bring-up that starts with no dispatcher, and whose probes are answered once there is one, ends
   with two or more if and only if the first of its calls to launch did so with its first send,
   which raised all the same, and again with its second.
   */
  lemma FirstBringUpStacksIff(gripper: bool, attempts: seq<Attempt>)
    requires LiveProbesAnswer(0, false, gripper, attempts)
    ensures Attempts(0, false, gripper, attempts).forks > 1 <==>
            exists i :: 0 <= i < |attempts| && FirstToLaunch(gripper, attempts, i)
                        && attempts[i].first.DeliveredButRaised? && Launches(attempts[i].second) == 1
  {
    BringUpStacksIff(0, false, gripper, attempts);
    hide Attempts, Once;
    forall i | 0 <= i < |attempts|
      ensures StacksAt(0, false, gripper, attempts, i) <==>
              FirstToLaunch(gripper, attempts, i) && attempts[i].first.DeliveredButRaised? && Launches(attempts[i].second) == 1
    {
      var s := Before(0, false, gripper, attempts, i);
      NothingAnswersWithoutFork(attempts[i].probe.polls);
      if s.forks > 0 { AnyForkAnswers(s.forks, attempts[i].probe.polls); }
    }
  }

  // ---- what the latch says -----------------------------------------------------

  /** Attempt `i` is made with no dispatcher running, and its launcher call returns without having launched one. */
  predicate IdleAt(gripper: bool, attempts: seq<Attempt>, i: nat) {
    CallsAt(0, false, gripper, attempts, i) && Before(0, false, gripper, attempts, i).forks == 0 && ReturnsIdle(attempts[i])
  }

  /** With the latch set nothing more is launched. */
  lemma {:induction false} LatchedLaunchesNothing(forks: nat, gripper: bool, attempts: seq<Attempt>)
    ensures var o := Attempts(forks, true, gripper, attempts); o.forks == forks && o.latched && o.launches == 0
    decreases |attempts|
  {
    if attempts != [] { LatchedLaunchesNothing(forks, gripper, attempts[1..]); }
  }

  lemma {:induction false} IdleUnfold(gripper: bool, attempts: seq<Attempt>)
    requires attempts != []
    requires var o := Once(0, false, gripper, attempts[0]); o.forks == 0 && !o.latched && o.verdict.Retry?
    ensures (exists i :: 0 <= i < |attempts| && IdleAt(gripper, attempts, i)) <==>
            exists i :: 0 <= i < |attempts[1..]| && IdleAt(gripper, attempts[1..], i)
  {
    var rest := attempts[1..];
    NothingAnswersWithoutFork(attempts[0].probe.polls);
    assert !IdleAt(gripper, attempts, 0);
    forall i | 0 < i < |attempts| ensures IdleAt(gripper, attempts, i) <==> IdleAt(gripper, rest, i - 1) {
      assert attempts[i] == rest[i - 1];
    }
    hide IdleAt, Once;
    if i :| 0 <= i < |rest| && IdleAt(gripper, rest, i) { assert IdleAt(gripper, attempts, i + 1); }
    if i :| 0 <= i < |attempts| && IdleAt(gripper, attempts, i) { assert IdleAt(gripper, rest, i - 1); }
  }

  /** What one attempt leaves when it finds neither dispatcher nor latch. */
  lemma ColdOnce(gripper: bool, a: Attempt)
    ensures var o := Once(0, false, gripper, a);
            && (o.latched && o.forks == 0 <==> Calls(0, false, gripper, a) && ReturnsIdle(a))
            && (o.forks > 0 ==> Calls(0, false, gripper, a) && !ReturnsIdle(a))
  {
    NothingAnswersWithoutFork(a.probe.polls);
  }

  lemma {:induction false} ForksStay(forks: nat, latched: bool, gripper: bool, attempts: seq<Attempt>)
    ensures Attempts(forks, latched, gripper, attempts).forks >= forks
    decreases |attempts|
  {
    if attempts != [] {
      var o := Once(forks, latched, gripper, attempts[0]);
      ForksStay(o.forks, o.latched, gripper, attempts[1..]);
    }
  }

  /** Once an attempt launches or sets the latch, no later one is made idle. */
  lemma NoIdleAfter(gripper: bool, attempts: seq<Attempt>, i: nat)
    requires 0 < i < |attempts|
    requires var o := Once(0, false, gripper, attempts[0]); o.forks > 0 || o.latched || !o.verdict.Retry?
    ensures !IdleAt(gripper, attempts, i)
  {
    var o := Once(0, false, gripper, attempts[0]);
    if o.verdict.Retry? {
      BeforeGrows(o.forks, o.latched, gripper, attempts[1..], i - 1);
      if o.latched { LatchStays(o.forks, gripper, attempts[1..], i - 1); }
    }
  }

  lemma {:induction false} LatchStays(forks: nat, gripper: bool, attempts: seq<Attempt>, i: nat)
    requires i <= |attempts|
    ensures Before(forks, true, gripper, attempts, i).latched
    decreases i
  {
    if i > 0 && Once(forks, true, gripper, attempts[0]).verdict.Retry? { LatchStays(forks, gripper, attempts[1..], i - 1); }
  }

  /**
   The latch lies, that is, a bring-up ends with the latch set and no dispatcher running, if and only
   if it found none and one of its calls returned although the controller had dropped it.
   */
  lemma {:induction false} LatchLiesIff(gripper: bool, attempts: seq<Attempt>)
    ensures var o := Attempts(0, false, gripper, attempts);
            o.latched && o.forks == 0 <==> exists i :: 0 <= i < |attempts| && IdleAt(gripper, attempts, i)
    decreases |attempts|
  {
    if attempts != [] {
      var o := Once(0, false, gripper, attempts[0]);
      ColdOnce(gripper, attempts[0]);
      assert IdleAt(gripper, attempts, 0) <==> Calls(0, false, gripper, attempts[0]) && ReturnsIdle(attempts[0]);
      if o.forks == 0 && !o.latched && o.verdict.Retry? {
        IdleUnfold(gripper, attempts);
        LatchLiesIff(gripper, attempts[1..]);
      } else {
        forall i | 0 < i < |attempts| ensures !IdleAt(gripper, attempts, i) { NoIdleAfter(gripper, attempts, i); }
        hide Once, IdleAt;
        if o.latched { LatchedLaunchesNothing(o.forks, gripper, attempts[1..]); }
        ForksStay(o.forks, o.latched, gripper, attempts[1..]);
      }
    }
  }

  /** Each bring-up makes at most one launcher call that returns, whatever fails, and none once latched. */
  lemma {:induction false} OneLaunchPerBringUp(forks: nat, latched: bool, gripper: bool, attempts: seq<Attempt>)
    ensures Attempts(forks, latched, gripper, attempts).launches <= (if latched || !gripper then 0 else 1)
    decreases |attempts|
  {
    if attempts != [] {
      var o := Once(forks, latched, gripper, attempts[0]);
      OneLaunchPerBringUp(o.forks, o.latched, gripper, attempts[1..]);
    }
  }

  /** Every launcher call of the bring-up that is made and returns has launched. */
  predicate CallsLaunch(forks: nat, latched: bool, gripper: bool, attempts: seq<Attempt>) {
    forall i :: 0 <= i < |attempts| && CallsAt(forks, latched, gripper, attempts, i) ==> !ReturnsIdle(attempts[i])
  }

  lemma LaterCalls(forks: nat, latched: bool, gripper: bool, attempts: seq<Attempt>)
    requires attempts != [] && Once(forks, latched, gripper, attempts[0]).verdict.Retry?
    ensures var o := Once(forks, latched, gripper, attempts[0]);
            forall i :: 0 <= i < |attempts[1..]| && CallsAt(o.forks, o.latched, gripper, attempts[1..], i) ==>
              CallsAt(forks, latched, gripper, attempts, i + 1) && attempts[i + 1] == attempts[1..][i]
  {
    var o, rest := Once(forks, latched, gripper, attempts[0]), attempts[1..];
    hide Once;
    forall i | 0 <= i < |rest| && CallsAt(o.forks, o.latched, gripper, rest, i)
      ensures CallsAt(forks, latched, gripper, attempts, i + 1) && attempts[i + 1] == rest[i]
    {
      assert Before(forks, latched, gripper, attempts, i + 1) == Before(o.forks, o.latched, gripper, rest, i);
    }
  }

  /** When no send both launches and raises, a bring-up adds at most the calls that returned, and exactly those if none was dropped. */
  lemma {:induction false} ForksAreLaunches(forks: nat, latched: bool, gripper: bool, attempts: seq<Attempt>)
    requires CallsFailClean(forks, latched, gripper, attempts)
    ensures var o := Attempts(forks, latched, gripper, attempts);
            && o.forks <= forks + o.launches
            && (CallsLaunch(forks, latched, gripper, attempts) ==> o.forks == forks + o.launches)
    decreases |attempts|
  {
    if attempts != [] {
      var o, rest := Once(forks, latched, gripper, attempts[0]), attempts[1..];
      assert CallsAt(forks, latched, gripper, attempts, 0) <==> Calls(forks, latched, gripper, attempts[0]);
      assert o.forks <= forks + o.launches;
      assert CallsLaunch(forks, latched, gripper, attempts) ==> o.forks == forks + o.launches;
      if o.verdict.Retry? {
        LaterCalls(forks, latched, gripper, attempts);
        hide Once, CallsAt;
        ForksAreLaunches(o.forks, o.latched, gripper, rest);
      }
    }
  }

  /** The probes of a bring-up that were made beside a live dispatcher and went unanswered. */
  function MissedIn(forks: nat, latched: bool, gripper: bool, attempts: seq<Attempt>): nat
    decreases |attempts|
  {
    if attempts == [] then 0
    else
      var o := Once(forks, latched, gripper, attempts[0]);
      (if Probes(latched, gripper, attempts[0]) && forks > 0 && !Answers(attempts[0].probe) then 1 else 0)
      + (if o.verdict.Retry? then MissedIn(o.forks, o.latched, gripper, attempts[1..]) else 0)
  }

  function Missed(forks: nat, history: seq<Event>): nat {
    if history == [] then 0
    else
      var before, e := history[..|history| - 1], history[|history| - 1];
      Missed(forks, before) + (if e.BringUpCall? then MissedIn(After(forks, before), false, e.gripper, e.attempts) else 0)
  }

  predicate Reliable(forks: nat, history: seq<Event>) {
    forall k :: 0 <= k < |history| && history[k].BringUpCall? ==>
      CallsFailClean(After(forks, history[..k]), false, history[k].gripper, history[k].attempts)
  }

  /** Some missed probe is behind every stacking bring-up when no send both launches and raises. */
  lemma {:induction false} StackingMissesAProbe(forks: nat, latched: bool, gripper: bool, attempts: seq<Attempt>, i: nat)
    requires i < |attempts| && StacksAt(forks, latched, gripper, attempts, i)
    requires CallsFailClean(forks, latched, gripper, attempts)
    ensures MissedIn(forks, latched, gripper, attempts) > 0
    decreases i
  {
    var s := Before(forks, latched, gripper, attempts, i);
    assert CallsAt(forks, latched, gripper, attempts, i);
    assert s.forks > 0;
    AnyForkAnswers(s.forks, attempts[i].probe.polls);
    if i > 0 {
      var o, rest := Once(forks, latched, gripper, attempts[0]), attempts[1..];
      assert rest[i - 1] == attempts[i];
      LaterCalls(forks, latched, gripper, attempts);
      hide Once;
      StackingMissesAProbe(o.forks, o.latched, gripper, rest, i - 1);
    }
  }

  /** When no send both launches and raises, k probes missed beside a live dispatcher add at most k to the one. */
  lemma {:induction false} FailedProbesBoundStacking(forks: nat, history: seq<Event>)
    requires forks <= 1 && Reliable(forks, history)
    ensures After(forks, history) <= 1 + Missed(forks, history)
    decreases |history|
  {
    if history != [] {
      var n := |history| - 1;
      var init, e := history[..n], history[n];
      forall k | 0 <= k < n ensures init[..k] == history[..k] && init[k] == history[k] {}
      FailedProbesBoundStacking(forks, init);
      if e.BringUpCall? {
        var f := After(forks, init);
        BringUpStacksIff(f, false, e.gripper, e.attempts);
        ForksAreLaunches(f, false, e.gripper, e.attempts);
        OneLaunchPerBringUp(f, false, e.gripper, e.attempts);
        if i :| 0 <= i < |e.attempts| && StacksAt(f, false, e.gripper, e.attempts, i) {
          StackingMissesAProbe(f, false, e.gripper, e.attempts, i);
        }
      }
    }
  }

  /** With sends that both deliver and raise, a first bring-up with a perfect probe can end with two dispatchers. */
  lemma DeliveredAndRaisedStacks(answering: Probe)
    requires Answers(answering)
    ensures var a := Attempt(Proceeds, answering, DeliveredButRaised, Delivered, true, true);
            After(0, [BringUpCall(true, [a])]) == 2
  {
    NothingAnswersWithoutFork(answering.polls);
    var a := Attempt(Proceeds, answering, DeliveredButRaised, Delivered, true, true);
    assert Attempts(0, false, true, [a]).forks == 2;
    assert [BringUpCall(true, [a])][..0] == [];
    assert After(0, []) == 0;
  }

  // ---- how a bring-up ends -----------------------------------------------------

  /** An attempt gets through: nothing before the launch fails, a launcher call that it makes returns and is flushed, and it streams. */
  predicate Through(s: Outcome, gripper: bool, a: Attempt) {
    && a.prelude.Proceeds? && a.streamsOk
    && (Calls(s.forks, s.latched, gripper, a) ==> Call(a.first, a.second).1 && a.flushOk)
  }

  /** Attempt `i` is made, and is up. */
  predicate UpAt(forks: nat, latched: bool, gripper: bool, attempts: seq<Attempt>, i: nat) {
    Ran(forks, latched, gripper, attempts, i) && Through(Before(forks, latched, gripper, attempts, i), gripper, attempts[i])
  }

  /** Attempt `i` is made, and its preflight blocks. */
  predicate BlockedAt(forks: nat, latched: bool, gripper: bool, attempts: seq<Attempt>, i: nat) {
    Ran(forks, latched, gripper, attempts, i) && attempts[i].prelude.Blocks?
  }

  lemma OnceVerdict(forks: nat, latched: bool, gripper: bool, a: Attempt)
    ensures Once(forks, latched, gripper, a).verdict ==
            if a.prelude.Blocks? then Blocked else if Through(Outcome(forks, latched, 0, Retry), gripper, a) then Up else Retry
  {
  }

  /** What holds before a later attempt is what holds before it in the rest of the bring-up. */
  lemma ShiftedBefore(forks: nat, latched: bool, gripper: bool, attempts: seq<Attempt>, i: nat)
    requires 0 < i < |attempts| && Once(forks, latched, gripper, attempts[0]).verdict.Retry?
    ensures var o, rest := Once(forks, latched, gripper, attempts[0]), attempts[1..];
            && Before(forks, latched, gripper, attempts, i) == Before(o.forks, o.latched, gripper, rest, i - 1)
            && attempts[i] == rest[i - 1]
  {
  }

  /**
   A bring-up is up if and only if some attempt it made got through, and blocked if and only if
   the preflight of some attempt it made blocked; otherwise every attempt failed.
   */
  lemma {:induction false} VerdictIff(forks: nat, latched: bool, gripper: bool, attempts: seq<Attempt>)
    ensures var verdict := Attempts(forks, latched, gripper, attempts).verdict;
            && (verdict == Up <==> exists i :: 0 <= i < |attempts| && UpAt(forks, latched, gripper, attempts, i))
            && (verdict == Blocked <==> exists i :: 0 <= i < |attempts| && BlockedAt(forks, latched, gripper, attempts, i))
    decreases |attempts|
  {
    if attempts != [] {
      var o, rest := Once(forks, latched, gripper, attempts[0]), attempts[1..];
      OnceVerdict(forks, latched, gripper, attempts[0]);
      assert UpAt(forks, latched, gripper, attempts, 0) <==> o.verdict == Up;
      assert BlockedAt(forks, latched, gripper, attempts, 0) <==> o.verdict == Blocked;
      forall i | 0 < i < |attempts| && !o.verdict.Retry?
        ensures !UpAt(forks, latched, gripper, attempts, i) && !BlockedAt(forks, latched, gripper, attempts, i) {}
      hide Once, Through;
      if o.verdict.Retry? {
        VerdictIff(o.forks, o.latched, gripper, rest);
        forall i | 0 < i < |attempts|
          ensures UpAt(forks, latched, gripper, attempts, i) <==> UpAt(o.forks, o.latched, gripper, rest, i - 1)
          ensures BlockedAt(forks, latched, gripper, attempts, i) <==> BlockedAt(o.forks, o.latched, gripper, rest, i - 1)
        {
          ShiftedBefore(forks, latched, gripper, attempts, i);
        }
        hide UpAt, BlockedAt;
        if i :| 0 <= i < |rest| && UpAt(o.forks, o.latched, gripper, rest, i) { assert UpAt(forks, latched, gripper, attempts, i + 1); }
        if i :| 0 <= i < |rest| && BlockedAt(o.forks, o.latched, gripper, rest, i) { assert BlockedAt(forks, latched, gripper, attempts, i + 1); }
        if i :| 0 <= i < |attempts| && UpAt(forks, latched, gripper, attempts, i) { assert UpAt(o.forks, o.latched, gripper, rest, i - 1); }
        if i :| 0 <= i < |attempts| && BlockedAt(forks, latched, gripper, attempts, i) { assert BlockedAt(o.forks, o.latched, gripper, rest, i - 1); }
      }
    }
  }

  /** Another attempt is made if and only if the one before it was made, was not blocked and did not get through. */
  lemma {:induction false} RetriedIff(forks: nat, latched: bool, gripper: bool, attempts: seq<Attempt>, i: nat)
    requires i + 1 < |attempts|
    ensures Ran(forks, latched, gripper, attempts, i + 1) <==>
            && Ran(forks, latched, gripper, attempts, i)
            && !BlockedAt(forks, latched, gripper, attempts, i) && !UpAt(forks, latched, gripper, attempts, i)
    decreases i
  {
    var o := Once(forks, latched, gripper, attempts[0]);
    OnceVerdict(forks, latched, gripper, attempts[0]);
    if i > 0 && o.verdict.Retry? {
      RetriedIff(o.forks, o.latched, gripper, attempts[1..], i - 1);
      ShiftedBefore(forks, latched, gripper, attempts, i);
      ShiftedBefore(forks, latched, gripper, attempts, i + 1);
      hide Once, Through;
    } else {
      assert i == 0 ==> Before(forks, latched, gripper, attempts, 1).verdict == o.verdict;
    }
  }

  /** A probe is answered if and only if its writes go through, a dispatcher is there, and it runs before any read breaks. */
  lemma AliveIff(forks: nat, probe: Probe)
    ensures Alive(forks, probe) <==>
            && probe.writesOk && forks > 0
            && exists i :: 0 <= i < |probe.polls| && probe.polls[i] == Polled(true) && forall j :: 0 <= j < i ==> probe.polls[j] != Broken
  {
    AnsweredIff(forks, probe.polls);
  }

  lemma {:induction false} AnsweredIff(forks: nat, polls: seq<Poll>)
    ensures Answered(forks, polls) <==>
            forks > 0 && exists i :: 0 <= i < |polls| && polls[i] == Polled(true) && forall j :: 0 <= j < i ==> polls[j] != Broken
  {
    if polls != [] {
      var rest := polls[1..];
      AnsweredIff(forks, rest);
      if i :| 0 <= i < |rest| && rest[i] == Polled(true) && forall j :: 0 <= j < i ==> rest[j] != Broken {
        assert polls[0] != Broken ==> polls[i + 1] == Polled(true) && forall j :: 0 <= j < i + 1 ==> polls[j] != Broken;
      }
      if i :| 0 <= i < |polls| && polls[i] == Polled(true) && forall j :: 0 <= j < i ==> polls[j] != Broken {
        assert i > 0 ==> rest[i - 1] == Polled(true) && forall j :: 0 <= j < i - 1 ==> rest[j] == polls[j + 1] != Broken;
      }
    }
  }

  /** The second send is made only when the first raises; each send launches, or not, by itself. */
  lemma CallOutcome(first: Send, second: Send)
    ensures var (launched, returned) := Call(first, second);
            var again := first == Lost || first == DeliveredButRaised;
            && (returned <==> again ==> second == Delivered || second == Ignored)
            && launched == (if first == Delivered || first == DeliveredButRaised then 1 else 0)
                           + (if again && (second == Delivered || second == DeliveredButRaised) then 1 else 0)
  {
  }

  /** Attempt `i` is made without the latch, and either finds a dispatcher or has its launcher call return. */
  predicate LatchesAt(forks: nat, latched: bool, gripper: bool, attempts: seq<Attempt>, i: nat) {
    && Ran(forks, latched, gripper, attempts, i)
    && var s := Before(forks, latched, gripper, attempts, i);
       Probes(s.latched, gripper, attempts[i]) && (Alive(s.forks, attempts[i].probe) || Call(attempts[i].first, attempts[i].second).1)
  }

  /** The latch ends set if and only if it was set, or some attempt found a dispatcher or had its launcher call return. */
  lemma {:induction false} LatchedIff(forks: nat, latched: bool, gripper: bool, attempts: seq<Attempt>)
    ensures Attempts(forks, latched, gripper, attempts).latched <==>
            latched || exists i :: 0 <= i < |attempts| && LatchesAt(forks, latched, gripper, attempts, i)
    decreases |attempts|
  {
    if attempts != [] {
      var o, rest := Once(forks, latched, gripper, attempts[0]), attempts[1..];
      assert LatchesAt(forks, latched, gripper, attempts, 0) <==> !latched && o.latched;
      assert latched ==> o.latched;
      forall i | 0 < i < |attempts| && !o.verdict.Retry? ensures !LatchesAt(forks, latched, gripper, attempts, i) {}
      hide Once, Probes, Alive, Call;
      if o.verdict.Retry? {
        LatchedIff(o.forks, o.latched, gripper, rest);
        forall i | 0 < i < |attempts|
          ensures LatchesAt(forks, latched, gripper, attempts, i) <==> LatchesAt(o.forks, o.latched, gripper, rest, i - 1)
        {
          ShiftedBefore(forks, latched, gripper, attempts, i);
        }
        hide LatchesAt;
        if i :| 0 <= i < |rest| && LatchesAt(o.forks, o.latched, gripper, rest, i) { assert LatchesAt(forks, latched, gripper, attempts, i + 1); }
        if i :| 0 <= i < |attempts| && LatchesAt(forks, latched, gripper, attempts, i) {
          assert i > 0 ==> LatchesAt(o.forks, o.latched, gripper, rest, i - 1);
        }
      }
    }
  }

  // ---- the supervisor's own form -----------------------------------------------

  class Supervisor {
    var grprunForked: bool
    var forks: nat        // the controller's dispatchers
    ghost var launches: nat

    /** _gripdisp_alive: command an open, and poll until the dispatcher clears the trigger. */
    method GripdispAlive(probe: Probe) returns (alive: bool)
      ensures alive == Alive(forks, probe)
    {
      if !probe.writesOk { return false; }
      var i := 0;
      while i < |probe.polls|
        invariant 0 <= i <= |probe.polls|
        invariant Answered(forks, probe.polls) == Answered(forks, probe.polls[i..])
      {
        match probe.polls[i] {
          case Broken => return false;
          case Polled(ran) => if forks > 0 && ran { return true; }
        }
        assert probe.polls[i..][1..] == probe.polls[i + 1..];
        i := i + 1;
      }
      return false;
    }

    /** program_call of the launcher: two attempts; true when it returns, false when it raises. */
    method ProgramCall(first: Send, second: Send) returns (returned: bool)
      modifies this`forks
      ensures forks == old(forks) + Call(first, second).0 && returned == Call(first, second).1
    {
      var attempt := 1;
      while attempt <= 2
        invariant 1 <= attempt <= 3
        invariant attempt == 1 ==> forks == old(forks)
        invariant attempt == 2 ==> !Returns(first) && forks == old(forks) + Launches(first)
        invariant attempt == 3 ==> !Returns(first) && !Returns(second) && forks == old(forks) + Launches(first) + Launches(second)
      {
        var send := if attempt == 1 then first else second;
        forks := forks + Launches(send);
        if Returns(send) { return true; }
        attempt := attempt + 1;
      }
      return false;
    }

    /** _bringup_once. */
    method BringupOnce(gripper: bool, a: Attempt) returns (verdict: Verdict)
      modifies this
      ensures launches >= old(launches)
      ensures Outcome(forks, grprunForked, launches - old(launches), verdict) == Once(old(forks), old(grprunForked), gripper, a)
    {
      match a.prelude {
        case Fails => return Retry;
        case Blocks => return Blocked;
        case Proceeds =>
      }
      if gripper && !grprunForked {
        var alive := GripdispAlive(a.probe);
        if alive {
          grprunForked := true;
        } else {
          var returned := ProgramCall(a.first, a.second);
          if !returned { return Retry; }
          grprunForked := true;
          launches := launches + 1;
          if !a.flushOk { return Retry; }
        }
      }
      return if a.streamsOk then Up else Retry;
    }

    /** bringup: the latch is armed once for all retries. */
    method Bringup(gripper: bool, attempts: seq<Attempt>) returns (verdict: Verdict)
      modifies this
      ensures launches >= old(launches)
      ensures Outcome(forks, grprunForked, launches - old(launches), verdict) == Attempts(old(forks), false, gripper, attempts)
    {
      grprunForked := false;
      var i := 0;
      while i < |attempts|
        invariant 0 <= i <= |attempts|
        invariant launches >= old(launches)
        invariant var rest := Attempts(forks, grprunForked, gripper, attempts[i..]);
                  Attempts(old(forks), false, gripper, attempts) == rest.(launches := launches - old(launches) + rest.launches)
      {
        assert attempts[i..][1..] == attempts[i + 1..];
        verdict := BringupOnce(gripper, attempts[i]);
        if !verdict.Retry? { return; }
        i := i + 1;
      }
      return Retry;
    }
  }
}
