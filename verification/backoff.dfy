/**
 * The adaptive poll schedule of the monitor's main loop: an index into a
 * fixed ascending list of intervals and a count of consecutive failed
 * checks. A failed check escalates one step toward the slowest interval; a
 * successful check after a failure streak clears the count and steps back
 * once; a successful check with no preceding failure changes nothing.
 */
module Backoff {

  /** Seconds slept between checks, fastest first. */
  const PollIntervals: seq<nat> := [1, 5, 10, 30, 60]

  /** Index of the slowest interval. */
  const LastIndex: nat := |PollIntervals| - 1

  /** The loop's in-memory state; it is never persisted. */
  datatype PollState = PollState(intervalIndex: nat, consecutiveErrors: nat)

  /** The state the loop starts in. */
  const Initial: PollState := PollState(0, 0)

  /** The interval lookup is in range. */
  predicate Valid(s: PollState) {
    s.intervalIndex <= LastIndex
  }

  function Min(a: nat, b: nat): nat {
    if a <= b then a else b
  }

  /**
   * Invariant of every state reachable from `Initial`: the lookup is in
   * range, and the index has climbed at least one step per error of the
   * current failure streak (up to the slowest interval).
   */
  predicate Inv(s: PollState) {
    Valid(s) && Min(s.consecutiveErrors, LastIndex) <= s.intervalIndex
  }

  /** The duration looked up for a state. */
  function Interval(s: PollState): (seconds: nat)
    requires Valid(s)
    ensures seconds in PollIntervals
    ensures PollIntervals[0] <= seconds <= PollIntervals[LastIndex]
  {
    PollIntervals[s.intervalIndex]
  }

  /** The list is strictly ascending: a larger index means a longer sleep. */
  lemma IntervalsAscending(i: nat, j: nat)
    requires i < j <= LastIndex
    ensures PollIntervals[i] < PollIntervals[j]
  {
  }

  /** The transition made after one check; `ok` is the check's verdict. */
  function Step(s: PollState, ok: bool): (s': PollState)
    ensures Valid(s) ==> Valid(s')
    ensures Inv(s) ==> Inv(s')
    ensures s'.intervalIndex <= s.intervalIndex + 1
    ensures s.intervalIndex <= s'.intervalIndex + 1
    ensures ok ==> s'.consecutiveErrors == 0 && s'.intervalIndex <= s.intervalIndex
    ensures !ok ==> s'.consecutiveErrors == s.consecutiveErrors + 1 && s.intervalIndex <= s'.intervalIndex
  {
    if ok then
      if s.consecutiveErrors > 0 then
        PollState(if s.intervalIndex > 0 then s.intervalIndex - 1 else s.intervalIndex, 0)
      else
        s
    else
      PollState(if s.intervalIndex < LastIndex then s.intervalIndex + 1 else s.intervalIndex,
                s.consecutiveErrors + 1)
  }

  /** A failure counts one more error and escalates one step, capped at the slowest interval. */
  lemma FailureEscalates(s: PollState)
    requires Valid(s)
    ensures Step(s, false) == PollState(Min(s.intervalIndex + 1, LastIndex), s.consecutiveErrors + 1)
  {
  }

  /**
   * A success after a failure streak clears the count and steps back exactly
   * one position, never straight to the fastest interval.
   */
  lemma RecoveryStepsBackOnce(s: PollState)
    requires s.consecutiveErrors > 0
    ensures Step(s, true).consecutiveErrors == 0
    ensures s.intervalIndex > 0 ==> Step(s, true).intervalIndex == s.intervalIndex - 1
    ensures s.intervalIndex == 0 ==> Step(s, true).intervalIndex == 0
  {
  }

  /** A success with no preceding failure leaves the state unchanged. */
  lemma SteadySuccessKeepsState(s: PollState)
    requires s.consecutiveErrors == 0
    ensures Step(s, true) == s
  {
  }

  /** Durations slept by a run of the loop, and the state it ends in. */
  datatype Trace = Trace(sleeps: seq<nat>, final: PollState)

  /**
   * Runs the loop over a sequence of check verdicts. Each iteration sleeps
   * the interval looked up before that iteration's transition.
   */
  function Run(s: PollState, outcomes: seq<bool>): (t: Trace)
    requires Valid(s)
    ensures |t.sleeps| == |outcomes|
    ensures Valid(t.final)
    ensures Inv(s) ==> Inv(t.final)
    ensures forall k :: 0 <= k < |t.sleeps| ==> t.sleeps[k] in PollIntervals
    ensures t.final.intervalIndex <= s.intervalIndex + |outcomes|
    ensures s.intervalIndex <= t.final.intervalIndex + |outcomes|
    decreases |outcomes|
  {
    if |outcomes| == 0 then
      Trace([], s)
    else
      var rest := Run(Step(s, outcomes[0]), outcomes[1..]);
      Trace([Interval(s)] + rest.sleeps, rest.final)
  }

  /** The state after the first `k` iterations. */
  lemma {:induction false} RunPrefix(s: PollState, outcomes: seq<bool>, k: nat)
    requires Valid(s)
    requires k < |outcomes|
    ensures Run(s, outcomes[..k + 1]).final == Step(Run(s, outcomes[..k]).final, outcomes[k])
    decreases k
  {
    if k > 0 {
      var s1 := Step(s, outcomes[0]);
      RunPrefix(s1, outcomes[1..], k - 1);
      assert outcomes[..k + 1][1..] == outcomes[1..][..k];
      assert outcomes[..k][1..] == outcomes[1..][..k - 1];
    }
  }

  /**
   * Iteration `k` sleeps the interval of the state reached after the first
   * `k` iterations, i.e. the index held before its own transition.
   */
  lemma {:induction false} SleepUsesPreTransitionIndex(s: PollState, outcomes: seq<bool>, k: nat)
    requires Valid(s)
    requires k < |outcomes|
    ensures Valid(Run(s, outcomes[..k]).final)
    ensures Run(s, outcomes).sleeps[k] == Interval(Run(s, outcomes[..k]).final)
    decreases k
  {
    if k == 0 {
      assert outcomes[..0] == [];
    } else {
      var s1 := Step(s, outcomes[0]);
      SleepUsesPreTransitionIndex(s1, outcomes[1..], k - 1);
      assert outcomes[..k][1..] == outcomes[1..][..k - 1];
    }
  }

  /** `n` failed checks in a row. */
  function Failures(n: nat): seq<bool> {
    seq(n, _ => false)
  }

  /** `n` consecutive failures from index `i` end at index `min(i + n, last)`. */
  lemma {:induction false} RepeatedFailures(s: PollState, n: nat)
    requires Valid(s)
    ensures Run(s, Failures(n)).final
            == PollState(Min(s.intervalIndex + n, LastIndex), s.consecutiveErrors + n)
    decreases n
  {
    if n > 0 {
      var s1 := Step(s, false);
      FailureEscalates(s);
      assert Failures(n)[1..] == Failures(n - 1);
      RepeatedFailures(s1, n - 1);
    }
  }

  /**
   * A lower bound on every index the loop can reach from a state: a success
   * steps back only once per failure streak, and a failure from the slowest
   * interval cannot climb any higher.
   */
  function Floor(s: PollState): nat {
    var lowest := if s.consecutiveErrors > 0 && s.intervalIndex > 0 then s.intervalIndex - 1 else s.intervalIndex;
    Min(lowest, LastIndex - 1)
  }

  /** No transition lowers the floor of a reachable state. */
  lemma StepKeepsFloor(s: PollState, ok: bool)
    requires Inv(s)
    ensures Floor(s) <= Floor(Step(s, ok))
  {
  }

  /** No run, whatever its verdicts, goes below the floor of its start state. */
  lemma {:induction false} RunStaysAboveFloor(s: PollState, outcomes: seq<bool>)
    requires Inv(s)
    ensures Floor(s) <= Run(s, outcomes).final.intervalIndex
    decreases |outcomes|
  {
    if |outcomes| > 0 {
      StepKeepsFloor(s, outcomes[0]);
      RunStaysAboveFloor(Step(s, outcomes[0]), outcomes[1..]);
    }
  }

  /**
   * Once the first two checks fail, the loop never again reaches the
   * fastest interval, whatever the later verdicts.
   */
  lemma NeverBackToFastest(outcomes: seq<bool>)
    ensures 1 <= Run(Initial, [false, false] + outcomes).final.intervalIndex
  {
    var o := [false, false] + outcomes;
    assert o[1..] == [false] + outcomes;
    assert o[1..][1..] == outcomes;
    assert Step(Step(Initial, false), false) == PollState(2, 2);
    RunStaysAboveFloor(PollState(2, 2), outcomes);
  }
}
