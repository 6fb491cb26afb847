/**
 * One call of `check_eos`: up to `MaxRetries` listing requests, a fixed
 * pause between attempts, and on the first answered request the new-item
 * fold over its records followed by a save of the updated set.
 */
module Check {
  import opened Optional
  import opened NewItems

  /** Listing requests made per check at most. */
  const MaxRetries: nat := 3

  /** Seconds slept after a failed attempt that is not the last. */
  const RetryDelay: nat := 5

  /**
   * What one listing request yields: a decoded body, or a request-library
   * exception (connection failure, timeout, error status, undecodable body).
   */
  datatype Attempt = Answered(listing: Listing) | RequestFailed

  /**
   * The result of one check: its verdict, how many requests it made, how
   * many retry pauses it slept and for how many seconds in all, the set it
   * saved (`None` when it saved nothing) and the records it reported as
   * new, in order.
   */
  datatype Outcome = Outcome(
    ok: bool,
    attempts: nat,
    retryPauses: nat,
    pausedSeconds: nat,
    saved: Option<set<string>>,
    reported: seq<Doc>)

  /** Every request from attempt number `lo` up to, not including, `hi` failed. */
  ghost predicate FailedBetween(world: nat -> Attempt, lo: nat, hi: nat) {
    forall k :: lo <= k < hi ==> world(k).RequestFailed?
  }

  /** Every request before attempt number `n` failed. */
  ghost predicate FailedBefore(world: nat -> Attempt, n: nat) {
    FailedBetween(world, 0, n)
  }

  /** Some request a check may make is answered. */
  ghost predicate SomeAnswer(world: nat -> Attempt) {
    exists k :: 0 <= k < MaxRetries && world(k).Answered?
  }

  /**
   * The check from attempt number `attempt` on; `world(k)` is what request
   * number `k` yields. The pauses already slept equal `attempt`.
   */
  function TryFrom(seen: set<string>, world: nat -> Attempt, attempt: nat): (r: Outcome)
    requires attempt < MaxRetries
    ensures attempt < r.attempts <= MaxRetries
    ensures r.retryPauses == r.attempts - 1
    ensures r.pausedSeconds == r.retryPauses * RetryDelay
    ensures FailedBetween(world, attempt, r.attempts - 1)
    ensures r.ok <==> world(r.attempts - 1).Answered?
    ensures !r.ok ==> r.attempts == MaxRetries && r.saved == None && r.reported == []
    ensures r.ok ==> r.saved == Some(Filter(Results(world(r.attempts - 1).listing), seen).seen)
    ensures r.ok ==> r.reported == Filter(Results(world(r.attempts - 1).listing), seen).reported
    decreases MaxRetries - attempt
  {
    match world(attempt)
    case Answered(listing) =>
      var f := Filter(Results(listing), seen);
      Outcome(true, attempt + 1, attempt, attempt * RetryDelay, Some(f.seen), f.reported)
    case RequestFailed =>
      if attempt < MaxRetries - 1 then
        TryFrom(seen, world, attempt + 1)
      else
        Outcome(false, attempt + 1, attempt, attempt * RetryDelay, None, [])
  }

  /** One call of `check_eos` against the set loaded from the cache file. */
  function CheckEos(seen: set<string>, world: nat -> Attempt): (r: Outcome)
    ensures 1 <= r.attempts <= MaxRetries
    ensures r.ok <==> SomeAnswer(world)
    ensures r.ok ==> world(r.attempts - 1).Answered? && FailedBefore(world, r.attempts - 1)
    ensures !r.ok ==> r.attempts == MaxRetries && FailedBefore(world, MaxRetries)
    ensures r.retryPauses == r.attempts - 1
    ensures r.pausedSeconds == r.retryPauses * RetryDelay
    ensures r.saved.Some? <==> r.ok
    ensures !r.ok ==> r.reported == []
    ensures r.ok ==> seen <= r.saved.value
    ensures r.ok ==> r.saved == Some(Filter(Results(world(r.attempts - 1).listing), seen).seen)
    ensures r.ok ==> r.reported == Filter(Results(world(r.attempts - 1).listing), seen).reported
    ensures r.ok ==> r.saved.value == seen + Ids(r.reported)
    ensures AllNew(r.reported, seen) && DistinctIds(r.reported)
  {
    TryFrom(seen, world, 0)
  }

  /**
   * A first answer whose body has no `results` key is still a success: the
   * check stops there, reports nothing and saves the loaded set unchanged,
   * so the backoff counts it as a good poll.
   */
  lemma MissingResultsStillSucceeds(seen: set<string>, world: nat -> Attempt, k: nat)
    requires k < MaxRetries && FailedBefore(world, k)
    requires world(k) == Answered(Listing(None))
    ensures var r := CheckEos(seen, world);
      && r.ok && r.attempts == k + 1
      && r.reported == [] && r.saved == Some(seen)
  {
  }

  /**
   * The loop as the code writes it: `for attempt in range(MAX_RETRIES)`
   * with an early return on the first answer and on the last failure.
   */
  method CheckEosLoop(seen: set<string>, world: nat -> Attempt) returns (r: Outcome)
    ensures r == CheckEos(seen, world)
  {
    var attempt: nat := 0;
    var pauses: nat := 0;
    var paused: nat := 0;
    while true
      invariant attempt < MaxRetries
      invariant pauses == attempt
      invariant paused == pauses * RetryDelay
      invariant TryFrom(seen, world, attempt) == CheckEos(seen, world)
      decreases MaxRetries - attempt
    {
      match world(attempt)
      case Answered(listing) =>
        var f := Filter(Results(listing), seen);
        return Outcome(true, attempt + 1, pauses, paused, Some(f.seen), f.reported);
      case RequestFailed =>
        if attempt < MaxRetries - 1 {
          pauses := pauses + 1;
          paused := paused + RetryDelay;
        } else {
          return Outcome(false, attempt + 1, pauses, paused, None, []);
        }
      attempt := attempt + 1;
    }
  }

  /**
   * Two successful checks whose answered requests carry the same records,
   * the second run against the set the first saved: the second reports
   * nothing and saves that same set again.
   */
  lemma CheckTwiceSameListing(seen: set<string>, w1: nat -> Attempt, w2: nat -> Attempt)
    requires CheckEos(seen, w1).ok
    requires var c1 := CheckEos(seen, w1); var c2 := CheckEos(c1.saved.value, w2);
      && c2.ok
      && Results(w1(c1.attempts - 1).listing) == Results(w2(c2.attempts - 1).listing)
    ensures var c1 := CheckEos(seen, w1); var c2 := CheckEos(c1.saved.value, w2);
      c2.reported == [] && c2.saved == c1.saved
  {
    var c1 := CheckEos(seen, w1);
    var listing := Results(w1(c1.attempts - 1).listing);
    FilterIdempotent(listing, seen);
  }
}
