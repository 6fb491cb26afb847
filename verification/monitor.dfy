/**
 * The monitor's main loop: each iteration looks up the current interval,
 * runs one check, makes the backoff transition on the check's verdict and
 * sleeps the interval it looked up. The cache file is modelled as the set
 * it holds (an absent file holds the empty set); a check loads it and, on
 * success, saves the updated set back.
 */
module Monitor {
  import opened Optional
  import opened Backoff
  import opened NewItems
  import opened Check

  /** The backoff state in memory and the identifiers in the cache file. */
  datatype MonitorState = MonitorState(poll: PollState, store: set<string>)

  /** What one iteration did: the seconds it slept, the check, the state after. */
  datatype TickResult = TickResult(slept: nat, check: Outcome, next: MonitorState)

  /** The state at start-up, with whatever the cache file held. */
  function Start(store: set<string>): (m: MonitorState)
    ensures Inv(m.poll) && m.poll.intervalIndex == 0 && m.store == store
  {
    MonitorState(Initial, store)
  }

  /** One iteration of the main loop. */
  function Tick(m: MonitorState, world: nat -> Attempt): (t: TickResult)
    requires Valid(m.poll)
    ensures t.check == CheckEos(m.store, world)
    ensures t.slept == Interval(m.poll)
    ensures t.next.poll == Step(m.poll, t.check.ok)
    ensures Inv(m.poll) ==> Inv(t.next.poll)
    ensures t.next.store == m.store + Ids(t.check.reported)
    ensures t.check.ok ==> t.next.store == t.check.saved.value
    ensures !t.check.ok ==> t.next.store == m.store && t.check.reported == []
    ensures AllNew(t.check.reported, m.store) && DistinctIds(t.check.reported)
  {
    var c := CheckEos(m.store, world);
    TickResult(Interval(m.poll), c, MonitorState(Step(m.poll, c.ok), c.saved.GetOr(m.store)))
  }

  /**
   * The interval slept is the one looked up before the transition: a
   * failure below the slowest interval sleeps the shorter interval and only
   * the next iteration sleeps the longer one; a recovery sleeps the longer
   * interval once more before the next iteration sleeps the shorter one.
   */
  lemma SleepPrecedesTransition(m: MonitorState, world: nat -> Attempt)
    requires Valid(m.poll)
    ensures var t := Tick(m, world);
      && (!t.check.ok && m.poll.intervalIndex < LastIndex ==> t.slept < Interval(t.next.poll))
      && (t.check.ok && m.poll.consecutiveErrors > 0 && m.poll.intervalIndex > 0 ==> t.slept > Interval(t.next.poll))
  {
  }

  /**
   * A check whose every request fails reports nothing, leaves the cache
   * untouched, pauses between attempts but not after the last, and
   * escalates the interval one step, capped at the slowest.
   */
  lemma AllAttemptsFail(m: MonitorState, world: nat -> Attempt)
    requires Valid(m.poll)
    requires forall k :: 0 <= k < MaxRetries ==> world(k).RequestFailed?
    ensures var t := Tick(m, world);
      && !t.check.ok
      && t.check.attempts == MaxRetries
      && t.check.retryPauses == MaxRetries - 1
      && t.check.pausedSeconds == (MaxRetries - 1) * RetryDelay
      && t.check.saved == None
      && t.check.reported == []
      && t.next.store == m.store
      && t.next.poll == PollState(Min(m.poll.intervalIndex + 1, LastIndex), m.poll.consecutiveErrors + 1)
  {
  }

  /**
   * Two successful checks that receive the same records: the second
   * reports nothing and saves the set the first one saved.
   */
  lemma SameListingTwice(m: MonitorState, w1: nat -> Attempt, w2: nat -> Attempt)
    requires Valid(m.poll)
    requires var t1 := Tick(m, w1); var t2 := Tick(t1.next, w2);
      && t1.check.ok && t2.check.ok
      && Results(w1(t1.check.attempts - 1).listing) == Results(w2(t2.check.attempts - 1).listing)
    ensures var t1 := Tick(m, w1); var t2 := Tick(t1.next, w2);
      t2.check.reported == [] && t2.next.store == t1.next.store
  {
    var t1 := Tick(m, w1);
    assert t1.next.store == t1.check.saved.value;
    CheckTwiceSameListing(m.store, w1, w2);
  }

  /** Reports of a first part followed by reports new to the store it left. */
  lemma AppendNew(a: seq<Doc>, b: seq<Doc>, store: set<string>)
    requires AllNew(a, store) && DistinctIds(a)
    requires AllNew(b, store + Ids(a)) && DistinctIds(b)
    ensures AllNew(a + b, store) && DistinctIds(a + b)
  {
  }

  /** What a run of the loop did: sleeps, the checks, their verdicts and reports, the stores each check loaded, the final state. */
  datatype RunResult = RunResult(
    sleeps: seq<nat>,
    checks: seq<Outcome>,
    verdicts: seq<bool>,
    reports: seq<Doc>,
    stores: seq<set<string>>,
    final: MonitorState)

  /** The records reported by a sequence of checks, in order. */
  function AllReported(checks: seq<Outcome>): seq<Doc>
    decreases |checks|
  {
    if |checks| == 0 then [] else checks[0].reported + AllReported(checks[1..])
  }

  /**
   * One iteration's check runs against `world` and `store`, its verdict is
   * that check's, and `store'` is what it saved.
   */
  predicate Linked(world: nat -> Attempt, c: Outcome, verdict: bool, store: set<string>, store': set<string>) {
    && c == CheckEos(store, world)
    && verdict == c.ok
    && store' == store + Ids(c.reported)
  }

  /** Iteration `i` runs against `worlds[i]` and `stores[i]` and leaves `stores[i + 1]`. */
  predicate Chained(worlds: seq<nat -> Attempt>, checks: seq<Outcome>, verdicts: seq<bool>, stores: seq<set<string>>)
    requires |checks| == |verdicts| == |worlds| && |stores| == |worlds| + 1
  {
    forall i :: 0 <= i < |worlds| ==> Linked(worlds[i], checks[i], verdicts[i], stores[i], stores[i + 1])
  }

  /** Prefixing one iteration to a chained run gives a chained run. */
  lemma ChainedCons(worlds: seq<nat -> Attempt>, c: Outcome, checks: seq<Outcome>, verdicts: seq<bool>,
                    store: set<string>, stores: seq<set<string>>)
    requires |worlds| > 0
    requires |checks| == |verdicts| == |worlds| - 1 && |stores| == |worlds|
    requires c == CheckEos(store, worlds[0]) && stores[0] == store + Ids(c.reported)
    requires Chained(worlds[1..], checks, verdicts, stores)
    ensures Chained(worlds, [c] + checks, [c.ok] + verdicts, [store] + stores)
  {
    var cs, vs, ss := [c] + checks, [c.ok] + verdicts, [store] + stores;
    forall i | 0 <= i < |worlds|
      ensures Linked(worlds[i], cs[i], vs[i], ss[i], ss[i + 1])
    {
      if i > 0 {
        assert worlds[i] == worlds[1..][i - 1];
      }
    }
  }

  /**
   * Runs the loop for `|worlds|` iterations; `worlds[i]` answers the
   * requests of iteration `i`, whose check runs against `stores[i]`, the
   * set the previous iterations left. `RunTicksBackoff` relates the run
   * to the backoff trace and `RunTicksStore` states what happens to the
   * cache.
   */
  function RunTicks(m: MonitorState, worlds: seq<nat -> Attempt>): (r: RunResult)
    requires Valid(m.poll)
    ensures |r.sleeps| == |r.checks| == |r.verdicts| == |worlds|
    ensures |r.stores| == |worlds| + 1
    ensures r.stores[0] == m.store && r.stores[|worlds|] == r.final.store
    ensures Chained(worlds, r.checks, r.verdicts, r.stores)
    ensures r.reports == AllReported(r.checks)
    decreases |worlds|
  {
    if |worlds| == 0 then
      RunResult([], [], [], [], [m.store], m)
    else
      var t := Tick(m, worlds[0]);
      var rest := RunTicks(t.next, worlds[1..]);
      var checks := [t.check] + rest.checks;
      var verdicts := [t.check.ok] + rest.verdicts;
      var stores := [m.store] + rest.stores;
      assert checks[1..] == rest.checks;
      ChainedCons(worlds, t.check, rest.checks, rest.verdicts, m.store, rest.stores);
      assert AllReported(checks) == t.check.reported + AllReported(rest.checks);
      RunResult([t.slept] + rest.sleeps, checks, verdicts, t.check.reported + rest.reports, stores, rest.final)
  }

  /** The sleeps and final backoff state of a run are the backoff trace over its checks' verdicts. */
  lemma {:induction false} RunTicksBackoff(m: MonitorState, worlds: seq<nat -> Attempt>)
    requires Valid(m.poll)
    ensures var r := RunTicks(m, worlds);
      && r.sleeps == Run(m.poll, r.verdicts).sleeps
      && r.final.poll == Run(m.poll, r.verdicts).final
    decreases |worlds|
  {
    if |worlds| > 0 {
      var r := RunTicks(m, worlds);
      var t := Tick(m, worlds[0]);
      var rest := RunTicks(t.next, worlds[1..]);
      RunTicksBackoff(t.next, worlds[1..]);
      assert r.verdicts[0] == t.check.ok && r.verdicts[1..] == rest.verdicts;
    }
  }

  /**
   * Over a whole run the cache only grows, and only by the reported
   * identifiers; no identifier is reported twice or after it was stored.
   */
  lemma {:induction false} RunTicksStore(m: MonitorState, worlds: seq<nat -> Attempt>)
    requires Valid(m.poll)
    ensures var r := RunTicks(m, worlds);
      && m.store <= r.final.store
      && r.final.store == m.store + Ids(r.reports)
      && AllNew(r.reports, m.store) && DistinctIds(r.reports)
    decreases |worlds|
  {
    if |worlds| > 0 {
      var t := Tick(m, worlds[0]);
      var rest := RunTicks(t.next, worlds[1..]);
      var r := RunTicks(m, worlds);
      assert r.reports == t.check.reported + rest.reports && r.final == rest.final;
      assert t.next.store == m.store + Ids(t.check.reported);
      RunTicksStore(t.next, worlds[1..]);
      IdsAppend(t.check.reported, rest.reports);
      AppendNew(t.check.reported, rest.reports, m.store);
    }
  }

  /**
   * From start-up the interval lookup never goes out of range, and each
   * iteration sleeps the interval of the state before its transition.
   */
  lemma {:induction false} LookupAlwaysInRange(store: set<string>, worlds: seq<nat -> Attempt>, k: nat)
    requires k < |worlds|
    ensures var r := RunTicks(Start(store), worlds);
      && Inv(r.final.poll)
      && Valid(Run(Initial, r.verdicts[..k]).final)
      && r.sleeps[k] == Interval(Run(Initial, r.verdicts[..k]).final)
  {
    var r := RunTicks(Start(store), worlds);
    RunTicksBackoff(Start(store), worlds);
    SleepUsesPreTransitionIndex(Initial, r.verdicts, k);
  }
}
