# Executive order monitor — verified model

The monitor polls the Federal Register listing of executive orders in an
endless loop. Each iteration looks up the current poll interval and runs one
check. The check makes up to three listing requests with a fixed pause
between them. On the first answered request it reports every record whose
`document_number` it has not seen before, and it saves the updated set of
seen identifiers to its cache file. The loop then adapts its backoff state
to the check's verdict and sleeps. The two source files
`executiveordermonitor/executiveordermonitor.py` and
`executiveordermonitor/monitor_eos.py` are identical, so one model covers
both. Every row below that cites one file holds for the same lines of the
other.

The Dafny project has five modules:

- `Optional` (`optional.dfy`): `Option`, for JSON keys that may be missing.
- `Backoff` (`backoff.dfy`): the poll state `(intervalIndex, consecutiveErrors)`
  over `PollIntervals = [1, 5, 10, 30, 60]`. It has the transition `Step`,
  the lookup `Interval` and multi-iteration runs `Run`.
- `NewItems` (`new_items.dfy`): the new-item filter. It is a left fold
  `Filter` over the listing's `results` that carries the seen set and
  yields the reported records in order. It is checked against a
  record-by-record reference definition, `Reported`.
- `Check` (`check.dfy`): the bounded retry structure of `check_eos`. It is
  given as a recursive function (`TryFrom`, `CheckEos`) and as the loop
  with early returns (`CheckEosLoop`), and the two are proved to compute
  the same outcome.
- `Monitor` (`monitor.dfy`): one iteration of the main loop (`Tick`) and runs
  of many iterations (`RunTicks`). The cache file is the set it holds.

The network is a parameter. `world(k)` is what listing request number `k` of
a check yields: either a decoded body or a request-library exception. Sleeps
are recorded as values: the interval each iteration slept, and the number of
retry pauses with their total in seconds. Notifications are the sequence of reported records.

Facts about the code that the model keeps:

- The cache stores bare identifiers.
- A check saves after every answered request, even when nothing is new.
- A check makes no request per new item; the notification shows the
  listing record's own fields.
- Each iteration sleeps the interval looked up *before* its backoff
  transition.
- A success when no error preceded it leaves the index where it is. So
  after a streak of failures the index steps back only once, and
  `Backoff.NeverBackToFastest` shows the consequence: after the first two
  checks fail, the loop never again polls at 1 s, whatever happens later.

## Model

| member | source | states |
|---|---|---|
| `Backoff.Interval` | executiveordermonitor/executiveordermonitor.py:104 | the looked-up duration is one of the configured intervals, between the fastest (1 s) and the slowest (60 s) |
| `Backoff.IntervalsAscending` | executiveordermonitor/executiveordermonitor.py:28 | the configured intervals grow strictly with the index |
| `Backoff.Step` | executiveordermonitor/executiveordermonitor.py:107-117 | the transition keeps the index in range and keeps the reachable-state invariant; it moves the index by at most one position; a success clears the error count and never raises the index; a failure adds exactly one error and never lowers the index |
| `Backoff.FailureEscalates` | executiveordermonitor/executiveordermonitor.py:113-117 | a failure counts one more error and moves the index up one position unless it is already at the slowest interval |
| `Backoff.RecoveryStepsBackOnce` | executiveordermonitor/executiveordermonitor.py:107-112 | a success after errors clears the count and lowers a positive index by exactly one, never straight to the fastest interval |
| `Backoff.SteadySuccessKeepsState` | executiveordermonitor/executiveordermonitor.py:109 | a success with no preceding error leaves both index and count unchanged |
| `Backoff.Run` | executiveordermonitor/executiveordermonitor.py:102-119 | a run of n iterations sleeps n times, each sleep is a configured interval, the final index stays in range and keeps the invariant, and it differs from the starting index by at most n |
| `Backoff.RunPrefix` | executiveordermonitor/executiveordermonitor.py:102-119 | the state after k+1 iterations is the transition of the state after k iterations on verdict k |
| `Backoff.SleepUsesPreTransitionIndex` | executiveordermonitor/executiveordermonitor.py:104-119 | iteration k sleeps the interval of the state reached after k iterations, that is, the index before its own transition |
| `Backoff.RepeatedFailures` | executiveordermonitor/monitor_eos.py:113-117 | n consecutive failures from index i end at index min(i+n, 4), with n more errors counted |
| `Backoff.StepKeepsFloor` | executiveordermonitor/executiveordermonitor.py:107-117 | from a reachable state, no transition lowers `Floor`, a lower bound on every index the loop can reach |
| `Backoff.RunStaysAboveFloor` | executiveordermonitor/executiveordermonitor.py:107-117 | whatever the later verdicts, the index never goes below the floor of the starting state |
| `Backoff.NeverBackToFastest` | executiveordermonitor/executiveordermonitor.py:99-117 | after the first two checks fail, the index stays at 1 or above forever, so the 1 s interval is never used again |
| `NewItems.Ids` | executiveordermonitor/executiveordermonitor.py:68-69 | every present, non-empty `document_number` of the records is in the identifier set |
| `NewItems.IdsOnlyOccurring` | executiveordermonitor/executiveordermonitor.py:68-69 | every member of the identifier set is the present, non-empty `document_number` of some record, so with `Ids` the set is exactly the records' truthy identifiers |
| `NewItems.Filter` | executiveordermonitor/executiveordermonitor.py:67-73 | the set only grows; afterwards it is exactly the old set plus every truthy identifier of the listing, which is also the old set plus the reported identifiers; every reported record has an identifier that was not in the old set; no identifier is reported twice; the reported identifiers are exactly the listing's identifiers minus the old set |
| `NewItems.AddedCountsReported` | executiveordermonitor/monitor_eos.py:67-73 | the number of identifiers added to the set equals the number of records reported |
| `NewItems.FilterAppend` | executiveordermonitor/executiveordermonitor.py:67-73 | folding over two concatenated listings is folding over the first, then over the second from the set the first left, with the reports concatenated |
| `NewItems.FilterMatchesReported` | executiveordermonitor/executiveordermonitor.py:67-81 | the fold reports, in listing order, exactly the records whose identifier is truthy and absent from the set as it stands when the record is reached |
| `NewItems.NothingNewWhenAllSeen` | executiveordermonitor/executiveordermonitor.py:69-70 | a listing whose identifiers are all in the set reports nothing and leaves the set as it was |
| `NewItems.FilterIdempotent` | executiveordermonitor/executiveordermonitor.py:67-73 | rerunning the filter with the same listing on the set it produced reports nothing and leaves that set unchanged |
| `NewItems.EmptyIsNeverAnId` | executiveordermonitor/executiveordermonitor.py:69 | the empty string is never taken as an identifier |
| `NewItems.UntruthyIdsSkipped` | executiveordermonitor/monitor_eos.py:68-70 | records with a missing or empty `document_number` are never reported, and the filter does not add the empty string to the set |
| `NewItems.FirstSighting` | executiveordermonitor/executiveordermonitor.py:67-73 | with an empty set, a listing holding "2025-00001" twice reports it once and leaves exactly that identifier; the same listing against that set reports nothing |
| `Check.TryFrom` | executiveordermonitor/executiveordermonitor.py:50-92 | from a given attempt on: the check stops at the first answered request or after the last allowed one; pauses are one fewer than attempts, each of 5 s; it succeeds exactly when the last request made was answered; on success it saves and reports what the filter computes on that answer; on failure it saves and reports nothing |
| `Check.CheckEos` | executiveordermonitor/executiveordermonitor.py:45-92 | a check makes between 1 and 3 requests; it returns true exactly when one of the first 3 requests is answered, and then the last request made was the first answered one; it returns false only after all 3 failed; its retry pauses fall only between attempts, never after the last, 5 s each time; it saves and reports nothing when it fails; it saves only when it succeeds, and then the saved set and the reported records are what the new-item filter computes on the first answered listing: a superset of the loaded set, grown by exactly the reported identifiers, each new and distinct |
| `Check.MissingResultsStillSucceeds` | executiveordermonitor/executiveordermonitor.py:67-84 | when the first answered request's body has no `results` key, the check still succeeds at that attempt, reports nothing and saves the loaded set unchanged, so the backoff counts it as a good poll |
| `Check.CheckTwiceSameListing` | executiveordermonitor/executiveordermonitor.py:67-84 | a second successful check, run against the set the first saved, whose answer carries the same records, reports nothing and saves that same set again |
| `Check.CheckEosLoop` | executiveordermonitor/executiveordermonitor.py:50-92 | the `for` loop with early returns on the first answer and on the last failure computes the same outcome as `CheckEos` |
| `Monitor.Start` | executiveordermonitor/executiveordermonitor.py:99-100 | the loop starts at the fastest interval with no errors, in a state that satisfies the reachable-state invariant, and with the store the cache file held |
| `Monitor.Tick` | executiveordermonitor/executiveordermonitor.py:102-119 | one iteration runs the check against the stored set and the requests' answers, sleeps the interval looked up before the transition, makes the backoff transition on the check's verdict, keeps the invariant, grows the store by exactly the reported identifiers (new and distinct), stores the set the check saved when it succeeds, and leaves the store untouched when it fails |
| `Monitor.SleepPrecedesTransition` | executiveordermonitor/executiveordermonitor.py:104-119 | a failing iteration below the slowest interval still sleeps the shorter interval, and a recovering iteration still sleeps the longer one |
| `Monitor.AllAttemptsFail` | executiveordermonitor/executiveordermonitor.py:86-117 | when all 3 requests fail: the check fails after 3 attempts and 2 pauses of 5 s; nothing is saved; the store is unchanged; the index moves up one position (capped) with one more error |
| `Monitor.SameListingTwice` | executiveordermonitor/executiveordermonitor.py:67-84 | two successful checks that receive the same records: the second reports nothing and leaves the stored set as the first left it |
| `Monitor.RunTicks` | executiveordermonitor/executiveordermonitor.py:102-119 | a run has one sleep, check and verdict per iteration; iteration i runs its check against its own answers and the set the previous iterations left, and its verdict and the set it leaves are that check's; the reports are the checks' reports in order |
| `Monitor.RunTicksBackoff` | executiveordermonitor/executiveordermonitor.py:102-119 | a run sleeps and ends its backoff state exactly as the backoff run over its checks' verdicts does |
| `Monitor.RunTicksStore` | executiveordermonitor/executiveordermonitor.py:67-83 | over a whole run the store only grows, and only by reported identifiers; no identifier is reported twice or after it was stored |
| `Monitor.LookupAlwaysInRange` | executiveordermonitor/executiveordermonitor.py:99-119 | from start-up the interval index always satisfies the invariant, so the lookup never fails, and each iteration sleeps the interval of its pre-transition state |

## Left out

- HTTP: the request URL, query parameters, headers and timeout, `raise_for_status` and JSON decoding are folded into one abstract attempt outcome. An error status or an undecodable body is a request-library exception, as in the code (an undecodable body only with requests 2.27 or later, where `response.json()` raises `requests.exceptions.JSONDecodeError`).
- The query parameters' signing-date window depends on the wall clock when the module is loaded, so it is not modelled.
- The rate-limit pause (lines 59-62) has no effect on the verdict or the seen set. It is a pure delay, so it is not modelled.
- `load_seen_eos` and `save_seen_eos` (lines 33-43): the cache file is the set of strings it holds, and an absent file holds the empty set. A corrupt file or a failing write raises an exception that propagates; these paths are not modelled.
- Console output: the printed notification is the reported record itself, with its title, order number, signing date and URL fields carried but not formatted. The error and progress lines are not modelled.
- `time.sleep`: sleeps are recorded as durations and pause counts. The endless `while True` loop is modelled as runs of any finite length.
- Exceptions other than request-library ones propagate out of the loop and are not modelled. Examples: `ValueError` from `int(remaining)`, `TypeError` when `results` is JSON `null`, `AttributeError` when a record is not an object, and `OSError` on save.
- `check_eos` would return `None` if its `for` loop ran out, which only happens when `MAX_RETRIES` is 0. With the configured value of 3 that path is unreachable, so it is not modelled.
- Identifiers are taken to be strings (`Option<string>`). A JSON number or boolean as `document_number` cannot be represented: the code would report and store a truthy number, and would skip `0` or `false` as falsy at line 69.
- Per-item detail requests and an identifier-to-metadata cache do not occur in this code, so they are not modelled.
