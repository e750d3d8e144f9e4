# Attention tracking for live classes, in Dafny

A server for live online classes. During a meeting it collects a per-participant
*attention state* at every poll: attentive, active, looking away, drowsy, absent, or in
darkness. It keeps the following:

- per-participant time budgets for each state;
- a bounded buffer of state-change snapshots;
- meeting statistics, reconciled on demand against the meeting's wall-clock duration.

A second read path turns the raw attention logs of a meeting into an analytics report.

This project models the following parts of the system and proves their properties:

- **Ingestion of one poll**, in the `Meeting` class (`meeting.dfy`, with the specification
  functions of `ingestion.dfy`). Step by step:
  - the memory guard;
  - the whole-second timestamp;
  - the trim of the snapshot buffer;
  - the shared time increment;
  - the filtering of raw signals through the state normaliser;
  - registration of unseen users;
  - the `$inc` batch;
  - the change-only snapshot queue, pushed in writes of ten.
- **The state normaliser** (`normalize.dfy`): lower-casing, trimming and an alias table.
- **Reconciliation of the statistics** (`meeting.dfy`, `reconcile.dfy`, `concurrency.dfy`,
  `duration.dfy`). It covers:
  - the peak-concurrency sweep with its headcount fallback;
  - the clamped duration;
  - sanitising of each bucket;
  - the three super-bucket sums;
  - proportional floor-rescaling when recorded time exceeds the duration;
  - the average-attention percentage.
- **Storing one attention log** (`log_post.dfy`): the required-field check, the defaults,
  and the schema's enum and range validation.
- **The analytics report over the logs** (`log_users.dfy`, `log_series.dfy`,
  `log_analytics.dfy`). It covers:
  - display names;
  - the state breakdown;
  - one entry per user;
  - per-minute groups and the sorted time series;
  - the clamped duration.

Where the code works by loops over mutable state, the model is imperative:

- `Meeting` is a class whose methods reassign its fields.
- The imperative loops of the source are `for` or `while` loops with invariants. These are
  the filtering, planning, bulk-write, push and rescaling loops of models/Meeting.js, and
  the counting, grouping and point-building loops of routes/logs.js.
- Each such loop is proved to compute a specification function, usually a fold over the
  input prefix. Some are instead proved to compute a concatenation or an element-wise map.
- Other code is pure expressions over values:
  - the `filter`/`map`/`sort` chains (models/Meeting.js:308-316, routes/logs.js:273) are
    recursive functions;
  - the per-state `forEach` loops over the six buckets (models/Meeting.js:375, 416) are
    record operations;
  - the write-back loop at models/Meeting.js:437-449 replaces the participant list as a
    whole.
- The properties the code promises are proved as lemmas about those functions.

Three behaviours of the code are easy to miss:

- **The buffer can exceed 200 snapshots.** The buffer is trimmed to its last 200
  snapshots only *before* the new ones are appended (models/Meeting.js:96-108). A call can
  therefore leave it above 200. See `Ingestion.BufferLengthAfterCall`.
- **Ties count the join first.** When a join and a leave share a timestamp, the sweep
  takes the join first (models/Meeting.js:326). See
  `Concurrency.JoinCountedFirstOnTie`.
- **Per-user state counts start from the global counts.** In the analytics, a user's
  state counts begin at the running global counts (routes/logs.js:124), not at zero. See
  `LogUsers.UserStatesSeeded`.

Modelling choices:

- **Times.** All times are integers in milliseconds. A JavaScript `Date` that may be
  invalid is `Duration.Instant`.
- **Injected inputs.** The clock (`nowMs`) and the heap size (`heapUsedBytes`) are
  parameters.
- **Persistence.** Every persistence call (`updateOne`, `bulkWrite`, `$push`, `$inc`,
  `$set`) becomes an update of the model's fields or values.
- **A poll's signals.** They are a sequence of `(userId, signal)` pairs with distinct
  keys, in key order. That is what `Object.keys` of a JavaScript object yields.
- **The previous poll.** `_lastStates` is not a schema path (models/Meeting.js:202, 258).
  It lives only on the in-memory document. The model's `lastStates` field persists across
  calls like the stored fields do. The source's change test therefore sees the previous
  poll only when the caller reuses the same document instance. A freshly loaded meeting
  starts with no remembered states, and queues every valid user.

## Model

| member | source | states |
|---|---|---|
| Meetings.Meeting.constructor | models/Meeting.js:45-69 | a new meeting starts now, has no end, participants, snapshots or remembered states, and has the schema's default statistics |
| Meetings.Meeting.SaveAttentionSnapshot | models/Meeting.js:71-265 | under memory pressure nothing changes and the call returns false. Otherwise the buffer is trimmed to its last 200 snapshots. With no valid signal that is the only change. Else the participants become the old ones plus the newcomers, credited with the increment for each valid user's state; the trimmed buffer gains the change-only queue (line 202's test in its intended form; see Findings); the valid states are remembered. Participant ids stay distinct in the model, which writes back to the object it reads (see Left out) |
| Meetings.CollectValid | models/Meeting.js:131-158 | the filtering loop yields exactly the accepted entries in key order, and the map of their states |
| Meetings.PlanUpdates | models/Meeting.js:165-213 | the planning loop yields the `$inc` batch (every valid entry), the participants to register and the snapshots of users whose state changed |
| Meetings.BulkCredit | models/Meeting.js:225-240 | the bulk write applies one positional increment per valid entry, in order |
| Meetings.PushInBatches | models/Meeting.js:242-254 | pushing the queue in slices of at most ten appends the whole queue, in order |
| Meetings.IngestKeepsDistinctIds | models/Meeting.js:170-240 | registering unseen users and crediting a batch with distinct keys keeps participant ids distinct |
| Meetings.Meeting.CalculateStats | models/Meeting.js:287-473 | without participants nothing changes. Otherwise participants become their sanitised, and if needed rescaled, selves; the statistics are the corrected totals of the sanitised buckets, the duration, the average attention and a peak meeting the sweep's specification. Participant ids stay distinct; snapshots and times are untouched |
| Meetings.RescaleParticipants | models/Meeting.js:425-429 | the rescaling loop scales every participant's buckets by d/t with the floor, and changes nothing else |
| Meetings.ReconcileKeepsDistinctIds | models/Meeting.js:437-449 | writing back the reconciled buckets keeps participant ids distinct |
| Ingestion.MemoryPressureInMegabytes | models/Meeting.js:76-83 | the guard fires exactly when the heap in megabytes exceeds 1800 |
| Ingestion.CallTimestamp | models/Meeting.js:73-74 | the call's timestamp is the current time with its milliseconds cleared |
| Ingestion.TrimBuffer | models/Meeting.js:93-108 | the trim keeps the last 200 snapshots, or all of them when there are at most 200 |
| Ingestion.TimeIncrement | models/Meeting.js:110-129 | the increment is 5 for an empty buffer. Otherwise it is the gap in whole seconds to the last snapshot when that gap is 1 to 10, 1 for a longer gap, and 5 otherwise. It always lies in [1, 10] |
| Ingestion.ValidEntriesMembership | models/Meeting.js:132-158 | an entry is accepted exactly when its user id is not "undefined" and its signal normalises to that state |
| Ingestion.ValidEntriesDistinct | models/Meeting.js:132-158 | accepted entries have distinct users and are no more than the signals |
| Ingestion.NewcomersSpec | models/Meeting.js:174-192 | exactly the valid users not yet present are registered, once each, as fresh "Anonymous" students joined at the call's timestamp with zero buckets |
| Ingestion.RegistrationSpec | models/Meeting.js:218-223 | after the push every valid user is a participant and ids remain distinct |
| Ingestion.IndexOf | models/Meeting.js:226-236 | the positional operator selects the first participant with the user id, and none exists exactly when the id is absent |
| Ingestion.CreditAllSpec | models/Meeting.js:225-240 | after the bulk write each participant's bucket for its valid state grew by the increment; every other bucket and field, and every participant without a valid entry, is unchanged |
| Ingestion.CreditAllKeepsIds | models/Meeting.js:225-240 | the bulk write keeps the list's length and every id |
| Ingestion.AsWrittenQueuesEveryEntry | models/Meeting.js:201-208 | as written, the change test queues a snapshot for every valid entry |
| Ingestion.RepeatedPollQueuesDuplicateAsWritten | models/Meeting.js:201-208 | as written, repeating the previous poll still queues a snapshot |
| Ingestion.ChangedMeaning | models/Meeting.js:201-208 | the intended change test holds when there is no previous poll, the user was not in it, or its state differs |
| Ingestion.SnapshotQueueSpec | models/Meeting.js:201-208 | the queue holds exactly one snapshot at the call's timestamp for each valid entry whose state changed, and nothing else. The snapshots follow the order of the entries in the batch |
| Ingestion.LastStatesOfSpec | models/Meeting.js:257-258 | the remembered map is replaced wholesale. Its keys are exactly the valid users of this call, each mapped to its state of this call |
| Ingestion.RepeatedPollQueuesNothing | models/Meeting.js:201-258 | repeating the previous poll queues no snapshot |
| Ingestion.BufferLengthAfterCall | models/Meeting.js:93-108 | after a call the buffer holds the trimmed length plus the queue, so a full buffer with a non-empty queue exceeds 200 |
| Normalize.NormalizeAttentionState | models/Meeting.js:267-285 | a missing or empty state gives no state (what a non-empty one gives is stated by the lemmas below) |
| Normalize.NormalizeOutsideTable | models/Meeting.js:269-284 | a string normalises to a state exactly when its lower-cased, trimmed form is one of the eight alias keys. Every other string, including the empty one, gives no state |
| Normalize.Candidate | models/Meeting.js:136-145 | a string signal is its own candidate and other non-objects give none. An object yields a truthy candidate exactly when one of attentionState, state, data.attentionState, data.state is truthy, taken in that order: the first truthy one of the four is the candidate |
| Normalize.NormalizeIgnoresPadding | models/Meeting.js:270 | surrounding whitespace does not change the result |
| Normalize.NormalizeIgnoresCase | models/Meeting.js:270 | upper-case letters do not change the result |
| Normalize.CanonicalNameNormalizes | models/Meeting.js:272-284 | each canonical state name normalises to that state |
| Normalize.NormalizeIdempotent | models/Meeting.js:267-285 | normalising a normalised state's name gives the same state |
| Normalize.LookingAwayWithoutSeparator | models/Meeting.js:276 | "lookingaway" is looking away |
| Normalize.LookingAwayWithSpace | models/Meeting.js:277 | "looking away" is looking away |
| Normalize.LookingAwayPaddedUpperCase | models/Meeting.js:270-275 | " LOOKING_AWAY " is looking away |
| Concurrency.PeakConcurrency | models/Meeting.js:321-334 | the two-pointer sweep over sorted joins and leaves returns the largest headcount reached at a join (0 without joins), at most the number of joins |
| Concurrency.PrefixPeakIsPeak | models/Meeting.js:321-334 | the sweep's running maximum over all joins is the order-free peak |
| Concurrency.PeakUnique | models/Meeting.js:321-334 | the peak is unique |
| Concurrency.PeakOfSorted | models/Meeting.js:308-316 | sorting the join and leave instants does not change the peak |
| Concurrency.TimesBound | models/Meeting.js:308-316 | there are no more join or leave instants than participants |
| Concurrency.MaxConcurrentParticipants | models/Meeting.js:306-335 | with fewer leaves than half the joins the result is the headcount; otherwise it is the peak of the sorted join and leave instants; it lies in [0, participants] |
| Concurrency.TwoLeaveBeforeThirdJoins | models/Meeting.js:321-334 | joins at 0, 10 and 100 with leaves at 50 and 60 peak at 2 |
| Concurrency.JoinCountedFirstOnTie | models/Meeting.js:326 | a join and a leave at the same instant give peak 1 |
| Duration.ElapsedSeconds | models/Meeting.js:339-355 | the duration is 0 without a valid start or with an invalid end, and never exceeds 7200 |
| Duration.ElapsedSecondsMeaning | models/Meeting.js:344-353 | with valid instants the duration is the elapsed whole seconds, 0 for an end before the start, and 7200 from two hours on |
| Duration.ElapsedSecondsMonotone | models/Meeting.js:339-355 | a later end never gives a shorter duration |
| States.Add | models/Meeting.js:233 | incrementing one state's counter changes that counter by the amount and no other |
| States.Plus | models/Meeting.js:390-393 | the counter-wise sum adds each state's counters |
| Reconcile.SanitizeValue | models/Meeting.js:376-387 | a negative value becomes 0, a value above 86400 becomes 86400, and a value in [0, 86400] is kept |
| Reconcile.Sanitize | models/Meeting.js:375-388 | sanitised buckets are non-negative and at most 86400 each |
| Reconcile.SanitizeInRange | models/Meeting.js:375-388 | buckets already in range are unchanged |
| Reconcile.SanitizeEachState | models/Meeting.js:375-388 | each state's sanitised value is the sanitised value of that state |
| Reconcile.SanitizeAll | models/Meeting.js:374-388 | every participant keeps its id and snapshots, and its sanitised buckets lie in [0, 86400] |
| Reconcile.SumBucketsNonNegative | models/Meeting.js:390-393 | the breakdown of sanitised participants is non-negative |
| Reconcile.SumBucketsCap | models/Meeting.js:383-393 | each breakdown counter is at most 86400 times the number of participants |
| Reconcile.SanitizeAndSum | models/Meeting.js:359-410 | the accumulation loop yields the sanitised participants, their breakdown, and the three super-bucket sums with their total, each equal to the sums over the breakdown |
| Reconcile.ScaleBounds | models/Meeting.js:417-427 | a floor-scaled value by d/t with d at most t lies in [0, x] and is the floor of x·d/t |
| Reconcile.ScaleMonotone | models/Meeting.js:417-427 | scaling preserves order |
| Reconcile.FloorSumNear | models/Meeting.js:416-418 | flooring six parts that sum to t after scaling by d/t loses less than six, giving a total in [d-5, d] |
| Reconcile.RescaledTotalNearDuration | models/Meeting.js:412-423 | when recorded time exceeds the duration, the rescaled breakdown is non-negative and sums to within 5 below the duration |
| Reconcile.RescaleBounds | models/Meeting.js:416-418 | rescaled buckets are non-negative and never above the originals |
| Reconcile.RescaleAllBounds | models/Meeting.js:425-429 | scaling by d/t with d at most t keeps every participant's id, and leaves non-negative buckets non-negative and no larger than before |
| Reconcile.CorrectedSpec | models/Meeting.js:412-434 | correction keeps the breakdown non-negative and below the raw one, and each super-bucket in [0, raw]. Attentive time never exceeds the total. When drifted, the total becomes the duration and the breakdown sums within 5 of it; otherwise the totals are unchanged |
| Reconcile.ReconciledTotalsSpec | models/Meeting.js:359-434 | the corrected totals of sanitised participants have these properties |
| Reconcile.ReconciledParticipantsSpec | models/Meeting.js:374-429 | each reconciled participant differs from the original only in its buckets, which are in [0, 86400] and never above the sanitised ones |
| Reconcile.AverageAttentionRange | models/Meeting.js:434 | the average attention lies in [0, 100] |
| Reconcile.RoundedPercentAccuracy | models/Meeting.js:434 | the rounded percentage is within half a hundredth of the exact one |
| Reconcile.SingleBreakdown | models/Meeting.js:359-410 | one participant with 150 s attentive and 50 s drowsy gives 150 attentive, 50 distracted, 200 total |
| Reconcile.DriftHalvesRecordedTime | models/Meeting.js:412-423 | with a 100 s meeting those totals become 75, 25, 0 and 100 |
| Reconcile.DriftHalvesParticipant | models/Meeting.js:425-429 | and the participant's buckets become 75 and 25 |
| Sorting.SortByKeySorted | models/Meeting.js:308-316 | the sort returns its input ascending by key, as a permutation |
| LogPost.PostAttention | routes/logs.js:23-56 | a body is refused as missing fields exactly when one of the five required fields is falsy. It is stored exactly when they are all present, the state is an enum name and both percentages, as reals, are in [0, 100]. A stored log copies the ids and the state and is timestamped now |
| LogPost.StoredDefaults | routes/logs.js:30-41 | a falsy user name becomes "Anonymous", absent numbers 0, absent measurements the empty object; given values are kept |
| LogPost.StateNamed | models/Log.js:18-22 | the enum accepts a string exactly when it is a canonical state name |
| LogPost.StateNamedRoundTrip | models/Log.js:18-22 | every canonical name is accepted as its own state |
| LogPost.MinimalBodyStored | routes/logs.js:23-41 | a body with only the required fields is stored with all defaults |
| LogPost.FractionalPercentage | models/Log.js:23-34 | a fractional percentage and confidence in range, such as 72.5, are stored as sent; 100.5 makes the save fail |
| LogPost.FalsyOrUnknownRefused | routes/logs.js:23-28 | an empty roomId is refused like a missing one; "Drowsy" is refused by the store |
| LogUsers.NameMapDomain | routes/logs.js:91-99 | a user is in the name map exactly when some participant has that id and a name; its name is non-empty |
| LogUsers.NameMapLast | routes/logs.js:91-99 | the map holds the name of the last such participant |
| LogUsers.DisplayNamePreference | routes/logs.js:117 | the name shown is the participant's name when there is one, else the log's user name, else "Anonymous", and never empty |
| LogUsers.BreakdownTotal | routes/logs.js:103-139 | the state breakdown sums to the number of logs and is non-negative |
| LogUsers.UserOrderSpec | routes/logs.js:119-130 | users are listed once each, and exactly those with logs |
| LogUsers.UserTableKeys | routes/logs.js:119-130 | there is an entry for exactly the listed users, under its own id |
| LogUsers.UserEntrySpec | routes/logs.js:115-135 | a user's entry counts its logs; firstSeen and the name come from its first log and lastSeen from its last |
| LogUsers.UserStatesSeeded | routes/logs.js:124 | a user's state counts are the breakdown of all logs before its first one plus the breakdown of its own logs |
| LogUsers.UserStatesTotal | routes/logs.js:124-133 | a user's state counts sum to its log count plus the number of logs before its first one |
| LogUsers.SecondUserSeeded | routes/logs.js:124 | after one log each of two users, the second user has one log but state counts summing to 2 |
| LogUsers.SeenBounds | routes/logs.js:72 | on logs ascending in time, firstSeen and lastSeen bound all of the user's log timestamps |
| LogUsers.SumOfUserLogs | routes/logs.js:115-140 | the users' log counts add up to the number of logs |
| LogSeries.MinuteOf | routes/logs.js:236-238 | a log's minute is a multiple of 60000 ms at most 59999 ms before it |
| LogSeries.MinuteOrderSpec | routes/logs.js:240-251 | minutes are listed once each, and exactly those some log falls in |
| LogSeries.GroupTableKeys | routes/logs.js:240-251 | there is a group for exactly the listed minutes |
| LogSeries.GroupSpec | routes/logs.js:240-255 | a group's total is the number of logs in its minute, its counts are their breakdown, and the total is the positive sum of its six counts |
| LogSeries.Points | routes/logs.js:257-271 | there is one point per minute that has logs, and no two points share a timestamp |
| LogSeries.TimeSeriesSpec | routes/logs.js:257-273 | the series has one point per distinct minute, ascending in time, each the rounded percentage breakdown of that minute's logs |
| LogSeries.PointSharesRange | routes/logs.js:260-263 | every percentage of a point lies in [0, 100] |
| LogAnalytics.BuildNameMap | routes/logs.js:92-99 | the loop builds the name map |
| LogAnalytics.CountLogs | routes/logs.js:101-140 | the counting loop builds the per-user entries, their order, the breakdown and the log count |
| LogAnalytics.ListEntries | routes/logs.js:219-229 | the entries are listed in the order of their users |
| LogAnalytics.Entries | routes/logs.js:219-229 | one entry per user with logs, in first-appearance order; no two entries share a user id |
| LogAnalytics.GroupByMinute | routes/logs.js:232-255 | the grouping loop builds the minute groups and their order |
| LogAnalytics.BuildTimeSeries | routes/logs.js:257-273 | the point loop and the sort build the time series |
| LogAnalytics.Analytics | routes/logs.js:60-289 | a missing meeting is refused; a meeting without logs gets the empty report; otherwise the report of its logs and duration |
| LogAnalytics.ReportTotals | routes/logs.js:112-142 | the log count equals the number of logs, the sum of the breakdown and the sum of the users' log counts |
| LogAnalytics.ReportUsers | routes/logs.js:119-130 | there is one entry per distinct user with logs, and the participant total is their number |
| LogAnalytics.ReportEntries | routes/logs.js:115-135 | each entry carries its user's log count, first-log name and time, last-log time and seeded state counts |
| LogAnalytics.ReportDuration | routes/logs.js:144-217 | the report's duration is at most 7200 and 0 without a start time |

## Left out

- **Clock and heap.** `new Date()` and `process.memoryUsage()` are parameters. The
  per-50-seconds log throttling (`_lastLogTime`) and all console output are not part of this
  model.
- **Fresh re-read.** `calculateStats` re-reads the meeting from the store before
  reconciling (models/Meeting.js:296-304). The model reconciles the object's own
  participants, i.e. it assumes the object is fresh.
- **Partial failure.** Errors thrown inside the try/catch blocks are not modelled:
  - the per-entry catches at models/Meeting.js:155-157 and 210-212;
  - the method-wide catch at 261-264 that answers false;
  - the catch at 469-472;
  - the 500 responses of the analytics handler.
- **Persistence batching.** Snapshot pushes are grouped ten at a time. Only the number of
  writes depends on the grouping, so the model shows the loop but not separate writes.
- **Write-back of reconciled buckets.** It is one positional `$set` per participant. This
  agrees with replacing the list as long as participant ids are distinct. `Valid()`
  maintains that in the model only; the source does not guarantee it (see the
  `SaveAttentionSnapshot` line below).
- SaveAttentionSnapshot: the source writes through `updateOne`/`bulkWrite` to the store
  and never updates the in-memory `participants` or `attentionSnapshots`. The model
  updates both fields and also keeps `lastStates`, a combination no single source run
  has. The source's change test sees the previous poll only on a reused document
  instance, and that instance is stale in two ways:
  - the existence check at models/Meeting.js:174 cannot see a user pushed by an earlier
    call, so a poll `{ u1: "attentive" }` sent twice on one instance registers u1 twice
    and participant ids repeat;
  - the gap at models/Meeting.js:113-117 is measured from the last snapshot the instance
    held when it was loaded.

  The model's distinct-ids invariant and its gap from the latest pushed snapshot hold for
  a meeting re-read before each call, apart from the remembered previous poll.
- **Atomicity.** Concurrent ingestion and reconciliation calls are out of scope, and so
  is the atomicity of storage operations.
- **Values in the buckets.** Buckets are integers. Non-numeric, NaN and fractional stored
  values, which sanitising resets to 0, are not modelled. Neither are stored keys beyond
  the six states.
- **Floating point.** `scaleFactor` multiplication is exact `floor(x*d/t)`. `toFixed(2)`
  and `Math.round(x*100)/100` are exact round-half-up to hundredths on rationals.
  Floating-point error at those boundaries is not modelled.
- **Attention-percentage averages.** The analytics' averages of `attentionPercentage`
  (overall and per user) and `totalAttentionPercentage` are not part of this model.
- **JavaScript object semantics.** Inherited properties such as `"__proto__"` or
  `"constructor"` used as user ids, and the numeric-first ordering of integer-like keys in
  `Object.keys`, are not modelled. Keys are taken in insertion order.
- NormalizeAttentionState: the state strings whose lower-cased, trimmed form is
  `"constructor"` or `"__proto__"` (e.g. `" Constructor "`) are not modelled as the code
  handles them.
  - The lookup `validStates[normalized] || null` (models/Meeting.js:284) then returns the
    inherited `Object` or `Object.prototype`. That value is truthy but not a state.
  - The source accepts such an entry (line 148), stores it (line 153), and increments an
    `attentionData` path named after it (lines 229-236). It also queues a snapshot with it
    (lines 203-207).
  - The model returns no state, so it drops the entry.
- Candidate: a truthy non-string value in a signal field cannot be expressed (a number, a
  boolean, an array). The model has only strings or absent fields there.
  - The source's `||` chain stops at such a value (models/Meeting.js:140-144), converts it
    with `String(state)` and normalises the result.
  - So `{ attentionState: 1, state: "drowsy" }` is skipped by the source. Its closest
    encoding in the model, with attentionState absent, falls through to `state` and yields
    drowsy.
  - A value whose string form is an alias, such as the array `["drowsy"]`, is accepted by
    the source. The model cannot express it.
- **Minute grouping.** It uses UTC minutes. `setSeconds(0, 0)` acts in local time, which
  differs only for time zones whose offset is not a whole number of minutes. A point's
  ISO timestamp string is represented by its millisecond value.
- **Sorting.** The sorts `Array.prototype.sort` performs are modelled by an insertion sort.
  Only its result matters: an ascending permutation.
- **POST handler.** The ObjectId cast of `meetingId` and the schema's selection of five
  measurement fields are not modelled. `attentionPercentage` and `confidence` are exact
  reals: Mongoose's cast of a numeric string such as `"72.5"` to a Number, and the
  cast error for a non-numeric one, are not modelled; measurements are a map. HTTP status codes, routing,
  the `auth` middleware and the meeting lookup are represented only by the outcome values.
- **Other files.** monitor.js, the User model and the auth middleware are not part of this
  model.

## Findings

| source | as written | input that shows it | evidently intended | confidence | as-written member | corrected member |
|---|---|---|---|---|---|---|
| models/Meeting.js:202 | compares `this._lastStates[userId]` with the state string using `!==`. That value is the record `{ attentionState }` stored at line 153 and kept at line 258, so the test is always true and a snapshot is queued for every valid user on every call | two consecutive polls `{ u1: "attentive" }` | compare `this._lastStates[userId].attentionState`, so only a changed state is queued | high, not executed | Ingestion.RepeatedPollQueuesDuplicateAsWritten | Ingestion.RepeatedPollQueuesNothing |
