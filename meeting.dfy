/**
 * A meeting document (models/Meeting.js) as an object whose methods update
 * its fields in place: the ingestion of one poll of attention signals
 * (`saveAttentionSnapshot`) and the reconciliation of its statistics
 * (`calculateStats`). Each method is proved to leave the state that the
 * specification functions of the Ingestion and Reconcile modules describe.
 */
module Meetings {
  import opened Wrappers
  import opened States
  import opened Normalize
  import opened Ingestion
  import opened Duration
  import opened Concurrency
  import opened Reconcile

  /** `overallStats`; the breakdown is absent until a reconciliation writes one. */
  datatype OverallStats = OverallStats(
    totalParticipants: nat,
    maxConcurrentParticipants: int,
    averageAttention: real,
    attentiveCount: int,
    distractedCount: int,
    absentCount: int,
    stateBreakdown: Option<Buckets>,
    meetingDuration: nat)

  /** The schema defaults of a new meeting. */
  const InitialStats: OverallStats := OverallStats(0, 0, 0.0, 0, 0, 0, None, 0)

  /**
   * The peak that reconciliation reports: the plain headcount when fewer
   * than half of the joins have a matching leave, otherwise the peak of the
   * join/leave sweep.
   */
  ghost predicate ReportedPeak(ps: seq<Participant>, m: int) {
    var joins, leaves := JoinTimes(ps), LeaveTimes(ps);
    && (2 * |leaves| < |joins| ==> m == |ps|)
    && (2 * |leaves| >= |joins| ==> IsPeak(joins, leaves, m))
  }

  /** The statistics one reconciliation writes for these participants, this duration and this peak. */
  function StatsOf(ps: seq<Participant>, d: nat, peak: int): OverallStats {
    var c := Corrected(RawTotals(SanitizeAll(ps)), d);
    OverallStats(|ps|, peak, AverageAttention(c.attentive, c.total),
                 c.attentive, c.distracted, c.absent, Some(c.breakdown), d)
  }

  function Min(a: int, b: int): int {
    if a <= b then a else b
  }

  // ---------------------------------------------------------------------
  // The loops of saveAttentionSnapshot, each proved against its specification
  // ---------------------------------------------------------------------

  /** The filtering loop: the accepted entries in batch order, and the same as a map. */
  method CollectValid(attentionData: seq<(UserId, Signal)>)
    returns (valid: seq<ValidEntry>, validMap: map<UserId, State>)
    ensures valid == ValidEntries(attentionData)
    ensures validMap == LastStatesOf(valid)
  {
    valid, validMap := [], map[];
    for k := 0 to |attentionData|
      invariant valid == ValidEntries(attentionData[..k])
      invariant validMap == LastStatesOf(valid)
    {
      var (userId, data) := attentionData[k];
      var normalizedState := StateOf(data);
      assert attentionData[..k + 1][..k] == attentionData[..k];
      if normalizedState.Some? && userId != "undefined" {
        var e := ValidEntry(userId, normalizedState.value);
        assert (valid + [e])[..|valid|] == valid;
        valid := valid + [e];
        validMap := validMap[userId := normalizedState.value];
      }
    }
    assert attentionData[..|attentionData|] == attentionData;
  }

  /**
   * The planning loop over the valid entries: the $inc batch (every valid
   * entry), the participants to push (valid users not yet present) and the
   * snapshots to append (users whose state changed since the last poll).
   */
  method PlanUpdates(participants: seq<Participant>, valid: seq<ValidEntry>,
                     lastStates: Option<map<UserId, State>>, timestamp: int)
    returns (batchUpdates: seq<ValidEntry>, participantUpdates: seq<Participant>, snapshotUpdates: seq<Snapshot>)
    ensures batchUpdates == valid
    ensures participantUpdates == Newcomers(participants, valid, timestamp)
    ensures snapshotUpdates == SnapshotQueue(valid, lastStates, timestamp)
  {
    batchUpdates, participantUpdates, snapshotUpdates := [], [], [];
    for k := 0 to |valid|
      invariant batchUpdates == valid[..k]
      invariant participantUpdates == Newcomers(participants, valid[..k], timestamp)
      invariant snapshotUpdates == SnapshotQueue(valid[..k], lastStates, timestamp)
    {
      var e := valid[k];
      assert valid[..k + 1][..k] == valid[..k];
      if e.userId !in Ids(participants) {
        participantUpdates := participantUpdates + [NewParticipant(e.userId, timestamp)];
      }
      batchUpdates := batchUpdates + [e];
      if Changed(lastStates, e) {
        snapshotUpdates := snapshotUpdates + [Snapshot(e.userId, e.state, timestamp)];
      }
    }
    assert valid[..|valid|] == valid;
  }

  /** The bulk write: one positional $inc per update, applied in order. */
  method BulkCredit(participants: seq<Participant>, updates: seq<ValidEntry>, timeIncrement: int)
    returns (r: seq<Participant>)
    ensures r == CreditAll(participants, updates, timeIncrement)
  {
    r := participants;
    for k := 0 to |updates|
      invariant r == CreditAll(participants, updates[..k], timeIncrement)
    {
      assert updates[..k + 1][..k] == updates[..k];
      r := Credit(r, updates[k].userId, updates[k].state, timeIncrement);
    }
    assert updates[..|updates|] == updates;
  }

  /** The snapshot pushes, at most MaxSnapshotBatch per write: together they append the whole queue, in order. */
  method PushInBatches(buffer: seq<Snapshot>, queue: seq<Snapshot>) returns (r: seq<Snapshot>)
    ensures r == buffer + queue
  {
    r := buffer;
    var i := 0;
    while i < |queue|
      invariant 0 <= i
      invariant r == buffer + queue[..Min(i, |queue|)]
      decreases |queue| - i
    {
      var batch := queue[i..Min(i + MaxSnapshotBatch, |queue|)];
      assert 0 < |batch| <= MaxSnapshotBatch;
      assert queue[..Min(i + MaxSnapshotBatch, |queue|)] == queue[..i] + batch;
      r := r + batch;
      i := i + MaxSnapshotBatch;
    }
    assert queue[..|queue|] == queue;
  }

  /** Ingesting a batch with distinct keys keeps participant ids distinct. */
  lemma IngestKeepsDistinctIds(ps: seq<Participant>, attentionData: seq<(UserId, Signal)>, ts: int, inc: int)
    requires DistinctIds(ps) && DistinctKeys(attentionData)
    ensures var valid := ValidEntries(attentionData);
      DistinctIds(CreditAll(ps + Newcomers(ps, valid, ts), valid, inc))
  {
    var valid := ValidEntries(attentionData);
    ValidEntriesDistinct(attentionData);
    RegistrationSpec(ps, valid, ts);
    CreditAllKeepsIds(ps + Newcomers(ps, valid, ts), valid, inc);
  }

  // ---------------------------------------------------------------------
  // The loop of calculateStats
  // ---------------------------------------------------------------------

  /** The rescaling loop: every participant's buckets scaled by d/t. */
  method RescaleParticipants(clean: seq<Participant>, d: nat, t: nat) returns (scaled: seq<Participant>)
    requires t > 0
    ensures scaled == RescaleAll(clean, d, t)
  {
    scaled := [];
    for k := 0 to |clean|
      invariant |scaled| == k
      invariant forall j :: 0 <= j < k ==>
        scaled[j] == clean[j].(attentionData := Rescale(clean[j].attentionData, d, t))
    {
      scaled := scaled + [clean[k].(attentionData := Rescale(clean[k].attentionData, d, t))];
    }
  }

  /** Reconciliation keeps participant ids, hence keeps them distinct. */
  lemma ReconcileKeepsDistinctIds(ps: seq<Participant>, d: nat)
    requires DistinctIds(ps)
    ensures DistinctIds(ReconciledParticipants(ps, d))
  {
    ReconciledParticipantsSpec(ps, d);
  }

  class Meeting {
    var startTime: Option<Instant>
    var endTime: Option<Instant>
    var participants: seq<Participant>
    var attentionSnapshots: seq<Snapshot>
    /** `_lastStates`: the valid users of the last accepted poll with their states. */
    var lastStates: Option<map<UserId, State>>
    var overallStats: OverallStats

    /** Participant ids are distinct: a participant is pushed only for an id not yet present. */
    ghost predicate Valid()
      reads this
    {
      DistinctIds(participants)
    }

    /** A meeting started at startMs, with no participants, snapshots or statistics yet. */
    constructor (startMs: int)
      ensures Valid()
      ensures startTime == Some(At(startMs)) && endTime == None
      ensures participants == [] && attentionSnapshots == [] && lastStates == None
      ensures overallStats == InitialStats
    {
      startTime := Some(At(startMs));
      endTime := None;
      participants := [];
      attentionSnapshots := [];
      lastStates := None;
      overallStats := InitialStats;
    }

    /**
     * One poll of raw attention signals, keyed by user id. Under memory
     * pressure nothing changes and the call answers false. Otherwise the
     * buffer is trimmed to its last 200 snapshots; when no signal is valid
     * that is all. Else unseen users are registered, every valid user's
     * bucket for its state is credited with the shared time increment,
     * snapshots are appended for the users whose state changed, and the
     * valid states are remembered for the next poll.
     */
    method SaveAttentionSnapshot(attentionData: seq<(UserId, Signal)>, nowMs: int, heapUsedBytes: nat)
      returns (ok: bool)
      requires Valid() && DistinctKeys(attentionData)
      modifies this
      ensures Valid()
      ensures startTime == old(startTime) && endTime == old(endTime) && overallStats == old(overallStats)
      ensures UnderMemoryPressure(heapUsedBytes) ==>
        !ok && participants == old(participants) && attentionSnapshots == old(attentionSnapshots)
        && lastStates == old(lastStates)
      ensures !UnderMemoryPressure(heapUsedBytes) ==>
        var ts := CallTimestamp(nowMs);
        var valid := ValidEntries(attentionData);
        var inc := TimeIncrement(old(attentionSnapshots), ts);
        && ok
        && (valid == [] ==>
              && participants == old(participants)
              && attentionSnapshots == TrimBuffer(old(attentionSnapshots))
              && lastStates == old(lastStates))
        && (valid != [] ==>
              && participants == CreditAll(old(participants) + Newcomers(old(participants), valid, ts), valid, inc)
              && attentionSnapshots == TrimBuffer(old(attentionSnapshots)) + SnapshotQueue(valid, old(lastStates), ts)
              && lastStates == Some(LastStatesOf(valid)))
    {
      if UnderMemoryPressure(heapUsedBytes) {
        return false;
      }
      var timestamp := CallTimestamp(nowMs);
      var before := attentionSnapshots;
      if |attentionSnapshots| > MaxSnapshots {
        attentionSnapshots := attentionSnapshots[|attentionSnapshots| - MaxSnapshots..];
      }
      // The increment reads the buffer as it was loaded, before the trim.
      var timeIncrement := TimeIncrement(before, timestamp);
      var valid, validMap := CollectValid(attentionData);
      if valid == [] {
        return true;
      }
      var batchUpdates, participantUpdates, snapshotUpdates := PlanUpdates(participants, valid, lastStates, timestamp);
      IngestKeepsDistinctIds(participants, attentionData, timestamp, timeIncrement);
      if |participantUpdates| > 0 {
        participants := participants + participantUpdates;
      } else {
        assert participants + participantUpdates == participants;
      }
      participants := BulkCredit(participants, batchUpdates, timeIncrement);
      attentionSnapshots := PushInBatches(attentionSnapshots, snapshotUpdates);
      lastStates := Some(validMap);
      ok := true;
    }

    /**
     * Reconciliation. Without participants nothing changes. Otherwise the
     * peak concurrency and the clamped duration are computed, every bucket
     * is sanitised and summed, recorded time beyond a positive duration is
     * scaled down to it, and the participants and statistics are written.
     */
    method CalculateStats(nowMs: int)
      requires Valid()
      modifies this
      ensures Valid()
      ensures startTime == old(startTime) && endTime == old(endTime)
      ensures attentionSnapshots == old(attentionSnapshots) && lastStates == old(lastStates)
      ensures old(participants) == [] ==> participants == [] && overallStats == old(overallStats)
      ensures old(participants) != [] ==>
        var d := ElapsedSeconds(startTime, endTime, nowMs);
        && participants == ReconciledParticipants(old(participants), d)
        && ReportedPeak(old(participants), overallStats.maxConcurrentParticipants)
        && overallStats == StatsOf(old(participants), d, overallStats.maxConcurrentParticipants)
    {
      if |participants| == 0 {
        return;
      }
      var totalParticipants := |participants|;
      var maxConcurrent := MaxConcurrentParticipants(participants);
      var meetingDuration := ElapsedSeconds(startTime, endTime, nowMs);
      var clean, stateBreakdown, attentive, distracted, absent, totalTime := SanitizeAndSum(participants);

      if meetingDuration > 0 && totalTime > meetingDuration {
        stateBreakdown := Rescale(stateBreakdown, meetingDuration, totalTime);
        attentive := Scale(attentive, meetingDuration, totalTime);
        distracted := Scale(distracted, meetingDuration, totalTime);
        absent := Scale(absent, meetingDuration, totalTime);
        clean := RescaleParticipants(clean, meetingDuration, totalTime);
        totalTime := meetingDuration;
      }

      var averageAttention := AverageAttention(attentive, totalTime);
      ReconcileKeepsDistinctIds(participants, meetingDuration);
      participants := clean;
      overallStats := OverallStats(totalParticipants, maxConcurrent, averageAttention,
                                   attentive, distracted, absent, Some(stateBreakdown), meetingDuration);
    }
  }
}
