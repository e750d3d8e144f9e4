/**
 * The steps of one ingestion call (`saveAttentionSnapshot`,
 * models/Meeting.js:71-265) as functions of the meeting state before the
 * call: the memory guard, the buffer trim, the shared time increment, the
 * filtering of raw signals, participant registration, the `$inc` batch and
 * the change-only snapshot queue. The class in meeting.dfy performs them in
 * place and is proved to agree with these definitions.
 */
module Ingestion {
  import opened Wrappers
  import opened States
  import opened Normalize

  type UserId = string

  /** One entry of a snapshot buffer: a participant's state at a call's timestamp. */
  datatype Snapshot = Snapshot(userId: UserId, attentionState: State, timestamp: int)

  /** A participant sub-document. Timestamps are milliseconds since the epoch. */
  datatype Participant = Participant(
    userId: UserId,
    name: string,
    role: string,
    joinTime: Option<int>,
    leaveTime: Option<int>,
    attentionData: Buckets,
    snapshots: seq<Snapshot>)

  /** A user of the batch whose signal normalised to a canonical state. */
  datatype ValidEntry = ValidEntry(userId: UserId, state: State)

  const HeapLimitBytes: nat := 1800 * 1024 * 1024
  const MaxSnapshots: nat := 200
  const MaxSnapshotBatch: nat := 10
  const DefaultIncrement: nat := 5

  // ---------------------------------------------------------------------
  // Guard, timestamp, trim, increment
  // ---------------------------------------------------------------------

  /** `heapUsed / 1024 / 1024 > 1800`, with the heap size in bytes. */
  predicate UnderMemoryPressure(heapUsedBytes: nat) {
    heapUsedBytes > HeapLimitBytes
  }

  /** The byte comparison is exactly the source's comparison in megabytes. */
  lemma MemoryPressureInMegabytes(heapUsedBytes: nat)
    ensures UnderMemoryPressure(heapUsedBytes) <==> (heapUsedBytes as real) / 1024.0 / 1024.0 > 1800.0
  {
    var mb := (heapUsedBytes as real) / 1024.0 / 1024.0;
    assert mb * 1048576.0 == heapUsedBytes as real;
  }

  /** `new Date()` with its milliseconds set to 0. */
  function CallTimestamp(nowMs: int): (ts: int)
    ensures ts % 1000 == 0
    ensures ts <= nowMs < ts + 1000
  {
    nowMs - nowMs % 1000
  }

  /** `$push` of nothing with `$slice: -200`, issued only when the buffer holds more than 200. */
  function TrimBuffer(buf: seq<Snapshot>): (r: seq<Snapshot>)
    ensures |r| == if |buf| > MaxSnapshots then MaxSnapshots else |buf|
    ensures r == buf[|buf| - |r|..]
  {
    if |buf| > MaxSnapshots then buf[|buf| - MaxSnapshots..] else buf
  }

  /** Whole seconds since the last buffered snapshot, rounded down. */
  function GapSeconds(last: Snapshot, ts: int): int {
    (ts - last.timestamp) / 1000
  }

  /**
   * The seconds one call credits to every user it carries: 5 with an empty
   * buffer; otherwise the gap when it lies in [1, 10], 1 after a longer
   * silence, and 5 for a zero or negative gap.
   */
  function TimeIncrement(buf: seq<Snapshot>, ts: int): (inc: nat)
    ensures 1 <= inc <= 10
    ensures buf == [] ==> inc == DefaultIncrement
    ensures buf != [] ==>
      var gap := GapSeconds(buf[|buf| - 1], ts);
      (inc == gap <==> 1 <= gap <= 10) && (gap > 10 ==> inc == 1) && (gap < 1 ==> inc == DefaultIncrement)
  {
    if buf == [] then DefaultIncrement
    else
      var gap := GapSeconds(buf[|buf| - 1], ts);
      if 1 <= gap <= 10 then gap
      else if gap > 10 then 1
      else DefaultIncrement
  }

  // ---------------------------------------------------------------------
  // Filtering the batch
  // ---------------------------------------------------------------------

  /** The keys of the incoming object are distinct. */
  predicate DistinctKeys(batch: seq<(UserId, Signal)>) {
    forall i, j :: 0 <= i < j < |batch| ==> batch[i].0 != batch[j].0
  }

  predicate DistinctUsers(valid: seq<ValidEntry>) {
    forall i, j :: 0 <= i < j < |valid| ==> valid[i].userId != valid[j].userId
  }

  /** An entry survives when its user id is not the string "undefined" and its signal normalises. */
  predicate Accepted(uid: UserId, sig: Signal) {
    StateOf(sig).Some? && uid != "undefined"
  }

  /** `validAttentionData`: the accepted users with their canonical states, in batch order. */
  function ValidEntries(batch: seq<(UserId, Signal)>): seq<ValidEntry> {
    if batch == [] then []
    else
      var prev := ValidEntries(batch[..|batch| - 1]);
      var (uid, sig) := batch[|batch| - 1];
      if Accepted(uid, sig) then prev + [ValidEntry(uid, StateOf(sig).value)] else prev
  }

  /** The i-th user of the batch is accepted with state st. */
  predicate AcceptedAt(batch: seq<(UserId, Signal)>, i: int, e: ValidEntry)
    requires 0 <= i < |batch|
  {
    batch[i].0 == e.userId && Accepted(batch[i].0, batch[i].1) && StateOf(batch[i].1) == Some(e.state)
  }

  /** One more user of the batch adds its entry exactly when that user is accepted. */
  lemma ValidEntriesSnoc(batch: seq<(UserId, Signal)>, e: ValidEntry)
    requires batch != []
    ensures e in ValidEntries(batch) <==> e in ValidEntries(batch[..|batch| - 1]) || AcceptedAt(batch, |batch| - 1, e)
  {
  }

  /**
   * An entry is valid exactly when some user of the batch has that id, that id
   * is not "undefined", and that user's signal normalises to that state.
   */
  lemma {:induction false} ValidEntriesMembership(batch: seq<(UserId, Signal)>)
    ensures forall e :: e in ValidEntries(batch) <==> exists i :: 0 <= i < |batch| && AcceptedAt(batch, i, e)
  {
    if batch != [] {
      var n := |batch| - 1;
      var pre := batch[..n];
      ValidEntriesMembership(pre);
      forall e ensures e in ValidEntries(batch) <==> exists i :: 0 <= i < |batch| && AcceptedAt(batch, i, e) {
        ValidEntriesSnoc(batch, e);
        if e in ValidEntries(pre) {
          var i :| 0 <= i < |pre| && AcceptedAt(pre, i, e);
          assert pre[i] == batch[i];
          assert AcceptedAt(batch, i, e);
        }
        if exists i :: 0 <= i < |batch| && AcceptedAt(batch, i, e) {
          var i :| 0 <= i < |batch| && AcceptedAt(batch, i, e);
          if i < n {
            assert pre[i] == batch[i];
            assert AcceptedAt(pre, i, e);
          }
        }
      }
    }
  }

  /** Filtering keeps the batch's distinct keys distinct and never adds entries. */
  lemma {:induction false} ValidEntriesDistinct(batch: seq<(UserId, Signal)>)
    requires DistinctKeys(batch)
    ensures DistinctUsers(ValidEntries(batch))
    ensures |ValidEntries(batch)| <= |batch|
  {
    if batch != [] {
      var pre := batch[..|batch| - 1];
      assert DistinctKeys(pre);
      ValidEntriesDistinct(pre);
      ValidEntriesMembership(pre);
      var last := batch[|batch| - 1];
      if Accepted(last.0, last.1) {
        var v := ValidEntries(batch);
        forall i, j | 0 <= i < j < |v| ensures v[i].userId != v[j].userId {
          if j == |v| - 1 {
            assert v[i] in ValidEntries(pre);
            var k :| 0 <= k < |pre| && AcceptedAt(pre, k, v[i]);
            assert batch[k] == pre[k];
          }
        }
      }
    }
  }

  // ---------------------------------------------------------------------
  // Registration
  // ---------------------------------------------------------------------

  function Ids(ps: seq<Participant>): seq<UserId> {
    seq(|ps|, i requires 0 <= i < |ps| => ps[i].userId)
  }

  predicate DistinctIds(ps: seq<Participant>) {
    forall i, j :: 0 <= i < j < |ps| ==> ps[i].userId != ps[j].userId
  }

  function Users(valid: seq<ValidEntry>): seq<UserId> {
    seq(|valid|, i requires 0 <= i < |valid| => valid[i].userId)
  }

  /** The participant pushed for an unseen user: all buckets 0, no snapshots, joined now. */
  function NewParticipant(uid: UserId, ts: int): Participant {
    Participant(uid, "Anonymous", "student", Some(ts), None, Zero, [])
  }

  /** `participantUpdates`: one new participant per valid user not yet in the meeting, in batch order. */
  function Newcomers(ps: seq<Participant>, valid: seq<ValidEntry>, ts: int): seq<Participant> {
    if valid == [] then []
    else
      var prev := Newcomers(ps, valid[..|valid| - 1], ts);
      var uid := valid[|valid| - 1].userId;
      if uid in Ids(ps) then prev else prev + [NewParticipant(uid, ts)]
  }

  /**
   * Registration adds exactly the valid users that were not participants,
   * each once, each a fresh participant joined at the call's timestamp.
   */
  lemma {:induction false} NewcomersSpec(ps: seq<Participant>, valid: seq<ValidEntry>, ts: int)
    requires DistinctUsers(valid)
    ensures var n := Newcomers(ps, valid, ts);
      && (forall k :: 0 <= k < |n| ==> n[k] == NewParticipant(n[k].userId, ts))
      && (forall u :: u in Ids(n) <==> u in Users(valid) && u !in Ids(ps))
      && DistinctIds(n)
  {
    if valid != [] {
      var pre := valid[..|valid| - 1];
      NewcomersSpec(ps, pre, ts);
      var uid := valid[|valid| - 1].userId;
      var n := Newcomers(ps, valid, ts);
      var m := Newcomers(ps, pre, ts);
      assert Users(valid) == Users(pre) + [uid];
      assert uid !in Users(pre);
      if uid !in Ids(ps) {
        assert n == m + [NewParticipant(uid, ts)];
        assert Ids(n) == Ids(m) + [uid];
        forall i, j | 0 <= i < j < |n| ensures n[i].userId != n[j].userId {
          if j == |n| - 1 {
            assert Ids(m)[i] == n[i].userId;
          }
        }
      }
    }
  }

  /** After registration every valid user is a participant, and ids stay distinct. */
  lemma RegistrationSpec(ps: seq<Participant>, valid: seq<ValidEntry>, ts: int)
    requires DistinctIds(ps) && DistinctUsers(valid)
    ensures var all := ps + Newcomers(ps, valid, ts);
      DistinctIds(all) && forall e :: e in valid ==> e.userId in Ids(all)
  {
    NewcomersSpec(ps, valid, ts);
    var n := Newcomers(ps, valid, ts);
    var all := ps + n;
    forall i, j | 0 <= i < j < |all| ensures all[i].userId != all[j].userId {
      if j < |ps| {
        assert all[i] == ps[i] && all[j] == ps[j];
      } else if i < |ps| {
        assert all[j].userId == Ids(n)[j - |ps|];
        assert all[j].userId in Ids(n);
        assert all[i].userId == Ids(ps)[i];
      } else {
        assert all[i] == n[i - |ps|] && all[j] == n[j - |ps|];
      }
    }
    forall e | e in valid ensures e.userId in Ids(all) {
      var i :| 0 <= i < |valid| && valid[i] == e;
      assert Users(valid)[i] == e.userId;
      if e.userId in Ids(ps) {
        var k :| 0 <= k < |ps| && Ids(ps)[k] == e.userId;
        assert Ids(all)[k] == e.userId;
      } else {
        var k :| 0 <= k < |n| && Ids(n)[k] == e.userId;
        assert Ids(all)[|ps| + k] == e.userId;
      }
    }
  }

  // ---------------------------------------------------------------------
  // The $inc batch
  // ---------------------------------------------------------------------

  /** Index of the first participant with this user id (what the positional `$` operator selects). */
  function IndexOf(ps: seq<Participant>, uid: UserId): (r: Option<nat>)
    ensures r.Some? ==> r.value < |ps| && ps[r.value].userId == uid
                        && forall k :: 0 <= k < r.value ==> ps[k].userId != uid
    ensures r.None? <==> uid !in Ids(ps)
  {
    if ps == [] then None
    else if ps[0].userId == uid then
      assert Ids(ps)[0] == uid;
      Some(0)
    else
      var rest := IndexOf(ps[1..], uid);
      assert Ids(ps) == [ps[0].userId] + Ids(ps[1..]);
      if rest.None? then None else Some(rest.value + 1)
  }

  /** One `updateOne` of the bulk write: `$inc` the bucket of state st of the first participant with this id. */
  function Credit(ps: seq<Participant>, uid: UserId, st: State, k: int): seq<Participant> {
    match IndexOf(ps, uid)
    case None => ps
    case Some(i) => ps[i := ps[i].(attentionData := Add(ps[i].attentionData, st, k))]
  }

  /** The ordered bulk write of `batchUpdates`. */
  function CreditAll(ps: seq<Participant>, updates: seq<ValidEntry>, k: int): seq<Participant> {
    if updates == [] then ps
    else
      var u := updates[|updates| - 1];
      Credit(CreditAll(ps, updates[..|updates| - 1], k), u.userId, u.state, k)
  }

  /** The state the batch carries for a user, if the user is in it. */
  function StateFor(valid: seq<ValidEntry>, uid: UserId): (r: Option<State>)
    ensures r.None? <==> uid !in Users(valid)
  {
    if valid == [] then None
    else if valid[|valid| - 1].userId == uid then
      assert Users(valid)[|valid| - 1] == uid;
      Some(valid[|valid| - 1].state)
    else
      assert Users(valid) == Users(valid[..|valid| - 1]) + [valid[|valid| - 1].userId];
      StateFor(valid[..|valid| - 1], uid)
  }

  /** A participant after the bulk write: its bucket for st raised by k, when the batch carries st for it. */
  function Bumped(p: Participant, st: Option<State>, k: int): Participant {
    match st
    case None => p
    case Some(s) => p.(attentionData := Add(p.attentionData, s, k))
  }

  /**
   * With distinct participants and users, the bulk write raises the bucket of
   * each listed user's state by exactly k and changes nothing else: no other
   * bucket, no other participant, no other field.
   */
  lemma {:induction false} CreditAllSpec(ps: seq<Participant>, updates: seq<ValidEntry>, k: int)
    requires DistinctIds(ps) && DistinctUsers(updates)
    ensures var r := CreditAll(ps, updates, k);
      |r| == |ps| && forall i :: 0 <= i < |ps| ==> r[i] == Bumped(ps[i], StateFor(updates, ps[i].userId), k)
  {
    if updates != [] {
      var pre := updates[..|updates| - 1];
      var u := updates[|updates| - 1];
      CreditAllSpec(ps, pre, k);
      var prev := CreditAll(ps, pre, k);
      assert Users(updates) == Users(pre) + [u.userId];
      assert u.userId !in Users(pre);
      assert forall i :: 0 <= i < |ps| ==> prev[i].userId == ps[i].userId;
      match IndexOf(prev, u.userId)
      case None =>
        forall i | 0 <= i < |ps| ensures ps[i].userId != u.userId {
          assert Ids(prev)[i] == ps[i].userId;
        }
      case Some(j) =>
        forall i | 0 <= i < |ps| && i != j ensures ps[i].userId != u.userId {
          if i < j {
          } else {
            assert ps[j].userId == u.userId;
          }
        }
    }
  }

  /** The bulk write keeps every participant's id. */
  lemma {:induction false} CreditAllKeepsIds(ps: seq<Participant>, updates: seq<ValidEntry>, k: int)
    ensures var r := CreditAll(ps, updates, k);
      |r| == |ps| && forall i :: 0 <= i < |ps| ==> r[i].userId == ps[i].userId
  {
    if updates != [] {
      CreditAllKeepsIds(ps, updates[..|updates| - 1], k);
    }
  }

  // ---------------------------------------------------------------------
  // Change-only snapshots
  // ---------------------------------------------------------------------

  /** The JavaScript values the change test compares. */
  datatype JsValue = Undefined | Str(s: string) | StateRecord(attentionState: State)

  /** `_lastStates`: each user of the previous accepted batch with its state. */
  function LastStatesOf(valid: seq<ValidEntry>): map<UserId, State> {
    if valid == [] then map[]
    else LastStatesOf(valid[..|valid| - 1])[valid[|valid| - 1].userId := valid[|valid| - 1].state]
  }

  /**
   * `this._lastStates[userId] !== normalizedState` as written: the map holds
   * the record `{ attentionState }` stored in `validAttentionData`, which is
   * never strictly equal to a string.
   */
  predicate ChangedAsWritten(last: Option<map<UserId, State>>, e: ValidEntry) {
    last.None?
    || (if e.userId in last.value then StateRecord(last.value[e.userId]) else Undefined) != Str(Name(e.state))
  }

  /** The change test as intended: compare the recorded state itself. */
  predicate Changed(last: Option<map<UserId, State>>, e: ValidEntry) {
    last.None?
    || (if e.userId in last.value then Str(Name(last.value[e.userId])) else Undefined) != Str(Name(e.state))
  }

  /** Snapshots at ts, in batch order, for the entries that pass a change test. */
  function QueueWhere(valid: seq<ValidEntry>, changed: ValidEntry -> bool, ts: int): seq<Snapshot> {
    if valid == [] then []
    else
      var e := valid[|valid| - 1];
      QueueWhere(valid[..|valid| - 1], changed, ts) + (if changed(e) then [Snapshot(e.userId, e.state, ts)] else [])
  }

  lemma {:induction false} QueueWhereNone(valid: seq<ValidEntry>, changed: ValidEntry -> bool, ts: int)
    requires forall e :: e in valid ==> !changed(e)
    ensures QueueWhere(valid, changed, ts) == []
  {
    if valid != [] {
      QueueWhereNone(valid[..|valid| - 1], changed, ts);
    }
  }

  /** `snapshotUpdates` as the source builds it. */
  function SnapshotQueueAsWritten(valid: seq<ValidEntry>, last: Option<map<UserId, State>>, ts: int): seq<Snapshot> {
    QueueWhere(valid, e => ChangedAsWritten(last, e), ts)
  }

  /** `snapshotUpdates` with the intended change test; the meeting model uses this one. */
  function SnapshotQueue(valid: seq<ValidEntry>, last: Option<map<UserId, State>>, ts: int): seq<Snapshot> {
    QueueWhere(valid, e => Changed(last, e), ts)
  }

  /** One snapshot per valid entry, in order. */
  function AllSnapshots(valid: seq<ValidEntry>, ts: int): seq<Snapshot> {
    seq(|valid|, i requires 0 <= i < |valid| => Snapshot(valid[i].userId, valid[i].state, ts))
  }

  /** As written, the change test never holds back a snapshot: every valid user is queued on every call. */
  lemma {:induction false} AsWrittenQueuesEveryEntry(valid: seq<ValidEntry>, last: Option<map<UserId, State>>, ts: int)
    ensures SnapshotQueueAsWritten(valid, last, ts) == AllSnapshots(valid, ts)
  {
    if valid != [] {
      AsWrittenQueuesEveryEntry(valid[..|valid| - 1], last, ts);
    }
  }

  /** Re-polling one user in an unchanged state: the code as written queues a duplicate snapshot, the intended test none. */
  lemma RepeatedPollQueuesDuplicateAsWritten(ts: int)
    ensures var valid := [ValidEntry("u1", Attentive)];
            var last := Some(LastStatesOf(valid));
            SnapshotQueueAsWritten(valid, last, ts) == [Snapshot("u1", Attentive, ts)]
            && SnapshotQueue(valid, last, ts) == []
  {
    var valid := [ValidEntry("u1", Attentive)];
    assert valid[..0] == [];
    var last := Some(LastStatesOf(valid));
    assert last == Some(map["u1" := Attentive]);
    assert ChangedAsWritten(last, valid[0]);
    assert !Changed(last, valid[0]);
    assert SnapshotQueueAsWritten(valid, last, ts)
        == QueueWhere([], e => ChangedAsWritten(last, e), ts) + [Snapshot("u1", Attentive, ts)];
    assert SnapshotQueue(valid, last, ts) == QueueWhere([], e => Changed(last, e), ts) + [];
  }

  lemma NameInjective(a: State, b: State)
    ensures Name(a) == Name(b) ==> a == b
  {
  }

  /** The intended change test holds when there is no previous batch, the user was not in it, or its state differs. */
  lemma ChangedMeaning(last: Option<map<UserId, State>>, e: ValidEntry)
    ensures Changed(last, e) <==> last.None? || e.userId !in last.value || last.value[e.userId] != e.state
  {
    if last.Some? && e.userId in last.value {
      NameInjective(last.value[e.userId], e.state);
    }
  }

  /**
   * idx lists, in increasing order, the positions in valid of the entries
   * that pass the change test, and q holds one snapshot at ts for each of
   * them, in that order.
   */
  predicate QueuedAt(valid: seq<ValidEntry>, last: Option<map<UserId, State>>, ts: int, q: seq<Snapshot>, idx: seq<nat>) {
    && |idx| == |q|
    && (forall k :: 0 <= k < |idx| ==>
          idx[k] < |valid| && Changed(last, valid[idx[k]])
          && q[k] == Snapshot(valid[idx[k]].userId, valid[idx[k]].state, ts))
    && (forall k, l :: 0 <= k < l < |idx| ==> idx[k] < idx[l])
    && (forall i :: 0 <= i < |valid| && Changed(last, valid[i]) ==> i in idx)
  }

  lemma {:induction false} SnapshotQueueIndices(valid: seq<ValidEntry>, last: Option<map<UserId, State>>, ts: int)
    returns (idx: seq<nat>)
    ensures QueuedAt(valid, last, ts, SnapshotQueue(valid, last, ts), idx)
  {
    if valid == [] {
      idx := [];
    } else {
      var n := |valid| - 1;
      var pre := valid[..n];
      var idx0 := SnapshotQueueIndices(pre, last, ts);
      assert forall i :: 0 <= i < n ==> pre[i] == valid[i];
      if Changed(last, valid[n]) {
        idx := idx0 + [n];
      } else {
        idx := idx0;
      }
    }
  }

  lemma {:induction false} SnapshotQueueMembers(valid: seq<ValidEntry>, last: Option<map<UserId, State>>, ts: int)
    ensures var q := SnapshotQueue(valid, last, ts);
      |q| <= |valid|
      && forall s :: s in q <==> exists e :: e in valid && Changed(last, e) && s == Snapshot(e.userId, e.state, ts)
  {
    if valid != [] {
      var pre := valid[..|valid| - 1];
      SnapshotQueueMembers(pre, last, ts);
      assert valid == pre + [valid[|valid| - 1]];
    }
  }

  /**
   * The intended queue holds, in batch order, one snapshot at ts for each
   * valid entry whose state changed, and nothing else.
   */
  lemma SnapshotQueueSpec(valid: seq<ValidEntry>, last: Option<map<UserId, State>>, ts: int)
    ensures var q := SnapshotQueue(valid, last, ts);
      |q| <= |valid|
      && (forall s :: s in q <==> exists e :: e in valid && Changed(last, e) && s == Snapshot(e.userId, e.state, ts))
      && exists idx :: QueuedAt(valid, last, ts, q, idx)
  {
    SnapshotQueueMembers(valid, last, ts);
    var idx := SnapshotQueueIndices(valid, last, ts);
  }

  /** `_lastStates` after a call: exactly the valid users, each with its state of this call. */
  lemma {:induction false} LastStatesOfSpec(valid: seq<ValidEntry>)
    requires DistinctUsers(valid)
    ensures forall e :: e in valid ==> e.userId in LastStatesOf(valid) && LastStatesOf(valid)[e.userId] == e.state
    ensures forall u :: u in LastStatesOf(valid) ==> exists e :: e in valid && e.userId == u
  {
    if valid != [] {
      var pre := valid[..|valid| - 1];
      LastStatesOfSpec(pre);
      forall e | e in valid ensures e.userId in LastStatesOf(valid) && LastStatesOf(valid)[e.userId] == e.state {
        if e != valid[|valid| - 1] {
          var i :| 0 <= i < |valid| && valid[i] == e;
          assert e in pre;
        }
      }
      forall u | u in LastStatesOf(valid) ensures exists e :: e in valid && e.userId == u {
        if u != valid[|valid| - 1].userId {
          var e :| e in pre && e.userId == u;
          assert e in valid;
        }
      }
    }
  }

  /** Polling the same users in the same states again queues no snapshot (intended behaviour). */
  lemma RepeatedPollQueuesNothing(valid: seq<ValidEntry>, ts: int)
    requires DistinctUsers(valid)
    ensures SnapshotQueue(valid, Some(LastStatesOf(valid)), ts) == []
  {
    LastStatesOfSpec(valid);
    var last := Some(LastStatesOf(valid));
    forall e | e in valid ensures !Changed(last, e) {
      ChangedMeaning(last, e);
    }
    QueueWhereNone(valid, e => Changed(last, e), ts);
  }

  // ---------------------------------------------------------------------
  // Buffer length
  // ---------------------------------------------------------------------

  /**
   * The trim runs before the append, so after a call the buffer holds
   * min(old length, 200) plus the queued snapshots, which can exceed 200.
   */
  lemma BufferLengthAfterCall(buf: seq<Snapshot>, queue: seq<Snapshot>)
    ensures |TrimBuffer(buf) + queue| == (if |buf| > MaxSnapshots then MaxSnapshots else |buf|) + |queue|
    ensures |TrimBuffer(buf) + queue| <= MaxSnapshots + |queue|
    ensures |buf| >= MaxSnapshots && queue != [] ==> |TrimBuffer(buf) + queue| > MaxSnapshots
  {
  }
}
