/**
 * The counting half of the log analytics (routes/logs.js:91-140): display
 * names from the meeting's participants, the global per-state breakdown,
 * and one entry per user with its log count, its state counts, and the
 * timestamps of its first and last log. Each is a left fold over the logs
 * in the order the store returns them, written as a function of the prefix
 * read so far, and characterised by lemmas in terms of the logs themselves.
 */
module LogUsers {
  import opened States
  import opened Ingestion
  import opened LogPost
  import opened Sorting

  // ---------------------------------------------------------------------
  // Display names
  // ---------------------------------------------------------------------

  /** `participantNameMap`: participants with a userId and a name, later ones overwriting earlier ones. */
  function NameMap(ps: seq<Participant>): (r: map<UserId, string>)
    ensures "" !in r
  {
    if ps == [] then map[]
    else
      var m := NameMap(ps[..|ps| - 1]);
      var p := ps[|ps| - 1];
      if p.userId != "" && p.name != "" then m[p.userId := p.name] else m
  }

  /** The participant name for the log's user, else the log's own user name, else "Anonymous". */
  function DisplayName(names: map<UserId, string>, log: LogEntry): string {
    if log.userId in names && names[log.userId] != "" then names[log.userId]
    else if log.userName != "" then log.userName
    else DefaultUserName
  }

  /** A user is in the name map exactly when some participant has that userId and a name. */
  lemma {:induction false} NameMapDomain(ps: seq<Participant>, u: UserId)
    ensures u in NameMap(ps) <==> u != "" && exists i :: 0 <= i < |ps| && ps[i].userId == u && ps[i].name != ""
    ensures u in NameMap(ps) ==> NameMap(ps)[u] != ""
  {
    if ps != [] {
      var pre := ps[..|ps| - 1];
      NameMapDomain(pre, u);
      if u != "" && exists i :: 0 <= i < |ps| && ps[i].userId == u && ps[i].name != "" {
        var i :| 0 <= i < |ps| && ps[i].userId == u && ps[i].name != "";
        if i < |pre| {
          assert pre[i] == ps[i];
        }
      }
      if exists i :: 0 <= i < |pre| && pre[i].userId == u && pre[i].name != "" {
        var i :| 0 <= i < |pre| && pre[i].userId == u && pre[i].name != "";
        assert ps[i] == pre[i];
      }
    }
  }

  /** The name map holds the name of the last participant with that userId and a name. */
  lemma {:induction false} NameMapLast(ps: seq<Participant>, u: UserId)
    requires u in NameMap(ps)
    ensures exists i :: (0 <= i < |ps| && ps[i].userId == u && ps[i].name == NameMap(ps)[u]
                         && forall j :: i < j < |ps| ==> ps[j].userId != u || ps[j].name == "")
  {
    var pre := ps[..|ps| - 1];
    var p := ps[|ps| - 1];
    if p.userId == u && u != "" && p.name != "" {
      assert ps[|ps| - 1].name == NameMap(ps)[u];
    } else {
      assert u in NameMap(pre) && NameMap(ps)[u] == NameMap(pre)[u];
      NameMapLast(pre, u);
      var i :| 0 <= i < |pre| && pre[i].userId == u && pre[i].name == NameMap(pre)[u]
               && forall j :: i < j < |pre| ==> pre[j].userId != u || pre[j].name == "";
      assert ps[i] == pre[i];
      forall j | i < j < |ps|
        ensures ps[j].userId != u || ps[j].name == ""
      {
        if j < |pre| {
          assert ps[j] == pre[j];
        }
      }
    }
  }

  /** Name resolution never yields an empty name, and prefers the participant's name. */
  lemma DisplayNamePreference(ps: seq<Participant>, log: LogEntry)
    ensures DisplayName(NameMap(ps), log) != ""
    ensures (exists i :: 0 <= i < |ps| && ps[i].userId == log.userId && ps[i].name != "") && log.userId != "" ==>
      log.userId in NameMap(ps) && DisplayName(NameMap(ps), log) == NameMap(ps)[log.userId]
    ensures (forall i :: 0 <= i < |ps| ==> ps[i].userId != log.userId || ps[i].name == "") ==>
      DisplayName(NameMap(ps), log) == (if log.userName != "" then log.userName else DefaultUserName)
  {
    NameMapDomain(ps, log.userId);
  }

  // ---------------------------------------------------------------------
  // The global breakdown
  // ---------------------------------------------------------------------

  function LogTime(log: LogEntry): int {
    log.timestamp
  }

  /** `stateBreakdown`: how many logs carry each state. */
  function Breakdown(logs: seq<LogEntry>): Buckets {
    if logs == [] then Zero
    else Add(Breakdown(logs[..|logs| - 1]), logs[|logs| - 1].attentionState, 1)
  }

  /** Every log is counted under exactly one state, so the breakdown sums to the number of logs. */
  lemma {:induction false} BreakdownTotal(logs: seq<LogEntry>)
    ensures Total(Breakdown(logs)) == |logs|
    ensures NonNegative(Breakdown(logs))
  {
    if logs != [] {
      BreakdownTotal(logs[..|logs| - 1]);
    }
  }

  lemma BreakdownSnoc(logs: seq<LogEntry>, log: LogEntry)
    ensures Breakdown(logs + [log]) == Add(Breakdown(logs), log.attentionState, 1)
  {
    assert (logs + [log])[..|logs|] == logs;
  }

  // ---------------------------------------------------------------------
  // Per-user entries
  // ---------------------------------------------------------------------

  /** One value of `participantData`, without the attention-percentage fields. */
  datatype UserEntry = UserEntry(
    userId: UserId,
    userName: string,
    totalLogs: nat,
    attentionStates: Buckets,
    firstSeen: int,
    lastSeen: int)

  /** The entry created at a user's first log: state counts copied from the running breakdown. */
  function FreshEntry(names: map<UserId, string>, log: LogEntry, running: Buckets): UserEntry {
    UserEntry(log.userId, DisplayName(names, log), 0, running, log.timestamp, log.timestamp)
  }

  /** The counting step of one log on its user's entry. */
  function Count(e: UserEntry, log: LogEntry): UserEntry {
    e.(totalLogs := e.totalLogs + 1,
       attentionStates := Add(e.attentionStates, log.attentionState, 1),
       lastSeen := log.timestamp)
  }

  /** `participantData` after the given logs. */
  function UserTable(logs: seq<LogEntry>, names: map<UserId, string>): map<UserId, UserEntry> {
    if logs == [] then map[]
    else
      var pre := logs[..|logs| - 1];
      AddToTable(UserTable(pre, names), names, logs[|logs| - 1], Breakdown(pre))
  }

  /**
   * One step of the counting forEach on `participantData`: create the log's
   * user entry, seeded with the running breakdown, if it is new, then count
   * the log in it.
   */
  function AddToTable(m: map<UserId, UserEntry>, names: map<UserId, string>, log: LogEntry, running: Buckets)
    : map<UserId, UserEntry>
  {
    var m' := if log.userId in m then m else m[log.userId := FreshEntry(names, log, running)];
    m'[log.userId := Count(m'[log.userId], log)]
  }

  /** The keys of `participantData` in insertion order: each user at its first log. */
  function UserOrder(logs: seq<LogEntry>): seq<UserId> {
    if logs == [] then [] else AddUser(UserOrder(logs[..|logs| - 1]), logs[|logs| - 1])
  }

  /** One step of the insertion order of `participantData`'s keys. */
  function AddUser(order: seq<UserId>, log: LogEntry): seq<UserId> {
    if log.userId in order then order else order + [log.userId]
  }

  /** The tables after one more log are one counting step from the tables before it. */
  lemma UserStep(logs: seq<LogEntry>, names: map<UserId, string>, i: nat)
    requires i < |logs|
    ensures UserTable(logs[..i + 1], names) == AddToTable(UserTable(logs[..i], names), names, logs[i], Breakdown(logs[..i]))
    ensures UserOrder(logs[..i + 1]) == AddUser(UserOrder(logs[..i]), logs[i])
    ensures Breakdown(logs[..i + 1]) == Add(Breakdown(logs[..i]), logs[i].attentionState, 1)
  {
    assert logs[..i + 1][..i] == logs[..i];
  }

  /** Some log belongs to u. */
  predicate HasLogs(logs: seq<LogEntry>, u: UserId) {
    exists i :: 0 <= i < |logs| && logs[i].userId == u
  }

  /** The logs of one user, in order. */
  function OfUser(logs: seq<LogEntry>, u: UserId): seq<LogEntry> {
    if logs == [] then []
    else
      var rest := OfUser(logs[..|logs| - 1], u);
      if logs[|logs| - 1].userId == u then rest + [logs[|logs| - 1]] else rest
  }

  /** The users in order of first appearance are distinct, and are exactly the users with logs. */
  lemma {:induction false} UserOrderSpec(logs: seq<LogEntry>)
    ensures forall i, j :: 0 <= i < j < |UserOrder(logs)| ==> UserOrder(logs)[i] != UserOrder(logs)[j]
    ensures forall u :: u in UserOrder(logs) <==> HasLogs(logs, u)
  {
    if logs != [] {
      var pre := logs[..|logs| - 1];
      UserOrderSpec(pre);
      forall u ensures HasLogs(logs, u) <==> HasLogs(pre, u) || logs[|logs| - 1].userId == u {
        if HasLogs(pre, u) {
          var i :| 0 <= i < |pre| && pre[i].userId == u;
          assert logs[i] == pre[i];
        }
        if HasLogs(logs, u) && logs[|logs| - 1].userId != u {
          var i :| 0 <= i < |logs| && logs[i].userId == u;
          assert pre[i] == logs[i];
        }
      }
    }
  }

  /** `participantData` has a key for exactly the users in the insertion order, each entry under its own id. */
  lemma {:induction false} UserTableKeys(logs: seq<LogEntry>, names: map<UserId, string>)
    ensures forall u :: u in UserTable(logs, names) <==> u in UserOrder(logs)
    ensures forall u :: u in UserTable(logs, names) ==> UserTable(logs, names)[u].userId == u
  {
    if logs != [] {
      UserTableKeys(logs[..|logs| - 1], names);
    }
  }

  /** A user without logs among these has none of its own. */
  lemma {:induction false} OfUserEmpty(logs: seq<LogEntry>, u: UserId)
    requires u !in UserOrder(logs)
    ensures OfUser(logs, u) == []
  {
    if logs != [] {
      OfUserEmpty(logs[..|logs| - 1], u);
    }
  }

  /** Position of the user's first log. */
  function FirstIndex(logs: seq<LogEntry>, u: UserId): (i: nat)
    requires u in UserOrder(logs)
    ensures i < |logs| && logs[i].userId == u
    ensures forall j :: 0 <= j < i ==> logs[j].userId != u
  {
    var pre := logs[..|logs| - 1];
    if u in UserOrder(pre) then
      var i := FirstIndex(pre, u);
      assert logs[i] == pre[i];
      assert forall j :: 0 <= j < i ==> logs[j] == pre[j];
      i
    else
      UserOrderSpec(pre);
      assert forall j :: 0 <= j < |pre| ==> logs[j] == pre[j];
      |logs| - 1
  }

  /** Position of the user's last log. */
  function LastIndex(logs: seq<LogEntry>, u: UserId): (i: nat)
    requires u in UserOrder(logs)
    ensures i < |logs| && logs[i].userId == u
    ensures forall j :: i < j < |logs| ==> logs[j].userId != u
  {
    var pre := logs[..|logs| - 1];
    if logs[|logs| - 1].userId == u then |logs| - 1
    else
      var i := LastIndex(pre, u);
      assert logs[i] == pre[i];
      assert forall j :: i < j < |pre| ==> logs[j] == pre[j];
      i
  }

  /**
   * Each user's entry: its log count is the number of its logs, firstSeen
   * and the user name come from its first log, lastSeen from its last log.
   */
  lemma {:induction false} UserEntrySpec(logs: seq<LogEntry>, names: map<UserId, string>, u: UserId)
    requires u in UserOrder(logs)
    ensures u in UserTable(logs, names)
    ensures var e := UserTable(logs, names)[u];
      && e.totalLogs == |OfUser(logs, u)|
      && e.firstSeen == logs[FirstIndex(logs, u)].timestamp
      && e.userName == DisplayName(names, logs[FirstIndex(logs, u)])
      && e.lastSeen == logs[LastIndex(logs, u)].timestamp
  {
    UserTableKeys(logs, names);
    var pre := logs[..|logs| - 1];
    var log := logs[|logs| - 1];
    UserTableKeys(pre, names);
    if u in UserOrder(pre) {
      UserEntrySpec(pre, names, u);
    } else {
      OfUserEmpty(pre, u);
    }
  }

  /**
   * The seeding at routes/logs.js:124: a user's state counts are the
   * global counts of the logs before its first one plus the counts of its
   * own logs, so they exceed its own log count by that earlier total.
   */
  lemma {:induction false} UserStatesSeeded(logs: seq<LogEntry>, names: map<UserId, string>, u: UserId)
    requires u in UserOrder(logs)
    ensures u in UserTable(logs, names)
    ensures UserTable(logs, names)[u].attentionStates
      == Plus(Breakdown(logs[..FirstIndex(logs, u)]), Breakdown(OfUser(logs, u)))
  {
    UserTableKeys(logs, names);
    var pre := logs[..|logs| - 1];
    if u in UserOrder(pre) {
      UserStatesSeeded(pre, names, u);
      SeededStep(logs, names, u);
    } else {
      SeededFirst(logs, names, u);
    }
  }

  /** The inductive step for a user already seen before the last log. */
  lemma SeededStep(logs: seq<LogEntry>, names: map<UserId, string>, u: UserId)
    requires logs != [] && u in UserOrder(logs[..|logs| - 1])
    requires u in UserTable(logs[..|logs| - 1], names)
    requires var pre := logs[..|logs| - 1];
      UserTable(pre, names)[u].attentionStates == Plus(Breakdown(pre[..FirstIndex(pre, u)]), Breakdown(OfUser(pre, u)))
    ensures u in UserTable(logs, names)
    ensures UserTable(logs, names)[u].attentionStates
      == Plus(Breakdown(logs[..FirstIndex(logs, u)]), Breakdown(OfUser(logs, u)))
  {
    var pre := logs[..|logs| - 1];
    var log := logs[|logs| - 1];
    assert logs[..FirstIndex(logs, u)] == pre[..FirstIndex(pre, u)];
    if log.userId == u {
      assert OfUser(logs, u) == OfUser(pre, u) + [log];
      BreakdownSnoc(OfUser(pre, u), log);
      PlusAdd(Breakdown(pre[..FirstIndex(pre, u)]), Breakdown(OfUser(pre, u)), log.attentionState);
    }
  }

  /** The case of a user whose first log is the last one. */
  lemma SeededFirst(logs: seq<LogEntry>, names: map<UserId, string>, u: UserId)
    requires logs != [] && u in UserOrder(logs) && u !in UserOrder(logs[..|logs| - 1])
    ensures u in UserTable(logs, names)
    ensures UserTable(logs, names)[u].attentionStates
      == Plus(Breakdown(logs[..FirstIndex(logs, u)]), Breakdown(OfUser(logs, u)))
  {
    var pre := logs[..|logs| - 1];
    var log := logs[|logs| - 1];
    UserTableKeys(pre, names);
    OfUserEmpty(pre, u);
    assert OfUser(logs, u) == [log];
    BreakdownSnoc([], log);
    assert logs[..FirstIndex(logs, u)] == pre;
    PlusAdd(Breakdown(pre), Zero, log.attentionState);
    assert Plus(Breakdown(pre), Zero) == Breakdown(pre);
  }

  /** Counting one more log commutes with adding the earlier counts. */
  lemma PlusAdd(a: Buckets, b: Buckets, s: State)
    ensures Plus(a, Add(b, s, 1)) == Add(Plus(a, b), s, 1)
  {
    match s
    case Attentive =>
    case Active =>
    case LookingAway =>
    case Drowsy =>
    case Absent =>
    case Darkness =>
  }

  /**
   * A user's state counts sum to its own log count plus the number of
   * logs before its first one: they equal its log count only for the
   * first user.
   */
  lemma UserStatesTotal(logs: seq<LogEntry>, names: map<UserId, string>, u: UserId)
    requires u in UserOrder(logs)
    ensures u in UserTable(logs, names)
    ensures Total(UserTable(logs, names)[u].attentionStates)
      == FirstIndex(logs, u) + UserTable(logs, names)[u].totalLogs
  {
    UserStatesSeeded(logs, names, u);
    UserEntrySpec(logs, names, u);
    BreakdownTotal(logs[..FirstIndex(logs, u)]);
    BreakdownTotal(OfUser(logs, u));
  }

  /** The bookkeeping of two logs of two different users. */
  lemma TwoUsers(a: LogEntry, b: LogEntry)
    requires a.userId != b.userId
    ensures UserOrder([a, b]) == [a.userId, b.userId]
    ensures FirstIndex([a, b], b.userId) == 1 && [a, b][..1] == [a]
    ensures OfUser([a, b], b.userId) == [b]
  {
    assert [a, b][..1] == [a];
    assert [a][..0] == [];
    assert UserOrder([a]) == [a.userId];
    assert OfUser([a], b.userId) == [];
  }

  /**
   * Two logs of two users: the second user has one log, yet its state
   * counts sum to 2 because they start from the first user's log.
   */
  lemma SecondUserSeeded(a: LogEntry, b: LogEntry, names: map<UserId, string>)
    requires a.userId != b.userId
    ensures b.userId in UserTable([a, b], names)
    ensures UserTable([a, b], names)[b.userId].totalLogs == 1
    ensures Total(UserTable([a, b], names)[b.userId].attentionStates) == 2
  {
    TwoUsers(a, b);
    UserEntrySpec([a, b], names, b.userId);
    UserStatesTotal([a, b], names, b.userId);
  }

  /**
   * On logs in ascending time order, firstSeen and lastSeen are the
   * earliest and the latest timestamp among the user's logs.
   */
  lemma SeenBounds(logs: seq<LogEntry>, names: map<UserId, string>, u: UserId)
    requires SortedBy(logs, LogTime)
    requires u in UserOrder(logs)
    ensures u in UserTable(logs, names)
    ensures var e := UserTable(logs, names)[u];
      && e.firstSeen <= e.lastSeen
      && forall i :: 0 <= i < |logs| && logs[i].userId == u ==> e.firstSeen <= logs[i].timestamp <= e.lastSeen
  {
    UserEntrySpec(logs, names, u);
    var first, last := FirstIndex(logs, u), LastIndex(logs, u);
    assert LogTime(logs[first]) <= LogTime(logs[last]);
  }

  // ---------------------------------------------------------------------
  // Totals over users
  // ---------------------------------------------------------------------

  /** Sum of the log counts of the listed users. */
  function SumTotals(order: seq<UserId>, table: map<UserId, UserEntry>): int
    requires forall u :: u in order ==> u in table
  {
    if order == [] then 0
    else SumTotals(order[..|order| - 1], table) + table[order[|order| - 1]].totalLogs
  }

  /** Changing the entry of an unlisted user leaves the sum alone. */
  lemma {:induction false} SumTotalsFrame(order: seq<UserId>, table: map<UserId, UserEntry>, u: UserId, e: UserEntry)
    requires forall v :: v in order ==> v in table
    requires u !in order
    ensures SumTotals(order, table[u := e]) == SumTotals(order, table)
  {
    if order != [] {
      SumTotalsFrame(order[..|order| - 1], table, u, e);
    }
  }

  /** Adding one to a listed user's count adds one to the sum. */
  lemma {:induction false} SumTotalsBump(order: seq<UserId>, table: map<UserId, UserEntry>, u: UserId, e: UserEntry)
    requires forall v :: v in order ==> v in table
    requires forall i, j :: 0 <= i < j < |order| ==> order[i] != order[j]
    requires u in order && u in table && e.totalLogs == table[u].totalLogs + 1
    ensures SumTotals(order, table[u := e]) == SumTotals(order, table) + 1
  {
    var pre := order[..|order| - 1];
    if order[|order| - 1] == u {
      assert u !in pre;
      SumTotalsFrame(pre, table, u, e);
    } else {
      assert u in pre;
      SumTotalsBump(pre, table, u, e);
    }
  }

  /** The users' log counts add up to the number of logs. */
  lemma {:induction false} SumOfUserLogs(logs: seq<LogEntry>, names: map<UserId, string>)
    ensures forall u :: u in UserOrder(logs) ==> u in UserTable(logs, names)
    ensures SumTotals(UserOrder(logs), UserTable(logs, names)) == |logs|
  {
    UserTableKeys(logs, names);
    if logs != [] {
      var pre := logs[..|logs| - 1];
      var log := logs[|logs| - 1];
      SumOfUserLogs(pre, names);
      UserTableKeys(pre, names);
      UserOrderSpec(pre);
      var m := UserTable(pre, names);
      var order := UserOrder(pre);
      if log.userId in m {
        SumTotalsBump(order, m, log.userId, Count(m[log.userId], log));
      } else {
        var first := FreshEntry(names, log, Breakdown(pre));
        var m' := m[log.userId := first];
        SumTotalsFrame(order, m, log.userId, first);
        var order' := order + [log.userId];
        assert order'[..|order|] == order;
        SumTotalsFrame(order, m', log.userId, Count(first, log));
      }
    }
  }
}
