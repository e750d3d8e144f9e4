/**
 * The analytics handler (`GET /meeting/:meetingId/analytics`,
 * routes/logs.js:60-289) over a meeting document and its logs as the store
 * returns them (ascending by timestamp): its loops as methods proved
 * against the fold functions of LogUsers and LogSeries, and the report
 * they assemble.
 */
module LogAnalytics {
  import opened Wrappers
  import opened States
  import opened Ingestion
  import opened Duration
  import opened Sorting
  import opened LogPost
  import opened LogUsers
  import opened LogSeries

  /** The stored meeting fields the handler reads. */
  datatype MeetingRecord = MeetingRecord(
    startTime: Option<Instant>,
    endTime: Option<Instant>,
    participants: seq<Participant>)

  /**
   * The response data. An absent breakdown is the empty object `{}` and an
   * absent duration a response without that field, as on the path for a
   * meeting without logs. The attention-percentage averages are not part of
   * this model.
   */
  datatype Report = Report(
    totalLogs: nat,
    totalParticipants: nat,
    stateBreakdown: Option<Buckets>,
    participantData: seq<UserEntry>,
    timeSeriesData: seq<DataPoint>,
    duration: Option<nat>)

  datatype AnalyticsError = MeetingNotFound

  const EmptyReport: Report := Report(0, 0, None, [], [], None)

  /** `Object.values(participantData)`: the entries in the insertion order of their users. */
  function Entries(logs: seq<LogEntry>, names: map<UserId, string>): (r: seq<UserEntry>)
    ensures |r| == |UserOrder(logs)|
    ensures forall i :: 0 <= i < |r| ==>
      UserOrder(logs)[i] in UserTable(logs, names) && r[i] == UserTable(logs, names)[UserOrder(logs)[i]]
    ensures forall i :: 0 <= i < |r| ==> r[i].userId == UserOrder(logs)[i] && HasLogs(logs, r[i].userId)
    ensures forall i, j :: 0 <= i < j < |r| ==> r[i].userId != r[j].userId
  {
    var order := UserOrder(logs);
    var table := UserTable(logs, names);
    UserTableKeys(logs, names);
    UserOrderSpec(logs);
    seq(|order|, i requires 0 <= i < |order| => table[order[i]])
  }

  /** The report for a meeting that has logs. */
  function ReportOf(meeting: MeetingRecord, logs: seq<LogEntry>, nowMs: int): Report {
    var names := NameMap(meeting.participants);
    Report(|logs|, |UserOrder(logs)|, Some(Breakdown(logs)), Entries(logs, names), TimeSeries(logs),
           Some(ElapsedSeconds(meeting.startTime, meeting.endTime, nowMs)))
  }

  /** Sum of the entries' log counts. */
  function SumEntries(es: seq<UserEntry>): int {
    if es == [] then 0 else SumEntries(es[..|es| - 1]) + es[|es| - 1].totalLogs
  }

  lemma {:induction false} SumEntriesOfOrder(order: seq<UserId>, table: map<UserId, UserEntry>, es: seq<UserEntry>)
    requires forall u :: u in order ==> u in table
    requires |es| == |order| && forall i :: 0 <= i < |es| ==> es[i] == table[order[i]]
    ensures SumEntries(es) == SumTotals(order, table)
  {
    if es != [] {
      SumEntriesOfOrder(order[..|order| - 1], table, es[..|es| - 1]);
    }
  }

  // ---------------------------------------------------------------------
  // The loops of the handler
  // ---------------------------------------------------------------------

  /** The forEach over the meeting's participants that fills `participantNameMap`. */
  method BuildNameMap(ps: seq<Participant>) returns (names: map<UserId, string>)
    ensures names == NameMap(ps)
  {
    names := map[];
    for i := 0 to |ps|
      invariant names == NameMap(ps[..i])
    {
      assert ps[..i + 1][..i] == ps[..i];
      if ps[i].userId != "" && ps[i].name != "" {
        names := names[ps[i].userId := ps[i].name];
      }
    }
    assert ps[..|ps|] == ps;
  }

  /** The counting forEach: per-user entries, their insertion order, the breakdown and the log count. */
  method CountLogs(logs: seq<LogEntry>, names: map<UserId, string>)
    returns (participantData: map<UserId, UserEntry>, userOrder: seq<UserId>, stateBreakdown: Buckets, totalLogs: nat)
    ensures participantData == UserTable(logs, names)
    ensures userOrder == UserOrder(logs)
    ensures stateBreakdown == Breakdown(logs)
    ensures totalLogs == |logs|
  {
    participantData, userOrder, stateBreakdown, totalLogs := map[], [], Zero, 0;
    for i := 0 to |logs|
      invariant participantData == UserTable(logs[..i], names)
      invariant userOrder == UserOrder(logs[..i])
      invariant stateBreakdown == Breakdown(logs[..i])
      invariant totalLogs == i
    {
      var log := logs[i];
      UserStep(logs, names, i);
      UserTableKeys(logs[..i], names);
      if log.userId !in participantData {
        participantData := participantData[log.userId := FreshEntry(names, log, stateBreakdown)];
        userOrder := userOrder + [log.userId];
      }
      participantData := participantData[log.userId := Count(participantData[log.userId], log)];
      stateBreakdown := Add(stateBreakdown, log.attentionState, 1);
      totalLogs := totalLogs + 1;
    }
    assert logs[..|logs|] == logs;
  }

  /** The map over `Object.values(participantData)`. */
  method ListEntries(userOrder: seq<UserId>, participantData: map<UserId, UserEntry>) returns (es: seq<UserEntry>)
    requires forall u :: u in userOrder ==> u in participantData
    ensures |es| == |userOrder|
    ensures forall i :: 0 <= i < |es| ==> es[i] == participantData[userOrder[i]]
  {
    es := [];
    for i := 0 to |userOrder|
      invariant |es| == i
      invariant forall j :: 0 <= j < i ==> es[j] == participantData[userOrder[j]]
    {
      es := es + [participantData[userOrder[i]]];
    }
  }

  /** The forEach that fills `timeGroups`. */
  method GroupByMinute(logs: seq<LogEntry>) returns (timeGroups: map<int, Group>, minuteOrder: seq<int>)
    ensures timeGroups == GroupTable(logs)
    ensures minuteOrder == MinuteOrder(logs)
  {
    timeGroups, minuteOrder := map[], [];
    for i := 0 to |logs|
      invariant timeGroups == GroupTable(logs[..i])
      invariant minuteOrder == MinuteOrder(logs[..i])
    {
      var log := logs[i];
      GroupStep(logs, i);
      GroupTableKeys(logs[..i]);
      var timeKey := MinuteOf(log.timestamp);
      if timeKey !in timeGroups {
        timeGroups := timeGroups[timeKey := Group(0, Zero)];
        minuteOrder := minuteOrder + [timeKey];
      }
      var g := timeGroups[timeKey];
      timeGroups := timeGroups[timeKey := Group(g.total + 1, Add(g.counts, log.attentionState, 1))];
    }
    assert logs[..|logs|] == logs;
  }

  /** The forEach over `Object.values(timeGroups)` pushing one point per group, then the sort. */
  method BuildTimeSeries(logs: seq<LogEntry>, timeGroups: map<int, Group>, minuteOrder: seq<int>)
    returns (timeSeriesData: seq<DataPoint>)
    requires timeGroups == GroupTable(logs) && minuteOrder == MinuteOrder(logs)
    ensures timeSeriesData == TimeSeries(logs)
  {
    GroupTableKeys(logs);
    timeSeriesData := [];
    for i := 0 to |minuteOrder|
      invariant |timeSeriesData| == i
      invariant forall j :: 0 <= j < i ==> timeSeriesData[j] == PointOf(minuteOrder[j], timeGroups[minuteOrder[j]])
    {
      timeSeriesData := timeSeriesData + [PointOf(minuteOrder[i], timeGroups[minuteOrder[i]])];
    }
    assert timeSeriesData == Points(logs);
    timeSeriesData := SortByKey(timeSeriesData, Timestamp);
  }

  /**
   * The handler: a missing meeting is refused, a meeting without logs gets
   * the empty report, and otherwise the report of its logs.
   */
  method Analytics(meeting: Option<MeetingRecord>, logs: seq<LogEntry>, nowMs: int)
    returns (r: Result<Report, AnalyticsError>)
    ensures meeting.None? ==> r == Failure(MeetingNotFound)
    ensures meeting.Some? && logs == [] ==> r == Success(EmptyReport)
    ensures meeting.Some? && logs != [] ==> r == Success(ReportOf(meeting.value, logs, nowMs))
  {
    if meeting.None? {
      return Failure(MeetingNotFound);
    }
    if |logs| == 0 {
      return Success(EmptyReport);
    }
    var m := meeting.value;
    var names := BuildNameMap(m.participants);
    var participantData, userOrder, stateBreakdown, totalLogs := CountLogs(logs, names);
    var duration := ElapsedSeconds(m.startTime, m.endTime, nowMs);
    UserTableKeys(logs, names);
    var processed := ListEntries(userOrder, participantData);
    var timeGroups, minuteOrder := GroupByMinute(logs);
    var timeSeriesData := BuildTimeSeries(logs, timeGroups, minuteOrder);
    assert processed == Entries(logs, names);
    r := Success(Report(totalLogs, |processed|, Some(stateBreakdown), processed, timeSeriesData, Some(duration)));
  }

  // ---------------------------------------------------------------------
  // What the report promises
  // ---------------------------------------------------------------------

  /**
   * The overview's counts agree: the log count is the number of logs, the
   * sum of the state breakdown and the sum of the participants' log counts.
   */
  lemma ReportTotals(meeting: MeetingRecord, logs: seq<LogEntry>, nowMs: int)
    ensures var r := ReportOf(meeting, logs, nowMs);
      && r.stateBreakdown.Some?
      && r.totalLogs == |logs| == Total(r.stateBreakdown.value)
      && SumEntries(r.participantData) == |logs|
  {
    var names := NameMap(meeting.participants);
    BreakdownTotal(logs);
    SumOfUserLogs(logs, names);
    SumEntriesOfOrder(UserOrder(logs), UserTable(logs, names), Entries(logs, names));
  }

  /** There is one participant entry per distinct user with logs, under its own id. */
  lemma ReportUsers(meeting: MeetingRecord, logs: seq<LogEntry>, nowMs: int)
    ensures var es := ReportOf(meeting, logs, nowMs).participantData;
      && ReportOf(meeting, logs, nowMs).totalParticipants == |es|
      && (forall i, j :: 0 <= i < j < |es| ==> es[i].userId != es[j].userId)
      && (forall u :: HasLogs(logs, u) <==> exists i :: 0 <= i < |es| && es[i].userId == u)
  {
    var names := NameMap(meeting.participants);
    var es := Entries(logs, names);
    var order := UserOrder(logs);
    UserTableKeys(logs, names);
    UserOrderSpec(logs);
    assert forall i :: 0 <= i < |es| ==> es[i].userId == order[i];
    forall u | HasLogs(logs, u)
      ensures exists i :: 0 <= i < |es| && es[i].userId == u
    {
      var i :| 0 <= i < |order| && order[i] == u;
      assert es[i].userId == u;
    }
  }

  /**
   * Each participant entry describes its user's logs: the count of them,
   * the name and firstSeen of the first, the lastSeen of the last, and the
   * state counts seeded with the breakdown of all logs before the first.
   */
  lemma ReportEntries(meeting: MeetingRecord, logs: seq<LogEntry>, nowMs: int, i: int)
    requires 0 <= i < |ReportOf(meeting, logs, nowMs).participantData|
    ensures var e := ReportOf(meeting, logs, nowMs).participantData[i];
      && e.userId in UserOrder(logs)
      && e.totalLogs == |OfUser(logs, e.userId)|
      && e.userName == DisplayName(NameMap(meeting.participants), logs[FirstIndex(logs, e.userId)])
      && e.firstSeen == logs[FirstIndex(logs, e.userId)].timestamp
      && e.lastSeen == logs[LastIndex(logs, e.userId)].timestamp
      && e.attentionStates == Plus(Breakdown(logs[..FirstIndex(logs, e.userId)]), Breakdown(OfUser(logs, e.userId)))
  {
    var names := NameMap(meeting.participants);
    var u := UserOrder(logs)[i];
    UserTableKeys(logs, names);
    UserEntrySpec(logs, names, u);
    UserStatesSeeded(logs, names, u);
  }

  /** A meeting with logs reports the same clamped duration as the statistics reconciliation. */
  lemma ReportDuration(meeting: MeetingRecord, logs: seq<LogEntry>, nowMs: int)
    ensures var r := ReportOf(meeting, logs, nowMs);
      && r.duration.Some? && r.duration.value <= MaxDurationSeconds
      && (meeting.startTime.None? ==> r.duration.value == 0)
  {
  }
}
