/**
 * The storing of one attention log (`POST /attention`, routes/logs.js:9-57):
 * the required-field check, the defaults, and the validation the log schema
 * (models/Log.js) applies when the record is saved.
 */
module LogPost {
  import opened Wrappers
  import opened States

  /**
   * A request body. A field the client left out, or sent as null, is None;
   * strings may be empty, which JavaScript treats as falsy. The schema's
   * Number fields are reals, so fractional percentages such as 72.5 are kept.
   */
  datatype AttentionPost = AttentionPost(
    meetingId: Option<string>,
    userId: Option<string>,
    userName: Option<string>,
    attentionState: Option<string>,
    attentionPercentage: Option<real>,
    confidence: Option<real>,
    measurements: Option<map<string, int>>,
    sessionId: Option<string>,
    roomId: Option<string>)

  /** A stored attention log. The timestamp is milliseconds since the epoch. */
  datatype LogEntry = LogEntry(
    meetingId: string,
    userId: string,
    userName: string,
    attentionState: State,
    attentionPercentage: real,
    confidence: real,
    measurements: map<string, int>,
    sessionId: string,
    roomId: string,
    timestamp: int)

  /** 400 "Missing required fields", 500 "Server error" (the save failed validation), or 201 with the stored log. */
  datatype PostOutcome = MissingRequiredFields | ServerError | Stored(entry: LogEntry)

  const DefaultUserName: string := "Anonymous"

  /** A string field that JavaScript's `!` does not reject: present and non-empty. */
  predicate Truthy(f: Option<string>) {
    f.Some? && f.value != ""
  }

  /** `f || d` on a string field. */
  function StringOr(f: Option<string>, d: string): string {
    if Truthy(f) then f.value else d
  }

  /** `x || 0` on a numeric field: an absent value and 0 both give 0. */
  function NumberOr0(x: Option<real>): real {
    if x.Some? && x.value != 0.0 then x.value else 0.0
  }

  /** All five of meetingId, userId, attentionState, sessionId and roomId are truthy. */
  predicate RequiredPresent(body: AttentionPost) {
    && Truthy(body.meetingId) && Truthy(body.userId) && Truthy(body.attentionState)
    && Truthy(body.sessionId) && Truthy(body.roomId)
  }

  /** The schema's enum: the state whose canonical spelling is exactly n, if any. */
  function StateNamed(n: string): (r: Option<State>)
    ensures r.Some? ==> Name(r.value) == n
    ensures r.None? ==> forall s :: Name(s) != n
  {
    if n == "attentive" then Some(Attentive)
    else if n == "active" then Some(Active)
    else if n == "looking_away" then Some(LookingAway)
    else if n == "drowsy" then Some(Drowsy)
    else if n == "absent" then Some(Absent)
    else if n == "darkness" then Some(Darkness)
    else None
  }

  /** The schema's `min: 0, max: 100` on attentionPercentage and confidence. */
  predicate Percentage(x: real) {
    0.0 <= x <= 100.0
  }

  /**
   * The handler. A missing or falsy required field is refused before
   * anything is built. Otherwise the log is built with its defaults and
   * saved; a state outside the enum or a percentage outside [0, 100] makes
   * the save throw, which the handler answers as a server error.
   */
  function PostAttention(body: AttentionPost, nowMs: int): (r: PostOutcome)
    ensures r == MissingRequiredFields <==> !RequiredPresent(body)
    ensures r.Stored? <==>
      && RequiredPresent(body)
      && StateNamed(body.attentionState.value).Some?
      && Percentage(NumberOr0(body.attentionPercentage)) && Percentage(NumberOr0(body.confidence))
    ensures r.Stored? ==>
      && r.entry.meetingId == body.meetingId.value && r.entry.userId == body.userId.value
      && r.entry.sessionId == body.sessionId.value && r.entry.roomId == body.roomId.value
      && Name(r.entry.attentionState) == body.attentionState.value
      && r.entry.timestamp == nowMs
  {
    if !RequiredPresent(body) then MissingRequiredFields
    else
      var state := StateNamed(body.attentionState.value);
      var percentage := NumberOr0(body.attentionPercentage);
      var confidence := NumberOr0(body.confidence);
      if state.None? || !Percentage(percentage) || !Percentage(confidence) then ServerError
      else
        Stored(LogEntry(
          body.meetingId.value, body.userId.value, StringOr(body.userName, DefaultUserName),
          state.value, percentage, confidence, body.measurements.GetOr(map[]),
          body.sessionId.value, body.roomId.value, nowMs))
  }

  /**
   * The defaults of a stored log: a falsy user name becomes "Anonymous" and
   * a given one is kept, an absent percentage or confidence becomes 0 and a
   * given one is kept, absent measurements become the empty object.
   */
  lemma StoredDefaults(body: AttentionPost, nowMs: int)
    requires PostAttention(body, nowMs).Stored?
    ensures var e := PostAttention(body, nowMs).entry;
      && (Truthy(body.userName) ==> e.userName == body.userName.value)
      && (!Truthy(body.userName) ==> e.userName == DefaultUserName)
      && e.userName != ""
      && (body.attentionPercentage.None? ==> e.attentionPercentage == 0.0)
      && (body.attentionPercentage.Some? ==> e.attentionPercentage == body.attentionPercentage.value)
      && (body.confidence.None? ==> e.confidence == 0.0)
      && (body.confidence.Some? ==> e.confidence == body.confidence.value)
      && (body.measurements.None? ==> e.measurements == map[])
      && (body.measurements.Some? ==> e.measurements == body.measurements.value)
  {
  }

  /** The enum accepts exactly the six canonical spellings, each for its own state. */
  lemma StateNamedRoundTrip(s: State, n: string)
    ensures StateNamed(Name(s)) == Some(s)
    ensures StateNamed(n).Some? <==> exists t :: Name(t) == n
  {
    if StateNamed(n).None? {
      assert forall t :: Name(t) != n;
    } else {
      assert Name(StateNamed(n).value) == n;
    }
  }

  /** A body with every required field truthy, a canonical state and no numbers is stored with the defaults. */
  lemma MinimalBodyStored(nowMs: int)
    ensures var body := AttentionPost(Some("m1"), Some("u1"), None, Some("drowsy"), None, None, None, Some("s1"), Some("r1"));
      PostAttention(body, nowMs)
        == Stored(LogEntry("m1", "u1", "Anonymous", Drowsy, 0.0, 0.0, map[], "s1", "r1", nowMs))
  {
  }

  /** A fractional percentage in range is stored as sent; one above 100 makes the save fail. */
  lemma FractionalPercentage(nowMs: int)
    ensures var r := PostAttention(AttentionPost(Some("m1"), Some("u1"), None, Some("drowsy"), Some(72.5), Some(0.9), None, Some("s1"), Some("r1")), nowMs);
      r.Stored? && r.entry.attentionPercentage == 72.5 && r.entry.confidence == 0.9
    ensures PostAttention(AttentionPost(Some("m1"), Some("u1"), None, Some("drowsy"), Some(100.5), None, None, Some("s1"), Some("r1")), nowMs)
      == ServerError
  {
  }

  /** An empty roomId is refused like a missing one, and a non-canonical state is refused by the store. */
  lemma FalsyOrUnknownRefused(nowMs: int)
    ensures PostAttention(AttentionPost(Some("m1"), Some("u1"), None, Some("drowsy"), None, None, None, Some("s1"), Some("")), nowMs)
      == MissingRequiredFields
    ensures PostAttention(AttentionPost(Some("m1"), Some("u1"), None, Some("Drowsy"), None, None, None, Some("s1"), Some("r1")), nowMs)
      == ServerError
  {
  }
}
