/**
 * The state normaliser: the raw signal a detector sends for one user is
 * reduced to a candidate string, which is lower-cased, trimmed and looked up
 * in an eight-entry alias table (models/Meeting.js:135-147, 267-285).
 */
module Normalize {
  import opened Wrappers
  import opened States

  /** ECMAScript WhiteSpace and LineTerminator code points: what `String.prototype.trim` strips. */
  predicate IsWhitespace(c: char) {
    c == ' ' || c == '\t' || c == '\n' || c == '\U{000B}' || c == '\U{000C}' || c == '\r'
    || c == '\U{00A0}' || c == '\U{1680}' || ('\U{2000}' <= c <= '\U{200A}')
    || c == '\U{2028}' || c == '\U{2029}' || c == '\U{202F}' || c == '\U{205F}'
    || c == '\U{3000}' || c == '\U{FEFF}'
  }

  predicate AllWhitespace(s: string) {
    forall i :: 0 <= i < |s| ==> IsWhitespace(s[i])
  }

  /**
   * `toLowerCase` on one character, for the characters whose lower-case form
   * can occur in the alias table: ASCII capitals, and KELVIN SIGN, which
   * lower-cases to 'k'. Every other character either is unchanged or
   * lower-cases to text outside ASCII, which no alias contains.
   */
  function LowerChar(c: char): char {
    if 'A' <= c <= 'Z' then (c as int + 32) as char
    else if c == '\U{212A}' then 'k'
    else c
  }

  function ToLower(s: string): string {
    seq(|s|, i requires 0 <= i < |s| => LowerChar(s[i]))
  }

  function TrimStart(s: string): string {
    if |s| > 0 && IsWhitespace(s[0]) then TrimStart(s[1..]) else s
  }

  function TrimEnd(s: string): string {
    if |s| > 0 && IsWhitespace(s[|s| - 1]) then TrimEnd(s[..|s| - 1]) else s
  }

  function Trim(s: string): string {
    TrimEnd(TrimStart(s))
  }

  /** The keys of the alias table `validStates`. */
  predicate AliasKey(key: string) {
    key in {"attentive", "active", "looking_away", "lookingaway", "looking away", "drowsy", "absent", "darkness"}
  }

  /** The alias table `validStates` (models/Meeting.js:272-282). */
  function Lookup(key: string): Option<State> {
    if key == "attentive" then Some(Attentive)
    else if key == "active" then Some(Active)
    else if key == "looking_away" then Some(LookingAway)
    else if key == "lookingaway" then Some(LookingAway)
    else if key == "looking away" then Some(LookingAway)
    else if key == "drowsy" then Some(Drowsy)
    else if key == "absent" then Some(Absent)
    else if key == "darkness" then Some(Darkness)
    else None
  }

  /**
   * `normalizeAttentionState`: None stands for `undefined`/`null`. A falsy
   * input (absent or empty) is null; otherwise the lower-cased, trimmed text
   * is looked up in the alias table, and anything outside it is null.
   */
  function NormalizeAttentionState(state: Option<string>): (r: Option<State>)
    ensures state.None? || state == Some("") ==> r == None
  {
    if state.None? || state.value == "" then None
    else Lookup(Trim(ToLower(state.value)))
  }

  /** One-level nested payload `data.data`. */
  datatype Nested = Nested(attentionState: Option<string>, state: Option<string>)

  /**
   * The raw value sent for one user: a bare string, an object carrying the
   * state in one of its known fields, or anything else (a number, a boolean,
   * null; for null the source's field access throws and the entry is skipped,
   * which has the same effect as a missing state).
   */
  datatype Signal =
    | Text(text: string)
    | Record(attentionState: Option<string>, state: Option<string>, data: Option<Nested>)
    | Other

  /** JavaScript truthiness of an optional string. */
  predicate Truthy(v: Option<string>) {
    v.Some? && v.value != ""
  }

  /** `a || b` on optional strings. */
  function Or(a: Option<string>, b: Option<string>): Option<string> {
    if Truthy(a) then a else b
  }

  /**
   * The candidate state string of a signal: the string itself, or for an
   * object the first truthy one of `attentionState`, `state`,
   * `data.attentionState`, `data.state`.
   */
  function Candidate(sig: Signal): (r: Option<string>)
    ensures sig.Text? ==> r == Some(sig.text)
    ensures sig.Other? ==> r == None
    ensures sig.Record? ==>
      (Truthy(r) <==> Truthy(sig.attentionState) || Truthy(sig.state)
                      || (sig.data.Some? && (Truthy(sig.data.value.attentionState) || Truthy(sig.data.value.state))))
    ensures sig.Record? && Truthy(sig.attentionState) ==> r == sig.attentionState
    ensures sig.Record? && !Truthy(sig.attentionState) && Truthy(sig.state) ==> r == sig.state
    ensures (sig.Record? && !Truthy(sig.attentionState) && !Truthy(sig.state) && sig.data.Some?
             && Truthy(sig.data.value.attentionState)) ==> r == sig.data.value.attentionState
    ensures (sig.Record? && !Truthy(sig.attentionState) && !Truthy(sig.state) && sig.data.Some?
             && !Truthy(sig.data.value.attentionState) && Truthy(sig.data.value.state)) ==> r == sig.data.value.state
  {
    match sig
    case Text(t) => Some(t)
    case Other => None
    case Record(a, s, d) =>
      var nestedA := if d.Some? then d.value.attentionState else None;
      var nestedS := if d.Some? then d.value.state else None;
      Or(a, Or(s, Or(nestedA, nestedS)))
  }

  /** The canonical state a signal carries, if any. */
  function StateOf(sig: Signal): Option<State> {
    NormalizeAttentionState(Candidate(sig))
  }

  // ---------------------------------------------------------------------
  // Properties of the normaliser
  // ---------------------------------------------------------------------

  lemma LowerOfWhitespace(s: string)
    requires AllWhitespace(s)
    ensures ToLower(s) == s
  {
  }

  lemma ToLowerAppend(a: string, b: string)
    ensures ToLower(a + b) == ToLower(a) + ToLower(b)
  {
  }

  lemma {:induction false} TrimStartWhitespacePrefix(pre: string, s: string)
    requires AllWhitespace(pre)
    ensures TrimStart(pre + s) == TrimStart(s)
  {
    if pre != [] {
      assert (pre + s)[1..] == pre[1..] + s;
      TrimStartWhitespacePrefix(pre[1..], s);
    } else {
      assert pre + s == s;
    }
  }

  lemma {:induction false} TrimEndWhitespaceSuffix(s: string, post: string)
    requires AllWhitespace(post)
    ensures TrimEnd(s + post) == TrimEnd(s)
  {
    if post != [] {
      var n := |s + post|;
      assert (s + post)[..n - 1] == s + post[..|post| - 1];
      assert (s + post)[n - 1] == post[|post| - 1];
      TrimEndWhitespaceSuffix(s, post[..|post| - 1]);
    } else {
      assert s + post == s;
    }
  }

  /** Trimming the start of s + post either keeps post whole or, when s is blank, trims into post. */
  lemma {:induction false} TrimStartAppend(s: string, post: string)
    ensures AllWhitespace(s) ==> TrimStart(s + post) == TrimStart(post)
    ensures !AllWhitespace(s) ==> TrimStart(s + post) == TrimStart(s) + post
  {
    if s == [] {
      assert s + post == post;
    } else if IsWhitespace(s[0]) {
      assert (s + post)[1..] == s[1..] + post;
      TrimStartAppend(s[1..], post);
      if !AllWhitespace(s) {
        var i :| 0 <= i < |s| && !IsWhitespace(s[i]);
        assert !IsWhitespace(s[1..][i - 1]);
      }
    }
  }

  lemma {:induction false} TrimEndOfBlank(s: string)
    requires AllWhitespace(s)
    ensures TrimEnd(s) == ""
  {
    if s != [] {
      TrimEndOfBlank(s[..|s| - 1]);
    }
  }

  lemma {:induction false} TrimStartOfBlank(s: string)
    requires AllWhitespace(s)
    ensures TrimStart(s) == ""
  {
    if s != [] {
      TrimStartOfBlank(s[1..]);
    }
  }

  /** Surrounding whitespace never changes the trimmed text. */
  lemma TrimIgnoresPadding(pre: string, s: string, post: string)
    requires AllWhitespace(pre) && AllWhitespace(post)
    ensures Trim(pre + s + post) == Trim(s)
  {
    assert pre + s + post == pre + (s + post);
    TrimStartWhitespacePrefix(pre, s + post);
    TrimStartAppend(s, post);
    if AllWhitespace(s) {
      TrimStartOfBlank(post);
      TrimStartOfBlank(s);
      assert TrimEnd("") == "";
    } else {
      TrimEndWhitespaceSuffix(TrimStart(s), post);
    }
  }

  /**
   * Whitespace around a state string does not change what it normalises to
   * (`trim` runs after `toLowerCase`).
   */
  lemma NormalizeIgnoresPadding(pre: string, s: string, post: string)
    requires AllWhitespace(pre) && AllWhitespace(post)
    ensures NormalizeAttentionState(Some(pre + s + post)) == NormalizeAttentionState(Some(s))
  {
    ToLowerAppend(pre + s, post);
    ToLowerAppend(pre, s);
    LowerOfWhitespace(pre);
    LowerOfWhitespace(post);
    TrimIgnoresPadding(pre, ToLower(s), post);
    if s == "" {
      assert ToLower(s) == "";
      assert Trim("") == "";
    }
  }

  lemma ToLowerIdempotent(s: string)
    ensures ToLower(ToLower(s)) == ToLower(s)
  {
  }

  /** Normalisation is blind to letter case: a string and its lower-case form normalise alike. */
  lemma NormalizeIgnoresCase(s: string)
    ensures NormalizeAttentionState(Some(ToLower(s))) == NormalizeAttentionState(Some(s))
  {
    ToLowerIdempotent(s);
  }

  /** Text that neither starts nor ends with whitespace is its own trim. */
  lemma TrimUnpadded(s: string)
    requires |s| > 0 && !IsWhitespace(s[0]) && !IsWhitespace(s[|s| - 1])
    ensures Trim(s) == s
  {
    assert TrimStart(s) == s;
  }

  /** Text without characters that lower-case to something else is its own lower-case form. */
  lemma LowerFixed(s: string)
    requires forall i :: 0 <= i < |s| ==> LowerChar(s[i]) == s[i]
    ensures ToLower(s) == s
  {
  }

  /** The table answers exactly its own keys. */
  lemma LookupDomain(key: string)
    ensures Lookup(key).Some? <==> AliasKey(key)
  {
  }

  /**
   * A state string normalises to a state exactly when its lower-cased,
   * trimmed form is a key of the alias table; every other string, the empty
   * one included, gives no state.
   */
  lemma NormalizeOutsideTable(s: string)
    ensures NormalizeAttentionState(Some(s)).Some? <==> AliasKey(Trim(ToLower(s)))
    ensures !AliasKey(Trim(ToLower(s))) ==> NormalizeAttentionState(Some(s)) == None
  {
    LookupDomain(Trim(ToLower(s)));
    if s == "" {
      assert ToLower(s) == "";
      assert Trim("") == "";
    }
  }

  /** Each canonical name normalises to its own state, so the result is a fixed point. */
  lemma CanonicalNameNormalizes(st: State)
    ensures NormalizeAttentionState(Some(Name(st))) == Some(st)
  {
    var n := Name(st);
    LowerFixed(n);
    TrimUnpadded(n);
  }

  /** Normalising the name of a normalised state gives that state back. */
  lemma NormalizeIdempotent(state: Option<string>)
    ensures var r := NormalizeAttentionState(state);
            r.Some? ==> NormalizeAttentionState(Some(Name(r.value))) == r
  {
    var r := NormalizeAttentionState(state);
    if r.Some? {
      CanonicalNameNormalizes(r.value);
    }
  }

  /** "lookingaway", an alias without a separator, reaches the canonical state. */
  lemma LookingAwayWithoutSeparator()
    ensures NormalizeAttentionState(Some("lookingaway")) == Some(LookingAway)
  {
    LowerFixed("lookingaway");
    TrimUnpadded("lookingaway");
  }

  /** "looking away", an alias with an inner space, reaches the canonical state. */
  lemma LookingAwayWithSpace()
    ensures NormalizeAttentionState(Some("looking away")) == Some(LookingAway)
  {
    LowerFixed("looking away");
    TrimUnpadded("looking away");
  }

  lemma PadLookingAway()
    ensures " " + "LOOKING_AWAY" + " " == " LOOKING_AWAY "
  {
  }

  lemma LowerLookingAway()
    ensures ToLower("LOOKING_AWAY") == "looking_away"
  {
  }

  /** " LOOKING_AWAY ", upper case and padded, reaches the canonical state. */
  lemma LookingAwayPaddedUpperCase()
    ensures NormalizeAttentionState(Some(" LOOKING_AWAY ")) == Some(LookingAway)
  {
    var upper := "LOOKING_AWAY";
    PadLookingAway();
    NormalizeIgnoresPadding(" ", upper, " ");
    NormalizeIgnoresCase(upper);
    LowerLookingAway();
    CanonicalNameNormalizes(LookingAway);
  }
}
