/**
 * The six canonical attention states and the per-state counters that
 * participants, meeting statistics and log analytics keep for them.
 */
module States {

  /** The closed set of canonical states (the enum of the attention log schema). */
  datatype State = Attentive | Active | LookingAway | Drowsy | Absent | Darkness

  const AllStates: seq<State> := [Attentive, Active, LookingAway, Drowsy, Absent, Darkness]

  /** The canonical spelling of a state, used as the key of every per-state object. */
  function Name(s: State): string {
    match s
    case Attentive => "attentive"
    case Active => "active"
    case LookingAway => "looking_away"
    case Drowsy => "drowsy"
    case Absent => "absent"
    case Darkness => "darkness"
  }

  /** One counter per state: seconds in a participant's attentionData, or log counts. */
  datatype Buckets = Buckets(attentive: int, active: int, lookingAway: int,
                             drowsy: int, absent: int, darkness: int)

  const Zero: Buckets := Buckets(0, 0, 0, 0, 0, 0)

  function Get(b: Buckets, s: State): int {
    match s
    case Attentive => b.attentive
    case Active => b.active
    case LookingAway => b.lookingAway
    case Drowsy => b.drowsy
    case Absent => b.absent
    case Darkness => b.darkness
  }

  /** `$inc` / `++` on the counter of one state. */
  function Add(b: Buckets, s: State, k: int): (r: Buckets)
    ensures Get(r, s) == Get(b, s) + k
    ensures forall o :: o != s ==> Get(r, o) == Get(b, o)
  {
    match s
    case Attentive => b.(attentive := b.attentive + k)
    case Active => b.(active := b.active + k)
    case LookingAway => b.(lookingAway := b.lookingAway + k)
    case Drowsy => b.(drowsy := b.drowsy + k)
    case Absent => b.(absent := b.absent + k)
    case Darkness => b.(darkness := b.darkness + k)
  }

  /** Counter-wise sum. */
  function Plus(a: Buckets, b: Buckets): (r: Buckets)
    ensures forall s :: Get(r, s) == Get(a, s) + Get(b, s)
  {
    Buckets(a.attentive + b.attentive, a.active + b.active, a.lookingAway + b.lookingAway,
            a.drowsy + b.drowsy, a.absent + b.absent, a.darkness + b.darkness)
  }

  /** attentive + active: the "attentive" super-bucket. */
  function AttentiveTime(b: Buckets): int { b.attentive + b.active }

  /** looking_away + drowsy: the "distracted" super-bucket. */
  function DistractedTime(b: Buckets): int { b.lookingAway + b.drowsy }

  /** absent + darkness: the "absent" super-bucket. */
  function AbsentTime(b: Buckets): int { b.absent + b.darkness }

  /** Sum of all six counters. */
  function Total(b: Buckets): int {
    b.attentive + b.active + b.lookingAway + b.drowsy + b.absent + b.darkness
  }

  /** Every counter is at least 0. */
  predicate NonNegative(b: Buckets) {
    b.attentive >= 0 && b.active >= 0 && b.lookingAway >= 0 &&
    b.drowsy >= 0 && b.absent >= 0 && b.darkness >= 0
  }

  /** Counter-wise a <= b. */
  predicate Below(a: Buckets, b: Buckets) {
    a.attentive <= b.attentive && a.active <= b.active && a.lookingAway <= b.lookingAway &&
    a.drowsy <= b.drowsy && a.absent <= b.absent && a.darkness <= b.darkness
  }

  /** Every counter is at most cap. */
  predicate AtMost(b: Buckets, cap: int) {
    b.attentive <= cap && b.active <= cap && b.lookingAway <= cap &&
    b.drowsy <= cap && b.absent <= cap && b.darkness <= cap
  }
}
