/** `enum TrainStatus { case OnTime; case Delayed(Int) }` and the `switch`
    statements over it. A Swift `switch` runs the first arm whose pattern
    matches, so each switch is modelled as its list of patterns, a first-match
    search over them, and the value of the arm that wins. */
module Trains {
  import opened Wrappers
  import Decimal

  datatype TrainStatus = OnTime | Delayed(minutes: int)

  /** The case patterns that occur in the playgrounds. */
  datatype Pattern =
    | OnTimeCase                    // `case .OnTime`
    | DelayedIn(lo: int, hi: int)   // `case .Delayed(lo...hi)`, or `.Delayed(let m) where lo...hi ~= m`
    | DelayedAny                    // `case .Delayed(let minutes)`
    | Default                       // `default`

  predicate Matches(p: Pattern, status: TrainStatus) {
    match p
    case OnTimeCase => status.OnTime?
    case DelayedIn(lo, hi) => status.Delayed? && lo <= status.minutes <= hi
    case DelayedAny => status.Delayed?
    case Default => true
  }

  /** The index of the arm a `switch` takes: the first whose pattern matches. */
  function FirstMatch(arms: seq<Pattern>, status: TrainStatus): (r: Option<nat>)
    ensures r.Some? ==> r.value < |arms| && Matches(arms[r.value], status)
    ensures r.Some? ==> forall j :: 0 <= j < r.value ==> !Matches(arms[j], status)
    ensures r.None? <==> forall j :: 0 <= j < |arms| ==> !Matches(arms[j], status)
  {
    if |arms| == 0 then None
    else if Matches(arms[0], status) then Some(0)
    else
      match FirstMatch(arms[1..], status)
      case None => None
      case Some(i) => Some(i + 1)
  }

  /** Swift 1.2, first switch: `.OnTime`, `.Delayed(0...5)`, `.Delayed(let minutes)`, `default`. */
  const RangeSwitchArms: seq<Pattern> := [OnTimeCase, DelayedIn(0, 5), DelayedAny, Default]

  /** Swift 1.2, second switch: `.OnTime`, `.Delayed(let minutes)` twice, `default`. */
  const DuplicateSwitchArms: seq<Pattern> := [OnTimeCase, DelayedAny, DelayedAny, Default]

  /** Swift 2: `.OnTime`, `.Delayed(let minutes) where 0...5 ~= minutes`, `.Delayed(let minutes)`. */
  const GuardedSwitchArms: seq<Pattern> := [OnTimeCase, DelayedIn(0, 5), DelayedAny]

  const LittleDelayPlaceholder: string := "just a little delay of ?? minutes"

  /** A `.Delayed(lo...hi)` pattern only narrows `.Delayed(let minutes)`, and
      every status matches exactly one of `.OnTime` and `.Delayed(let minutes)`:
      the reason the Swift 2 switch is exhaustive without `default`. */
  lemma PatternCoverage(lo: int, hi: int, status: TrainStatus)
    ensures Matches(DelayedIn(lo, hi), status) ==> Matches(DelayedAny, status)
    ensures Matches(OnTimeCase, status) != Matches(DelayedAny, status)
    ensures Matches(Default, status)
  {
  }

  const LatePrefix: string := "damn, late by "

  /** `"damn, late by \(minutes)"`: the fixed text, then a number that reads
      back as `minutes`. */
  function LateBy(minutes: int): (r: string)
    ensures |r| > |LatePrefix| && r[..|LatePrefix|] == LatePrefix
    ensures Decimal.InRange(minutes) ==> Decimal.Parse(r[|LatePrefix|..]) == Some(minutes)
  {
    var r := LatePrefix + Decimal.Show(minutes);
    assert r[..|LatePrefix|] == LatePrefix && r[|LatePrefix|..] == Decimal.Show(minutes);
    if Decimal.InRange(minutes) then
      Decimal.ParseShow(minutes);
      r
    else r
  }

  /** Which arm of the Swift 1.2 first switch runs. */
  lemma RangeSwitchArm(status: TrainStatus)
    ensures FirstMatch(RangeSwitchArms, status) ==
      if status.OnTime? then Some(0)
      else if 0 <= status.minutes <= 5 then Some(1)
      else Some(2)
  {
    var arms := RangeSwitchArms;
    assert arms[0] == OnTimeCase && arms[1] == DelayedIn(0, 5) && arms[2] == DelayedAny;
  }

  /** Which arm of the Swift 1.2 second switch runs: every delay takes the
      first `.Delayed(let minutes)` arm. */
  lemma DuplicateSwitchArm(status: TrainStatus)
    ensures FirstMatch(DuplicateSwitchArms, status) ==
      if status.OnTime? then Some(0) else Some(1)
  {
    var arms := DuplicateSwitchArms;
    assert arms[0] == OnTimeCase && arms[1] == DelayedAny;
  }

  /** Which arm of the Swift 2 switch runs. */
  lemma GuardedSwitchArm(status: TrainStatus)
    ensures FirstMatch(GuardedSwitchArms, status) ==
      if status.OnTime? then Some(0)
      else if 0 <= status.minutes <= 5 then Some(1)
      else Some(2)
  {
    var arms := GuardedSwitchArms;
    assert arms[0] == OnTimeCase && arms[1] == DelayedIn(0, 5) && arms[2] == DelayedAny;
  }

  /** The value of the Swift 1.2 first switch; `None` is the `default: ()` arm,
      which yields no value. */
  function RangeSwitch(status: TrainStatus): (r: Option<string>)
    ensures status.OnTime? ==> r == Some("awesome")
    ensures status.Delayed? && 0 <= status.minutes <= 5 ==> r == Some(LittleDelayPlaceholder)
    ensures status.Delayed? && !(0 <= status.minutes <= 5) ==> r == Some(LateBy(status.minutes))
  {
    RangeSwitchArm(status);
    var arm := FirstMatch(RangeSwitchArms, status).value;
    if arm == 0 then Some("awesome")
    else if arm == 1 then Some(LittleDelayPlaceholder)
    else if arm == 2 then Some(LateBy(status.minutes))
    else None
  }

  /** The value of the Swift 1.2 second switch, whose two `.Delayed(let minutes)`
      arms overlap completely. */
  function DuplicateSwitch(status: TrainStatus): (r: Option<string>)
    ensures status.OnTime? ==> r == Some("awesome")
    ensures status.Delayed? ==> r == Some(LittleDelayPlaceholder)
  {
    DuplicateSwitchArm(status);
    var arm := FirstMatch(DuplicateSwitchArms, status).value;
    if arm == 0 then Some("awesome")
    else if arm == 1 then Some(LittleDelayPlaceholder)
    else if arm == 2 then
      match status
      case Delayed(minutes) => Some(LateBy(minutes))
      case OnTime => None
    else None
  }

  /** The value of the Swift 2 switch, which needs no `default`. */
  function GuardedSwitch(status: TrainStatus): (r: string)
    ensures status.OnTime? ==> r == "awesome"
    ensures status.Delayed? && 0 <= status.minutes <= 5 ==>
      r == "just a little delay of " + Decimal.Show(status.minutes) + " minutes"
    ensures status.Delayed? && !(0 <= status.minutes <= 5) ==> r == LateBy(status.minutes)
  {
    GuardedSwitchArm(status);
    var arm := FirstMatch(GuardedSwitchArms, status).value;
    if arm == 0 then "awesome"
    else if arm == 1 then "just a little delay of " + Decimal.Show(status.minutes) + " minutes"
    else LateBy(status.minutes)
  }

  /** The Swift 1.2 playground's `Delayed(4)` takes the little-delay arm in both
      of its switches. */
  lemma DelayedFourExample()
    ensures RangeSwitch(Delayed(4)) == Some("just a little delay of ?? minutes")
    ensures DuplicateSwitch(Delayed(4)) == Some("just a little delay of ?? minutes")
  {
  }

  /** The Swift 2 playground's `Delayed(10)` is late. */
  lemma DelayedTenExample()
    ensures GuardedSwitch(Delayed(10)) == "damn, late by 10"
  {
    assert Decimal.Show(10) == "10";
  }
}
