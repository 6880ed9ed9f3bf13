/** The workout records of script.js: the `Workout` base class and its `Running` and
    `Cycling` subclasses, with the description and id every workout receives when it is
    constructed.

    The clock is a parameter: a `Moment` carries what `new Date()` and `Date.now()`
    report at construction (month index, day of month, milliseconds since the epoch). */
module Workouts {
  import opened Options
  import opened Digits

  /** The workout type offered by the form's type selector. */
  datatype Kind = Running | Cycling

  /** `date.getMonth()` */
  type MonthIndex = m: int | 0 <= m < 12

  /** `date.getDate()` */
  type Day = d: int | 1 <= d <= 31 witness 1

  datatype Moment = Moment(month: MonthIndex, day: Day, millis: nat)

  /** The `[lat, lng]` pair taken from the map click. */
  datatype Coords = Coords(lat: real, lng: real)

  /** The subclass-specific part of a workout: `cadence` and the derived `pace` for a
      run, `elevGain` and the derived `speed` for a ride. */
  datatype Detail = RunningDetail(cadence: real, pace: real) | CyclingDetail(elevGain: real, speed: real)

  datatype Workout = Workout(
    id: string,
    moment: Moment,
    coords: Coords,
    distance: real,
    duration: real,
    description: string,
    detail: Detail)
  {
    /** The `type` field: "running" on a `Running`, "cycling" on a `Cycling`. */
    function Type(): Kind {
      if detail.RunningDetail? then Running else Cycling
    }
  }

  /** The string stored in the `type` field. */
  function TypeName(k: Kind): string {
    match k
    case Running => "running"
    case Cycling => "cycling"
  }

  /** The workout type as it reads at the head of a description. */
  function Label(k: Kind): string {
    match k
    case Running => "Running"
    case Cycling => "Cycling"
  }

  const Months: seq<string> :=
    ["January", "February", "March", "April", "May", "June", "July",
     "August", "September", "October", "November", "December"]

  /** `c.toUpperCase()` on the letters the type names are made of. */
  function UpperCase(c: char): char {
    if 'a' <= c <= 'z' then ((c as int) - 32) as char else c
  }

  /** `s[0].toUpperCase() + s.slice(1)`. Indexing the empty string gives `undefined`,
      on which `toUpperCase` throws, so `s` must be non-empty. */
  function Capitalize(s: string): (r: string)
    requires |s| > 0
    ensures |r| == |s| && r[1..] == s[1..]
    ensures r[0] == UpperCase(s[0])
  {
    [UpperCase(s[0])] + s[1..]
  }

  /** `_setDescription`: the type with its first letter upper-cased, " on ", the month
      name, a space, and the day of the month. The description therefore reads
      "Running on ..." or "Cycling on ..." followed by the month's English name and the
      day in decimal. */
  function Describe(kind: Kind, month: MonthIndex, day: Day): (r: string)
    ensures r == Label(kind) + " on " + Months[month] + " " + ToDecimal(day)
  {
    Capitalize(TypeName(kind)) + " on " + Months[month] + " " + ToDecimal(day)
  }

  lemma DescriptionExample()
    ensures Describe(Running, 3, 14) == "Running on April 14"
    ensures Describe(Cycling, 11, 5) == "Cycling on December 5"
  {
  }

  // Reading a description back, to show it determines the type and the date.

  function FirstSpace(s: string): (r: Option<nat>)
    ensures r.Some? ==> r.value < |s| && s[r.value] == ' ' && forall j | 0 <= j < r.value :: s[j] != ' '
    ensures r.None? ==> forall j | 0 <= j < |s| :: s[j] != ' '
  {
    if |s| == 0 then None
    else if s[0] == ' ' then Some(0)
    else match FirstSpace(s[1..])
      case Some(i) => Some(i + 1)
      case None => None
  }

  function MonthFrom(name: string, m: nat): (r: Option<MonthIndex>)
    requires m <= 12
    ensures r.Some? ==> m <= r.value && Months[r.value] == name
    ensures r.None? ==> forall j | m <= j < 12 :: Months[j] != name
    decreases 12 - m
  {
    if m == 12 then None
    else if Months[m] == name then Some(m)
    else MonthFrom(name, m + 1)
  }

  function ParseDay(s: string): Option<Day> {
    if |s| > 0 && AllDigits(s) && 1 <= Value(s) <= 31 then Some(Value(s)) else None
  }

  /** The month and day named by the part of a description after " on ". */
  function ParseDate(s: string): Option<(MonthIndex, Day)> {
    match FirstSpace(s)
    case Some(i) =>
      (match (MonthFrom(s[..i], 0), ParseDay(s[i + 1..]))
       case (Some(m), Some(d)) => Some((m, d))
       case _ => None)
    case None => None
  }

  function ParseKind(s: string): Option<Kind>
    requires |s| == 11
  {
    if s == Label(Running) + " on " then Some(Running)
    else if s == Label(Cycling) + " on " then Some(Cycling)
    else None
  }

  /** The type, month and day a description names, if it has the shape `Describe`
      produces. */
  function ParseDescription(s: string): Option<(Kind, MonthIndex, Day)> {
    if |s| < 11 then None
    else
      match (ParseKind(s[..11]), ParseDate(s[11..]))
      case (Some(k), Some((m, d))) => Some((k, m, d))
      case _ => None
  }

  lemma MonthsHaveNoSpace(m: MonthIndex)
    ensures forall j | 0 <= j < |Months[m]| :: Months[m][j] != ' '
  {
  }

  lemma FirstSpaceAfter(name: string, tail: string)
    requires forall j | 0 <= j < |name| :: name[j] != ' '
    ensures FirstSpace(name + " " + tail) == Some(|name|)
  {
    var s := name + " " + tail;
    assert s[|name|] == ' ';
    forall j | 0 <= j < |name|
      ensures s[j] != ' '
    {
      assert s[j] == name[j];
    }
  }

  lemma MonthNameFound(month: MonthIndex)
    ensures MonthFrom(Months[month], 0) == Some(month)
  {
  }

  lemma DateRoundTrip(month: MonthIndex, day: Day)
    ensures ParseDate(Months[month] + " " + ToDecimal(day)) == Some((month, day))
  {
    var name, digits := Months[month], ToDecimal(day);
    var rest := name + " " + digits;
    MonthsHaveNoSpace(month);
    FirstSpaceAfter(name, digits);
    assert rest[..|name|] == name;
    assert rest[|name| + 1..] == digits;
    MonthNameFound(month);
    ValueOfDecimal(day);
    assert ParseDay(digits) == Some(day);
  }

  lemma KindRoundTrip(kind: Kind)
    ensures |Label(kind) + " on "| == 11
    ensures ParseKind(Label(kind) + " on ") == Some(kind)
  {
    assert (Label(Cycling) + " on ")[0] == 'C';
  }

  /** A description determines the workout type, the month and the day it was made
      from. */
  lemma DescriptionRoundTrip(kind: Kind, month: MonthIndex, day: Day)
    ensures ParseDescription(Describe(kind, month, day)) == Some((kind, month, day))
  {
    var head, rest := Label(kind) + " on ", Months[month] + " " + ToDecimal(day);
    assert Describe(kind, month, day) == head + rest;
    KindRoundTrip(kind);
    ParseSplit(head, rest);
    DateRoundTrip(month, day);
  }

  lemma ParseSplit(head: string, rest: string)
    requires |head| == 11
    ensures ParseDescription(head + rest) ==
      match (ParseKind(head), ParseDate(rest))
      case (Some(k), Some((m, d))) => Some((k, m, d))
      case _ => None
  {
    assert (head + rest)[..11] == head;
    assert (head + rest)[11..] == rest;
  }

  lemma DescriptionInjective(k1: Kind, m1: MonthIndex, d1: Day, k2: Kind, m2: MonthIndex, d2: Day)
    requires Describe(k1, m1, d1) == Describe(k2, m2, d2)
    ensures k1 == k2 && m1 == m2 && d1 == d2
  {
    DescriptionRoundTrip(k1, m1, d1);
    DescriptionRoundTrip(k2, m2, d2);
  }

  // Identity

  /** Ids repeat with this period in milliseconds (about 115 days). */
  const IdPeriod: nat := 10_000_000_000

  /** `(Date.now() + "").slice(-10)`: the last ten characters of the decimal timestamp,
      or all of it while it has ten digits or fewer. */
  function IdOf(millis: nat): (id: string)
    ensures 0 < |id| <= 10 && AllDigits(id)
  {
    Last(ToDecimal(millis), 10)
  }

  /** Read as a number, an id is the timestamp modulo 10^10. */
  lemma IdValue(millis: nat)
    ensures Value(IdOf(millis)) == millis % IdPeriod
  {
    var s := ToDecimal(millis);
    if |s| <= 10 {
      if millis >= Pow10(10) {
        DecimalLengthBelow(millis, 10);
      }
      assert Last(s, |s|) == s;
      ValueOfDecimal(millis);
      DivModUnique(millis, Pow10(10), 0, millis);
    } else {
      ValueOfLastDigits(millis, 10);
    }
  }

  /** From 10^9 milliseconds on (September 2001), every id has exactly ten digits. */
  lemma IdLength(millis: nat)
    requires millis >= 1_000_000_000
    ensures |IdOf(millis)| == 10
  {
    DecimalLengthBelow(millis, 9);
  }

  /** Two timestamps from 10^9 on get the same id exactly when they agree modulo 10^10. */
  lemma IdsEqualIff(t1: nat, t2: nat)
    requires t1 >= 1_000_000_000 && t2 >= 1_000_000_000
    ensures IdOf(t1) == IdOf(t2) <==> t1 % IdPeriod == t2 % IdPeriod
  {
    IdValue(t1);
    IdValue(t2);
    if t1 % IdPeriod == t2 % IdPeriod {
      IdLength(t1);
      IdLength(t2);
      ValueInjective(IdOf(t1), IdOf(t2));
    }
  }

  /** Workouts created exactly 10^10 milliseconds apart share an id. */
  lemma IdRepeats(millis: nat)
    requires millis >= 1_000_000_000
    ensures IdOf(millis) == IdOf(millis + IdPeriod)
  {
    var p := IdPeriod;
    DivModUnique(millis + p, p, millis / p + 1, millis % p);
    IdsEqualIff(millis, millis + p);
  }

  /** Workouts created less than 10^10 milliseconds apart have different ids. */
  lemma IdsDistinctWithinPeriod(t1: nat, t2: nat)
    requires t1 < t2 < t1 + IdPeriod
    ensures IdOf(t1) != IdOf(t2)
  {
    var p := IdPeriod;
    var a, r, e := t1 / p, t1 % p, t2 - t1;
    if r + e < p {
      DivModUnique(t2, p, a, r + e);
    } else {
      DivModUnique(t2, p, a + 1, r + e - p);
    }
    IdValue(t1);
    IdValue(t2);
  }

  // Construction

  /** `new Running(coords, distance, duration, cadence)` at the given moment, which
      sets the description and then computes `pace` by `calcPace`. Only the division
      needs a non-zero distance; the one caller passes positive values. */
  function NewRunning(coords: Coords, distance: real, duration: real, cadence: real, moment: Moment): (w: Workout)
    requires distance != 0.0
    ensures w.detail.RunningDetail? && w.Type() == Running
    ensures w.coords == coords && w.distance == distance && w.duration == duration && w.moment == moment
    ensures w.detail.cadence == cadence
    ensures w.detail.pace * distance == duration
    ensures distance > 0.0 && duration > 0.0 ==> w.detail.pace > 0.0
    ensures w.id == IdOf(moment.millis) && w.description == Describe(Running, moment.month, moment.day)
    ensures distance > 0.0 && duration > 0.0 && cadence > 0.0 ==> WellFormed(w)
  {
    Workout(IdOf(moment.millis), moment, coords, distance, duration,
            Describe(Running, moment.month, moment.day),
            RunningDetail(cadence, duration / distance))
  }

  /** `new Cycling(coords, distance, duration, elevGain)` at the given moment, which
      sets the description and then computes `speed` by `calcSpeed` in km/h from a
      duration in minutes. Only the division needs a non-zero duration; the one caller
      passes positive values. */
  function NewCycling(coords: Coords, distance: real, duration: real, elevGain: real, moment: Moment): (w: Workout)
    requires duration != 0.0
    ensures w.detail.CyclingDetail? && w.Type() == Cycling
    ensures w.coords == coords && w.distance == distance && w.duration == duration && w.moment == moment
    ensures w.detail.elevGain == elevGain
    ensures w.detail.speed == 60.0 * distance / duration
    ensures distance > 0.0 && duration > 0.0 ==> w.detail.speed > 0.0
    ensures w.id == IdOf(moment.millis) && w.description == Describe(Cycling, moment.month, moment.day)
    ensures distance > 0.0 && duration > 0.0 && elevGain > 0.0 ==> WellFormed(w)
  {
    SpeedFormula(distance, duration);
    Workout(IdOf(moment.millis), moment, coords, distance, duration,
            Describe(Cycling, moment.month, moment.day),
            CyclingDetail(elevGain, distance / (duration / 60.0)))
  }

  /** `distance / (duration / 60)` is 60 times distance over duration, and it is
      positive when both are. */
  lemma SpeedFormula(distance: real, duration: real)
    requires duration != 0.0
    ensures distance / (duration / 60.0) == 60.0 * distance / duration
    ensures (distance / (duration / 60.0)) * duration == 60.0 * distance
    ensures distance > 0.0 && duration > 0.0 ==> distance / (duration / 60.0) > 0.0
  {
  }

  /** What every workout the form creates satisfies: positive inputs, the derived
      metric in its defining relation to them, and the id and description of its
      moment. */
  predicate WellFormed(w: Workout) {
    && w.distance > 0.0
    && w.duration > 0.0
    && w.id == IdOf(w.moment.millis)
    && w.description == Describe(w.Type(), w.moment.month, w.moment.day)
    && match w.detail
       case RunningDetail(cadence, pace) => cadence > 0.0 && pace * w.distance == w.duration
       case CyclingDetail(elevGain, speed) => elevGain > 0.0 && speed * w.duration == 60.0 * w.distance
  }

  /** A well-formed workout is exactly what the constructor of its type produces from
      its stored inputs, so trusting the stored pace, speed, id and description is the
      same as recomputing them. */
  lemma WellFormedIsConstructed(w: Workout)
    requires WellFormed(w)
    ensures w.Type() == Running ==>
      w == NewRunning(w.coords, w.distance, w.duration, w.detail.cadence, w.moment)
    ensures w.Type() == Cycling ==>
      w == NewCycling(w.coords, w.distance, w.duration, w.detail.elevGain, w.moment)
  {
  }

  /** A 5 km run in 25 minutes has a pace of 5 min/km; a 20 km ride in 60 minutes has
      a speed of 20 km/h. */
  lemma ConstructionExamples(coords: Coords, moment: Moment)
    ensures NewRunning(coords, 5.0, 25.0, 150.0, moment).detail.pace == 5.0
    ensures NewCycling(coords, 20.0, 60.0, 200.0, moment).detail.speed == 20.0
  {
  }
}
