/**
  The telemetry generator of the trust oracle: a 90-day synthetic series of
  soil and climate readings for a (farm, crop) pair, the stress-day counter
  and the trust score derived from it.

  The random draws of one day (moisture/temperature noise, the stress coin and
  the humidity) are handed in as a `Draw`; calendar days are integer day
  ordinals, `now` being today.
*/
module Telemetry {

  /** Number of readings in a series, one per calendar day. */
  const SeriesLength: nat := 90

  /** A day is stressed when the stress coin lands strictly above this value. */
  const StressThreshold: real := 0.95
  /** Moisture lost on a stress day. */
  const StressPenalty: real := 15.0
  /** Irrigation fires when moisture is more than this below the ideal. */
  const IrrigationMargin: real := 5.0
  /** Moisture restored by one irrigation cycle. */
  const IrrigationBoost: real := 10.0

  /** Trust points lost per stress day, and the full score. */
  const PointsPerStressDay: int := 5
  const FullScore: int := 100

  /** The random draws consumed by one day of the series, in draw order. */
  datatype Draw = Draw(noise: real, stressRoll: real, humidity: real)

  /** The ranges `random.uniform(-2, 2)`, `random.random()` and `random.uniform(40, 60)` draw from. */
  predicate ValidDraw(d: Draw) {
    -2.0 <= d.noise <= 2.0 && 0.0 <= d.stressRoll < 1.0 && 40.0 <= d.humidity <= 60.0
  }

  predicate ValidDraws(draws: seq<Draw>) {
    forall i :: 0 <= i < |draws| ==> ValidDraw(draws[i])
  }

  /** One row of the series. */
  datatype Reading = Reading(
    day: int,
    soilMoisture: real,
    temperature: real,
    humidity: real,
    irrigationEvent: bool,
    stressDetected: bool)

  /** The ideal moisture and temperature of a crop. */
  datatype Profile = Profile(moisture: int, temperature: int)

  const TomatoProfile := Profile(60, 24)
  const DefaultProfile := Profile(40, 28)

  /** Tomato has the wet profile; every other crop name falls back to the dry one. */
  function Baseline(crop: string): (p: Profile)
    ensures p == TomatoProfile <==> crop == "Tomato"
    ensures p == DefaultProfile <==> crop != "Tomato"
  {
    if crop == "Tomato" then TomatoProfile else DefaultProfile
  }

  // ---------------------------------------------------------------------------
  // Calendar days

  function Reverse<T>(s: seq<T>): (r: seq<T>)
    ensures |r| == |s|
    ensures forall k :: 0 <= k < |s| ==> r[k] == s[|s| - 1 - k]
  {
    if s == [] then [] else Reverse(s[1..]) + [s[0]]
  }

  /** `now - x days` for x = 0 .. 89: newest first. */
  function DaysBack(now: int): (days: seq<int>)
    ensures |days| == SeriesLength && days[0] == now
    ensures forall i :: 0 <= i < SeriesLength - 1 ==> days[i + 1] == days[i] - 1
  {
    seq(SeriesLength, x => now - x)
  }

  /** The days of the series after the list is reversed: consecutive, oldest first, ending today. */
  function CalendarDays(now: int): (days: seq<int>)
    ensures |days| == SeriesLength
    ensures days[SeriesLength - 1] == now
    ensures forall i :: 0 <= i < SeriesLength - 1 ==> days[i + 1] == days[i] + 1
    ensures forall i :: 0 <= i < SeriesLength ==> days[i] == now - (SeriesLength - 1) + i
  {
    Reverse(DaysBack(now))
  }

  // ---------------------------------------------------------------------------
  // One day

  /**
    The reading of one day, stated as an expression: moisture is the ideal plus
    the noise, minus the penalty on a stress day; if that is more than the
    margin below the ideal, irrigation adds the boost back.
  */
  function DayReading(day: int, crop: string, d: Draw): (r: Reading)
    requires ValidDraw(d)
    ensures r.day == day && r.humidity == d.humidity
    ensures r.stressDetected <==> d.stressRoll > StressThreshold
    // irrigation fires exactly on stress days
    ensures r.irrigationEvent <==> r.stressDetected
    // an irrigated day was, before the correction, more than the margin below the ideal
    ensures r.irrigationEvent ==>
      r.soilMoisture - IrrigationBoost < Baseline(crop).moisture as real - IrrigationMargin
    ensures !r.stressDetected ==>
      Baseline(crop).moisture as real - 2.0 <= r.soilMoisture <= Baseline(crop).moisture as real + 2.0
    ensures r.stressDetected ==>
      Baseline(crop).moisture as real - 7.0 <= r.soilMoisture <= Baseline(crop).moisture as real - 3.0
    ensures Baseline(crop).temperature as real - 2.0 <= r.temperature <= Baseline(crop).temperature as real + 2.0
  {
    var p := Baseline(crop);
    var stress := d.stressRoll > StressThreshold;
    var before := p.moisture as real + d.noise - (if stress then StressPenalty else 0.0);
    var irrigated := before < p.moisture as real - IrrigationMargin;
    Reading(day, if irrigated then before + IrrigationBoost else before,
            p.temperature as real + d.noise, d.humidity, irrigated, stress)
  }

  /** The whole series, day i being `now - 89 + i`. */
  function SensorSeries(now: int, crop: string, draws: seq<Draw>): (series: seq<Reading>)
    requires |draws| == SeriesLength && ValidDraws(draws)
    ensures |series| == SeriesLength
    ensures series[SeriesLength - 1].day == now
    ensures forall i :: 0 <= i < SeriesLength - 1 ==> series[i + 1].day == series[i].day + 1
    ensures forall i :: 0 <= i < SeriesLength ==> series[i].irrigationEvent == series[i].stressDetected
  {
    seq(SeriesLength, i requires 0 <= i < SeriesLength => DayReading(now - (SeriesLength - 1) + i, crop, draws[i]))
  }

  lemma SeriesDayAt(now: int, crop: string, draws: seq<Draw>, i: nat)
    requires |draws| == SeriesLength && ValidDraws(draws) && i < SeriesLength
    ensures SensorSeries(now, crop, draws)[i].day == now - (SeriesLength - 1) + i
  {
  }

  // ---------------------------------------------------------------------------
  // Counting and selecting flagged readings

  /** The two boolean columns of a reading. */
  datatype Flag = Stress | Irrigation

  predicate Flagged(r: Reading, f: Flag) {
    match f
    case Stress => r.stressDetected
    case Irrigation => r.irrigationEvent
  }

  /** Number of readings carrying the flag. */
  function Count(s: seq<Reading>, f: Flag): (c: nat)
    ensures c <= |s|
  {
    if s == [] then 0 else (if Flagged(s[0], f) then 1 else 0) + Count(s[1..], f)
  }

  /** Every reading is flagged iff the count is the length of the series. */
  lemma {:induction false} CountFullIffAll(s: seq<Reading>, f: Flag)
    ensures Count(s, f) == |s| <==> forall i :: 0 <= i < |s| ==> Flagged(s[i], f)
  {
    if s != [] {
      CountFullIffAll(s[1..], f);
      assert forall i :: 1 <= i < |s| ==> s[i] == s[1..][i - 1];
    }
  }

  /** The readings carrying the flag, in series order (the boolean-mask filter). */
  function Select(s: seq<Reading>, f: Flag): (r: seq<Reading>)
    ensures |r| == Count(s, f)
    ensures forall k :: 0 <= k < |r| ==> Flagged(r[k], f) && r[k] in s
  {
    if s == [] then [] else (if Flagged(s[0], f) then [s[0]] else []) + Select(s[1..], f)
  }

  lemma {:induction false} CountConcat(a: seq<Reading>, b: seq<Reading>, f: Flag)
    ensures Count(a + b, f) == Count(a, f) + Count(b, f)
  {
    if a == [] {
      assert a + b == b;
    } else {
      assert (a + b)[1..] == a[1..] + b;
      CountConcat(a[1..], b, f);
    }
  }

  lemma {:induction false} SelectConcat(a: seq<Reading>, b: seq<Reading>, f: Flag)
    ensures Select(a + b, f) == Select(a, f) + Select(b, f)
  {
    if a == [] {
      assert a + b == b;
    } else {
      assert (a + b)[1..] == a[1..] + b;
      SelectConcat(a[1..], b, f);
    }
  }

  /** No flagged reading iff the count is zero. */
  lemma {:induction false} CountZeroIffNone(s: seq<Reading>, f: Flag)
    ensures Count(s, f) == 0 <==> forall i :: 0 <= i < |s| ==> !Flagged(s[i], f)
  {
    if s != [] {
      CountZeroIffNone(s[1..], f);
      assert forall i :: 1 <= i < |s| ==> s[i] == s[1..][i - 1];
    }
  }

  /** A flagged reading at index i sits in the selection at the position given by the flagged readings before it. */
  lemma SelectAt(s: seq<Reading>, i: nat, f: Flag)
    requires i < |s| && Flagged(s[i], f)
    ensures Count(s[..i], f) < |Select(s, f)|
    ensures Select(s, f)[Count(s[..i], f)] == s[i]
  {
    assert s == s[..i] + ([s[i]] + s[i + 1..]);
    SelectConcat(s[..i], [s[i]] + s[i + 1..], f);
    SelectConcat([s[i]], s[i + 1..], f);
    assert [s[i]][1..] == [];
  }

  /** Every position of the selection comes from a flagged reading with exactly that many flagged readings before it. */
  lemma {:induction false} SelectOrigin(s: seq<Reading>, k: nat, f: Flag)
    requires k < |Select(s, f)|
    ensures exists i :: 0 <= i < |s| && Flagged(s[i], f) && Count(s[..i], f) == k && Select(s, f)[k] == s[i]
  {
    var i := SelectOriginIndex(s, k, f);
  }

  /** Counting a prefix of one more reading than a prefix of the tail. */
  lemma CountPrefixStep(s: seq<Reading>, j: nat, f: Flag)
    requires j < |s|
    ensures Count(s[..j + 1], f) == (if Flagged(s[0], f) then 1 else 0) + Count(s[1..][..j], f)
  {
    assert s[..j + 1][1..] == s[1..][..j];
  }

  /** The witness of `SelectOrigin`, by induction on the series. */
  lemma {:induction false} SelectOriginIndex(s: seq<Reading>, k: nat, f: Flag) returns (i: nat)
    requires k < |Select(s, f)|
    ensures i < |s| && Flagged(s[i], f) && Count(s[..i], f) == k && Select(s, f)[k] == s[i]
  {
    assert s != [];
    var rest := Select(s[1..], f);
    if Flagged(s[0], f) {
      assert Select(s, f) == [s[0]] + rest;
      if k == 0 {
        assert s[..0] == [];
        i := 0;
      } else {
        var j := SelectOriginIndex(s[1..], k - 1, f);
        CountPrefixStep(s, j, f);
        assert Select(s, f)[k] == rest[k - 1] == s[1..][j] == s[j + 1];
        i := j + 1;
      }
    } else {
      assert Select(s, f) == rest;
      var j := SelectOriginIndex(s[1..], k, f);
      CountPrefixStep(s, j, f);
      assert Select(s, f)[k] == rest[k] == s[1..][j] == s[j + 1];
      i := j + 1;
    }
  }

  /** Readings whose days strictly increase. */
  predicate Chronological(s: seq<Reading>) {
    forall i, j :: 0 <= i < j < |s| ==> s[i].day < s[j].day
  }

  /** Filtering keeps the order of the series. */
  lemma {:induction false} SelectChronological(s: seq<Reading>, f: Flag)
    requires Chronological(s)
    ensures Chronological(Select(s, f))
  {
    if s != [] {
      assert Chronological(s[1..]);
      SelectChronological(s[1..], f);
      var rest := Select(s[1..], f);
      forall k | 0 <= k < |rest| ensures s[0].day < rest[k].day {
        assert rest[k] in s[1..];
      }
    }
  }

  /** When the two flags agree on every reading, so do the selections. */
  lemma {:induction false} SelectAgreeingFlags(s: seq<Reading>)
    requires forall i :: 0 <= i < |s| ==> s[i].irrigationEvent == s[i].stressDetected
    ensures Select(s, Irrigation) == Select(s, Stress)
  {
    if s != [] {
      assert forall i :: 0 <= i < |s[1..]| ==> s[1..][i] == s[i + 1];
      SelectAgreeingFlags(s[1..]);
    }
  }

  // ---------------------------------------------------------------------------
  // Trust score

  /** `max(0, 100 - 5 * abnormalities)`. */
  function TrustScore(abnormalities: nat): (score: int)
    ensures 0 <= score <= FullScore
    ensures score == FullScore <==> abnormalities == 0
    ensures score == 0 <==> abnormalities >= FullScore / PointsPerStressDay
    ensures 0 < score ==> FullScore - score == PointsPerStressDay * abnormalities
  {
    var raw := FullScore - abnormalities * PointsPerStressDay;
    if raw > 0 then raw else 0
  }

  /** A series scores full marks iff none of its days is stressed. */
  lemma SeriesScoreFullIffNoStress(series: seq<Reading>)
    ensures TrustScore(Count(series, Stress)) == FullScore <==>
      forall i :: 0 <= i < |series| ==> !series[i].stressDetected
  {
    CountZeroIffNone(series, Stress);
  }

  // ---------------------------------------------------------------------------
  // The generator

  /**
    Builds the series day by day, oldest first, counting stress days as it goes,
    and returns it with the trust score of the counter. `farmId` plays no part
    in the readings.
  */
  method FetchSensorHistory(farmId: string, crop: string, now: int, draws: seq<Draw>)
    returns (series: seq<Reading>, trustScore: int)
    requires |draws| == SeriesLength && ValidDraws(draws)
    ensures series == SensorSeries(now, crop, draws)
    ensures trustScore == TrustScore(Count(series, Stress))
  {
    var dates := CalendarDays(now);
    var profile := Baseline(crop);
    var idealMoisture, idealTemp := profile.moisture as real, profile.temperature as real;
    series := [];
    var abnormalities: nat := 0;
    for i := 0 to |dates|
      invariant |series| == i
      invariant forall k :: 0 <= k < i ==> series[k] == DayReading(now - (SeriesLength - 1) + k, crop, draws[k])
      invariant abnormalities == Count(series, Stress)
    {
      var noise := draws[i].noise;
      var isStress := draws[i].stressRoll > StressThreshold;
      var moisture := idealMoisture + noise;
      if isStress {
        moisture := moisture - StressPenalty;
        abnormalities := abnormalities + 1;
      }
      var temp := idealTemp + noise;
      var irrigated := false;
      if moisture < idealMoisture - IrrigationMargin {
        moisture := moisture + IrrigationBoost;
        irrigated := true;
      }
      var reading := Reading(dates[i], moisture, temp, draws[i].humidity, irrigated, isStress);
      assert reading == DayReading(now - (SeriesLength - 1) + i, crop, draws[i]);
      CountConcat(series, [reading], Stress);
      assert Count([reading], Stress) == (if isStress then 1 else 0);
      series := series + [reading];
    }
    trustScore := if FullScore - abnormalities * PointsPerStressDay > 0 then FullScore - abnormalities * PointsPerStressDay else 0;
  }
}
