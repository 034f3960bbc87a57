/**
  The agent action log: the first three stress days, then the last three
  irrigation days, then a fixed "harvest-ready" line.
*/
module AgenticLog {
  import opened Telemetry

  const MaxStressLines: nat := 3
  const MaxIrrigationLines: nat := 3

  /** One line of the log, before it is rendered as text. */
  datatype LogLine =
    | StressAlert(day: int, moisture: real)
    | IrrigationDone(day: int)
    | HarvestReady

  /** The marks that open the three kinds of line. */
  const StressMark: char := '\U{26A0}'
  const IrrigationMark: char := '\U{1F4A7}'
  const HarvestMark: char := '\U{2705}'

  const StressPrefix: string := [StressMark, '\U{FE0F}', ' ']
  const IrrigationPrefix: string := [IrrigationMark, ' ']
  const HarvestReadyText: string := [HarvestMark] + " Today: Crop is harvest-ready. Quality locked."

  function Min(a: nat, b: nat): nat {
    if a < b then a else b
  }

  /** The first n rows (`head(n)`). */
  function Head(rows: seq<Reading>, n: nat): (r: seq<Reading>)
    ensures |r| == Min(n, |rows|) && r <= rows
  {
    rows[..Min(n, |rows|)]
  }

  /** The last n rows (`tail(n)`). */
  function Tail(rows: seq<Reading>, n: nat): (r: seq<Reading>)
    ensures |r| == Min(n, |rows|) && rows[|rows| - |r|..] == r
  {
    rows[|rows| - Min(n, |rows|)..]
  }

  function Alert(r: Reading): LogLine {
    StressAlert(r.day, r.soilMoisture)
  }

  function Confirmation(r: Reading): LogLine {
    IrrigationDone(r.day)
  }

  /** Number of stress lines and of irrigation lines the log holds. */
  function StressLineCount(series: seq<Reading>): nat {
    Min(MaxStressLines, Count(series, Stress))
  }

  function IrrigationLineCount(series: seq<Reading>): nat {
    Min(MaxIrrigationLines, Count(series, Irrigation))
  }

  /** One alert per row. */
  function StressLines(rows: seq<Reading>): (lines: seq<LogLine>) {
    seq(|rows|, k requires 0 <= k < |rows| => Alert(rows[k]))
  }

  /** One confirmation per row. */
  function IrrigationLines(rows: seq<Reading>): (lines: seq<LogLine>) {
    seq(|rows|, k requires 0 <= k < |rows| => Confirmation(rows[k]))
  }

  /** The log as a value: alerts for the earliest stress days, confirmations for the latest irrigation days, the terminal line. */
  function ExpectedLog(series: seq<Reading>): (logs: seq<LogLine>)
    ensures |logs| == StressLineCount(series) + IrrigationLineCount(series) + 1
    ensures 1 <= |logs| <= MaxStressLines + MaxIrrigationLines + 1
    ensures logs[|logs| - 1] == HarvestReady
    ensures forall k :: 0 <= k < |logs| - 1 ==> logs[k] != HarvestReady
    ensures forall k :: 0 <= k < StressLineCount(series) ==> logs[k].StressAlert?
    ensures forall k :: StressLineCount(series) <= k < |logs| - 1 ==> logs[k].IrrigationDone?
  {
    StressLines(Head(Select(series, Stress), MaxStressLines))
      + IrrigationLines(Tail(Select(series, Irrigation), MaxIrrigationLines))
      + [HarvestReady]
  }

  /** Builds the log with two appending loops, as the source does. */
  method GenerateAgenticLog(series: seq<Reading>) returns (logs: seq<LogLine>)
    ensures logs == ExpectedLog(series)
  {
    logs := [];
    var stressDays := Head(Select(series, Stress), MaxStressLines);
    for j := 0 to |stressDays|
      invariant logs == StressLines(stressDays[..j])
    {
      assert StressLines(stressDays[..j + 1]) == StressLines(stressDays[..j]) + [Alert(stressDays[j])];
      logs := logs + [Alert(stressDays[j])];
    }
    assert stressDays[..|stressDays|] == stressDays;
    var irrigationDays := Tail(Select(series, Irrigation), MaxIrrigationLines);
    for j := 0 to |irrigationDays|
      invariant logs == StressLines(stressDays) + IrrigationLines(irrigationDays[..j])
    {
      assert IrrigationLines(irrigationDays[..j + 1]) == IrrigationLines(irrigationDays[..j]) + [Confirmation(irrigationDays[j])];
      logs := logs + [Confirmation(irrigationDays[j])];
    }
    assert irrigationDays[..|irrigationDays|] == irrigationDays;
    logs := logs + [HarvestReady];
  }

  /** The text of one line; dates and numbers are rendered by the given formatters. */
  function LineText(line: LogLine, dateText: int -> string, numberText: real -> string): (t: string)
    ensures |t| > 0
    ensures t[0] == StressMark <==> line.StressAlert?
    ensures t[0] == IrrigationMark <==> line.IrrigationDone?
    ensures t[0] == HarvestMark <==> line.HarvestReady?
    ensures line.HarvestReady? ==> t == HarvestReadyText
  {
    match line
    case StressAlert(day, moisture) =>
      var t := StressPrefix + dateText(day) + ": Moisture dropped to " + numberText(moisture) + "%. Alert sent to farmer.";
      assert t[0] == StressPrefix[0];
      t
    case IrrigationDone(day) =>
      var t := IrrigationPrefix + dateText(day) + ": Verified irrigation cycle completed.";
      assert t[0] == IrrigationPrefix[0];
      t
    case HarvestReady => HarvestReadyText
  }

  /** The list of strings the source returns: every line of the log rendered as text. */
  function LogText(logs: seq<LogLine>, dateText: int -> string, numberText: real -> string): (texts: seq<string>)
    ensures |texts| == |logs|
    ensures forall k :: 0 <= k < |logs| ==>
      |texts[k]| > 0
      && (texts[k][0] == StressMark <==> logs[k].StressAlert?)
      && (texts[k][0] == IrrigationMark <==> logs[k].IrrigationDone?)
      && (texts[k][0] == HarvestMark <==> logs[k].HarvestReady?)
    ensures forall k :: 0 <= k < |logs| && logs[k].HarvestReady? ==> texts[k] == HarvestReadyText
  {
    seq(|logs|, k requires 0 <= k < |logs| => LineText(logs[k], dateText, numberText))
  }

  /** The rendered log: alert texts, then confirmation texts, then the harvest-ready text, which appears only last. */
  lemma ExpectedLogText(series: seq<Reading>, dateText: int -> string, numberText: real -> string)
    ensures var texts := LogText(ExpectedLog(series), dateText, numberText);
      && |texts| == StressLineCount(series) + IrrigationLineCount(series) + 1
      && texts[|texts| - 1] == HarvestReadyText
      && (forall k :: 0 <= k < StressLineCount(series) ==> texts[k][0] == StressMark)
      && (forall k :: StressLineCount(series) <= k < |texts| - 1 ==> texts[k][0] == IrrigationMark)
      && (forall k :: 0 <= k < |texts| - 1 ==> texts[k][0] != HarvestMark)
  {
  }

  // ---------------------------------------------------------------------------
  // Which days are reported

  lemma CountSplit(s: seq<Reading>, i: nat, f: Flag)
    requires i < |s|
    ensures Count(s, f) == Count(s[..i], f) + (if Flagged(s[i], f) then 1 else 0) + Count(s[i + 1..], f)
  {
    assert s == s[..i] + ([s[i]] + s[i + 1..]);
    CountConcat(s[..i], [s[i]] + s[i + 1..], f);
    CountConcat([s[i]], s[i + 1..], f);
    assert [s[i]][1..] == [];
  }

  /** A stress day preceded by fewer than three stress days is alerted, at the position given by that number. */
  lemma StressDayReported(series: seq<Reading>, i: nat)
    requires i < |series| && series[i].stressDetected
    requires Count(series[..i], Stress) < MaxStressLines
    ensures Count(series[..i], Stress) < StressLineCount(series)
    ensures ExpectedLog(series)[Count(series[..i], Stress)] == Alert(series[i])
  {
    SelectAt(series, i, Stress);
  }

  /** Every alert reports a stress day preceded by exactly as many stress days as there are alerts before it. */
  lemma StressAlertOrigin(series: seq<Reading>, k: nat)
    requires k < |ExpectedLog(series)| && ExpectedLog(series)[k].StressAlert?
    ensures exists i ::
      && 0 <= i < |series| && series[i].stressDetected && Count(series[..i], Stress) == k
      && k < MaxStressLines && ExpectedLog(series)[k] == Alert(series[i])
  {
    var i := SelectOriginIndex(series, k, Stress);
    assert Flagged(series[i], Stress);
  }

  /** An irrigation day followed by fewer than three irrigation days is confirmed; the later it is, the later its line. */
  lemma IrrigationDayReported(series: seq<Reading>, i: nat)
    requires i < |series| && series[i].irrigationEvent
    requires Count(series[i + 1..], Irrigation) < MaxIrrigationLines
    ensures Count(series[i + 1..], Irrigation) < IrrigationLineCount(series)
    ensures ExpectedLog(series)[StressLineCount(series) + IrrigationLineCount(series) - 1 - Count(series[i + 1..], Irrigation)]
      == Confirmation(series[i])
  {
    var irrigation := Select(series, Irrigation);
    var before, after := Count(series[..i], Irrigation), Count(series[i + 1..], Irrigation);
    SelectAt(series, i, Irrigation);
    CountSplit(series, i, Irrigation);
    assert |irrigation| == before + 1 + after;
    var nS, nI := StressLineCount(series), IrrigationLineCount(series);
    ConfirmationAt(series, nI - 1 - after);
    assert Count(series, Irrigation) - nI + (nI - 1 - after) == before;
  }

  /** Every confirmation reports an irrigation day followed by exactly as many irrigation days as there are confirmations after it. */
  lemma IrrigationConfirmationOrigin(series: seq<Reading>, k: nat)
    requires k < |ExpectedLog(series)| && ExpectedLog(series)[k].IrrigationDone?
    ensures exists i ::
      && 0 <= i < |series| && series[i].irrigationEvent
      && Count(series[i + 1..], Irrigation) == |ExpectedLog(series)| - 2 - k
      && Count(series[i + 1..], Irrigation) < MaxIrrigationLines
      && ExpectedLog(series)[k] == Confirmation(series[i])
  {
    var nS, nI := StressLineCount(series), IrrigationLineCount(series);
    var logs := ExpectedLog(series);
    assert |logs| == nS + nI + 1 && k < |logs| - 1 && nS <= k;
    var irrigation := Select(series, Irrigation);
    var pos := |irrigation| - nI + (k - nS);
    ConfirmationAt(series, k - nS);
    assert logs[k] == Confirmation(irrigation[pos]);
    var i := SelectOriginIndex(series, pos, Irrigation);
    var after := Count(series[i + 1..], Irrigation);
    CountSplit(series, i, Irrigation);
    assert after == |irrigation| - 1 - pos;
    assert after == |logs| - 2 - k && after < MaxIrrigationLines;
    assert series[i].irrigationEvent && logs[k] == Confirmation(series[i]);
  }

  /** Line j of the log is the alert for the j-th stress day. */
  lemma AlertAt(series: seq<Reading>, j: nat)
    requires j < StressLineCount(series)
    ensures ExpectedLog(series)[j] == Alert(Select(series, Stress)[j])
  {
  }

  /** The j-th confirmation is for the j-th of the last irrigation days. */
  lemma ConfirmationAt(series: seq<Reading>, j: nat)
    requires j < IrrigationLineCount(series)
    ensures ExpectedLog(series)[StressLineCount(series) + j]
      == Confirmation(Select(series, Irrigation)[Count(series, Irrigation) - IrrigationLineCount(series) + j])
  {
  }

  /** On a chronological series, the alerts are in chronological order. */
  lemma AlertsChronological(series: seq<Reading>)
    requires Chronological(series)
    ensures forall j, k :: 0 <= j < k < StressLineCount(series) ==> ExpectedLog(series)[j].day < ExpectedLog(series)[k].day
  {
    SelectChronological(series, Stress);
    forall j, k | 0 <= j < k < StressLineCount(series)
      ensures ExpectedLog(series)[j].day < ExpectedLog(series)[k].day
    {
      AlertAt(series, j);
      AlertAt(series, k);
    }
  }

  /** On a chronological series, the confirmations are in chronological order. */
  lemma ConfirmationsChronological(series: seq<Reading>)
    requires Chronological(series)
    ensures forall j, k :: StressLineCount(series) <= j < k < |ExpectedLog(series)| - 1 ==>
      ExpectedLog(series)[j].day < ExpectedLog(series)[k].day
  {
    SelectChronological(series, Irrigation);
    forall j, k | StressLineCount(series) <= j < k < |ExpectedLog(series)| - 1
      ensures ExpectedLog(series)[j].day < ExpectedLog(series)[k].day
    {
      ConfirmationAt(series, j - StressLineCount(series));
      ConfirmationAt(series, k - StressLineCount(series));
    }
  }

  /**
    When irrigation falls exactly on the stress days, the log holds as many
    confirmations as alerts; with at most three stress days they report the
    same days.
  */
  lemma AgreeingFlagsLogPairs(series: seq<Reading>)
    requires forall i :: 0 <= i < |series| ==> series[i].irrigationEvent == series[i].stressDetected
    ensures |ExpectedLog(series)| == 2 * StressLineCount(series) + 1
    ensures Count(series, Stress) <= MaxStressLines ==>
      forall k :: 0 <= k < StressLineCount(series) ==>
        ExpectedLog(series)[StressLineCount(series) + k].day == ExpectedLog(series)[k].day
  {
    SelectAgreeingFlags(series);
    if Count(series, Stress) <= MaxStressLines {
      forall k | 0 <= k < StressLineCount(series)
        ensures ExpectedLog(series)[StressLineCount(series) + k].day == ExpectedLog(series)[k].day
      {
        AlertAt(series, k);
        ConfirmationAt(series, k);
      }
    }
  }

  /**
    On a generated series the alerts are chronological and are paired with the
    confirmations as `AgreeingFlagsLogPairs` states.
  */
  lemma GeneratedLogPairsAlerts(now: int, crop: string, draws: seq<Draw>)
    requires |draws| == SeriesLength && ValidDraws(draws)
    ensures var series := SensorSeries(now, crop, draws);
      var logs := ExpectedLog(series);
      && |logs| == 2 * StressLineCount(series) + 1
      && (forall j, k :: 0 <= j < k < StressLineCount(series) ==> logs[j].day < logs[k].day)
      && (Count(series, Stress) <= MaxStressLines ==>
            forall k :: 0 <= k < StressLineCount(series) ==> logs[StressLineCount(series) + k].day == logs[k].day)
  {
    var series := SensorSeries(now, crop, draws);
    assert Chronological(series) by {
      forall i, j | 0 <= i < j < |series| ensures series[i].day < series[j].day {
        SeriesDayAt(now, crop, draws, i);
        SeriesDayAt(now, crop, draws, j);
      }
    }
    AlertsChronological(series);
    AgreeingFlagsLogPairs(series);
  }
}
