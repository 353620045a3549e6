/** The call activity grid: the twelve weeks before today, one cell per
    local day, shaded by how many calls were logged that day. Dates are
    local day numbers; `toLocaleDateString` is a parameter. */
module ActivityGrid {
  import opened CallTypes
  import opened Text
  import opened Clock
  import Stats

  const GridDays: nat := 84

  /** One cell: its day, its number of calls, their outcomes, its shade. */
  datatype DayData = DayData(date: int, calls: nat, outcomes: seq<RecordedOutcome>, intensity: nat)

  /** `toDateString()` of the record equals that of the day; an Invalid
      Date renders `"Invalid Date"` and equals no real day. */
  predicate OnDay(c: CallEntry, day: int, zone: int) {
    c.timestamp.At? && LocalDay(c.timestamp.ms, zone) == day
  }

  /** The records of one day, in list order. */
  function DaysCalls(calls: seq<CallEntry>, day: int, zone: int): (r: seq<CallEntry>)
    ensures |r| <= |calls|
    ensures forall c :: c in r <==> c in calls && OnDay(c, day, zone)
  {
    if calls == [] then []
    else
      var c := calls[|calls| - 1];
      var init := DaysCalls(calls[..|calls| - 1], day, zone);
      assert calls == calls[..|calls| - 1] + [c];
      if OnDay(c, day, zone) then init + [c] else init
  }

  /** The day's records of a joined list are the day's records of each part,
      joined: the filter keeps order and multiplicity. */
  lemma {:induction false} DaysCallsConcat(a: seq<CallEntry>, b: seq<CallEntry>, day: int, zone: int)
    ensures DaysCalls(a + b, day, zone) == DaysCalls(a, day, zone) + DaysCalls(b, day, zone)
  {
    if b == [] {
      assert a + b == a;
    } else {
      assert (a + b)[..|a + b| - 1] == a + b[..|b| - 1];
      DaysCallsConcat(a, b[..|b| - 1], day, zone);
    }
  }

  /** A single record is kept exactly when it is dated that day. */
  lemma DaysCallsOne(c: CallEntry, day: int, zone: int)
    ensures DaysCalls([c], day, zone) == if OnDay(c, day, zone) then [c] else []
  {
    assert [c][..0] == [];
  }

  function Outcomes(calls: seq<CallEntry>): (r: seq<RecordedOutcome>)
    ensures |r| == |calls|
    ensures forall i :: 0 <= i < |calls| ==> r[i] == calls[i].outcome
  {
    seq(|calls|, i requires 0 <= i < |calls| => calls[i].outcome)
  }

  /** The shade of a day: 0 for no calls, 1 for 1-5, 2 for 6-10, 3 for 11-20,
      4 above 20. */
  function Intensity(n: nat): nat {
    if n == 0 then 0
    else if n <= 5 then 1
    else if n <= 10 then 2
    else if n <= 20 then 3
    else 4
  }

  /** The shade lies in 0..4, grows with the count and is 0 only for an empty day. */
  lemma IntensityProperties(m: nat, n: nat)
    ensures Intensity(n) <= 4
    ensures Intensity(n) == 0 <==> n == 0
    ensures m <= n ==> Intensity(m) <= Intensity(n)
  {
  }

  /** The cell of day `day`. */
  function DayDataOf(calls: seq<CallEntry>, day: int, zone: int): DayData {
    var daysCalls := DaysCalls(calls, day, zone);
    DayData(day, |daysCalls|, Outcomes(daysCalls), Intensity(|daysCalls|))
  }

  /** `generateGridData`: 84 cells from 84 days before today, the shade
      worked out by successive ifs. */
  method GenerateGridData(calls: seq<CallEntry>, today: int, zone: int) returns (gridData: seq<DayData>)
    ensures |gridData| == GridDays
    ensures forall i :: 0 <= i < |gridData| ==> gridData[i] == DayDataOf(calls, today - GridDays + i, zone)
  {
    var startDate := today - 12 * 7;
    gridData := [];
    for i := 0 to 84
      invariant |gridData| == i
      invariant forall k :: 0 <= k < i ==> gridData[k] == DayDataOf(calls, today - GridDays + k, zone)
    {
      var currentDate := startDate + i;
      var daysCalls := DaysCalls(calls, currentDate, zone);
      var callCount := |daysCalls|;
      var outcomes := Outcomes(daysCalls);
      var intensity := 0;
      if callCount > 0 { intensity := 1; }
      if callCount > 5 { intensity := 2; }
      if callCount > 10 { intensity := 3; }
      if callCount > 20 { intensity := 4; }
      gridData := gridData + [DayData(currentDate, callCount, outcomes, intensity)];
    }
  }

  /** The grid covers the 84 days ending yesterday: today never shows, and
      every cell's counts agree with its outcomes. */
  lemma GridWindow(calls: seq<CallEntry>, today: int, zone: int, i: nat)
    requires i < GridDays
    ensures DayDataOf(calls, today - GridDays + i, zone).date < today
    ensures DayDataOf(calls, today - GridDays + i, zone).date >= today - GridDays
    ensures |DayDataOf(calls, today - GridDays + i, zone).outcomes| == DayDataOf(calls, today - GridDays + i, zone).calls
    ensures forall c :: c in calls && OnDay(c, today, zone) ==> c !in DaysCalls(calls, today - GridDays + i, zone)
  {
  }

  // ---- the cell counts add up ----

  /** The total of the counts of `n` consecutive days from `lo`. */
  function SumDays(calls: seq<CallEntry>, lo: int, n: nat, zone: int): nat {
    if n == 0 then 0 else SumDays(calls, lo, n - 1, zone) + |DaysCalls(calls, lo + n - 1, zone)|
  }

  /** The records dated in [lo, lo + n), in list order. */
  function InWindow(calls: seq<CallEntry>, lo: int, n: nat, zone: int): (r: seq<CallEntry>)
    ensures |r| <= |calls|
  {
    if calls == [] then []
    else
      var c := calls[|calls| - 1];
      var init := InWindow(calls[..|calls| - 1], lo, n, zone);
      if c.timestamp.At? && lo <= LocalDay(c.timestamp.ms, zone) < lo + n then init + [c] else init
  }

  lemma {:induction false} SumDaysAppend(calls: seq<CallEntry>, c: CallEntry, lo: int, n: nat, zone: int)
    ensures SumDays(calls + [c], lo, n, zone) == SumDays(calls, lo, n, zone) +
      (if c.timestamp.At? && lo <= LocalDay(c.timestamp.ms, zone) < lo + n then 1 else 0)
  {
    if n > 0 {
      SumDaysAppend(calls, c, lo, n - 1, zone);
      assert (calls + [c])[..|calls + [c]| - 1] == calls;
    }
  }

  /** Each record is counted on at most one day: the cells of a window add up
      to the records dated inside it, so they never exceed the list. */
  lemma {:induction false} GridCountsAddUp(calls: seq<CallEntry>, lo: int, n: nat, zone: int)
    ensures SumDays(calls, lo, n, zone) == |InWindow(calls, lo, n, zone)|
    ensures SumDays(calls, lo, n, zone) <= |calls|
  {
    if calls == [] {
      SumDaysEmpty(lo, n, zone);
    } else {
      var init := calls[..|calls| - 1];
      var c := calls[|calls| - 1];
      GridCountsAddUp(init, lo, n, zone);
      assert calls == init + [c];
      SumDaysAppend(init, c, lo, n, zone);
    }
  }

  lemma {:induction false} SumDaysEmpty(lo: int, n: nat, zone: int)
    ensures SumDays([], lo, n, zone) == 0
  {
    if n > 0 {
      SumDaysEmpty(lo, n - 1, zone);
    }
  }

  // ---- tooltip ----

  /** The successful outcomes among a day's: `yes-needs-confirmation` or
      `confirmed-sale`; a cast value equals neither tag. */
  function SuccessCount(outcomes: seq<RecordedOutcome>): (r: nat)
    ensures r <= |outcomes|
  {
    if outcomes == [] then 0
    else
      var last := outcomes[|outcomes| - 1];
      SuccessCount(outcomes[..|outcomes| - 1])
        + (if last == Tagged(YesNeedsConfirmation) || last == Tagged(ConfirmedSale) then 1 else 0)
  }

  /** The tooltip counts the same successes the statistics call affirmative. */
  lemma {:induction false} SuccessCountIsYesCount(calls: seq<CallEntry>)
    ensures SuccessCount(Outcomes(calls)) == Stats.YesCount(calls)
  {
    if calls != [] {
      SuccessCountIsYesCount(calls[..|calls| - 1]);
      assert Outcomes(calls)[..|calls| - 1] == Outcomes(calls[..|calls| - 1]);
    }
  }

  /** `formatTooltip`; `dateText` stands for `toLocaleDateString`. */
  function FormatTooltip(day: DayData, dateText: int -> string): (r: string)
    ensures day.calls == 0 ==> r == dateText(day.date) + ": No calls"
    ensures day.calls != 0 ==>
      r == dateText(day.date) + ": " + NatDigits(day.calls) + " calls, " + NatDigits(SuccessCount(day.outcomes)) + " successful"
  {
    if day.calls == 0 then dateText(day.date) + ": No calls"
    else dateText(day.date) + ": " + NatDigits(day.calls) + " calls, " + NatDigits(SuccessCount(day.outcomes)) + " successful"
  }

  /** A cell's tooltip ends in "No calls" exactly when the day had none, and
      otherwise reports no more successes than calls. */
  lemma TooltipFacts(calls: seq<CallEntry>, dayNumber: int, zone: int, dateText: int -> string)
    ensures var day := DayDataOf(calls, dayNumber, zone);
      var r := FormatTooltip(day, dateText);
      (|r| >= 8 && r[|r| - 8..] == "No calls") <==> day.calls == 0
    ensures SuccessCount(DayDataOf(calls, dayNumber, zone).outcomes) <= DayDataOf(calls, dayNumber, zone).calls
  {
    var day := DayDataOf(calls, dayNumber, zone);
    var r := FormatTooltip(day, dateText);
    if day.calls != 0 {
      var tail := " successful";
      assert r == (dateText(day.date) + ": " + NatDigits(day.calls) + " calls, " + NatDigits(SuccessCount(day.outcomes))) + tail;
      assert r[|r| - 8..] == tail[3..];
    } else {
      var tail := ": No calls";
      assert r == dateText(day.date) + tail;
      assert r[|r| - 8..] == tail[2..];
    }
  }

  // ---- weeks ----

  function Flatten(weeks: seq<seq<DayData>>): seq<DayData> {
    if weeks == [] then [] else Flatten(weeks[..|weeks| - 1]) + weeks[|weeks| - 1]
  }

  /** The `weeks` loop: slices of seven, the last one shorter if need be. */
  method ChunkWeeks(gridData: seq<DayData>) returns (weeks: seq<seq<DayData>>)
    ensures Flatten(weeks) == gridData
    ensures |weeks| == (|gridData| + 6) / 7
    ensures forall k :: 0 <= k < |weeks| ==> weeks[k] == gridData[7 * k .. if 7 * k + 7 <= |gridData| then 7 * k + 7 else |gridData|]
  {
    weeks := [];
    var i: nat := 0;
    while i < |gridData|
      invariant i == 7 * |weeks|
      invariant i <= |gridData| ==> Flatten(weeks) == gridData[..i]
      invariant i > |gridData| ==> Flatten(weeks) == gridData && |gridData| > i - 7
      invariant forall k :: 0 <= k < |weeks| ==> weeks[k] == gridData[7 * k .. if 7 * k + 7 <= |gridData| then 7 * k + 7 else |gridData|]
      decreases |gridData| - i
    {
      var end := if i + 7 <= |gridData| then i + 7 else |gridData|;
      var week := gridData[i..end];
      assert gridData[..i] + week == gridData[..end];
      weeks := weeks + [week];
      i := i + 7;
    }
    if i == |gridData| {
      assert gridData[..i] == gridData;
    }
  }

  /** The 84-cell grid makes twelve full weeks. */
  lemma TwelveWeeks(weeks: seq<seq<DayData>>, gridData: seq<DayData>)
    requires |gridData| == GridDays
    requires |weeks| == (|gridData| + 6) / 7
    requires forall k :: 0 <= k < |weeks| ==> weeks[k] == gridData[7 * k .. if 7 * k + 7 <= |gridData| then 7 * k + 7 else |gridData|]
    ensures |weeks| == 12
    ensures forall k :: 0 <= k < 12 ==> |weeks[k]| == 7 && weeks[k][0] == gridData[7 * k]
  {
  }
}
