/** The daily sales board: four time windows of the working day, each with a
    target number of sales; confirmed sales are sorted into the windows by
    their "HH:MM" clock text; sales above a window's target overflow into
    translucent boxes of later windows; each window draws one box per target
    or per sale, whichever is more. */
module DailySales {
  import opened CallTypes
  import opened Text
  import opened Clock

  /** One window: its label, its `"HH:MM"` bounds and its target. */
  datatype Slot = Slot(period: string, startTime: string, endTime: string, targetSlots: nat)

  const TimeSlots: seq<Slot> := [
    Slot("1", "09:00", "10:50", 2),
    Slot("2", "10:50", "12:45", 1),
    Slot("3", "12:45", "15:30", 1),
    Slot("4", "15:30", "17:30", 1)
  ]

  /** The window bounds as minutes of the day: window `i` is [Bound(i), Bound(i + 1)). */
  function Bound(i: nat): nat
    requires i <= 4
  {
    [540, 650, 765, 930, 1050][i]
  }

  // ---- clock text and its ordering ----

  /** `toTimeString().slice(0, 5)` of a minute of the day: `"HH:MM"`. */
  function HHMM(minute: nat): (r: string)
    requires minute < 1440
    ensures |r| == 5
  {
    var h := minute / 60;
    var m := minute % 60;
    [DigitChar(h / 10), DigitChar(h % 10), ':', DigitChar(m / 10), DigitChar(m % 10)]
  }

  /** The clock text of a record's date; an Invalid Date reads `"Invalid Date"`,
      whose first five characters are `"Inval"`. */
  function ClockText(ts: Instant, zone: int): string {
    match ts
    case At(t) => HHMM(LocalMinute(t, zone))
    case InvalidDate => "Inval"
  }

  /** JavaScript's `<` on strings: code unit by code unit, a proper prefix first. */
  function LexLess(a: string, b: string): bool {
    LexLessFrom(a, b, 0)
  }

  function LexLessFrom(a: string, b: string, k: nat): bool
    decreases |b| - k
  {
    if k >= |b| then false
    else if k >= |a| then true
    else if a[k] != b[k] then a[k] < b[k]
    else LexLessFrom(a, b, k + 1)
  }

  lemma DigitsOfMinute(x: nat)
    requires x < 1440
    ensures x == 600 * ((x / 60) / 10) + 60 * ((x / 60) % 10) + 10 * ((x % 60) / 10) + (x % 60) % 10
    ensures (x / 60) / 10 <= 2 && (x % 60) / 10 < 6
  {
  }

  /** Two clock texts compare by hour digits, then minute digits. */
  lemma LexLessClock(A: string, B: string)
    requires |A| == 5 && |B| == 5 && A[2] == B[2]
    ensures LexLess(A, B) <==>
      A[0] < B[0] || (A[0] == B[0] && (A[1] < B[1] || (A[1] == B[1] &&
      (A[3] < B[3] || (A[3] == B[3] && A[4] < B[4])))))
  {
    assert LexLessFrom(A, B, 5) == false;
    assert LexLessFrom(A, B, 4) == (A[4] < B[4]);
    assert LexLessFrom(A, B, 3) == (A[3] < B[3] || (A[3] == B[3] && A[4] < B[4]));
    assert LexLessFrom(A, B, 2) == LexLessFrom(A, B, 3);
    assert LexLessFrom(A, B, 1) == (A[1] < B[1] || (A[1] == B[1] && LexLessFrom(A, B, 2)));
    assert LexLessFrom(A, B, 0) == (A[0] < B[0] || (A[0] == B[0] && LexLessFrom(A, B, 1)));
  }

  /** Comparing clock texts compares the times. */
  lemma HHMMOrder(a: nat, b: nat)
    requires a < 1440 && b < 1440
    ensures LexLess(HHMM(a), HHMM(b)) <==> a < b
  {
    DigitsOfMinute(a);
    DigitsOfMinute(b);
    LexLessClock(HHMM(a), HHMM(b));
    var a0, a1, a3, a4 := (a / 60) / 10, (a / 60) % 10, (a % 60) / 10, (a % 60) % 10;
    var b0, b1, b3, b4 := (b / 60) / 10, (b / 60) % 10, (b % 60) / 10, (b % 60) % 10;
    assert HHMM(a)[0] < HHMM(b)[0] <==> a0 < b0;
    assert HHMM(a)[1] < HHMM(b)[1] <==> a1 < b1;
    assert HHMM(a)[3] < HHMM(b)[3] <==> a3 < b3;
    assert HHMM(a)[4] < HHMM(b)[4] <==> a4 < b4;
    assert HHMM(a)[0] == HHMM(b)[0] <==> a0 == b0;
    assert HHMM(a)[1] == HHMM(b)[1] <==> a1 == b1;
    assert HHMM(a)[3] == HHMM(b)[3] <==> a3 == b3;
  }

  /** `callTime >= slot.startTime && callTime < slot.endTime`. */
  predicate InSlot(ts: Instant, slot: Slot, zone: int) {
    var callTime := ClockText(ts, zone);
    !LexLess(callTime, slot.startTime) && LexLess(callTime, slot.endTime)
  }

  /** The windows meet end to start; their texts are the bounds. */
  lemma SlotsTable()
    ensures |TimeSlots| == 4
    ensures forall i :: 0 <= i < 4 ==> TimeSlots[i].startTime == HHMM(Bound(i)) && TimeSlots[i].endTime == HHMM(Bound(i + 1))
    ensures forall i :: 0 <= i < 3 ==> TimeSlots[i].endTime == TimeSlots[i + 1].startTime
  {
    forall i | 0 <= i < 4
      ensures TimeSlots[i].startTime == HHMM(Bound(i)) && TimeSlots[i].endTime == HHMM(Bound(i + 1))
    {
      BoundText(i);
      BoundText(i + 1);
    }
  }

  /** The clock text of each bound. */
  lemma BoundText(i: nat)
    requires i <= 4
    ensures HHMM(Bound(i)) == ["09:00", "10:50", "12:45", "15:30", "17:30"][i]
  {
    if i == 0 {
      assert HHMM(540) == "09:00";
    } else if i == 1 {
      assert HHMM(650) == "10:50";
    } else if i == 2 {
      assert HHMM(765) == "12:45";
    } else if i == 3 {
      assert HHMM(930) == "15:30";
    } else {
      assert HHMM(1050) == "17:30";
    }
  }

  /** A valid date is in window `i` exactly when its minute of the day lies in
      [Bound(i), Bound(i + 1)); an Invalid Date is in no window. */
  lemma InSlotIff(ts: Instant, i: nat, zone: int)
    requires i < 4
    ensures ts.InvalidDate? ==> !InSlot(ts, TimeSlots[i], zone)
    ensures ts.At? ==> (InSlot(ts, TimeSlots[i], zone) <==> Bound(i) <= LocalMinute(ts.ms, zone) < Bound(i + 1))
  {
    SlotsTable();
    if ts.At? {
      var x := LocalMinute(ts.ms, zone);
      HHMMOrder(x, Bound(i));
      HHMMOrder(x, Bound(i + 1));
    } else {
      var s := TimeSlots[i];
      assert LexLess("Inval", s.endTime) == false by {
        assert s.endTime[0] < 'I';
      }
    }
  }

  /** The minute-of-day window `i` covers. */
  predicate InWindow(ts: Instant, i: nat, zone: int)
    requires i < 4
  {
    ts.At? && Bound(i) <= LocalMinute(ts.ms, zone) < Bound(i + 1)
  }

  lemma InSlotIffAll(ts: Instant, zone: int)
    ensures forall i :: 0 <= i < 4 ==> (InSlot(ts, TimeSlots[i], zone) <==> InWindow(ts, i, zone))
  {
    forall i | 0 <= i < 4 ensures InSlot(ts, TimeSlots[i], zone) <==> InWindow(ts, i, zone) {
      InSlotIff(ts, i, zone);
    }
  }

  /** A date lands in at most one window, and in one exactly when it is
      between 09:00 and 17:30. */
  lemma SlotsPartitionDay(ts: Instant, zone: int)
    ensures forall i, j :: 0 <= i < j < 4 ==> !(InSlot(ts, TimeSlots[i], zone) && InSlot(ts, TimeSlots[j], zone))
    ensures (exists i :: 0 <= i < 4 && InSlot(ts, TimeSlots[i], zone)) <==>
      ts.At? && 540 <= LocalMinute(ts.ms, zone) < 1050
  {
    InSlotIffAll(ts, zone);
    if ts.At? && 540 <= LocalMinute(ts.ms, zone) < 1050 {
      var x := LocalMinute(ts.ms, zone);
      var i := if x < 650 then 0 else if x < 765 then 1 else if x < 930 then 2 else 3;
      assert InWindow(ts, i, zone);
    }
  }

  /** Only the time of day matters: the same clock time on another day lands
      in the same window. */
  lemma SlotIgnoresDate(t: int, days: int, slot: Slot, zone: int)
    ensures InSlot(At(t + days * DayMs), slot, zone) == InSlot(At(t), slot, zone)
  {
    assert LocalMinute(t + days * DayMs, zone) == LocalMinute(t, zone) by {
      assert (t + days * DayMs + zone) % DayMs == (t + zone) % DayMs by {
        assert t + days * DayMs + zone == (t + zone) + days * DayMs;
      }
    }
  }

  // ---- populated slots ----

  /** The records counted as sales of the day. */
  predicate IsSale(c: CallEntry) {
    c.outcome == Tagged(ConfirmedSale)
  }

  /** The confirmed sales whose clock time falls in the window, in list order. */
  function SlotSales(calls: seq<CallEntry>, slot: Slot, zone: int): (r: seq<CallEntry>)
    ensures |r| <= |calls|
    ensures forall c :: c in r <==> c in calls && IsSale(c) && InSlot(c.timestamp, slot, zone)
  {
    if calls == [] then []
    else
      var c := calls[|calls| - 1];
      var init := SlotSales(calls[..|calls| - 1], slot, zone);
      assert calls == calls[..|calls| - 1] + [c];
      if IsSale(c) && InSlot(c.timestamp, slot, zone) then init + [c] else init
  }

  /** A window's sales in a joined list are its sales in each part, joined:
      the filter keeps order and multiplicity. */
  lemma {:induction false} SlotSalesConcat(a: seq<CallEntry>, b: seq<CallEntry>, slot: Slot, zone: int)
    ensures SlotSales(a + b, slot, zone) == SlotSales(a, slot, zone) + SlotSales(b, slot, zone)
  {
    if b == [] {
      assert a + b == a;
    } else {
      assert (a + b)[..|a + b| - 1] == a + b[..|b| - 1];
      SlotSalesConcat(a, b[..|b| - 1], slot, zone);
    }
  }

  /** A single record is kept exactly when it is a confirmed sale in the window. */
  lemma SlotSalesOne(c: CallEntry, slot: Slot, zone: int)
    ensures SlotSales([c], slot, zone) == if IsSale(c) && InSlot(c.timestamp, slot, zone) then [c] else []
  {
    assert [c][..0] == [];
  }

  datatype PopulatedSlot = PopulatedSlot(slot: Slot, sales: seq<CallEntry>)

  /** `populatedSlots`: every window with its sales. */
  function Populated(calls: seq<CallEntry>, zone: int): (r: seq<PopulatedSlot>)
    ensures |r| == |TimeSlots|
    ensures forall i :: 0 <= i < |r| ==> r[i].slot == TimeSlots[i] && r[i].sales == SlotSales(calls, TimeSlots[i], zone)
  {
    seq(|TimeSlots|, i requires 0 <= i < |TimeSlots| => PopulatedSlot(TimeSlots[i], SlotSales(calls, TimeSlots[i], zone)))
  }

  // ---- overflow ----

  /** `Math.max(0, actual - target)`. */
  function Overflow(actual: nat, target: nat): nat {
    if actual > target then actual - target else 0
  }

  /** A window's sales are its sales up to the target plus its overflow. */
  lemma OverflowSplit(actual: nat, target: nat)
    ensures Overflow(actual, target) + (if actual < target then actual else target) == actual
    ensures Overflow(actual, target) == 0 <==> actual <= target
  {
  }

  function Sum(s: seq<nat>): nat {
    if s == [] then 0 else Sum(s[..|s| - 1]) + s[|s| - 1]
  }

  /** The per-window overflows of `slots`, in order. */
  function OverflowOf(slots: seq<PopulatedSlot>): (r: seq<nat>)
    ensures |r| == |slots|
  {
    seq(|slots|, i requires 0 <= i < |slots| => Overflow(|slots[i].sales|, slots[i].slot.targetSlots))
  }

  /** `calculateOverflow`: the overflow of every window, and their total. */
  method CalculateOverflow(slots: seq<PopulatedSlot>) returns (totalOverflow: nat, overflowBySlot: seq<nat>)
    ensures overflowBySlot == OverflowOf(slots)
    ensures totalOverflow == Sum(overflowBySlot)
  {
    totalOverflow := 0;
    overflowBySlot := [];
    for i := 0 to |slots|
      invariant overflowBySlot == OverflowOf(slots[..i])
      invariant totalOverflow == Sum(overflowBySlot)
    {
      var overflow := Overflow(|slots[i].sales|, slots[i].slot.targetSlots);
      totalOverflow := totalOverflow + overflow;
      overflowBySlot := overflowBySlot + [overflow];
      assert overflowBySlot[..i] == OverflowOf(slots[..i]);
    }
    assert slots[..|slots|] == slots;
  }

  /** The total overflow is zero exactly when no window exceeds its target. */
  lemma {:induction false} TotalOverflowZero(s: seq<nat>)
    ensures Sum(s) == 0 <==> forall i :: 0 <= i < |s| ==> s[i] == 0
  {
    if s != [] {
      TotalOverflowZero(s[..|s| - 1]);
    }
  }

  // ---- extra green boxes ----

  function Min(a: nat, b: nat): nat {
    if a < b then a else b
  }

  /** `getExtraGreenBoxes(slotIndex)`: the overflow of the earlier windows,
      capped at this window's target. */
  method GetExtraGreenBoxes(slots: seq<PopulatedSlot>, overflowBySlot: seq<nat>, slotIndex: nat) returns (r: nat)
    requires slotIndex < |slots| && |overflowBySlot| == |slots|
    ensures r == Min(Sum(overflowBySlot[..slotIndex]), slots[slotIndex].slot.targetSlots)
  {
    var extraBoxes := 0;
    for i := 0 to slotIndex
      invariant extraBoxes == Sum(overflowBySlot[..i])
    {
      extraBoxes := extraBoxes + overflowBySlot[i];
      assert overflowBySlot[..i + 1][..i] == overflowBySlot[..i];
    }
    r := Min(extraBoxes, slots[slotIndex].slot.targetSlots);
  }

  /** The first window gets no extra boxes and no window gets more than its
      target; a window gets exactly the earlier overflow when it fits. */
  lemma ExtraGreenBounds(overflowBySlot: seq<nat>, slotIndex: nat, target: nat)
    requires slotIndex <= |overflowBySlot|
    ensures Min(Sum(overflowBySlot[..slotIndex]), target) <= target
    ensures slotIndex == 0 ==> Min(Sum(overflowBySlot[..slotIndex]), target) == 0
    ensures Sum(overflowBySlot[..slotIndex]) <= target ==> Min(Sum(overflowBySlot[..slotIndex]), target) == Sum(overflowBySlot[..slotIndex])
  {
    if slotIndex == 0 {
      assert overflowBySlot[..0] == [];
    }
  }

  // ---- boxes ----

  datatype BoxKind = SaleBox | GoalMetEarlier | AvailableBox | OverflowSaleBox

  /** A drawn box: its kind, the text inside it and its tooltip. */
  datatype Box = Box(kind: BoxKind, content: string, title: string)

  function Max(a: nat, b: nat): nat {
    if a < b then b else a
  }

  /** The kind the branches give box `i`. */
  function KindOf(i: nat, actual: nat, target: nat, extra: nat): BoxKind {
    if i < actual then SaleBox
    else if i < target && i - actual < extra then GoalMetEarlier
    else if i < target then AvailableBox
    else OverflowSaleBox
  }

  /** The four branches of the box loop, assigning style, content and title. */
  method ClassifyBox(boxIndex: nat, sales: seq<CallEntry>, target: nat, extra: nat, zone: int) returns (box: Box)
    ensures box.kind == KindOf(boxIndex, |sales|, target, extra)
    ensures box.kind == SaleBox ==>
      box.content == "✓" && box.title == "Sale " + NatDigits(boxIndex + 1) + " at " + ClockText(sales[boxIndex].timestamp, zone)
    ensures box.kind == GoalMetEarlier ==> box.content == "○" && box.title == "Goal completed in previous period"
    ensures box.kind == AvailableBox ==> box.content == NatDigits(boxIndex + 1) && box.title == "Available slot"
    ensures box.kind == OverflowSaleBox ==> box.content == "✓" && box.title == "Overflow sale " + NatDigits(boxIndex - target + 1)
  {
    var actualSales := |sales|;
    if boxIndex < actualSales {
      box := Box(SaleBox, "✓", "Sale " + NatDigits(boxIndex + 1) + " at " + ClockText(sales[boxIndex].timestamp, zone));
    } else if boxIndex < target && boxIndex - actualSales < extra {
      box := Box(GoalMetEarlier, "○", "Goal completed in previous period");
    } else if boxIndex < target {
      box := Box(AvailableBox, NatDigits(boxIndex + 1), "Available slot");
    } else {
      box := Box(OverflowSaleBox, "✓", "Overflow sale " + NatDigits(boxIndex - target + 1));
    }
  }

  /** The boxes of one window: `Math.max(targetSlots, actualSales)` of them. */
  method SlotBoxes(slot: PopulatedSlot, extra: nat, zone: int) returns (boxes: seq<Box>)
    ensures |boxes| == Max(slot.slot.targetSlots, |slot.sales|)
    ensures forall i :: 0 <= i < |boxes| ==> boxes[i].kind == KindOf(i, |slot.sales|, slot.slot.targetSlots, extra)
  {
    var totalBoxes := Max(slot.slot.targetSlots, |slot.sales|);
    boxes := [];
    for boxIndex := 0 to totalBoxes
      invariant |boxes| == boxIndex
      invariant forall i :: 0 <= i < boxIndex ==> boxes[i].kind == KindOf(i, |slot.sales|, slot.slot.targetSlots, extra)
    {
      var box := ClassifyBox(boxIndex, slot.sales, slot.slot.targetSlots, extra, zone);
      boxes := boxes + [box];
    }
  }

  /** Within the drawn boxes the first `actual` are sales, the overflow branch
      is never taken, and the boxes between the sales and the target are
      translucent exactly for the first `extra` of them. */
  lemma BoxKinds(i: nat, actual: nat, target: nat, extra: nat)
    requires i < Max(target, actual)
    ensures KindOf(i, actual, target, extra) == SaleBox <==> i < actual
    ensures KindOf(i, actual, target, extra) != OverflowSaleBox
    ensures KindOf(i, actual, target, extra) == GoalMetEarlier <==> actual <= i < actual + extra && i < target
    ensures KindOf(i, actual, target, extra) == AvailableBox <==> actual + extra <= i < target
  {
  }

  /** The whole board: for every window its extra boxes and its drawn boxes. */
  method RenderBoard(calls: seq<CallEntry>, zone: int) returns (rows: seq<seq<Box>>)
    ensures |rows| == |TimeSlots|
    ensures forall k :: 0 <= k < |rows| ==>
      var sales := SlotSales(calls, TimeSlots[k], zone);
      var extra := Min(Sum(OverflowOf(Populated(calls, zone))[..k]), TimeSlots[k].targetSlots);
      |rows[k]| == Max(TimeSlots[k].targetSlots, |sales|) &&
      forall i :: 0 <= i < |rows[k]| ==> rows[k][i].kind == KindOf(i, |sales|, TimeSlots[k].targetSlots, extra)
  {
    var populatedSlots := Populated(calls, zone);
    var totalOverflow, overflowBySlot := CalculateOverflow(populatedSlots);
    rows := [];
    for slotIndex := 0 to |populatedSlots|
      invariant |rows| == slotIndex
      invariant forall k :: 0 <= k < slotIndex ==>
        var sales := SlotSales(calls, TimeSlots[k], zone);
        var extra := Min(Sum(OverflowOf(Populated(calls, zone))[..k]), TimeSlots[k].targetSlots);
        |rows[k]| == Max(TimeSlots[k].targetSlots, |sales|) &&
        forall i :: 0 <= i < |rows[k]| ==> rows[k][i].kind == KindOf(i, |sales|, TimeSlots[k].targetSlots, extra)
    {
      var extraGreenBoxes := GetExtraGreenBoxes(populatedSlots, overflowBySlot, slotIndex);
      var boxes := SlotBoxes(populatedSlots[slotIndex], extraGreenBoxes, zone);
      rows := rows + [boxes];
    }
  }
}
