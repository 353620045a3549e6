/** The statistics derived from the active call list on every read. */
module Stats {
  import opened Wrappers
  import opened CallTypes

  /** How many calls carry outcome `o`. */
  function TagCount(calls: seq<CallEntry>, o: CallOutcome): nat {
    if calls == [] then 0
    else TagCount(calls[..|calls| - 1], o) + (if calls[|calls| - 1].outcome == Tagged(o) then 1 else 0)
  }

  /** The affirmative calls: `yes-needs-confirmation` or `confirmed-sale`. */
  function YesCount(calls: seq<CallEntry>): nat {
    if calls == [] then 0
    else
      var last := calls[|calls| - 1].outcome;
      YesCount(calls[..|calls| - 1])
        + (if last == Tagged(YesNeedsConfirmation) || last == Tagged(ConfirmedSale) then 1 else 0)
  }

  /** Calls whose outcome is a cast value rather than one of the thirteen tags. */
  function CastCount(calls: seq<CallEntry>): nat {
    if calls == [] then 0
    else CastCount(calls[..|calls| - 1]) + (if calls[|calls| - 1].outcome.Cast? then 1 else 0)
  }

  /** The tag whose counter `outcomeCounts[v]++` bumps for a cast value `v`:
      the property key is the JavaScript string form of `v`, and a counter
      is bumped only when that text is one of the thirteen tags. A string
      is its own text. An array is the texts of its elements joined with
      commas (`null` as the empty text); no tag holds a comma, so only a
      one-element array can name a tag, and then it names its element's.
      Numbers, booleans, `null` and objects give `1.5`, `true`, `null` or
      `[object Object]`, never a tag. */
  function KeyTag(v: Json): Option<CallOutcome> {
    match v
    case JString(s) => FromKey(s)
    case JArray(items) => if |items| == 1 && items[0] != JNull then KeyTag(items[0]) else None
    case _ => None
  }

  /** The outcome counter a record bumps, if it bumps one of the thirteen. */
  function CounterOf(r: RecordedOutcome): Option<CallOutcome> {
    match r
    case Tagged(o) => Some(o)
    case Cast(v) => KeyTag(v)
  }

  /** How many calls bump the counter of `o`. */
  function KeyCount(calls: seq<CallEntry>, o: CallOutcome): nat {
    if calls == [] then 0
    else KeyCount(calls[..|calls| - 1], o) + (if CounterOf(calls[|calls| - 1].outcome) == Some(o) then 1 else 0)
  }

  /** Calls that bump none of the thirteen counters: cast values whose text
      is no tag (the source adds a separate key for each such text). */
  function StrayCount(calls: seq<CallEntry>): nat {
    if calls == [] then 0
    else StrayCount(calls[..|calls| - 1]) + (if CounterOf(calls[|calls| - 1].outcome).None? then 1 else 0)
  }

  /** `num / den * 100`, or 0 when the denominator is 0 (kept exact). */
  function Percent(num: nat, den: nat): (r: real)
    ensures den == 0 ==> r == 0.0
    ensures num <= den ==> 0.0 <= r <= 100.0
    ensures 0 < den && num == den ==> r == 100.0
  {
    if den > 0 then
      PercentBound(num, den);
      (num as real / den as real) * 100.0
    else 0.0
  }

  lemma PercentBound(num: nat, den: nat)
    requires 0 < den
    ensures 0.0 <= (num as real / den as real) * 100.0
    ensures num <= den ==> (num as real / den as real) * 100.0 <= 100.0
  {
    var q := num as real / den as real;
    assert q * den as real == num as real;
    if num <= den {
      assert q <= 1.0 by {
        if q > 1.0 {
          assert q * den as real > 1.0 * den as real;
        }
      }
    }
  }

  /** The statistics of a call list, as `calculateStats` defines them. */
  function StatsOf(calls: seq<CallEntry>): CallStats {
    var yes := YesCount(calls);
    var no := TagCount(calls, No);
    CallStats(
      |calls|,
      TagCount(calls, ConfirmedSale),
      Percent(yes, yes + no),
      Percent(yes + no, |calls|),
      map o | o in AllOutcomes :: KeyCount(calls, o))
  }

  /** `calculateStats`: the filter counts, the two guarded ratios, and the
      per-outcome tally. */
  method CalculateStats(calls: seq<CallEntry>) returns (stats: CallStats)
    ensures stats == StatsOf(calls)
  {
    var totalCalls := |calls|;
    var confirmedSales := TagCount(calls, ConfirmedSale);
    var yesCount := YesCount(calls);
    var noCount := TagCount(calls, No);
    var engagementCount := yesCount + noCount;
    var yesRatio := if yesCount + noCount > 0 then (yesCount as real / (yesCount + noCount) as real) * 100.0 else 0.0;
    var engagementRatio := if totalCalls > 0 then (engagementCount as real / totalCalls as real) * 100.0 else 0.0;

    var outcomeCounts := CountOutcomes(calls);
    stats := CallStats(totalCalls, confirmedSales, yesRatio, engagementRatio, outcomeCounts);
  }

  /** The `forEach` of `calculateStats`: every outcome starts at 0 and each
      call adds one to the counter its outcome names as a property key. */
  method CountOutcomes(calls: seq<CallEntry>) returns (outcomeCounts: map<CallOutcome, nat>)
    ensures outcomeCounts == map o | o in AllOutcomes :: KeyCount(calls, o)
  {
    outcomeCounts := map o | o in AllOutcomes :: 0;
    for i := 0 to |calls|
      invariant outcomeCounts.Keys == set o | o in AllOutcomes
      invariant forall o :: o in AllOutcomes ==> outcomeCounts[o] == KeyCount(calls[..i], o)
    {
      KeyCountStep(calls, i);
      match CounterOf(calls[i].outcome) {
        case Some(o) =>
          Listed(o);
          outcomeCounts := outcomeCounts[o := outcomeCounts[o] + 1];
        case None =>
          // the source bumps a key outside the thirteen outcomes
      }
    }
    assert calls[..|calls|] == calls;
    TallyIsCounts(outcomeCounts, calls);
  }

  /** One more call adds one to the counter it names only. */
  lemma KeyCountStep(calls: seq<CallEntry>, i: nat)
    requires i < |calls|
    ensures forall o :: KeyCount(calls[..i + 1], o) == KeyCount(calls[..i], o) + (if CounterOf(calls[i].outcome) == Some(o) then 1 else 0)
  {
    assert calls[..i + 1][..i] == calls[..i];
  }

  /** A table holding the key count of every outcome is the per-outcome tally. */
  lemma TallyIsCounts(m: map<CallOutcome, nat>, calls: seq<CallEntry>)
    requires m.Keys == set o | o in AllOutcomes
    requires forall o :: o in AllOutcomes ==> m[o] == KeyCount(calls, o)
    ensures m == map o | o in AllOutcomes :: KeyCount(calls, o)
  {
  }

  // ---- properties ----

  /** Sum of the counts a table holds for the listed outcomes. */
  function SumOver(m: map<CallOutcome, nat>, os: seq<CallOutcome>): nat
    requires forall o :: o in os ==> o in m
  {
    if os == [] then 0 else m[os[0]] + SumOver(m, os[1..])
  }

  /** Sum of the key counts of the listed outcomes. */
  function SumTags(calls: seq<CallEntry>, os: seq<CallOutcome>): nat {
    if os == [] then 0 else KeyCount(calls, os[0]) + SumTags(calls, os[1..])
  }

  /** How many listed outcomes are the counter `k`. */
  function Hits(os: seq<CallOutcome>, k: Option<CallOutcome>): nat {
    if os == [] then 0 else (if k == Some(os[0]) then 1 else 0) + Hits(os[1..], k)
  }

  lemma {:induction false} SumTagsStep(calls: seq<CallEntry>, os: seq<CallOutcome>)
    requires calls != []
    ensures SumTags(calls, os) == SumTags(calls[..|calls| - 1], os) + Hits(os, CounterOf(calls[|calls| - 1].outcome))
  {
    if os != [] {
      SumTagsStep(calls, os[1..]);
    }
  }

  /** In a list without repetitions a counter is hit once if listed, never otherwise. */
  lemma {:induction false} HitsDistinct(os: seq<CallOutcome>, k: Option<CallOutcome>)
    requires forall i, j :: 0 <= i < j < |os| ==> os[i] != os[j]
    ensures Hits(os, k) == if k.Some? && k.value in os then 1 else 0
  {
    if os != [] {
      assert forall i, j :: 0 <= i < j < |os[1..]| ==> os[1..][i] != os[1..][j] by {
        forall i, j | 0 <= i < j < |os[1..]| ensures os[1..][i] != os[1..][j] {
          assert os[1..][i] == os[i + 1] && os[1..][j] == os[j + 1];
        }
      }
      HitsDistinct(os[1..], k);
      if k.Some? && k.value == os[0] {
        assert k.value !in os[1..] by {
          forall j | 0 <= j < |os[1..]| ensures os[1..][j] != os[0] { assert os[1..][j] == os[j + 1]; }
        }
      }
    }
  }

  /** A record bumps exactly one of the thirteen counters when it names one. */
  lemma HitsAll(r: RecordedOutcome)
    ensures Hits(AllOutcomes, CounterOf(r)) == if CounterOf(r).Some? then 1 else 0
  {
    AllOutcomesExact();
    HitsDistinct(AllOutcomes, CounterOf(r));
  }

  lemma {:induction false} SumTagsAll(calls: seq<CallEntry>)
    ensures SumTags(calls, AllOutcomes) + StrayCount(calls) == |calls|
  {
    if calls == [] {
      assert SumTags(calls, AllOutcomes) == 0 by { SumTagsEmpty(AllOutcomes); }
    } else {
      SumTagsAll(calls[..|calls| - 1]);
      SumTagsStep(calls, AllOutcomes);
      HitsAll(calls[|calls| - 1].outcome);
    }
  }

  lemma {:induction false} SumTagsEmpty(os: seq<CallOutcome>)
    ensures SumTags([], os) == 0
  {
    if os != [] { SumTagsEmpty(os[1..]); }
  }

  lemma {:induction false} SumOverCounts(calls: seq<CallEntry>, os: seq<CallOutcome>)
    requires forall o :: o in os ==> o in AllOutcomes
    ensures SumOver(StatsOf(calls).outcomeCounts, os) == SumTags(calls, os)
  {
    if os != [] {
      assert forall o :: o in os[1..] ==> o in os;
      SumOverCounts(calls, os[1..]);
    }
  }

  /** The thirteen outcome counts add up to the number of calls, less the calls
      whose cast value names no tag (none, unless the JSON import supplied one). */
  lemma OutcomeCountsSum(calls: seq<CallEntry>)
    ensures SumOver(StatsOf(calls).outcomeCounts, AllOutcomes) + StrayCount(calls) == StatsOf(calls).totalCalls
    ensures StrayCount(calls) <= CastCount(calls)
  {
    SumOverCounts(calls, AllOutcomes);
    SumTagsAll(calls);
    StrayAreCast(calls);
  }

  lemma {:induction false} StrayAreCast(calls: seq<CallEntry>)
    ensures StrayCount(calls) <= CastCount(calls)
  {
    if calls != [] {
      StrayAreCast(calls[..|calls| - 1]);
    }
  }

  /** A tagged call bumps its own counter; a cast call may bump one too, so a
      counter is at least the number of calls tagged with it, and equal to it
      when no call carries a cast value. */
  lemma {:induction false} KeyCountCoversTags(calls: seq<CallEntry>, o: CallOutcome)
    ensures TagCount(calls, o) <= KeyCount(calls, o) <= TagCount(calls, o) + CastCount(calls)
    ensures CastCount(calls) == 0 ==> KeyCount(calls, o) == TagCount(calls, o) && StrayCount(calls) == 0
  {
    if calls != [] {
      KeyCountCoversTags(calls[..|calls| - 1], o);
    }
  }

  /** A call whose outcome the JSON import kept as the array `["no"]` counts
      as no call of any tag for the ratios, but bumps the `no` counter, since
      the array's text is `no`. */
  lemma CastArrayBumpsNo(c: CallEntry)
    requires c.outcome == Cast(JArray([JString("no")]))
    ensures var s := StatsOf([c]);
      s.outcomeCounts[No] == 1 && TagCount([c], No) == 0 && s.yesRatio == 0.0 && s.engagementRatio == 0.0
  {
    assert [c][..0] == [];
    assert FromKey("no") == Some(No);
    assert KeyTag(JArray([JString("no")])) == Some(No);
    assert KeyCount([c], No) == 1;
    assert YesCount([c]) == 0 && TagCount([c], No) == 0;
  }

  /** The affirmative count is the sum of its two outcomes. */
  lemma {:induction false} YesCountSplit(calls: seq<CallEntry>)
    ensures YesCount(calls) == TagCount(calls, YesNeedsConfirmation) + TagCount(calls, ConfirmedSale)
  {
    if calls != [] {
      YesCountSplit(calls[..|calls| - 1]);
    }
  }

  /** Affirmative and negative calls are disjoint parts of all calls. */
  lemma {:induction false} EngagedBound(calls: seq<CallEntry>)
    ensures YesCount(calls) + TagCount(calls, No) <= |calls|
  {
    if calls != [] {
      EngagedBound(calls[..|calls| - 1]);
    }
  }

  /** Counts and ratios keep their bounds: confirmed sales are among the
      affirmative calls, affirmative plus negative calls are among all calls,
      both ratios lie in [0, 100] and are 0 when their denominator is. */
  lemma StatsBounds(calls: seq<CallEntry>)
    ensures var s := StatsOf(calls);
      && s.confirmedSales <= YesCount(calls)
      && YesCount(calls) + TagCount(calls, No) <= s.totalCalls
      && 0.0 <= s.yesRatio <= 100.0
      && 0.0 <= s.engagementRatio <= 100.0
      && (YesCount(calls) + TagCount(calls, No) == 0 ==> s.yesRatio == 0.0)
      && (s.totalCalls == 0 ==> s.engagementRatio == 0.0)
  {
    YesCountSplit(calls);
    EngagedBound(calls);
  }

  /** Only `no` counts as negative: a call tagged `absolutely-no` or `hangup`
      is not engaged. */
  lemma NegativeIsOnlyNo(calls: seq<CallEntry>, c: CallEntry)
    requires c.outcome == Tagged(AbsolutelyNo) || c.outcome == Tagged(Hangup)
    ensures YesCount(calls + [c]) + TagCount(calls + [c], No) == YesCount(calls) + TagCount(calls, No)
  {
    assert (calls + [c])[..|calls|] == calls;
  }

  /** A logged call with outcome `o`. */
  function Logged(o: CallOutcome): CallEntry {
    CallEntry("call", Tagged(o), At(0), None)
  }

  lemma {:induction false} TagCountConcat(a: seq<CallEntry>, b: seq<CallEntry>, o: CallOutcome)
    ensures TagCount(a + b, o) == TagCount(a, o) + TagCount(b, o)
  {
    if b == [] {
      assert a + b == a;
    } else {
      assert (a + b)[..|a + b| - 1] == a + b[..|b| - 1];
      TagCountConcat(a, b[..|b| - 1], o);
    }
  }

  lemma {:induction false} YesCountConcat(a: seq<CallEntry>, b: seq<CallEntry>)
    ensures YesCount(a + b) == YesCount(a) + YesCount(b)
  {
    if b == [] {
      assert a + b == a;
    } else {
      assert (a + b)[..|a + b| - 1] == a + b[..|b| - 1];
      YesCountConcat(a, b[..|b| - 1]);
    }
  }

  /** `n` calls tagged `p` count `n` for `p` and 0 for every other tag. */
  lemma {:induction false} RepeatedCounts(p: CallOutcome, n: nat, o: CallOutcome)
    ensures TagCount(seq(n, _ => Logged(p)), o) == if p == o then n else 0
    ensures YesCount(seq(n, _ => Logged(p))) == if p == YesNeedsConfirmation || p == ConfirmedSale then n else 0
  {
    if n > 0 {
      assert seq(n, _ => Logged(p))[..n - 1] == seq(n - 1, _ => Logged(p));
      RepeatedCounts(p, n - 1, o);
    }
  }

  /** Three confirmed sales, two pending yeses, four noes and one hangup: five
      affirmative of nine engaged calls give a yes ratio of 500/9, nine engaged
      of ten calls an engagement of 90. */
  lemma StatsExample()
    ensures var calls := seq(3, _ => Logged(ConfirmedSale)) + seq(2, _ => Logged(YesNeedsConfirmation))
          + seq(4, _ => Logged(No)) + [Logged(Hangup)];
      var s := StatsOf(calls);
      s.totalCalls == 10 && s.confirmedSales == 3 && s.yesRatio == 500.0 / 9.0 && s.engagementRatio == 90.0
  {
    var sales, yeses, noes, hang := seq(3, _ => Logged(ConfirmedSale)), seq(2, _ => Logged(YesNeedsConfirmation)),
      seq(4, _ => Logged(No)), [Logged(Hangup)];
    var calls := sales + yeses + noes + hang;
    assert hang == seq(1, _ => Logged(Hangup));
    TagCountConcat(sales + yeses + noes, hang, ConfirmedSale);
    TagCountConcat(sales + yeses, noes, ConfirmedSale);
    TagCountConcat(sales, yeses, ConfirmedSale);
    TagCountConcat(sales + yeses + noes, hang, No);
    TagCountConcat(sales + yeses, noes, No);
    TagCountConcat(sales, yeses, No);
    YesCountConcat(sales + yeses + noes, hang);
    YesCountConcat(sales + yeses, noes);
    YesCountConcat(sales, yeses);
    RepeatedCounts(ConfirmedSale, 3, ConfirmedSale);
    RepeatedCounts(YesNeedsConfirmation, 2, ConfirmedSale);
    RepeatedCounts(No, 4, ConfirmedSale);
    RepeatedCounts(Hangup, 1, ConfirmedSale);
    RepeatedCounts(ConfirmedSale, 3, No);
    RepeatedCounts(YesNeedsConfirmation, 2, No);
    RepeatedCounts(No, 4, No);
    RepeatedCounts(Hangup, 1, No);
    assert YesCount(calls) == 5 && TagCount(calls, No) == 4 && TagCount(calls, ConfirmedSale) == 3;
  }
}
