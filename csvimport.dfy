/** `importFromCSV`: the text is trimmed and cut into lines; every line after
    the header is cut at commas into a time, a label and optional notes; the
    12-hour clock text is read back into a time on today's date; the label is
    matched against the outcome tags by substring. */
module CsvImport {
  import opened Wrappers
  import opened CallTypes
  import opened Text
  import opened Clock

  /** Element `i` of the result of a destructuring split: `undefined` past the end. */
  function Part(parts: seq<string>, i: nat): Option<string> {
    if i < |parts| then Some(parts[i]) else None
  }

  /** The 12-hour adjustment of a parsed hour; NaN (`None`) stays NaN. */
  function ConvertHour(hour: Option<int>, period: Option<string>): (r: Option<int>)
    ensures hour.None? <==> r.None?
    ensures hour.Some? && period == Some("PM") ==> r == Some(if hour.value == 12 then 12 else hour.value + 12)
    ensures hour.Some? && period == Some("AM") ==> r == Some(if hour.value == 12 then 0 else hour.value)
    ensures period != Some("AM") && period != Some("PM") ==> r == hour
  {
    match hour
    case None => None
    case Some(h) =>
      var h1 := if period == Some("PM") && h != 12 then h + 12 else h;
      Some(if period == Some("AM") && h1 == 12 then 0 else h1)
  }

  /** The hour of a 24-hour time on a 12-hour clock face, and its period. */
  function To12(hour: int): (int, string)
    requires 0 <= hour < 24
  {
    (if hour % 12 == 0 then 12 else hour % 12, if hour < 12 then "AM" else "PM")
  }

  /** Every 24-hour time is written once on the 12-hour clock, and the
      conversion reads it back. */
  lemma ConvertHourInvertsTo12(hour: int)
    requires 0 <= hour < 24
    ensures 1 <= To12(hour).0 <= 12
    ensures ConvertHour(Some(To12(hour).0), Some(To12(hour).1)) == Some(hour)
  {
  }

  /** On the clock face (hours 1 to 12, AM or PM) the conversion yields an hour of the day. */
  lemma ConvertHourRange(h: int, period: string)
    requires 1 <= h <= 12 && (period == "AM" || period == "PM")
    ensures var r := ConvertHour(Some(h), Some(period));
      r.Some? && 0 <= r.value < 24 && To12(r.value) == (h, period)
  {
  }

  /** The time of one row: `timeStr.split(' ')` gives the clock text and the
      period, the clock text `split(':')` gives hours and minutes, and
      `new Date(y, m, d, hour, minutes)` on today's local date is an Invalid
      Date as soon as either number is NaN. */
  function RowTime(timeStr: string, now: int, zone: int): Instant {
    var timePeriod := Split(timeStr, ' ');
    var hoursMinutes := Split(timePeriod[0], ':');
    var hour := ConvertHour(ParseInt(hoursMinutes[0]), Part(timePeriod, 1));
    var minute := match Part(hoursMinutes, 1) case None => None case Some(m) => ParseInt(m);
    if hour.None? || minute.None? then InvalidDate
    else At(LocalTime(LocalDay(now, zone), hour.value, minute.value, zone))
  }

  /** Two-digit minutes or seconds, as a clock shows them. */
  function Pad2(n: nat): string
    requires n < 100
  {
    if n < 10 then "0" + NatDigits(n) else NatDigits(n)
  }

  lemma ParseIntPad2(n: nat)
    requires n < 100
    ensures ParseInt(Pad2(n)) == Some(n)
  {
    if n < 10 {
      var d := Pad2(n);
      assert d == ['0', DigitChar(n)];
      ParseIntLeadingZero(d);
    } else {
      ParseIntNatDigits(n);
    }
  }

  /** A digit behind one leading zero reads as that digit. */
  lemma ParseIntLeadingZero(d: string)
    requires |d| == 2 && d[0] == '0' && '0' <= d[1] <= '9'
    ensures ParseInt(d) == Some(d[1] as int - '0' as int)
  {
    ParseIntDecimal(d);
    DigitRunAll(d, 10);
    assert d[..2] == d;
    assert d[..1] == ['0'];
    assert DigitsValue(['0'], 10) == 0 by { assert ['0'][..0] == []; }
  }

  /** The clock text `h:mm:ss AM` of a time of day. */
  function ClockText(hour: int, minute: nat, second: nat): string
    requires 0 <= hour < 24 && minute < 60 && second < 60
  {
    var (h12, period) := To12(hour);
    Join([NatDigits(h12), Pad2(minute), Pad2(second)], ':') + " " + period
  }

  /** The three numbers of a clock text hold neither `:` nor a space. */
  lemma ClockPiecesPlain(h12: nat, minute: nat, second: nat)
    requires minute < 60 && second < 60
    ensures var pieces := [NatDigits(h12), Pad2(minute), Pad2(second)];
      forall i :: 0 <= i < 3 ==> ':' !in pieces[i] && ' ' !in pieces[i]
  {
    var pieces := [NatDigits(h12), Pad2(minute), Pad2(second)];
    forall i | 0 <= i < 3 ensures ':' !in pieces[i] && ' ' !in pieces[i] {
      var p := pieces[i];
      forall k | 0 <= k < |p| ensures '0' <= p[k] <= '9' {
        if i > 0 && (if i == 1 then minute else second) < 10 {
          var n := if i == 1 then minute else second;
          assert p == "0" + NatDigits(n);
          if k > 0 { assert p[k] == NatDigits(n)[k - 1]; }
        }
      }
    }
  }

  /** Joining three texts that lack a character with another separator gives
      a text that lacks it too. */
  lemma JoinThreeFree(pieces: seq<string>, sep: char, c: char)
    requires |pieces| == 3 && c != sep
    requires forall i :: 0 <= i < 3 ==> c !in pieces[i]
    ensures c !in Join(pieces, sep)
  {
    assert pieces[1..][1..] == [pieces[2]];
    assert Join(pieces[1..], sep) == pieces[1] + [sep] + pieces[2];
    assert Join(pieces, sep) == pieces[0] + [sep] + (pieces[1] + [sep] + pieces[2]);
  }

  /** A clock text splits at the space into the clock and the period, and
      the clock splits at the colons into its three numbers. */
  lemma ClockTextSplits(hour: int, minute: nat, second: nat)
    requires 0 <= hour < 24 && minute < 60 && second < 60
    ensures var (h12, period) := To12(hour);
      var pieces := [NatDigits(h12), Pad2(minute), Pad2(second)];
      Split(ClockText(hour, minute, second), ' ') == [Join(pieces, ':'), period] &&
      Split(Join(pieces, ':'), ':') == pieces
  {
    var (h12, period) := To12(hour);
    var pieces := [NatDigits(h12), Pad2(minute), Pad2(second)];
    var clock := Join(pieces, ':');
    ClockPiecesPlain(h12, minute, second);
    SplitJoin(pieces, ':');
    JoinThreeFree(pieces, ':', ' ');
    SplitPrefix(clock, period, ' ');
    SplitFree(period, ' ');
    assert ClockText(hour, minute, second) == clock + ([' '] + period);
  }

  /** A row written with a 12-hour clock time reads back as that hour and
      minute today; the seconds are dropped. */
  lemma ClockTextRoundTrip(hour: int, minute: nat, second: nat, now: int, zone: int)
    requires 0 <= hour < 24 && minute < 60 && second < 60
    ensures RowTime(ClockText(hour, minute, second), now, zone) == At(LocalTime(LocalDay(now, zone), hour, minute, zone))
    ensures LocalDay(LocalTime(LocalDay(now, zone), hour, minute, zone), zone) == LocalDay(now, zone)
    ensures LocalMinute(LocalTime(LocalDay(now, zone), hour, minute, zone), zone) == hour * 60 + minute
  {
    var (h12, period) := To12(hour);
    ClockTextSplits(hour, minute, second);
    ParseIntNatDigits(h12);
    ParseIntPad2(minute);
    ConvertHourInvertsTo12(hour);
    LocalTimeOnDay(LocalDay(now, zone), hour, minute, zone);
  }

  /** Every tag is written in lower case. */
  lemma KeysLowerCase(o: CallOutcome)
    ensures ToLower(Key(o)) == Key(o)
  {
    match o
    case YesNeedsConfirmation => LowerKeeps(Key(YesNeedsConfirmation));
    case ConfirmedSale => LowerKeeps(Key(ConfirmedSale));
    case No => LowerKeeps(Key(No));
    case AbsolutelyNo => LowerKeeps(Key(AbsolutelyNo));
    case Hangup => LowerKeeps(Key(Hangup));
    case CallLater => LowerKeeps(Key(CallLater));
    case CallIn2Months => LowerKeeps(Key(CallIn2Months));
    case SicknessMedicine => LowerKeeps(Key(SicknessMedicine));
    case AlreadyCustomer => LowerKeeps(Key(AlreadyCustomer));
    case NotEnoughMoney => LowerKeeps(Key(NotEnoughMoney));
    case LanguageDifficulties => LowerKeeps(Key(LanguageDifficulties));
    case WrongNumber => LowerKeeps(Key(WrongNumber));
    case Dnc => LowerKeeps(Key(Dnc));
  }

  /** The needles the import searches for: the keys of its object literal,
      the tags in declaration order, each lower-cased. Lower-casing leaves
      them as they are. */
  function OutcomeKeys(): (r: seq<string>)
    ensures |r| == |AllOutcomes|
    ensures forall i :: 0 <= i < |AllOutcomes| ==> r[i] == Key(AllOutcomes[i])
  {
    var r := seq(|AllOutcomes|, i requires 0 <= i < |AllOutcomes| => ToLower(Key(AllOutcomes[i])));
    assert forall i :: 0 <= i < |AllOutcomes| ==> r[i] == Key(AllOutcomes[i]) by {
      forall i | 0 <= i < |AllOutcomes| ensures r[i] == Key(AllOutcomes[i]) {
        KeysLowerCase(AllOutcomes[i]);
      }
    }
    r
  }

  /** `keys.find(key => hay.includes(key))` from position `k` on, over the
      lower-cased keys, as an index: the first key that occurs in `hay`. */
  function FirstMatch(keys: seq<string>, hay: string, k: nat): (r: Option<nat>)
    requires k <= |keys|
    ensures r.Some? ==>
      k <= r.value < |keys| && Contains(hay, keys[r.value]) &&
      forall j :: k <= j < r.value ==> !Contains(hay, keys[j])
    ensures r.None? <==> forall j :: k <= j < |keys| ==> !Contains(hay, keys[j])
    decreases |keys| - k
  {
    if k == |keys| then None
    else if Contains(hay, keys[k]) then Some(k)
    else FirstMatch(keys, hay, k + 1)
  }

  /** The outcome named by a caption: the first tag in declaration order that
      occurs in the lowercased caption. */
  function MatchOutcome(caption: string): Option<CallOutcome> {
    match FirstMatch(OutcomeKeys(), ToLower(caption), 0)
    case Some(i) => Some(AllOutcomes[i])
    case None => None
  }

  /** A needle with a character the text lacks does not occur in it. */
  lemma AbsentCharNotContained(hay: string, needle: string, c: char)
    requires c in needle && c !in hay
    ensures !Contains(hay, needle)
  {
  }

  /** Whether `a` is directly followed by `b` somewhere in `s` at or after index `k`. */
  function PairFrom(s: string, a: char, b: char, k: nat): bool
    decreases |s| - k
  {
    if k + 1 >= |s| then false else (s[k] == a && s[k + 1] == b) || PairFrom(s, a, b, k + 1)
  }

  lemma {:induction false} PairFromAt(s: string, a: char, b: char, j: nat, k: nat)
    requires j <= k && k + 1 < |s| && s[k] == a && s[k + 1] == b
    ensures PairFrom(s, a, b, j)
    decreases k - j
  {
    if j < k {
      PairFromAt(s, a, b, j + 1, k);
    }
  }

  /** A needle whose first two characters never stand next to each other in
      the text does not occur in it. */
  lemma AbsentPairNotContained(hay: string, needle: string)
    requires |needle| >= 2 && !PairFrom(hay, needle[0], needle[1], 0)
    ensures !Contains(hay, needle)
  {
    if Contains(hay, needle) {
      var i :| 0 <= i <= |hay| - |needle| && OccursAt(hay, needle, i);
      assert hay[i] == hay[i..i + |needle|][0];
      assert hay[i + 1] == hay[i..i + |needle|][1];
      PairFromAt(hay, needle[0], needle[1], 0, i);
    }
  }

  /** An exported English label carries no hyphenated tag: "Confirmed Sale"
      matches nothing, so such a row is dropped. */
  lemma ConfirmedSaleLabelUnmatched()
    ensures MatchOutcome("Confirmed Sale") == None
  {
    assert ToLower("Confirmed Sale") == "confirmed sale";
    var keys := OutcomeKeys();
    forall i | 0 <= i < |keys| ensures !Contains("confirmed sale", keys[i]) {
      NoTagInConfirmedSale(AllOutcomes[i]);
    }
  }

  lemma NoTagInConfirmedSale(o: CallOutcome)
    ensures !Contains("confirmed sale", Key(o))
  {
    match o
    case No => AbsentPairNotContained("confirmed sale", Key(o)) by { assert !PairFrom("confirmed sale", 'n', 'o', 0); }
    case Dnc => AbsentPairNotContained("confirmed sale", Key(o)) by { assert !PairFrom("confirmed sale", 'd', 'n', 0); }
    case Hangup => HyphenOrHNotContained(Key(o), 0);
    case YesNeedsConfirmation => HyphenOrHNotContained(Key(o), 3);
    case ConfirmedSale => HyphenOrHNotContained(Key(o), 9);
    case AbsolutelyNo => HyphenOrHNotContained(Key(o), 10);
    case CallLater => HyphenOrHNotContained(Key(o), 4);
    case CallIn2Months => HyphenOrHNotContained(Key(o), 4);
    case SicknessMedicine => HyphenOrHNotContained(Key(o), 8);
    case AlreadyCustomer => HyphenOrHNotContained(Key(o), 7);
    case NotEnoughMoney => HyphenOrHNotContained(Key(o), 3);
    case LanguageDifficulties => HyphenOrHNotContained(Key(o), 8);
    case WrongNumber => HyphenOrHNotContained(Key(o), 5);
  }

  /** "confirmed sale" holds neither a hyphen nor an `h`. */
  lemma HyphenOrHNotContained(needle: string, i: nat)
    requires i < |needle| && (needle[i] == '-' || needle[i] == 'h')
    ensures !Contains("confirmed sale", needle)
  {
    var hay := "confirmed sale";
    assert '-' !in hay && 'h' !in hay;
    AbsentCharNotContained(hay, needle, needle[i]);
  }

  /** "DNC (Do Not Call)" is read as `no`, the first tag it contains. */
  lemma DncLabelReadsAsNo()
    ensures MatchOutcome("DNC (Do Not Call)") == Some(No)
  {
    var hay := ToLower("DNC (Do Not Call)");
    var keys := OutcomeKeys();
    DncLower();
    assert '-' !in hay;
    assert keys[0] == Key(YesNeedsConfirmation) && keys[1] == Key(ConfirmedSale) && keys[2] == Key(No);
    AbsentCharNotContained(hay, keys[0], '-') by {
      assert keys[0][3] == '-';
    }
    AbsentCharNotContained(hay, keys[1], '-') by {
      assert keys[1][9] == '-';
    }
    DncHoldsNo();
    assert OccursAt(hay, keys[2], 8);
    assert FirstMatch(keys, hay, 2) == Some(2);
    assert FirstMatch(keys, hay, 0) == Some(2);
  }

  lemma DncLower()
    ensures ToLower("DNC (Do Not Call)") == "dnc (do not call)"
  {
  }

  lemma DncHoldsNo()
    ensures OccursAt("dnc (do not call)", "no", 8)
  {
    var hay := "dnc (do not call)";
    assert hay[8] == 'n' && hay[9] == 'o';
    assert hay[8..10] == "no";
  }

  /** One data row: fewer than two fields, or a label naming no outcome, gives
      nothing; the third field, when present and non-empty, gives the notes
      with every double quote removed. */
  function ParseRow(line: string, id: string, now: int, zone: int): Option<CallEntry> {
    var values := Split(line, ',');
    if |values| < 2 then None
    else
      var notes := if |values| >= 3 && values[2] != "" then Some(RemoveQuotes(values[2])) else None;
      match MatchOutcome(values[1])
      case None => None
      case Some(o) => Some(CallEntry(id, Tagged(o), RowTime(values[0], now, zone), notes))
  }

  /** No record, or the one record of a row. */
  function AsSeq(row: Option<CallEntry>): seq<CallEntry> {
    if row.Some? then [row.value] else []
  }

  /** The records of data rows 1 .. n-1, in file order; row `i` gets id `freshId(i)`. */
  function ImportedUpTo(lines: seq<string>, n: nat, now: int, zone: int, freshId: nat -> string): seq<CallEntry>
    requires n <= |lines|
  {
    if n <= 1 then []
    else ImportedUpTo(lines, n - 1, now, zone, freshId) + AsSeq(ParseRow(lines[n - 1], freshId(n - 1), now, zone))
  }

  /** The lines of the trimmed text. */
  function Lines(content: string): seq<string> {
    Split(Trim(content), '\n')
  }

  /** The import: nothing at all (`None`, the early return) below two lines,
      otherwise the records of the rows after the header. */
  function ImportCsv(content: string, now: int, zone: int, freshId: nat -> string): Option<seq<CallEntry>> {
    var lines := Lines(content);
    if |lines| < 2 then None else Some(ImportedUpTo(lines, |lines|, now, zone, freshId))
  }

  /** `importFromCSV` up to the final `setCalls`: the early return, then the rows. */
  method ImportCsvRows(content: string, now: int, zone: int, freshId: nat -> string) returns (r: Option<seq<CallEntry>>)
    ensures r == ImportCsv(content, now, zone, freshId)
  {
    var lines := Lines(content);
    if |lines| < 2 {
      return None;
    }
    var importedCalls := ImportRows(lines, now, zone, freshId);
    r := Some(importedCalls);
  }

  /** The `for` loop over the data rows, pushing each row's record. */
  method ImportRows(lines: seq<string>, now: int, zone: int, freshId: nat -> string) returns (importedCalls: seq<CallEntry>)
    requires |lines| >= 1
    ensures importedCalls == ImportedUpTo(lines, |lines|, now, zone, freshId)
  {
    importedCalls := [];
    for i := 1 to |lines|
      invariant importedCalls == ImportedUpTo(lines, i, now, zone, freshId)
    {
      ImportedStep(lines, i, now, zone, freshId);
      importedCalls := importedCalls + AsSeq(ParseRow(lines[i], freshId(i), now, zone));
    }
  }

  /** One more data row appends that row's record. */
  lemma ImportedStep(lines: seq<string>, i: nat, now: int, zone: int, freshId: nat -> string)
    requires 1 <= i < |lines|
    ensures ImportedUpTo(lines, i + 1, now, zone, freshId)
      == ImportedUpTo(lines, i, now, zone, freshId) + AsSeq(ParseRow(lines[i], freshId(i), now, zone))
  {
  }

  /** The early return happens exactly when the trimmed text is one line. */
  lemma ImportNoneIffOneLine(content: string, now: int, zone: int, freshId: nat -> string)
    ensures ImportCsv(content, now, zone, freshId).None? <==> '\n' !in Trim(content)
  {
    SplitSingle(Trim(content), '\n');
  }

  /** A row without a comma is skipped. */
  lemma RowWithoutCommaSkipped(line: string, id: string, now: int, zone: int)
    requires ',' !in line
    ensures ParseRow(line, id, now, zone).None?
  {
    SplitFree(line, ',');
  }

  /** A row is imported exactly when it has two fields and its label names an
      outcome, and then it carries that outcome as a tag. */
  lemma RowImportedIff(line: string, id: string, now: int, zone: int)
    ensures var values := Split(line, ',');
      ParseRow(line, id, now, zone).Some? <==> |values| >= 2 && MatchOutcome(values[1]).Some?
    ensures var values := Split(line, ',');
      ParseRow(line, id, now, zone).Some? ==>
        ParseRow(line, id, now, zone).value.outcome == Tagged(MatchOutcome(values[1]).value) &&
        ParseRow(line, id, now, zone).value.id == id
  {
  }

  /** At most one record per data row, every one of them tagged with an outcome
      (the CSV import never produces an unvalidated outcome) and carrying the
      id of its row. */
  lemma {:induction false} ImportedShape(lines: seq<string>, n: nat, now: int, zone: int, freshId: nat -> string)
    requires n <= |lines|
    ensures |ImportedUpTo(lines, n, now, zone, freshId)| <= if n == 0 then 0 else n - 1
    ensures forall c :: c in ImportedUpTo(lines, n, now, zone, freshId) ==>
      c.outcome.Tagged? && exists i :: 1 <= i < n && c.id == freshId(i)
  {
    if n > 1 {
      ImportedShape(lines, n - 1, now, zone, freshId);
      var row := ParseRow(lines[n - 1], freshId(n - 1), now, zone);
      if row.Some? {
        assert row.value.outcome.Tagged? && row.value.id == freshId(n - 1);
      }
    }
  }
}
