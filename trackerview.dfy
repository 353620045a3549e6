/** The tracker screen: the outcome button table, the lookup of a record's
    button, the CSV export of today's calls and the note fields that the add
    and edit handlers trim before passing them on. Translation (`t`) and the
    clock rendering of a date (`toLocaleTimeString`) are parameters. */
module TrackerView {
  import opened Wrappers
  import opened CallTypes
  import opened Text
  import opened Clock
  import opened Records
  import opened Tracker
  import ActivityGrid

  /** One outcome button: its tag, its translated caption and its colour classes. */
  datatype OutcomeConfig = OutcomeConfig(value: CallOutcome, caption: string, color: string)

  const SuccessColor := "bg-success hover:bg-success-light"
  const DangerColor := "bg-danger hover:bg-danger-light"
  const InfoColor := "bg-info hover:bg-info-light"
  const WarningColor := "bg-warning hover:bg-warning-light"

  /** `getCallOutcomes(t)`. */
  function CallOutcomes(t: string -> string): seq<OutcomeConfig> {
    [
      OutcomeConfig(YesNeedsConfirmation, t(Key(YesNeedsConfirmation)), SuccessColor),
      OutcomeConfig(ConfirmedSale, t(Key(ConfirmedSale)), SuccessColor),
      OutcomeConfig(No, t(Key(No)), DangerColor),
      OutcomeConfig(AbsolutelyNo, t(Key(AbsolutelyNo)), DangerColor),
      OutcomeConfig(Hangup, t(Key(Hangup)), DangerColor),
      OutcomeConfig(CallLater, t(Key(CallLater)), InfoColor),
      OutcomeConfig(CallIn2Months, t(Key(CallIn2Months)), InfoColor),
      OutcomeConfig(SicknessMedicine, t(Key(SicknessMedicine)), DangerColor),
      OutcomeConfig(AlreadyCustomer, t(Key(AlreadyCustomer)), DangerColor),
      OutcomeConfig(NotEnoughMoney, t(Key(NotEnoughMoney)), DangerColor),
      OutcomeConfig(LanguageDifficulties, t(Key(LanguageDifficulties)), WarningColor),
      OutcomeConfig(WrongNumber, t(Key(WrongNumber)), WarningColor),
      OutcomeConfig(Dnc, t(Key(Dnc)), DangerColor)
    ]
  }

  /** The table lists every outcome once, in declaration order, captioned by
      the translation of its tag. */
  lemma OutcomeTableExact(t: string -> string)
    ensures |CallOutcomes(t)| == |AllOutcomes|
    ensures forall i :: 0 <= i < |AllOutcomes| ==>
      CallOutcomes(t)[i].value == AllOutcomes[i] && CallOutcomes(t)[i].caption == t(Key(AllOutcomes[i]))
  {
    forall i | 0 <= i < |AllOutcomes|
      ensures CallOutcomes(t)[i].value == AllOutcomes[i] && CallOutcomes(t)[i].caption == t(Key(AllOutcomes[i]))
    {
      TableEntry(t, i);
    }
  }

  /** Button `i` is the outcome listed `i`-th, with its caption and colour. */
  lemma TableEntry(t: string -> string, i: nat)
    requires i < 13
    ensures CallOutcomes(t)[i] == OutcomeConfig(AllOutcomes[i], t(Key(AllOutcomes[i])), ColorOf(AllOutcomes[i]))
  {
    TableRowsFirst(t);
    TableRowsLast(t);
    OutcomePositions();
  }

  /** Buttons 0 to 6, by position. */
  lemma TableRowsFirst(t: string -> string)
    ensures CallOutcomes(t)[0] == OutcomeConfig(YesNeedsConfirmation, t(Key(YesNeedsConfirmation)), ColorOf(YesNeedsConfirmation))
    ensures CallOutcomes(t)[1] == OutcomeConfig(ConfirmedSale, t(Key(ConfirmedSale)), ColorOf(ConfirmedSale))
    ensures CallOutcomes(t)[2] == OutcomeConfig(No, t(Key(No)), ColorOf(No))
    ensures CallOutcomes(t)[3] == OutcomeConfig(AbsolutelyNo, t(Key(AbsolutelyNo)), ColorOf(AbsolutelyNo))
    ensures CallOutcomes(t)[4] == OutcomeConfig(Hangup, t(Key(Hangup)), ColorOf(Hangup))
    ensures CallOutcomes(t)[5] == OutcomeConfig(CallLater, t(Key(CallLater)), ColorOf(CallLater))
    ensures CallOutcomes(t)[6] == OutcomeConfig(CallIn2Months, t(Key(CallIn2Months)), ColorOf(CallIn2Months))
  {
  }

  /** Buttons 7 to 12, by position. */
  lemma TableRowsLast(t: string -> string)
    ensures CallOutcomes(t)[7] == OutcomeConfig(SicknessMedicine, t(Key(SicknessMedicine)), ColorOf(SicknessMedicine))
    ensures CallOutcomes(t)[8] == OutcomeConfig(AlreadyCustomer, t(Key(AlreadyCustomer)), ColorOf(AlreadyCustomer))
    ensures CallOutcomes(t)[9] == OutcomeConfig(NotEnoughMoney, t(Key(NotEnoughMoney)), ColorOf(NotEnoughMoney))
    ensures CallOutcomes(t)[10] == OutcomeConfig(LanguageDifficulties, t(Key(LanguageDifficulties)), ColorOf(LanguageDifficulties))
    ensures CallOutcomes(t)[11] == OutcomeConfig(WrongNumber, t(Key(WrongNumber)), ColorOf(WrongNumber))
    ensures CallOutcomes(t)[12] == OutcomeConfig(Dnc, t(Key(Dnc)), ColorOf(Dnc))
  {
  }

  /** The index of the first button whose tag equals the record's outcome; a
      cast value equals no tag. */
  function FindConfig(table: seq<OutcomeConfig>, outcome: RecordedOutcome, k: nat): (r: Option<nat>)
    requires k <= |table|
    ensures r.Some? ==>
      k <= r.value < |table| && outcome == Tagged(table[r.value].value) &&
      forall j :: k <= j < r.value ==> outcome != Tagged(table[j].value)
    ensures r.None? ==> forall j :: k <= j < |table| ==> outcome != Tagged(table[j].value)
    decreases |table| - k
  {
    if k == |table| then None
    else if outcome == Tagged(table[k].value) then Some(k)
    else FindConfig(table, outcome, k + 1)
  }

  /** `getOutcomeConfig`: the matching button, or the first one. */
  function GetOutcomeConfig(outcome: RecordedOutcome, t: string -> string): OutcomeConfig {
    var table := CallOutcomes(t);
    match FindConfig(table, outcome, 0)
    case Some(i) => table[i]
    case None => table[0]
  }

  /** A tagged record finds its own button; only a cast value (from the JSON
      import) falls back to the first one. */
  lemma OutcomeConfigLookup(outcome: RecordedOutcome, t: string -> string)
    ensures outcome.Tagged? ==> GetOutcomeConfig(outcome, t) == OutcomeConfig(outcome.outcome, t(Key(outcome.outcome)), ColorOf(outcome.outcome))
    ensures outcome.Cast? ==> GetOutcomeConfig(outcome, t) == OutcomeConfig(YesNeedsConfirmation, t("yes-needs-confirmation"), SuccessColor)
  {
    OutcomeTableExact(t);
    AllOutcomesExact();
    var table := CallOutcomes(t);
    if outcome.Tagged? {
      var o := outcome.outcome;
      assert o in AllOutcomes;
      var i :| 0 <= i < |AllOutcomes| && AllOutcomes[i] == o;
      var r := FindConfig(table, outcome, 0);
      assert r.Some? by {
        assert outcome == Tagged(table[i].value);
      }
      assert table[r.value].value == o;
      assert r.value == i;
      ColorOfTable(t, i);
    }
  }

  /** The colour family of an outcome button. */
  function ColorOf(o: CallOutcome): string {
    match o
    case YesNeedsConfirmation | ConfirmedSale => SuccessColor
    case CallLater | CallIn2Months => InfoColor
    case LanguageDifficulties | WrongNumber => WarningColor
    case _ => DangerColor
  }

  lemma ColorOfTable(t: string -> string, i: nat)
    requires i < 13
    ensures CallOutcomes(t)[i].color == ColorOf(AllOutcomes[i])
  {
    TableEntry(t, i);
  }

  // ---- notes fields ----

  /** `text.trim() || undefined`. */
  function NotesArg(text: string): (r: Option<string>)
    ensures r.None? <==> AllSpace(text)
    ensures r.Some? ==> r.value == Trim(text) && r.value != []
  {
    if Trim(text) == [] then None else Some(Trim(text))
  }

  /** `notes || ''`. */
  function NotesText(notes: Option<string>): (r: string)
    ensures notes.None? ==> r == []
  {
    match notes
    case None => []
    case Some(s) => s
  }

  /** Opening the edit dialog on notes the add handler stored, and saving
      without typing, stores the same notes again. */
  lemma EditKeepsNotes(text: string)
    ensures NotesArg(NotesText(NotesArg(text))) == NotesArg(text)
  {
    if NotesArg(text).Some? {
      TrimIdempotent(text);
    }
  }

  // ---- export ----

  /** The calls of the day `now` falls on, by `toDateString()`. */
  function TodaysCalls(calls: seq<CallEntry>, now: int, zone: int): seq<CallEntry> {
    ActivityGrid.DaysCalls(calls, LocalDay(now, zone), zone)
  }

  const ExportHeader := "Time,Outcome,Notes"

  /** One export line: local time, translated caption, notes in double quotes. */
  function ExportRow(c: CallEntry, t: string -> string, timeText: Instant -> string): string {
    Join([timeText(c.timestamp), GetOutcomeConfig(c.outcome, t).caption, ['"'] + NotesText(c.notes) + ['"']], ',')
  }

  function ExportRows(calls: seq<CallEntry>, t: string -> string, timeText: Instant -> string): (r: seq<string>)
    ensures |r| == |calls|
    ensures forall i :: 0 <= i < |calls| ==> r[i] == ExportRow(calls[i], t, timeText)
  {
    seq(|calls|, i requires 0 <= i < |calls| => ExportRow(calls[i], t, timeText))
  }

  /** The text `exportTodaysCallsCSV` downloads, or nothing when no call was
      logged today. */
  function ExportTodaysCsv(calls: seq<CallEntry>, now: int, zone: int, t: string -> string, timeText: Instant -> string): Option<string> {
    var todaysCalls := TodaysCalls(calls, now, zone);
    if |todaysCalls| == 0 then None
    else Some(Join([ExportHeader] + ExportRows(todaysCalls, t, timeText), '\n'))
  }

  /** The export is skipped exactly when no record is dated today. */
  lemma ExportNoneIff(calls: seq<CallEntry>, now: int, zone: int, t: string -> string, timeText: Instant -> string)
    ensures ExportTodaysCsv(calls, now, zone, t, timeText).None? <==>
      forall c :: c in calls ==> !ActivityGrid.OnDay(c, LocalDay(now, zone), zone)
  {
    var todaysCalls := TodaysCalls(calls, now, zone);
    if |todaysCalls| != 0 {
      assert todaysCalls[0] in todaysCalls;
    }
  }

  /** No export line holds a line break when no row does. */
  lemma ExportPartsFree(todaysCalls: seq<CallEntry>, t: string -> string, timeText: Instant -> string)
    requires forall c :: c in todaysCalls ==> '\n' !in ExportRow(c, t, timeText)
    ensures forall i :: 0 <= i < |todaysCalls| + 1 ==> '\n' !in ([ExportHeader] + ExportRows(todaysCalls, t, timeText))[i]
  {
    var parts := [ExportHeader] + ExportRows(todaysCalls, t, timeText);
    forall i | 0 <= i < |parts| ensures '\n' !in parts[i] {
      if i > 0 {
        assert parts[i] == ExportRow(todaysCalls[i - 1], t, timeText);
        assert todaysCalls[i - 1] in todaysCalls;
      }
    }
  }

  /** When no field holds a line break, the export's lines are the header
      and then one row per call of today, in list order. */
  lemma ExportLines(calls: seq<CallEntry>, now: int, zone: int, t: string -> string, timeText: Instant -> string)
    requires ExportTodaysCsv(calls, now, zone, t, timeText).Some?
    requires forall c :: c in calls ==> '\n' !in ExportRow(c, t, timeText)
    ensures var lines := Split(ExportTodaysCsv(calls, now, zone, t, timeText).value, '\n');
      var todaysCalls := TodaysCalls(calls, now, zone);
      |lines| == |todaysCalls| + 1 && lines[0] == ExportHeader &&
      forall i :: 0 <= i < |todaysCalls| ==> lines[i + 1] == ExportRow(todaysCalls[i], t, timeText)
  {
    var todaysCalls := TodaysCalls(calls, now, zone);
    var parts := [ExportHeader] + ExportRows(todaysCalls, t, timeText);
    assert ExportTodaysCsv(calls, now, zone, t, timeText).value == Join(parts, '\n');
    ExportPartsFree(todaysCalls, t, timeText);
    SplitJoin(parts, '\n');
    assert Split(Join(parts, '\n'), '\n') == parts;
  }

  /** When the fields hold no comma, a row splits back into time, caption and
      quoted notes. */
  lemma ExportRowFields(c: CallEntry, t: string -> string, timeText: Instant -> string)
    requires ',' !in timeText(c.timestamp) && ',' !in GetOutcomeConfig(c.outcome, t).caption && ',' !in NotesText(c.notes)
    ensures Split(ExportRow(c, t, timeText), ',') ==
      [timeText(c.timestamp), GetOutcomeConfig(c.outcome, t).caption, ['"'] + NotesText(c.notes) + ['"']]
  {
    var quoted := ['"'] + NotesText(c.notes) + ['"'];
    assert ',' !in quoted by {
      forall k | 0 <= k < |quoted| ensures quoted[k] != ',' {
        if 0 < k < |quoted| - 1 {
          assert quoted[k] == NotesText(c.notes)[k - 1];
        }
      }
    }
    SplitJoin([timeText(c.timestamp), GetOutcomeConfig(c.outcome, t).caption, quoted], ',');
  }

  /** Nothing is escaped: notes holding a comma add a field to their row. */
  lemma CommaInNotesAddsField(c: CallEntry, t: string -> string, timeText: Instant -> string)
    requires c.notes == Some("a,b")
    requires ',' !in timeText(c.timestamp) && ',' !in GetOutcomeConfig(c.outcome, t).caption
    ensures |Split(ExportRow(c, t, timeText), ',')| == 4
  {
    QuotedCommaSplits(timeText(c.timestamp), GetOutcomeConfig(c.outcome, t).caption);
  }

  lemma QuotedCommaSplits(time: string, caption: string)
    requires ',' !in time && ',' !in caption
    ensures Split(Join([time, caption, ['"'] + "a,b" + ['"']], ','), ',') == [time, caption, "\"a", "b\""]
  {
    var quoted := ['"'] + "a,b" + ['"'];
    assert quoted == "\"a" + [','] + "b\"";
    assert Join([time, caption, quoted], ',') == time + [','] + (caption + [','] + quoted) by {
      assert [time, caption, quoted][1..] == [caption, quoted];
      assert [caption, quoted][1..] == [quoted];
      assert Join([quoted], ',') == quoted;
      assert Join([caption, quoted], ',') == caption + [','] + quoted;
    }
    assert Join([time, caption, "\"a", "b\""], ',') == time + [','] + (caption + [','] + ("\"a" + [','] + "b\"")) by {
      assert [time, caption, "\"a", "b\""][1..] == [caption, "\"a", "b\""];
      assert [caption, "\"a", "b\""][1..] == ["\"a", "b\""];
      assert ["\"a", "b\""][1..] == ["b\""];
      assert Join(["b\""], ',') == "b\"";
      assert Join(["\"a", "b\""], ',') == "\"a" + [','] + "b\"";
    }
    SplitJoin([time, caption, "\"a", "b\""], ',');
  }

  // ---- the screen state ----

  /** The screen's own state beside the hook: the notes box, the record being
      edited and the edit dialog's notes box. */
  class TrackerScreen {
    const tracker: CallTracker
    var notes: string
    var editingCall: Option<string>
    var editNotes: string

    constructor(tracker: CallTracker)
      ensures this.tracker == tracker
      ensures notes == [] && editingCall == None && editNotes == []
    {
      this.tracker := tracker;
      notes := [];
      editingCall := None;
      editNotes := [];
    }

    /** `handleAddCall`: log a call with the trimmed notes, then clear the box. */
    method HandleAddCall(outcome: CallOutcome, now: nat, suffix: string) returns (r: Result<(), Failure>)
      modifies this, tracker
      ensures tracker.calls == [CallEntry(CallId(now, suffix), Tagged(outcome), At(now), NotesArg(old(notes)))] + old(tracker.calls)
      ensures tracker.currentSession == old(tracker.currentSession)
      ensures tracker.PersistedFrom(old(tracker.store), old(tracker.allHistoricalCalls), r)
      ensures old(tracker.Valid()) ==> tracker.Valid()
      ensures notes == [] && editingCall == old(editingCall) && editNotes == old(editNotes)
    {
      r := tracker.AddCall(outcome, NotesArg(notes), now, suffix);
      notes := [];
    }

    /** The edit button: remember the record and prefill its notes. */
    method BeginEdit(call: CallEntry)
      modifies this
      ensures editingCall == Some(call.id) && editNotes == NotesText(call.notes)
      ensures notes == old(notes)
    {
      editingCall := Some(call.id);
      editNotes := NotesText(call.notes);
    }

    /** `handleUpdateCall`: rewrite the record with the trimmed edit notes,
        then close the dialog. */
    method HandleUpdateCall(callId: string, outcome: CallOutcome) returns (r: Result<(), Failure>)
      modifies this, tracker
      ensures tracker.calls == UpdateById(old(tracker.calls), callId, outcome, NotesArg(old(editNotes)))
      ensures tracker.currentSession == old(tracker.currentSession)
      ensures tracker.PersistedFrom(old(tracker.store), old(tracker.allHistoricalCalls), r)
      ensures old(tracker.Valid()) ==> tracker.Valid()
      ensures editingCall == None && editNotes == [] && notes == old(notes)
    {
      var notesArg := NotesArg(editNotes);
      r := UpdateAndClose(callId, outcome, notesArg);
    }

    /** Forward an edit to the hook, then close the dialog. */
    method UpdateAndClose(callId: string, outcome: CallOutcome, notesArg: Option<string>) returns (r: Result<(), Failure>)
      modifies this, tracker
      ensures tracker.calls == UpdateById(old(tracker.calls), callId, outcome, notesArg)
      ensures tracker.currentSession == old(tracker.currentSession)
      ensures tracker.PersistedFrom(old(tracker.store), old(tracker.allHistoricalCalls), r)
      ensures old(tracker.Valid()) ==> tracker.Valid()
      ensures editingCall == None && editNotes == [] && notes == old(notes)
    {
      r := tracker.UpdateCall(callId, outcome, notesArg);
      editingCall := None;
      editNotes := [];
    }
  }
}
