/** The `useCallTracker` hook: the active session, the live record list
    (newest first), the records of every stored session, and the slice of
    `localStorage` they are kept in. Every operation updates the state and
    then runs the persist effect, which writes the session under the
    current-session key and its own key, and rebuilds the history. */
module Tracker {
  import opened Wrappers
  import opened CallTypes
  import opened Text
  import opened Records
  import opened Storage
  import CsvImport
  import JsonImport

  /** What a step stops with: a stored value that does not parse, a record
      whose date cannot be written (`toISOString` throws on an Invalid Date),
      or a JSON import that threw. */
  datatype Failure = StorageFailure | InvalidTimeValue | InvalidJsonFormat

  /** Every record's date can be written as an ISO string. */
  predicate Serializable(calls: seq<CallEntry>) {
    forall i :: 0 <= i < |calls| ==> calls[i].timestamp.At?
  }

  /** `session-${Date.now()}`. */
  function SessionId(now: nat): string {
    "session-" + NatDigits(now)
  }

  /** Sessions started at different milliseconds have different ids. */
  lemma SessionIdInjective(a: nat, b: nat)
    requires SessionId(a) == SessionId(b)
    ensures a == b
  {
    assert NatDigits(a) == SessionId(a)[8..];
    assert NatDigits(b) == SessionId(b)[8..];
    NatDigitsInjective(a, b);
  }

  function NewSession(now: nat): CallSession {
    CallSession(SessionId(now), [], now, None)
  }

  /** `call-${Date.now()}-${random}`, the random part given. */
  function CallId(now: nat, suffix: string): string {
    "call-" + NatDigits(now) + "-" + suffix
  }

  /** `imported-${Date.now()}-${random}` for the row or item at position `k`. */
  function ImportIds(now: nat, suffix: nat -> string): nat -> string {
    (k: nat) => "imported-" + NatDigits(now) + "-" + suffix(k)
  }

  /** What the persist effect leaves in storage, and the rebuilt history or the failure. */
  datatype Persisted = Persisted(store: Store, history: Result<seq<CallEntry>, Failure>)

  /** The persist effect for session `s` (carrying the live records): the
      current-session write serialises every date first, so an Invalid Date
      stops it before anything is written; then the session is saved and the
      history rebuilt, either of which can throw on a garbled value. */
  function PersistSession(st: Store, s: CallSession): Persisted {
    if !Serializable(s.calls) then Persisted(st, Err(InvalidTimeValue))
    else
      var written := SavedStore(st.(current := Held(s)), s);
      if !SaveSucceeds(st) then Persisted(written, Err(StorageFailure))
      else
        match History(written)
        case Err(_) => Persisted(written, Err(StorageFailure))
        case Ok(h) => Persisted(written, Ok(h))
  }

  /** A record with an Invalid Date stops the persist before any write. */
  lemma PersistFailsBeforeWriting(st: Store, s: CallSession, i: nat)
    requires i < |s.calls| && s.calls[i].timestamp == InvalidDate
    ensures PersistSession(st, s) == Persisted(st, Err(InvalidTimeValue))
  {
  }

  /** After the persist both keys hold the session, no other session's blob
      changes, and the index only grows and, unless it was garbled, names the session. */
  lemma PersistMirrorsSession(st: Store, s: CallSession)
    requires Serializable(s.calls)
    ensures var r := PersistSession(st, s);
      r.store.current == Held(s) && Blob(r.store, s.id) == Held(s) &&
      (forall id :: id != s.id ==> Blob(r.store, id) == Blob(st, id)) &&
      (st.index.Held? ==> r.store.index.Held? && st.index.value <= r.store.index.value) &&
      (SaveSucceeds(st) ==> r.store.index.Held? && s.id in r.store.index.value)
  {
    var st' := st.(current := Held(s));
    assert PersistSession(st, s).store == SavedStore(st', s);
    assert forall id :: Blob(st', id) == Blob(st, id);
  }

  /** The persist succeeds exactly when the index and every blob it names are
      readable, and then the history is the rebuild of the new store and
      contains every record of the session. */
  lemma PersistHistory(st: Store, s: CallSession)
    requires Serializable(s.calls)
    ensures var r := PersistSession(st, s);
      (r.history.Ok? <==> SaveSucceeds(st) && History(r.store).Ok?) &&
      (r.history.Ok? ==> History(r.store) == Ok(r.history.value) && forall c :: c in s.calls ==> c in r.history.value)
  {
    var r := PersistSession(st, s);
    var w := SavedStore(st.(current := Held(s)), s);
    assert r.store == w;
    if r.history.Ok? {
      assert SaveSucceeds(st) && History(w) == Ok(r.history.value);
      HistoryHasSession(w, s);
    }
  }

  /** Persisting the same session twice is persisting it once. */
  lemma PersistIdempotent(st: Store, s: CallSession)
    ensures PersistSession(PersistSession(st, s).store, s) == PersistSession(st, s)
  {
    if Serializable(s.calls) {
      var st' := st.(current := Held(s));
      var w := SavedStore(st', s);
      assert PersistSession(st, s).store == w;
      assert w.(current := Held(s)) == w;
      SaveIdempotent(st', s);
      assert SavedStore(w, s) == w;
      assert SaveSucceeds(w) == SaveSucceeds(st);
    }
  }

  /** Persisting keeps an index without repetitions free of them. */
  lemma PersistNoDuplicates(st: Store, s: CallSession)
    requires st.index.Held? ==> NoDuplicates(st.index.value)
    ensures var r := PersistSession(st, s); r.store.index.Held? ==> NoDuplicates(r.store.index.value)
  {
    SaveNoDuplicates(st.(current := Held(s)), s);
  }

  /** Persisting a session the index does not name yet appends its records to
      the history; nothing already there is lost or merged. */
  lemma PersistNewSessionHistory(st: Store, s: CallSession)
    requires Serializable(s.calls) && SaveSucceeds(st) && s.id !in IndexIds(st.index)
    requires History(st).Ok?
    ensures PersistSession(st, s).history == Ok(History(st).value + s.calls)
  {
    var st' := st.(current := Held(s));
    if st.index.Held? {
      HistoryFrame(st.index.value, st, st');
    }
    assert History(st') == History(st);
    SaveNewSessionHistory(st', s);
  }

  /** A fresh session leaves the history exactly as it was. */
  lemma NewSessionKeepsHistory(st: Store, now: nat)
    requires SaveSucceeds(st) && SessionId(now) !in IndexIds(st.index) && History(st).Ok?
    ensures PersistSession(st, NewSession(now)).history == Ok(History(st).value)
  {
    PersistNewSessionHistory(st, NewSession(now));
    assert History(st).value + [] == History(st).value;
  }

  class CallTracker {
    var currentSession: Option<CallSession>
    var calls: seq<CallEntry>
    var allHistoricalCalls: seq<CallEntry>
    var store: Store

    /** The sessions index names no session twice. */
    predicate Valid()
      reads this
    {
      store.index.Held? ==> NoDuplicates(store.index.value)
    }

    /** `{ ...currentSession, calls }`: the session as the persist effect writes it. */
    function Snapshot(): CallSession
      reads this
      requires currentSession.Some?
    {
      currentSession.value.(calls := calls)
    }

    /** The state after a persist that ran to the end: both keys hold the
        session, the index names it, and the history is the rebuild of the store. */
    predicate Synced()
      reads this
    {
      currentSession.Some? &&
      store.current == Held(Snapshot()) && Blob(store, Snapshot().id) == Held(Snapshot()) &&
      store.index.Held? && Snapshot().id in store.index.value &&
      History(store) == Ok(allHistoricalCalls)
    }

    /** The state the persist effect leaves, from store `st0` and history `h0`:
        nothing happens without a session; otherwise storage is as
        `PersistSession` says, and the history is replaced only on success. */
    predicate PersistedFrom(st0: Store, h0: seq<CallEntry>, r: Result<(), Failure>)
      reads this
    {
      if currentSession.None? then r.Ok? && store == st0 && allHistoricalCalls == h0
      else
        var p := PersistSession(st0, Snapshot());
        store == p.store &&
        match p.history
        case Ok(h) => r.Ok? && allHistoricalCalls == h
        case Err(e) => r == Err(e) && allHistoricalCalls == h0
    }

    /** The hook before its mount effect runs, over the storage it finds. */
    constructor(st: Store)
      ensures currentSession.None? && calls == [] && allHistoricalCalls == [] && store == st
    {
      currentSession := None;
      calls := [];
      allHistoricalCalls := [];
      store := st;
    }

    /** `saveSessionToStorage`: write the blob, then read the index (which
        throws when garbled) and append the id when it is absent. */
    method SaveSessionToStorage(s: CallSession) returns (ok: bool)
      modifies this
      ensures store == SavedStore(old(store), s) && ok == SaveSucceeds(old(store))
      ensures currentSession == old(currentSession) && calls == old(calls) && allHistoricalCalls == old(allHistoricalCalls)
    {
      store := store.(sessions := store.sessions[s.id := Held(s)]);
      if store.index.Garbled? {
        return false;
      }
      var sessionIds := IndexIds(store.index);
      if s.id !in sessionIds {
        sessionIds := sessionIds + [s.id];
        store := store.(index := Held(sessionIds));
      }
      ok := true;
    }

    /** The persist effect that follows every change of the session or the records. */
    method Persist() returns (r: Result<(), Failure>)
      modifies this
      ensures currentSession == old(currentSession) && calls == old(calls)
      ensures PersistedFrom(old(store), old(allHistoricalCalls), r)
      ensures r.Ok? && currentSession.Some? ==> Synced() && forall c :: c in calls ==> c in allHistoricalCalls
      ensures old(Valid()) ==> Valid()
    {
      if currentSession.None? {
        return Ok(());
      }
      var session := currentSession.value.(calls := calls);
      ghost var p := PersistSession(store, session);
      if !Serializable(calls) {
        return Err(InvalidTimeValue);
      }
      PersistMirrorsSession(store, session);
      PersistHistory(store, session);
      if Valid() {
        PersistNoDuplicates(store, session);
      }
      ghost var w := SavedStore(store.(current := Held(session)), session);
      assert p.store == w;
      store := store.(current := Held(session));
      var saved := SaveSessionToStorage(session);
      assert store == w;
      if !saved {
        assert p.history == Err(StorageFailure);
        return Err(StorageFailure);
      }
      var history := LoadAllHistoricalCalls(store);
      if history.Err? {
        assert p.history == Err(StorageFailure);
        return Err(StorageFailure);
      }
      assert p.history == Ok(history.value);
      allHistoricalCalls := history.value;
      r := Ok(());
    }

    /** `startNewSession`: an empty session stamped `now`, then the persist. */
    method StartNewSession(now: nat) returns (r: Result<(), Failure>)
      modifies this
      ensures currentSession == Some(NewSession(now)) && calls == []
      ensures PersistedFrom(old(store), old(allHistoricalCalls), r)
      ensures r.Ok? ==> Synced()
      ensures forall id :: id != SessionId(now) ==> Blob(store, id) == Blob(old(store), id)
      ensures old(store).index.Held? ==> store.index.Held? && old(store).index.value <= store.index.value
      ensures old(Valid()) ==> Valid()
    {
      currentSession := Some(NewSession(now));
      calls := [];
      PersistMirrorsSession(store, NewSession(now));
      r := Persist();
    }

    /** The mount effect: rebuild the history, then restore the saved current
        session or start a new one when there is none; a garbled value throws. */
    method Mount(now: nat) returns (r: Result<(), Failure>)
      modifies this
      ensures History(old(store)).Err? ==> r == Err(StorageFailure) && unchanged(this)
      ensures History(old(store)).Ok? && old(store).current.Garbled? ==>
        r == Err(StorageFailure) && store == old(store) && currentSession == old(currentSession) &&
        calls == old(calls) && allHistoricalCalls == History(old(store)).value
      ensures History(old(store)).Ok? && old(store).current.Held? ==>
        currentSession == Some(old(store).current.value) && calls == old(store).current.value.calls &&
        PersistedFrom(old(store), History(old(store)).value, r)
      ensures History(old(store)).Ok? && old(store).current.Missing? ==>
        currentSession == Some(NewSession(now)) && calls == [] &&
        PersistedFrom(old(store), History(old(store)).value, r)
      ensures old(Valid()) ==> Valid()
    {
      var historicalCalls := LoadAllHistoricalCalls(store);
      if historicalCalls.Err? {
        return Err(StorageFailure);
      }
      allHistoricalCalls := historicalCalls.value;
      match store.current {
        case Garbled =>
          return Err(StorageFailure);
        case Held(session) =>
          currentSession := Some(session);
          calls := session.calls;
          r := Persist();
        case Missing =>
          r := StartNewSession(now);
      }
    }

    /** `addCall`: the new record goes first, the old list follows unchanged. */
    method AddCall(outcome: CallOutcome, notes: Option<string>, now: nat, suffix: string) returns (r: Result<(), Failure>)
      modifies this
      ensures calls == [CallEntry(CallId(now, suffix), Tagged(outcome), At(now), notes)] + old(calls)
      ensures currentSession == old(currentSession)
      ensures PersistedFrom(old(store), old(allHistoricalCalls), r)
      ensures r.Ok? && currentSession.Some? ==> Synced()
      ensures old(Valid()) ==> Valid()
    {
      var newCall := CallEntry(CallId(now, suffix), Tagged(outcome), At(now), notes);
      calls := [newCall] + calls;
      r := Persist();
    }

    /** `updateCall`: every record with the id gets the outcome and notes. */
    method UpdateCall(callId: string, outcome: CallOutcome, notes: Option<string>) returns (r: Result<(), Failure>)
      modifies this
      ensures calls == UpdateById(old(calls), callId, outcome, notes)
      ensures currentSession == old(currentSession)
      ensures PersistedFrom(old(store), old(allHistoricalCalls), r)
      ensures r.Ok? && currentSession.Some? ==> Synced()
      ensures old(Valid()) ==> Valid()
    {
      calls := UpdateById(calls, callId, outcome, notes);
      r := Persist();
    }

    /** `deleteCall`: the records with the id are dropped. */
    method DeleteCall(callId: string) returns (r: Result<(), Failure>)
      modifies this
      ensures calls == DeleteById(old(calls), callId)
      ensures currentSession == old(currentSession)
      ensures PersistedFrom(old(store), old(allHistoricalCalls), r)
      ensures r.Ok? && currentSession.Some? ==> Synced()
      ensures old(Valid()) ==> Valid()
    {
      calls := DeleteById(calls, callId);
      r := Persist();
    }

    /** `importFromCSV`: nothing at all below two lines, otherwise the rows'
        records go first, in file order. */
    method ImportFromCsv(content: string, now: nat, zone: int, suffix: nat -> string) returns (r: Result<(), Failure>)
      modifies this
      ensures CsvImport.ImportCsv(content, now, zone, ImportIds(now, suffix)).None? ==> r.Ok? && unchanged(this)
      ensures CsvImport.ImportCsv(content, now, zone, ImportIds(now, suffix)).Some? ==>
        calls == CsvImport.ImportCsv(content, now, zone, ImportIds(now, suffix)).value + old(calls) &&
        currentSession == old(currentSession) &&
        PersistedFrom(old(store), old(allHistoricalCalls), r)
      ensures old(Valid()) ==> Valid()
    {
      var imported := CsvImport.ImportCsvRows(content, now, zone, ImportIds(now, suffix));
      if imported.None? {
        return Ok(());
      }
      calls := imported.value + calls;
      r := Persist();
    }

    /** `importFromJSON` on the parse result: a throw leaves everything as it
        was; otherwise the items' records go first, in order. */
    method ImportFromJson(parsed: Option<Json>, now: nat, suffix: nat -> string, dateOf: Json -> Instant) returns (r: Result<(), Failure>)
      modifies this
      ensures JsonImport.ImportJson(parsed, ImportIds(now, suffix), dateOf).Err? ==> r == Err(InvalidJsonFormat) && unchanged(this)
      ensures JsonImport.ImportJson(parsed, ImportIds(now, suffix), dateOf).Ok? ==>
        calls == JsonImport.ImportJson(parsed, ImportIds(now, suffix), dateOf).value + old(calls) &&
        currentSession == old(currentSession) &&
        PersistedFrom(old(store), old(allHistoricalCalls), r)
      ensures old(Valid()) ==> Valid()
    {
      var imported := JsonImport.ImportFromJson(parsed, ImportIds(now, suffix), dateOf);
      if imported.Err? {
        return Err(InvalidJsonFormat);
      }
      calls := imported.value + calls;
      r := Persist();
    }
  }
}
