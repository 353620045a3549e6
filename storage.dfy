/** The slice of `localStorage` the call tracker owns: the active session
    under one key, an index of session ids under another, and one blob per
    session; and the two routines that write and read them. */
module Storage {
  import opened Wrappers
  import opened CallTypes

  /** What reading one key yields: `Missing` when `getItem` returns null or
      the empty string (both falsy), `Held` when the text parses to the
      expected shape, `Garbled` when `JSON.parse` (or reading a field of what
      it returned) throws. */
  datatype Stored<T> = Missing | Held(value: T) | Garbled

  const CurrentSessionKey: string := "call-tracker-current-session"
  const SessionsIndexKey: string := "call-tracker-sessions-index"
  const SessionKeyPrefix: string := "call-tracker-session-"

  function SessionKey(id: string): string {
    SessionKeyPrefix + id
  }

  /** Per-session keys never collide with the two fixed keys or with each
      other, so the store can be kept as three separate parts. */
  lemma KeysDistinct(id: string, other: string)
    ensures SessionKey(id) != CurrentSessionKey
    ensures SessionKey(id) != SessionsIndexKey
    ensures SessionKey(id) == SessionKey(other) ==> id == other
  {
    assert SessionKey(id)[13] == 's' != CurrentSessionKey[13];
    if |SessionKey(id)| == |SessionsIndexKey| {
      assert SessionKey(id)[20] == '-' != SessionsIndexKey[20];
    }
    if SessionKey(id) == SessionKey(other) {
      assert id == SessionKey(id)[|SessionKeyPrefix|..];
      assert other == SessionKey(other)[|SessionKeyPrefix|..];
    }
  }

  /** The tracker's keys: the active session, the sessions index, and the
      session blobs, keyed here by session id (stored under `SessionKey(id)`). */
  datatype Store = Store(
    current: Stored<CallSession>,
    index: Stored<seq<string>>,
    sessions: map<string, Stored<CallSession>>)

  /** `localStorage.getItem(getSessionKey(id))`, parsed. */
  function Blob(st: Store, id: string): Stored<CallSession> {
    if id in st.sessions then st.sessions[id] else Missing
  }

  /** The index as `saveSessionToStorage` reads it: `[]` when there is none. */
  function IndexIds(index: Stored<seq<string>>): seq<string>
    requires !index.Garbled?
  {
    if index.Held? then index.value else []
  }

  predicate NoDuplicates(ids: seq<string>) {
    forall i, j :: 0 <= i < j < |ids| ==> ids[i] != ids[j]
  }

  /** `if (!sessionIds.includes(id)) sessionIds.push(id)`. */
  function AddIfAbsent(ids: seq<string>, id: string): (r: seq<string>)
    ensures id in r
    ensures forall x :: x in r <==> x in ids || x == id
    ensures id in ids ==> r == ids
    ensures id !in ids ==> r == ids + [id]
  {
    if id in ids then ids else ids + [id]
  }

  /** Appending only absent ids keeps the index free of repetitions. */
  lemma AddIfAbsentNoDuplicates(ids: seq<string>, id: string)
    requires NoDuplicates(ids)
    ensures NoDuplicates(AddIfAbsent(ids, id))
  {
  }

  /** The store after `saveSessionToStorage(s)`: the blob is written first;
      the index then gains the id if it lacked it. A garbled index makes
      `JSON.parse` throw after the blob was written: see `SaveSucceeds`. */
  function SavedStore(st: Store, s: CallSession): (r: Store)
    ensures r.current == st.current
    ensures Blob(r, s.id) == Held(s)
    ensures forall id :: id != s.id ==> Blob(r, id) == Blob(st, id)
    ensures st.index.Garbled? ==> r.index == Garbled
    ensures !st.index.Garbled? ==> r.index == Held(AddIfAbsent(IndexIds(st.index), s.id))
  {
    var written := st.(sessions := st.sessions[s.id := Held(s)]);
    if st.index.Garbled? then written
    else written.(index := Held(AddIfAbsent(IndexIds(st.index), s.id)))
  }

  /** Whether `saveSessionToStorage` returns normally. */
  predicate SaveSucceeds(st: Store) {
    !st.index.Garbled?
  }

  /** Saving the same session twice is saving it once. */
  lemma SaveIdempotent(st: Store, s: CallSession)
    ensures SavedStore(SavedStore(st, s), s) == SavedStore(st, s)
  {
    var once := SavedStore(st, s);
    assert once.sessions[s.id := Held(s)] == once.sessions;
  }

  /** Saving keeps an index without repetitions free of them. */
  lemma SaveNoDuplicates(st: Store, s: CallSession)
    requires st.index.Held? ==> NoDuplicates(st.index.value)
    ensures SavedStore(st, s).index.Held? ==> NoDuplicates(SavedStore(st, s).index.value)
  {
    if !st.index.Garbled? {
      AddIfAbsentNoDuplicates(IndexIds(st.index), s.id);
    }
  }

  // ---- the historical rebuild ----

  /** Reading the index is all or nothing: one garbled blob makes the rebuild throw. */
  datatype StorageError = MalformedJson

  /** The records of the blobs of `ids`, concatenated in index order; missing
      blobs contribute nothing; no record is dropped or merged. */
  function HistoryFrom(ids: seq<string>, st: Store): Result<seq<CallEntry>, StorageError> {
    if ids == [] then Ok([])
    else
      match HistoryFrom(ids[..|ids| - 1], st)
      case Err(e) => Err(e)
      case Ok(earlier) =>
        match Blob(st, ids[|ids| - 1])
        case Missing => Ok(earlier)
        case Held(s) => Ok(earlier + s.calls)
        case Garbled => Err(MalformedJson)
  }

  /** `loadAllHistoricalCalls()`: no index gives `[]`. */
  function History(st: Store): Result<seq<CallEntry>, StorageError> {
    match st.index
    case Missing => Ok([])
    case Garbled => Err(MalformedJson)
    case Held(ids) => HistoryFrom(ids, st)
  }

  /** `loadAllHistoricalCalls`: the `forEach` over the index that pushes the
      calls of every blob present. */
  method LoadAllHistoricalCalls(st: Store) returns (r: Result<seq<CallEntry>, StorageError>)
    ensures r == History(st)
  {
    if st.index.Missing? {
      return Ok([]);
    }
    if st.index.Garbled? {
      return Err(MalformedJson);
    }
    var ids := st.index.value;
    var allCalls: seq<CallEntry> := [];
    for i := 0 to |ids|
      invariant HistoryFrom(ids[..i], st) == Ok(allCalls)
    {
      assert ids[..i + 1][..i] == ids[..i];
      match Blob(st, ids[i]) {
        case Missing =>
        case Held(s) =>
          allCalls := allCalls + s.calls;
        case Garbled =>
          assert ids[..i + 1][i] == ids[i];
          assert HistoryFrom(ids[..i + 1], st) == Err(MalformedJson);
          HistoryErrorSticks(ids[..i + 1], ids[i + 1..], st);
          assert ids[..i + 1] + ids[i + 1..] == ids;
          return Err(MalformedJson);
      }
    }
    assert ids[..|ids|] == ids;
    r := Ok(allCalls);
  }

  /** Once the rebuild has thrown, later index entries cannot undo it. */
  lemma {:induction false} HistoryErrorSticks(a: seq<string>, b: seq<string>, st: Store)
    requires HistoryFrom(a, st) == Err(MalformedJson)
    ensures HistoryFrom(a + b, st) == Err(MalformedJson)
  {
    if b != [] {
      var ab := a + b;
      assert ab[..|ab| - 1] == a + b[..|b| - 1];
      HistoryErrorSticks(a, b[..|b| - 1], st);
    } else {
      assert a + b == a;
    }
  }

  /** The rebuild of a concatenated index is the concatenation of the rebuilds. */
  lemma {:induction false} HistoryConcat(a: seq<string>, b: seq<string>, st: Store)
    requires HistoryFrom(a, st).Ok? && HistoryFrom(b, st).Ok?
    ensures HistoryFrom(a + b, st) == Ok(HistoryFrom(a, st).value + HistoryFrom(b, st).value)
  {
    if b == [] {
      assert a + b == a;
      assert HistoryFrom(a, st).value + HistoryFrom(b, st).value == HistoryFrom(a, st).value;
    } else {
      var ab := a + b;
      assert ab[..|ab| - 1] == a + b[..|b| - 1];
      assert ab[|ab| - 1] == b[|b| - 1];
      HistoryConcat(a, b[..|b| - 1], st);
      var ha := HistoryFrom(a, st).value;
      var hb := HistoryFrom(b[..|b| - 1], st).value;
      match Blob(st, b[|b| - 1])
      case Missing =>
      case Held(s) =>
        assert ha + hb + s.calls == ha + (hb + s.calls);
      case Garbled =>
    }
  }

  /** The rebuild succeeds exactly when no blob named by the index is garbled. */
  lemma {:induction false} HistoryOkIff(ids: seq<string>, st: Store)
    ensures HistoryFrom(ids, st).Ok? <==> forall i :: 0 <= i < |ids| ==> !Blob(st, ids[i]).Garbled?
  {
    if ids != [] {
      var init := ids[..|ids| - 1];
      HistoryOkIff(init, st);
      assert forall i :: 0 <= i < |init| ==> init[i] == ids[i];
    }
  }

  /** A record is in the rebuild exactly when the index names a present blob holding it. */
  lemma {:induction false} HistoryMembers(ids: seq<string>, st: Store, c: CallEntry)
    requires HistoryFrom(ids, st).Ok?
    ensures c in HistoryFrom(ids, st).value <==>
      exists i :: 0 <= i < |ids| && Blob(st, ids[i]).Held? && c in Blob(st, ids[i]).value.calls
  {
    if ids != [] {
      var init := ids[..|ids| - 1];
      HistoryMembers(init, st, c);
      assert forall i :: 0 <= i < |init| ==> init[i] == ids[i];
      var b := Blob(st, ids[|ids| - 1]);
      if b.Held? && c in b.value.calls {
        assert 0 <= |ids| - 1 < |ids| && Blob(st, ids[|ids| - 1]).Held? && c in Blob(st, ids[|ids| - 1]).value.calls;
      }
      if exists i :: 0 <= i < |ids| && Blob(st, ids[i]).Held? && c in Blob(st, ids[i]).value.calls {
        var i :| 0 <= i < |ids| && Blob(st, ids[i]).Held? && c in Blob(st, ids[i]).value.calls;
        if i < |init| {
          assert Blob(st, init[i]).Held? && c in Blob(st, init[i]).value.calls;
        }
      }
    }
  }

  /** A session the index names and whose blob is held has all its records
      in the rebuilt history. */
  lemma HistoryHasSession(st: Store, s: CallSession)
    requires st.index.Held? && s.id in st.index.value && Blob(st, s.id) == Held(s)
    requires History(st).Ok?
    ensures forall c :: c in s.calls ==> c in History(st).value
  {
    var ids := st.index.value;
    var k :| 0 <= k < |ids| && ids[k] == s.id;
    forall c | c in s.calls ensures c in History(st).value {
      assert Blob(st, ids[k]).Held? && c in Blob(st, ids[k]).value.calls;
      HistoryMembers(ids, st, c);
    }
  }

  /** The rebuild reads only the blobs the index names. */
  lemma {:induction false} HistoryFrame(ids: seq<string>, st: Store, st': Store)
    requires forall i :: 0 <= i < |ids| ==> Blob(st, ids[i]) == Blob(st', ids[i])
    ensures HistoryFrom(ids, st) == HistoryFrom(ids, st')
  {
    if ids != [] {
      HistoryFrame(ids[..|ids| - 1], st, st');
    }
  }

  /** Saving a session the index does not yet name appends its records to the
      rebuild: every earlier record is still there, in the same place. */
  lemma SaveNewSessionHistory(st: Store, s: CallSession)
    requires !st.index.Garbled? && s.id !in IndexIds(st.index)
    requires History(st).Ok?
    ensures History(SavedStore(st, s)) == Ok(History(st).value + s.calls)
  {
    var ids := IndexIds(st.index);
    var st' := SavedStore(st, s);
    var ext := ids + [s.id];
    assert st'.index == Held(ext);
    assert History(st) == HistoryFrom(ids, st);
    forall i | 0 <= i < |ids| ensures Blob(st, ids[i]) == Blob(st', ids[i]) {
      assert ids[i] != s.id;
    }
    HistoryFrame(ids, st, st');
    assert ext[..|ext| - 1] == ids && ext[|ext| - 1] == s.id;
    assert HistoryFrom(ext, st') == Ok(HistoryFrom(ids, st').value + s.calls);
  }

  /** Saving a session the index already names rewrites only that session's
      part of the rebuild. */
  lemma SaveKnownSessionIndex(st: Store, s: CallSession)
    requires st.index.Held? && s.id in st.index.value
    ensures SavedStore(st, s).index == st.index
  {
  }

  /** No de-duplication: a record held by two blobs appears twice. */
  lemma NoDeduplication(c: CallEntry, a: CallSession, b: CallSession)
    requires a.id != b.id && a.calls == [c] && b.calls == [c]
    ensures History(Store(Missing, Held([a.id, b.id]), map[a.id := Held(a), b.id := Held(b)])) == Ok([c, c])
  {
    var st := Store(Missing, Held([a.id, b.id]), map[a.id := Held(a), b.id := Held(b)]);
    assert [a.id, b.id][..1] == [a.id];
    assert [a.id][..0] == [];
    assert Blob(st, a.id) == Held(a) && Blob(st, b.id) == Held(b);
    assert HistoryFrom([], st) == Ok([]);
    assert HistoryFrom([a.id], st) == Ok([] + a.calls);
    assert [] + a.calls == [c];
    assert HistoryFrom([a.id, b.id], st) == Ok([c] + [c]);
    assert [c] + [c] == [c, c];
    assert History(st) == HistoryFrom([a.id, b.id], st);
  }

  /** No skipping: one garbled blob makes the whole rebuild throw. */
  lemma GarbledBlobThrows(st: Store, ids: seq<string>, k: nat)
    requires st.index == Held(ids) && k < |ids| && Blob(st, ids[k]).Garbled?
    ensures History(st).Err?
  {
    HistoryOkIff(ids, st);
  }
}
