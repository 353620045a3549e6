/** `importFromJSON`, over the value `JSON.parse` produced: an array of
    items, or an object whose `calls` field is an array of items; each item
    with a truthy `outcome` and `timestamp` becomes a record. A syntax error,
    or reading a field of `null`, throws, and the caller reports
    "Invalid JSON format". */
module JsonImport {
  import opened Wrappers
  import opened CallTypes

  /** The one error the import reports. */
  datatype ImportError = InvalidJsonFormat

  /** JavaScript truthiness of a parsed value; `None` stands for `undefined`. */
  predicate Truthy(v: Option<Json>) {
    match v
    case None => false
    case Some(JNull) => false
    case Some(JBool(b)) => b
    case Some(JNumber(n)) => n != 0.0
    case Some(JString(s)) => s != ""
    case Some(JArray(_)) => true
    case Some(JObject(_)) => true
  }

  /** Property access `v.name`: a TypeError on `null`, `undefined` (`None`)
      when the value has no such own field. */
  function Field(v: Json, name: string): (r: Result<Option<Json>, ImportError>)
    ensures r.Err? <==> v == JNull
    ensures r.Ok? && r.value.Some? ==> v.JObject? && name in v.fields && r.value.value == v.fields[name]
    ensures v.JObject? && name in v.fields ==> r == Ok(Some(v.fields[name]))
  {
    match v
    case JNull => Err(InvalidJsonFormat)
    case JObject(fields) => Ok(if name in fields then Some(fields[name]) else None)
    case _ => Ok(None)
  }

  /** `item.outcome as CallOutcome`: a tag when the value is one of the
      thirteen tag strings, the raw value otherwise (it is not checked). */
  function CastOutcome(v: Json): (r: RecordedOutcome)
    ensures r.Tagged? <==> v.JString? && FromKey(v.s).Some?
    ensures r.Tagged? ==> v == JString(Key(r.outcome))
    ensures r.Cast? ==> r.raw == v
  {
    if v.JString? && FromKey(v.s).Some? then Tagged(FromKey(v.s).value) else Cast(v)
  }

  /** `item.id || <fresh id>`: a non-empty string id is kept. */
  function ItemId(id: Option<Json>, spare: string): string {
    if id.Some? && id.value.JString? && id.value.s != "" then id.value.s else spare
  }

  /** `item.notes`: a string is kept; anything else reads as no notes. */
  function ItemNotes(notes: Option<Json>): Option<string> {
    if notes.Some? && notes.value.JString? then Some(notes.value.s) else None
  }

  /** Whether an object item passes `if (item.outcome && item.timestamp)`. */
  predicate Qualifies(item: Json) {
    item != JNull && Truthy(Field(item, "outcome").value) && Truthy(Field(item, "timestamp").value)
  }

  /** One item of the array: a TypeError on `null`, nothing when the outcome
      or the timestamp is falsy, otherwise the record. */
  function ItemRecord(item: Json, spare: string, dateOf: Json -> Instant): (r: Result<Option<CallEntry>, ImportError>)
    ensures r.Err? <==> item == JNull
    ensures r.Ok? ==> (r.value.Some? <==> Qualifies(item))
    ensures r.Ok? && r.value.Some? ==>
      var f := item.fields;
      r.value.value == CallEntry(ItemId(Field(item, "id").value, spare), CastOutcome(f["outcome"]),
        dateOf(f["timestamp"]), ItemNotes(Field(item, "notes").value))
  {
    if item == JNull then Err(InvalidJsonFormat)
    else if !Qualifies(item) then Ok(None)
    else
      var f := item.fields;
      Ok(Some(CallEntry(ItemId(Field(item, "id").value, spare), CastOutcome(f["outcome"]),
        dateOf(f["timestamp"]), ItemNotes(Field(item, "notes").value))))
  }

  /** The records of `items[..n]`, in order; item `k` gets `freshId(k)` when it has no id. */
  function CollectedUpTo(items: seq<Json>, n: nat, freshId: nat -> string, dateOf: Json -> Instant): Result<seq<CallEntry>, ImportError>
    requires n <= |items|
  {
    if n == 0 then Ok([])
    else
      match CollectedUpTo(items, n - 1, freshId, dateOf)
      case Err(e) => Err(e)
      case Ok(earlier) =>
        match ItemRecord(items[n - 1], freshId(n - 1), dateOf)
        case Err(e) => Err(e)
        case Ok(None) => Ok(earlier)
        case Ok(Some(c)) => Ok(earlier + [c])
  }

  /** The items the import walks: the array itself, or the array under `calls`;
      `None` when neither is there. */
  function ItemsOf(data: Json): Option<seq<Json>> {
    match data
    case JArray(items) => Some(items)
    case JObject(fields) =>
      if "calls" in fields && fields["calls"].JArray? then Some(fields["calls"].items) else None
    case _ => None
  }

  /** The import of a parse result (`None` is a syntax error): an error, or
      the records to prepend. A value of any other shape gives no records
      and no error, except `null`, whose `calls` cannot be read. */
  function ImportJson(parsed: Option<Json>, freshId: nat -> string, dateOf: Json -> Instant): Result<seq<CallEntry>, ImportError> {
    match parsed
    case None => Err(InvalidJsonFormat)
    case Some(data) =>
      if data == JNull then Err(InvalidJsonFormat)
      else match ItemsOf(data)
        case None => Ok([])
        case Some(items) => CollectedUpTo(items, |items|, freshId, dateOf)
  }

  /** The `forEach` that pushes one record per qualifying item. */
  method CollectItems(items: seq<Json>, freshId: nat -> string, dateOf: Json -> Instant) returns (r: Result<seq<CallEntry>, ImportError>)
    ensures r == CollectedUpTo(items, |items|, freshId, dateOf)
  {
    var importedCalls: seq<CallEntry> := [];
    for k := 0 to |items|
      invariant CollectedUpTo(items, k, freshId, dateOf) == Ok(importedCalls)
    {
      var rec := ItemRecord(items[k], freshId(k), dateOf);
      if rec.Err? {
        CollectErrorSticks(items, k + 1, |items|, freshId, dateOf);
        return Err(InvalidJsonFormat);
      }
      if rec.value.Some? {
        importedCalls := importedCalls + [rec.value.value];
      }
    }
    r := Ok(importedCalls);
  }

  /** `importFromJSON` up to the final `setCalls`. */
  method ImportFromJson(parsed: Option<Json>, freshId: nat -> string, dateOf: Json -> Instant) returns (r: Result<seq<CallEntry>, ImportError>)
    ensures r == ImportJson(parsed, freshId, dateOf)
  {
    if parsed.None? || parsed.value == JNull {
      return Err(InvalidJsonFormat);
    }
    var items := ItemsOf(parsed.value);
    if items.None? {
      return Ok([]);
    }
    r := CollectItems(items.value, freshId, dateOf);
  }

  /** Once an item has thrown, the import has thrown. */
  lemma {:induction false} CollectErrorSticks(items: seq<Json>, m: nat, n: nat, freshId: nat -> string, dateOf: Json -> Instant)
    requires m <= n <= |items|
    requires CollectedUpTo(items, m, freshId, dateOf) == Err(InvalidJsonFormat)
    ensures CollectedUpTo(items, n, freshId, dateOf) == Err(InvalidJsonFormat)
    decreases n - m
  {
    if m < n {
      CollectErrorSticks(items, m, n - 1, freshId, dateOf);
    }
  }

  /** The walk throws exactly when one of the items is `null`. */
  lemma {:induction false} CollectOkIff(items: seq<Json>, n: nat, freshId: nat -> string, dateOf: Json -> Instant)
    requires n <= |items|
    ensures CollectedUpTo(items, n, freshId, dateOf).Ok? <==> forall k :: 0 <= k < n ==> items[k] != JNull
  {
    if n > 0 {
      CollectOkIff(items, n - 1, freshId, dateOf);
    }
  }

  /** Every record comes from a qualifying item, every qualifying item
      gives its record, and there are no more records than items. */
  lemma CollectedRecords(items: seq<Json>, n: nat, freshId: nat -> string, dateOf: Json -> Instant)
    requires n <= |items| && CollectedUpTo(items, n, freshId, dateOf).Ok?
    ensures var r := CollectedUpTo(items, n, freshId, dateOf).value;
      |r| <= n &&
      (forall c :: c in r ==> exists k :: 0 <= k < n && Qualifies(items[k]) && ItemRecord(items[k], freshId(k), dateOf) == Ok(Some(c))) &&
      (forall k :: 0 <= k < n && Qualifies(items[k]) ==> ItemRecord(items[k], freshId(k), dateOf).value.value in r)
  {
    CollectedFromItems(items, n, freshId, dateOf);
    CollectedAllItems(items, n, freshId, dateOf);
  }

  /** Every record comes from a qualifying item, and there are no more
      records than items. */
  lemma {:induction false} CollectedFromItems(items: seq<Json>, n: nat, freshId: nat -> string, dateOf: Json -> Instant)
    requires n <= |items| && CollectedUpTo(items, n, freshId, dateOf).Ok?
    ensures var r := CollectedUpTo(items, n, freshId, dateOf).value;
      |r| <= n &&
      forall c :: c in r ==> exists k :: 0 <= k < n && Qualifies(items[k]) && ItemRecord(items[k], freshId(k), dateOf) == Ok(Some(c))
  {
    if n > 0 {
      CollectedStep(items, n, freshId, dateOf);
      var rec := ItemRecord(items[n - 1], freshId(n - 1), dateOf);
      CollectedFromItems(items, n - 1, freshId, dateOf);
      var earlier := CollectedUpTo(items, n - 1, freshId, dateOf).value;
      var r := CollectedUpTo(items, n, freshId, dateOf).value;
      var last := if rec.value.Some? then [rec.value.value] else [];
      assert r == earlier + last;
      forall c | c in r
        ensures exists k :: 0 <= k < n && Qualifies(items[k]) && ItemRecord(items[k], freshId(k), dateOf) == Ok(Some(c))
      {
        if c !in earlier {
          assert c in last;
          assert Qualifies(items[n - 1]) && rec == Ok(Some(c));
        }
      }
    }
  }

  /** Every qualifying item gives its record. */
  lemma CollectedAllItems(items: seq<Json>, n: nat, freshId: nat -> string, dateOf: Json -> Instant)
    requires n <= |items| && CollectedUpTo(items, n, freshId, dateOf).Ok?
    ensures var r := CollectedUpTo(items, n, freshId, dateOf).value;
      forall k :: 0 <= k < n && Qualifies(items[k]) ==> ItemRecord(items[k], freshId(k), dateOf).value.value in r
  {
    forall k | 0 <= k < n && Qualifies(items[k])
      ensures ItemRecord(items[k], freshId(k), dateOf).value.value in CollectedUpTo(items, n, freshId, dateOf).value
    {
      CollectedItem(items, n, k, freshId, dateOf);
    }
  }

  lemma {:induction false} CollectedItem(items: seq<Json>, n: nat, k: nat, freshId: nat -> string, dateOf: Json -> Instant)
    requires k < n <= |items| && CollectedUpTo(items, n, freshId, dateOf).Ok? && Qualifies(items[k])
    ensures ItemRecord(items[k], freshId(k), dateOf).value.value in CollectedUpTo(items, n, freshId, dateOf).value
  {
    CollectedStep(items, n, freshId, dateOf);
    var earlier := CollectedUpTo(items, n - 1, freshId, dateOf).value;
    var rec := ItemRecord(items[n - 1], freshId(n - 1), dateOf).value;
    var r := CollectedUpTo(items, n, freshId, dateOf).value;
    if k < n - 1 {
      CollectedItem(items, n - 1, k, freshId, dateOf);
      assert r[..|earlier|] == earlier;
    } else {
      assert r[|r| - 1] == rec.value;
    }
  }

  /** One more item appends its record, if it gives one. */
  lemma CollectedStep(items: seq<Json>, n: nat, freshId: nat -> string, dateOf: Json -> Instant)
    requires 0 < n <= |items| && CollectedUpTo(items, n, freshId, dateOf).Ok?
    ensures CollectedUpTo(items, n - 1, freshId, dateOf).Ok?
    ensures ItemRecord(items[n - 1], freshId(n - 1), dateOf).Ok?
    ensures var rec := ItemRecord(items[n - 1], freshId(n - 1), dateOf).value;
      CollectedUpTo(items, n, freshId, dateOf).value
        == CollectedUpTo(items, n - 1, freshId, dateOf).value + (if rec.Some? then [rec.value] else [])
  {
  }

  /** The session format and the bare array import the same records. */
  lemma SessionFormatIsArrayFormat(fields: map<string, Json>, items: seq<Json>, freshId: nat -> string, dateOf: Json -> Instant)
    requires "calls" in fields && fields["calls"] == JArray(items)
    ensures ImportJson(Some(JObject(fields)), freshId, dateOf) == ImportJson(Some(JArray(items)), freshId, dateOf)
  {
  }

  /** Any value that is neither an array nor an object with a `calls` array
      (nor `null`) imports nothing and raises no error. */
  lemma OtherShapesImportNothing(data: Json, freshId: nat -> string, dateOf: Json -> Instant)
    requires data != JNull && !data.JArray?
    requires !(data.JObject? && "calls" in data.fields && data.fields["calls"].JArray?)
    ensures ImportJson(Some(data), freshId, dateOf) == Ok([])
  {
  }

  /** A `records` field is not looked at. */
  lemma RecordsFieldIgnored(items: seq<Json>, freshId: nat -> string, dateOf: Json -> Instant)
    ensures ImportJson(Some(JObject(map["records" := JArray(items)])), freshId, dateOf) == Ok([])
  {
  }

  /** An item lacking an id gets a fresh one; a tag string becomes the tag. */
  lemma SessionExample(t: Json, freshId: nat -> string, dateOf: Json -> Instant)
    requires Truthy(Some(t))
    ensures ImportJson(Some(JObject(map["calls" := JArray([JObject(map["outcome" := JString("no"), "timestamp" := t])])])), freshId, dateOf)
      == Ok([CallEntry(freshId(0), Tagged(No), dateOf(t), None)])
  {
    var item := JObject(map["outcome" := JString("no"), "timestamp" := t]);
    assert Field(item, "outcome") == Ok(Some(JString("no")));
    assert Field(item, "timestamp") == Ok(Some(t));
    assert Field(item, "id") == Ok(None);
    assert Field(item, "notes") == Ok(None);
    assert CollectedUpTo([item], 0, freshId, dateOf) == Ok([]);
    assert FromKey("no") == Some(No);
    assert CastOutcome(JString("no")) == Tagged(No);
    assert Qualifies(item);
    assert ItemRecord(item, freshId(0), dateOf) == Ok(Some(CallEntry(freshId(0), Tagged(No), dateOf(t), None)));
    assert ItemsOf(JObject(map["calls" := JArray([item])])) == Some([item]);
    var c := CallEntry(freshId(0), Tagged(No), dateOf(t), None);
    assert [] + [c] == [c];
    assert CollectedUpTo([item], 1, freshId, dateOf) == Ok([c]);
  }
}
