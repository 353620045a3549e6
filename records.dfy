/** The two list transformations behind editing and deleting a call. */
module Records {
  import opened Wrappers
  import opened CallTypes

  /** `{ ...call, outcome, notes }` for the call being edited, the call itself otherwise. */
  function Revised(c: CallEntry, id: string, outcome: CallOutcome, notes: Option<string>): CallEntry {
    if c.id == id then c.(outcome := Tagged(outcome), notes := notes) else c
  }

  /** `calls.map(...)` of `updateCall`: same length and order; every call with
      the id gets the new outcome and notes and keeps its id and timestamp; the
      others are untouched, so an absent id changes nothing. */
  function UpdateById(calls: seq<CallEntry>, id: string, outcome: CallOutcome, notes: Option<string>): (r: seq<CallEntry>)
    ensures |r| == |calls|
    ensures forall i :: 0 <= i < |calls| ==> r[i].id == calls[i].id && r[i].timestamp == calls[i].timestamp
    ensures forall i :: 0 <= i < |calls| && calls[i].id == id ==> r[i].outcome == Tagged(outcome) && r[i].notes == notes
    ensures forall i :: 0 <= i < |calls| && calls[i].id != id ==> r[i] == calls[i]
    ensures (forall i :: 0 <= i < |calls| ==> calls[i].id != id) ==> r == calls
  {
    seq(|calls|, i requires 0 <= i < |calls| => Revised(calls[i], id, outcome, notes))
  }

  /** How many calls carry the id. */
  function IdCount(calls: seq<CallEntry>, id: string): nat {
    if calls == [] then 0 else (if calls[0].id == id then 1 else 0) + IdCount(calls[1..], id)
  }

  /** `calls.filter(call => call.id !== id)` of `deleteCall`: fewer calls by
      the number of calls with the id. */
  function DeleteById(calls: seq<CallEntry>, id: string): (r: seq<CallEntry>)
    ensures |r| + IdCount(calls, id) == |calls|
  {
    if calls == [] then []
    else
      var rest := DeleteById(calls[1..], id);
      if calls[0].id == id then rest else [calls[0]] + rest
  }

  /** Exactly the calls with another id remain after a delete. */
  lemma {:induction false} DeleteMembers(calls: seq<CallEntry>, id: string)
    ensures forall c :: c in DeleteById(calls, id) <==> c in calls && c.id != id
  {
    if calls != [] {
      DeleteMembers(calls[1..], id);
      assert forall c :: c in calls <==> c == calls[0] || c in calls[1..];
    }
  }

  /** Deleting from a concatenation deletes from each part: the survivors keep
      their relative order. */
  lemma {:induction false} DeleteConcat(a: seq<CallEntry>, b: seq<CallEntry>, id: string)
    ensures DeleteById(a + b, id) == DeleteById(a, id) + DeleteById(b, id)
  {
    if a == [] {
      assert a + b == b;
    } else {
      assert (a + b)[1..] == a[1..] + b;
      DeleteConcat(a[1..], b, id);
    }
  }

  /** An absent id leaves the list as it is. */
  lemma {:induction false} DeleteAbsent(calls: seq<CallEntry>, id: string)
    requires IdCount(calls, id) == 0
    ensures DeleteById(calls, id) == calls
  {
    if calls != [] {
      DeleteAbsent(calls[1..], id);
      assert [calls[0]] + calls[1..] == calls;
    }
  }

  /** `a` is `b` with some elements left out, the rest in their order. */
  predicate Subsequence(a: seq<CallEntry>, b: seq<CallEntry>) {
    if a == [] then true
    else if b == [] then false
    else if a[0] == b[0] then Subsequence(a[1..], b[1..])
    else Subsequence(a, b[1..])
  }

  lemma {:induction false} DeleteIsSubsequence(calls: seq<CallEntry>, id: string)
    ensures Subsequence(DeleteById(calls, id), calls)
  {
    if calls != [] {
      DeleteIsSubsequence(calls[1..], id);
      var rest := DeleteById(calls[1..], id);
      if calls[0].id != id {
        assert ([calls[0]] + rest)[1..] == rest;
      } else if rest != [] {
        SubsequenceSkip(rest, calls);
      }
    }
  }

  /** A subsequence of the tail is a subsequence of the whole. */
  lemma {:induction false} SubsequenceSkip(a: seq<CallEntry>, b: seq<CallEntry>)
    requires b != [] && Subsequence(a, b[1..])
    ensures Subsequence(a, b)
  {
    if a != [] && a[0] == b[0] {
      var t := b[1..];
      if t != [] && a[0] == t[0] {
        if a[1..] != [] { SubsequenceSkip(a[1..], t); }
      } else {
        SubsequenceTail(a, t);
      }
    }
  }

  /** Dropping the head of a subsequence keeps it a subsequence. */
  lemma {:induction false} SubsequenceTail(a: seq<CallEntry>, b: seq<CallEntry>)
    requires a != [] && Subsequence(a, b)
    ensures Subsequence(a[1..], b)
  {
    if b != [] {
      if a[0] == b[0] {
        if a[1..] != [] { SubsequenceSkip(a[1..], b); }
      } else {
        SubsequenceTail(a, b[1..]);
        if a[1..] != [] { SubsequenceSkip(a[1..], b); }
      }
    }
  }
}
