/** The call tracker's data model: the thirteen call outcomes, a logged call,
    a working session, the derived statistics, and the abstract value
    `JSON.parse` produces (the import reads records out of it). */
module CallTypes {
  import opened Wrappers

  /** The closed set of outcomes a call can be tagged with, in declaration order. */
  datatype CallOutcome =
    | YesNeedsConfirmation
    | ConfirmedSale
    | No
    | AbsolutelyNo
    | Hangup
    | CallLater
    | CallIn2Months
    | SicknessMedicine
    | AlreadyCustomer
    | NotEnoughMoney
    | LanguageDifficulties
    | WrongNumber
    | Dnc

  /** Every outcome once, in the order the type, the statistics table, the
      import key list and the button table all use. */
  const AllOutcomes: seq<CallOutcome> := [
    YesNeedsConfirmation, ConfirmedSale, No, AbsolutelyNo, Hangup, CallLater,
    CallIn2Months, SicknessMedicine, AlreadyCustomer, NotEnoughMoney,
    LanguageDifficulties, WrongNumber, Dnc
  ]

  /** The string tag of an outcome, as stored and as matched on import. */
  function Key(o: CallOutcome): string {
    match o
    case YesNeedsConfirmation => "yes-needs-confirmation"
    case ConfirmedSale => "confirmed-sale"
    case No => "no"
    case AbsolutelyNo => "absolutely-no"
    case Hangup => "hangup"
    case CallLater => "call-later"
    case CallIn2Months => "call-in-2-months"
    case SicknessMedicine => "sickness-medicine"
    case AlreadyCustomer => "already-customer"
    case NotEnoughMoney => "not-enough-money"
    case LanguageDifficulties => "language-difficulties"
    case WrongNumber => "wrong-number"
    case Dnc => "dnc"
  }

  /** The outcome whose tag is exactly `s`, if any. */
  function FromKey(s: string): (r: Option<CallOutcome>)
    ensures r.Some? ==> Key(r.value) == s
  {
    if s == "yes-needs-confirmation" then Some(YesNeedsConfirmation)
    else if s == "confirmed-sale" then Some(ConfirmedSale)
    else if s == "no" then Some(No)
    else if s == "absolutely-no" then Some(AbsolutelyNo)
    else if s == "hangup" then Some(Hangup)
    else if s == "call-later" then Some(CallLater)
    else if s == "call-in-2-months" then Some(CallIn2Months)
    else if s == "sickness-medicine" then Some(SicknessMedicine)
    else if s == "already-customer" then Some(AlreadyCustomer)
    else if s == "not-enough-money" then Some(NotEnoughMoney)
    else if s == "language-difficulties" then Some(LanguageDifficulties)
    else if s == "wrong-number" then Some(WrongNumber)
    else if s == "dnc" then Some(Dnc)
    else None
  }

  /** The enumeration has exactly thirteen members, each listed once. */
  lemma AllOutcomesExact()
    ensures |AllOutcomes| == 13
    ensures forall o: CallOutcome :: o in AllOutcomes
    ensures forall i, j :: 0 <= i < j < |AllOutcomes| ==> AllOutcomes[i] != AllOutcomes[j]
  {
    forall o: CallOutcome ensures o in AllOutcomes {
      Listed(o);
    }
  }

  /** Every outcome is in the enumeration. */
  lemma Listed(o: CallOutcome)
    ensures o in AllOutcomes
  {
    match o
    case YesNeedsConfirmation => assert AllOutcomes[0] == o;
    case ConfirmedSale => assert AllOutcomes[1] == o;
    case No => assert AllOutcomes[2] == o;
    case AbsolutelyNo => assert AllOutcomes[3] == o;
    case Hangup => assert AllOutcomes[4] == o;
    case CallLater => assert AllOutcomes[5] == o;
    case CallIn2Months => assert AllOutcomes[6] == o;
    case SicknessMedicine => assert AllOutcomes[7] == o;
    case AlreadyCustomer => assert AllOutcomes[8] == o;
    case NotEnoughMoney => assert AllOutcomes[9] == o;
    case LanguageDifficulties => assert AllOutcomes[10] == o;
    case WrongNumber => assert AllOutcomes[11] == o;
    case Dnc => assert AllOutcomes[12] == o;
  }

  /** Each outcome, by position. */
  lemma OutcomePositions()
    ensures AllOutcomes[0] == YesNeedsConfirmation
    ensures AllOutcomes[1] == ConfirmedSale
    ensures AllOutcomes[2] == No
    ensures AllOutcomes[3] == AbsolutelyNo
    ensures AllOutcomes[4] == Hangup
    ensures AllOutcomes[5] == CallLater
    ensures AllOutcomes[6] == CallIn2Months
    ensures AllOutcomes[7] == SicknessMedicine
    ensures AllOutcomes[8] == AlreadyCustomer
    ensures AllOutcomes[9] == NotEnoughMoney
    ensures AllOutcomes[10] == LanguageDifficulties
    ensures AllOutcomes[11] == WrongNumber
    ensures AllOutcomes[12] == Dnc
  {
  }

  /** Tags and outcomes are in one-to-one correspondence. */
  lemma KeyRoundTrip(o: CallOutcome)
    ensures FromKey(Key(o)) == Some(o)
  {
  }

  lemma KeyInjective(o: CallOutcome, p: CallOutcome)
    requires Key(o) == Key(p)
    ensures o == p
  {
    KeyRoundTrip(o);
    KeyRoundTrip(p);
  }

  /** What `JSON.parse` yields. Object keys are unique (the last duplicate wins). */
  datatype Json =
    | JNull
    | JBool(b: bool)
    | JNumber(n: real)
    | JString(s: string)
    | JArray(items: seq<Json>)
    | JObject(fields: map<string, Json>)

  /** The outcome field of a stored record. Records created by the buttons and
      by the CSV import always carry a tag; the JSON import only casts the
      parsed value, so a record may carry any truthy value instead. */
  datatype RecordedOutcome = Tagged(outcome: CallOutcome) | Cast(raw: Json)

  /** A `Date`: a time value in milliseconds since the epoch, or the Invalid
      Date that `new Date(...)` yields for input it cannot read. */
  datatype Instant = At(ms: int) | InvalidDate

  /** One logged call. */
  datatype CallEntry = CallEntry(
    id: string,
    outcome: RecordedOutcome,
    timestamp: Instant,
    notes: Option<string>)

  /** One working period; `calls` newest first. */
  datatype CallSession = CallSession(
    id: string,
    calls: seq<CallEntry>,
    startTime: int,
    endTime: Option<int>)

  /** The derived statistics; `outcomeCounts` has one count per outcome. */
  datatype CallStats = CallStats(
    totalCalls: nat,
    confirmedSales: nat,
    yesRatio: real,
    engagementRatio: real,
    outcomeCounts: map<CallOutcome, nat>)
}
