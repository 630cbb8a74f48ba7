/** The `Donation` entity and its data-annotation rules, as checked by
    `Validator.TryValidateObject` and by MVC model validation. */
module DonationModel {
  import opened Wrappers
  import opened Text
  import opened Calendar
  import opened Money

  datatype Donation = Donation(
    id: int,                      // DonationID, assigned by the store
    amount: real,
    bank: Option<string>,
    cardNumber: Option<string>,
    nameOnCard: Option<string>,
    cvc: Option<string>,
    donationDate: DateTime)

  /** `new Donation()`: amount 0, empty strings, and the current time as its date. */
  function NewDonation(now: DateTime): (d: Donation)
    ensures d.donationDate == now
    ensures d.bank == d.cardNumber == d.nameOnCard == d.cvc == Some("")
  {
    Donation(0, 0.0, Some(""), Some(""), Some(""), Some(""), now)
  }

  /** The validated properties of a donation, in declaration order. */
  datatype Member = Amount | Bank | CardNumber | NameOnCard | CVC | DonationDate

  /** One failed rule: the property it is about and its message. */
  datatype ValidationError = ValidationError(member: Member, message: string)

  /** `[Required]` on a string: not null, not empty, not only white space. */
  predicate Required(s: Option<string>) {
    !IsNullOrWhiteSpace(s)
  }

  /** `[StringLength(max, MinimumLength = min)]`: a null string passes. */
  predicate LengthWithin(s: Option<string>, min: nat, max: nat) {
    s.None? || min <= |s.value| <= max
  }

  /** `[Range(1, 10000000)]` with integer bounds: the amount is converted with
      `Convert.ToInt32`, which rounds half to even, before it is compared. */
  predicate AmountInRange(amount: real) {
    1 <= RoundHalfEven(amount) <= 10_000_000
  }

  /** The error reported for a string property marked `[Required]` and
      `[StringLength]`: `[Required]` is checked first, and when it fails the
      length rule is not checked. */
  function StringRule(member: Member, name: string, s: Option<string>, min: nat, max: nat, lengthMessage: string): (e: Option<ValidationError>)
    ensures e.None? <==> Required(s) && LengthWithin(s, min, max)
    ensures e.Some? ==> e.value.member == member
  {
    if !Required(s) then Some(ValidationError(member, "The " + name + " field is required."))
    else if !LengthWithin(s, min, max) then Some(ValidationError(member, lengthMessage))
    else None
  }

  /** Whether the annotations on property `m` accept the donation. */
  predicate RuleHolds(d: Donation, m: Member) {
    match m
    case Amount => AmountInRange(d.amount)
    case Bank => Required(d.bank) && LengthWithin(d.bank, 0, 100)
    case CardNumber => Required(d.cardNumber) && LengthWithin(d.cardNumber, 12, 50)
    case NameOnCard => Required(d.nameOnCard) && LengthWithin(d.nameOnCard, 0, 100)
    case CVC => Required(d.cvc) && LengthWithin(d.cvc, 3, 10)
    case DonationDate => true
  }

  /** The result the annotations on property `m` report: none when its rules
      hold, otherwise one error about `m`, with the attribute's message. */
  function RuleError(d: Donation, m: Member): (e: Option<ValidationError>)
    ensures e.None? <==> RuleHolds(d, m)
    ensures e.Some? ==> e.value.member == m
  {
    match m
    case Amount =>
      if AmountInRange(d.amount) then None
      else Some(ValidationError(Amount, "Please enter a valid donation amount."))
    case Bank =>
      StringRule(Bank, "Bank", d.bank, 0, 100, "The field Bank must be a string with a maximum length of 100.")
    case CardNumber =>
      StringRule(CardNumber, "CardNumber", d.cardNumber, 12, 50, "Card number must be between 12 and 50 characters.")
    case NameOnCard =>
      StringRule(NameOnCard, "NameOnCard", d.nameOnCard, 0, 100, "The field NameOnCard must be a string with a maximum length of 100.")
    case CVC =>
      StringRule(CVC, "CVC", d.cvc, 3, 10, "CVC must be 3-4 digits.")
    case DonationDate => None
  }

  /** The properties of `Donation` in declaration order. */
  const Properties: seq<Member> := [Amount, Bank, CardNumber, NameOnCard, CVC, DonationDate]

  /** The results `errorOf` gives for properties `ms`, in that order. */
  function Collect(errorOf: Member -> Option<ValidationError>, ms: seq<Member>): seq<ValidationError> {
    if ms == [] then []
    else (if errorOf(ms[0]).Some? then [errorOf(ms[0]).value] else []) + Collect(errorOf, ms[1..])
  }

  /** `Validator.TryValidateObject(d, ..., validateAllProperties: true)`. */
  function ValidationErrors(d: Donation): seq<ValidationError> {
    Collect(m => RuleError(d, m), Properties)
  }

  /** The annotations on every property accept the donation. */
  predicate IsValid(d: Donation) {
    forall m :: RuleHolds(d, m)
  }

  /** The member names that `errs` reports, in order. */
  function Members(errs: seq<ValidationError>): (ms: seq<Member>)
    ensures |ms| == |errs|
    ensures forall i :: 0 <= i < |errs| ==> ms[i] == errs[i].member
  {
    if errs == [] then [] else [errs[0].member] + Members(errs[1..])
  }

  lemma {:induction false} MembersAppend(x: seq<ValidationError>, y: seq<ValidationError>)
    ensures Members(x + y) == Members(x) + Members(y)
  {
    var l, r := Members(x + y), Members(x) + Members(y);
    forall i | 0 <= i < |l| ensures l[i] == r[i] {
      if i < |x| { assert (x + y)[i] == x[i]; } else { assert (x + y)[i] == y[i - |x|]; }
    }
  }

  /** Over a list of distinct properties, a property is reported once when it
      is in the list and has an error, and otherwise not at all. */
  lemma {:induction false} CollectCount(errorOf: Member -> Option<ValidationError>, ms: seq<Member>, m: Member)
    requires forall x :: errorOf(x).Some? ==> errorOf(x).value.member == x
    requires forall i, j :: 0 <= i < j < |ms| ==> ms[i] != ms[j]
    ensures multiset(Members(Collect(errorOf, ms)))[m] == if m in ms && errorOf(m).Some? then 1 else 0
  {
    if ms != [] {
      var e := errorOf(ms[0]);
      var head := if e.Some? then [e.value] else [];
      var rest := Collect(errorOf, ms[1..]);
      assert Collect(errorOf, ms) == head + rest;
      MembersAppend(head, rest);
      assert multiset(Members(head))[m] == if m == ms[0] && errorOf(m).Some? then 1 else 0;
      CollectCount(errorOf, ms[1..], m);
      assert m in ms <==> m == ms[0] || m in ms[1..];
      if m == ms[0] {
        assert m !in ms[1..] by {
          forall i | 0 <= i < |ms[1..]| ensures ms[1..][i] != m { assert ms[i + 1] != ms[0]; }
        }
      }
    }
  }

  /** The validator reports each property whose rules fail exactly once and
      every other property not at all. */
  lemma ValidationReportsEachFailingPropertyOnce(d: Donation, m: Member)
    ensures multiset(Members(ValidationErrors(d)))[m] == if RuleHolds(d, m) then 0 else 1
  {
    var errorOf := x => RuleError(d, x);
    assert forall x :: errorOf(x).Some? ==> errorOf(x).value.member == x;
    PropertiesListEveryMember(m);
    CollectCount(errorOf, Properties, m);
  }

  /** `Properties` lists every member once. */
  lemma PropertiesListEveryMember(m: Member)
    ensures m in Properties
    ensures forall i, j :: 0 <= i < j < |Properties| ==> Properties[i] != Properties[j]
  {
  }

  /** The validator reports no error exactly when the donation is valid, which
      is what `ModelState.IsValid` and `TryValidateObject` return. */
  lemma {:induction false} NoErrorsIffValid(d: Donation)
    ensures ValidationErrors(d) == [] <==> IsValid(d)
  {
    var ms := Members(ValidationErrors(d));
    if ValidationErrors(d) == [] {
      forall m ensures RuleHolds(d, m) { ValidationReportsEachFailingPropertyOnce(d, m); }
    } else {
      var m := ms[0];
      assert m in multiset(ms);
      ValidationReportsEachFailingPropertyOnce(d, m);
    }
  }

  /** The same, property by property. */
  lemma ValidIffAllRulesHold(d: Donation)
    ensures IsValid(d) <==>
      && AmountInRange(d.amount)
      && Required(d.bank) && LengthWithin(d.bank, 0, 100)
      && Required(d.cardNumber) && LengthWithin(d.cardNumber, 12, 50)
      && Required(d.nameOnCard) && LengthWithin(d.nameOnCard, 0, 100)
      && Required(d.cvc) && LengthWithin(d.cvc, 3, 10)
  {
    assert (forall m :: RuleHolds(d, m)) <==>
      RuleHolds(d, Amount) && RuleHolds(d, Bank) && RuleHolds(d, CardNumber)
      && RuleHolds(d, NameOnCard) && RuleHolds(d, CVC) && RuleHolds(d, DonationDate);
  }

  /** On whole amounts the range rule is the plain inclusive range 1 to 10,000,000. */
  lemma WholeAmountRange(n: int)
    ensures AmountInRange(n as real) <==> 1 <= n <= 10_000_000
  {
    RoundHalfEvenIsUnique(n as real, n);
  }

  /** A valid amount is at least 50 and at most 1,000,000,050 cents, so its
      conversion to a 64-bit integer cannot overflow. */
  lemma ValidAmountCents(amount: real)
    requires AmountInRange(amount)
    ensures 50 <= ToCents(amount) <= 1_000_000_050
  {
  }

  /** A default-constructed donation is invalid, with exactly one error on
      Amount and exactly one on Bank. */
  lemma DefaultDonationIsInvalid(now: DateTime)
    ensures !IsValid(NewDonation(now))
    ensures multiset(Members(ValidationErrors(NewDonation(now))))[Amount] == 1
    ensures multiset(Members(ValidationErrors(NewDonation(now))))[Bank] == 1
  {
    var d := NewDonation(now);
    assert RoundHalfEven(0.0) == 0 by { RoundHalfEvenIsUnique(0.0, 0); }
    ValidationReportsEachFailingPropertyOnce(d, Amount);
    ValidationReportsEachFailingPropertyOnce(d, Bank);
  }
}
