/** `DonationsController`: the donation form, the start of a hosted checkout
    session with the payment gateway, and the confirmation callback that
    records a donation once the gateway reports the session as paid.

    The gateway's API is not modelled: what a call returned, or that it threw,
    is an input. The signed-in state of the caller is a flag. */
module Donations {
  import opened Wrappers
  import opened Text
  import opened Calendar
  import opened Money
  import opened Mvc
  import opened DonationModel
  import opened Data

  /** The outcome of one call into the gateway's client library: a value, a
      `StripeException`, or any other exception. */
  datatype Call<T> = Returned(value: T) | StripeError | OtherError

  // ---------------------------------------------------------------------------
  // Configuration

  /** The success and cancel URLs, read from the environment once, when the
      controller is constructed. */
  datatype CheckoutConfig = CheckoutConfig(successUrl: string, cancelUrl: string)

  /** The constructor's check: a missing `STRIPE_SUCCESS_URL` or
      `STRIPE_CANCEL_URL` (checked in that order) aborts construction with an
      `InvalidOperationException` naming it. An empty value is accepted. */
  function LoadConfig(successEnv: Option<string>, cancelEnv: Option<string>): (r: Result<CheckoutConfig, string>)
    ensures r.Success? <==> successEnv.Some? && cancelEnv.Some?
    ensures r.Success? ==> r.value == CheckoutConfig(successEnv.value, cancelEnv.value)
    ensures successEnv.None? ==> r == Failure("STRIPE_SUCCESS_URL not configured.")
    ensures successEnv.Some? && cancelEnv.None? ==> r == Failure("STRIPE_CANCEL_URL not configured.")
  {
    if successEnv.None? then Failure("STRIPE_SUCCESS_URL not configured.")
    else if cancelEnv.None? then Failure("STRIPE_CANCEL_URL not configured.")
    else Success(CheckoutConfig(successEnv.value, cancelEnv.value))
  }

  // ---------------------------------------------------------------------------
  // Starting a checkout session

  datatype LineItemOptions = LineItemOptions(
    unitAmount: int, currency: string, productName: string, productDescription: string, quantity: int)

  /** The `SessionCreateOptions` sent to the gateway. */
  datatype SessionRequest = SessionRequest(
    paymentMethodTypes: seq<string>,
    mode: string,
    lineItems: seq<LineItemOptions>,
    successUrl: string,
    cancelUrl: string,
    metadata: map<string, string>)

  /** The part of a created `Session` the controller reads. */
  datatype CreatedSession = CreatedSession(id: string, url: Option<string>)

  /** `model.Bank ?? "N/A"`: the bank label carried in the session metadata. */
  function MetadataBank(bank: Option<string>): (tag: string)
    ensures bank.Some? ==> tag == bank.value
    ensures bank.None? ==> tag == "N/A"
  {
    bank.GetOr("N/A")
  }

  /** The session request built from a validated donation form. */
  function BuildSessionRequest(config: CheckoutConfig, model: Donation): (req: SessionRequest)
    ensures |req.lineItems| == 1
    ensures req.lineItems[0].unitAmount == ToCents(model.amount)
    ensures req.lineItems[0].quantity == 1 && req.lineItems[0].currency == "zar"
    ensures req.metadata == map["bank" := MetadataBank(model.bank)]
    ensures req.successUrl == config.successUrl + "?session_id={CHECKOUT_SESSION_ID}"
    ensures req.cancelUrl == config.cancelUrl
  {
    SessionRequest(
      ["card"],
      "payment",
      [LineItemOptions(ToCents(model.amount), "zar", "Nanas Foundation Donation",
                       "Bank: " + model.bank.GetOr(""), 1)],
      config.successUrl + "?session_id={CHECKOUT_SESSION_ID}",
      config.cancelUrl,
      map["bank" := MetadataBank(model.bank)])
  }

  /** For a valid form the session charges the amount to within half a cent,
      in a whole number of cents that fits a 64-bit integer, and carries the
      form's own bank label (never the "N/A" fallback). */
  lemma ValidFormSessionRequest(config: CheckoutConfig, model: Donation)
    requires IsValid(model)
    ensures var req := BuildSessionRequest(config, model);
      && 50 <= req.lineItems[0].unitAmount <= 1_000_000_050
      && -0.005 <= FromCents(req.lineItems[0].unitAmount) - model.amount <= 0.005
      && model.bank.Some? && req.metadata["bank"] == model.bank.value
  {
    ValidIffAllRulesHold(model);
    ValidAmountCents(model.amount);
  }

  /** Where the browser is sent: the session's hosted page, or, when the
      gateway returned no URL, a page built from the session id. */
  function CheckoutUrl(session: CreatedSession): (url: string)
    ensures !IsNullOrEmpty(session.url) ==> url == session.url.value
    ensures IsNullOrEmpty(session.url) ==> url == "https://checkout.stripe.com/pay/" + session.id
  {
    if !IsNullOrEmpty(session.url) then session.url.value
    else "https://checkout.stripe.com/pay/" + session.id
  }

  /** What POST Create decides. */
  datatype Initiation =
    | StartLoginRequired                       // not signed in
    | FormInvalid                              // the form failed validation
    | GatewayFailed(request: SessionRequest)   // the gateway call threw
    | ToCheckout(request: SessionRequest, url: string)

  function Initiate(config: CheckoutConfig, authenticated: bool, model: Donation, created: Call<CreatedSession>): Initiation {
    if !authenticated then StartLoginRequired
    else if !IsValid(model) then FormInvalid
    else
      var req := BuildSessionRequest(config, model);
      if created.Returned? then ToCheckout(req, CheckoutUrl(created.value)) else GatewayFailed(req)
  }

  /** The gateway is called only for a signed-in caller with a valid form, and
      then always with the request built from that form. */
  lemma GatewayCalledOnlyForValidForms(config: CheckoutConfig, authenticated: bool, model: Donation, created: Call<CreatedSession>)
    ensures var i := Initiate(config, authenticated, model, created);
      && (i.GatewayFailed? || i.ToCheckout? <==> authenticated && IsValid(model))
      && (i.GatewayFailed? || i.ToCheckout? ==> i.request == BuildSessionRequest(config, model))
      && (i.ToCheckout? <==> authenticated && IsValid(model) && created.Returned?)
  {
  }

  // ---------------------------------------------------------------------------
  // Confirming a paid session

  /** The parts of a retrieved checkout `Session` the controller reads. */
  datatype Session = Session(
    id: string,
    paymentStatus: Option<string>,
    amountTotal: Option<int>,                          // cents
    metadata: Option<map<string, Option<string>>>)

  datatype Price = Price(unitAmount: Option<int>)

  /** One line item of a session, with its three amounts in cents. */
  datatype LineItem = LineItem(price: Option<Price>, amountSubtotal: Option<int>, amountTotal: Option<int>)

  /** The payment status is "paid", ignoring case. */
  predicate IsPaid(status: Option<string>) {
    EqualsIgnoreCase(status, "paid")
  }

  /** The session total is missing or not positive, so the line items are consulted. */
  predicate NeedsLineItems(total: Option<int>) {
    total.None? || total.value <= 0
  }

  /** `Price?.UnitAmount ?? AmountSubtotal ?? AmountTotal`: the first of the
      item's amounts that is present, whatever its sign. */
  function ItemCents(item: LineItem): (c: Option<int>)
    ensures c.Some? <==> (item.price.Some? && item.price.value.unitAmount.Some?) || item.amountSubtotal.Some? || item.amountTotal.Some?
    ensures item.price.Some? && item.price.value.unitAmount.Some? ==> c == item.price.value.unitAmount
    ensures !(item.price.Some? && item.price.value.unitAmount.Some?) && item.amountSubtotal.Some? ==> c == item.amountSubtotal
    ensures !(item.price.Some? && item.price.value.unitAmount.Some?) && item.amountSubtotal.None? ==> c == item.amountTotal
  {
    var fromPrice := if item.price.Some? then item.price.value.unitAmount else None;
    Coalesce(fromPrice, Coalesce(item.amountSubtotal, item.amountTotal))
  }

  /** The amount in cents the controller settles on before checking that it is
      positive: the session total when it is positive; otherwise the first
      line item's first present amount; otherwise (no line item) the session
      total as it was. */
  function ResolveCents(total: Option<int>, first: Option<LineItem>): (c: Option<int>)
    ensures !NeedsLineItems(total) ==> c == total
    ensures NeedsLineItems(total) && first.Some? ==> c == ItemCents(first.value)
    ensures NeedsLineItems(total) && first.None? ==> c == total
  {
    if !NeedsLineItems(total) then total
    else if first.Some? then ItemCents(first.value)
    else total
  }

  /** `Metadata["bank"] ?? "Stripe"` when the metadata has a "bank" key, and
      "Stripe" otherwise. */
  function BankFromMetadata(metadata: Option<map<string, Option<string>>>): (bank: string)
    ensures metadata.Some? && "bank" in metadata.value && metadata.value["bank"].Some? ==> bank == metadata.value["bank"].value
    ensures !(metadata.Some? && "bank" in metadata.value && metadata.value["bank"].Some?) ==> bank == "Stripe"
  {
    if metadata.Some? && "bank" in metadata.value then metadata.value["bank"].GetOr("Stripe") else "Stripe"
  }

  /** What the Success callback decides. */
  datatype Confirmation =
    | LoginRequired
    | MissingSessionId
    | VerificationFailed            // a `StripeException` from the gateway
    | UnexpectedError               // any other exception, saving included
    | NotPaid
    | AmountUndetermined
    | Recorded(cents: int, bank: string)

  /** The Success callback's decision. `listed` is what listing the session's
      line items would give; it is consulted only when the session total is
      missing or not positive. */
  function Confirm(authenticated: bool, sessionId: Option<string>, retrieved: Call<Session>,
                   listed: Call<seq<LineItem>>, saveSucceeds: bool): Confirmation
  {
    if !authenticated then LoginRequired
    else if IsNullOrEmpty(sessionId) then MissingSessionId
    else if retrieved.StripeError? then VerificationFailed
    else if retrieved.OtherError? then UnexpectedError
    else
      var session := retrieved.value;
      if !IsPaid(session.paymentStatus) then NotPaid
      else if NeedsLineItems(session.amountTotal) && listed.StripeError? then VerificationFailed
      else if NeedsLineItems(session.amountTotal) && listed.OtherError? then UnexpectedError
      else
        var first := if NeedsLineItems(session.amountTotal) && |listed.value| > 0 then Some(listed.value[0]) else None;
        var cents := ResolveCents(session.amountTotal, first);
        if cents.None? || cents.value <= 0 then AmountUndetermined
        else if !saveSucceeds then UnexpectedError
        else Recorded(cents.value, BankFromMetadata(session.metadata))
  }

  /** A donation is recorded only for a signed-in caller, a non-empty session
      id, a session the gateway returned with status "paid", a positive amount
      and a successful save. */
  lemma RecordedOnlyWhenPaid(authenticated: bool, sessionId: Option<string>, retrieved: Call<Session>,
                             listed: Call<seq<LineItem>>, saveSucceeds: bool)
    ensures var c := Confirm(authenticated, sessionId, retrieved, listed, saveSucceeds);
      c.Recorded? ==>
        && authenticated && !IsNullOrEmpty(sessionId) && saveSucceeds
        && retrieved.Returned? && IsPaid(retrieved.value.paymentStatus)
        && c.cents > 0
  {
  }

  /** The recorded amount is the session total when that is positive, and
      otherwise the first non-null amount of the first line item, which must
      itself be positive; a zero unit price is not passed over for a later
      positive amount. */
  lemma RecordedAmountIsReconciled(authenticated: bool, sessionId: Option<string>, session: Session,
                                   listed: Call<seq<LineItem>>, saveSucceeds: bool)
    ensures var c := Confirm(authenticated, sessionId, Returned(session), listed, saveSucceeds);
      && (c.Recorded? && !NeedsLineItems(session.amountTotal) ==> c.cents == session.amountTotal.value)
      && (c.Recorded? && NeedsLineItems(session.amountTotal) ==>
            listed.Returned? && |listed.value| > 0 && ItemCents(listed.value[0]) == Some(c.cents))
      && (c.Recorded? ==> c.bank == BankFromMetadata(session.metadata))
  {
  }

  /** Conversely, a signed-in caller with a session id, whose paid session has
      a positive total, gets a donation of that total when the save succeeds. */
  lemma PaidSessionWithTotalIsRecorded(sessionId: string, session: Session, listed: Call<seq<LineItem>>)
    requires sessionId != ""
    requires IsPaid(session.paymentStatus)
    requires session.amountTotal.Some? && session.amountTotal.value > 0
    ensures Confirm(true, Some(sessionId), Returned(session), listed, true)
         == Recorded(session.amountTotal.value, BankFromMetadata(session.metadata))
  {
  }

  /** A paid session without a positive total is recorded from the first line
      item exactly when its first present amount is positive. */
  lemma LineItemFallback(sessionId: string, session: Session, item: LineItem, rest: seq<LineItem>)
    requires sessionId != ""
    requires IsPaid(session.paymentStatus)
    requires NeedsLineItems(session.amountTotal)
    ensures var c := Confirm(true, Some(sessionId), Returned(session), Returned([item] + rest), true);
      && (c.Recorded? <==> ItemCents(item).Some? && ItemCents(item).value > 0)
      && (c.Recorded? ==> c.cents == ItemCents(item).value)
  {
  }

  // ---------------------------------------------------------------------------
  // Responses

  /** The TempData keys and messages the controller sets. */
  const LoginKey: string := "LoginMessage"
  const ErrorKey: string := "DonationError"
  const DonateLoginMessage: string := "Please log in to make a donation."
  const ConfirmLoginMessage: string := "Please log in to view your donation confirmation."
  const MissingSessionMessage: string := "Missing session id."
  const VerificationFailedMessage: string := "Payment verification failed. Please contact support."
  const UnexpectedErrorMessage: string := "An error occurred while saving your donation. Please try again."
  const NotPaidMessage: string := "Payment not completed."
  const AmountUndeterminedMessage: string := "Could not determine donation amount from Stripe session."
  const FormInvalidMessage: string := "Please correct the errors and try again."
  const GatewayFailedMessage: string := "Payment initialization failed. Please try again."

  /** A TempData entry: its key and its message. */
  datatype Notice = Notice(key: string, message: string)

  function WithNotice(tempData: map<string, string>, n: Option<Notice>): map<string, string> {
    if n.Some? then tempData[n.value.key := n.value.message] else tempData
  }

  function ConfirmationNotice(c: Confirmation): (n: Option<Notice>)
    ensures n.None? <==> c.Recorded?
  {
    match c
    case LoginRequired => Some(Notice(LoginKey, ConfirmLoginMessage))
    case MissingSessionId => Some(Notice(ErrorKey, MissingSessionMessage))
    case VerificationFailed => Some(Notice(ErrorKey, VerificationFailedMessage))
    case UnexpectedError => Some(Notice(ErrorKey, UnexpectedErrorMessage))
    case NotPaid => Some(Notice(ErrorKey, NotPaidMessage))
    case AmountUndetermined => Some(Notice(ErrorKey, AmountUndeterminedMessage))
    case Recorded(_, _) => None
  }

  /** Sign-in failures go to Home/Index, success to ThankYou, everything else
      back to Create. */
  function ConfirmationResult(c: Confirmation): (r: ActionResult)
    ensures c.LoginRequired? <==> r == RedirectToAction("Index", Some("Home"))
    ensures c.Recorded? <==> r == RedirectToAction("ThankYou", None)
    ensures !c.LoginRequired? && !c.Recorded? <==> r == RedirectToAction("Create", None)
  {
    match c
    case LoginRequired => RedirectToAction("Index", Some("Home"))
    case Recorded(_, _) => RedirectToAction("ThankYou", None)
    case _ => RedirectToAction("Create", None)
  }

  /** The row the callback stores: the amount in rand, the bank label and the
      time of confirmation; the card fields keep their empty defaults. */
  function RecordedDonation(id: int, cents: int, bank: string, now: DateTime): (d: Donation)
    ensures d.id == id && d.amount * 100.0 == cents as real && d.bank == Some(bank) && d.donationDate == now
  {
    Donation(id, FromCents(cents), Some(bank), Some(""), Some(""), Some(""), now)
  }

  function InitiationNotice(i: Initiation): (n: Option<Notice>)
    ensures n.None? <==> i.ToCheckout?
  {
    match i
    case StartLoginRequired => Some(Notice(LoginKey, DonateLoginMessage))
    case FormInvalid => Some(Notice(ErrorKey, FormInvalidMessage))
    case GatewayFailed(_) => Some(Notice(ErrorKey, GatewayFailedMessage))
    case ToCheckout(_, _) => None
  }

  function InitiationResult(i: Initiation): (r: ActionResult)
    ensures i.StartLoginRequired? <==> r == RedirectToAction("Index", Some("Home"))
    ensures i.ToCheckout? <==> r.Redirect?
    ensures i.FormInvalid? || i.GatewayFailed? <==> r == View
  {
    match i
    case StartLoginRequired => RedirectToAction("Index", Some("Home"))
    case FormInvalid => View
    case GatewayFailed(_) => View
    case ToCheckout(_, url) => Redirect(url)
  }

  // ---------------------------------------------------------------------------
  // The controller

  class DonationsController {
    const db: AppDb
    const config: CheckoutConfig
    var tempData: map<string, string>

    /** Construction succeeds only with a configuration `LoadConfig` produced. */
    constructor (db: AppDb, config: CheckoutConfig)
      ensures this.db == db && this.config == config && tempData == map[]
    {
      this.db := db;
      this.config := config;
      tempData := map[];
    }

    /** GET Create: the form for a signed-in caller, otherwise Home/Index with
        a sign-in notice. */
    method CreateForm(authenticated: bool) returns (r: ActionResult)
      modifies this`tempData
      ensures authenticated ==> r == View && tempData == old(tempData)
      ensures !authenticated ==>
        r == RedirectToAction("Index", Some("Home")) && tempData == old(tempData)[LoginKey := DonateLoginMessage]
    {
      if !authenticated {
        tempData := tempData[LoginKey := DonateLoginMessage];
        return RedirectToAction("Index", Some("Home"));
      }
      return View;
    }

    /** POST Create: validate the form, start a checkout session and send the
        browser to it. `created` is what the gateway's `CreateAsync` gives;
        `sent` is the request passed to it, `None` when it is not called. No
        table changes. */
    method Create(authenticated: bool, model: Donation, created: Call<CreatedSession>)
      returns (r: ActionResult, sent: Option<SessionRequest>)
      modifies this`tempData
      ensures r == InitiationResult(Initiate(config, authenticated, model, created))
      ensures tempData == WithNotice(old(tempData), InitiationNotice(Initiate(config, authenticated, model, created)))
      ensures var i := Initiate(config, authenticated, model, created);
        sent == (if i.GatewayFailed? || i.ToCheckout? then Some(i.request) else None)
    {
      if !authenticated {
        tempData := tempData[LoginKey := DonateLoginMessage];
        return RedirectToAction("Index", Some("Home")), None;
      }
      if !IsValid(model) {
        tempData := tempData[ErrorKey := FormInvalidMessage];
        return View, None;
      }
      var request := BuildSessionRequest(config, model);
      sent := Some(request);
      match created
      case Returned(session) =>
        r := Redirect(CheckoutUrl(session));
      case _ =>
        tempData := tempData[ErrorKey := GatewayFailedMessage];
        r := View;
    }

    /** GET Success: confirm the session the gateway redirected back with and
        record the donation. `retrieved` is what `GetAsync(session_id)` gives,
        `listed` what listing the session's line items gives, `saveSucceeds`
        whether `SaveChangesAsync` commits, `now` the current UTC time. */
    method Success(authenticated: bool, sessionId: Option<string>, retrieved: Call<Session>,
                   listed: Call<seq<LineItem>>, saveSucceeds: bool, now: DateTime)
      returns (r: ActionResult)
      requires db.Valid()
      modifies this`tempData, db`donations, db`nextDonationId
      ensures db.Valid()
      ensures var c := Confirm(authenticated, sessionId, retrieved, listed, saveSucceeds);
        && r == ConfirmationResult(c)
        && tempData == WithNotice(old(tempData), ConfirmationNotice(c))
        && db.donations == old(db.donations)
             + (if c.Recorded? then [RecordedDonation(old(db.nextDonationId), c.cents, c.bank, now)] else [])
    {
      if !authenticated {
        tempData := tempData[LoginKey := ConfirmLoginMessage];
        return RedirectToAction("Index", Some("Home"));
      }
      if IsNullOrEmpty(sessionId) {
        tempData := tempData[ErrorKey := MissingSessionMessage];
        return RedirectToAction("Create", None);
      }
      if !retrieved.Returned? {
        r := Fail(retrieved.StripeError?);
        return;
      }
      var session := retrieved.value;
      if !IsPaid(session.paymentStatus) {
        tempData := tempData[ErrorKey := NotPaidMessage];
        return RedirectToAction("Create", None);
      }
      var amountCents := session.amountTotal;
      if amountCents.None? || amountCents.value <= 0 {
        if !listed.Returned? {
          r := Fail(listed.StripeError?);
          return;
        }
        if |listed.value| > 0 {
          var first := listed.value[0];
          var fromPrice := if first.price.Some? then first.price.value.unitAmount else None;
          amountCents := Coalesce(fromPrice, Coalesce(first.amountSubtotal, first.amountTotal));
        }
      }
      if amountCents.None? || amountCents.value <= 0 {
        tempData := tempData[ErrorKey := AmountUndeterminedMessage];
        return RedirectToAction("Create", None);
      }
      var bank := "Stripe";
      if session.metadata.Some? && "bank" in session.metadata.value {
        bank := session.metadata.value["bank"].GetOr("Stripe");
      }
      if !saveSucceeds {
        r := Fail(false);
        return;
      }
      var stored := db.AddDonation(RecordedDonation(0, amountCents.value, bank, now));
      r := RedirectToAction("ThankYou", None);
    }

    /** The two exception handlers of Success. */
    method Fail(fromGateway: bool) returns (r: ActionResult)
      modifies this`tempData
      ensures r == RedirectToAction("Create", None)
      ensures tempData == old(tempData)[ErrorKey :=
        if fromGateway then VerificationFailedMessage
        else UnexpectedErrorMessage]
    {
      if fromGateway {
        tempData := tempData[ErrorKey := VerificationFailedMessage];
      } else {
        tempData := tempData[ErrorKey := UnexpectedErrorMessage];
      }
      r := RedirectToAction("Create", None);
    }
  }

  /** Nothing guards against confirming one session twice: two callbacks for
      the same paid session store two donations. */
  method ConfirmTwice(c: DonationsController, sessionId: string, session: Session, now: DateTime)
    requires c.db.Valid()
    requires sessionId != "" && IsPaid(session.paymentStatus)
    requires session.amountTotal.Some? && session.amountTotal.value > 0
    modifies c, c.db
    ensures |c.db.donations| == |old(c.db.donations)| + 2
  {
    PaidSessionWithTotalIsRecorded(sessionId, session, Returned([]));
    var r1 := c.Success(true, Some(sessionId), Returned(session), Returned([]), true, now);
    var r2 := c.Success(true, Some(sessionId), Returned(session), Returned([]), true, now);
  }
}
