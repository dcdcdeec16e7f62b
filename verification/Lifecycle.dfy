/**
 * One birthday order's life after detection: what each request leaves in the
 * database, as functions on the order's row and its two append-only logs.
 */
module Lifecycle {
  import opened Common
  import opened OrderStatuses

  datatype AddressStatus = NotChecked | VerificationRequested | Verified | NeedsUpdate | NotApplicable

  /** OrderEvent rows; Note stands for the kinds that carry no status. */
  datatype Event =
    | Detected(to: OrderStatus)
    | ExceptionRaised(to: OrderStatus)
    | StatusChanged(from: OrderStatus, to: OrderStatus)
    | AutoReleased(from: OrderStatus, to: OrderStatus)
    | EmailSent(to: OrderStatus)
    | EmailFailed(from: OrderStatus, to: OrderStatus)
    | AddressChanged(was: AddressStatus, now: AddressStatus)
    | Note

  datatype CommStatus = Sent | Failed

  datatype Communication = Communication(supplierId: Option<int>, status: CommStatus, retryCount: nat)

  datatype AddressField = Line1 | Line2 | City | StateProvince | PostalCode | Country

  /** The delivery-address columns; a field that is absent is NULL. */
  type DeliveryAddress = map<AddressField, Option<string>>

  /** A supplier user's open problem report; `kind` is the submitted issue type. */
  datatype Issue = Issue(raisedBy: int, kind: string, detail: string)

  const CANNOT_FULFIL := "CANNOT_FULFIL"

  /** The columns that describe the order without driving its state machine, and the reports beside it. */
  datatype Facts = Facts(
    supplierId: Option<int>,
    deliveryDay: Option<int>,
    officeLocation: string,
    quantity: int,
    employeeName: string,
    leadTime: LeadTimeClass,
    manuallyCorrected: bool,
    holdReason: Option<string>,
    exceptionReason: Option<ExceptionReason>,
    reviewConfirmedBy: Option<int>,
    completed: bool,
    catalogueItemId: Option<int>,
    delivery: DeliveryAddress,
    issues: seq<Issue>)

  datatype OrderState = OrderState(
    status: OrderStatus,
    address: AddressStatus,
    facts: Facts,
    retryCount: nat,
    released: bool,
    releasedBy: Option<int>,
    events: seq<Event>,
    comms: seq<Communication>)

  datatype Error = InvalidTransition | NoSupplierAssigned | NotReleasable | AddressNotVerified | Refused

  /** What the email client does with one send. */
  datatype Email = Accepted | ReportedUnsent | ClientRaised

  datatype ReleaseConfig = ReleaseConfig(defaultQuantity: int, autoReleaseEnabled: bool)

  type Attempt = Result<OrderState, Error>

  // ------------------------------------------------------------------
  // order_status_service
  // ------------------------------------------------------------------

  function Logged(s: OrderState, e: Event): OrderState {
    s.(events := s.events + [e])
  }

  function Moved(s: OrderState, to: OrderStatus, auto: bool): OrderState {
    Logged(s.(status := to), if auto then AutoReleased(s.status, to) else StatusChanged(s.status, to))
  }

  function Transition(s: OrderState, to: OrderStatus, auto: bool): Attempt {
    if to in AllowedTransitions(s.status) then Ok(Moved(s, to, auto)) else Raised(InvalidTransition)
  }

  // ------------------------------------------------------------------
  // order_email_service
  // ------------------------------------------------------------------

  predicate SupplierFound(s: OrderState, suppliers: set<int>) {
    s.facts.supplierId.Some? && s.facts.supplierId.value in suppliers
  }

  function WithComm(s: OrderState, status: CommStatus): OrderState {
    s.(comms := s.comms + [Communication(s.facts.supplierId, status,
                                         if s.status == RequiresAttention then s.retryCount + 1 else 0)])
  }

  function HandleFailure(s: OrderState): Attempt {
    var counted := s.(retryCount := s.retryCount + 1);
    var moved := if s.status == RequiresAttention then Ok(counted) else Transition(counted, RequiresAttention, false);
    match moved
    case Ok(m) => Ok(Logged(m, EmailFailed(s.status, RequiresAttention)))
    case Raised(e) => Raised(e)
  }

  function Send(s: OrderState, suppliers: set<int>, releasedBy: Option<int>, email: Email): Attempt {
    if !SupplierFound(s, suppliers) then Raised(NoSupplierAssigned)
    else if !Sendable(s.status) then Raised(NotReleasable)
    else if s.address != Verified then Raised(AddressNotVerified)
    else if email != Accepted then HandleFailure(WithComm(s, Failed))
    else match Transition(WithComm(s, Sent).(released := true, releasedBy := releasedBy),
                          SentToSupplier, releasedBy == None)
      case Ok(m) => Ok(Logged(m, EmailSent(SentToSupplier)))
      case Raised(e) => Raised(e)
  }

  // ------------------------------------------------------------------
  // readiness_service and address_verification_service
  // ------------------------------------------------------------------

  function WithAddress(s: OrderState, a: AddressStatus): OrderState {
    Logged(s.(address := a), AddressChanged(s.address, a))
  }

  predicate Ready(s: OrderState) {
    && s.address == Verified
    && s.facts.supplierId.Some?
    && s.facts.deliveryDay.Some?
    && s.facts.officeLocation != ""
    && s.facts.quantity >= 1
    && s.facts.employeeName != ""
  }

  function Flags(s: OrderState, corrected: bool, config: ReleaseConfig): seq<ExceptionReason> {
    (if corrected || s.facts.manuallyCorrected then [AddressManuallyCorrected] else [])
    + (if s.facts.leadTime != Normal then [ShortNoticeLeadTime] else [])
    + (if s.facts.quantity != config.defaultQuantity then [QuantityChanged] else [])
  }

  /** What `verify_and_release` does once the address is marked VERIFIED. */
  function Decide(s: OrderState, corrected: bool, config: ReleaseConfig, suppliers: set<int>, email: Email): Attempt {
    if !Ready(s) then
      var reason := if s.facts.supplierId == None then Some(NoSupplier) else None;
      Transition(s.(facts := s.facts.(exceptionReason := reason)), RequiresAttention, false)
    else
      var flags := Flags(s, corrected, config);
      if flags != [] || !config.autoReleaseEnabled then
        Transition(s.(facts := s.facts.(exceptionReason := if flags != [] then Some(flags[0]) else None)),
                   RequiresReview, false)
      else
        var sent := Send(s.(facts := s.facts.(exceptionReason := None)), suppliers, None, email);
        if sent == Raised(NoSupplierAssigned) then
          Transition(s.(facts := s.facts.(exceptionReason := Some(NoSupplier))), RequiresAttention, false)
        else sent
  }

  // ------------------------------------------------------------------
  // Requests, and what they leave committed
  // ------------------------------------------------------------------

  datatype Request =
    | SetAddress(to: AddressStatus)
    | CorrectAddress(fields: DeliveryAddress)
    | Edit(quantity: int, holdNote: Option<string>, office: string, supplier: Option<int>, day: Option<int>,
           catalogueItem: Option<int>, activeSuppliers: set<int>)
    | Verify(corrected: bool, config: ReleaseConfig, suppliers: set<int>, email: Email)
    | ConfirmRelease(actor: int, suppliers: set<int>, email: Email)
    | SendOrResend(sender: Option<int>, suppliers: set<int>, email: Email)
    | Hold(reason: string)
    | Release
    | Cancel
    | SupplierStatus(target: OrderStatus)
    | SupplierIssue(issue: Issue)
    | AutoComplete

  function Edited(s: OrderState, r: Request): OrderState
    requires r.Edit?
  {
    var reassigned, moved := r.supplier != s.facts.supplierId, r.day != s.facts.deliveryDay;
    s.(facts := s.facts.(quantity := r.quantity, holdReason := r.holdNote, officeLocation := r.office,
                         supplierId := r.supplier, deliveryDay := r.day, catalogueItemId := r.catalogueItem),
       events := NotedIf(NotedIf(s.events, reassigned), (reassigned || moved) && SupplierVisible(s.status)))
  }

  function NotedIf(events: seq<Event>, noted: bool): seq<Event> {
    if noted then events + [Note] else events
  }

  function Column(address: DeliveryAddress, field: AddressField): Option<string> {
    if field in address then address[field] else None
  }

  /** The submitted fields that differ from the stored ones. */
  function Changes(address: DeliveryAddress, fields: DeliveryAddress): DeliveryAddress {
    map f | f in fields && fields[f] != Column(address, f) :: fields[f]
  }

  function Corrected(s: OrderState, fields: DeliveryAddress): OrderState {
    var changes := Changes(s.facts.delivery, fields);
    s.(facts := s.facts.(delivery := s.facts.delivery + changes,
                         manuallyCorrected := s.facts.manuallyCorrected || changes != map[]))
  }

  function Reported(s: OrderState, issue: Issue): OrderState {
    Logged(s.(facts := s.facts.(issues := s.facts.issues + [issue])), Note)
  }

  function Completing(s: OrderState): Attempt {
    if s.status != Delivered then Ok(s) else Transition(s.(facts := s.facts.(completed := true)), Completed, false)
  }

  /** The outcome of a request, and the state the database keeps when it raises. */
  function Handle(s: OrderState, r: Request): (Attempt, OrderState) {
    match r
    case SetAddress(a) => (Ok(WithAddress(s, a)), s)
    case CorrectAddress(fields) => (Ok(Corrected(s, fields)), s)
    case Edit(_, _, _, supplier, _, _, active) =>
      if supplier != s.facts.supplierId && supplier.Some? && supplier.value !in active then (Raised(Refused), s)
      else (Ok(Edited(s, r)), s)
    case Verify(corrected, config, suppliers, email) =>
      var v := WithAddress(s, Verified);
      (Decide(v, corrected, config, suppliers, email), v)
    case ConfirmRelease(actor, suppliers, email) =>
      if s.status != RequiresReview then (Raised(Refused), s)
      else (Send(s.(facts := s.facts.(reviewConfirmedBy := Some(actor))), suppliers, Some(actor), email), s)
    case SendOrResend(sender, suppliers, email) => (Send(s, suppliers, sender, email), s)
    case Hold(reason) => (Transition(s.(facts := s.facts.(holdReason := Some(reason))), OnHold, false), s)
    case Release => (Transition(s.(facts := s.facts.(holdReason := None)), PendingVerification, false), s)
    case Cancel => (Transition(s, Cancelled, false), s)
    case SupplierStatus(target) =>
      if target !in SupplierDrivable(s.status) then (Raised(Refused), s)
      else
        var moved := Transition(s, target, false);
        if moved.Raised? then (moved, s)
        else if target == Delivered then (Completing(moved.value), moved.value)
        else (moved, s)
    case SupplierIssue(issue) =>
      if !SupplierActionable(s.status) then (Raised(Refused), s)
      else
        var noted := Reported(s, issue);
        if issue.kind == CANNOT_FULFIL && UnableToFulfil in AllowedTransitions(s.status) then
          (Transition(noted, UnableToFulfil, false), s)
        else (Ok(noted), s)
    case AutoComplete => (Completing(s), s)
  }

  /** The committed state after a request, whether it returned or raised. */
  function After(s: OrderState, r: Request): OrderState {
    match Handle(s, r)
    case (Ok(s'), _) => s'
    case (Raised(_), kept) => kept
  }

  function Run(s: OrderState, requests: seq<Request>): OrderState {
    if requests == [] then s else After(Run(s, requests[..|requests| - 1]), requests[|requests| - 1])
  }

  /** The row and the events `create_or_get_order` writes for a new order. */
  predicate FreshlyDetected(s: OrderState) {
    && InitialStatus(s.status)
    && s.address == NotChecked && s.retryCount == 0 && !s.released && s.comms == []
    && s.events == [Detected(s.status)] + if s.status == PendingVerification then [] else [ExceptionRaised(s.status)]
  }

  // ------------------------------------------------------------------
  // Reading the logs
  // ------------------------------------------------------------------

  /** The statuses the order has been through, as its timeline tells them. */
  function Path(events: seq<Event>): seq<OrderStatus> {
    if events == [] then []
    else
      var front, e := Path(events[..|events| - 1]), events[|events| - 1];
      if e.Detected? || e.StatusChanged? || e.AutoReleased? then front + [e.to] else front
  }

  /** The timeline is a connected walk through the transition table from a detection. */
  predicate Replays(events: seq<Event>) {
    if events == [] then false
    else if |events| == 1 then events[0].Detected? && InitialStatus(events[0].to)
    else
      var front, e := events[..|events| - 1], events[|events| - 1];
      && Replays(front)
      && !e.Detected?
      && (e.StatusChanged? || e.AutoReleased? ==>
            && Path(front) != []
            && e.from == Path(front)[|Path(front)| - 1]
            && e.to in AllowedTransitions(e.from))
  }

  function AddressAfter(events: seq<Event>): AddressStatus {
    if events == [] then NotChecked
    else if events[|events| - 1].AddressChanged? then events[|events| - 1].now
    else AddressAfter(events[..|events| - 1])
  }

  /** Every EMAIL_SENT was logged while the address log said VERIFIED. */
  predicate SendsVerified(events: seq<Event>) {
    events != [] ==>
      && SendsVerified(events[..|events| - 1])
      && (events[|events| - 1].EmailSent? ==> AddressAfter(events[..|events| - 1]) == Verified)
  }

  datatype Tally = Tally(emailsSent: nat, emailsFailed: nat, releases: nat)

  function TallyOf(events: seq<Event>): Tally {
    if events == [] then Tally(0, 0, 0)
    else
      var t, e := TallyOf(events[..|events| - 1]), events[|events| - 1];
      Tally(t.emailsSent + (if e.EmailSent? then 1 else 0),
            t.emailsFailed + (if e.EmailFailed? then 1 else 0),
            t.releases + (if (e.StatusChanged? || e.AutoReleased?) && e.to == SentToSupplier then 1 else 0))
  }

  function CountComms(comms: seq<Communication>, status: CommStatus): nat {
    if comms == [] then 0
    else CountComms(comms[..|comms| - 1], status) + if comms[|comms| - 1].status == status then 1 else 0
  }

  /** Every communication had a supplier and is numbered 0 or one past the failures before it. */
  predicate CommsNumbered(comms: seq<Communication>) {
    forall i :: 0 <= i < |comms| ==>
      && comms[i].supplierId.Some?
      && (comms[i].retryCount == 0 || comms[i].retryCount == CountComms(comms[..i], Failed) + 1)
  }

  // ------------------------------------------------------------------
  // The invariant of every run
  // ------------------------------------------------------------------

  predicate TimelineHolds(s: OrderState) {
    && Replays(s.events)
    && Path(s.events) != []
    && Path(s.events)[|Path(s.events)| - 1] == s.status
  }

  /** How many EMAIL_SENT and EMAIL_FAILED events went missing, their commit having failed after the one before it. */
  datatype Lost = Lost(sent: nat, failed: nat)

  const NOTHING := Lost(0, 0)

  predicate AccountsHold(s: OrderState, lost: Lost) {
    && s.retryCount == CountComms(s.comms, Failed) == TallyOf(s.events).emailsFailed + lost.failed
    && CountComms(s.comms, Sent) == TallyOf(s.events).emailsSent + lost.sent == TallyOf(s.events).releases
    && (s.released <==> CountComms(s.comms, Sent) > 0)
    && CommsNumbered(s.comms)
  }

  predicate AddressHolds(s: OrderState) {
    AddressAfter(s.events) == s.address && SendsVerified(s.events)
  }

  /** The invariant of an order, but for the events that are missing. */
  predicate GoodBut(s: OrderState, lost: Lost) {
    TimelineHolds(s) && AccountsHold(s, lost) && AddressHolds(s)
  }

  predicate Good(s: OrderState) { GoodBut(s, NOTHING) }

  /** What appending one event does to each reading of the log. */
  lemma Append(events: seq<Event>, e: Event)
    requires events != []
    ensures var all := events + [e];
            && Path(all) == Path(events) + (if e.Detected? || e.StatusChanged? || e.AutoReleased? then [e.to] else [])
            && (Replays(all) <==>
                  && Replays(events) && !e.Detected?
                  && (e.StatusChanged? || e.AutoReleased? ==>
                        && Path(events) != []
                        && e.from == Path(events)[|Path(events)| - 1]
                        && e.to in AllowedTransitions(e.from)))
            && AddressAfter(all) == (if e.AddressChanged? then e.now else AddressAfter(events))
            && (SendsVerified(all) <==> SendsVerified(events) && (e.EmailSent? ==> AddressAfter(events) == Verified))
            && TallyOf(all) == Tally(
                 TallyOf(events).emailsSent + (if e.EmailSent? then 1 else 0),
                 TallyOf(events).emailsFailed + (if e.EmailFailed? then 1 else 0),
                 TallyOf(events).releases
                   + (if (e.StatusChanged? || e.AutoReleased?) && e.to == SentToSupplier then 1 else 0))
  {
    hide AllowedTransitions;
    assert (events + [e])[..|events|] == events;
  }

  lemma AppendComm(comms: seq<Communication>, c: Communication)
    ensures forall st :: CountComms(comms + [c], st) == CountComms(comms, st) + if c.status == st then 1 else 0
    ensures CommsNumbered(comms + [c]) <==>
              && CommsNumbered(comms) && c.supplierId.Some?
              && (c.retryCount == 0 || c.retryCount == CountComms(comms, Failed) + 1)
  {
    var all := comms + [c];
    assert all[..|comms|] == comms;
    assert forall i :: 0 <= i < |comms| ==> all[i] == comms[i] && all[..i] == comms[..i];
    if CommsNumbered(all) {
      assert all[|comms|] == c;
      forall i | 0 <= i < |comms|
        ensures comms[i].supplierId.Some?
                && (comms[i].retryCount == 0 || comms[i].retryCount == CountComms(comms[..i], Failed) + 1)
      {
        assert all[i] == comms[i];
      }
    }
  }

  /** A move anywhere but to SENT_TO_SUPPLIER keeps the invariant. */
  lemma MoveKeepsGood(s: OrderState, to: OrderStatus, lost: Lost)
    requires GoodBut(s, lost) && to != SentToSupplier && to in AllowedTransitions(s.status)
    ensures GoodBut(Moved(s, to, false), lost)
  {
    hide AllowedTransitions, Replays, Path, AddressAfter, SendsVerified, TallyOf, CommsNumbered, CountComms;
    EventsNotEmpty(s, lost);
    Append(s.events, StatusChanged(s.status, to));
  }

  lemma EventsNotEmpty(s: OrderState, lost: Lost)
    requires GoodBut(s, lost)
    ensures s.events != []
  {
  }

  lemma NoteKeepsGood(s: OrderState, lost: Lost)
    requires GoodBut(s, lost)
    ensures GoodBut(Logged(s, Note), lost)
  {
    hide AllowedTransitions, Replays, Path, AddressAfter, SendsVerified, TallyOf, CommsNumbered;
    EventsNotEmpty(s, lost);
    Append(s.events, Note);
  }

  lemma AddressKeepsGood(s: OrderState, a: AddressStatus, lost: Lost)
    requires GoodBut(s, lost)
    ensures GoodBut(WithAddress(s, a), lost)
  {
    hide AllowedTransitions, Replays, Path, AddressAfter, SendsVerified, TallyOf, CommsNumbered;
    EventsNotEmpty(s, lost);
    Append(s.events, AddressChanged(s.address, a));
  }

  /** The table has both edges a send may take from every sendable status. */
  lemma SendableEdges(status: OrderStatus)
    requires Sendable(status)
    ensures SentToSupplier in AllowedTransitions(status)
    ensures status != RequiresAttention ==> RequiresAttention in AllowedTransitions(status)
  {
  }

  lemma AcceptedSendKeepsGood(s: OrderState, releasedBy: Option<int>, lost: Lost)
    requires GoodBut(s, lost) && Sendable(s.status) && s.address == Verified && s.facts.supplierId.Some?
    ensures var sent := WithComm(s, Sent).(released := true, releasedBy := releasedBy);
            GoodBut(Logged(Moved(sent, SentToSupplier, releasedBy == None), EmailSent(SentToSupplier)), lost)
  {
    hide AllowedTransitions, Replays, Path, AddressAfter, SendsVerified, TallyOf, CommsNumbered, CountComms, Sendable;
    EventsNotEmpty(s, lost);
    SendableEdges(s.status);
    var move :=
      if releasedBy == None then AutoReleased(s.status, SentToSupplier) else StatusChanged(s.status, SentToSupplier);
    AppendComm(s.comms, WithComm(s, Sent).comms[|s.comms|]);
    Append(s.events, move);
    Append(s.events + [move], EmailSent(SentToSupplier));
  }

  lemma FailedSendKeepsGood(s: OrderState, lost: Lost)
    requires GoodBut(s, lost) && Sendable(s.status) && s.facts.supplierId.Some?
    ensures var r := HandleFailure(WithComm(s, Failed));
            r.Ok? && GoodBut(r.value, lost) && r.value.status == RequiresAttention
  {
    hide AllowedTransitions, Replays, Path, AddressAfter, SendsVerified, TallyOf, CommsNumbered, CountComms, Sendable;
    EventsNotEmpty(s, lost);
    SendableEdges(s.status);
    AppendComm(s.comms, WithComm(s, Failed).comms[|s.comms|]);
    var failed, change := EmailFailed(s.status, RequiresAttention), StatusChanged(s.status, RequiresAttention);
    Append(s.events, failed);
    Append(s.events, change);
    Append(s.events + [change], failed);
  }

  /** A send never raises an invalid transition, and keeps the invariant whichever way the email goes. */
  lemma SendKeepsGood(s: OrderState, suppliers: set<int>, releasedBy: Option<int>, email: Email, lost: Lost)
    requires GoodBut(s, lost)
    ensures var r := Send(s, suppliers, releasedBy, email);
            && (r.Raised? ==> r.error != InvalidTransition)
            && (r.Ok? <==> SupplierFound(s, suppliers) && Sendable(s.status) && s.address == Verified)
            && (r.Ok? ==> GoodBut(r.value, lost))
            && (r.Ok? ==> r.value.status == if email == Accepted then SentToSupplier else RequiresAttention)
  {
    hide GoodBut, AllowedTransitions, HandleFailure;
    if SupplierFound(s, suppliers) && Sendable(s.status) && s.address == Verified {
      SendableEdges(s.status);
      AcceptedSendKeepsGood(s, releasedBy, lost);
      FailedSendKeepsGood(s, lost);
    }
  }
}
