/** What each request does to an order, said without the code that does it, and how each status is entered. */
module LifecycleEffects {
  import opened Common
  import opened OrderStatuses
  import opened Lifecycle

  // ------------------------------------------------------------------
  // The transition table, read from the target's side
  // ------------------------------------------------------------------

  function Sources(to: OrderStatus): set<OrderStatus> {
    match to
    case PendingVerification => {RequiresAttention, OnHold}
    case RequiresReview => {PendingVerification, OnHold}
    case RequiresAttention =>
      {PendingVerification, RequiresReview, RequiresAttention, SentToSupplier, OutForDelivery, UnableToFulfil}
    case OnHold => {PendingVerification, RequiresReview, RequiresAttention, SentToSupplier}
    case SentToSupplier => {PendingVerification, RequiresReview, RequiresAttention, OnHold, ChangeRequested}
    case ChangeRequested => {SentToSupplier}
    case Confirmed => {SentToSupplier}
    case Preparing => {Confirmed}
    case OutForDelivery => {Preparing}
    case Delivered => {OutForDelivery}
    case Completed => {Delivered}
    case UnableToFulfil => {SentToSupplier, Confirmed, Preparing}
    case Cancelled =>
      {PendingVerification, RequiresReview, RequiresAttention, OnHold, SentToSupplier, ChangeRequested, Confirmed,
       Preparing, OutForDelivery}
  }

  lemma EdgesFromTheTarget(from: OrderStatus, to: OrderStatus)
    ensures to in AllowedTransitions(from) <==> from in Sources(to)
  {
  }

  // ------------------------------------------------------------------
  // Holds, releases, cancellations and completions
  // ------------------------------------------------------------------

  /** One status event more, from the old status to the new one. */
  predicate MovedOnce(s: OrderState, s': OrderState, to: OrderStatus) {
    s'.status == to && s'.events == s.events + [StatusChanged(s.status, to)]
  }

  /** A hold puts the order on hold with the reason, from where the table allows it, and else changes nothing. */
  lemma HoldEffect(s: OrderState, reason: string)
    ensures var s' := After(s, Hold(reason));
            if s.status in {PendingVerification, RequiresReview, RequiresAttention, SentToSupplier} then
              && MovedOnce(s, s', OnHold) && s'.facts.holdReason == Some(reason)
              && s' == s.(status := OnHold, facts := s.facts.(holdReason := Some(reason)), events := s'.events)
            else s' == s
  {
    EdgesFromTheTarget(s.status, OnHold);
    hide AllowedTransitions;
  }

  /** A release sends a held order, or one in need of attention, back to verification without its hold reason. */
  lemma ReleaseEffect(s: OrderState)
    ensures var s' := After(s, Request.Release);
            if s.status in {OnHold, RequiresAttention} then
              && MovedOnce(s, s', PendingVerification) && s'.facts.holdReason == None
              && s' == s.(status := PendingVerification, facts := s.facts.(holdReason := None), events := s'.events)
            else s' == s
  {
    EdgesFromTheTarget(s.status, PendingVerification);
    hide AllowedTransitions;
  }

  /** Everything can be cancelled but what is delivered, over, or with a supplier who cannot fulfil it. */
  lemma CancelEffect(s: OrderState)
    ensures var s' := After(s, Cancel);
            if s.status !in {Delivered, Completed, Cancelled, UnableToFulfil} then
              MovedOnce(s, s', Cancelled) && s' == s.(status := Cancelled, events := s'.events)
            else s' == s
  {
    EdgesFromTheTarget(s.status, Cancelled);
    hide AllowedTransitions;
  }

  /** Auto-completion completes exactly delivered orders. */
  lemma AutoCompleteEffect(s: OrderState)
    ensures var s' := After(s, AutoComplete);
            if s.status == Delivered then
              && MovedOnce(s, s', Completed) && s'.facts.completed
              && s' == s.(status := Completed, facts := s.facts.(completed := true), events := s'.events)
            else s' == s
  {
  }

  // ------------------------------------------------------------------
  // The supplier
  // ------------------------------------------------------------------

  /** What a supplier user may do, move by move. */
  predicate SupplierMay(from: OrderStatus, to: OrderStatus) {
    || (from == SentToSupplier && to in {Confirmed, ChangeRequested, UnableToFulfil})
    || (from == Confirmed && to == Preparing)
    || (from == Preparing && to == OutForDelivery)
    || (from == OutForDelivery && to == Delivered)
  }

  /** A supplier's move takes the order one stage on; a delivery completes it at once; any other target is refused. */
  lemma SupplierStatusEffect(s: OrderState, target: OrderStatus)
    ensures var s' := After(s, SupplierStatus(target));
            if !SupplierMay(s.status, target) then s' == s
            else if target == Delivered then
              && s'.status == Completed && s'.facts == s.facts.(completed := true)
              && s'.events == s.events + [StatusChanged(OutForDelivery, Delivered), StatusChanged(Delivered, Completed)]
            else MovedOnce(s, s', target) && s' == s.(status := target, events := s'.events)
  {
  }

  /** A report is recorded while the supplier has the order in hand; one that cannot be fulfilled also moves it. */
  lemma SupplierIssueEffect(s: OrderState, issue: Issue)
    ensures var s' := After(s, SupplierIssue(issue));
            var inHand := s.status in {SentToSupplier, ChangeRequested, Confirmed, Preparing, OutForDelivery};
            var moves := issue.kind == "CANNOT_FULFIL" && s.status in {SentToSupplier, Confirmed, Preparing};
            if !inHand then s' == s
            else
              && s'.facts == s.facts.(issues := s.facts.issues + [issue])
              && s'.status == (if moves then UnableToFulfil else s.status)
              && s'.events == s.events + [Note] + if moves then [StatusChanged(s.status, UnableToFulfil)] else []
  {
    EdgesFromTheTarget(s.status, UnableToFulfil);
    hide AllowedTransitions;
  }

  // ------------------------------------------------------------------
  // Facts and address
  // ------------------------------------------------------------------

  /** Marking the address sets that status and nothing else, and logs the change. */
  lemma SetAddressEffect(s: OrderState, a: AddressStatus)
    ensures After(s, SetAddress(a)) == s.(address := a, events := s.events + [AddressChanged(s.address, a)])
  {
  }

  /** Every submitted field of the address reads back as submitted, every other as before. */
  lemma CorrectAddressEffect(s: OrderState, fields: DeliveryAddress)
    ensures var s' := After(s, CorrectAddress(fields));
            && (forall f :: Column(s'.facts.delivery, f) ==
                  if f in fields then fields[f] else Column(s.facts.delivery, f))
            && (s'.facts.manuallyCorrected <==>
                  s.facts.manuallyCorrected || exists f :: f in fields && fields[f] != Column(s.facts.delivery, f))
            && s' == s.(facts :=
                        s.facts.(delivery := s'.facts.delivery, manuallyCorrected := s'.facts.manuallyCorrected))
  {
    var changes := Changes(s.facts.delivery, fields);
    if f :| f in fields && fields[f] != Column(s.facts.delivery, f) {
      assert f in changes;
    } else {
      assert changes == map[];
    }
  }

  /**
   * An edit takes effect in full or, for a change to a supplier that is not
   * active, not at all. It never moves the order; a change of supplier is noted,
   * and a change of supplier or day once more when the supplier can see the order.
   */
  lemma EditEffect(s: OrderState, r: Request)
    requires r.Edit?
    ensures var s' := After(s, r);
            var reassigned, moved := r.supplier != s.facts.supplierId, r.day != s.facts.deliveryDay;
            var seen := s.status !in {PendingVerification, RequiresReview, RequiresAttention, OnHold};
            if reassigned && r.supplier.Some? && r.supplier.value !in r.activeSuppliers then s' == s
            else
              && s'.facts.quantity == r.quantity && s'.facts.holdReason == r.holdNote
              && s'.facts.officeLocation == r.office && s'.facts.supplierId == r.supplier
              && s'.facts.deliveryDay == r.day && s'.facts.catalogueItemId == r.catalogueItem
              && s'.facts == s.facts.(quantity := r.quantity, holdReason := r.holdNote, officeLocation := r.office,
                                      supplierId := r.supplier, deliveryDay := r.day,
                                      catalogueItemId := r.catalogueItem)
              && s' == s.(facts := s'.facts, events := s'.events)
              && s'.events == s.events + (if reassigned then [Note] else [])
                                       + (if (reassigned || moved) && seen then [Note] else [])
  {
    hide AllowedTransitions, SupplierVisible;
    SeenBySupplier(s.status);
  }

  lemma SeenBySupplier(status: OrderStatus)
    ensures SupplierVisible(status) <==> status !in {PendingVerification, RequiresReview, RequiresAttention, OnHold}
  {
  }

  // ------------------------------------------------------------------
  // Sends and the verify decision
  // ------------------------------------------------------------------

  /** All three gates of a send are open. */
  predicate CanSend(s: OrderState, suppliers: set<int>) {
    && s.facts.supplierId.Some? && s.facts.supplierId.value in suppliers
    && s.status in {PendingVerification, RequiresReview, RequiresAttention}
    && s.address == Verified
  }

  /** The order at the supplier: released by `sender`, the communication and both events recorded. */
  predicate WentOut(s: OrderState, s': OrderState, sender: Option<int>) {
    && s'.status == SentToSupplier && s'.released && s'.releasedBy == sender
    && s'.comms == s.comms + [Communication(s.facts.supplierId, Sent, Attempts(s))]
    && s'.events == s.events + [if sender == None then AutoReleased(s.status, SentToSupplier)
                                else StatusChanged(s.status, SentToSupplier), EmailSent(SentToSupplier)]
    && s'.retryCount == s.retryCount && s'.address == s.address && s'.facts == s.facts
  }

  /** The order in the exception queue: one retry more, the failed communication and its event recorded. */
  predicate FailedToGoOut(s: OrderState, s': OrderState) {
    && s'.status == RequiresAttention && s'.retryCount == s.retryCount + 1
    && s'.comms == s.comms + [Communication(s.facts.supplierId, Failed, Attempts(s))]
    && s'.events == s.events
         + (if s.status == RequiresAttention then [] else [StatusChanged(s.status, RequiresAttention)])
         + [EmailFailed(s.status, RequiresAttention)]
    && s'.released == s.released && s'.releasedBy == s.releasedBy && s'.address == s.address && s'.facts == s.facts
  }

  /** A retry from the exception queue is numbered, a first send is not. */
  function Attempts(s: OrderState): nat { if s.status == RequiresAttention then s.retryCount + 1 else 0 }

  lemma SendEffect(s: OrderState, sender: Option<int>, suppliers: set<int>, email: Email)
    ensures var s' := After(s, SendOrResend(sender, suppliers, email));
            if !CanSend(s, suppliers) then s' == s
            else if email == Accepted then WentOut(s, s', sender)
            else FailedToGoOut(s, s')
  {
    if Sendable(s.status) { SendableEdges(s.status); }
    hide AllowedTransitions;
  }

  /** Confirming a flagged order sends it in the confirmer's name; a gate that is shut leaves it unconfirmed. */
  lemma ConfirmEffect(s: OrderState, actor: int, suppliers: set<int>, email: Email)
    ensures var s' := After(s, ConfirmRelease(actor, suppliers, email));
            var confirmed := s.(facts := s.facts.(reviewConfirmedBy := Some(actor)));
            if s.status != RequiresReview || !CanSend(s, suppliers) then s' == s
            else if email == Accepted then WentOut(confirmed, s', Some(actor))
            else FailedToGoOut(confirmed, s')
  {
    SendEffect(s.(facts := s.facts.(reviewConfirmedBy := Some(actor))), Some(actor), suppliers, email);
    hide AllowedTransitions, Send, WentOut, FailedToGoOut;
    SendGates(s.(facts := s.facts.(reviewConfirmedBy := Some(actor))), suppliers, Some(actor), email);
  }

  lemma SendGates(s: OrderState, suppliers: set<int>, sender: Option<int>, email: Email)
    ensures Send(s, suppliers, sender, email).Ok? <==> CanSend(s, suppliers)
  {
    if Sendable(s.status) { SendableEdges(s.status); }
    hide AllowedTransitions;
  }

  /** All the facts a delivery needs, the address aside. */
  predicate FactsComplete(s: OrderState) {
    && s.facts.supplierId.Some? && s.facts.deliveryDay.Some? && s.facts.officeLocation != ""
    && s.facts.quantity >= 1 && s.facts.employeeName != ""
  }

  /** The first thing about the order that a human should look at. */
  function FirstFlag(s: OrderState, corrected: bool, config: ReleaseConfig): Option<ExceptionReason> {
    if corrected || s.facts.manuallyCorrected then Some(AddressManuallyCorrected)
    else if s.facts.leadTime in {ShortNotice, Urgent} then Some(ShortNoticeLeadTime)
    else if s.facts.quantity != config.defaultQuantity then Some(QuantityChanged)
    else None
  }

  /**
   * Verifying an order that awaits it: incomplete facts send it to the exception
   * queue, a flag or the switch to review with the first flag as the reason, and
   * an order with neither goes out in the system's name, or to the exception
   * queue when its supplier is gone or the email fails.
   */
  lemma VerifyEffect(s: OrderState, corrected: bool, config: ReleaseConfig, suppliers: set<int>, email: Email)
    requires s.status == PendingVerification
    ensures var s' := After(s, Verify(corrected, config, suppliers, email));
            var marked := s.(address := Verified, events := s.events + [AddressChanged(s.address, Verified)]);
            var flag := FirstFlag(s, corrected, config);
            var reason := s'.facts.exceptionReason;
            var decided := marked.(facts := s.facts.(exceptionReason := reason));
            if !FactsComplete(s) then
              && MovedOnce(marked, s', RequiresAttention)
              && reason == (if s.facts.supplierId == None then Some(NoSupplier) else None)
              && s' == decided.(status := RequiresAttention, events := s'.events)
            else if flag.Some? || !config.autoReleaseEnabled then
              && MovedOnce(marked, s', RequiresReview) && reason == flag
              && s' == decided.(status := RequiresReview, events := s'.events)
            else if s.facts.supplierId.value !in suppliers then
              && MovedOnce(marked, s', RequiresAttention) && reason == Some(NoSupplier)
              && s' == decided.(status := RequiresAttention, events := s'.events)
            else
              && reason == None
              && if email == Accepted then WentOut(decided, s', None) else FailedToGoOut(decided, s')
  {
    var marked := WithAddress(s, Verified);
    var releasing := marked.(facts := s.facts.(exceptionReason := None));
    ReadyMeans(marked);
    FlagsMean(marked, corrected, config);
    EdgesFromTheTarget(PendingVerification, RequiresAttention);
    EdgesFromTheTarget(PendingVerification, RequiresReview);
    SendEffect(releasing, None, suppliers, email);
    SendGates(releasing, suppliers, None, email);
    NoSupplierFirst(releasing, suppliers, None, email);
    assert FirstFlag(marked, corrected, config) == FirstFlag(s, corrected, config);
    assert FactsComplete(s) ==> s.facts.supplierId.Some?;
    assert FactsComplete(marked) == FactsComplete(s);
    hide AllowedTransitions, Send, Ready, Flags, FirstFlag, FactsComplete;
  }

  lemma NoSupplierFirst(s: OrderState, suppliers: set<int>, sender: Option<int>, email: Email)
    ensures s.facts.supplierId.Some? && s.facts.supplierId.value !in suppliers ==>
              Send(s, suppliers, sender, email) == Raised(NoSupplierAssigned)
    ensures Send(s, suppliers, sender, email) == Raised(NoSupplierAssigned) ==>
              s.facts.supplierId == None || s.facts.supplierId.value !in suppliers
  {
    hide AllowedTransitions;
  }

  lemma ReadyMeans(s: OrderState)
    ensures Ready(s) <==> s.address == Verified && FactsComplete(s)
  {
  }

  lemma FlagsMean(s: OrderState, corrected: bool, config: ReleaseConfig)
    ensures var flags := Flags(s, corrected, config);
            FirstFlag(s, corrected, config) == if flags != [] then Some(flags[0]) else None
  {
  }

  /** The flags are exactly the things to look at, each once, in their order. */
  lemma FlagsAre(s: OrderState, corrected: bool, config: ReleaseConfig)
    ensures var flags := Flags(s, corrected, config);
            && (AddressManuallyCorrected in flags <==> corrected || s.facts.manuallyCorrected)
            && (ShortNoticeLeadTime in flags <==> s.facts.leadTime in {ShortNotice, Urgent})
            && (QuantityChanged in flags <==> s.facts.quantity != config.defaultQuantity)
            && (forall f :: f in flags ==> f in {AddressManuallyCorrected, ShortNoticeLeadTime, QuantityChanged})
            && (forall i, j :: 0 <= i < j < |flags| ==> flags[i] != flags[j])
  {
  }

  // ------------------------------------------------------------------
  // How each status is entered
  // ------------------------------------------------------------------

  predicate CanEnter(r: Request, to: OrderStatus) {
    match to
    case PendingVerification => r.Release?
    case RequiresReview => r.Verify?
    case RequiresAttention => r.Verify? || r.ConfirmRelease? || r.SendOrResend?
    case OnHold => r.Hold?
    case SentToSupplier => r.Verify? || r.ConfirmRelease? || r.SendOrResend?
    case Completed => r == SupplierStatus(Delivered) || r.AutoComplete?
    case UnableToFulfil => r == SupplierStatus(UnableToFulfil) || (r.SupplierIssue? && r.issue.kind == "CANNOT_FULFIL")
    case Cancelled => r.Cancel?
    case Delivered => false
    case _ => r == SupplierStatus(to)
  }

  /** A request that moves the order is one that can lead where it leads; no request leaves an order DELIVERED. */
  lemma EnteredBy(s: OrderState, r: Request)
    ensures After(s, r).status != s.status ==> CanEnter(r, After(s, r).status)
  {
    match r
    case SetAddress(a) => SetAddressEffect(s, a);
    case CorrectAddress(fields) =>
    case Edit(_, _, _, _, _, _, _) => EditEffect(s, r);
    case Verify(corrected, config, suppliers, email) => DecideEnters(WithAddress(s, Verified), corrected, config,
                                                                     suppliers, email);
    case ConfirmRelease(actor, suppliers, email) => ConfirmEffect(s, actor, suppliers, email);
    case SendOrResend(sender, suppliers, email) => SendEffect(s, sender, suppliers, email);
    case Hold(reason) => HoldEffect(s, reason);
    case Release => ReleaseEffect(s);
    case Cancel => CancelEffect(s);
    case SupplierStatus(target) => SupplierStatusEffect(s, target);
    case SupplierIssue(issue) => SupplierIssueEffect(s, issue);
    case AutoComplete => AutoCompleteEffect(s);
  }

  lemma DecideEnters(s: OrderState, corrected: bool, config: ReleaseConfig, suppliers: set<int>, email: Email)
    ensures Decide(s, corrected, config, suppliers, email).Ok? ==>
              Decide(s, corrected, config, suppliers, email).value.status in {RequiresAttention, RequiresReview,
                                                                              SentToSupplier}
  {
    SendEffect(s.(facts := s.facts.(exceptionReason := None)), None, suppliers, email);
    SendGates(s.(facts := s.facts.(exceptionReason := None)), suppliers, None, email);
    hide AllowedTransitions, Ready, Flags, Send;
  }

  /** Over every run: an order is where it started, or some request on the way was one that leads to its status. */
  lemma {:induction false} EveryStatusWasEntered(s: OrderState, requests: seq<Request>)
    ensures var s' := Run(s, requests);
            s'.status == s.status || exists k :: 0 <= k < |requests| && CanEnter(requests[k], s'.status)
  {
    hide CanEnter, After;
    if requests == [] {
    } else {
      var front, last := requests[..|requests| - 1], requests[|requests| - 1];
      EveryStatusWasEntered(s, front);
      EnteredBy(Run(s, front), last);
      assert requests[|requests| - 1] == last && forall k :: 0 <= k < |front| ==> requests[k] == front[k];
    }
  }
}
