/**
 * The order row as a session object: the services assign its fields, append to
 * its logs and commit; what a request leaves is proved to be what `Lifecycle`
 * specifies.
 */
module LifecycleService {
  import opened Common
  import opened OrderStatuses
  import opened Lifecycle
  import LifecycleRuns
  import opened LifecycleCommits

  datatype MissingFact =
    | AddressUnverified | SupplierUnassigned | DeliveryDateMissing
    | OfficeLocationMissing | QuantityInvalid | EmployeeNameMissing

  predicate IsMissing(s: OrderState, fact: MissingFact) {
    match fact
    case AddressUnverified => s.address != Verified
    case SupplierUnassigned => s.facts.supplierId == None
    case DeliveryDateMissing => s.facts.deliveryDay == None
    case OfficeLocationMissing => s.facts.officeLocation == ""
    case QuantityInvalid => s.facts.quantity < 1
    case EmployeeNameMissing => s.facts.employeeName == ""
  }

  lemma ReadyIffNothingMissing(s: OrderState)
    ensures Ready(s) <==> forall fact :: !IsMissing(s, fact)
  {
    assert IsMissing(s, AddressUnverified) <==> s.address != Verified;
    assert IsMissing(s, SupplierUnassigned) <==> s.facts.supplierId == None;
    assert IsMissing(s, DeliveryDateMissing) <==> s.facts.deliveryDay == None;
    assert IsMissing(s, OfficeLocationMissing) <==> s.facts.officeLocation == "";
    assert IsMissing(s, QuantityInvalid) <==> s.facts.quantity < 1;
    assert IsMissing(s, EmployeeNameMissing) <==> s.facts.employeeName == "";
  }

  lemma FailureAlwaysRecorded(s: OrderState)
    requires Sendable(s.status)
    ensures HandleFailure(s).Ok?
  {
    SendableEdges(s.status);
  }

  /** A send that passes its three gates, in the two ways the email can go. */
  lemma GatedSend(s: OrderState, suppliers: set<int>, releasedBy: Option<int>, email: Email)
    requires SupplierFound(s, suppliers) && Sendable(s.status) && s.address == Verified
    ensures Send(s, suppliers, releasedBy, email) ==
              if email != Accepted then HandleFailure(WithComm(s, Failed))
              else Ok(Logged(Moved(WithComm(s, Sent).(released := true, releasedBy := releasedBy),
                                   SentToSupplier, releasedBy == None), EmailSent(SentToSupplier)))
    ensures SendCommits(s, suppliers, releasedBy, email) ==
              (if email != Accepted then FailureCommits(WithComm(s, Failed))
               else [Moved(WithComm(s, Sent).(released := true, releasedBy := releasedBy), SentToSupplier, releasedBy
                           == None)])
              + [Send(s, suppliers, releasedBy, email).value]
  {
    SendableEdges(s.status);
    hide AllowedTransitions;
  }

  /** A send that fails one of its gates commits nothing. */
  lemma RefusedSend(s: OrderState, suppliers: set<int>, releasedBy: Option<int>, email: Email)
    requires !SupplierFound(s, suppliers) || !Sendable(s.status) || s.address != Verified
    ensures Send(s, suppliers, releasedBy, email).Raised? && SendCommits(s, suppliers, releasedBy, email) == []
  {
  }

  lemma DecidedCommits(s: OrderState, corrected: bool, config: ReleaseConfig, suppliers: set<int>, email: Email)
    ensures var releasing := s.(facts := s.facts.(exceptionReason := None));
            DecideCommits(s, corrected, config, suppliers, email) ==
              if Ready(s) && Flags(s, corrected, config) == [] && config.autoReleaseEnabled
                 && Send(releasing, suppliers, None, email) != Raised(NoSupplierAssigned)
              then SendCommits(releasing, suppliers, None, email)
              else CommitOf(Decide(s, corrected, config, suppliers, email))
  {
  }

  lemma HandledEdit(s: OrderState, r: Request)
    requires r.Edit?
    ensures var refused := r.supplier != s.facts.supplierId && r.supplier.Some?
            && r.supplier.value !in r.activeSuppliers;
            && Handle(s, r).0 == (if refused then Raised(Refused) else Ok(Edited(s, r)))
            && After(s, r) == (if refused then s else Edited(s, r))
            && Commits(s, r) == (if refused then [] else [Edited(s, r)])
  {
    hide Edited;
  }

  lemma HandledIssue(s: OrderState, issue: Issue)
    ensures var (r, noted) := (SupplierIssue(issue), Reported(s, issue));
            var moved := Transition(noted, UnableToFulfil, false);
            var moves := issue.kind == CANNOT_FULFIL && moved.Ok?;
            if !SupplierActionable(s.status) then
              Handle(s, r).0 == Raised(Refused) && After(s, r) == s && Commits(s, r) == []
            else if moves then
              Handle(s, r).0 == moved && After(s, r) == moved.value && Commits(s, r) == [moved.value, moved.value]
            else
              Handle(s, r).0 == Ok(noted) && After(s, r) == noted && Commits(s, r) == [noted]
  {
    assert SupplierActionable(s.status) ==> s.status != UnableToFulfil;
    hide AllowedTransitions, SupplierActionable;
  }

  lemma ReportedIs(s: OrderState, issue: Issue)
    ensures Reported(s, issue) == Logged(s.(facts := s.facts.(issues := s.facts.issues + [issue])), Note)
  {
  }

  lemma HandledVerify(s: OrderState, corrected: bool, config: ReleaseConfig, suppliers: set<int>, email: Email)
    ensures var (r, v) := (Verify(corrected, config, suppliers, email), WithAddress(s, Verified));
            var decided := Decide(v, corrected, config, suppliers, email);
            && Handle(s, r).0 == decided
            && After(s, r) == (if decided.Ok? then decided.value else v)
            && Commits(s, r) == [v] + DecideCommits(v, corrected, config, suppliers, email)
  {
    hide Decide, DecideCommits;
  }

  const ADDRESS_FIELDS := [Line1, Line2, City, StateProvince, PostalCode, Country]

  lemma EveryFieldIsListed()
    ensures forall f :: f in ADDRESS_FIELDS
    ensures ADDRESS_FIELDS[..|ADDRESS_FIELDS|] == ADDRESS_FIELDS
  {
    forall f
      ensures f in ADDRESS_FIELDS
    {
      match f
      case Line1 => assert ADDRESS_FIELDS[0] == f;
      case Line2 => assert ADDRESS_FIELDS[1] == f;
      case City => assert ADDRESS_FIELDS[2] == f;
      case StateProvince => assert ADDRESS_FIELDS[3] == f;
      case PostalCode => assert ADDRESS_FIELDS[4] == f;
      case Country => assert ADDRESS_FIELDS[5] == f;
    }
  }

  function Written(address: DeliveryAddress, names: seq<AddressField>, fields: DeliveryAddress): DeliveryAddress
    requires forall f :: f in names ==> f in fields
  {
    if names == [] then address
    else
      var last := names[|names| - 1];
      Written(address, names[..|names| - 1], fields)[last := fields[last]]
  }

  lemma {:induction false} WrittenAt(address: DeliveryAddress, names: seq<AddressField>,
                                       fields: DeliveryAddress, f: AddressField)
    requires forall f :: f in names ==> f in fields
    ensures f in Written(address, names, fields) <==> f in address || f in names
    ensures f in names ==> Written(address, names, fields)[f] == fields[f]
    ensures f in address && f !in names ==> Written(address, names, fields)[f] == address[f]
  {
    if names == [] {
    } else {
      var front, last := names[..|names| - 1], names[|names| - 1];
      assert names == front + [last];
      WrittenAt(address, front, fields, f);
    }
  }

  /** Writing the changed fields one by one is taking over the changes. */
  lemma WrittenChanges(address: DeliveryAddress, changed: seq<AddressField>, fields: DeliveryAddress)
    requires forall f :: f in changed <==> f in Changes(address, fields)
    ensures Written(address, changed, fields) == address + Changes(address, fields)
  {
    forall f
      ensures f in Written(address, changed, fields) <==> f in address || f in changed
      ensures f in changed ==> Written(address, changed, fields)[f] == fields[f]
      ensures f in address && f !in changed ==> Written(address, changed, fields)[f] == address[f]
    {
      WrittenAt(address, changed, fields, f);
    }
  }

  /** What is committed before the EMAIL_FAILED event is added. */
  function FailureCommits(s: OrderState): seq<OrderState> {
    if s.status == RequiresAttention then []
    else CommitOf(Transition(s.(retryCount := s.retryCount + 1), RequiresAttention, false))
  }

  class BirthdayOrder {
    var status: OrderStatus
    var addressStatus: AddressStatus
    var supplierId: Option<int>
    var deliveryDay: Option<int>
    var officeLocation: string
    var quantity: int
    const employeeName: string
    const leadTime: LeadTimeClass
    var manuallyCorrected: bool
    var holdReason: Option<string>
    var exceptionReason: Option<ExceptionReason>
    var retryCount: nat
    var released: bool
    var releasedBy: Option<int>
    var reviewConfirmedBy: Option<int>
    var completed: bool
    var catalogueItemId: Option<int>
    var delivery: DeliveryAddress
    var issues: seq<Issue>
    var events: seq<Event>
    var communications: seq<Communication>

    /** The row as last committed. */
    var saved: OrderState

    /** Every state committed so far. */
    ghost var history: seq<OrderState>

    function Row(): (r: OrderState)
      reads this
      ensures r.status == status && r.address == addressStatus && r.retryCount == retryCount && r.comms
              == communications
      ensures r.facts.supplierId == supplierId && r.facts.deliveryDay == deliveryDay && r.facts.delivery == delivery
    {
      OrderState(status, addressStatus,
                 Facts(supplierId, deliveryDay, officeLocation, quantity, employeeName, leadTime,
                       manuallyCorrected, holdReason, exceptionReason, reviewConfirmedBy, completed,
                       catalogueItemId, delivery, issues),
                 retryCount, released, releasedBy, events, communications)
    }

    constructor (status: OrderStatus, supplierId: Option<int>, deliveryDay: Option<int>, officeLocation: string,
                 quantity: int, employeeName: string, leadTime: LeadTimeClass,
                 holdReason: Option<string>, exceptionReason: Option<ExceptionReason>,
                 catalogueItemId: Option<int>, delivery: DeliveryAddress)
      requires InitialStatus(status)
      ensures FreshlyDetected(Row()) && saved == Row() && Row().status == status
      ensures Good(saved)
    {
      this.status, this.addressStatus, this.supplierId, this.deliveryDay := status, NotChecked, supplierId, deliveryDay;
      this.officeLocation, this.quantity, this.employeeName := officeLocation, quantity, employeeName;
      this.leadTime, this.holdReason, this.exceptionReason := leadTime, holdReason, exceptionReason;
      this.manuallyCorrected, this.retryCount, this.released, this.completed := false, 0, false, false;
      this.releasedBy, this.reviewConfirmedBy := None, None;
      this.catalogueItemId, this.delivery, this.issues := catalogueItemId, delivery, [];
      this.events, this.communications, this.history := [Detected(status)], [], [];
      new;
      ghost var created := Row();
      assert created.events == [Detected(created.status)] && created.comms == [];
      assert created.address == NotChecked && created.retryCount == 0 && !created.released;
      hide Row, Good;
      if status == RequiresAttention || status == OnHold {
        Log(ExceptionRaised(status));
      }
      Commit();
      LifecycleRuns.NewOrderIsGood(Row());
    }

    method Commit()
      modifies `saved, `history
      ensures saved == Row() == old(Row()) && history == old(history) + [saved]
    {
      saved, history := Row(), history + [Row()];
    }

    method Log(event: Event)
      modifies `events
      ensures Row() == Logged(old(Row()), event)
    {
      events := events + [event];
    }

    method RecordReason(reason: Option<ExceptionReason>)
      modifies `exceptionReason
      ensures Row() == old(Row()).(facts := old(Row()).facts.(exceptionReason := reason))
    {
      exceptionReason := reason;
    }

    method CountRetry()
      modifies `retryCount
      ensures Row() == old(Row()).(retryCount := old(retryCount) + 1)
    {
      retryCount := retryCount + 1;
    }

    method MarkReleased(actor: Option<int>)
      modifies `released, `releasedBy
      ensures Row() == old(Row()).(released := true, releasedBy := actor)
    {
      released, releasedBy := true, actor;
    }

    method MarkCorrected()
      modifies `manuallyCorrected
      ensures Row() == old(Row()).(facts := old(Row()).facts.(manuallyCorrected := true))
    {
      manuallyCorrected := true;
    }

    method AddIssue(issue: Issue)
      modifies `issues
      ensures Row() == old(Row()).(facts := old(Row()).facts.(issues := old(Row()).facts.issues + [issue]))
    {
      issues := issues + [issue];
    }

    method ConfirmReview(actor: int)
      modifies `reviewConfirmedBy
      ensures Row() == old(Row()).(facts := old(Row()).facts.(reviewConfirmedBy := Some(actor)))
    {
      reviewConfirmedBy := Some(actor);
    }

    method SetField(name: AddressField, value: Option<string>)
      modifies `delivery
      ensures Row() == old(Row()).(facts := old(Row()).facts.(delivery := old(delivery)[name := value]))
    {
      delivery := delivery[name := value];
    }

    // ---------------- order_status_service ----------------

    method MoveTo(to: OrderStatus, auto: bool) returns (r: Result<(), Error>)
      modifies `status, `events, `saved, `history
      ensures Lifecycle.Transition(old(Row()), to, auto) == (if r.Ok? then Ok(Row()) else Raised(InvalidTransition))
      ensures r.Ok? ==> saved == Row()
      ensures r.Raised? ==> r.error == InvalidTransition && Row() == old(Row()) && saved == old(saved)
      ensures history == old(history) + CommitOf(Lifecycle.Transition(old(Row()), to, auto))
    {
      var from := status;
      if to !in AllowedTransitions(from) {
        return Raised(InvalidTransition);
      }
      status := to;
      events := events + [if auto then AutoReleased(from, to) else StatusChanged(from, to)];
      Commit();
      return Ok(());
    }

    method PutOnHold(reason: string) returns (r: Result<(), Error>)
      requires saved == Row()
      modifies this
      ensures Answers(r, old(Row()), Hold(reason), old(history))
      ensures Good(old(saved)) ==> Good(saved)
    {
      hide Good;
      LifecycleRuns.RequestKeepsGood(Row(), Hold(reason));
      holdReason := Some(reason);
      r := MoveTo(OnHold, false);
    }

    method ReleaseHold() returns (r: Result<(), Error>)
      requires saved == Row()
      modifies this
      ensures Answers(r, old(Row()), Request.Release, old(history))
      ensures Good(old(saved)) ==> Good(saved)
    {
      hide Good;
      LifecycleRuns.RequestKeepsGood(Row(), Request.Release);
      holdReason := None;
      r := MoveTo(PendingVerification, false);
    }

    method CancelOrder() returns (r: Result<(), Error>)
      requires saved == Row()
      modifies this
      ensures Answers(r, old(Row()), Cancel, old(history))
      ensures Good(old(saved)) ==> Good(saved)
    {
      hide Good;
      LifecycleRuns.RequestKeepsGood(Row(), Cancel);
      r := MoveTo(Cancelled, false);
    }

    method CompleteDelivered() returns (r: Result<(), Error>)
      requires saved == Row()
      modifies this
      ensures Answers(r, old(Row()), AutoComplete, old(history))
      ensures Good(old(saved)) ==> Good(saved)
    {
      hide Good;
      LifecycleRuns.RequestKeepsGood(Row(), AutoComplete);
      if status != Delivered {
        return Ok(());
      }
      completed := true;
      r := MoveTo(Completed, false);
    }

    /**
     * How a request method answers: as the specification does, committing the
     * states the specification commits, one after the other.
     */
    ghost predicate Answers(r: Result<(), Error>, before: OrderState, request: Request, past: seq<OrderState>)
      reads this
    {
      var attempt := Handle(before, request).0;
      && (r.Ok? ==> attempt.Ok? && Row() == saved)
      && (r.Raised? ==> attempt == Raised(r.error))
      && saved == After(before, request)
      && history == past + Commits(before, request)
    }

    // ---------------- supplier portal ----------------

    method UpdateSupplierStatus(target: OrderStatus) returns (r: Result<(), Error>)
      requires saved == Row()
      modifies this
      ensures Answers(r, old(Row()), SupplierStatus(target), old(history))
      ensures Good(old(saved)) ==> Good(saved)
    {
      hide Good;
      LifecycleRuns.RequestKeepsGood(Row(), SupplierStatus(target));
      hide AllowedTransitions, SupplierDrivable, Row;
      if target !in SupplierDrivable(status) {
        return Raised(Refused);
      }
      r := MoveTo(target, false);
      if r.Ok? && target == Delivered {
        r := CompleteDelivered();
      }
    }

    method RaiseSupplierIssue(issue: Issue) returns (r: Result<(), Error>)
      requires saved == Row()
      modifies this
      ensures Answers(r, old(Row()), SupplierIssue(issue), old(history))
      ensures Good(old(saved)) ==> Good(saved)
    {
      hide Good;
      LifecycleRuns.RequestKeepsGood(Row(), SupplierIssue(issue));
      HandledIssue(Row(), issue);
      hide Row, AllowedTransitions, SupplierActionable, Handle, After, Commits, Reported;
      if !SupplierActionable(status) {
        return Raised(Refused);
      }
      AddIssue(issue);
      Log(Note);
      ReportedIs(old(Row()), issue);
      if issue.kind == CANNOT_FULFIL {
        var moved := MoveTo(UnableToFulfil, false);
      }
      Commit();
      return Ok(());
    }

    // ---------------- order_email_service ----------------

    method RecordCommunication(result: CommStatus, attempt: nat)
      modifies this`communications
      ensures communications == old(communications) + [Communication(supplierId, result, attempt)]
      ensures Row() == old(Row()).(comms := communications)
    {
      communications := communications + [Communication(supplierId, result, attempt)];
    }

    method RecordFailure() returns (r: Result<(), Error>)
      modifies `retryCount, `status, `events, `saved, `history
      ensures HandleFailure(old(Row())) == (if r.Ok? then Ok(Row()) else Raised(InvalidTransition))
      ensures r.Ok? ==> saved == Row()
      ensures r.Raised? ==> r.error == InvalidTransition && saved == old(saved)
      ensures r.Ok? ==> history == old(history) + FailureCommits(old(Row())) + [saved]
    {
      hide AllowedTransitions, Lifecycle.Transition, Row;
      CountRetry();
      var from := status;
      if from != RequiresAttention {
        r := MoveTo(RequiresAttention, false);
        if r.Raised? { return; }
      }
      Log(EmailFailed(from, RequiresAttention));
      Commit();
      return Ok(());
    }

    method SendEmail(suppliers: set<int>, releasing: Option<int>, email: Email) returns (r: Result<(), Error>)
      modifies `communications, `retryCount, `released, `releasedBy, `status, `events, `saved, `history
      ensures var attempt := Send(old(Row()), suppliers, releasing, email);
              && (r.Ok? <==> attempt.Ok?)
              && (r.Ok? ==> saved == Row() == attempt.value)
              && (r.Raised? ==> attempt == Raised(r.error) && saved == old(saved) && Row() == old(Row()))
      ensures history == old(history) + SendCommits(old(Row()), suppliers, releasing, email)
      ensures r.Raised? ==> history == old(history)
    {
      hide AllowedTransitions, HandleFailure, SendCommits, FailureCommits, Row, Sendable;
      ghost var before := Row();
      if !SupplierFound(before, suppliers) || !Sendable(before.status) || before.address != Verified {
        RefusedSend(before, suppliers, releasing, email);
      }
      if supplierId == None || supplierId.value !in suppliers {
        return Raised(NoSupplierAssigned);
      }
      if !Sendable(status) {
        return Raised(NotReleasable);
      }
      if addressStatus != Verified {
        return Raised(AddressNotVerified);
      }
      hide Send;
      SendableEdges(status);
      GatedSend(before, suppliers, releasing, email);
      var attempt := if status == RequiresAttention then retryCount + 1 else 0;
      if email != Accepted {
        RecordCommunication(Failed, attempt);
        assert Row() == WithComm(before, Failed);
        FailureAlwaysRecorded(Row());
        r := RecordFailure();
      } else {
        RecordCommunication(Sent, attempt);
        assert Row() == WithComm(before, Sent);
        r := RecordSuccess(releasing);
      }
    }

    method RecordSuccess(releasing: Option<int>) returns (r: Result<(), Error>)
      requires SentToSupplier in AllowedTransitions(status)
      modifies `released, `releasedBy, `status, `events, `saved, `history
      ensures r.Ok? && saved == Row()
      ensures Row() ==
              Logged(Moved(old(Row()).(released := true, releasedBy := releasing), SentToSupplier, releasing == None),
                              EmailSent(SentToSupplier))
      ensures history == old(history) +
                [Moved(old(Row()).(released := true, releasedBy := releasing), SentToSupplier, releasing == None),
                 saved]
    {
      hide AllowedTransitions, Row;
      MarkReleased(releasing);
      r := MoveTo(SentToSupplier, releasing == None);
      Log(EmailSent(status));
      Commit();
    }

    method SendToSupplier(sender: Option<int>, suppliers: set<int>, email: Email) returns (r: Result<(), Error>)
      requires saved == Row()
      modifies this
      ensures Answers(r, old(Row()), SendOrResend(sender, suppliers, email), old(history))
      ensures Good(old(saved)) ==> Good(saved)
    {
      hide Good;
      LifecycleRuns.RequestKeepsGood(Row(), SendOrResend(sender, suppliers, email));
      r := SendEmail(suppliers, sender, email);
    }

    method ConfirmAndRelease(actor: int, suppliers: set<int>, email: Email) returns (r: Result<(), Error>)
      requires saved == Row()
      modifies this
      ensures Answers(r, old(Row()), ConfirmRelease(actor, suppliers, email), old(history))
      ensures Good(old(saved)) ==> Good(saved)
    {
      hide Good;
      LifecycleRuns.RequestKeepsGood(Row(), ConfirmRelease(actor, suppliers, email));
      if status != RequiresReview {
        return Raised(Refused);
      }
      hide Row;
      ConfirmReview(actor);
      r := SendEmail(suppliers, Some(actor), email);
    }

    // ---------------- readiness_service and address_verification_service ----------------

    method Require(missing: seq<MissingFact>, present: bool, fact: MissingFact) returns (more: seq<MissingFact>)
      ensures forall f :: f in more <==> f in missing || (!present && f == fact)
    {
      more := missing;
      if !present { more := more + [fact]; }
    }

    method CheckReadiness() returns (missing: seq<MissingFact>)
      ensures forall fact :: fact in missing <==> IsMissing(Row(), fact)
      ensures missing == [] <==> Ready(Row())
    {
      missing := [];
      missing := Require(missing, addressStatus == Verified, AddressUnverified);
      missing := Require(missing, supplierId.Some?, SupplierUnassigned);
      missing := Require(missing, deliveryDay.Some?, DeliveryDateMissing);
      missing := Require(missing, officeLocation != "", OfficeLocationMissing);
      missing := Require(missing, quantity >= 1, QuantityInvalid);
      missing := Require(missing, employeeName != "", EmployeeNameMissing);
      assert forall fact :: fact in missing <==> IsMissing(Row(), fact);
      ReadyIffNothingMissing(Row());
      hide Ready, IsMissing, Row;
      if missing != [] { assert missing[0] in missing; }
    }

    method ClassifyFlags(corrected: bool, config: ReleaseConfig) returns (reasons: seq<ExceptionReason>)
      ensures reasons == Flags(Row(), corrected, config)
    {
      reasons := [];
      if corrected || manuallyCorrected { reasons := reasons + [AddressManuallyCorrected]; }
      if leadTime == ShortNotice || leadTime == Urgent { reasons := reasons + [ShortNoticeLeadTime]; }
      if quantity != config.defaultQuantity { reasons := reasons + [QuantityChanged]; }
    }

    method SetAddressVerification(to: AddressStatus) returns (r: Result<(), Error>)
      modifies `addressStatus, `events, `saved, `history
      ensures r.Ok? && saved == Row() == WithAddress(old(Row()), to)
      ensures Good(old(Row())) ==> Good(saved)
      ensures history == old(history) + [saved]
    {
      hide Good;
      LifecycleRuns.RequestKeepsGood(Row(), SetAddress(to));
      var previous := addressStatus;
      addressStatus := to;
      events := events + [AddressChanged(previous, to)];
      Commit();
      return Ok(());
    }

    method ChangedFields(fields: DeliveryAddress) returns (changed: seq<AddressField>)
      ensures forall f :: f in changed <==> f in Changes(delivery, fields)
    {
      changed := [];
      for k := 0 to |ADDRESS_FIELDS|
        invariant forall f :: f in changed <==> f in ADDRESS_FIELDS[..k] && f in Changes(delivery, fields)
      {
        var name := ADDRESS_FIELDS[k];
        if name in fields && Column(delivery, name) != fields[name] { changed := changed + [name]; }
      }
      EveryFieldIsListed();
    }

    method SetFields(changed: seq<AddressField>, fields: DeliveryAddress)
      requires forall f :: f in changed ==> f in fields
      modifies `delivery
      ensures Row() ==
                old(Row()).(facts := old(Row()).facts.(delivery := Written(old(delivery), changed, fields)))
    {
      hide Row;
      for k := 0 to |changed|
        invariant Row() ==
                    old(Row()).(facts := old(Row()).facts.(delivery := Written(old(delivery), changed[..k], fields)))
      {
        assert changed[..k + 1][..k] == changed[..k];
        SetField(changed[k], fields[changed[k]]);
      }
      assert changed[..|changed|] == changed;
    }

    method UpdateDeliveryAddress(fields: DeliveryAddress) returns (r: Result<(), Error>)
      requires saved == Row()
      modifies this
      ensures Answers(r, old(Row()), CorrectAddress(fields), old(history))
      ensures Good(old(saved)) ==> Good(saved)
    {
      hide Good;
      LifecycleRuns.RequestKeepsGood(Row(), CorrectAddress(fields));
      hide Row;
      var changed := ChangedFields(fields);
      SetFields(changed, fields);
      WrittenChanges(old(delivery), changed, fields);
      assert changed != [] <==> Changes(old(delivery), fields) != map[] by {
        if changed != [] { assert changed[0] in Changes(old(delivery), fields); }
      }
      hide Changes;
      if changed != [] { MarkCorrected(); }
      assert Row() == Corrected(old(Row()), fields);
      Commit();
      return Ok(());
    }

    method AssignFields(edit: Request)
      requires edit.Edit?
      modifies `quantity, `holdReason, `officeLocation
      ensures Row() == old(Row()).(facts := old(Row()).facts.(
                         quantity := edit.quantity, holdReason := edit.holdNote, officeLocation := edit.office))
    {
      quantity, holdReason, officeLocation := edit.quantity, edit.holdNote, edit.office;
    }

    method AssignSupply(edit: Request)
      requires edit.Edit?
      modifies `supplierId, `deliveryDay, `catalogueItemId
      ensures Row() == old(Row()).(facts := old(Row()).facts.(
                         supplierId := edit.supplier, deliveryDay := edit.day, catalogueItemId := edit.catalogueItem))
    {
      supplierId, deliveryDay, catalogueItemId := edit.supplier, edit.day, edit.catalogueItem;
    }

    method UpdateOrder(edit: Request) returns (r: Result<(), Error>)
      requires edit.Edit? && saved == Row()
      modifies this
      ensures Answers(r, old(Row()), edit, old(history))
      ensures Good(old(saved)) ==> Good(saved)
    {
      hide Good;
      LifecycleRuns.RequestKeepsGood(Row(), edit);
      hide SupplierVisible, Handle, Row, After, Commits;
      HandledEdit(Row(), edit);
      var reassigned, moved := edit.supplier != supplierId, edit.day != deliveryDay;
      if reassigned && edit.supplier.Some? && edit.supplier.value !in edit.activeSuppliers {
        return Raised(Refused);
      }
      var wasVisible := SupplierVisible(status);
      AssignFields(edit);
      AssignSupply(edit);
      if reassigned { Log(Note); }
      if (reassigned || moved) && wasVisible { Log(Note); }
      assert Row() == Edited(old(Row()), edit);
      Commit();
      return Ok(());
    }

    /** What follows the mark: readiness, then the flags and the switch, then the email. */
    method DecideRelease(corrected: bool, config: ReleaseConfig, suppliers: set<int>, email: Email)
      returns (r: Result<(), Error>)
      requires saved == Row()
      modifies this
      ensures var decided := Decide(old(Row()), corrected, config, suppliers, email);
              && (r.Ok? ==> decided.Ok? && Row() == saved == decided.value)
              && (r.Raised? ==> decided == Raised(r.error) && saved == old(saved))
      ensures history == old(history) + DecideCommits(old(Row()), corrected, config, suppliers, email)
    {
      hide AllowedTransitions, Ready, Flags, Send, Transition, Row, DecideCommits, SendCommits;
      DecidedCommits(Row(), corrected, config, suppliers, email);
      var missing := CheckReadiness();
      assert SupplierUnassigned in missing <==> IsMissing(Row(), SupplierUnassigned);
      if missing != [] {
        RecordReason(if SupplierUnassigned in missing then Some(NoSupplier) else None);
        r := MoveTo(RequiresAttention, false);
        return;
      }
      var flags := ClassifyFlags(corrected, config);
      if flags != [] || !config.autoReleaseEnabled {
        RecordReason(if flags != [] then Some(flags[0]) else None);
        r := MoveTo(RequiresReview, false);
        return;
      }
      RecordReason(None);
      r := SendEmail(suppliers, None, email);
      if r.Raised? && r.error == NoSupplierAssigned {
        RecordReason(Some(NoSupplier));
        r := MoveTo(RequiresAttention, false);
      }
    }

    /** The one routine human checkpoint: mark VERIFIED, commit, then decide. */
    method VerifyAndRelease(corrected: bool, config: ReleaseConfig, suppliers: set<int>,
                            email: Email)
      returns (r: Result<(), Error>)
      requires saved == Row()
      modifies this
      ensures Answers(r, old(Row()), Verify(corrected, config, suppliers, email), old(history))
      ensures Good(old(saved)) ==> Good(saved)
    {
      hide Good;
      LifecycleRuns.RequestKeepsGood(Row(), Verify(corrected, config, suppliers, email));
      hide Handle, Row, After, Commits, Decide, DecideCommits;
      HandledVerify(Row(), corrected, config, suppliers, email);
      r := SetAddressVerification(Verified);
      r := DecideRelease(corrected, config, suppliers, email);
    }
  }
}
