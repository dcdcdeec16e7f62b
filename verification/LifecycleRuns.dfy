/** What holds of an order over every sequence of requests. */
module LifecycleRuns {
  import opened Common
  import opened OrderStatuses
  import opened Lifecycle

  // ------------------------------------------------------------------
  // Every request keeps the invariant
  // ------------------------------------------------------------------

  lemma TransitionKeepsGood(s: OrderState, to: OrderStatus, lost: Lost)
    requires GoodBut(s, lost) && to != SentToSupplier
    ensures Transition(s, to, false).Ok? ==> GoodBut(Transition(s, to, false).value, lost)
  {
    hide GoodBut, AllowedTransitions;
    if to in AllowedTransitions(s.status) { MoveKeepsGood(s, to, lost); }
  }

  function Finishing(s: OrderState): OrderState { s.(facts := s.facts.(completed := true)) }

  lemma CompletingKeepsGood(s: OrderState, lost: Lost)
    requires GoodBut(s, lost)
    ensures Completing(s).Ok? && GoodBut(Completing(s).value, lost)
  {
    hide GoodBut;
    GoodIgnoresFacts(s, s.(facts := s.facts.(completed := true)), lost);
    TransitionKeepsGood(s.(facts := s.facts.(completed := true)), Completed, lost);
  }

  /** The invariant only speaks of the status, the address check, the counters and the logs. */
  lemma GoodIgnoresFacts(s: OrderState, s': OrderState, lost: Lost)
    requires GoodBut(s, lost)
    requires s'.status == s.status && s'.address == s.address && s'.retryCount == s.retryCount
    requires s'.released == s.released && s'.events == s.events && s'.comms == s.comms
    ensures GoodBut(s', lost)
  {
  }

  lemma EditKeepsGood(s: OrderState, r: Request, lost: Lost)
    requires GoodBut(s, lost) && r.Edit?
    ensures GoodBut(Edited(s, r), lost)
  {
    hide GoodBut, SupplierVisible;
    var reassigned, moved := r.supplier != s.facts.supplierId, r.day != s.facts.deliveryDay;
    var s1 := if reassigned then Logged(s, Note) else s;
    var s2 := if (reassigned || moved) && SupplierVisible(s.status) then Logged(s1, Note) else s1;
    NoteKeepsGood(s, lost);
    NoteKeepsGood(s1, lost);
    assert Edited(s, r).events == s2.events;
    GoodIgnoresFacts(s2, Edited(s, r), lost);
  }

  lemma DecideKeepsGood(s: OrderState, corrected: bool, config: ReleaseConfig, suppliers: set<int>, email: Email,
                        lost: Lost)
    requires GoodBut(s, lost)
    ensures var r := Decide(s, corrected, config, suppliers, email);
            r.Ok? ==> GoodBut(r.value, lost)
  {
    hide GoodBut, Ready, Flags, Send, Transition;
    forall reason { GoodIgnoresFacts(s, s.(facts := s.facts.(exceptionReason := reason)), lost); }
    forall reason { TransitionKeepsGood(s.(facts := s.facts.(exceptionReason := reason)), RequiresAttention, lost); }
    forall reason { TransitionKeepsGood(s.(facts := s.facts.(exceptionReason := reason)), RequiresReview, lost); }
    SendKeepsGood(s.(facts := s.facts.(exceptionReason := None)), suppliers, None, email, lost);
  }

  lemma HandleKeepsGood(s: OrderState, r: Request, lost: Lost)
    requires GoodBut(s, lost)
    ensures GoodBut(After(s, r), lost)
  {
    hide GoodBut, Decide, Send, Transition, Edited, Completing, SupplierDrivable, AllowedTransitions,
         SupplierActionable;
    match r
    case SetAddress(a) => AddressKeepsGood(s, a, lost);
    case CorrectAddress(fields) => GoodIgnoresFacts(s, Corrected(s, fields), lost);
    case Edit(_, _, _, _, _, _, _) => EditKeepsGood(s, r, lost);
    case Verify(corrected, config, suppliers, email) =>
      AddressKeepsGood(s, Verified, lost);
      DecideKeepsGood(WithAddress(s, Verified), corrected, config, suppliers, email, lost);
    case ConfirmRelease(actor, suppliers, email) =>
      var confirmed := s.(facts := s.facts.(reviewConfirmedBy := Some(actor)));
      GoodIgnoresFacts(s, confirmed, lost);
      SendKeepsGood(confirmed, suppliers, Some(actor), email, lost);
    case SendOrResend(sender, suppliers, email) => SendKeepsGood(s, suppliers, sender, email, lost);
    case Hold(reason) =>
      GoodIgnoresFacts(s, s.(facts := s.facts.(holdReason := Some(reason))), lost);
      TransitionKeepsGood(s.(facts := s.facts.(holdReason := Some(reason))), OnHold, lost);
    case Release =>
      GoodIgnoresFacts(s, s.(facts := s.facts.(holdReason := None)), lost);
      TransitionKeepsGood(s.(facts := s.facts.(holdReason := None)), PendingVerification, lost);
    case Cancel => TransitionKeepsGood(s, Cancelled, lost);
    case SupplierStatus(target) =>
      DrivableNeverSends(s.status);
      if target in SupplierDrivable(s.status) {
        TransitionKeepsGood(s, target, lost);
        if Transition(s, target, false).Ok? { CompletingKeepsGood(Transition(s, target, false).value, lost); }
      }
    case SupplierIssue(issue) =>
      var reported := Reported(s, issue);
      GoodIgnoresFacts(s, s.(facts := reported.facts), lost);
      NoteKeepsGood(s.(facts := reported.facts), lost);
      TransitionKeepsGood(reported, UnableToFulfil, lost);
    case AutoComplete => CompletingKeepsGood(s, lost);
  }

  lemma RequestKeepsGood(s: OrderState, r: Request)
    ensures Good(s) ==> Good(After(s, r))
  {
    if Good(s) { HandleKeepsGood(s, r, NOTHING); }
  }

  lemma DrivableNeverSends(status: OrderStatus)
    ensures SentToSupplier !in SupplierDrivable(status)
    ensures SupplierDrivable(status) <= AllowedTransitions(status)
  {
  }

  lemma NewOrderIsGood(s: OrderState)
    requires FreshlyDetected(s)
    ensures Good(s)
  {
    if s.status != PendingVerification {
      Append([Detected(s.status)], ExceptionRaised(s.status));
    }
  }

  /**
   * Timeline replay and send accounting, over every run: from detection on,
   * whatever requests arrive and whichever raise, the timeline is a legal walk
   * ending in the current status, and the counters and both logs agree.
   */
  lemma {:induction false} EveryRunIsGood(s: OrderState, requests: seq<Request>)
    requires FreshlyDetected(s)
    ensures Good(Run(s, requests))
  {
    hide Good, After;
    if requests == [] {
      NewOrderIsGood(s);
    } else {
      EveryRunIsGood(s, requests[..|requests| - 1]);
      RequestKeepsGood(Run(s, requests[..|requests| - 1]), requests[|requests| - 1]);
    }
  }

  /** The timeline replays to the current status through legal edges only. */
  lemma TimelineReplays(s: OrderState, requests: seq<Request>)
    requires FreshlyDetected(s)
    ensures var s' := Run(s, requests);
            && LegalPath(Path(s'.events))
            && Path(s'.events)[|Path(s'.events)| - 1] == s'.status
  {
    hide Run, LegalPath, FreshlyDetected;
    EveryRunIsGood(s, requests);
    ReplayedPathIsLegal(Run(s, requests).events);
  }

  /**
   * Every attempt is accounted for: failures in the retry counter, the
   * communications and the EMAIL_FAILED events; successes in the
   * communications, the EMAIL_SENT events and the moves to SENT_TO_SUPPLIER;
   * and released_at is set exactly when there was a success.
   */
  lemma SendAccounting(s: OrderState, requests: seq<Request>)
    requires FreshlyDetected(s)
    ensures var s' := Run(s, requests);
            var t := TallyOf(s'.events);
            && s'.retryCount == CountComms(s'.comms, Failed) == t.emailsFailed
            && CountComms(s'.comms, Sent) == t.emailsSent == t.releases
            && (s'.released <==> CountComms(s'.comms, Sent) > 0)
            && CommsNumbered(s'.comms)
  {
    hide Run, FreshlyDetected;
    EveryRunIsGood(s, requests);
  }

  // ------------------------------------------------------------------
  // The logs only grow
  // ------------------------------------------------------------------

  predicate Extends(s: OrderState, s': OrderState) {
    s.events <= s'.events && s.comms <= s'.comms
  }

  lemma SendExtends(s: OrderState, suppliers: set<int>, releasedBy: Option<int>, email: Email)
    ensures Send(s, suppliers, releasedBy, email).Ok? ==> Extends(s, Send(s, suppliers, releasedBy, email).value)
  {
    hide AllowedTransitions, Sendable;
  }

  lemma DecideExtends(s: OrderState, corrected: bool, config: ReleaseConfig, suppliers: set<int>, email: Email)
    ensures var r := Decide(s, corrected, config, suppliers, email);
            r.Ok? ==> Extends(s, r.value)
  {
    hide AllowedTransitions, Send, Ready, Flags;
    SendExtends(s.(facts := s.facts.(exceptionReason := None)), suppliers, None, email);
  }

  lemma TransitionExtends(s: OrderState, to: OrderStatus)
    ensures Transition(s, to, false).Ok? ==> Extends(s, Transition(s, to, false).value)
  {
    hide AllowedTransitions;
  }

  lemma RequestExtendsLogs(s: OrderState, r: Request)
    ensures Extends(s, After(s, r))
  {
    hide AllowedTransitions, Send, Decide, Transition, SupplierVisible, SupplierActionable, SupplierDrivable;
    match r
    case Verify(corrected, config, suppliers, email) =>
      DecideExtends(WithAddress(s, Verified), corrected, config, suppliers, email);
    case ConfirmRelease(actor, suppliers, email) =>
      SendExtends(s.(facts := s.facts.(reviewConfirmedBy := Some(actor))), suppliers, Some(actor), email);
    case SendOrResend(sender, suppliers, email) => SendExtends(s, suppliers, sender, email);
    case Hold(reason) => TransitionExtends(s.(facts := s.facts.(holdReason := Some(reason))), OnHold);
    case Release => TransitionExtends(s.(facts := s.facts.(holdReason := None)), PendingVerification);
    case Cancel => TransitionExtends(s, Cancelled);
    case SupplierStatus(target) =>
      TransitionExtends(s, target);
      if Transition(s, target, false).Ok? {
        TransitionExtends(Finishing(Transition(s, target, false).value), Completed);
      }
    case SupplierIssue(issue) =>
      TransitionExtends(Reported(s, issue), UnableToFulfil);
    case AutoComplete => TransitionExtends(s.(facts := s.facts.(completed := true)), Completed);
    case _ =>
  }

  /** No event and no communication is ever rewritten or dropped. */
  lemma {:induction false} RunExtendsLogs(s: OrderState, requests: seq<Request>)
    ensures Extends(s, Run(s, requests))
  {
    hide After;
    if requests == [] {
    } else {
      RunExtendsLogs(s, requests[..|requests| - 1]);
      RequestExtendsLogs(Run(s, requests[..|requests| - 1]), requests[|requests| - 1]);
    }
  }

  // ------------------------------------------------------------------
  // The fulfilment path
  // ------------------------------------------------------------------

  predicate LegalPath(path: seq<OrderStatus>) {
    && path != [] && InitialStatus(path[0])
    && forall i :: 0 <= i < |path| - 1 ==> path[i + 1] in AllowedTransitions(path[i])
  }

  lemma {:induction false} ReplayedPathIsLegal(events: seq<Event>)
    requires Replays(events)
    ensures LegalPath(Path(events))
  {
    hide AllowedTransitions;
    if |events| <= 1 {
    } else {
      ReplayedPathIsLegal(events[..|events| - 1]);
      var front, path := Path(events[..|events| - 1]), Path(events);
      forall i | 0 <= i < |path| - 1
        ensures path[i + 1] in AllowedTransitions(path[i])
      {
        assert i < |front| - 1 ==> front[i + 1] in AllowedTransitions(front[i]);
      }
    }
  }

  const FULFILMENT := [SentToSupplier, Confirmed, Preparing, OutForDelivery, Delivered, Completed]

  /** Each stage of fulfilment can only have been entered from the one before. */
  lemma PredecessorInFulfilment(path: seq<OrderStatus>, i: nat, stage: nat)
    requires LegalPath(path) && i < |path| && 1 <= stage < 6 && path[i] == FULFILMENT[stage]
    ensures i >= 1 && path[i - 1] == FULFILMENT[stage - 1]
  {
    if i >= 1 {
      assert path[(i - 1) + 1] in AllowedTransitions(path[i - 1]);
    }
  }

  lemma LegalCompletionIsFulfilment(path: seq<OrderStatus>)
    requires LegalPath(path) && path[|path| - 1] == Completed
    ensures |path| >= 6 && path[|path| - 6..] == FULFILMENT
  {
    hide AllowedTransitions;
    var n := |path|;
    PredecessorInFulfilment(path, n - 1, 5);
    PredecessorInFulfilment(path, n - 2, 4);
    PredecessorInFulfilment(path, n - 3, 3);
    PredecessorInFulfilment(path, n - 4, 2);
    PredecessorInFulfilment(path, n - 5, 1);
  }

  /** A completed order's walk ends in exactly the six fulfilment stages, none skipped. */
  lemma CompletedOrdersWereFulfilled(s: OrderState, requests: seq<Request>)
    requires FreshlyDetected(s) && Run(s, requests).status == Completed
    ensures var path := Path(Run(s, requests).events);
            |path| >= 6 && path[|path| - 6..] == FULFILMENT
  {
    hide Run, Path, Replays, LegalPath, FreshlyDetected;
    EveryRunIsGood(s, requests);
    ReplayedPathIsLegal(Run(s, requests).events);
    LegalCompletionIsFulfilment(Path(Run(s, requests).events));
  }

  /** A supplier sees a live order only if the timeline holds a move to SENT_TO_SUPPLIER. */
  lemma {:induction false} VisibleMeansReleased(events: seq<Event>)
    requires Replays(events)
    ensures Path(events) != []
    ensures var status := Path(events)[|Path(events)| - 1];
            SupplierVisible(status) && status != Cancelled ==> TallyOf(events).releases >= 1
  {
    if |events| <= 1 {
    } else {
      VisibleMeansReleased(events[..|events| - 1]);
    }
  }

  /**
   * Any supplier-visible order that is not cancelled has a successful send on
   * record; every such send had a supplier, and was made while the address
   * stood VERIFIED in the address log.
   */
  lemma VisibleOrdersWereSent(s: OrderState, requests: seq<Request>)
    requires FreshlyDetected(s)
    ensures var s' := Run(s, requests);
            && SendsVerified(s'.events)
            && (SupplierVisible(s'.status) && s'.status != Cancelled ==>
                  && s'.released
                  && exists i :: 0 <= i < |s'.comms| && s'.comms[i].status == Sent && s'.comms[i].supplierId.Some?)
  {
    EveryRunIsGood(s, requests);
    hide Run;
    VisibleWasSent(Run(s, requests));
  }

  lemma VisibleWasSent(s: OrderState)
    requires Good(s)
    ensures SendsVerified(s.events)
    ensures SupplierVisible(s.status) && s.status != Cancelled ==>
              s.released && exists i :: 0 <= i < |s.comms| && s.comms[i].status == Sent && s.comms[i].supplierId.Some?
  {
    hide SupplierVisible, SendsVerified, Path, Replays, TallyOf, CountComms;
    VisibleMeansReleased(s.events);
    if CountComms(s.comms, Sent) > 0 { SomeComm(s.comms, Sent); }
  }

  lemma {:induction false} SomeComm(comms: seq<Communication>, status: CommStatus)
    requires CountComms(comms, status) > 0
    ensures exists i :: 0 <= i < |comms| && comms[i].status == status
  {
    if comms[|comms| - 1].status != status {
      SomeComm(comms[..|comms| - 1], status);
      var i :| 0 <= i < |comms| - 1 && comms[..|comms| - 1][i].status == status;
      assert comms[i].status == status;
    }
  }

  // ------------------------------------------------------------------
  // Where orders come to rest
  // ------------------------------------------------------------------

  lemma SendMoves(s: OrderState, suppliers: set<int>, releasedBy: Option<int>, email: Email)
    requires Send(s, suppliers, releasedBy, email).Ok?
    ensures Sendable(s.status)
    ensures var to := Send(s, suppliers, releasedBy, email).value.status;
            to == s.status || to in AllowedTransitions(s.status)
  {
  }

  /**
   * One request moves an order along at most one edge of the table (two for a
   * delivery, which completes at once), and only sends enter SENT_TO_SUPPLIER.
   */
  lemma RequestMoves(s: OrderState, r: Request)
    ensures var to := After(s, r).status;
            && (to == s.status || to in AllowedTransitions(s.status) || (s.status == OutForDelivery && to == Completed))
            && (to == SentToSupplier && to != s.status ==> Sendable(s.status))
  {
    hide Send, Decide, SupplierActionable, Sendable, SupplierVisible;
    match r
    case Verify(corrected, config, suppliers, email) =>
      hide AllowedTransitions;
      DecideMoves(WithAddress(s, Verified), corrected, config, suppliers, email);
    case ConfirmRelease(actor, suppliers, email) =>
      hide AllowedTransitions;
      var c := s.(facts := s.facts.(reviewConfirmedBy := Some(actor)));
      if Send(c, suppliers, Some(actor), email).Ok? { SendMoves(c, suppliers, Some(actor), email); }
    case SendOrResend(sender, suppliers, email) =>
      hide AllowedTransitions;
      if Send(s, suppliers, sender, email).Ok? { SendMoves(s, suppliers, sender, email); }
    case SupplierStatus(_) =>
    case _ => hide AllowedTransitions;
  }

  lemma DecideMoves(s: OrderState, corrected: bool, config: ReleaseConfig, suppliers: set<int>, email: Email)
    ensures Decide(s, corrected, config, suppliers, email).Ok? ==>
              var to := Decide(s, corrected, config, suppliers, email).value.status;
              && (to == s.status || to in AllowedTransitions(s.status))
              && (to == SentToSupplier ==> Sendable(s.status))
  {
    hide AllowedTransitions, Send, Ready, Flags, Sendable;
    var v := s.(facts := s.facts.(exceptionReason := None));
    if Send(v, suppliers, None, email).Ok? { SendMoves(v, suppliers, None, email); }
  }

  /** CANCELLED and COMPLETED are absorbing. */
  lemma {:induction false} TerminalStatusesAbsorb(s: OrderState, requests: seq<Request>)
    requires s.status == Cancelled || s.status == Completed
    ensures Run(s, requests).status == s.status
  {
    hide After;
    if requests == [] {
    } else {
      TerminalStatusesAbsorb(s, requests[..|requests| - 1]);
      RequestMoves(Run(s, requests[..|requests| - 1]), requests[|requests| - 1]);
    }
  }

  /**
   * CHANGE_REQUESTED is a dead end: the table offers it a way back to
   * SENT_TO_SUPPLIER, but no request takes it, so such an order can only wait or
   * be cancelled.
   */
  lemma {:induction false} ChangeRequestedCanOnlyBeCancelled(s: OrderState, requests: seq<Request>)
    requires s.status == ChangeRequested
    ensures Run(s, requests).status in {ChangeRequested, Cancelled}
  {
    hide After;
    if requests == [] {
    } else {
      ChangeRequestedCanOnlyBeCancelled(s, requests[..|requests| - 1]);
      RequestMoves(Run(s, requests[..|requests| - 1]), requests[|requests| - 1]);
    }
  }

  /**
   * UNABLE_TO_FULFIL is left only by a verify that finds the order unready or its
   * supplier gone: while its facts are complete no request moves it.
   */
  lemma UnableToFulfilLeavesOnlyUnready(s: OrderState, r: Request)
    requires s.status == UnableToFulfil
    ensures After(s, r).status != UnableToFulfil <==>
              && r.Verify?
              && var v := WithAddress(s, Verified);
                 (!Ready(v) || (Clear(v, r.corrected, r.config) && !SupplierFound(s, r.suppliers)))
  {
    hide Ready;
    if r.Verify? {
      NoFlagsIffClear(WithAddress(s, Verified), r.corrected, r.config);
    }
  }

  /**
   * A resend reaches the email client exactly from the sendable statuses; its
   * documentation also promises SENT_TO_SUPPLIER, where it always refuses.
   */
  lemma ResendWorksExactlyFromSendable(s: OrderState, sender: Option<int>, suppliers: set<int>, email: Email)
    requires SupplierFound(s, suppliers) && s.address == Verified
    ensures Handle(s, SendOrResend(sender, suppliers, email)).0.Ok? <==> Sendable(s.status)
    ensures s.status == SentToSupplier ==> Handle(s, SendOrResend(sender, suppliers, email)).0 == Raised(NotReleasable)
    ensures |After(s, SendOrResend(sender, suppliers, email)).comms| == |s.comms| + if Sendable(s.status) then 1 else 0
  {
    if Sendable(s.status) { SendableEdges(s.status); }
  }

  // ------------------------------------------------------------------
  // The verify decision
  // ------------------------------------------------------------------

  function AutoReleases(events: seq<Event>): nat {
    if events == [] then 0
    else AutoReleases(events[..|events| - 1]) + if events[|events| - 1].AutoReleased? then 1 else 0
  }

  lemma AppendAutoRelease(events: seq<Event>, e: Event)
    ensures AutoReleases(events + [e]) == AutoReleases(events) + if e.AutoReleased? then 1 else 0
  {
    assert (events + [e])[..|events|] == events;
  }

  /** Nothing stands in the way of an automatic release. */
  predicate Clear(s: OrderState, corrected: bool, config: ReleaseConfig) {
    && config.autoReleaseEnabled
    && !corrected && !s.facts.manuallyCorrected && s.facts.leadTime == Normal
    && s.facts.quantity == config.defaultQuantity
  }

  /**
   * From PENDING_VERIFICATION the decision is total: it never raises, it ends in
   * exactly one of three statuses, and which one is fixed by readiness, the
   * flags, the switch and the email. It writes one AUTO_RELEASED event exactly
   * when the order goes to the supplier, and then the order was ready and clear.
   */
  lemma VerifyIsTotalFromPending(s: OrderState, corrected: bool, config: ReleaseConfig, suppliers: set<int>,
                                 email: Email)
    requires s.status == PendingVerification
    ensures var v := WithAddress(s, Verified);
            var r := Handle(s, Verify(corrected, config, suppliers, email)).0;
            && r.Ok?
            && r.value.status == (if !Ready(v) then RequiresAttention
                                  else if !Clear(s, corrected, config) then RequiresReview
                                  else if SupplierFound(s, suppliers) && email == Accepted then SentToSupplier
                                  else RequiresAttention)
            && AutoReleases(r.value.events)
            == AutoReleases(s.events) + if r.value.status == SentToSupplier then 1 else 0
  {
    hide AllowedTransitions, Ready, AutoReleases;
    var v := WithAddress(s, Verified);
    PendingEdges();
    NoFlagsIffClear(v, corrected, config);
    AppendAutoRelease(s.events, AddressChanged(s.address, Verified));
    var attention := StatusChanged(PendingVerification, RequiresAttention);
    AppendAutoRelease(v.events, attention);
    AppendAutoRelease(v.events, StatusChanged(PendingVerification, RequiresReview));
    AppendAutoRelease(v.events + [attention], EmailFailed(PendingVerification, RequiresAttention));
    AppendAutoRelease(v.events, AutoReleased(PendingVerification, SentToSupplier));
    AppendAutoRelease(v.events + [AutoReleased(PendingVerification, SentToSupplier)], EmailSent(SentToSupplier));
  }

  lemma PendingEdges()
    ensures {RequiresAttention, RequiresReview, SentToSupplier} <= AllowedTransitions(PendingVerification)
  {
  }

  lemma NoFlagsIffClear(s: OrderState, corrected: bool, config: ReleaseConfig)
    ensures Clear(s, corrected, config) <==> config.autoReleaseEnabled && Flags(s, corrected, config) == []
  {
  }

  /** From any status, exactly when marking an address verified ends in an error after the mark is committed. */
  lemma VerifyRaisesIff(s: OrderState, corrected: bool, config: ReleaseConfig, suppliers: set<int>, email: Email)
    ensures var v := WithAddress(s, Verified);
            Handle(s, Verify(corrected, config, suppliers, email)).0.Raised? <==>
              s.status !in
                (if !Ready(v) || (Clear(s, corrected, config) && !SupplierFound(s, suppliers)) then
                   {PendingVerification, RequiresReview, RequiresAttention, SentToSupplier, OutForDelivery,
                    UnableToFulfil}
                 else if !Clear(s, corrected, config) then {PendingVerification, OnHold}
                 else {PendingVerification, RequiresReview, RequiresAttention})
    ensures Handle(s, Verify(corrected, config, suppliers, email)).0.Raised? ==>
              After(s, Verify(corrected, config, suppliers, email)) == WithAddress(s, Verified)
  {
    var v := WithAddress(s, Verified);
    NoFlagsIffClear(v, corrected, config);
    SendShape(v.(facts := v.facts.(exceptionReason := None)), suppliers, email);
  }

  lemma SendShape(s: OrderState, suppliers: set<int>, email: Email)
    requires s.address == Verified
    ensures Send(s, suppliers, None, email).Raised? <==> !SupplierFound(s, suppliers) || !Sendable(s.status)
    ensures Send(s, suppliers, None, email) == Raised(NoSupplierAssigned) <==> !SupplierFound(s, suppliers)
  {
    if Sendable(s.status) { SendableEdges(s.status); }
  }
}
