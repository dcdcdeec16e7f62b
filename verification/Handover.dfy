/**
 * Where detection hands an order over to its lifecycle: the row and the events
 * that creation writes are the state the lifecycle theorems start from.
 */
module Handover {
  import opened Common
  import Calendar
  import opened OrderStatuses
  import opened OrderStore
  import opened Detection
  import opened Schedules
  import Backfill
  import Lifecycle
  import LifecycleRuns

  /** A creation event as the order's own timeline shows it. */
  function Shown(e: Event): Lifecycle.Event {
    match e
    case Detected(_, to) => Lifecycle.Detected(to)
    case Exception(_, to, _) => Lifecycle.ExceptionRaised(to)
  }

  /** The timeline of one order. */
  function TimelineOf(events: seq<Event>, id: nat): seq<Lifecycle.Event> {
    if events == [] then []
    else
      var last := events[|events| - 1];
      TimelineOf(events[..|events| - 1], id) + if last.orderId == id then [Shown(last)] else []
  }

  /** What creation takes from the employee beyond the draft, and the configured quantity. */
  datatype Extras = Extras(officeLocation: string, employeeName: string, quantity: int,
                           delivery: Lifecycle.DeliveryAddress)

  /** A newly placed order as the lifecycle sees it: the delivery day is the birthday, everything else as created. */
  function RowOf(o: Order, timeline: seq<Lifecycle.Event>, extras: Extras): Lifecycle.OrderState {
    var facts := Lifecycle.Facts(
      o.row.supplierId, Some(Calendar.Ordinal(o.row.birthdayDate)), extras.officeLocation, extras.quantity,
      extras.employeeName, o.row.leadTimeClass, false, o.row.holdReason, o.row.exceptionReason, None, false,
      o.row.catalogueItemId, extras.delivery, []);
    Lifecycle.OrderState(o.row.status, Lifecycle.NotChecked, facts, 0, false, None, timeline, [])
  }

  /** The timeline of an order nobody has touched since it was placed. */
  predicate IsFirstTimeline(timeline: seq<Lifecycle.Event>) {
    && timeline != [] && timeline[0].Detected? && InitialStatus(timeline[0].to)
    && timeline == [timeline[0]] +
         if timeline[0].to == PendingVerification then [] else [Lifecycle.ExceptionRaised(timeline[0].to)]
  }

  /** Events belong to orders already inserted, and every order has its creation events and no others. */
  predicate TimelinesStart(t: Tables) {
    && (forall k :: 0 <= k < |t.events| ==> t.events[k].orderId < t.nextId)
    && (forall i :: 0 <= i < |t.orders| ==> IsFirstTimeline(TimelineOf(t.events, t.orders[i].id)))
  }

  // ------------------------------------------------------------------
  // Reading one order's events
  // ------------------------------------------------------------------

  lemma {:induction false} TimelineOfConcat(a: seq<Event>, b: seq<Event>, id: nat)
    ensures TimelineOf(a + b, id) == TimelineOf(a, id) + TimelineOf(b, id)
  {
    if b == [] {
      assert a + b == a;
    } else {
      TimelineOfConcat(a, b[..|b| - 1], id);
      assert (a + b)[..|a + b| - 1] == a + b[..|b| - 1];
    }
  }

  lemma {:induction false} NothingForOthers(events: seq<Event>, id: nat)
    requires forall k :: 0 <= k < |events| ==> events[k].orderId != id
    ensures TimelineOf(events, id) == []
  {
    if events == [] {
    } else {
      NothingForOthers(events[..|events| - 1], id);
    }
  }

  lemma CreationTimeline(o: Order)
    requires InitialStatus(o.row.status)
    ensures IsFirstTimeline(TimelineOf(CreationEvents(o), o.id))
    ensures TimelineOf(CreationEvents(o), o.id)[0] == Lifecycle.Detected(o.row.status)
  {
    var events := CreationEvents(o);
    var first := [Detected(o.id, o.row.status)];
    assert first[..0] == [];
    assert TimelineOf(first, o.id) == [Lifecycle.Detected(o.row.status)];
    if |events| == 2 { assert events[..1] == first; }
  }

  lemma {:induction false} RemovalKeepsTimelines(events: seq<Event>, gone: nat, id: nat)
    requires id != gone
    ensures TimelineOf(EventsNotOf(events, gone), id) == TimelineOf(events, id)
    ensures forall e :: e in EventsNotOf(events, gone) ==> e in events
  {
    if events == [] {
    } else {
      var first, rest := [events[0]], events[1..];
      RemovalKeepsTimelines(rest, gone, id);
      assert events == first + rest;
      TimelineOfConcat(first, rest, id);
      TimelineOfConcat(if events[0].orderId == gone then [] else first, EventsNotOf(rest, gone), id);
      if events[0].orderId == gone { NothingForOthers(first, id); }
    }
  }

  // ------------------------------------------------------------------
  // Placing an order
  // ------------------------------------------------------------------

  /** An order just placed is freshly detected, whatever the database held before. */
  lemma PlacedIsFreshlyDetected(t: Tables, token: string, d: Draft, extras: Extras)
    requires Sound(t) && TimelinesStart(t) && InitialStatus(d.status)
    requires !HasKey(t.orders, d.employeeId, d.birthdayYear)
    ensures var (t', r) := PlaceOrder(t, token, d);
            && r.Ok? && r.value.1
            && Lifecycle.FreshlyDetected(RowOf(r.value.0, TimelineOf(t'.events, r.value.0.id), extras))
  {
    PlaceOrderIsIdempotentAndSafe(t, token, d);
    var (t', r) := PlaceOrder(t, token, d);
    var o := r.value.0;
    NothingForOthers(t.events, o.id);
    TimelineOfConcat(t.events, CreationEvents(o), o.id);
    CreationTimeline(o);
  }

  predicate SameOrdersAndEvents(a: Tables, b: Tables) {
    a.orders == b.orders && a.events == b.events && a.nextId == b.nextId
  }

  /** But for the counters, placing an order inserts a row under the next id or changes nothing. */
  lemma PlacedUnderNextId(t: Tables, token: string, d: Draft)
    requires Sound(t)
    ensures var (t', r) := PlaceOrder(t, token, d);
            && r.Ok?
            && (r.value.1 ==> r.value.0.id == t.nextId && r.value.0.row.status == d.status)
            && SameOrdersAndEvents(t', if r.value.1 then Inserted(t, r.value.0) else t)
  {
    PlaceOrderIsIdempotentAndSafe(t, token, d);
    hide Sound, CreationEvents;
  }

  lemma InsertedTimelines(t: Tables, o: Order, id: nat)
    requires forall k :: 0 <= k < |t.events| ==> t.events[k].orderId < t.nextId
    requires o.id == t.nextId && InitialStatus(o.row.status) && id <= t.nextId
    ensures id < o.id ==> TimelineOf(t.events + CreationEvents(o), id) == TimelineOf(t.events, id)
    ensures id == o.id ==> IsFirstTimeline(TimelineOf(t.events + CreationEvents(o), id))
  {
    hide IsFirstTimeline;
    TimelineOfConcat(t.events, CreationEvents(o), id);
    if id < o.id {
      NothingForOthers(CreationEvents(o), id);
    } else {
      NothingForOthers(t.events, id);
      CreationTimeline(o);
    }
  }

  lemma InsertKeepsTimelines(t: Tables, o: Order)
    requires TimelinesStart(t) && forall i :: 0 <= i < |t.orders| ==> t.orders[i].id < t.nextId
    requires o.id == t.nextId && InitialStatus(o.row.status)
    ensures TimelinesStart(Inserted(t, o))
  {
    assert forall k :: 0 <= k < |CreationEvents(o)| ==> CreationEvents(o)[k].orderId == o.id;
    hide IsFirstTimeline, TimelineOf, CreationEvents;
    forall i | 0 <= i < |t.orders + [o]|
      ensures IsFirstTimeline(TimelineOf(t.events + CreationEvents(o), (t.orders + [o])[i].id))
    {
      InsertedTimelines(t, o, (t.orders + [o])[i].id);
    }
  }

  lemma PlacingKeepsTimelines(t: Tables, token: string, d: Draft)
    requires Sound(t) && TimelinesStart(t) && InitialStatus(d.status)
    ensures TimelinesStart(PlaceOrder(t, token, d).0)
  {
    PlacedUnderNextId(t, token, d);
    IdsBelowNext(t);
    hide Sound, PlaceOrder, TimelinesStart, Inserted, SameOrdersAndEvents;
    var (t', r) := PlaceOrder(t, token, d);
    if r.value.1 { InsertKeepsTimelines(t, r.value.0); }
    SameTimelines(if r.value.1 then Inserted(t, r.value.0) else t, t');
  }

  lemma IdsBelowNext(t: Tables)
    requires Sound(t)
    ensures forall i :: 0 <= i < |t.orders| ==> t.orders[i].id < t.nextId
  {
  }

  lemma SameTimelines(t: Tables, t': Tables)
    requires TimelinesStart(t) && SameOrdersAndEvents(t', t)
    ensures TimelinesStart(t')
  {
  }

  /** Manual creations start in an initial status, as detection does. */
  predicate StartsInitial(step: Step) { step.ManualCreate? ==> InitialStatus(step.draft.status) }

  lemma StepKeepsTimelines(t: Tables, step: Step)
    requires Sound(t) && TimelinesStart(t) && StartsInitial(step)
    ensures TimelinesStart(Apply(t, step))
  {
    hide Sound, PlaceOrder, IsFirstTimeline, Attempt, Backfill.Rewritten, HasKey, DraftFor, TimelineOf;
    match step
    case Transaction(e, ctx, fault) =>
      AttemptShape(t, e, ctx, fault);
      if Due(e, ctx) {
        var draft := DraftFor(e, ctx, Calendar.NextOccurrence(e.birthMonth, e.birthDay, ctx.today).value);
        DraftStartsInitial(e, ctx, Calendar.NextOccurrence(e.birthMonth, e.birthDay, ctx.today).value);
        PlacingKeepsTimelines(t, TeamMemberId(e), draft);
      }
    case DeferredScan =>
    case ManualCreate(token, d) => PlacingKeepsTimelines(t, token, d);
    case Delete(k) => if k < |t.orders| { RemovingKeepsTimelines(t, k); }
    case StatusChange(k, status) =>
    case BackfillRun(dryRun, force) => BackfillKeepsTimelines(t, dryRun, force);
  }

  lemma DraftStartsInitial(e: Employee, ctx: ScanContext, occurrence: Calendar.CalendarDate)
    ensures InitialStatus(DraftFor(e, ctx, occurrence).status)
  {
  }

  lemma RemovingKeepsTimelines(t: Tables, k: nat)
    requires Sound(t) && TimelinesStart(t) && k < |t.orders|
    ensures TimelinesStart(Removed(t, k))
  {
    hide IsFirstTimeline, TimelineOf, WellNumbered, NumberOf, SameKey;
    var t' := Removed(t, k);
    var gone := t.orders[k].id;
    forall i | 0 <= i < |t'.orders|
      ensures IsFirstTimeline(TimelineOf(t'.events, t'.orders[i].id))
    {
      var a := if i < k then i else i + 1;
      assert t'.orders[i] == t.orders[a];
      assert t.orders[a].id != gone;
      RemovalKeepsTimelines(t.events, gone, t.orders[a].id);
    }
    forall j | 0 <= j < |t'.events|
      ensures t'.events[j].orderId < t'.nextId
    {
      RemovalKeepsTimelines(t.events, gone, gone + 1);
      assert t'.events[j] in t.events;
    }
  }

  lemma BackfillKeepsTimelines(t: Tables, dryRun: bool, force: bool)
    requires Sound(t) && TimelinesStart(t)
    ensures TimelinesStart(t.(orders := Backfill.Rewritten(t.orders, |t.orders|, dryRun, force).orders))
  {
    hide Sound, IsFirstTimeline, TimelineOf, Backfill.Rewritten, Backfill.Target;
    Backfill.RunIsRowByRow(t, |t.orders|, dryRun, force);
  }

  /** Over every run of the birthday database, each order carries its creation events once and no other order's. */
  lemma {:induction false} EveryTimelineStarts(steps: seq<Step>)
    requires forall k :: 0 <= k < |steps| ==> StartsInitial(steps[k])
    ensures TimelinesStart(Run(EMPTY, steps))
  {
    hide Apply, StartsInitial;
    if steps == [] {
    } else {
      EveryTimelineStarts(steps[..|steps| - 1]);
      EveryRunIsSound(steps[..|steps| - 1]);
      StepKeepsTimelines(Run(EMPTY, steps[..|steps| - 1]), steps[|steps| - 1]);
    }
  }

  /**
   * Deleting an order takes that row and its events: the other rows stay in order
   * with their timelines, and the counters are not wound back.
   */
  lemma DeletionTakesOneOrder(t: Tables, k: nat)
    requires Sound(t) && k < |t.orders|
    ensures var t' := Apply(t, Delete(k));
            && t'.orders == t.orders[..k] + t.orders[k + 1..]
            && t'.nextSeq == t.nextSeq && t'.nextId == t.nextId
            && (forall i :: 0 <= i < |t.orders| && i != k ==>
                  TimelineOf(t'.events, t.orders[i].id) == TimelineOf(t.events, t.orders[i].id))
            && (forall e :: e in t'.events ==> e in t.events && e.orderId != t.orders[k].id)
  {
    hide TimelineOf, EventsNotOf, WellNumbered, NumberOf, SameKey;
    RemovedEventsAreGone(t.events, t.orders[k].id);
    forall i | 0 <= i < |t.orders| && i != k
      ensures TimelineOf(Removed(t, k).events, t.orders[i].id) == TimelineOf(t.events, t.orders[i].id)
    {
      assert t.orders[i].id != t.orders[k].id;
      RemovalKeepsTimelines(t.events, t.orders[k].id, t.orders[i].id);
    }
  }

  /** A manual creation for an employee and year that has an order changes nothing, the counter included. */
  lemma ManualCreationIsRefused(t: Tables, token: string, d: Draft)
    requires HasKey(t.orders, d.employeeId, d.birthdayYear)
    ensures Apply(t, ManualCreate(token, d)) == t
  {
    hide PlaceOrder;
  }

  /** No event outlives its order. */
  predicate EventsHaveOrders(t: Tables) {
    forall e :: e in t.events ==> exists i :: 0 <= i < |t.orders| && t.orders[i].id == e.orderId
  }

  lemma PlacingKeepsEventsOwned(t: Tables, token: string, d: Draft)
    requires Sound(t) && EventsHaveOrders(t)
    ensures EventsHaveOrders(PlaceOrder(t, token, d).0)
  {
    PlacedUnderNextId(t, token, d);
    var (t', r) := PlaceOrder(t, token, d);
    assert r.value.1 ==> forall e :: e in CreationEvents(r.value.0) ==> e.orderId == r.value.0.id;
    hide Sound, PlaceOrder, CreationEvents;
    forall e | e in t'.events
      ensures exists i :: 0 <= i < |t'.orders| && t'.orders[i].id == e.orderId
    {
      if e in t.events {
        var i :| 0 <= i < |t.orders| && t.orders[i].id == e.orderId;
        assert t'.orders[i].id == e.orderId;
      } else {
        assert t'.orders[|t.orders|].id == e.orderId;
      }
    }
  }

  lemma {:induction false} RemovedEventsAreGone(events: seq<Event>, gone: nat)
    ensures forall e :: e in EventsNotOf(events, gone) ==> e in events && e.orderId != gone
  {
    if events == [] {
    } else {
      RemovedEventsAreGone(events[1..], gone);
    }
  }

  lemma RemovingKeepsEventsOwned(t: Tables, k: nat)
    requires EventsHaveOrders(t) && k < |t.orders|
    ensures EventsHaveOrders(Removed(t, k))
  {
    hide EventsNotOf;
    var t' := Removed(t, k);
    RemovedEventsAreGone(t.events, t.orders[k].id);
    forall e | e in t'.events
      ensures exists i :: 0 <= i < |t'.orders| && t'.orders[i].id == e.orderId
    {
      var i :| 0 <= i < |t.orders| && t.orders[i].id == e.orderId;
      assert t'.orders[if i < k then i else i - 1] == t.orders[i];
    }
  }

  lemma SameIdsKeepEventsOwned(t: Tables, t': Tables)
    requires EventsHaveOrders(t) && t'.events == t.events && |t'.orders| == |t.orders|
    requires forall i :: 0 <= i < |t.orders| ==> t'.orders[i].id == t.orders[i].id
    ensures EventsHaveOrders(t')
  {
  }

  /** Over every run no event is left without its order: a deletion takes its events along. */
  lemma {:induction false} EveryEventHasItsOrder(steps: seq<Step>)
    ensures EventsHaveOrders(Run(EMPTY, steps))
  {
    hide EventsHaveOrders, PlaceOrder, Attempt, Removed, Sound, Backfill.Rewritten, HasKey, DraftFor;
    if steps == [] {
      assert EventsHaveOrders(EMPTY) by { NoEventsYet(); }
    } else {
      var t, step := Run(EMPTY, steps[..|steps| - 1]), steps[|steps| - 1];
      EveryEventHasItsOrder(steps[..|steps| - 1]);
      EveryRunIsSound(steps[..|steps| - 1]);
      match step
      case Transaction(e, ctx, fault) =>
        AttemptShape(t, e, ctx, fault);
        if Due(e, ctx) {
          var draft := DraftFor(e, ctx, Calendar.NextOccurrence(e.birthMonth, e.birthDay, ctx.today).value);
          PlacingKeepsEventsOwned(t, TeamMemberId(e), draft);
        }
      case DeferredScan =>
      case ManualCreate(token, d) => PlacingKeepsEventsOwned(t, token, d);
      case Delete(k) => if k < |t.orders| { RemovingKeepsEventsOwned(t, k); }
      case StatusChange(k, status) => SameIdsKeepEventsOwned(t, Apply(t, step));
      case BackfillRun(dryRun, force) =>
        Backfill.RunIsRowByRow(t, |t.orders|, dryRun, force);
        SameIdsKeepEventsOwned(t, Apply(t, step));
    }
  }

  lemma NoEventsYet()
    ensures EventsHaveOrders(EMPTY)
  {
  }

  /**
   * From detection to the end of an order's life: after any run of the database,
   * an order that a scan creates is in the state the lifecycle theorems start
   * from, so whatever requests follow keep its timeline, accounts and address log
   * in step.
   */
  lemma ScannedOrdersLiveWell(steps: seq<Step>, e: Employee, ctx: ScanContext, fault: Fault, extras: Extras,
                              requests: seq<Lifecycle.Request>)
    requires forall k :: 0 <= k < |steps| ==> StartsInitial(steps[k])
    ensures var (t', outcome) := Attempt(Run(EMPTY, steps), e, ctx, fault);
            outcome.Placed? && outcome.created && outcome.committed ==>
              var placed := RowOf(outcome.order, TimelineOf(t'.events, outcome.order.id), extras);
              Lifecycle.FreshlyDetected(placed) && Lifecycle.Good(Lifecycle.Run(placed, requests))
  {
    hide Sound, PlaceOrder, Attempt, HasKey, DraftFor, TimelinesStart, TimelineOf, RowOf,
         Lifecycle.Good, Lifecycle.FreshlyDetected, Lifecycle.Run;
    var t := Run(EMPTY, steps);
    EveryRunIsSound(steps);
    EveryTimelineStarts(steps);
    AttemptShape(t, e, ctx, fault);
    var (t', outcome) := Attempt(t, e, ctx, fault);
    if outcome.Placed? && outcome.created && outcome.committed {
      var draft := DraftFor(e, ctx, Calendar.NextOccurrence(e.birthMonth, e.birthDay, ctx.today).value);
      DraftStartsInitial(e, ctx, Calendar.NextOccurrence(e.birthMonth, e.birthDay, ctx.today).value);
      PlaceOrderIsIdempotentAndSafe(t, TeamMemberId(e), draft);
      PlacedIsFreshlyDetected(t, TeamMemberId(e), draft, extras);
      LifecycleRuns.EveryRunIsGood(RowOf(outcome.order, TimelineOf(t'.events, outcome.order.id), extras), requests);
    }
  }
}
