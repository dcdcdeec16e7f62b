/**
 * Whole runs of the birthday database: any interleaving of scan transactions,
 * manual creations, deletions, status changes, backfills and deferred scans.
 */
module Schedules {
  import opened Common
  import opened Calendar
  import opened OrderStatuses
  import opened OrderStore
  import opened Detection
  import References
  import Backfill

  datatype Step =
    | Transaction(employee: Employee, ctx: ScanContext, fault: Fault)
    | DeferredScan
    | ManualCreate(token: string, draft: Draft)
    | Delete(index: nat)
    | StatusChange(index: nat, status: OrderStatus)
    | BackfillRun(dryRun: bool, force: bool)

  /** The committed tables after one step. */
  function Apply(t: Tables, step: Step): Tables {
    match step
    case Transaction(e, ctx, fault) => Attempt(t, e, ctx, fault).0
    case DeferredScan => t
    case ManualCreate(token, d) =>
      if HasKey(t.orders, d.employeeId, d.birthdayYear) then t else PlaceOrder(t, token, d).0
    case Delete(k) => if k < |t.orders| then Removed(t, k) else t
    case StatusChange(k, status) =>
      if k < |t.orders| then t.(orders := t.orders[k := WithStatus(t.orders[k], status)]) else t
    case BackfillRun(dryRun, force) =>
      t.(orders := Backfill.Rewritten(t.orders, |t.orders|, dryRun, force).orders)
  }

  function Removed(t: Tables, k: nat): Tables
    requires k < |t.orders|
  {
    t.(orders := t.orders[..k] + t.orders[k + 1..], events := EventsNotOf(t.events, t.orders[k].id))
  }

  function EventsNotOf(events: seq<Event>, id: nat): seq<Event> {
    if events == [] then []
    else (if events[0].orderId == id then [] else [events[0]]) + EventsNotOf(events[1..], id)
  }

  function WithStatus(o: Order, status: OrderStatus): Order {
    o.(row := o.row.(status := status))
  }

  function Run(t: Tables, steps: seq<Step>): Tables {
    if steps == [] then t else Apply(Run(t, steps[..|steps| - 1]), steps[|steps| - 1])
  }

  // ------------------------------------------------------------------
  // Every reachable database is sound
  // ------------------------------------------------------------------

  lemma RemovalKeepsSound(t: Tables, k: nat)
    requires Sound(t) && k < |t.orders|
    ensures Sound(Removed(t, k))
  {
    hide EventsNotOf, References.Decode, NumberOf, SameKey;
    var t' := Removed(t, k);
    forall i | 0 <= i < |t'.orders|
      ensures WellNumbered(t', t'.orders[i]) && t'.orders[i].id < t'.nextId
    {
      assert WellNumbered(t, t.orders[if i < k then i else i + 1]);
    }
    forall i, j | 0 <= i < j < |t'.orders|
      ensures !SameKey(t'.orders[i], t'.orders[j].row.employeeId, t'.orders[j].row.birthdayYear)
      ensures t'.orders[i].id != t'.orders[j].id
      ensures t'.orders[i].row.birthdayYear == t'.orders[j].row.birthdayYear ==>
                NumberOf(t'.orders[i]) != NumberOf(t'.orders[j])
    {
      var a, b := if i < k then i else i + 1, if j < k then j else j + 1;
      assert t'.orders[i] == t.orders[a] && t'.orders[j] == t.orders[b];
      assert !SameKey(t.orders[a], t.orders[b].row.employeeId, t.orders[b].row.birthdayYear);
    }
  }

  lemma StatusChangeKeepsSound(t: Tables, k: nat, status: OrderStatus)
    requires Sound(t) && k < |t.orders|
    ensures Sound(t.(orders := t.orders[k := WithStatus(t.orders[k], status)]))
  {
    hide References.Decode;
    var t' := t.(orders := t.orders[k := WithStatus(t.orders[k], status)]);
    forall i | 0 <= i < |t'.orders|
      ensures WellNumbered(t', t'.orders[i]) && t'.orders[i].id < t'.nextId
    {
      assert WellNumbered(t, t.orders[i]);
    }
  }

  lemma StepKeepsSound(t: Tables, step: Step)
    requires Sound(t)
    ensures Sound(Apply(t, step))
  {
    hide Sound, Attempt, PlaceOrder, Removed, WithStatus;
    match step
    case Transaction(e, ctx, fault) => AttemptIsAllOrNothing(t, e, ctx, fault);
    case DeferredScan =>
    case ManualCreate(token, d) => PlaceOrderIsIdempotentAndSafe(t, token, d);
    case Delete(k) => if k < |t.orders| { RemovalKeepsSound(t, k); }
    case StatusChange(k, status) => if k < |t.orders| { StatusChangeKeepsSound(t, k, status); }
    case BackfillRun(dryRun, force) => Backfill.RunIsRowByRow(t, |t.orders|, dryRun, force);
  }

  /**
   * Reference freshness over all runs: whatever was scanned, faulted, created,
   * deleted, progressed or backfilled, each order's number lies below its year's
   * counter, no two orders share (year, number) or (employee, year), and the
   * table's unique constraints hold.
   */
  lemma {:induction false} EveryRunIsSound(steps: seq<Step>)
    ensures Sound(Run(EMPTY, steps))
    ensures ConstraintsHold(Run(EMPTY, steps).orders)
  {
    if steps == [] {
    } else {
      EveryRunIsSound(steps[..|steps| - 1]);
      StepKeepsSound(Run(EMPTY, steps[..|steps| - 1]), steps[|steps| - 1]);
    }
    SoundImpliesConstraints(Run(EMPTY, steps));
  }

  /** So in no run does an insert ever re-raise: the only possible conflict is on (employee, year). */
  lemma InsertNeverReraises(steps: seq<Step>, token: string, d: Draft)
    ensures PlaceOrder(Run(EMPTY, steps), token, d).1.Ok?
  {
    EveryRunIsSound(steps);
    PlaceOrderIsIdempotentAndSafe(Run(EMPTY, steps), token, d);
  }

  /** A scan is its employees' transactions, so interleaved scans are runs like any other. */
  lemma {:induction false} ScanIsARun(t: Tables, roster: seq<Employee>, ctx: ScanContext, fault: nat -> Fault)
    ensures Scan(t, roster, ctx, fault).0 == Run(t, ScanSteps(roster, ctx, fault))
  {
    hide Attempt;
    if roster == [] {
    } else {
      var front := roster[..|roster| - 1];
      ScanIsARun(t, front, ctx, fault);
      var steps := ScanSteps(roster, ctx, fault);
      assert steps[..|steps| - 1] == ScanSteps(front, ctx, fault);
    }
  }

  function ScanSteps(roster: seq<Employee>, ctx: ScanContext, fault: nat -> Fault): (steps: seq<Step>)
    ensures |steps| == |roster|
  {
    if roster == [] then []
    else ScanSteps(roster[..|roster| - 1], ctx, fault) + [Transaction(roster[|roster| - 1], ctx, fault(|roster| - 1))]
  }

  // ------------------------------------------------------------------
  // Exactly once
  // ------------------------------------------------------------------

  /** The step asks for an order of this employee and year, and is not struck by a fault. */
  predicate Places(step: Step, id: string, year: nat) {
    match step
    case Transaction(e, ctx, fault) =>
      && e.id == id && fault == NoFault && Due(e, ctx)
      && NextOccurrence(e.birthMonth, e.birthDay, ctx.today).value.year == year
    case ManualCreate(_, d) => d.employeeId == id && d.birthdayYear == year
    case _ => false
  }

  /** One step brings a key about exactly by placing it; only a deletion takes one away. */
  lemma StepMovesKeys(t: Tables, step: Step, id: string, year: nat)
    requires Sound(t) && !step.Delete?
    ensures HasKey(Apply(t, step).orders, id, year) <==> HasKey(t.orders, id, year) || Places(step, id, year)
  {
    hide Sound, Attempt, PlaceOrder, Due;
    var t' := Apply(t, step);
    match step
    case Transaction(e, ctx, fault) =>
      AttemptIsAllOrNothing(t, e, ctx, fault);
      AppendMovesKeys(t.orders, t'.orders, id, year);
    case ManualCreate(token, d) =>
      PlaceOrderIsIdempotentAndSafe(t, token, d);
      AppendMovesKeys(t.orders, t'.orders, id, year);
    case StatusChange(k, status) => SameKeysSameAnswer(t.orders, t'.orders, id, year);
    case BackfillRun(dryRun, force) =>
      Backfill.RunIsRowByRow(t, |t.orders|, dryRun, force);
      SameKeysSameAnswer(t.orders, t'.orders, id, year);
    case DeferredScan =>
  }

  lemma AppendMovesKeys(before: seq<Order>, after: seq<Order>, id: string, year: nat)
    requires before <= after && |after| <= |before| + 1
    ensures HasKey(after, id, year)
       <==> HasKey(before, id, year) || (|after| > |before| && SameKey(after[|before|], id, year))
  {
    if HasKey(before, id, year) {
      var i :| 0 <= i < |before| && SameKey(before[i], id, year);
      assert SameKey(after[i], id, year);
    }
    if HasKey(after, id, year) {
      var i :| 0 <= i < |after| && SameKey(after[i], id, year);
      assert i < |before| ==> SameKey(before[i], id, year);
    }
  }

  lemma SameKeysSameAnswer(before: seq<Order>, after: seq<Order>, id: string, year: nat)
    requires |before| == |after|
    requires forall i :: 0 <= i < |before| ==>
               && before[i].row.employeeId == after[i].row.employeeId
               && before[i].row.birthdayYear == after[i].row.birthdayYear
    ensures HasKey(after, id, year) <==> HasKey(before, id, year)
  {
    if HasKey(before, id, year) {
      var i :| 0 <= i < |before| && SameKey(before[i], id, year);
      assert SameKey(after[i], id, year);
    }
    if HasKey(after, id, year) {
      var i :| 0 <= i < |after| && SameKey(after[i], id, year);
      assert SameKey(before[i], id, year);
    }
  }

  /** Without deletions, an employee has an order for a year exactly when some step placed it. */
  lemma {:induction false} OrderExistsIffPlaced(steps: seq<Step>, id: string, year: nat)
    requires forall k :: 0 <= k < |steps| ==> !steps[k].Delete?
    ensures HasKey(Run(EMPTY, steps).orders, id, year) <==> exists k :: 0 <= k < |steps| && Places(steps[k], id, year)
  {
    hide Places, Apply;
    if steps == [] {
    } else {
      var front, last := steps[..|steps| - 1], steps[|steps| - 1];
      OrderExistsIffPlaced(front, id, year);
      EveryRunIsSound(front);
      StepMovesKeys(Run(EMPTY, front), last, id, year);
      if exists k :: 0 <= k < |front| && Places(front[k], id, year) {
        var k :| 0 <= k < |front| && Places(front[k], id, year);
        assert Places(steps[k], id, year);
      }
      if exists k :: 0 <= k < |steps| && Places(steps[k], id, year) {
        var k :| 0 <= k < |steps| && Places(steps[k], id, year);
        assert k < |front| ==> Places(front[k], id, year);
      }
    }
  }

  /** A placed key stays through everything but a deletion. */
  lemma {:induction false} PlacedStays(steps: seq<Step>, k: nat, id: string, year: nat)
    requires k < |steps| && Places(steps[k], id, year)
    requires forall j :: k < j < |steps| ==> !steps[j].Delete?
    ensures HasKey(Run(EMPTY, steps).orders, id, year)
  {
    hide Places, Apply;
    var front, last := steps[..|steps| - 1], steps[|steps| - 1];
    EveryRunIsSound(front);
    if k < |front| {
      PlacedStays(front, k, id, year);
      StepMovesKeys(Run(EMPTY, front), last, id, year);
    } else {
      assert !last.Delete? by { assert Places(last, id, year); NoDeletePlaces(last, id, year); }
      StepMovesKeys(Run(EMPTY, front), last, id, year);
    }
  }

  lemma NoDeletePlaces(step: Step, id: string, year: nat)
    requires Places(step, id, year)
    ensures !step.Delete?
  {
  }

  /** In every run at all, nobody ever has two orders for one year. */
  lemma AtMostOnce(steps: seq<Step>, id: string, year: nat)
    ensures |Matching(Run(EMPTY, steps).orders, id, year)| <= 1
  {
    EveryRunIsSound(steps);
    MatchingCounts(Run(EMPTY, steps).orders, id, year);
  }

  /**
   * A day from which the scan reaches occurrence `o`: not past it, within the
   * lookahead, and within a year, the last birthday itself excluded.
   */
  predicate InCatchingWindow(e: Employee, today: CalendarDate, o: CalendarDate, config: Config) {
    && 0 <= DaysBetween(today, o) <= config.lookaheadDays
    && DaysBetween(today, o) <= 365
    && (DaysBetween(today, o) == 365 ==> !FallsOn(e.birthMonth, e.birthDay, today))
  }

  /** No other day will do: these are exactly the days on which the scan is heading for `o`. */
  lemma CatchingWindowIsExact(e: Employee, today: CalendarDate, o: CalendarDate, config: Config)
    requires FallsOn(e.birthMonth, e.birthDay, o) && config.lookbackDays >= 0
    ensures InCatchingWindow(e, today, o, config)
       <==> && NextOccurrence(e.birthMonth, e.birthDay, today) == Some(o)
            && WithinScanWindow(DaysBetween(today, o), config)
  {
    hide FallsOn, NextOccurrence, Ordinal;
    SeesWithinTheYear(e.birthMonth, e.birthDay, today, o);
  }

  /**
   * Exactly-once detection over every schedule: one scan of an eligible employee
   * on any day of the window before an occurrence, undisturbed and not followed
   * by a deletion, leaves exactly one order for it, however many other scans,
   * deferrals, faults, manual creations and backfills surround it.
   */
  lemma ExactlyOnce(steps: seq<Step>, k: nat, o: CalendarDate)
    requires k < |steps| && steps[k].Transaction? && steps[k].fault == NoFault
    requires forall j :: k < j < |steps| ==> !steps[j].Delete?
    requires var (e, ctx) := (steps[k].employee, steps[k].ctx);
             && FallsOn(e.birthMonth, e.birthDay, o)
             && ctx.config.lookbackDays >= 0
             && InCatchingWindow(e, ctx.today, o, ctx.config)
             && EligibleFor(e, o)
             && VerifyBy(o, ctx.supplierFor(e.officeLocation), ctx.config).Some?
    ensures |Matching(Run(EMPTY, steps).orders, steps[k].employee.id, o.year)| == 1
  {
    var (e, ctx) := (steps[k].employee, steps[k].ctx);
    CatchingWindowIsExact(e, ctx.today, o, ctx.config);
    assert Places(steps[k], e.id, o.year);
    PlacedStays(steps, k, e.id, o.year);
    AtMostOnce(steps, e.id, o.year);
    MatchingCounts(Run(EMPTY, steps).orders, e.id, o.year);
  }

  // ------------------------------------------------------------------
  // The order is for that occurrence
  // ------------------------------------------------------------------

  /** Every step that could place an order for the employee knows the same birthday. */
  predicate BirthdayIsStable(step: Step, id: string, month: int, day: int) {
    match step
    case Transaction(e, _, _) => e.id == id ==> e.birthMonth == month && e.birthDay == day
    case ManualCreate(_, d) =>
      d.employeeId == id ==> FallsOn(month, day, d.birthdayDate) && d.birthdayYear == d.birthdayDate.year
    case _ => true
  }

  predicate DatedBy(orders: seq<Order>, id: string, month: int, day: int) {
    forall i :: 0 <= i < |orders| && orders[i].row.employeeId == id ==>
      FallsOn(month, day, orders[i].row.birthdayDate) && orders[i].row.birthdayYear == orders[i].row.birthdayDate.year
  }

  lemma StepKeepsDates(t: Tables, step: Step, id: string, month: int, day: int)
    requires Sound(t) && DatedBy(t.orders, id, month, day) && BirthdayIsStable(step, id, month, day)
    ensures DatedBy(Apply(t, step).orders, id, month, day)
  {
    hide Sound, PlaceOrder, FallsOn, HasKey, Attempt, Backfill.Rewritten, EventsNotOf;
    match step
    case Transaction(e, ctx, fault) => TransactionKeepsDates(t, e, ctx, fault, id, month, day);
    case ManualCreate(token, d) => PlaceOrderIsIdempotentAndSafe(t, token, d);
    case BackfillRun(dryRun, force) => BackfillKeepsDates(t, dryRun, force, id, month, day);
    case _ =>
  }

  lemma BackfillKeepsDates(t: Tables, dryRun: bool, force: bool, id: string, month: int, day: int)
    requires Sound(t) && DatedBy(t.orders, id, month, day)
    ensures DatedBy(Backfill.Rewritten(t.orders, |t.orders|, dryRun, force).orders, id, month, day)
  {
    hide Sound, FallsOn, Backfill.Rewritten;
    Backfill.RunIsRowByRow(t, |t.orders|, dryRun, force);
  }

  lemma TransactionKeepsDates(t: Tables, e: Employee, ctx: ScanContext, fault: Fault, id: string, month: int, day: int)
    requires Sound(t) && DatedBy(t.orders, id, month, day)
    requires BirthdayIsStable(Transaction(e, ctx, fault), id, month, day)
    ensures DatedBy(Attempt(t, e, ctx, fault).0.orders, id, month, day)
  {
    hide Sound, Attempt, PlaceOrder, FallsOn, HasKey, NextOccurrence;
    AttemptIsAllOrNothing(t, e, ctx, fault);
    if NextOccurrence(e.birthMonth, e.birthDay, ctx.today).Some? {
      NextOccurrenceIsLeast(e.birthMonth, e.birthDay, ctx.today);
    }
  }

  lemma {:induction false} RunKeepsDates(steps: seq<Step>, id: string, month: int, day: int)
    requires forall j :: 0 <= j < |steps| ==> BirthdayIsStable(steps[j], id, month, day)
    ensures DatedBy(Run(EMPTY, steps).orders, id, month, day)
  {
    hide Apply, FallsOn, BirthdayIsStable;
    if steps == [] {
    } else {
      RunKeepsDates(steps[..|steps| - 1], id, month, day);
      EveryRunIsSound(steps[..|steps| - 1]);
      StepKeepsDates(Run(EMPTY, steps[..|steps| - 1]), steps[|steps| - 1], id, month, day);
    }
  }

  /** And the one order is dated on that occurrence, if nobody recorded another birthday for the employee. */
  lemma TheOrderIsForTheOccurrence(steps: seq<Step>, id: string, month: int, day: int, o: CalendarDate, order: Order)
    requires FallsOn(month, day, o)
    requires forall j :: 0 <= j < |steps| ==> BirthdayIsStable(steps[j], id, month, day)
    requires order in Matching(Run(EMPTY, steps).orders, id, o.year)
    ensures order.row.birthdayDate == o
  {
    RunKeepsDates(steps, id, month, day);
    MatchingCounts(Run(EMPTY, steps).orders, id, o.year);
    OncePerYear(month, day, order.row.birthdayDate);
    OncePerYear(month, day, o);
  }
}
