/**
 * Birthday detection: the eligibility gate, the scan window, one employee's
 * transaction, and the daily scan that runs them over a roster.
 */
module Detection {
  import opened Common
  import opened Calendar
  import opened OrderStatuses
  import opened OrderStore
  import References

  // ------------------------------------------------------------------
  // Inputs
  // ------------------------------------------------------------------

  datatype Employee = Employee(
    id: string,
    number: Option<string>,
    birthMonth: int,
    birthDay: int,
    officeLocation: string,
    workEmail: string,
    employmentStatus: string,
    hireDate: Option<CalendarDate>,
    terminationDate: Option<CalendarDate>)

  datatype CatalogueItem = CatalogueItem(id: int, isActive: bool, isDefault: bool)

  datatype Supplier = Supplier(id: int, leadTimeDays: int, catalogue: seq<CatalogueItem>)

  datatype Config = Config(
    shortNoticeDays: int, urgentDays: int, lookbackDays: int, lookaheadDays: int, verifyBufferDays: int)

  /** What one scan reads besides the tables: the day, the thresholds, and the supplier resolution. */
  datatype ScanContext = ScanContext(today: CalendarDate, config: Config, supplierFor: string -> Option<Supplier>)

  /** Where, if anywhere, an unforeseen exception strikes while an employee is processed. */
  datatype Fault = NoFault | InMapping | InLookup | AfterReference | AfterInsert | AtCommit

  datatype Source = Roster(employees: seq<Employee>) | Unavailable | FetchError

  // ------------------------------------------------------------------
  // Expressions
  // ------------------------------------------------------------------

  datatype EligibilityReason =
    | Eligible | FutureStarter | InactiveEmployee | EmploymentEnded
    | MissingHireDate | MissingBirthday | InvalidEmployeeData

  function ComputeEligibility(employmentStatus: string, hireDate: Option<CalendarDate>,
                              terminationDate: Option<CalendarDate>,
                              birthMonth: Option<int>, birthDay: Option<int>,
                              occurrence: CalendarDate): EligibilityReason {
    if birthMonth == None || birthDay == None then MissingBirthday
    else if !(1 <= birthMonth.value <= 12 && 1 <= birthDay.value <= 31) then InvalidEmployeeData
    else if employmentStatus != "Active" then InactiveEmployee
    else if hireDate == None then MissingHireDate
    else if Before(occurrence, hireDate.value) then FutureStarter
    else if terminationDate.Some? && Before(terminationDate.value, occurrence) then EmploymentEnded
    else Eligible
  }

  /** The business rule on one occurrence, as a condition on the employee alone. */
  predicate EligibleFor(e: Employee, occurrence: CalendarDate) {
    && e.employmentStatus == "Active"
    && e.hireDate.Some? && !Before(occurrence, e.hireDate.value)
    && (e.terminationDate.Some? ==> !Before(e.terminationDate.value, occurrence))
  }

  function EligibilityOf(e: Employee, occurrence: CalendarDate): EligibilityReason {
    ComputeEligibility(e.employmentStatus, e.hireDate, e.terminationDate,
                       Some(e.birthMonth), Some(e.birthDay), occurrence)
  }

  function ClassifyLeadTime(daysRemaining: int, config: Config): LeadTimeClass {
    if daysRemaining <= config.urgentDays then Urgent
    else if daysRemaining <= config.shortNoticeDays then ShortNotice
    else Normal
  }

  predicate WithinScanWindow(daysRemaining: int, config: Config) {
    -config.lookbackDays <= daysRemaining <= config.lookaheadDays
  }

  function ActiveItems(items: seq<CatalogueItem>): seq<CatalogueItem> {
    if items == [] then []
    else (if items[0].isActive then [items[0]] else []) + ActiveItems(items[1..])
  }

  function DefaultItems(items: seq<CatalogueItem>): seq<CatalogueItem> {
    if items == [] then []
    else (if items[0].isDefault then [items[0]] else []) + DefaultItems(items[1..])
  }

  function DefaultCatalogueItem(supplier: Option<Supplier>): Option<CatalogueItem> {
    if supplier == None then None else
    var items := ActiveItems(supplier.value.catalogue);
    var defaults := DefaultItems(items);
    if |defaults| == 1 then Some(defaults[0])
    else if |items| == 1 then Some(items[0])
    else None
  }

  function DetermineInitialStatus(daysRemaining: int, supplier: Option<Supplier>, hasWorkEmail: bool,
                                  hasDefaultCake: bool)
    : (r: (OrderStatus, Option<ExceptionReason>))
    ensures InitialStatus(r.0)
  {
    if !hasWorkEmail then (RequiresAttention, Some(MissingEmail))
    else if supplier == None then (RequiresAttention, Some(NoSupplier))
    else if !hasDefaultCake && supplier.value.catalogue != [] then (RequiresAttention, Some(NoDefaultCake))
    else if daysRemaining >= supplier.value.leadTimeDays then (PendingVerification, None)
    else (OnHold, None)
  }

  /** The token of the reference: `employee_number or employee_id`. */
  function TeamMemberId(e: Employee): string {
    if e.number.Some? && e.number.value != "" then e.number.value else e.id
  }

  const LAST_DAY := 3652059  // date(9999, 12, 31).toordinal()

  /** `occurrence - timedelta(...)`; None where it leaves the calendar and raises OverflowError. */
  function VerifyBy(occurrence: CalendarDate, supplier: Option<Supplier>, config: Config): Option<int> {
    var lead := if supplier.Some? then supplier.value.leadTimeDays else 0;
    var day := Ordinal(occurrence) - (lead + config.verifyBufferDays);
    if 1 <= day <= LAST_DAY then Some(day) else None
  }

  function DraftFor(e: Employee, ctx: ScanContext, occurrence: CalendarDate): Draft {
    var days := DaysBetween(ctx.today, occurrence);
    var supplier := ctx.supplierFor(e.officeLocation);
    var item := DefaultCatalogueItem(supplier);
    var (status, reason) := DetermineInitialStatus(days, supplier, e.workEmail != "", item.Some?);
    var lead := ClassifyLeadTime(days, ctx.config);
    Draft(e.id, e.number, "", occurrence, occurrence.year, days, lead, status,
          status == PendingVerification && lead != Normal,
          if status == OnHold then Some("Supplier lead time exceeds remaining days") else None,
          if supplier.Some? then Some(supplier.value.id) else None,
          if item.Some? then Some(item.value.id) else None,
          VerifyBy(occurrence, supplier, ctx.config),
          reason)
  }

  // ------------------------------------------------------------------
  // One employee's transaction
  // ------------------------------------------------------------------

  datatype Outcome =
    | OutOfWindow
    | Ineligible(reason: EligibilityReason)
    | Placed(order: Order, created: bool, committed: bool)
    | Failed

  /** The committed tables after processing one employee, and how it went. */
  function Attempt(t: Tables, e: Employee, ctx: ScanContext, fault: Fault): (Tables, Outcome) {
    if fault == InMapping then (t, Failed)
    else match NextOccurrence(e.birthMonth, e.birthDay, ctx.today)
    case None => (t, Failed)
    case Some(occurrence) =>
      if !WithinScanWindow(DaysBetween(ctx.today, occurrence), ctx.config) then (t, OutOfWindow)
      else if EligibilityOf(e, occurrence) != Eligible then (t, Ineligible(EligibilityOf(e, occurrence)))
      else
        var draft := DraftFor(e, ctx, occurrence);
        if fault == InLookup || draft.verifyByDay == None || fault == AfterReference then (t, Failed)
        else match PlaceOrder(t, TeamMemberId(e), draft)
          case (_, Raised(_)) => (t, Failed)
          case (t', Ok((order, created))) =>
            if fault == AfterInsert then (t, Failed)
            else if fault == AtCommit then (t, Placed(order, created, false))
            else (t', Placed(order, created, true))
  }

  /** One pass of the scan's loop body, exception handler included. */
  method ProcessEmployee(db: Session, e: Employee, ctx: ScanContext, fault: Fault) returns (outcome: Outcome)
    requires db.Valid() && db.working == db.committed
    modifies db
    ensures db.Valid() && db.working == db.committed
    ensures (db.committed, outcome) == Attempt(old(db.committed), e, ctx, fault)
  {
    if fault == InMapping {
      db.Rollback();
      return Failed;
    }
    var next := NextOccurrence(e.birthMonth, e.birthDay, ctx.today);
    if next == None {
      db.Rollback();
      return Failed;
    }
    var occurrence := next.value;
    if !WithinScanWindow(DaysBetween(ctx.today, occurrence), ctx.config) {
      return OutOfWindow;
    }
    var reason := EligibilityOf(e, occurrence);
    if reason != Eligible {
      return Ineligible(reason);
    }
    var draft := DraftFor(e, ctx, occurrence);
    if fault == InLookup || draft.verifyByDay == None {
      db.Rollback();
      return Failed;
    }
    var reference := db.NextOrderReference(TeamMemberId(e), occurrence.year);
    if fault == AfterReference {
      db.Rollback();
      return Failed;
    }
    var r := db.CreateOrGetOrder(draft.(reference := reference));
    if r.Raised? || fault == AfterInsert {
      db.Rollback();
      return Failed;
    }
    if fault == AtCommit {
      db.Rollback();
      return Placed(r.value.0, r.value.1, false);
    }
    db.Commit();
    return Placed(r.value.0, r.value.1, true);
  }

  // ------------------------------------------------------------------
  // The daily scan
  // ------------------------------------------------------------------

  datatype Totals = Totals(
    scanned: nat, created: nat, existing: nat, exceptions: nat, ineligible: nat, errors: seq<string>)

  datatype Report = ScanCompleted(totals: Totals) | ScanDeferred

  function Tally(totals: Totals, e: Employee, outcome: Outcome): Totals {
    var s := totals.(scanned := totals.scanned + 1);
    match outcome
    case OutOfWindow => s
    case Ineligible(reason) =>
      s.(ineligible := s.ineligible + 1, exceptions := s.exceptions + if reason != FutureStarter then 1 else 0)
    case Failed => s.(exceptions := s.exceptions + 1, errors := s.errors + [e.id])
    case Placed(order, created, committed) =>
      var c := if !created then s.(existing := s.existing + 1)
               else s.(created := s.created + 1,
                       exceptions := s.exceptions + if order.row.status in {RequiresAttention, OnHold} then 1 else 0);
      if committed then c else c.(exceptions := c.exceptions + 1, errors := c.errors + [e.id])
  }

  /** Tables and totals after the whole roster; employee number i meets fault(i). */
  function Scan(t: Tables, roster: seq<Employee>, ctx: ScanContext, fault: nat -> Fault): (Tables, Totals) {
    if roster == [] then (t, Totals(0, 0, 0, 0, 0, []))
    else
      var (t1, totals) := Scan(t, roster[..|roster| - 1], ctx, fault);
      var e := roster[|roster| - 1];
      var (t2, outcome) := Attempt(t1, e, ctx, fault(|roster| - 1));
      (t2, Tally(totals, e, outcome))
  }

  lemma ScanStep(t: Tables, roster: seq<Employee>, i: nat, ctx: ScanContext, fault: nat -> Fault)
    requires i < |roster|
    ensures var (t1, totals) := Scan(t, roster[..i], ctx, fault);
            var (t2, outcome) := Attempt(t1, roster[i], ctx, fault(i));
            Scan(t, roster[..i + 1], ctx, fault) == (t2, Tally(totals, roster[i], outcome))
  {
    assert roster[..i + 1][..i] == roster[..i];
  }

  /** Raises only where fetching the roster raises something other than "unavailable". */
  method RunDailyScan(db: Session, source: Source, ctx: ScanContext, fault: nat -> Fault)
    returns (r: Result<Report, ()>)
    requires db.Valid() && db.working == db.committed
    modifies db
    ensures db.Valid() && db.working == db.committed
    ensures source.FetchError? ==> r.Raised? && db.committed == old(db.committed)
    ensures source.Unavailable? ==> r == Ok(ScanDeferred) && db.committed == old(db.committed)
    ensures source.Roster? ==>
              var (t, totals) := Scan(old(db.committed), source.employees, ctx, fault);
              db.committed == t && r == Ok(ScanCompleted(totals))
  {
    hide Attempt;
    if source.FetchError? { return Raised(()); }
    if source.Unavailable? { return Ok(ScanDeferred); }
    var roster := source.employees;
    var scanned, created, existing, exceptions, ineligible, errors := 0, 0, 0, 0, 0, [];
    for i := 0 to |roster|
      invariant db.Valid() && db.working == db.committed
      invariant (db.committed, Totals(scanned, created, existing, exceptions, ineligible, errors))
             == Scan(old(db.committed), roster[..i], ctx, fault)
    {
      ghost var before := Totals(scanned, created, existing, exceptions, ineligible, errors);
      ScanStep(old(db.committed), roster, i, ctx, fault);
      hide Scan;
      scanned := scanned + 1;
      var outcome := ProcessEmployee(db, roster[i], ctx, fault(i));
      match outcome {
        case OutOfWindow =>
        case Ineligible(reason) =>
          ineligible := ineligible + 1;
          if reason != FutureStarter { exceptions := exceptions + 1; }
        case Failed =>
          exceptions, errors := exceptions + 1, errors + [roster[i].id];
        case Placed(order, isNew, committed) =>
          if isNew {
            created := created + 1;
            if order.row.status in {RequiresAttention, OnHold} { exceptions := exceptions + 1; }
          } else {
            existing := existing + 1;
          }
          if !committed {
            exceptions, errors := exceptions + 1, errors + [roster[i].id];
          }
      }
      assert Totals(scanned, created, existing, exceptions, ineligible, errors) == Tally(before, roster[i], outcome);
    }
    assert roster[..|roster|] == roster;
    return Ok(ScanCompleted(Totals(scanned, created, existing, exceptions, ineligible, errors)));
  }

  // ------------------------------------------------------------------
  // What one transaction does
  // ------------------------------------------------------------------

  /** With a non-negative lookback the window only ever excludes birthdays that are too far ahead. */
  lemma LookbackExcludesNobody(e: Employee, ctx: ScanContext)
    requires ctx.config.lookbackDays >= 0
    requires NextOccurrence(e.birthMonth, e.birthDay, ctx.today).Some?
    ensures var days := DaysBetween(ctx.today, NextOccurrence(e.birthMonth, e.birthDay, ctx.today).value);
            WithinScanWindow(days, ctx.config) <==> days <= ctx.config.lookaheadDays
  {
    DaysRemainingInRange(e.birthMonth, e.birthDay, ctx.today);
  }

  /** On a next occurrence the gate's range tests cannot fail, so it is the business rule alone. */
  lemma GateIsTheRule(e: Employee, today: CalendarDate)
    requires NextOccurrence(e.birthMonth, e.birthDay, today).Some?
    ensures var o := NextOccurrence(e.birthMonth, e.birthDay, today).value;
            EligibilityOf(e, o) == Eligible <==> EligibleFor(e, o)
  {
    NextOccurrenceIsLeast(e.birthMonth, e.birthDay, today);
  }

  /** The employee reaches the insert: a next occurrence, in the window, eligible, with a verify-by date. */
  predicate Due(e: Employee, ctx: ScanContext) {
    && NextOccurrence(e.birthMonth, e.birthDay, ctx.today).Some?
    && var o := NextOccurrence(e.birthMonth, e.birthDay, ctx.today).value;
       && WithinScanWindow(DaysBetween(ctx.today, o), ctx.config)
       && EligibleFor(e, o)
       && VerifyBy(o, ctx.supplierFor(e.officeLocation), ctx.config).Some?
  }

  /**
   * On a sound database one transaction either leaves the committed tables as
   * they were or commits exactly one placement for the employee's next
   * occurrence, and it commits exactly when the employee is due and no fault
   * strikes. In particular the re-raised integrity error never happens.
   */
  lemma AttemptIsAllOrNothing(t: Tables, e: Employee, ctx: ScanContext, fault: Fault)
    requires Sound(t)
    ensures var (t', outcome) := Attempt(t, e, ctx, fault);
            && Sound(t')
            && (outcome.Placed? && outcome.committed <==> Due(e, ctx) && fault == NoFault)
            && (outcome.Placed? && outcome.committed ==>
                  var o := NextOccurrence(e.birthMonth, e.birthDay, ctx.today).value;
                  && outcome.created == !HasKey(t.orders, e.id, o.year)
                  && HasKey(t'.orders, e.id, o.year)
                  && t'.orders == t.orders + (if outcome.created then [outcome.order] else [])
                  && t'.events == t.events + (if outcome.created then CreationEvents(outcome.order) else [])
                  && (outcome.created ==> outcome.order.row.birthdayDate == o && SameKey(outcome.order, e.id, o.year)))
            && (!(outcome.Placed? && outcome.committed) ==> t' == t)
  {
    hide Sound, Attempt, PlaceOrder;
    AttemptShape(t, e, ctx, fault);
    if Due(e, ctx) {
      var o := NextOccurrence(e.birthMonth, e.birthDay, ctx.today).value;
      var draft := DraftFor(e, ctx, o);
      PlaceOrderIsIdempotentAndSafe(t, TeamMemberId(e), draft);
    }
  }

  /** A transaction is a placement when the employee is due, and otherwise touches nothing. */
  lemma AttemptShape(t: Tables, e: Employee, ctx: ScanContext, fault: Fault)
    ensures !Due(e, ctx) ==> Attempt(t, e, ctx, fault).0 == t && !Attempt(t, e, ctx, fault).1.Placed?
    ensures Due(e, ctx) ==>
              var draft := DraftFor(e, ctx, NextOccurrence(e.birthMonth, e.birthDay, ctx.today).value);
              var (t', r) := PlaceOrder(t, TeamMemberId(e), draft);
              Attempt(t, e, ctx, fault) ==
                if fault.InMapping? || fault.InLookup? || fault.AfterReference? || r.Raised? || fault.AfterInsert?
                then (t, Failed)
                else if fault.AtCommit? then (t, Placed(r.value.0, r.value.1, false))
                else (t', Placed(r.value.0, r.value.1, true))
  {
    if NextOccurrence(e.birthMonth, e.birthDay, ctx.today).Some? {
      GateIsTheRule(e, ctx.today);
      DraftCarriesVerifyBy(e, ctx, NextOccurrence(e.birthMonth, e.birthDay, ctx.today).value);
    }
    hide NextOccurrence, WithinScanWindow, EligibilityOf, EligibleFor, DraftFor, VerifyBy, PlaceOrder;
  }

  lemma DraftCarriesVerifyBy(e: Employee, ctx: ScanContext, occurrence: CalendarDate)
    ensures DraftFor(e, ctx, occurrence).verifyByDay
            == VerifyBy(occurrence, ctx.supplierFor(e.officeLocation), ctx.config)
  {
  }

  // ------------------------------------------------------------------
  // Conservation over a scan
  // ------------------------------------------------------------------

  /** The outcomes of a scan, in roster order. */
  function Outcomes(t: Tables, roster: seq<Employee>, ctx: ScanContext, fault: nat -> Fault): (os: seq<Outcome>)
    ensures |os| == |roster|
  {
    if roster == [] then []
    else
      var front := roster[..|roster| - 1];
      Outcomes(t, front, ctx, fault)
      + [Attempt(Scan(t, front, ctx, fault).0, roster[|roster| - 1], ctx, fault(|roster| - 1)).1]
  }

  /** How many outcomes were of the kinds the totals do not show one by one. */
  datatype Census = Census(outOfWindow: nat, commitLost: nat, creationLost: nat, oddlyIneligible: nat,
                           needsAttention: nat)

  function Observe(c: Census, o: Outcome): Census {
    match o
    case OutOfWindow => c.(outOfWindow := c.outOfWindow + 1)
    case Ineligible(reason) => if reason == FutureStarter then c else c.(oddlyIneligible := c.oddlyIneligible + 1)
    case Failed => c
    case Placed(order, created, committed) =>
      c.(commitLost := c.commitLost + (if committed then 0 else 1),
         creationLost := c.creationLost + (if created && !committed then 1 else 0),
         needsAttention :=
           c.needsAttention + (if created && order.row.status in {RequiresAttention, OnHold} then 1 else 0))
  }

  function CensusOf(os: seq<Outcome>): Census {
    if os == [] then Census(0, 0, 0, 0, 0) else Observe(CensusOf(os[..|os| - 1]), os[|os| - 1])
  }

  /** The growth of the tables that one transaction's outcome announces. */
  lemma AttemptGrowth(t: Tables, e: Employee, ctx: ScanContext, fault: Fault)
    requires Sound(t)
    ensures var (t', outcome) := Attempt(t, e, ctx, fault);
            && Sound(t')
            && t.orders <= t'.orders && t.events <= t'.events
            && |t'.orders| == |t.orders| + if outcome.Placed? && outcome.created && outcome.committed then 1 else 0
  {
    hide Sound, Attempt, Due, HasKey;
    AttemptIsAllOrNothing(t, e, ctx, fault);
  }

  /**
   * Every scanned employee lands in exactly one tally, and the order table grows
   * by the number reported as created, except that an employee whose closing
   * commit fails is tallied twice: as placed and as an error.
   */
  lemma {:induction false} ScanConservation(t: Tables, roster: seq<Employee>, ctx: ScanContext, fault: nat -> Fault)
    requires Sound(t)
    ensures var (t', n) := Scan(t, roster, ctx, fault);
            var c := CensusOf(Outcomes(t, roster, ctx, fault));
            && Sound(t')
            && n.scanned == |roster|
            && n.scanned + c.commitLost == c.outOfWindow + n.ineligible + n.created + n.existing + |n.errors|
            && |t'.orders| + c.creationLost == |t.orders| + n.created
            && n.exceptions == |n.errors| + c.oddlyIneligible + c.needsAttention
            && t.orders <= t'.orders && t.events <= t'.events
  {
    hide Sound, Attempt;
    if roster == [] {
    } else {
      hide Tally, Observe;
      var front, e, k := roster[..|roster| - 1], roster[|roster| - 1], |roster| - 1;
      ScanConservation(t, front, ctx, fault);
      var (t1, n) := Scan(t, front, ctx, fault);
      AttemptGrowth(t1, e, ctx, fault(k));
      var os := Outcomes(t, roster, ctx, fault);
      assert os[..k] == Outcomes(t, front, ctx, fault);
      OneTallyEach(n, CensusOf(os[..k]), e, os[k]);
    }
  }

  /** One outcome moves both sides of every balance by the same amount. */
  lemma OneTallyEach(n: Totals, c: Census, e: Employee, o: Outcome)
    ensures var (n', c') := (Tally(n, e, o), Observe(c, o));
            && n'.scanned == n.scanned + 1
            && (c'.commitLost - c.commitLost) + 1
            == (c'.outOfWindow - c.outOfWindow) + (n'.ineligible - n.ineligible) + (n'.created - n.created)
               + (n'.existing - n.existing) + (|n'.errors| - |n.errors|)
            && (n'.created - n.created) - (c'.creationLost - c.creationLost)
              == (if o.Placed? && o.created && o.committed then 1 else 0)
            && n'.exceptions - n.exceptions
            == (|n'.errors| - |n.errors|) + (c'.oddlyIneligible - c.oddlyIneligible)
              + (c'.needsAttention - c.needsAttention)
  {
  }

  /** The employee is mapped, has a next birthday, and it lies outside the window. */
  predicate IsOutOfWindow(e: Employee, ctx: ScanContext, fault: Fault) {
    && fault != InMapping
    && NextOccurrence(e.birthMonth, e.birthDay, ctx.today).Some?
    && !WithinScanWindow(DaysBetween(ctx.today, NextOccurrence(e.birthMonth, e.birthDay, ctx.today).value), ctx.config)
  }

  function CountOutOfWindow(roster: seq<Employee>, ctx: ScanContext, fault: nat -> Fault): nat {
    if roster == [] then 0
    else
      CountOutOfWindow(roster[..|roster| - 1], ctx, fault)
      + if IsOutOfWindow(roster[|roster| - 1], ctx, fault(|roster| - 1)) then 1 else 0
  }

  /** The employee is mapped and in the window, and the business rule does not hold. */
  predicate IsIneligible(e: Employee, ctx: ScanContext, fault: Fault) {
    && fault != InMapping
    && NextOccurrence(e.birthMonth, e.birthDay, ctx.today).Some?
    && var o := NextOccurrence(e.birthMonth, e.birthDay, ctx.today).value;
       WithinScanWindow(DaysBetween(ctx.today, o), ctx.config) && !EligibleFor(e, o)
  }

  /** Active, and not yet hired on the occurrence. */
  predicate StartsLater(e: Employee, occurrence: CalendarDate) {
    e.employmentStatus == "Active" && e.hireDate.Some? && Before(occurrence, e.hireDate.value)
  }

  /** Ineligible for a reason worth an exception, that is any but a later start. */
  predicate IsOddlyIneligible(e: Employee, ctx: ScanContext, fault: Fault) {
    && IsIneligible(e, ctx, fault)
    && !StartsLater(e, NextOccurrence(e.birthMonth, e.birthDay, ctx.today).value)
  }

  /** The employee ends in the error list: there is no next birthday to compute, or a fault spoils an order due. */
  predicate Errs(e: Employee, ctx: ScanContext, fault: Fault) {
    || fault == InMapping
    || NextOccurrence(e.birthMonth, e.birthDay, ctx.today) == None
    || var o := NextOccurrence(e.birthMonth, e.birthDay, ctx.today).value;
       && WithinScanWindow(DaysBetween(ctx.today, o), ctx.config)
       && EligibleFor(e, o)
       && (fault != NoFault || VerifyBy(o, ctx.supplierFor(e.officeLocation), ctx.config) == None)
  }

  /** The gate's answer on a next occurrence, reason by reason. */
  lemma GateReasons(e: Employee, today: CalendarDate)
    requires NextOccurrence(e.birthMonth, e.birthDay, today).Some?
    ensures var o := NextOccurrence(e.birthMonth, e.birthDay, today).value;
            var reason := EligibilityOf(e, o);
            && (reason == Eligible <==> EligibleFor(e, o))
            && (reason == InactiveEmployee <==> e.employmentStatus != "Active")
            && (reason == MissingHireDate <==> e.employmentStatus == "Active" && e.hireDate == None)
            && (reason == FutureStarter <==> StartsLater(e, o))
            && (reason == EmploymentEnded
                <==> e.employmentStatus == "Active" && e.hireDate.Some? && !Before(o, e.hireDate.value)
                     && e.terminationDate.Some? && Before(e.terminationDate.value, o))
  {
    NextOccurrenceIsLeast(e.birthMonth, e.birthDay, today);
  }

  /** What the tallies see of one outcome, said of the employee and the fault alone. */
  lemma AttemptSeen(t: Tables, e: Employee, ctx: ScanContext, fault: Fault)
    requires Sound(t)
    ensures var outcome := Attempt(t, e, ctx, fault).1;
            && (outcome.OutOfWindow? <==> IsOutOfWindow(e, ctx, fault))
            && (outcome.Ineligible? <==> IsIneligible(e, ctx, fault))
            && (outcome.Ineligible? && outcome.reason != FutureStarter <==> IsOddlyIneligible(e, ctx, fault))
            && (outcome.Failed? || (outcome.Placed? && !outcome.committed) <==> Errs(e, ctx, fault))
            && (outcome.Placed? && !outcome.committed <==> fault == AtCommit && Due(e, ctx))
  {
    AttemptShape(t, e, ctx, fault);
    if NextOccurrence(e.birthMonth, e.birthDay, ctx.today).Some? { GateReasons(e, ctx.today); }
    hide NextOccurrence, EligibilityOf, EligibleFor, StartsLater, WithinScanWindow, DraftFor, VerifyBy, PlaceOrder,
         Sound;
    if Due(e, ctx) {
      var o := NextOccurrence(e.birthMonth, e.birthDay, ctx.today).value;
      PlaceOrderIsIdempotentAndSafe(t, TeamMemberId(e), DraftFor(e, ctx, o));
    } else if NextOccurrence(e.birthMonth, e.birthDay, ctx.today).Some? {
      DraftCarriesVerifyBy(e, ctx, NextOccurrence(e.birthMonth, e.birthDay, ctx.today).value);
    }
  }

  /** No employee who is due loses the closing commit. */
  predicate NoneLosesTheCommit(roster: seq<Employee>, ctx: ScanContext, fault: nat -> Fault) {
    forall i :: 0 <= i < |roster| && fault(i) == AtCommit ==> !Due(roster[i], ctx)
  }

  lemma {:induction false} CensusFromInputs(t: Tables, roster: seq<Employee>, ctx: ScanContext, fault: nat -> Fault)
    requires Sound(t)
    ensures var c := CensusOf(Outcomes(t, roster, ctx, fault));
            && c.outOfWindow == CountOutOfWindow(roster, ctx, fault)
            && (c.commitLost == 0 <==> NoneLosesTheCommit(roster, ctx, fault))
  {
    hide Sound, Attempt, Due, IsOutOfWindow, Scan, Observe;
    if roster == [] {
      assert CensusOf([]).commitLost == 0;
    } else {
      var front, e, k := roster[..|roster| - 1], roster[|roster| - 1], |roster| - 1;
      CensusFromInputs(t, front, ctx, fault);
      ScanConservation(t, front, ctx, fault);
      AttemptSeen(Scan(t, front, ctx, fault).0, e, ctx, fault(k));
      var os := Outcomes(t, roster, ctx, fault);
      assert os[..k] == Outcomes(t, front, ctx, fault);
      ObservedKinds(CensusOf(os[..k]), os[k]);
      OneMoreCommit(roster, ctx, fault);
    }
  }

  lemma ObservedKinds(c: Census, o: Outcome)
    ensures Observe(c, o).outOfWindow == c.outOfWindow + if o.OutOfWindow? then 1 else 0
    ensures Observe(c, o).commitLost == c.commitLost + if o.Placed? && !o.committed then 1 else 0
  {
  }

  lemma OneMoreCommit(roster: seq<Employee>, ctx: ScanContext, fault: nat -> Fault)
    requires roster != []
    ensures var k := |roster| - 1;
            NoneLosesTheCommit(roster, ctx, fault)
            <==> NoneLosesTheCommit(roster[..k], ctx, fault) && !(fault(k) == AtCommit && Due(roster[k], ctx))
  {
    hide Due;
    var k := |roster| - 1;
    assert forall i :: 0 <= i < k ==> roster[..k][i] == roster[i];
    if NoneLosesTheCommit(roster[..k], ctx, fault) && !(fault(k) == AtCommit && Due(roster[k], ctx)) {
      forall i | 0 <= i < |roster| && fault(i) == AtCommit
        ensures !Due(roster[i], ctx)
      {
        if i < k { assert !Due(roster[..k][i], ctx); }
      }
    }
    if NoneLosesTheCommit(roster, ctx, fault) {
      forall i | 0 <= i < k && fault(i) == AtCommit
        ensures !Due(roster[..k][i], ctx)
      {
        assert !Due(roster[i], ctx);
      }
    }
  }

  function CountIneligible(roster: seq<Employee>, ctx: ScanContext, fault: nat -> Fault): nat {
    if roster == [] then 0
    else
      CountIneligible(roster[..|roster| - 1], ctx, fault)
      + if IsIneligible(roster[|roster| - 1], ctx, fault(|roster| - 1)) then 1 else 0
  }

  function CountOddlyIneligible(roster: seq<Employee>, ctx: ScanContext, fault: nat -> Fault): nat {
    if roster == [] then 0
    else
      CountOddlyIneligible(roster[..|roster| - 1], ctx, fault)
      + if IsOddlyIneligible(roster[|roster| - 1], ctx, fault(|roster| - 1)) then 1 else 0
  }

  function ErringIds(roster: seq<Employee>, ctx: ScanContext, fault: nat -> Fault): seq<string> {
    if roster == [] then []
    else
      ErringIds(roster[..|roster| - 1], ctx, fault)
      + if Errs(roster[|roster| - 1], ctx, fault(|roster| - 1)) then [roster[|roster| - 1].id] else []
  }

  /**
   * The skipped, the odd ones among them and the error list follow from roster,
   * day and faults alone, whatever the tables hold.
   */
  lemma {:induction false} TalliesFromInputs(t: Tables, roster: seq<Employee>, ctx: ScanContext, fault: nat -> Fault)
    requires Sound(t)
    ensures var n := Scan(t, roster, ctx, fault).1;
            && n.ineligible == CountIneligible(roster, ctx, fault)
            && n.errors == ErringIds(roster, ctx, fault)
            && CensusOf(Outcomes(t, roster, ctx, fault)).oddlyIneligible == CountOddlyIneligible(roster, ctx, fault)
  {
    hide Sound, Attempt, Due, IsIneligible, IsOddlyIneligible, Errs;
    if roster == [] {
    } else {
      hide Tally, Observe;
      var front, e, k := roster[..|roster| - 1], roster[|roster| - 1], |roster| - 1;
      TalliesFromInputs(t, front, ctx, fault);
      ScanConservation(t, front, ctx, fault);
      var (t1, n) := Scan(t, front, ctx, fault);
      AttemptSeen(t1, e, ctx, fault(k));
      var os := Outcomes(t, roster, ctx, fault);
      assert os[..k] == Outcomes(t, front, ctx, fault);
      TallyAdds(n, CensusOf(os[..k]), e, os[k]);
    }
  }

  lemma TallyAdds(n: Totals, c: Census, e: Employee, o: Outcome)
    ensures Tally(n, e, o).ineligible == n.ineligible + if o.Ineligible? then 1 else 0
    ensures Tally(n, e, o).errors == n.errors + if o.Failed? || (o.Placed? && !o.committed) then [e.id] else []
    ensures Observe(c, o).oddlyIneligible ==
              c.oddlyIneligible + if o.Ineligible? && o.reason != FutureStarter then 1 else 0
  {
  }

  /**
   * The plain balance of the report's counters, with the employees out of window
   * counted from the roster, holds exactly when no employee who is due loses the
   * closing commit.
   */
  lemma BalanceIffNoCommitIsLost(t: Tables, roster: seq<Employee>, ctx: ScanContext, fault: nat -> Fault)
    requires Sound(t)
    ensures var n := Scan(t, roster, ctx, fault).1;
            n.scanned == CountOutOfWindow(roster, ctx, fault) + n.ineligible + n.created + n.existing + |n.errors|
            <==> NoneLosesTheCommit(roster, ctx, fault)
  {
    hide Sound, Scan, NoneLosesTheCommit;
    ScanConservation(t, roster, ctx, fault);
    CensusFromInputs(t, roster, ctx, fault);
  }

  /** A scan off balance: one due employee whose commit fails is an order created and an error, and leaves no order. */
  lemma LostCommitIsTalliedTwice(e: Employee, ctx: ScanContext)
    requires Due(e, ctx)
    ensures var (t, n) := Scan(EMPTY, [e], ctx, _ => AtCommit);
            && t == EMPTY && n.scanned == 1 && n.created == 1 && n.errors == [e.id]
            && CountOutOfWindow([e], ctx, _ => AtCommit) == 0
  {
    hide Sound, Attempt, PlaceOrder, DraftFor, WithinScanWindow, EligibleFor, VerifyBy;
    var fault: nat -> Fault := _ => AtCommit;
    var o := NextOccurrence(e.birthMonth, e.birthDay, ctx.today).value;
    EmptyIsSound();
    AttemptShape(EMPTY, e, ctx, AtCommit);
    PlaceOrderIsIdempotentAndSafe(EMPTY, TeamMemberId(e), DraftFor(e, ctx, o));
    assert [e][..0] == [];
    assert Scan(EMPTY, [e], ctx, fault) ==
           (Attempt(EMPTY, e, ctx, AtCommit).0,
            Tally(Totals(0, 0, 0, 0, 0, []), e, Attempt(EMPTY, e, ctx, AtCommit).1));
    assert CountOutOfWindow([], ctx, fault) == 0;
  }

  lemma EmptyIsSound()
    ensures Sound(EMPTY)
  {
  }

  /** Such an employee: born on 1 May, scanned on that day. */
  lemma SomeoneIsDue()
    ensures var e := Employee("530", Some("396"), 5, 1, "Office", "", "Active", Some(Date(2020, 1, 6)), None);
            Due(e, ScanContext(Date(2026, 5, 1), Config(7, 3, 0, 30, 2), _ => None))
  {
    assert NextOccurrence(5, 1, Date(2026, 5, 1)) == Some(Date(2026, 5, 1));
  }
}
