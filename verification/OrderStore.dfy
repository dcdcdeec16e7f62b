/**
 * The birthday-order tables, the per-year reference counter, and the
 * savepoint insert that makes order creation idempotent.
 */
module OrderStore {
  import opened Common
  import opened Calendar
  import opened References
  import opened OrderStatuses

  /** The columns a caller supplies for a new order. */
  datatype Draft = Draft(
    employeeId: string,
    employeeNumber: Option<string>,
    reference: string,
    birthdayDate: CalendarDate,
    birthdayYear: nat,
    leadTimeDays: int,
    leadTimeClass: LeadTimeClass,
    status: OrderStatus,
    requiresAdminReview: bool,
    holdReason: Option<string>,
    supplierId: Option<int>,
    catalogueItemId: Option<int>,
    verifyByDay: Option<int>,
    exceptionReason: Option<ExceptionReason>)

  datatype Order = Order(id: nat, row: Draft)

  datatype Event =
    | Detected(orderId: nat, to: OrderStatus)
    | Exception(orderId: nat, to: OrderStatus, detail: Option<string>)

  datatype Tables = Tables(orders: seq<Order>, events: seq<Event>, nextSeq: map<nat, nat>, nextId: nat)

  const EMPTY := Tables([], [], map[], 1)

  datatype StoreError = IntegrityError

  // ------------------------------------------------------------------
  // Specification of the operations
  // ------------------------------------------------------------------

  predicate SameKey(o: Order, employeeId: string, year: nat) {
    o.row.employeeId == employeeId && o.row.birthdayYear == year
  }

  predicate HasKey(orders: seq<Order>, employeeId: string, year: nat) {
    exists i :: 0 <= i < |orders| && SameKey(orders[i], employeeId, year)
  }

  /** The orders of one employee for one year, in table order. */
  function Matching(orders: seq<Order>, employeeId: string, year: nat): seq<Order> {
    if orders == [] then []
    else Matching(orders[..|orders| - 1], employeeId, year)
         + if SameKey(orders[|orders| - 1], employeeId, year) then [orders[|orders| - 1]] else []
  }

  function FindByKey(orders: seq<Order>, employeeId: string, year: nat): (r: Option<Order>)
    ensures r.Some? <==> HasKey(orders, employeeId, year)
    ensures r.Some? ==> r.value in orders && SameKey(r.value, employeeId, year)
  {
    if orders == [] then None
    else if SameKey(orders[0], employeeId, year) then Some(orders[0])
    else
      assert forall i :: 0 < i < |orders| ==> orders[i] == orders[1..][i - 1];
      FindByKey(orders[1..], employeeId, year)
  }

  /** The table's unique constraints: (employee_id, birthday_year) and order_reference. */
  predicate ConstraintsHold(orders: seq<Order>) {
    forall i, j :: 0 <= i < j < |orders| ==>
      && !SameKey(orders[i], orders[j].row.employeeId, orders[j].row.birthdayYear)
      && orders[i].row.reference != orders[j].row.reference
  }

  predicate Clashes(orders: seq<Order>, d: Draft) {
    || HasKey(orders, d.employeeId, d.birthdayYear)
    || exists i :: 0 <= i < |orders| && orders[i].row.reference == d.reference
  }

  function NextNumber(t: Tables, year: nat): nat {
    if year in t.nextSeq then t.nextSeq[year] else 1
  }

  function Reserve(t: Tables, year: nat): Tables {
    t.(nextSeq := t.nextSeq[year := NextNumber(t, year) + 1])
  }

  function CreationEvents(o: Order): seq<Event> {
    [Detected(o.id, o.row.status)]
    + if o.row.status in {RequiresAttention, OnHold} then [Exception(o.id, o.row.status, o.row.holdReason)] else []
  }

  function Inserted(t: Tables, o: Order): Tables {
    t.(orders := t.orders + [o], nextId := o.id + 1, events := t.events + CreationEvents(o))
  }

  function CreateOrGet(t: Tables, d: Draft): (Tables, Result<(Order, bool), StoreError>) {
    if !Clashes(t.orders, d) then (Inserted(t, Order(t.nextId, d)), Ok((Order(t.nextId, d), true)))
    else match FindByKey(t.orders, d.employeeId, d.birthdayYear)
      case Some(existing) => (t, Ok((existing, false)))
      case None => (t, Raised(IntegrityError))
  }

  /** Drawing a reference and inserting with it, as detection and manual creation both do. */
  function PlaceOrder(t: Tables, token: string, d: Draft): (Tables, Result<(Order, bool), StoreError>) {
    CreateOrGet(Reserve(t, d.birthdayYear),
                d.(reference := Print(token, d.birthdayYear, NextNumber(t, d.birthdayYear))))
  }

  // ------------------------------------------------------------------
  // The invariant of every reachable database
  // ------------------------------------------------------------------

  /** The order's reference names its own year and a number the counter has already passed. */
  predicate WellNumbered(t: Tables, o: Order) {
    && Decode(o.row.reference).Some?
    && var c := Decode(o.row.reference).value;
       && c.year == o.row.birthdayYear
       && c.year in t.nextSeq
       && 1 <= c.number < t.nextSeq[c.year]
  }

  function NumberOf(o: Order): nat {
    match Decode(o.row.reference)
    case Some(c) => c.number
    case None => 0
  }

  predicate Sound(t: Tables) {
    && (forall y :: y in t.nextSeq ==> t.nextSeq[y] >= 1)
    && (forall i :: 0 <= i < |t.orders| ==> WellNumbered(t, t.orders[i]) && t.orders[i].id < t.nextId)
    && (forall i, j :: 0 <= i < j < |t.orders| ==>
         && !SameKey(t.orders[i], t.orders[j].row.employeeId, t.orders[j].row.birthdayYear)
         && t.orders[i].id != t.orders[j].id
         && (t.orders[i].row.birthdayYear == t.orders[j].row.birthdayYear ==>
             NumberOf(t.orders[i]) != NumberOf(t.orders[j])))
  }

  /** Per-year numbers are what keeps references unique. */
  lemma SoundImpliesConstraints(t: Tables)
    requires Sound(t)
    ensures ConstraintsHold(t.orders)
  {
    forall i, j | 0 <= i < j < |t.orders|
      ensures t.orders[i].row.reference != t.orders[j].row.reference
    {
      assert WellNumbered(t, t.orders[i]) && WellNumbered(t, t.orders[j]);
    }
  }

  /** The reference about to be printed is on no order, whatever token it carries. */
  lemma DrawnReferenceIsFresh(t: Tables, token: string, year: nat)
    requires Sound(t)
    ensures forall i :: 0 <= i < |t.orders| ==> t.orders[i].row.reference != Print(token, year, NextNumber(t, year))
  {
    forall i | 0 <= i < |t.orders|
      ensures t.orders[i].row.reference != Print(token, year, NextNumber(t, year))
    {
      DecodePrinted(token, year, NextNumber(t, year));
      assert WellNumbered(t, t.orders[i]);
    }
  }

  lemma ReserveKeepsSound(t: Tables, year: nat)
    requires Sound(t)
    ensures Sound(Reserve(t, year))
    ensures Reserve(t, year).orders == t.orders
  {
    forall i | 0 <= i < |t.orders|
      ensures WellNumbered(Reserve(t, year), t.orders[i])
    {
      assert WellNumbered(t, t.orders[i]);
    }
  }

  /**
   * Placing an order on a sound database never re-raises the integrity error:
   * the only conflict there can be is on (employee, year), and then the existing
   * order comes back untouched. A number is spent either way.
   */
  lemma PlaceOrderIsIdempotentAndSafe(t: Tables, token: string, d: Draft)
    requires Sound(t)
    ensures var (t', r) := PlaceOrder(t, token, d);
            && Sound(t')
            && NextNumber(t', d.birthdayYear) == NextNumber(t, d.birthdayYear) + 1
            && (forall y :: y != d.birthdayYear ==> NextNumber(t', y) == NextNumber(t, y))
            && r.Ok?
            && r.value.1 == !HasKey(t.orders, d.employeeId, d.birthdayYear)
            && SameKey(r.value.0, d.employeeId, d.birthdayYear)
            && HasKey(t'.orders, d.employeeId, d.birthdayYear)
            && (!r.value.1 ==> r.value.0 in t.orders && t'.orders == t.orders && t'.events == t.events)
            && (r.value.1 ==>
                r.value.0.row == d.(reference := Print(token, d.birthdayYear, NextNumber(t, d.birthdayYear))))
            && (r.value.1 ==> t'.orders == t.orders + [r.value.0] && t'.events == t.events + CreationEvents(r.value.0))
  {
    var year := d.birthdayYear;
    var reserved, printed := Reserve(t, year), d.(reference := Print(token, year, NextNumber(t, year)));
    DrawnReferenceIsFresh(t, token, year);
    ReserveKeepsSound(t, year);
    if !Clashes(reserved.orders, printed) {
      var o := Order(t.nextId, printed);
      DecodePrinted(token, year, NextNumber(t, year));
      InsertKeepsSound(reserved, o, NextNumber(t, year));
      assert SameKey(Inserted(reserved, o).orders[|t.orders|], d.employeeId, year);
    }
  }

  /** Every year's numbers start at 1. */
  lemma NumbersStartAtOne(year: nat)
    ensures NextNumber(EMPTY, year) == 1
  {
  }

  lemma InsertKeepsSound(t: Tables, o: Order, number: nat)
    requires Sound(t) && WellNumbered(t, o) && o.id == t.nextId
    requires NumberOf(o) == number && t.nextSeq[o.row.birthdayYear] == number + 1
    requires !HasKey(t.orders, o.row.employeeId, o.row.birthdayYear)
    requires forall i :: 0 <= i < |t.orders| && t.orders[i].row.birthdayYear == o.row.birthdayYear ==>
               NumberOf(t.orders[i]) != number
    ensures Sound(Inserted(t, o))
  {
    var t' := Inserted(t, o);
    forall i | 0 <= i < |t'.orders|
      ensures WellNumbered(t', t'.orders[i]) && t'.orders[i].id < t'.nextId
    {
      assert i < |t.orders| ==> WellNumbered(t, t.orders[i]);
    }
    forall i, j | 0 <= i < j < |t'.orders|
      ensures !SameKey(t'.orders[i], t'.orders[j].row.employeeId, t'.orders[j].row.birthdayYear)
      ensures t'.orders[i].id != t'.orders[j].id
      ensures t'.orders[i].row.birthdayYear == t'.orders[j].row.birthdayYear ==>
                NumberOf(t'.orders[i]) != NumberOf(t'.orders[j])
    {
      if j == |t.orders| {
        assert t'.orders[j] == o && t'.orders[i] == t.orders[i];
      } else {
        assert t'.orders[j] == t.orders[j] && t'.orders[i] == t.orders[i];
      }
    }
  }

  lemma {:induction false} MatchingCounts(orders: seq<Order>, employeeId: string, year: nat)
    ensures HasKey(orders, employeeId, year) <==> Matching(orders, employeeId, year) != []
    ensures forall o :: o in Matching(orders, employeeId, year) <==> o in orders && SameKey(o, employeeId, year)
    ensures ConstraintsHold(orders) ==> |Matching(orders, employeeId, year)| <= 1
  {
    if orders == [] {
    } else {
      var front, last := orders[..|orders| - 1], orders[|orders| - 1];
      MatchingCounts(front, employeeId, year);
      assert orders == front + [last];
      assert HasKey(orders, employeeId, year)
             <==> HasKey(front, employeeId, year) || SameKey(last, employeeId, year) by {
        if HasKey(front, employeeId, year) {
          var i :| 0 <= i < |front| && SameKey(front[i], employeeId, year);
          assert SameKey(orders[i], employeeId, year);
        }
        if SameKey(last, employeeId, year) { assert SameKey(orders[|orders| - 1], employeeId, year); }
      }
    }
  }

  // ------------------------------------------------------------------
  // The session: a working copy over the committed tables
  // ------------------------------------------------------------------

  class Session {
    var committed: Tables
    var working: Tables

    predicate Valid()
      reads this
    {
      ConstraintsHold(committed.orders) && ConstraintsHold(working.orders)
    }

    constructor (t: Tables)
      requires ConstraintsHold(t.orders)
      ensures Valid() && committed == working == t
    {
      committed, working := t, t;
    }

    method Commit()
      requires Valid()
      modifies this
      ensures Valid() && committed == working == old(working)
    {
      committed := working;
    }

    method Rollback()
      requires Valid()
      modifies this
      ensures Valid() && committed == working == old(committed)
    {
      working := committed;
    }

    method NextSeqForYear(year: nat) returns (number: nat)
      requires Valid()
      modifies this`working
      ensures Valid()
      ensures number == NextNumber(old(working), year)
      ensures working == Reserve(old(working), year)
    {
      if year !in working.nextSeq {
        working := working.(nextSeq := working.nextSeq[year := 1]);
      }
      number := working.nextSeq[year];
      working := working.(nextSeq := working.nextSeq[year := number + 1]);
      assert working.nextSeq == Reserve(old(working), year).nextSeq;
    }

    method NextOrderReference(teamMemberId: string, year: nat) returns (reference: string)
      requires Valid()
      modifies this`working
      ensures Valid()
      ensures working == Reserve(old(working), year)
      ensures reference == Print(teamMemberId, year, NextNumber(old(working), year))
    {
      var number := NextSeqForYear(year);
      reference := Print(teamMemberId, year, number);
    }

    /** Insert inside a savepoint; on an integrity error unwind it and look the order up. */
    method CreateOrGetOrder(d: Draft) returns (r: Result<(Order, bool), StoreError>)
      requires Valid()
      modifies this`working
      ensures Valid()
      ensures (working, r) == CreateOrGet(old(working), d)
    {
      var order := Order(working.nextId, d);
      var savepoint := working;
      working := working.(orders := working.orders + [order], nextId := order.id + 1);
      ClashMeansViolation(savepoint.orders, order);
      if !ConstraintsHold(working.orders) {
        working := savepoint;
        var existing := FindByKey(working.orders, d.employeeId, d.birthdayYear);
        if existing.None? {
          return Raised(IntegrityError);
        }
        return Ok((existing.value, false));
      }
      WriteEvents(order);
      return Ok((order, true));
    }

    method WriteEvents(order: Order)
      requires Valid()
      modifies this`working
      ensures Valid() && working == old(working).(events := old(working).events + CreationEvents(order))
    {
      working := working.(events := working.events + [Detected(order.id, order.row.status)]);
      if order.row.status in {RequiresAttention, OnHold} {
        working := working.(events := working.events + [Exception(order.id, order.row.status, order.row.holdReason)]);
      }
    }
  }

  /** The constraints refuse a row exactly when it clashes on a key or a reference. */
  lemma ClashMeansViolation(orders: seq<Order>, o: Order)
    requires ConstraintsHold(orders)
    ensures ConstraintsHold(orders + [o]) <==> !Clashes(orders, o.row)
  {
    var all := orders + [o];
    if ConstraintsHold(all) {
      forall i | 0 <= i < |orders|
        ensures !SameKey(orders[i], o.row.employeeId, o.row.birthdayYear) && orders[i].row.reference != o.row.reference
      {
        assert all[i] == orders[i] && all[|orders|] == o;
      }
    }
  }
}
