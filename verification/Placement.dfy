/** What the order that a scan creates says: its starting status, its cake, its dates and its reference. */
module Placement {
  import opened Common
  import opened Calendar
  import opened OrderStatuses
  import opened OrderStore
  import opened Detection
  import Backfill
  import References

  // ------------------------------------------------------------------
  // The cake
  // ------------------------------------------------------------------

  /** The i-th item is the only active one flagged as the default. */
  predicate SoleActiveDefault(catalogue: seq<CatalogueItem>, i: nat) {
    && i < |catalogue| && catalogue[i].isActive && catalogue[i].isDefault
    && forall k :: 0 <= k < |catalogue| && k != i ==> !(catalogue[k].isActive && catalogue[k].isDefault)
  }

  /** The i-th item is the only active one. */
  predicate SoleActive(catalogue: seq<CatalogueItem>, i: nat) {
    && i < |catalogue| && catalogue[i].isActive
    && forall k :: 0 <= k < |catalogue| && k != i ==> !catalogue[k].isActive
  }

  /** There is no choice of cake left to make: nothing to choose from, one active default, or one active item. */
  predicate CakeSettled(supplier: Supplier) {
    || supplier.catalogue == []
    || (exists i :: 0 <= i < |supplier.catalogue| && SoleActiveDefault(supplier.catalogue, i))
    || (exists i :: 0 <= i < |supplier.catalogue| && SoleActive(supplier.catalogue, i))
  }

  function Picked(items: seq<CatalogueItem>, pick: CatalogueItem -> bool): seq<CatalogueItem> {
    if items == [] then []
    else (if pick(items[0]) then [items[0]] else []) + Picked(items[1..], pick)
  }

  lemma {:induction false} PickedNone(items: seq<CatalogueItem>, pick: CatalogueItem -> bool)
    ensures Picked(items, pick) == [] <==> forall i :: 0 <= i < |items| ==> !pick(items[i])
  {
    if items == [] {
    } else {
      PickedNone(items[1..], pick);
      assert forall i :: 0 < i < |items| ==> items[i] == items[1..][i - 1];
    }
  }

  predicate Sole(items: seq<CatalogueItem>, pick: CatalogueItem -> bool, i: nat) {
    i < |items| && pick(items[i]) && forall k :: 0 <= k < |items| && k != i ==> !pick(items[k])
  }

  /** One item is picked exactly when there is one to pick, and it is that one. */
  lemma {:induction false} PickedOne(items: seq<CatalogueItem>, pick: CatalogueItem -> bool)
    ensures |Picked(items, pick)| == 1 ==> exists i :: 0 <= i < |items| && Sole(items, pick, i)
    ensures forall i :: 0 <= i < |items| && Sole(items, pick, i) ==> Picked(items, pick) == [items[i]]
  {
    if items == [] {
    } else {
      var rest := items[1..];
      assert forall i :: 0 < i < |items| ==> items[i] == rest[i - 1];
      PickedOne(rest, pick);
      PickedNone(rest, pick);
      if |Picked(items, pick)| == 1 {
        if pick(items[0]) {
          assert Sole(items, pick, 0);
        } else {
          var j :| 0 <= j < |rest| && Sole(rest, pick, j);
          assert Sole(items, pick, j + 1);
        }
      }
      forall i | 0 <= i < |items| && Sole(items, pick, i)
        ensures Picked(items, pick) == [items[i]]
      {
        if i > 0 { assert Sole(rest, pick, i - 1); }
      }
    }
  }

  const ACTIVE_ITEM: CatalogueItem -> bool := (item: CatalogueItem) => item.isActive
  const ACTIVE_DEFAULT: CatalogueItem -> bool := (item: CatalogueItem) => item.isActive && item.isDefault

  lemma {:induction false} FiltersPick(items: seq<CatalogueItem>)
    ensures ActiveItems(items) == Picked(items, ACTIVE_ITEM)
    ensures DefaultItems(ActiveItems(items)) == Picked(items, ACTIVE_DEFAULT)
  {
    if items == [] {
    } else {
      FiltersPick(items[1..]);
      var (rest, active) := (ActiveItems(items[1..]), ActiveItems(items));
      assert ACTIVE_DEFAULT(items[0]) == (items[0].isActive && items[0].isDefault);
      assert Picked(items, ACTIVE_DEFAULT) ==
             (if items[0].isActive && items[0].isDefault then [items[0]] else []) + Picked(items[1..], ACTIVE_DEFAULT);
      if items[0].isActive {
        assert active == [items[0]] + rest;
        assert active[0] == items[0] && active[1..] == rest;
        assert DefaultItems(active) == (if items[0].isDefault then [items[0]] else []) + DefaultItems(rest);
      } else {
        assert active == [] + rest;
        assert active == rest;
      }
    }
  }

  /** The default cake is the only active default, or else the only active item; with neither there is none. */
  lemma DefaultCakeIs(supplier: Supplier)
    ensures var (c, item) := (supplier.catalogue, DefaultCatalogueItem(Some(supplier)));
            && (item.Some? || c == [] <==> CakeSettled(supplier))
            && (forall i :: 0 <= i < |c| && SoleActiveDefault(c, i) ==> item == Some(c[i]))
            && (forall i :: 0 <= i < |c| && SoleActive(c, i) ==> item == Some(c[i]))
            && (item.Some? ==> item.value in c && item.value.isActive)
  {
    var c := supplier.catalogue;
    FiltersPick(c);
    PickedOne(c, ACTIVE_ITEM);
    PickedOne(c, ACTIVE_DEFAULT);
    assert forall i :: 0 <= i < |c| ==> Sole(c, ACTIVE_ITEM, i) == SoleActive(c, i);
    assert forall i :: 0 <= i < |c| ==> Sole(c, ACTIVE_DEFAULT, i) == SoleActiveDefault(c, i);
  }

  // ------------------------------------------------------------------
  // The order a transaction creates
  // ------------------------------------------------------------------

  /** The transaction creates an order, committed or not. */
  predicate Creates(t: Tables, e: Employee, ctx: ScanContext, fault: Fault) {
    Attempt(t, e, ctx, fault).1.Placed? && Attempt(t, e, ctx, fault).1.created
  }

  lemma CreatedFromDraft(t: Tables, e: Employee, ctx: ScanContext, fault: Fault)
    requires Sound(t) && Creates(t, e, ctx, fault)
    ensures NextOccurrence(e.birthMonth, e.birthDay, ctx.today).Some?
    ensures var o := NextOccurrence(e.birthMonth, e.birthDay, ctx.today).value;
            && Due(e, ctx)
            && Attempt(t, e, ctx, fault).1.order.row ==
                 DraftFor(e, ctx, o).(reference := References.Print(TeamMemberId(e), o.year, NextNumber(t, o.year)))
  {
    hide Sound, Attempt, PlaceOrder;
    AttemptShape(t, e, ctx, fault);
    var o := NextOccurrence(e.birthMonth, e.birthDay, ctx.today).value;
    PlaceOrderIsIdempotentAndSafe(t, TeamMemberId(e), DraftFor(e, ctx, o));
  }

  /**
   * The starting status of every order a scan creates: to be verified when the
   * employee has an email, a supplier is found, the cake is settled and there is
   * time; on hold when only the time is lacking; and otherwise in need of
   * attention, for the first fact that is missing.
   */
  lemma StartingStatus(t: Tables, e: Employee, ctx: ScanContext, fault: Fault)
    requires Sound(t) && Creates(t, e, ctx, fault)
    ensures NextOccurrence(e.birthMonth, e.birthDay, ctx.today).Some?
    ensures var days := DaysBetween(ctx.today, NextOccurrence(e.birthMonth, e.birthDay, ctx.today).value);
            var supplier := ctx.supplierFor(e.officeLocation);
            var row := Attempt(t, e, ctx, fault).1.order.row;
            var complete := e.workEmail != "" && supplier.Some? && CakeSettled(supplier.value);
            && (row.status == PendingVerification <==> complete && days >= supplier.value.leadTimeDays)
            && (row.status == OnHold <==> complete && days < supplier.value.leadTimeDays)
            && (row.status == RequiresAttention <==> !complete)
            && (row.exceptionReason == Some(MissingEmail) <==> e.workEmail == "")
            && (row.exceptionReason == Some(NoSupplier) <==> e.workEmail != "" && supplier == None)
            && (row.exceptionReason == Some(NoDefaultCake)
                <==> e.workEmail != "" && supplier.Some? && !CakeSettled(supplier.value))
            && (row.exceptionReason == None <==> complete)
            && (row.holdReason.Some? <==> row.status == OnHold)
  {
    CreatedFromDraft(t, e, ctx, fault);
    var supplier := ctx.supplierFor(e.officeLocation);
    if supplier.Some? { DefaultCakeIs(supplier.value); }
    hide Attempt, Sound, CakeSettled, Ordinal, NextOccurrence, DefaultCatalogueItem;
  }

  /** What else the order records of the employee, the day and the supplier. */
  lemma CreatedOrderRecords(t: Tables, e: Employee, ctx: ScanContext, fault: Fault)
    requires Sound(t) && Creates(t, e, ctx, fault)
    ensures NextOccurrence(e.birthMonth, e.birthDay, ctx.today).Some?
    ensures var o := NextOccurrence(e.birthMonth, e.birthDay, ctx.today).value;
            var (days, c) := (DaysBetween(ctx.today, o), ctx.config);
            var supplier := ctx.supplierFor(e.officeLocation);
            var row := Attempt(t, e, ctx, fault).1.order.row;
            && row.employeeId == e.id && row.employeeNumber == e.number
            && row.birthdayDate == o && row.birthdayYear == o.year && row.leadTimeDays == days
            && (row.leadTimeClass == Urgent <==> days <= c.urgentDays)
            && (row.leadTimeClass == Normal <==> days > c.urgentDays && days > c.shortNoticeDays)
            && (row.requiresAdminReview <==> row.status == PendingVerification && row.leadTimeClass != Normal)
            && (row.supplierId.Some? <==> supplier.Some?)
            && (supplier.Some? ==> row.supplierId.value == supplier.value.id)
            && (row.catalogueItemId.Some? <==>
                supplier.Some? && supplier.value.catalogue != [] && CakeSettled(supplier.value))
            && row.verifyByDay.Some?
            && Ordinal(o) - row.verifyByDay.value ==
                 c.verifyBufferDays + if supplier.Some? then supplier.value.leadTimeDays else 0
  {
    CreatedFromDraft(t, e, ctx, fault);
    var supplier := ctx.supplierFor(e.officeLocation);
    if supplier.Some? {
      DefaultCakeIs(supplier.value);
      NoCakeWithoutCatalogue(supplier.value);
    }
    hide Attempt, Sound, CakeSettled, Ordinal, NextOccurrence, DefaultCatalogueItem;
  }

  lemma NoCakeWithoutCatalogue(supplier: Supplier)
    ensures supplier.catalogue == [] ==> DefaultCatalogueItem(Some(supplier)) == None
  {
  }

  /** The cake on the order is the only active default where there is one, else the only active item. */
  lemma CreatedOrderCake(t: Tables, e: Employee, ctx: ScanContext, fault: Fault, supplier: Supplier, i: nat)
    requires Sound(t) && Creates(t, e, ctx, fault) && ctx.supplierFor(e.officeLocation) == Some(supplier)
    requires SoleActiveDefault(supplier.catalogue, i) || SoleActive(supplier.catalogue, i)
    ensures Attempt(t, e, ctx, fault).1.order.row.catalogueItemId == Some(supplier.catalogue[i].id)
  {
    CreatedFromDraft(t, e, ctx, fault);
    DefaultCakeIs(supplier);
    hide Attempt, Sound, DefaultCatalogueItem;
  }

  // ------------------------------------------------------------------
  // The reference
  // ------------------------------------------------------------------

  /** The format by example, past five digits as well. */
  lemma PrintedExamples()
    ensures References.Print("396", 2026, 1) == "BDAY-EMP396-2026-00001"
    ensures References.Print("396", 2026, 123456) == "BDAY-EMP396-2026-123456"
  {
    YearExample();
    NumberExample();
    PaddedExamples();
    hide References.Decimal, References.PadFive;
  }

  lemma YearExample()
    ensures References.Decimal(2026) == "2026"
  {
    assert References.Decimal(202) == "202" by { assert References.Decimal(20) == "20"; }
  }

  lemma NumberExample()
    ensures References.Decimal(123456) == "123456"
  {
    assert References.Decimal(123) == "123" by { assert References.Decimal(12) == "12"; }
    assert References.Decimal(12345) == "12345" by { assert References.Decimal(1234) == "1234"; }
  }

  lemma PaddedExamples()
    ensures References.PadFive(References.Decimal(1)) == "00001"
    ensures References.PadFive("123456") == "123456"
  {
    assert References.Decimal(1) == "1";
    assert "0" + "1" == "01" && "0" + "01" == "001" && "0" + "001" == "0001" && "0" + "0001" == "00001";
    assert References.PadFive("001") == "00001" by { assert References.PadFive("0001") == "00001"; }
  }

  /**
   * The reference carries the employee number where the employee has one, the
   * internal id otherwise, the occurrence's year and the number drawn.
   */
  lemma CreatedReference(t: Tables, e: Employee, ctx: ScanContext, fault: Fault)
    requires Sound(t) && Creates(t, e, ctx, fault)
    ensures NextOccurrence(e.birthMonth, e.birthDay, ctx.today).Some?
    ensures var year := NextOccurrence(e.birthMonth, e.birthDay, ctx.today).value.year;
            var decoded := References.Decode(Attempt(t, e, ctx, fault).1.order.row.reference);
            && decoded.Some?
            && decoded.value.year == year && decoded.value.number == NextNumber(t, year)
            && (e.number.Some? && e.number.value != "" ==> decoded.value.token == e.number.value)
            && (e.number == None || e.number.value == "" ==> decoded.value.token == e.id)
  {
    CreatedFromDraft(t, e, ctx, fault);
    var year := NextOccurrence(e.birthMonth, e.birthDay, ctx.today).value.year;
    References.DecodePrinted(TeamMemberId(e), year, NextNumber(t, year));
    hide Attempt, Sound, NextOccurrence, References.Decode, References.Print;
  }

  /** No order a scan creates is one the backfill would ever correct. */
  lemma CreatedOrdersNeedNoCorrection(t: Tables, e: Employee, ctx: ScanContext, fault: Fault)
    requires Sound(t) && Creates(t, e, ctx, fault)
    ensures Backfill.NewReference(Attempt(t, e, ctx, fault).1.order.row) == None
  {
    CreatedFromDraft(t, e, ctx, fault);
    CreatedReference(t, e, ctx, fault);
    var row := Attempt(t, e, ctx, fault).1.order.row;
    Backfill.StripTrims(row.employeeId);
    Backfill.CorrectableHasNumber(row);
    hide Attempt, Sound, NextOccurrence, References.Decode, References.Print, Backfill.NewReference, Backfill.Strip;
    if Backfill.NewReference(row).Some? { Backfill.CorrectionKeepsIdentity(row); }
  }
}
