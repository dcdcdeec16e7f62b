/**
 * The one-off correction of order references that embed the internal employee
 * id instead of the employee number.
 */
module Backfill {
  import opened Common
  import opened OrderStatuses
  import opened OrderStore
  import opened References

  // ------------------------------------------------------------------
  // The decision for one row
  // ------------------------------------------------------------------

  /** The characters Python's `str.strip()` removes. */
  predicate IsSpace(c: char) {
    var n := c as int;
    || 9 <= n <= 13 || 28 <= n <= 32 || n == 0x85 || n == 0xA0 || n == 0x1680
    || 0x2000 <= n <= 0x200A || n == 0x2028 || n == 0x2029 || n == 0x202F || n == 0x205F || n == 0x3000
  }

  function Strip(s: string): string {
    if s != "" && IsSpace(s[0]) then Strip(s[1..])
    else if s != "" && IsSpace(s[|s| - 1]) then Strip(s[..|s| - 1])
    else s
  }

  predicate AllSpace(s: string) { forall i :: 0 <= i < |s| ==> IsSpace(s[i]) }

  predicate Trimmed(s: string) { s == "" || (!IsSpace(s[0]) && !IsSpace(s[|s| - 1])) }

  /** Strip takes the spaces off both ends and nothing else, and what is trimmed stays. */
  lemma {:induction false} StripTrims(s: string)
    ensures Trimmed(Strip(s)) && Strip(Strip(s)) == Strip(s)
    ensures exists a, b :: AllSpace(a) && AllSpace(b) && s == a + Strip(s) + b
    decreases |s|
  {
    hide IsSpace;
    if s != "" && IsSpace(s[0]) {
      StripTrims(s[1..]);
      var a, b :| AllSpace(a) && AllSpace(b) && s[1..] == a + Strip(s) + b;
      assert AllSpace([s[0]] + a) && s == ([s[0]] + a) + Strip(s) + b;
    } else if s != "" && IsSpace(s[|s| - 1]) {
      StripTrims(s[..|s| - 1]);
      var a, b :| AllSpace(a) && AllSpace(b) && s[..|s| - 1] == a + Strip(s) + b;
      assert AllSpace(b + [s[|s| - 1]]) && s == a + Strip(s) + (b + [s[|s| - 1]]);
    } else {
      assert AllSpace("") && s == "" + Strip(s) + "";
    }
  }

  /** The script's own list of progressed statuses: supplier-visible, but not CANCELLED. */
  predicate Progressed(s: OrderStatus) { SupplierVisible(s) && s != Cancelled }

  datatype Verdict =
    | NoTeamMemberId | Unparseable | AlreadyCorrect | TokenNotInternalId
    | Collision | ProgressedSkipped
    | Correct(newRef: string)

  function EmployeeNumber(row: Draft): string {
    Strip(if row.employeeNumber.Some? then row.employeeNumber.value else "")
  }

  /** What the script decides for a row while `refs` are the references in use. */
  function Judge(row: Draft, refs: set<string>, force: bool): Verdict {
    var number, id := EmployeeNumber(row), Strip(row.employeeId);
    if number == "" || number == id then NoTeamMemberId
    else match Parse(row.reference)
      case None => Unparseable
      case Some(p) =>
        if p.token == number then AlreadyCorrect
        else if p.token != id then TokenNotInternalId
        else
          var newRef := Join(number, p.year, p.number);
          if newRef in refs then Collision
          else if Progressed(row.status) && !force then ProgressedSkipped
          else Correct(newRef)
  }

  // ------------------------------------------------------------------
  // The run
  // ------------------------------------------------------------------

  datatype Counts = Counts(
    scanned: nat, alreadyCorrect: nat, noTeamMemberId: nat, unparseable: nat,
    tokenNotInternalId: nat, collision: nat, progressedSkipped: nat)

  datatype Pass = Pass(orders: seq<Order>, refs: set<string>, corrected: seq<(string, string)>, counts: Counts)

  function RefSet(orders: seq<Order>): set<string> {
    set i | 0 <= i < |orders| :: orders[i].row.reference
  }

  function WithReference(o: Order, reference: string): Order {
    o.(row := o.row.(reference := reference))
  }

  function CountVerdict(c: Counts, v: Verdict): Counts {
    var c := c.(scanned := c.scanned + 1);
    match v
    case NoTeamMemberId => c.(noTeamMemberId := c.noTeamMemberId + 1)
    case Unparseable => c.(unparseable := c.unparseable + 1)
    case AlreadyCorrect => c.(alreadyCorrect := c.alreadyCorrect + 1)
    case TokenNotInternalId => c.(tokenNotInternalId := c.tokenNotInternalId + 1)
    case Collision => c.(collision := c.collision + 1)
    case ProgressedSkipped => c.(progressedSkipped := c.progressedSkipped + 1)
    case Correct(_) => c
  }

  function ApplyVerdict(p: Pass, k: nat, v: Verdict, dryRun: bool): (r: Pass)
    requires k < |p.orders|
    ensures |r.orders| == |p.orders|
  {
    var p := p.(counts := CountVerdict(p.counts, v));
    if !v.Correct? then p
    else
      var was := p.orders[k].row.reference;
      var p := p.(corrected := p.corrected + [(was, v.newRef)]);
      if dryRun then p
      else p.(orders := p.orders[k := WithReference(p.orders[k], v.newRef)], refs := p.refs - {was} + {v.newRef})
  }

  /** The state after the first n rows. */
  function Rewritten(orders: seq<Order>, n: nat, dryRun: bool, force: bool): (p: Pass)
    requires n <= |orders|
    ensures |p.orders| == |orders|
  {
    if n == 0 then Pass(orders, RefSet(orders), [], Counts(0, 0, 0, 0, 0, 0, 0))
    else
      var p := Rewritten(orders, n - 1, dryRun, force);
      ApplyVerdict(p, n - 1, Judge(p.orders[n - 1].row, p.refs, force), dryRun)
  }

  /** The script's `run`, over its own fresh session. */
  method Run(db: Session, dryRun: bool, force: bool) returns (corrected: seq<(string, string)>, counts: Counts)
    requires db.Valid() && db.working == db.committed
    modifies db
    ensures db.Valid() && db.working == db.committed
    ensures var p := Rewritten(old(db.committed.orders), |old(db.committed.orders)|, dryRun, force);
            && corrected == p.corrected && counts == p.counts
            && db.committed == if dryRun then old(db.committed) else old(db.committed).(orders := p.orders)
  {
    hide Judge, RefSet;
    ghost var orders := db.working.orders;
    var allRefs := RefSet(db.working.orders);
    corrected, counts := [], Counts(0, 0, 0, 0, 0, 0, 0);
    for k := 0 to |db.working.orders|
      invariant |db.working.orders| == |orders|
      invariant db.Valid() && db.committed == old(db.committed)
      invariant db.working == old(db.working).(orders := db.working.orders)
      invariant Pass(db.working.orders, allRefs, corrected, counts) == Rewritten(orders, k, dryRun, force)
      invariant allRefs == RefSet(db.working.orders)
    {
      var order := db.working.orders[k];
      RefsStayLive(orders, k + 1, dryRun, force);
      var verdict := Judge(order.row, allRefs, force);
      counts := CountVerdict(counts, verdict);
      if verdict.Correct? {
        corrected := corrected + [(order.row.reference, verdict.newRef)];
        if !dryRun {
          db.working := db.working.(orders := db.working.orders[k := WithReference(order, verdict.newRef)]);
          allRefs := allRefs - {order.row.reference} + {verdict.newRef};
        }
      }
    }
    if dryRun { db.Rollback(); } else { db.Commit(); }
  }

  // ------------------------------------------------------------------
  // The live reference set
  // ------------------------------------------------------------------

  lemma SwapReference(orders: seq<Order>, k: nat, newRef: string)
    requires k < |orders| && ConstraintsHold(orders)
    requires newRef !in RefSet(orders)
    ensures var changed := orders[k := WithReference(orders[k], newRef)];
            && RefSet(changed) == RefSet(orders) - {orders[k].row.reference} + {newRef}
            && ConstraintsHold(changed)
  {
    var changed := orders[k := WithReference(orders[k], newRef)];
    assert forall i :: 0 <= i < |orders| ==> orders[i].row.reference in RefSet(orders);
    forall r | r in RefSet(orders) - {orders[k].row.reference} + {newRef}
      ensures r in RefSet(changed)
    {
      if r == newRef {
        assert changed[k].row.reference == r;
      } else {
        var i :| 0 <= i < |orders| && orders[i].row.reference == r;
        assert changed[i].row.reference == r;
      }
    }
  }

  /**
   * At every row `all_refs` is exactly the references now on the table, the
   * unique constraints keep holding, and a dry run changes neither.
   */
  lemma {:induction false} RefsStayLive(orders: seq<Order>, n: nat, dryRun: bool, force: bool)
    requires ConstraintsHold(orders) && n <= |orders|
    ensures var p := Rewritten(orders, n, dryRun, force);
            && p.refs == RefSet(p.orders)
            && ConstraintsHold(p.orders)
            && (dryRun ==> p.orders == orders)
            && forall i :: n <= i < |orders| ==> p.orders[i] == orders[i]
  {
    hide Judge, ApplyVerdict;
    if n == 0 {
    } else {
      hide RefSet, ConstraintsHold, NewReference, Target;
      RefsStayLive(orders, n - 1, dryRun, force);
      var p := Rewritten(orders, n - 1, dryRun, force);
      JudgeByTarget(p.orders[n - 1].row, p.refs, force);
      VerdictKeepsRefsLive(p, n - 1, Judge(p.orders[n - 1].row, p.refs, force), dryRun);
    }
  }

  lemma VerdictKeepsRefsLive(p: Pass, k: nat, v: Verdict, dryRun: bool)
    requires k < |p.orders| && p.refs == RefSet(p.orders) && ConstraintsHold(p.orders)
    requires v.Correct? ==> v.newRef !in p.refs
    ensures var r := ApplyVerdict(p, k, v, dryRun);
            && r.refs == RefSet(r.orders)
            && ConstraintsHold(r.orders)
            && (dryRun ==> r.orders == p.orders)
            && forall i :: 0 <= i < |p.orders| && i != k ==> r.orders[i] == p.orders[i]
  {
    hide RefSet, ConstraintsHold, CountVerdict;
    if v.Correct? { SwapReference(p.orders, k, v.newRef); }
  }

  // ------------------------------------------------------------------
  // Row by row: what the run amounts to on a sound database
  // ------------------------------------------------------------------

  /** The reference a row should have instead of its own, whether or not it may be rewritten. */
  function NewReference(row: Draft): Option<string> {
    match Judge(row, {}, true)
    case Correct(newRef) => Some(newRef)
    case _ => None
  }

  /** The correction a row calls for when it is looked at alone. */
  function Target(row: Draft, force: bool): Option<string> {
    if Progressed(row.status) && !force then None else NewReference(row)
  }

  /** The verdict is the row's own correction, barred first by a taken reference, then by progress. */
  lemma JudgeByTarget(row: Draft, refs: set<string>, force: bool)
    ensures NewReference(row) == None ==> !Judge(row, refs, force).Correct? && !Judge(row, refs, force).Collision?
    ensures NewReference(row).Some? ==>
              Judge(row, refs, force) ==
                if NewReference(row).value in refs then Collision
                else if Target(row, force) == None then ProgressedSkipped
                else Correct(NewReference(row).value)
  {
    hide Parse, Join, Strip;
  }

  /** A correctable row has an employee number of its own, and its reference shows the internal id instead. */
  lemma CorrectableHasNumber(row: Draft)
    ensures NewReference(row).Some?
       <==> && row.employeeNumber.Some? && Strip(row.employeeNumber.value) != ""
            && Strip(row.employeeNumber.value) != Strip(row.employeeId)
            && Parse(row.reference).Some? && Parse(row.reference).value.token == Strip(row.employeeId)
  {
    hide Parse, Join, IsSpace;
    assert Strip("") == "";
    hide Strip;
  }

  function Fixed(o: Order, force: bool): Order {
    match Target(o.row, force)
    case Some(newRef) => WithReference(o, newRef)
    case None => o
  }

  function Correction(row: Draft, force: bool): seq<(string, string)> {
    match Target(row, force)
    case Some(newRef) => [(row.reference, newRef)]
    case None => []
  }

  /** The corrections the first n rows call for, each row looked at alone. */
  function Corrections(orders: seq<Order>, n: nat, force: bool): seq<(string, string)>
    requires n <= |orders|
  {
    if n == 0 then [] else Corrections(orders, n - 1, force) + Correction(orders[n - 1].row, force)
  }

  /** A correction changes the token and nothing else of what the reference says. */
  lemma CorrectionKeepsIdentity(row: Draft)
    requires NewReference(row).Some? && Decode(row.reference).Some?
    ensures var (was, fixed) := (Decode(row.reference).value, Decode(NewReference(row).value));
            && fixed == Some(was.(token := EmployeeNumber(row)))
            && was.token == Strip(row.employeeId) != EmployeeNumber(row)
  {
    hide Parse, Decode, Join, Strip;
    var p := Parse(row.reference).value;
    ParsedIsDecoded(row.reference);
    ReprintParsed(row.reference);
    DecodeJoined(EmployeeNumber(row), p.year, p.number);
  }

  /** A corrected row asks for no further correction. */
  lemma CorrectionIsFinal(o: Order, force: bool)
    ensures Target(Fixed(o, force).row, force) == None
  {
    hide Parse, Strip, Decode;
    if Target(o.row, force).Some? {
      ReprintParsed(o.row.reference);
      var p := Parse(o.row.reference).value;
      var number := EmployeeNumber(o.row);
      var newRef := Join(number, p.year, p.number);
      assert newRef[|newRef| - 1] == p.number[4];
      if Parse(newRef).Some? {
        ReprintParsed(newRef);
        var q := Parse(newRef).value;
        JoinIsInjective(number, p.year, p.number, q.token, q.year, q.number);
      }
    }
  }

  /** With distinct (year, number) the corrected reference is on no row at all. */
  lemma NoCollision(t: Tables, k: nat)
    requires Sound(t) && k < |t.orders|
    requires NewReference(t.orders[k].row).Some?
    ensures NewReference(t.orders[k].row).value !in RefSet(t.orders)
  {
    hide Decode, NewReference, Strip;
    var newRef := NewReference(t.orders[k].row).value;
    assert WellNumbered(t, t.orders[k]);
    CorrectionKeepsIdentity(t.orders[k].row);
    forall j | 0 <= j < |t.orders|
      ensures t.orders[j].row.reference != newRef
    {
      assert WellNumbered(t, t.orders[j]);
      if j != k {
        assert t.orders[j].row.birthdayYear == t.orders[k].row.birthdayYear ==>
                 NumberOf(t.orders[j]) != NumberOf(t.orders[k]);
      }
    }
  }

  lemma FixKeepsSound(t: Tables, k: nat, force: bool)
    requires Sound(t) && k < |t.orders|
    requires Target(t.orders[k].row, force).Some?
    ensures Sound(t.(orders := t.orders[k := Fixed(t.orders[k], force)]))
  {
    hide Strip, Parse, Decode, NewReference;
    assert WellNumbered(t, t.orders[k]);
    CorrectionKeepsIdentity(t.orders[k].row);
    var fixed := Fixed(t.orders[k], force);
    var t' := t.(orders := t.orders[k := fixed]);
    assert NumberOf(fixed) == NumberOf(t.orders[k]) && WellNumbered(t', fixed);
    forall i | 0 <= i < |t'.orders|
      ensures WellNumbered(t', t'.orders[i]) && t'.orders[i].id < t'.nextId
    {
      assert WellNumbered(t, t.orders[i]);
    }
    forall i, j | 0 <= i < j < |t'.orders|
      ensures !SameKey(t'.orders[i], t'.orders[j].row.employeeId, t'.orders[j].row.birthdayYear)
      ensures t'.orders[i].id != t'.orders[j].id
      ensures t'.orders[i].row.birthdayYear == t'.orders[j].row.birthdayYear ==>
                NumberOf(t'.orders[i]) != NumberOf(t'.orders[j])
    {
      assert t.orders[i].id != t.orders[j].id;
    }
  }

  /** One row of the run, on a sound table whose live references are known. */
  lemma RowStep(t: Tables, p: Pass, k: nat, dryRun: bool, force: bool)
    requires k < |p.orders| && Sound(t.(orders := p.orders)) && p.refs == RefSet(p.orders)
    ensures var r := ApplyVerdict(p, k, Judge(p.orders[k].row, p.refs, force), dryRun);
            && r.orders == (if dryRun then p.orders else p.orders[k := Fixed(p.orders[k], force)])
            && Sound(t.(orders := r.orders))
            && r.corrected == p.corrected + Correction(p.orders[k].row, force)
            && r.counts.collision == p.counts.collision
            && r.counts.scanned == p.counts.scanned + 1
  {
    hide Sound, Judge, NewReference, RefSet;
    var t' := t.(orders := p.orders);
    var row := p.orders[k].row;
    JudgeByTarget(row, p.refs, force);
    if NewReference(row).Some? {
      NoCollision(t', k);
    }
    if Target(row, force).Some? {
      FixKeepsSound(t', k, force);
      assert t'.(orders := t'.orders[k := Fixed(t'.orders[k], force)])
             == t.(orders := p.orders[k := Fixed(p.orders[k], force)]);
    } else {
      assert p.orders[k := Fixed(p.orders[k], force)] == p.orders;
    }
  }

  /**
   * On a sound database a run is the row-by-row correction: it meets no
   * collision, lists each row's own correction, a dry run lists the same ones,
   * and the rewritten database is sound with every (year, number) where it was.
   */
  lemma {:induction false} RunIsRowByRow(t: Tables, n: nat, dryRun: bool, force: bool)
    requires Sound(t) && n <= |t.orders|
    ensures var p := Rewritten(t.orders, n, dryRun, force);
            && Sound(t.(orders := p.orders))
            && p.corrected == Corrections(t.orders, n, force)
            && p.counts.collision == 0
            && p.counts.scanned == n
            && (forall i :: 0 <= i < |t.orders| ==>
                 p.orders[i] == if i < n && !dryRun then Fixed(t.orders[i], force) else t.orders[i])
  {
    hide Sound, Judge, Correction, Fixed, ApplyVerdict;
    if n == 0 {
      assert t.(orders := t.orders) == t;
    } else {
      RunIsRowByRow(t, n - 1, dryRun, force);
      SoundImpliesConstraints(t);
      RefsStayLive(t.orders, n - 1, dryRun, force);
      RowStep(t, Rewritten(t.orders, n - 1, dryRun, force), n - 1, dryRun, force);
    }
  }

  /** Identity of every row survives a run: same order, same year and number. */
  lemma RunKeepsYearAndNumber(t: Tables, force: bool, i: nat)
    requires Sound(t) && i < |t.orders|
    ensures var p := Rewritten(t.orders, |t.orders|, false, force);
            && p.orders[i] == WithReference(t.orders[i], p.orders[i].row.reference)
            && Decode(p.orders[i].row.reference).Some?
            && NumberOf(p.orders[i]) == NumberOf(t.orders[i])
            && Decode(p.orders[i].row.reference).value.year == Decode(t.orders[i].row.reference).value.year
  {
    hide Decode, NewReference, Rewritten;
    RunIsRowByRow(t, |t.orders|, false, force);
    assert WellNumbered(t, t.orders[i]);
    if Target(t.orders[i].row, force).Some? {
      CorrectionKeepsIdentity(t.orders[i].row);
    }
  }

  predicate HasNoNumber(row: Draft) {
    EmployeeNumber(row) == "" || EmployeeNumber(row) == Strip(row.employeeId)
  }

  predicate IsUnreadable(row: Draft) { !HasNoNumber(row) && Parse(row.reference) == None }

  predicate ShowsNumber(row: Draft) {
    && !HasNoNumber(row) && Parse(row.reference).Some?
    && Parse(row.reference).value.token == EmployeeNumber(row)
  }

  predicate ShowsSomethingElse(row: Draft) {
    && !HasNoNumber(row) && Parse(row.reference).Some?
    && Parse(row.reference).value.token !in {EmployeeNumber(row), Strip(row.employeeId)}
  }

  function CountWhere(orders: seq<Order>, n: nat, kind: Draft -> bool): nat
    requires n <= |orders|
  {
    if n == 0 then 0 else CountWhere(orders, n - 1, kind) + if kind(orders[n - 1].row) then 1 else 0
  }

  predicate CountersHold(orders: seq<Order>, n: nat, p: Pass)
    requires n <= |orders|
  {
    var c := p.counts;
    && c.scanned == n
    && c.scanned == c.noTeamMemberId + c.unparseable + c.alreadyCorrect + c.tokenNotInternalId
                    + c.collision + c.progressedSkipped + |p.corrected|
    && c.noTeamMemberId == CountWhere(orders, n, HasNoNumber)
    && c.unparseable == CountWhere(orders, n, IsUnreadable)
    && c.alreadyCorrect == CountWhere(orders, n, ShowsNumber)
    && c.tokenNotInternalId == CountWhere(orders, n, ShowsSomethingElse)
  }

  /**
   * The counters of a run: each row is counted once, and the rows without a number
   * of their own, the unreadable, the correct and the foreign ones are counted as
   * the table shows them before the run.
   */
  lemma {:induction false} CountersAre(orders: seq<Order>, n: nat, dryRun: bool, force: bool)
    requires ConstraintsHold(orders) && n <= |orders|
    ensures CountersHold(orders, n, Rewritten(orders, n, dryRun, force))
  {
    if n == 0 {
    } else {
      hide RefSet, ConstraintsHold, Judge, ApplyVerdict, CountersHold;
      CountersAre(orders, n - 1, dryRun, force);
      RefsStayLive(orders, n - 1, dryRun, force);
      var p := Rewritten(orders, n - 1, dryRun, force);
      assert p.orders[n - 1] == orders[n - 1];
      CountersStep(orders, n, p, dryRun, force);
    }
  }

  lemma CountersStep(orders: seq<Order>, n: nat, p: Pass, dryRun: bool, force: bool)
    requires 0 < n <= |orders| && |p.orders| == |orders| && p.orders[n - 1] == orders[n - 1]
    requires CountersHold(orders, n - 1, p)
    ensures CountersHold(orders, n, ApplyVerdict(p, n - 1, Judge(p.orders[n - 1].row, p.refs, force), dryRun))
  {
    hide Judge, HasNoNumber, IsUnreadable, ShowsNumber, ShowsSomethingElse, ApplyVerdict, CountWhere;
    KindsOneMore(orders, n);
    VerdictKinds(orders[n - 1].row, p.refs, force);
    CountedOnce(p, n - 1, Judge(orders[n - 1].row, p.refs, force), dryRun);
  }

  lemma KindsOneMore(orders: seq<Order>, n: nat)
    requires 0 < n <= |orders|
    ensures var row := orders[n - 1].row;
            && CountWhere(orders, n, HasNoNumber) ==
                 CountWhere(orders, n - 1, HasNoNumber) + (if HasNoNumber(row) then 1 else 0)
            && CountWhere(orders, n, IsUnreadable) ==
                 CountWhere(orders, n - 1, IsUnreadable) + (if IsUnreadable(row) then 1 else 0)
            && CountWhere(orders, n, ShowsNumber) ==
                 CountWhere(orders, n - 1, ShowsNumber) + (if ShowsNumber(row) then 1 else 0)
            && CountWhere(orders, n, ShowsSomethingElse) ==
                 CountWhere(orders, n - 1, ShowsSomethingElse) + (if ShowsSomethingElse(row) then 1 else 0)
  {
    hide HasNoNumber, IsUnreadable, ShowsNumber, ShowsSomethingElse;
  }

  lemma CountedOnce(p: Pass, k: nat, v: Verdict, dryRun: bool)
    requires k < |p.orders|
    ensures var r := ApplyVerdict(p, k, v, dryRun);
            var (c, c') := (p.counts, r.counts);
            && c'.scanned == c.scanned + 1
            && c'.noTeamMemberId == c.noTeamMemberId + (if v.NoTeamMemberId? then 1 else 0)
            && c'.unparseable == c.unparseable + (if v.Unparseable? then 1 else 0)
            && c'.alreadyCorrect == c.alreadyCorrect + (if v.AlreadyCorrect? then 1 else 0)
            && c'.tokenNotInternalId == c.tokenNotInternalId + (if v.TokenNotInternalId? then 1 else 0)
            && c'.collision == c.collision + (if v.Collision? then 1 else 0)
            && c'.progressedSkipped == c.progressedSkipped + (if v.ProgressedSkipped? then 1 else 0)
            && |r.corrected| == |p.corrected| + (if v.Correct? then 1 else 0)
  {
  }

  lemma VerdictKinds(row: Draft, refs: set<string>, force: bool)
    ensures var v := Judge(row, refs, force);
            && (v.NoTeamMemberId? <==> HasNoNumber(row))
            && (v.Unparseable? <==> IsUnreadable(row))
            && (v.AlreadyCorrect? <==> ShowsNumber(row))
            && (v.TokenNotInternalId? <==> ShowsSomethingElse(row))
  {
    hide Parse, Strip, Join;
  }

  /**
   * Without force a row the supplier already works with keeps its reference; on a
   * sound table every other correctable row, cancelled ones included, loses it,
   * and with force all do.
   */
  lemma ForceDecides(t: Tables, force: bool, i: nat)
    requires Sound(t) && i < |t.orders| && NewReference(t.orders[i].row).Some?
    ensures var o := t.orders[i];
            var inWork := o.row.status in {SentToSupplier, ChangeRequested, Confirmed, Preparing, OutForDelivery,
                                           Delivered, Completed, UnableToFulfil};
            Rewritten(t.orders, |t.orders|, false, force).orders[i] ==
              if inWork && !force then o else WithReference(o, NewReference(o.row).value)
  {
    RunIsRowByRow(t, |t.orders|, false, force);
    hide Sound, NewReference, Rewritten;
  }

  /** A second run over a corrected sound database corrects nothing. */
  lemma SecondRunCorrectsNothing(t: Tables, force: bool)
    requires Sound(t)
    ensures var once := Rewritten(t.orders, |t.orders|, false, force).orders;
            var again := Rewritten(once, |once|, false, force);
            again.corrected == [] && again.orders == once
  {
    hide Decode, NewReference, Target, Fixed, Rewritten;
    RunIsRowByRow(t, |t.orders|, false, force);
    var t' := t.(orders := Rewritten(t.orders, |t.orders|, false, force).orders);
    RunIsRowByRow(t', |t'.orders|, false, force);
    forall i | 0 <= i < |t'.orders|
      ensures Target(t'.orders[i].row, force) == None
    {
      assert WellNumbered(t, t.orders[i]);
      CorrectionIsFinal(t.orders[i], force);
    }
    NoTargetsNoCorrections(t'.orders, |t'.orders|, force);
    forall i | 0 <= i < |t'.orders|
      ensures Fixed(t'.orders[i], force) == t'.orders[i]
    {
      NoTargetNoChange(t'.orders[i], force);
    }
  }

  lemma NoTargetNoChange(o: Order, force: bool)
    requires Target(o.row, force) == None
    ensures Fixed(o, force) == o
  {
  }

  lemma {:induction false} NoTargetsNoCorrections(orders: seq<Order>, n: nat, force: bool)
    requires n <= |orders|
    requires forall i :: 0 <= i < n ==> Target(orders[i].row, force) == None
    ensures Corrections(orders, n, force) == []
  {
    hide Target;
    if n == 0 {
    } else {
      NoTargetsNoCorrections(orders, n - 1, force);
    }
  }

  // ------------------------------------------------------------------
  // Without distinct (year, number) pairs
  // ------------------------------------------------------------------

  /** Exactly when a run corrects nothing, for any table: no row is correctable as the table stands. */
  lemma {:induction false} CorrectsNothingIff(orders: seq<Order>, n: nat, force: bool)
    requires n <= |orders|
    ensures Rewritten(orders, n, false, force).corrected == []
       <==> forall i :: 0 <= i < n ==> !Judge(orders[i].row, RefSet(orders), force).Correct?
    ensures Rewritten(orders, n, false, force).corrected == [] ==>
              && Rewritten(orders, n, false, force).orders == orders
              && Rewritten(orders, n, false, force).refs == RefSet(orders)
  {
    hide Judge;
    if n == 0 {
    } else {
      CorrectsNothingIff(orders, n - 1, force);
    }
  }

  /** Row i is correctable, and `reference` is what it asks for. */
  predicate Wants(orders: seq<Order>, i: nat, reference: string, force: bool) {
    i < |orders| && Target(orders[i].row, force) == Some(reference)
  }

  /** The row with the reference, or |orders| when there is none. */
  function Holder(orders: seq<Order>, reference: string): (m: nat)
    ensures m <= |orders|
    ensures m < |orders| ==> orders[m].row.reference == reference
    ensures forall k :: 0 <= k < m ==> orders[k].row.reference != reference
  {
    if orders == [] || orders[0].row.reference == reference then 0
    else
      assert forall k :: 0 < k < |orders| ==> orders[k] == orders[1..][k - 1];
      1 + Holder(orders[1..], reference)
  }

  /**
   * Once the first n rows are dealt with no row has the reference, said of the
   * table before the run: none had it and none of the n asks for it, or the row
   * that had it moves and none after that row asks for it.
   */
  predicate FreeAfter(orders: seq<Order>, n: nat, reference: string, force: bool)
    decreases n, 0
  {
    var m := Holder(orders, reference);
    if m == |orders| then forall k :: 0 <= k < n ==> !Wants(orders, k, reference, force)
    else m < n && Moves(orders, m, force) && forall k :: m < k < n ==> !Wants(orders, k, reference, force)
  }

  /** Row j gets the reference it asks for: that reference is free when its turn comes. */
  predicate Moves(orders: seq<Order>, j: nat, force: bool)
    decreases j, 1
  {
    && j < |orders|
    && Target(orders[j].row, force).Some?
    && FreeAfter(orders, j, Target(orders[j].row, force).value, force)
  }

  function MovedRow(orders: seq<Order>, i: nat, force: bool): Order
    requires i < |orders|
  {
    if Moves(orders, i, force) then WithReference(orders[i], Target(orders[i].row, force).value) else orders[i]
  }

  predicate DistinctRefs(orders: seq<Order>) {
    forall i, j :: 0 <= i < j < |orders| ==> orders[i].row.reference != orders[j].row.reference
  }

  /** A correctable row asks for another reference than its own. */
  lemma TargetDiffers(row: Draft, force: bool)
    requires Target(row, force).Some?
    ensures Target(row, force).value != row.reference
  {
    hide Parse, Strip;
    ReprintParsed(row.reference);
    var p := Parse(row.reference).value;
    var number := EmployeeNumber(row);
    var newRef := Join(number, p.year, p.number);
    assert newRef[|newRef| - 1] == p.number[4];
    if newRef == row.reference {
      JoinIsInjective(number, p.year, p.number, p.token, p.year, p.number);
    }
  }

  /** A free or freed reference goes to the first row that asks for it. */
  lemma {:induction false} FirstWantingMoves(orders: seq<Order>, k: nat, wanted: string, force: bool) returns (i: nat)
    requires DistinctRefs(orders) && Wants(orders, k, wanted, force)
    requires var m := Holder(orders, wanted); m == |orders| || (m < k && Moves(orders, m, force))
    ensures i <= k && Wants(orders, i, wanted, force) && Moves(orders, i, force)
    ensures Holder(orders, wanted) < |orders| ==> Holder(orders, wanted) < i
    decreases k
  {
    hide Target;
    var m := Holder(orders, wanted);
    var from := if m == |orders| then 0 else m + 1;
    if j :| from <= j < k && Wants(orders, j, wanted, force) {
      i := FirstWantingMoves(orders, j, wanted, force);
    } else {
      i := k;
    }
  }

  /** `rows` is the table with the moves of the first n rows made. */
  predicate MovedUpTo(orders: seq<Order>, n: nat, rows: seq<Order>, force: bool) {
    && |rows| == |orders|
    && forall k :: 0 <= k < |orders| ==> rows[k] == if k < n then MovedRow(orders, k, force) else orders[k]
  }

  lemma FreeIsUnused(orders: seq<Order>, n: nat, rows: seq<Order>, reference: string, force: bool)
    requires DistinctRefs(orders) && n <= |orders| && MovedUpTo(orders, n, rows, force)
    requires FreeAfter(orders, n, reference, force)
    ensures reference !in RefSet(rows)
  {
    hide Target;
    var m := Holder(orders, reference);
    assert forall k :: 0 <= k < |orders| && orders[k].row.reference == reference ==> k == m;
    forall k | 0 <= k < |rows|
      ensures rows[k].row.reference != reference
    {
      if k < n && Moves(orders, k, force) {
        var wanted := Target(orders[k].row, force).value;
        TargetDiffers(orders[k].row, force);
        assert Wants(orders, k, wanted, force) && FreeAfter(orders, k, wanted, force);
        if wanted == reference { assert false; }
      }
    }
  }

  lemma UnfreeIsInUse(orders: seq<Order>, n: nat, rows: seq<Order>, reference: string, force: bool)
    requires DistinctRefs(orders) && n <= |orders| && MovedUpTo(orders, n, rows, force)
    requires !FreeAfter(orders, n, reference, force)
    ensures reference in RefSet(rows)
  {
    hide Target;
    var m := Holder(orders, reference);
    if m < |orders| && (m >= n || !Moves(orders, m, force)) {
      assert rows[m].row.reference == reference;
    } else {
      var from := if m == |orders| then 0 else m + 1;
      var k :| from <= k < n && Wants(orders, k, reference, force);
      var i := FirstWantingMoves(orders, k, reference, force);
      assert rows[i].row.reference == reference;
    }
  }

  /** The script's verdict on row n is the move that row makes, if any. */
  lemma VerdictIsTheMove(orders: seq<Order>, n: nat, rows: seq<Order>, force: bool)
    requires DistinctRefs(orders) && n < |orders| && MovedUpTo(orders, n, rows, force)
    ensures Judge(orders[n].row, RefSet(rows), force).Correct? <==> Moves(orders, n, force)
    ensures Moves(orders, n, force) ==>
              Judge(orders[n].row, RefSet(rows), force) == Correct(Target(orders[n].row, force).value)
  {
    hide Judge, Target, NewReference, FreeAfter, RefSet, MovedUpTo;
    var row := orders[n].row;
    JudgeByTarget(row, RefSet(rows), force);
    TargetIsNew(row, force);
    if Target(row, force).Some? {
      var wanted := Target(row, force).value;
      if FreeAfter(orders, n, wanted, force) {
        FreeIsUnused(orders, n, rows, wanted, force);
      } else {
        UnfreeIsInUse(orders, n, rows, wanted, force);
      }
    }
  }

  lemma MoveMade(orders: seq<Order>, n: nat, p: Pass, v: Verdict, force: bool)
    requires n < |orders| && MovedUpTo(orders, n, p.orders, force)
    requires v.Correct? <==> Moves(orders, n, force)
    requires Moves(orders, n, force) ==> v == Correct(Target(orders[n].row, force).value)
    ensures MovedUpTo(orders, n + 1, ApplyVerdict(p, n, v, false).orders, force)
  {
    hide Target, Moves;
  }

  /** The first run on any table that respects the constraints: exactly the rows that `Moves` names are rewritten. */
  lemma {:induction false} RunMakesTheMoves(orders: seq<Order>, n: nat, force: bool)
    requires ConstraintsHold(orders) && n <= |orders|
    ensures MovedUpTo(orders, n, Rewritten(orders, n, false, force).orders, force)
  {
    hide Judge, Target, Moves, ApplyVerdict;
    if n == 0 {
      assert Rewritten(orders, 0, false, force).orders == orders;
    } else {
      assert DistinctRefs(orders);
      hide RefSet, MovedUpTo, ConstraintsHold, DistinctRefs;
      RunMakesTheMoves(orders, n - 1, force);
      RefsStayLive(orders, n - 1, false, force);
      var p := Rewritten(orders, n - 1, false, force);
      assert p.orders[n - 1] == orders[n - 1];
      VerdictIsTheMove(orders, n - 1, p.orders, force);
      MoveMade(orders, n - 1, p, Judge(p.orders[n - 1].row, p.refs, force), force);
    }
  }

  lemma TargetIsNew(row: Draft, force: bool)
    ensures Target(row, force).Some? ==> NewReference(row) == Target(row, force)
  {
  }

  /** A row is correctable after the run exactly when it asked for a reference that the run leaves free. */
  lemma CorrectableAgain(orders: seq<Order>, once: seq<Order>, i: nat, force: bool)
    requires DistinctRefs(orders) && MovedUpTo(orders, |orders|, once, force) && i < |orders|
    ensures Judge(once[i].row, RefSet(once), force).Correct?
       <==> Target(orders[i].row, force).Some? && FreeAfter(orders, |orders|, Target(orders[i].row, force).value, force)
  {
    hide Judge, Target, NewReference, FreeAfter;
    JudgeByTarget(once[i].row, RefSet(once), force);
    TargetIsNew(once[i].row, force);
    assert once[i] == MovedRow(orders, i, force);
    if Target(orders[i].row, force).Some? {
      var wanted := Target(orders[i].row, force).value;
      if FreeAfter(orders, |orders|, wanted, force) {
        FreeIsUnused(orders, |orders|, once, wanted, force);
      } else {
        UnfreeIsInUse(orders, |orders|, once, wanted, force);
      }
      if Moves(orders, i, force) { CorrectionIsFinal(orders[i], force); }
    }
  }

  /**
   * When the script is idempotent, for every table that respects the constraints
   * and said of that table: a second run corrects nothing exactly when no row
   * asks for a reference that the first run leaves free.
   */
  lemma SecondRunCorrectsNothingIff(orders: seq<Order>, force: bool)
    requires ConstraintsHold(orders)
    ensures var once := Rewritten(orders, |orders|, false, force).orders;
            Rewritten(once, |once|, false, force).corrected == []
            <==> forall i: nat, r :: Wants(orders, i, r, force) ==> !FreeAfter(orders, |orders|, r, force)
    ensures var once := Rewritten(orders, |orders|, false, force).orders;
            Rewritten(once, |once|, false, force).corrected == []
            <==> forall i: nat, r :: Wants(orders, i, r, force) ==> r in RefSet(once)
  {
    hide Judge, Target, FreeAfter, Rewritten, MovedUpTo, RefSet;
    var once := Rewritten(orders, |orders|, false, force).orders;
    RunMakesTheMoves(orders, |orders|, force);
    CorrectsNothingIff(once, |once|, force);
    forall i: nat, r | Wants(orders, i, r, force)
      ensures FreeAfter(orders, |orders|, r, force) <==> Judge(once[i].row, RefSet(once), force).Correct?
      ensures FreeAfter(orders, |orders|, r, force) <==> r !in RefSet(once)
    {
      CorrectableAgain(orders, once, i, force);
      if FreeAfter(orders, |orders|, r, force) {
        FreeIsUnused(orders, |orders|, once, r, force);
      } else {
        UnfreeIsInUse(orders, |orders|, once, r, force);
      }
    }
    forall i | 0 <= i < |once| && Judge(once[i].row, RefSet(once), force).Correct?
      ensures exists r :: Wants(orders, i, r, force)
    {
      CorrectableAgain(orders, once, i, force);
      assert Wants(orders, i, Target(orders[i].row, force).value, force);
    }
  }

  /** In particular it is when no row asks for the reference of a later row that asks for another. */
  lemma NoForwardWantsIsIdempotent(orders: seq<Order>, force: bool)
    requires ConstraintsHold(orders)
    requires forall i: nat, j: nat, r ::
               i < j < |orders| && Wants(orders, i, orders[j].row.reference, force) ==> !Wants(orders, j, r, force)
    ensures var once := Rewritten(orders, |orders|, false, force).orders;
            Rewritten(once, |once|, false, force).corrected == []
  {
    hide Rewritten, Target, ConstraintsHold;
    SecondRunCorrectsNothingIff(orders, force);
    forall i: nat, r | Wants(orders, i, r, force)
      ensures !FreeAfter(orders, |orders|, r, force)
    {
      var m := Holder(orders, r);
      TargetDiffers(orders[i].row, force);
      assert Moves(orders, m, force) ==> Wants(orders, m, Target(orders[m].row, force).value, force);
    }
  }

  /** Two rows whose references carry the same year and number, under each other's ids. */
  function ExampleRow(o: Order, id: string, number: string): Order {
    o.(row := o.row.(employeeId := id, employeeNumber := Some(number), status := PendingVerification,
                     birthdayYear := 2026, reference := Join(id, "2026", "00001")))
  }

  lemma ExampleRowTarget(o: Order, id: string, number: string)
    requires id != number && number != "" && Strip(id) == id && Strip(number) == number
    requires id != "" && '\n' !in id
    ensures NewReference(ExampleRow(o, id, number).row) == Some(Join(number, "2026", "00001"))
    ensures Join(id, "2026", "00001") != Join(number, "2026", "00001")
  {
    hide Parse, Join;
    ParseJoined(id, "2026", "00001");
    if Join(id, "2026", "00001") == Join(number, "2026", "00001") {
      JoinIsInjective(id, "2026", "00001", number, "2026", "00001");
    }
  }

  /**
   * The idempotence promise fails on a table with two rows of the same year and
   * number: the first run skips row 0 as a collision with row 1's reference,
   * moves row 1 away, and so leaves row 0 for the second run to correct.
   */
  lemma SecondRunCanCorrect(o: Order)
    ensures var rows := [ExampleRow(o, "530", "396"), ExampleRow(o, "396", "7")];
            && ConstraintsHold(rows)
            && Rewritten(rows, 2, false, false).counts.collision == 1
            && Rewritten(Rewritten(rows, 2, false, false).orders, 2, false, false).corrected != []
  {
    hide Judge, NewReference, Join, RefSet;
    var a, b := ExampleRow(o, "530", "396"), ExampleRow(o, "396", "7");
    var ra, rb, rc := a.row.reference, b.row.reference, Join("7", "2026", "00001");
    ExampleRowTarget(o, "530", "396");
    ExampleRowTarget(o, "396", "7");
    if ra == rc { JoinIsInjective("530", "2026", "00001", "7", "2026", "00001"); }
    var rows, once := [a, b], [a, WithReference(b, rc)];
    RefsOfTwo(rows);
    RefsOfTwo(once);
    JudgeByTarget(a.row, RefSet(rows), false);
    JudgeByTarget(b.row, RefSet(rows), false);
    SkipThenCorrect(a, b, rc);
    JudgeByTarget(a.row, RefSet(once), false);
    CorrectsNothingIff(once, 2, false);
    assert Judge(once[0].row, RefSet(once), false).Correct?;
  }

  lemma SkipThenCorrect(a: Order, b: Order, reference: string)
    requires Judge(a.row, RefSet([a, b]), false) == Collision
    requires Judge(b.row, RefSet([a, b]), false) == Correct(reference)
    ensures var pass := Rewritten([a, b], 2, false, false);
            pass.orders == [a, WithReference(b, reference)] && pass.counts.collision == 1
  {
    hide Judge, RefSet;
    var rows := [a, b];
    var start := Rewritten(rows, 0, false, false);
    assert start == Pass(rows, RefSet(rows), [], Counts(0, 0, 0, 0, 0, 0, 0));
    assert Rewritten(rows, 1, false, false) == Pass(rows, RefSet(rows), [], Counts(1, 0, 0, 0, 0, 1, 0));
  }

  lemma RefsOfTwo(rows: seq<Order>)
    requires |rows| == 2
    ensures RefSet(rows) == {rows[0].row.reference, rows[1].row.reference}
  {
    assert rows[0].row.reference in RefSet(rows) && rows[1].row.reference in RefSet(rows);
  }
}
