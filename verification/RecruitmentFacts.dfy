/** What a reconciliation stores of each posting, contact and opportunity, and how its run reports it. */
module RecruitmentFacts {
  import opened Common
  import opened Recruitment
  import opened RecruitmentRuns

  // ------------------------------------------------------------------
  // Candidacies
  // ------------------------------------------------------------------

  /** The opportunity has applications, and the first is for a posting stored here. */
  predicate FirstApplicationIsStored(postings: Table<Posting>, opp: Opportunity) {
    && opp.applications.Ok? && |opp.applications.value| > 0
    && opp.applications.value[0].Some? && opp.applications.value[0].value != ""
    && exists i :: 0 <= i < |postings| && postings[i].key == opp.applications.value[0].value
  }

  lemma LinkedMeans(postings: Table<Posting>, opp: Opportunity)
    ensures IsLinked(postings, opp) <==> FirstApplicationIsStored(postings, opp)
  {
  }

  /** The k-th opportunity is the last one of its id that is linked. */
  predicate LastLinked(postings: Table<Posting>, opps: seq<Opportunity>, k: nat) {
    && k < |opps| && FirstApplicationIsStored(postings, opps[k])
    && forall j :: k < j < |opps| && opps[j].id == opps[k].id ==> !FirstApplicationIsStored(postings, opps[j])
  }

  lemma {:induction false} LastStandingIs(postings: Table<Posting>, cat: Catalog, opps: seq<Opportunity>, k: nat)
    requires LastLinked(postings, opps, k)
    ensures LastStanding(postings, cat, opps, opps[k].id) == Some(StandingOf(cat, opps[k]))
    decreases |opps|
  {
    hide StandingOf, IsLinked, FirstApplicationIsStored;
    var last := opps[|opps| - 1];
    LinkedMeans(postings, last);
    if k == |opps| - 1 {
    } else {
      var front := opps[..|opps| - 1];
      assert front[k] == opps[k] && forall j :: k < j < |front| ==> front[j] == opps[j];
      LastStandingIs(postings, cat, front, k);
    }
  }

  /** What the last linked opportunity of an id says: its stage, and its outcome if it is archived for a reason. */
  predicate StandsAs(standing: Standing, cat: Catalog, opp: Opportunity) {
    && (standing.archiveReason.Some? <==> opp.archived && opp.archiveReasonId != "")
    && (standing.archiveReason.Some? && opp.archiveReasonId in cat.reasonText ==>
          standing.archiveReason.value == cat.reasonText[opp.archiveReasonId])
    && (standing.archiveReason.Some? && opp.archiveReasonId !in cat.reasonText ==> standing.archiveReason.value == "")
    && (standing.archiveReason.Some? ==> standing.status == cat.outcomeOf(standing.archiveReason.value))
    && (standing.archiveReason == None ==> standing.status == "ACTIVE")
    && (opp.stageId in cat.stageText ==> standing.stage == cat.stageOf(cat.stageText[opp.stageId]))
    && (opp.stageId !in cat.stageText ==> standing.stage == cat.stageOf(""))
  }

  /** The stored stage, status and archive reason of a candidacy are those of its last linked opportunity. */
  lemma CandidacyStandsAs(db: Tables, cat: Catalog, opps: seq<Opportunity>, now: int, k: nat)
    requires LastLinked(db.postings, opps, k)
    ensures var row := Find(SyncedOpportunities(db, cat, opps, now).candidacies, opps[k].id);
            row.Some? && StandsAs(row.value.standing, cat, opps[k])
  {
    LastStandingIs(db.postings, cat, opps, k);
    CandidacyAfter(db, cat, opps, now, opps[k].id);
    hide LastStanding, SyncedOpportunities;
  }

  /** An id none of whose opportunities is linked keeps its candidacy, or goes without. */
  lemma UnlinkedKeepsCandidacy(db: Tables, cat: Catalog, opps: seq<Opportunity>, now: int, id: string)
    requires forall k :: 0 <= k < |opps| && opps[k].id == id ==> !FirstApplicationIsStored(db.postings, opps[k])
    ensures Find(SyncedOpportunities(db, cat, opps, now).candidacies, id) == Find(db.candidacies, id)
  {
    NoStanding(db.postings, cat, opps, id);
    CandidacyAfter(db, cat, opps, now, id);
  }

  lemma {:induction false} NoStanding(postings: Table<Posting>, cat: Catalog, opps: seq<Opportunity>, id: string)
    requires forall k :: 0 <= k < |opps| && opps[k].id == id ==> !FirstApplicationIsStored(postings, opps[k])
    ensures LastStanding(postings, cat, opps, id) == None
  {
    hide IsLinked, FirstApplicationIsStored;
    if opps == [] {
    } else {
      LinkedMeans(postings, opps[|opps| - 1]);
      NoStanding(postings, cat, opps[..|opps| - 1], id);
    }
  }

  // ------------------------------------------------------------------
  // Contacts and postings
  // ------------------------------------------------------------------

  datatype TextField = FullName | Email | Headline

  function TextOf(facts: ContactFacts, field: TextField): string {
    match field
    case FullName => facts.fullName
    case Email => facts.email
    case Headline => facts.headline
  }

  /** Each text of a candidate is the last non-empty one the feed has for the contact, else the stored one. */
  lemma LastNonEmptyTextWins(db: Tables, cat: Catalog, opps: seq<Opportunity>, now: int, contact: string,
                             field: TextField, i: int)
    requires -1 <= i < |opps|
    requires i >= 0 ==> opps[i].contactId == contact && TextOf(opps[i].facts, field) != ""
    requires forall k :: i < k < |opps| && opps[k].contactId == contact ==> TextOf(opps[k].facts, field) == ""
    ensures TextOf(FactsOf(Find(SyncedOpportunities(db, cat, opps, now).candidates, contact)), field) ==
              if i >= 0 then TextOf(opps[i].facts, field) else TextOf(FactsOf(Find(db.candidates, contact)), field)
  {
    CandidateAfter(db, cat, opps, now, contact);
    FedText(opps, contact, field, i);
  }

  lemma {:induction false} FedText(opps: seq<Opportunity>, contact: string, field: TextField, i: int)
    requires -1 <= i < |opps|
    requires i >= 0 ==> opps[i].contactId == contact && TextOf(opps[i].facts, field) != ""
    requires forall k :: i < k < |opps| && opps[k].contactId == contact ==> TextOf(opps[k].facts, field) == ""
    ensures var fed := FedContact(opps, contact);
            if i >= 0 then fed.Some? && TextOf(fed.value, field) == TextOf(opps[i].facts, field)
            else fed.Some? ==> TextOf(fed.value, field) == ""
    decreases |opps|
  {
    if i == |opps| - 1 {
    } else {
      FedText(opps[..|opps| - 1], contact, field, i);
    }
  }

  /** One more opportunity writes its own contact's row and no other. */
  lemma CandidateRowOneMore(db: Tables, cat: Catalog, opps: seq<Opportunity>, now: int, contact: string)
    requires opps != []
    ensures var (mid, opp) := (SyncedOpportunities(db, cat, opps[..|opps| - 1], now), opps[|opps| - 1]);
            Find(SyncedOpportunities(db, cat, opps, now).candidates, contact) ==
              if contact == opp.contactId then Some(CandidateFor(mid, opp, now)) else Find(mid.candidates, contact)
  {
    var (mid, opp) := (SyncedOpportunities(db, cat, opps[..|opps| - 1], now), opps[|opps| - 1]);
    PutFinds(mid.candidates, opp.contactId, CandidateFor(mid, opp, now), contact);
  }

  /** Tags and sources are those of the contact's last opportunity, and the row is stamped. */
  lemma {:induction false} LastLabelsWin(db: Tables, cat: Catalog, opps: seq<Opportunity>, now: int, k: nat)
    requires k < |opps| && forall j :: k < j < |opps| ==> opps[j].contactId != opps[k].contactId
    ensures var row := Find(SyncedOpportunities(db, cat, opps, now).candidates, opps[k].contactId);
            && row.Some? && row.value.lastSynced == now
            && row.value.facts.tags == opps[k].facts.tags && row.value.facts.sources == opps[k].facts.sources
    decreases |opps|
  {
    hide SyncedOpportunities;
    CandidateRowOneMore(db, cat, opps, now, opps[k].contactId);
    if k == |opps| - 1 {
    } else {
      LastLabelsWin(db, cat, opps[..|opps| - 1], now, k);
    }
  }

  /** A contact the feed does not have keeps its row as it was. */
  lemma {:induction false} AbsentContactStays(db: Tables, cat: Catalog, opps: seq<Opportunity>, now: int,
                                              contact: string)
    requires forall k :: 0 <= k < |opps| ==> opps[k].contactId != contact
    ensures Find(SyncedOpportunities(db, cat, opps, now).candidates, contact) == Find(db.candidates, contact)
  {
    if opps == [] {
    } else {
      hide SyncedOpportunities;
      CandidateRowOneMore(db, cat, opps, now, contact);
      AbsentContactStays(db, cat, opps[..|opps| - 1], now, contact);
    }
  }

  /**
   * A contact that had neither row nor mapping is mapped to the row it gets; every
   * other mapping stays as it was.
   */
  lemma {:induction false} MappingAfter(db: Tables, cat: Catalog, opps: seq<Opportunity>, now: int, contact: string)
    ensures var db' := SyncedOpportunities(db, cat, opps, now);
            && (Has(db'.candidates, contact) <==> Has(db.candidates, contact) || contact in Contacts(opps))
            && (Has(db.candidates, contact) ==> IndexOf(db'.candidates, contact) == IndexOf(db.candidates, contact))
            && Find(db'.mappings, contact) ==
                 if !Has(db.candidates, contact) && contact in Contacts(opps) && !Has(db.mappings, contact)
                 then Some(IndexOf(db'.candidates, contact))
                 else Find(db.mappings, contact)
  {
    hide Has, IndexOf, WithOpportunity;
    if opps == [] {
      assert SyncedOpportunities(db, cat, opps, now) == db && Contacts(opps) == {};
    } else {
      var front, opp := opps[..|opps| - 1], opps[|opps| - 1];
      MappingAfter(db, cat, front, now, contact);
      assert opps == front + [opp];
      ContactsOneMore(front, opp);
      MappingOneMore(db, cat, opps, now, contact);
    }
  }

  lemma MappingOneMore(db: Tables, cat: Catalog, opps: seq<Opportunity>, now: int, contact: string)
    requires opps != []
    ensures var opp := opps[|opps| - 1];
            var mid := SyncedOpportunities(db, cat, opps[..|opps| - 1], now);
            var db' := SyncedOpportunities(db, cat, opps, now);
            && (Has(db'.candidates, contact) <==> Has(mid.candidates, contact) || contact == opp.contactId)
            && (Has(mid.candidates, contact) ==> IndexOf(db'.candidates, contact) == IndexOf(mid.candidates, contact))
            && Find(db'.mappings, contact) ==
                 if contact == opp.contactId && !Has(mid.candidates, contact) && !Has(mid.mappings, contact)
                 then Some(IndexOf(db'.candidates, contact))
                 else Find(mid.mappings, contact)
  {
    var opp := opps[|opps| - 1];
    var mid := SyncedOpportunities(db, cat, opps[..|opps| - 1], now);
    PutPosition(mid.candidates, opp.contactId, CandidateFor(mid, opp, now), contact);
    PutFinds(mid.mappings, opp.contactId, |mid.candidates|, contact);
    hide CandidateFor;
  }

  /** A posting's facts are those the feed lists last, stamped; a posting the feed does not list is not touched. */
  lemma ListedPostingIs(t: Table<Posting>, lps: seq<LeverPosting>, now: int, id: string)
    ensures var row := Find(SyncedPostings(t, lps, now), id);
            && (id !in PostingIds(lps) ==> row == Find(t, id))
            && (forall k :: 0 <= k < |lps| && lps[k].id == id && (forall j :: k < j < |lps| ==> lps[j].id != id) ==>
                  row == Some(Posting(lps[k].facts, now)))
  {
    PostingAfter(t, lps, now, id);
    hide SyncedPostings, LastFacts;
    NoFacts(lps, id);
    forall k | 0 <= k < |lps| && lps[k].id == id && (forall j :: k < j < |lps| ==> lps[j].id != id)
      ensures LastFacts(lps, id) == Some(lps[k].facts)
    {
      LastFactsAre(lps, k);
    }
  }

  lemma {:induction false} LastFactsAre(lps: seq<LeverPosting>, k: nat)
    requires k < |lps| && forall j :: k < j < |lps| ==> lps[j].id != lps[k].id
    ensures LastFacts(lps, lps[k].id) == Some(lps[k].facts)
    decreases |lps|
  {
    if k == |lps| - 1 {
    } else {
      LastFactsAre(lps[..|lps| - 1], k);
    }
  }

  lemma {:induction false} NoFacts(lps: seq<LeverPosting>, id: string)
    ensures id !in PostingIds(lps) ==> LastFacts(lps, id) == None
  {
    if lps == [] {
    } else {
      NoFacts(lps[..|lps| - 1], id);
      assert lps[|lps| - 1].id in PostingIds(lps);
      assert PostingIds(lps[..|lps| - 1]) <= PostingIds(lps);
    }
  }

  // ------------------------------------------------------------------
  // What a run reports
  // ------------------------------------------------------------------

  lemma {:induction false} ListingFailureIff(opps: seq<Opportunity>)
    ensures ListingFailure(opps) == None <==> forall i :: 0 <= i < |opps| ==> opps[i].applications.Ok?
  {
    if opps == [] {
    } else {
      ListingFailureIff(opps[..|opps| - 1]);
    }
  }

  predicate EveryListingAnswers(feed: Feed)
    requires feed.opportunities.Ok?
  {
    forall i :: 0 <= i < |feed.opportunities.value| ==> feed.opportunities.value[i].applications.Ok?
  }

  /**
   * A run succeeds exactly when the mock guard is satisfied, every listing of the
   * feed answers and the commit holds; otherwise it fails with the tables as they
   * were, and a mock run over real postings names the guard as its error.
   */
  lemma RunSucceedsIff(db: Database, runId: string, feed: Feed, now: int, lostCommit: Option<Failure>)
    requires HasStatus(db, runId, Running)
    ensures var db' := Finished(db, runId, feed, now, lostCommit);
            var mixed := exists i :: 0 <= i < |db.tables.postings| && db.tables.postings[i].key !in feed.fixtureIds;
            var mixes := feed.mock && mixed;
            var answers := feed.postings.Ok? && feed.catalog.Ok? && feed.opportunities.Ok? && EveryListingAnswers(feed);
            && (HasStatus(db', runId, Succeeded) <==> !mixes && answers && lostCommit == None)
            && (HasStatus(db', runId, Failed) <==> mixes || !answers || lostCommit.Some?)
            && (HasStatus(db', runId, Failed) ==> db'.tables == db.tables)
            && (mixes ==> Find(db'.runs, runId).Some? && Find(db'.runs, runId).value.error == Some(MockAgainstRealData))
  {
    FinishedStatus(db, runId, feed, now, lostCommit);
    if feed.opportunities.Ok? { ListingFailureIff(feed.opportunities.value); }
    hide Reconciled, CountsOf, Unlinked, ListingFailure;
    var db' := Finished(db, runId, feed, now, lostCommit);
    if MockGuardTrips(db.tables.postings, feed) {
      PutFinds(db.runs, runId, SyncRun(Failed, ZERO, Some(MockAgainstRealData)), runId);
    }
  }

  function UnlinkedIndices(postings: Table<Posting>, opps: seq<Opportunity>): set<int> {
    set i | 0 <= i < |opps| && !FirstApplicationIsStored(postings, opps[i])
  }

  lemma {:induction false} UnlinkedCounts(postings: Table<Posting>, opps: seq<Opportunity>)
    ensures Unlinked(postings, opps) == |UnlinkedIndices(postings, opps)|
  {
    hide IsLinked, FirstApplicationIsStored;
    if opps == [] {
    } else {
      var front, k := opps[..|opps| - 1], |opps| - 1;
      UnlinkedCounts(postings, front);
      LinkedMeans(postings, opps[k]);
      assert UnlinkedIndices(postings, opps) ==
             UnlinkedIndices(postings, front) + if FirstApplicationIsStored(postings, opps[k]) then {} else {k};
    }
  }

  /**
   * The other two counters: updated are the listed postings and the linked
   * opportunities whose ids were not new, unchanged the opportunities whose
   * contact was not new together with those skipped for want of a posting.
   */
  lemma UpdatedAndUnchanged(db: Tables, feed: Feed, now: int)
    requires Keyed(db) && FeedFailure(db.postings, feed) == None
    ensures var db' := Reconciled(db, feed, now);
            var (lps, opps) := (feed.postings.value, feed.opportunities.value);
            var c := CountsOf(db, db', feed);
            var skipped := |UnlinkedIndices(db'.postings, opps)|;
            && c.updated == (|lps| - |PostingIds(lps) - KeySet(db.postings)|)
                            + (|opps| - skipped - |LinkedIds(db'.postings, opps) - KeySet(db.candidacies)|)
            && c.untouched == (|opps| - |Contacts(opps) - KeySet(db.candidates)|) + skipped
  {
    assert feed.postings.Ok? && feed.opportunities.Ok?;
    hide Reconciled, FeedFailure, Grew, Distinct, Unlinked, UnlinkedIndices, LinkedIds, KeySet, Contacts, PostingIds;
    var db' := Reconciled(db, feed, now);
    OneRowPerId(db, feed, now);
    Growth(db.postings, db'.postings, PostingIds(feed.postings.value));
    Growth(db.candidates, db'.candidates, Contacts(feed.opportunities.value));
    Growth(db.candidacies, db'.candidacies, LinkedIds(db'.postings, feed.opportunities.value));
    UnlinkedCounts(db'.postings, feed.opportunities.value);
  }
}
