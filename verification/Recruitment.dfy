/**
 * The Lever reconciliation: postings, candidates and candidacies are upserted
 * from a feed, inside a run whose failure leaves the read model alone.
 */
module Recruitment {
  import opened Common

  // ------------------------------------------------------------------
  // Tables keyed by Lever's own ids
  // ------------------------------------------------------------------

  datatype Row<V> = Row(key: string, value: V)

  /** Rows are only ever appended or overwritten, so a row's position serves as its primary key. */
  type Table<V> = seq<Row<V>>

  /** The first row with the key, or |t| when there is none. */
  function IndexOf<V>(t: Table<V>, key: string): (i: nat)
    ensures i <= |t|
    ensures i < |t| ==> t[i].key == key
    ensures forall k :: 0 <= k < i ==> t[k].key != key
  {
    if t == [] || t[0].key == key then 0
    else
      assert forall k :: 0 < k < |t| ==> t[k] == t[1..][k - 1];
      1 + IndexOf(t[1..], key)
  }

  predicate Has<V>(t: Table<V>, key: string) { IndexOf(t, key) < |t| }

  function Find<V>(t: Table<V>, key: string): Option<V> {
    if Has(t, key) then Some(t[IndexOf(t, key)].value) else None
  }

  function Put<V>(t: Table<V>, key: string, value: V): Table<V> {
    if Has(t, key) then t[IndexOf(t, key) := Row(key, value)] else t + [Row(key, value)]
  }

  predicate Distinct<V(!new)>(t: Table<V>) {
    forall i, k :: 0 <= i < k < |t| ==> t[i].key != t[k].key
  }

  // ------------------------------------------------------------------
  // The read model and the feed
  // ------------------------------------------------------------------

  datatype PostingFacts = PostingFacts(
    title: string, state: string, team: string, department: string, location: string,
    ownerUserId: string, hiringManagerUserId: string, confidentiality: string,
    tags: seq<string>, archived: bool, createdAt: Option<int>, updatedAt: Option<int>)

  datatype Posting = Posting(facts: PostingFacts, lastSynced: int)

  datatype ContactFacts = ContactFacts(fullName: string, email: string, headline: string, tags: seq<string>,
                                       sources: seq<string>)

  datatype Candidate = Candidate(facts: ContactFacts, lastSynced: int)

  datatype Standing = Standing(stage: string, status: string, archiveReason: Option<string>)

  datatype Candidacy = Candidacy(candidateId: nat, postingId: nat, standing: Standing)

  /** `mappings` takes a contact id to the candidate's primary key. */
  datatype Tables = Tables(
    postings: Table<Posting>,
    candidates: Table<Candidate>,
    mappings: Table<nat>,
    candidacies: Table<Candidacy>)

  datatype Failure = MockAgainstRealData | Other(message: string)

  datatype LeverPosting = LeverPosting(id: string, facts: PostingFacts)

  /** `applications` is what listing the opportunity's applications gives: their posting ids, in order. */
  datatype Opportunity = Opportunity(
    id: string,
    contactId: string,
    facts: ContactFacts,
    stageId: string,
    archived: bool,
    archiveReasonId: string,
    applications: Result<seq<Option<string>>, Failure>)

  /** Lever's stage and archive-reason texts, with the mapper onto our own values. */
  datatype Catalog = Catalog(
    stageText: map<string, string>,
    reasonText: map<string, string>,
    stageOf: string -> string,
    outcomeOf: string -> string)

  datatype Feed = Feed(
    mock: bool,
    fixtureIds: set<string>,
    postings: Result<seq<LeverPosting>, Failure>,
    catalog: Result<Catalog, Failure>,
    opportunities: Result<seq<Opportunity>, Failure>)

  const ACTIVE := "ACTIVE"

  // ------------------------------------------------------------------
  // Specification of one reconciliation
  // ------------------------------------------------------------------

  function SyncedPostings(t: Table<Posting>, lps: seq<LeverPosting>, now: int): Table<Posting> {
    if lps == [] then t
    else
      var last := lps[|lps| - 1];
      Put(SyncedPostings(t, lps[..|lps| - 1], now), last.id, Posting(last.facts, now))
  }

  function Pick(text: string, fallback: string): string { if text != "" then text else fallback }

  /** An empty text in the feed keeps the stored one; the lists are always taken. */
  function Overlay(stored: ContactFacts, fed: ContactFacts): ContactFacts {
    ContactFacts(Pick(fed.fullName, stored.fullName), Pick(fed.email, stored.email),
                 Pick(fed.headline, stored.headline),
                 fed.tags, fed.sources)
  }

  const NOBODY := ContactFacts("", "", "", [], [])

  function FactsOf(candidate: Option<Candidate>): ContactFacts {
    if candidate.Some? then candidate.value.facts else NOBODY
  }

  function CandidateFor(db: Tables, opp: Opportunity, now: int): Candidate {
    Candidate(Overlay(FactsOf(Find(db.candidates, opp.contactId)), opp.facts), now)
  }

  function WithCandidate(db: Tables, opp: Opportunity, now: int): Tables {
    var candidates := Put(db.candidates, opp.contactId, CandidateFor(db, opp, now));
    var mappings := if Has(db.candidates, opp.contactId) || Has(db.mappings, opp.contactId) then db.mappings
                    else Put(db.mappings, opp.contactId, |db.candidates|);
    db.(candidates := candidates, mappings := mappings)
  }

  /** The Lever posting of the first application; an empty or absent id names none. */
  function PostingNamed(opp: Opportunity): string {
    if opp.applications.Raised? || opp.applications.value == [] || opp.applications.value[0] == None then ""
    else opp.applications.value[0].value
  }

  predicate IsLinked(postings: Table<Posting>, opp: Opportunity) {
    PostingNamed(opp) != "" && Has(postings, PostingNamed(opp))
  }

  function Text(texts: map<string, string>, id: string): string { if id in texts then texts[id] else "" }

  function StandingOf(cat: Catalog, opp: Opportunity): Standing {
    var reason := Text(cat.reasonText, opp.archiveReasonId);
    if opp.archived && opp.archiveReasonId != ""
    then Standing(cat.stageOf(Text(cat.stageText, opp.stageId)), cat.outcomeOf(reason), Some(reason))
    else Standing(cat.stageOf(Text(cat.stageText, opp.stageId)), ACTIVE, None)
  }

  /** A known candidacy keeps its links. */
  function CandidacyFor(db: Tables, cat: Catalog, opp: Opportunity): Candidacy {
    var known := Find(db.candidacies, opp.id);
    if known.Some? then known.value.(standing := StandingOf(cat, opp))
    else Candidacy(IndexOf(db.candidates, opp.contactId), IndexOf(db.postings, PostingNamed(opp)), StandingOf(cat, opp))
  }

  function WithCandidacy(db: Tables, cat: Catalog, opp: Opportunity): Tables {
    if !IsLinked(db.postings, opp) then db
    else db.(candidacies := Put(db.candidacies, opp.id, CandidacyFor(db, cat, opp)))
  }

  function WithOpportunity(db: Tables, cat: Catalog, opp: Opportunity, now: int): Tables {
    WithCandidacy(WithCandidate(db, opp, now), cat, opp)
  }

  function SyncedOpportunities(db: Tables, cat: Catalog, opps: seq<Opportunity>, now: int): Tables {
    if opps == [] then db
    else WithOpportunity(SyncedOpportunities(db, cat, opps[..|opps| - 1], now), cat, opps[|opps| - 1], now)
  }

  function Unlinked(postings: Table<Posting>, opps: seq<Opportunity>): nat {
    if opps == [] then 0
    else Unlinked(postings, opps[..|opps| - 1]) + if IsLinked(postings, opps[|opps| - 1]) then 0 else 1
  }

  /** The first listing of applications that raises. */
  function ListingFailure(opps: seq<Opportunity>): Option<Failure> {
    if opps == [] then None
    else if ListingFailure(opps[..|opps| - 1]).Some? then ListingFailure(opps[..|opps| - 1])
    else match opps[|opps| - 1].applications
      case Ok(_) => None
      case Raised(e) => Some(e)
  }

  predicate MockGuardTrips(t: Table<Posting>, feed: Feed) {
    feed.mock && exists i :: 0 <= i < |t| && t[i].key !in feed.fixtureIds
  }

  function OpportunityFailure(feed: Feed): Option<Failure> {
    if feed.catalog.Raised? then Some(feed.catalog.error)
    else if feed.opportunities.Raised? then Some(feed.opportunities.error)
    else ListingFailure(feed.opportunities.value)
  }

  /** What makes the reconciliation raise, in the order the calls are made. */
  function FeedFailure(t: Table<Posting>, feed: Feed): Option<Failure> {
    if MockGuardTrips(t, feed) then Some(MockAgainstRealData)
    else if feed.postings.Raised? then Some(feed.postings.error)
    else OpportunityFailure(feed)
  }

  function Reconciled(db: Tables, feed: Feed, now: int): Tables
    requires FeedFailure(db.postings, feed) == None
  {
    SyncedOpportunities(db.(postings := SyncedPostings(db.postings, feed.postings.value, now)),
                        feed.catalog.value, feed.opportunities.value, now)
  }

  // ------------------------------------------------------------------
  // Sync runs
  // ------------------------------------------------------------------

  datatype RunStatus = Queued | Running | Succeeded | Partial | Failed

  datatype Counts = Counts(read: int, created: int, updated: int, untouched: int)

  const ZERO := Counts(0, 0, 0, 0)

  datatype SyncRun = SyncRun(status: RunStatus, counts: Counts, error: Option<Failure>)

  /** `runs` is in the order of requests. */
  datatype Database = Database(runs: Table<SyncRun>, tables: Tables)

  predicate Active(run: SyncRun) { run.status == Queued || run.status == Running }

  /** The active run requested last. */
  function LatestActive(runs: Table<SyncRun>): (i: Option<nat>)
    ensures i.Some? ==> i.value < |runs| && Active(runs[i.value].value)
    ensures i == None <==> forall k :: 0 <= k < |runs| ==> !Active(runs[k].value)
  {
    if runs == [] then None
    else if Active(runs[|runs| - 1].value) then Some(|runs| - 1)
    else LatestActive(runs[..|runs| - 1])
  }

  function Requested(db: Database, newId: string): Database {
    if LatestActive(db.runs).Some? then db
    else db.(runs := db.runs + [Row(newId, SyncRun(Queued, ZERO, None))])
  }

  predicate HasStatus(db: Database, runId: string, status: RunStatus) {
    Has(db.runs, runId) && db.runs[IndexOf(db.runs, runId)].value.status == status
  }

  function Started(db: Database, runId: string): (r: Database)
    requires HasStatus(db, runId, Queued)
    ensures HasStatus(r, runId, Running) && IndexOf(r.runs, runId) == IndexOf(db.runs, runId)
  {
    var run := Find(db.runs, runId).value.(status := Running);
    PutPosition(db.runs, runId, run, runId);
    db.(runs := Put(db.runs, runId, run))
  }

  /** Growth of the tables is what was created; everything else in the feed matched something or was skipped. */
  function CountsOf(before: Tables, after: Tables, feed: Feed): Counts
    requires feed.postings.Ok? && feed.opportunities.Ok?
  {
    var listed, seen := |feed.postings.value|, |feed.opportunities.value|;
    var newPostings := |after.postings| - |before.postings|;
    var newCandidates := |after.candidates| - |before.candidates|;
    var newCandidacies := |after.candidacies| - |before.candidacies|;
    var skipped := Unlinked(after.postings, feed.opportunities.value);
    Counts(listed + seen, newPostings + newCandidates + newCandidacies,
           (listed - newPostings) + (seen - skipped - newCandidacies), (seen - newCandidates) + skipped)
  }

  /** `lostCommit` is what the commit of the reconciled tables raises, if it raises. */
  function Finished(db: Database, runId: string, feed: Feed, now: int, lostCommit: Option<Failure>): Database
    requires HasStatus(db, runId, Running)
  {
    var failure := FeedFailure(db.tables.postings, feed);
    if failure.Some? then db.(runs := Put(db.runs, runId, SyncRun(Failed, ZERO, failure)))
    else if lostCommit.Some? then db.(runs := Put(db.runs, runId, SyncRun(Failed, ZERO, lostCommit)))
    else
      var tables := Reconciled(db.tables, feed, now);
      Database(Put(db.runs, runId, SyncRun(Succeeded, CountsOf(db.tables, tables, feed), None)), tables)
  }

  // ------------------------------------------------------------------
  // The service
  // ------------------------------------------------------------------

  datatype PostingTally = PostingTally(total: int, created: int, updated: int)

  datatype OpportunityTally = OpportunityTally(
    candidatesCreated: int, candidatesMatched: int, candidaciesCreated: int, candidaciesUpdated: int, skipped: int)

  datatype CandidacyChange = Skipped | Created | Updated

  function TallyOf(before: Tables, after: Tables, opps: seq<Opportunity>): OpportunityTally {
    var newCandidates := |after.candidates| - |before.candidates|;
    var newCandidacies := |after.candidacies| - |before.candidacies|;
    var skipped := Unlinked(before.postings, opps);
    OpportunityTally(newCandidates, |opps| - newCandidates, newCandidacies, |opps| - skipped - newCandidacies, skipped)
  }

  lemma IndexIs<V>(t: Table<V>, key: string, i: nat)
    requires i <= |t| && (i < |t| ==> t[i].key == key)
    requires forall k :: 0 <= k < i ==> t[k].key != key
    ensures IndexOf(t, key) == i
  {
    if i < IndexOf(t, key) { assert false; }
  }

  lemma PutPosition<V>(t: Table<V>, key: string, value: V, other: string)
    ensures IndexOf(Put(t, key, value), other) ==
              if Has(t, other) then IndexOf(t, other) else if other == key then |t| else |Put(t, key, value)|
  {
    var i := if Has(t, other) then IndexOf(t, other) else if other == key then |t| else |Put(t, key, value)|;
    IndexIs(Put(t, key, value), other, i);
  }

  lemma KeepsTheRest(db: Tables, opp: Opportunity, now: int)
    ensures WithCandidate(db, opp, now).postings == db.postings
    ensures WithCandidate(db, opp, now).candidacies == db.candidacies
  {
  }

  lemma {:induction false} PostingsStay(db: Tables, cat: Catalog, opps: seq<Opportunity>, now: int)
    ensures SyncedOpportunities(db, cat, opps, now).postings == db.postings
  {
    if opps == [] {
    } else {
      PostingsStay(db, cat, opps[..|opps| - 1], now);
    }
  }

  lemma OnePostingMore(t: Table<Posting>, lps: seq<LeverPosting>, k: nat, now: int)
    requires k < |lps|
    ensures SyncedPostings(t, lps[..k + 1], now) ==
              Put(SyncedPostings(t, lps[..k], now), lps[k].id, Posting(lps[k].facts, now))
  {
    assert lps[..k + 1][..k] == lps[..k];
  }

  lemma OneMore(db: Tables, cat: Catalog, opps: seq<Opportunity>, k: nat, now: int)
    requires k < |opps|
    ensures SyncedOpportunities(db, cat, opps[..k + 1], now) ==
              WithCandidacy(WithCandidate(SyncedOpportunities(db, cat, opps[..k], now), opps[k], now), cat, opps[k])
    ensures Unlinked(db.postings, opps[..k + 1])
            == Unlinked(db.postings, opps[..k]) + (if IsLinked(db.postings, opps[k]) then 0 else 1)
    ensures ListingFailure(opps[..k]) == None ==>
              ListingFailure(opps[..k + 1]) ==
                if opps[k].applications.Ok? then None else Some(opps[k].applications.error)
  {
    assert opps[..k + 1][..k] == opps[..k];
  }

  lemma {:induction false} FailureStays(opps: seq<Opportunity>, k: nat)
    requires k <= |opps| && ListingFailure(opps[..k]).Some?
    ensures ListingFailure(opps) == ListingFailure(opps[..k])
    decreases |opps|
  {
    if k < |opps| {
      assert opps[..|opps| - 1][..k] == opps[..k];
      FailureStays(opps[..|opps| - 1], k);
    } else {
      assert opps[..k] == opps;
    }
  }

  class SyncSession {
    var committed: Database
    var working: Database

    constructor (db: Database)
      ensures committed == db && working == db
    {
      committed, working := db, db;
    }

    method Commit()
      modifies this`committed
      ensures committed == working
    {
      committed := working;
    }

    method Rollback()
      modifies this`working
      ensures working == committed
    {
      working := committed;
    }

    method CountOutside(ids: set<string>) returns (n: nat)
      ensures n > 0 <==> exists i :: 0 <= i < |working.tables.postings| && working.tables.postings[i].key !in ids
    {
      n := 0;
      var rows := working.tables.postings;
      for k := 0 to |rows|
        invariant n > 0 <==> exists i :: 0 <= i < k && rows[i].key !in ids
      {
        if rows[k].key !in ids { n := n + 1; }
      }
    }

    method SyncPostings(feed: Feed, now: int) returns (r: Result<PostingTally, Failure>)
      modifies this`working
      ensures r.Raised? ==> working == old(working) && FeedFailure(working.tables.postings, feed) == Some(r.error)
      ensures r.Ok? ==>
        && !MockGuardTrips(old(working.tables.postings), feed)
        && feed.postings.Ok?
        && var was := old(working.tables);
           var t := SyncedPostings(was.postings, feed.postings.value, now);
           var listed, created := |feed.postings.value|, |t| - |was.postings|;
           && working == old(working).(tables := was.(postings := t))
           && r.value == PostingTally(listed, created, listed - created)
    {
      if feed.mock {
        var realCount := CountOutside(feed.fixtureIds);
        if realCount > 0 { return Raised(MockAgainstRealData); }
      }
      if feed.postings.Raised? { return Raised(feed.postings.error); }
      hide MockGuardTrips;
      var lps := feed.postings.value;
      var created, updated := 0, 0;
      ghost var was := working.tables;
      for k := 0 to |lps|
        invariant working == old(working).(tables := was.(postings := SyncedPostings(was.postings, lps[..k], now)))
        invariant created == |working.tables.postings| - |was.postings|
        invariant created + updated == k
      {
        OnePostingMore(was.postings, lps, k, now);
        hide SyncedPostings;
        var lp := lps[k];
        var t := working.tables.postings;
        var i := IndexOf(t, lp.id);
        if i == |t| {
          working := working.(tables := working.tables.(postings := t + [Row(lp.id, Posting(lp.facts, now))]));
          created := created + 1;
        } else {
          working := working.(tables := working.tables.(postings := t[i := Row(lp.id, Posting(lp.facts, now))]));
          updated := updated + 1;
        }
      }
      assert lps[..|lps|] == lps;
      return Ok(PostingTally(|lps|, created, updated));
    }

    method ResolveCandidate(opp: Opportunity, now: int) returns (candidate: nat, created: bool)
      modifies this`working
      ensures working == old(working).(tables := WithCandidate(old(working.tables), opp, now))
      ensures candidate == IndexOf(working.tables.candidates, opp.contactId) < |working.tables.candidates|
      ensures |working.tables.candidates| == |old(working.tables.candidates)| + (if created then 1 else 0)
    {
      var db := working.tables;
      var i := IndexOf(db.candidates, opp.contactId);
      PutPosition(db.candidates, opp.contactId, CandidateFor(db, opp, now), opp.contactId);
      if i < |db.candidates| {
        var facts := Overlay(db.candidates[i].value.facts, opp.facts);
        working := working.(tables := db.(candidates := db.candidates[i := Row(opp.contactId, Candidate(facts, now))]));
        return i, false;
      }
      var facts := opp.facts;
      working := working.(tables := db.(candidates := db.candidates + [Row(opp.contactId, Candidate(facts, now))]));
      if !Has(db.mappings, opp.contactId) {
        working := working.(tables := working.tables.(mappings := db.mappings + [Row(opp.contactId, i)]));
      }
      return i, true;
    }

    method UpsertCandidacy(cat: Catalog, opp: Opportunity, candidate: nat) returns (change: CandidacyChange)
      requires opp.applications.Ok? && candidate == IndexOf(working.tables.candidates, opp.contactId)
      modifies this`working
      ensures working == old(working).(tables := WithCandidacy(old(working.tables), cat, opp))
      ensures working.tables.postings == old(working.tables.postings)
      ensures working.tables.candidates == old(working.tables.candidates)
      ensures change == Skipped <==> !IsLinked(working.tables.postings, opp)
      ensures |working.tables.candidacies| == |old(working.tables.candidacies)| + (if change == Created then 1 else 0)
    {
      var db := working.tables;
      var apps := opp.applications.value;
      var posting := |db.postings|;
      if |apps| > 0 && apps[0].Some? && apps[0].value != "" {
        posting := IndexOf(db.postings, apps[0].value);
      }
      if posting == |db.postings| { return Skipped; }
      var standing := Standing(cat.stageOf(Text(cat.stageText, opp.stageId)), ACTIVE, None);
      if opp.archived && opp.archiveReasonId != "" {
        var reason := Text(cat.reasonText, opp.archiveReasonId);
        standing := standing.(status := cat.outcomeOf(reason), archiveReason := Some(reason));
      }
      var i := IndexOf(db.candidacies, opp.id);
      if i == |db.candidacies| {
        var row := Row(opp.id, Candidacy(candidate, posting, standing));
        working := working.(tables := db.(candidacies := db.candidacies + [row]));
        return Created;
      }
      var row := db.candidacies[i].value.(standing := standing);
      working := working.(tables := db.(candidacies := db.candidacies[i := Row(opp.id, row)]));
      return Updated;
    }

    method SyncOpportunities(feed: Feed, now: int) returns (r: Result<OpportunityTally, Failure>)
      modifies this`working
      ensures working.runs == old(working.runs)
      ensures r.Raised? ==> OpportunityFailure(feed) == Some(r.error)
      ensures r.Ok? ==>
        && OpportunityFailure(feed) == None
        && var was := old(working.tables);
           var opps := feed.opportunities.value;
           && working.tables == SyncedOpportunities(was, feed.catalog.value, opps, now)
           && r.value == TallyOf(was, working.tables, opps)
    {
      if feed.catalog.Raised? { return Raised(feed.catalog.error); }
      if feed.opportunities.Raised? { return Raised(feed.opportunities.error); }
      var cat, opps := feed.catalog.value, feed.opportunities.value;
      var tally := OpportunityTally(0, 0, 0, 0, 0);
      ghost var was := working.tables;
      for k := 0 to |opps|
        invariant working.runs == old(working.runs) && working.tables.postings == was.postings
        invariant working.tables == SyncedOpportunities(was, cat, opps[..k], now)
        invariant ListingFailure(opps[..k]) == None
        invariant tally.candidatesCreated == |working.tables.candidates| - |was.candidates|
        invariant tally.candidaciesCreated == |working.tables.candidacies| - |was.candidacies|
        invariant tally.skipped == Unlinked(was.postings, opps[..k])
        invariant tally.candidatesCreated + tally.candidatesMatched == k
        invariant tally.candidaciesCreated + tally.candidaciesUpdated + tally.skipped == k
      {
        var opp := opps[k];
        OneMore(was, cat, opps, k, now);
        hide SyncedOpportunities, Unlinked, ListingFailure, WithCandidate, WithCandidacy, IsLinked;
        ghost var before := working.tables;
        var candidate, created := ResolveCandidate(opp, now);
        KeepsTheRest(before, opp, now);
        if created {
          tally := tally.(candidatesCreated := tally.candidatesCreated + 1);
        } else {
          tally := tally.(candidatesMatched := tally.candidatesMatched + 1);
        }
        if opp.applications.Raised? {
          FailureStays(opps, k + 1);
          return Raised(opp.applications.error);
        }
        var change := UpsertCandidacy(cat, opp, candidate);
        match change
        case Skipped => tally := tally.(skipped := tally.skipped + 1);
        case Created => tally := tally.(candidaciesCreated := tally.candidaciesCreated + 1);
        case Updated => tally := tally.(candidaciesUpdated := tally.candidaciesUpdated + 1);
      }
      assert opps[..|opps|] == opps;
      return Ok(tally);
    }

    /** The run already active, or a new one. */
    method RequestSync(newId: string) returns (run: nat, started: bool)
      requires working == committed
      modifies this
      ensures working == committed == Requested(old(committed), newId)
      ensures started <==> LatestActive(old(committed.runs)) == None
      ensures run < |committed.runs| && Active(committed.runs[run].value)
    {
      var existing := LatestActive(working.runs);
      if existing.Some? { return existing.value, false; }
      working := working.(runs := working.runs + [Row(newId, SyncRun(Queued, ZERO, None))]);
      Commit();
      return |working.runs| - 1, true;
    }

    method ExecuteRun(runId: string, feed: Feed, now: int, lostCommit: Option<Failure>)
      requires working == committed
      modifies this
      ensures working == committed
      ensures committed == if HasStatus(old(committed), runId, Queued)
                           then Finished(Started(old(committed), runId), runId, feed, now, lostCommit)
                           else old(committed)
    {
      hide MockGuardTrips, SyncedOpportunities, SyncedPostings, Unlinked;
      var i := IndexOf(working.runs, runId);
      if i == |working.runs| || working.runs[i].value.status != Queued { return; }
      working := working.(runs := working.runs[i := Row(runId, working.runs[i].value.(status := Running))]);
      Commit();
      ghost var started := committed;
      assert started == Started(old(committed), runId);

      var counts := ZERO;
      var error: Option<Failure> := None;
      var p := SyncPostings(feed, now);
      if p.Raised? {
        error := Some(p.error);
      } else {
        var o := SyncOpportunities(feed, now);
        if o.Raised? {
          error := Some(o.error);
        } else if lostCommit.Some? {
          error := lostCommit;
        } else {
          ghost var synced :=
            started.tables.(postings := SyncedPostings(started.tables.postings, feed.postings.value, now));
          PostingsStay(synced, feed.catalog.value, feed.opportunities.value, now);
          Commit();
          counts := Counts(
            p.value.total + o.value.candidatesCreated + o.value.candidatesMatched,
            p.value.created + o.value.candidatesCreated + o.value.candidaciesCreated,
            p.value.updated + o.value.candidaciesUpdated,
            o.value.candidatesMatched + o.value.skipped);
        }
      }
      if error.Some? { Rollback(); }

      var run := SyncRun(if error.Some? then Failed else Succeeded, counts, error);
      working := working.(runs := working.runs[i := Row(runId, run)]);
      Commit();
    }
  }
}
