/**
 * What a reconciliation does to the read model, and what every interleaving of
 * requested, started and finished runs keeps.
 */
module RecruitmentRuns {
  import opened Common
  import opened Recruitment

  // ------------------------------------------------------------------
  // Tables as maps
  // ------------------------------------------------------------------

  function KeySet<V>(t: Table<V>): set<string> { set i | 0 <= i < |t| :: t[i].key }

  /** The rows of `a` keep their keys and positions in `b`. */
  predicate Extends<V>(a: Table<V>, b: Table<V>) { |a| <= |b| && forall i :: 0 <= i < |a| ==> b[i].key == a[i].key }

  /** `b` is `a` with the given keys added: one row per key, the old rows in their places. */
  predicate Grew<V(!new)>(a: Table<V>, b: Table<V>, keys: set<string>) {
    Distinct(b) && Extends(a, b) && KeySet(b) == KeySet(a) + keys
  }

  lemma HasIffKey<V>(t: Table<V>, key: string)
    ensures Has(t, key) <==> key in KeySet(t)
  {
  }

  lemma PutKeys<V>(t: Table<V>, key: string, value: V)
    ensures KeySet(Put(t, key, value)) == KeySet(t) + {key}
  {
    var t' := Put(t, key, value);
    assert t'[IndexOf(t, key)].key == key;
    forall k | k in KeySet(t)
      ensures k in KeySet(t')
    {
      var i :| 0 <= i < |t| && t[i].key == k;
      assert t'[i].key == k;
    }
  }

  lemma PutGrows<V(!new)>(a: Table<V>, b: Table<V>, keys: set<string>, key: string, value: V)
    requires Grew(a, b, keys)
    ensures Grew(a, Put(b, key, value), keys + {key})
  {
    PutKeys(b, key, value);
    hide KeySet;
  }

  lemma NotGrown<V(!new)>(t: Table<V>)
    requires Distinct(t)
    ensures Grew(t, t, {})
  {
  }

  lemma PutFinds<V>(t: Table<V>, key: string, value: V, other: string)
    ensures Find(Put(t, key, value), other) == if other == key then Some(value) else Find(t, other)
  {
    PutPosition(t, key, value, other);
  }

  lemma {:induction false} DistinctRows<V(!new)>(t: Table<V>)
    requires Distinct(t)
    ensures |KeySet(t)| == |t|
  {
    if t == [] {
    } else {
      var front, last := t[..|t| - 1], t[|t| - 1];
      DistinctRows(front);
      assert t == front + [last];
      assert KeySet(t) == KeySet(front) + {last.key};
      assert last.key !in KeySet(front);
    }
  }

  /** A table that grew by exactly the given keys grew by as many rows as keys were new. */
  lemma Growth<V(!new)>(a: Table<V>, b: Table<V>, keys: set<string>)
    requires Distinct(a) && Grew(a, b, keys)
    ensures |b| - |a| == |keys - KeySet(a)|
  {
    DistinctRows(a);
    DistinctRows(b);
    assert KeySet(b) == KeySet(a) + (keys - KeySet(a));
  }

  // ------------------------------------------------------------------
  // Postings
  // ------------------------------------------------------------------

  function PostingIds(lps: seq<LeverPosting>): set<string> { set i | 0 <= i < |lps| :: lps[i].id }

  /** The last facts the feed gives for a posting. */
  function LastFacts(lps: seq<LeverPosting>, id: string): Option<PostingFacts> {
    if lps == [] then None
    else if lps[|lps| - 1].id == id then Some(lps[|lps| - 1].facts)
    else LastFacts(lps[..|lps| - 1], id)
  }

  lemma PostingIdsOneMore(front: seq<LeverPosting>, lp: LeverPosting)
    ensures PostingIds(front + [lp]) == PostingIds(front) + {lp.id}
  {
    var lps := front + [lp];
    assert lps[|front|] == lp && forall i :: 0 <= i < |front| ==> lps[i] == front[i];
  }

  lemma {:induction false} PostingsAfter(t: Table<Posting>, lps: seq<LeverPosting>, now: int)
    requires Distinct(t)
    ensures Grew(t, SyncedPostings(t, lps, now), PostingIds(lps))
  {
    hide Grew, Distinct, Put;
    if lps == [] {
      assert PostingIds(lps) == {};
      NotGrown(t);
    } else {
      var front, last := lps[..|lps| - 1], lps[|lps| - 1];
      PostingsAfter(t, front, now);
      PutGrows(t, SyncedPostings(t, front, now), PostingIds(front), last.id, Posting(last.facts, now));
      assert lps == front + [last];
      PostingIdsOneMore(front, last);
    }
  }

  lemma {:induction false} PostingAfter(t: Table<Posting>, lps: seq<LeverPosting>, now: int, id: string)
    ensures Find(SyncedPostings(t, lps, now), id) ==
              match LastFacts(lps, id)
              case None => Find(t, id)
              case Some(facts) => Some(Posting(facts, now))
  {
    if lps == [] {
    } else {
      var front, last := lps[..|lps| - 1], lps[|lps| - 1];
      PostingAfter(t, front, now, id);
      PutFinds(SyncedPostings(t, front, now), last.id, Posting(last.facts, now), id);
    }
  }

  // ------------------------------------------------------------------
  // Candidates
  // ------------------------------------------------------------------

  function Contacts(opps: seq<Opportunity>): set<string> { set i | 0 <= i < |opps| :: opps[i].contactId }

  /** What the feed says about a contact: for each text the last opportunity that has one. */
  function FedContact(opps: seq<Opportunity>, contact: string): Option<ContactFacts> {
    if opps == [] then None
    else
      var before := FedContact(opps[..|opps| - 1], contact);
      var last := opps[|opps| - 1];
      if last.contactId != contact then before
      else Some(Overlay(if before.Some? then before.value else NOBODY, last.facts))
  }

  function OverlayFed(stored: ContactFacts, fed: Option<ContactFacts>): ContactFacts {
    if fed.Some? then Overlay(stored, fed.value) else stored
  }

  lemma ContactsOneMore(front: seq<Opportunity>, opp: Opportunity)
    ensures Contacts(front + [opp]) == Contacts(front) + {opp.contactId}
  {
    var opps := front + [opp];
    assert opps[|front|] == opp && forall i :: 0 <= i < |front| ==> opps[i] == front[i];
  }

  lemma {:induction false} CandidatesAfter(db: Tables, cat: Catalog, opps: seq<Opportunity>, now: int)
    requires Distinct(db.candidates)
    ensures Grew(db.candidates, SyncedOpportunities(db, cat, opps, now).candidates, Contacts(opps))
  {
    hide Grew, Distinct, Put, CandidateFor;
    if opps == [] {
      assert Contacts(opps) == {};
      NotGrown(db.candidates);
    } else {
      var front, opp := opps[..|opps| - 1], opps[|opps| - 1];
      CandidatesAfter(db, cat, front, now);
      var mid := SyncedOpportunities(db, cat, front, now);
      assert SyncedOpportunities(db, cat, opps, now).candidates
             == Put(mid.candidates, opp.contactId, CandidateFor(mid, opp, now));
      hide *;
      PutGrows(db.candidates, mid.candidates, Contacts(front), opp.contactId, CandidateFor(mid, opp, now));
      assert opps == front + [opp];
      ContactsOneMore(front, opp);
    }
  }

  lemma {:induction false} CandidateAfter(db: Tables, cat: Catalog, opps: seq<Opportunity>, now: int, contact: string)
    ensures FactsOf(Find(SyncedOpportunities(db, cat, opps, now).candidates, contact)) ==
              OverlayFed(FactsOf(Find(db.candidates, contact)), FedContact(opps, contact))
  {
    if opps == [] {
    } else {
      var front, opp := opps[..|opps| - 1], opps[|opps| - 1];
      CandidateAfter(db, cat, front, now, contact);
      var mid := SyncedOpportunities(db, cat, front, now);
      PutFinds(mid.candidates, opp.contactId, CandidateFor(mid, opp, now), contact);
    }
  }

  // ------------------------------------------------------------------
  // Candidacies and mappings
  // ------------------------------------------------------------------

  function LinkedIds(postings: Table<Posting>, opps: seq<Opportunity>): set<string> {
    set i | 0 <= i < |opps| && IsLinked(postings, opps[i]) :: opps[i].id
  }

  function LastStanding(postings: Table<Posting>, cat: Catalog, opps: seq<Opportunity>, id: string): Option<Standing> {
    if opps == [] then None
    else
      var last := opps[|opps| - 1];
      if last.id == id && IsLinked(postings, last) then Some(StandingOf(cat, last))
      else LastStanding(postings, cat, opps[..|opps| - 1], id)
  }

  lemma LinkedOneMore(postings: Table<Posting>, front: seq<Opportunity>, opp: Opportunity)
    ensures LinkedIds(postings, front + [opp]) ==
              if IsLinked(postings, opp) then LinkedIds(postings, front) + {opp.id} else LinkedIds(postings, front)
  {
    hide IsLinked;
    var opps := front + [opp];
    assert opps[|front|] == opp && forall i :: 0 <= i < |front| ==> opps[i] == front[i];
  }

  lemma {:induction false} CandidaciesAfter(db: Tables, cat: Catalog, opps: seq<Opportunity>, now: int)
    requires Distinct(db.candidacies)
    ensures Grew(db.candidacies, SyncedOpportunities(db, cat, opps, now).candidacies, LinkedIds(db.postings, opps))
  {
    hide Grew, Distinct, Put, CandidacyFor, IsLinked;
    if opps == [] {
      assert LinkedIds(db.postings, opps) == {};
      NotGrown(db.candidacies);
    } else {
      var front, opp := opps[..|opps| - 1], opps[|opps| - 1];
      CandidaciesAfter(db, cat, front, now);
      PostingsStay(db, cat, front, now);
      var mid := WithCandidate(SyncedOpportunities(db, cat, front, now), opp, now);
      assert SyncedOpportunities(db, cat, opps, now).candidacies ==
        if IsLinked(db.postings, opp)
        then Put(mid.candidacies, opp.id, CandidacyFor(mid, cat, opp))
        else mid.candidacies;
      assert mid.candidacies == SyncedOpportunities(db, cat, front, now).candidacies;
      hide *;
      PutGrows(db.candidacies, mid.candidacies, LinkedIds(db.postings, front), opp.id, CandidacyFor(mid, cat, opp));
      assert opps == front + [opp];
      LinkedOneMore(db.postings, front, opp);
    }
  }

  lemma {:induction false} CandidacyAfter(db: Tables, cat: Catalog, opps: seq<Opportunity>, now: int, id: string)
    ensures var was := Find(db.candidacies, id);
            var now' := Find(SyncedOpportunities(db, cat, opps, now).candidacies, id);
            match LastStanding(db.postings, cat, opps, id)
            case None => now' == was
            case Some(s) =>
              && now'.Some? && now'.value.standing == s
              && (was.Some? ==> now'.value == was.value.(standing := s))
  {
    if opps == [] {
    } else {
      hide StandingOf, IsLinked;
      var front, opp := opps[..|opps| - 1], opps[|opps| - 1];
      CandidacyAfter(db, cat, front, now, id);
      PostingsStay(db, cat, front, now);
      var mid := WithCandidate(SyncedOpportunities(db, cat, front, now), opp, now);
      PutFinds(mid.candidacies, opp.id, CandidacyFor(mid, cat, opp), id);
    }
  }

  /** A second candidate row or mapping is never written for a contact that has one. */
  lemma {:induction false} MappingsStay(db: Tables, cat: Catalog, opps: seq<Opportunity>, now: int)
    requires Distinct(db.candidates) && Contacts(opps) <= KeySet(db.candidates)
    ensures SyncedOpportunities(db, cat, opps, now).mappings == db.mappings
  {
    if opps == [] {
    } else {
      var front, opp := opps[..|opps| - 1], opps[|opps| - 1];
      assert opp.contactId in Contacts(opps);
      assert Contacts(front) <= Contacts(opps);
      MappingsStay(db, cat, front, now);
      CandidatesAfter(db, cat, front, now);
      assert opp.contactId in KeySet(SyncedOpportunities(db, cat, front, now).candidates);
      HasIffKey(SyncedOpportunities(db, cat, front, now).candidates, opp.contactId);
    }
  }

  // ------------------------------------------------------------------
  // One reconciliation
  // ------------------------------------------------------------------

  predicate Keyed(db: Tables) {
    Distinct(db.postings) && Distinct(db.candidates) && Distinct(db.candidacies)
  }

  /** One row per Lever id, and exactly the ids stored before or fed now. */
  lemma OneRowPerId(db: Tables, feed: Feed, now: int)
    requires Keyed(db) && FeedFailure(db.postings, feed) == None
    ensures var db' := Reconciled(db, feed, now);
            var opps := feed.opportunities.value;
            && Grew(db.postings, db'.postings, PostingIds(feed.postings.value))
            && Grew(db.candidates, db'.candidates, Contacts(opps))
            && Grew(db.candidacies, db'.candidacies, LinkedIds(db'.postings, opps))
  {
    var cat, opps := feed.catalog.value, feed.opportunities.value;
    var mid := db.(postings := SyncedPostings(db.postings, feed.postings.value, now));
    assert Reconciled(db, feed, now) == SyncedOpportunities(mid, cat, opps, now);
    hide SyncedOpportunities, SyncedPostings, Reconciled, FeedFailure, Grew, Distinct;
    PostingsAfter(db.postings, feed.postings.value, now);
    CandidatesAfter(mid, cat, opps, now);
    CandidaciesAfter(mid, cat, opps, now);
    PostingsStay(mid, cat, opps, now);
  }

  /** `created` counts the ids that were new. */
  lemma CreatedCountsNewIds(db: Tables, feed: Feed, now: int)
    requires Keyed(db) && FeedFailure(db.postings, feed) == None
    ensures var db' := Reconciled(db, feed, now);
            var opps := feed.opportunities.value;
            CountsOf(db, db', feed).created ==
              |PostingIds(feed.postings.value) - KeySet(db.postings)|
              + |Contacts(opps) - KeySet(db.candidates)|
              + |LinkedIds(db'.postings, opps) - KeySet(db.candidacies)|
  {
    assert feed.postings.Ok? && feed.opportunities.Ok?;
    hide Reconciled, FeedFailure, Grew, Distinct, Unlinked, LinkedIds, KeySet, Contacts, PostingIds;
    var db' := Reconciled(db, feed, now);
    OneRowPerId(db, feed, now);
    Growth(db.postings, db'.postings, PostingIds(feed.postings.value));
    Growth(db.candidates, db'.candidates, Contacts(feed.opportunities.value));
    Growth(db.candidacies, db'.candidacies, LinkedIds(db'.postings, feed.opportunities.value));
  }

  /** Every stored link points at a row. */
  predicate LinksHold(db: Tables) {
    && (forall i :: 0 <= i < |db.candidacies| ==>
          db.candidacies[i].value.candidateId < |db.candidates| && db.candidacies[i].value.postingId < |db.postings|)
    && (forall i :: 0 <= i < |db.mappings| ==> db.mappings[i].value < |db.candidates|)
  }

  /** The candidacy an opportunity creates belongs to its contact and to its first application's posting. */
  predicate RightlyLinked(db: Tables, row: Row<Candidacy>, opp: Opportunity) {
    && row.key == opp.id
    && row.value.candidateId < |db.candidates| && db.candidates[row.value.candidateId].key == opp.contactId
    && row.value.postingId < |db.postings| && db.postings[row.value.postingId].key == PostingNamed(opp)
  }

  /** Rows stay where they are, and a candidacy once written never changes its links. */
  predicate LinksKept(db: Tables, db': Tables) {
    && db'.postings == db.postings
    && Extends(db.candidates, db'.candidates)
    && |db.candidacies| <= |db'.candidacies|
    && forall i :: 0 <= i < |db.candidacies| ==>
         && db'.candidacies[i].key == db.candidacies[i].key
         && db'.candidacies[i].value.candidateId == db.candidacies[i].value.candidateId
         && db'.candidacies[i].value.postingId == db.candidacies[i].value.postingId
  }

  lemma CandidateLinks(db: Tables, opp: Opportunity, now: int)
    requires LinksHold(db)
    ensures var db' := WithCandidate(db, opp, now);
            && LinksHold(db') && LinksKept(db, db')
            && db'.candidacies == db.candidacies && Has(db'.candidates, opp.contactId)
  {
    hide CandidateFor;
    PutPosition(db.candidates, opp.contactId, CandidateFor(db, opp, now), opp.contactId);
  }

  lemma CandidacyLinks(db: Tables, cat: Catalog, opp: Opportunity)
    requires LinksHold(db) && Has(db.candidates, opp.contactId)
    ensures var db' := WithCandidacy(db, cat, opp);
            && LinksHold(db') && LinksKept(db, db')
            && forall i :: |db.candidacies| <= i < |db'.candidacies| ==> RightlyLinked(db', db'.candidacies[i], opp)
  {
    hide StandingOf;
  }

  predicate CreatedByOne(db: Tables, row: Row<Candidacy>, opps: seq<Opportunity>) {
    exists k :: 0 <= k < |opps| && RightlyLinked(db, row, opps[k])
  }

  predicate NewOnesCreated(db: Tables, db': Tables, opps: seq<Opportunity>) {
    forall i :: |db.candidacies| <= i < |db'.candidacies| ==> CreatedByOne(db', db'.candidacies[i], opps)
  }

  lemma StillCreatedByOne(db: Tables, db': Tables, i: nat, opps: seq<Opportunity>, opp: Opportunity)
    requires LinksKept(db, db') && i < |db.candidacies| && CreatedByOne(db, db.candidacies[i], opps)
    ensures CreatedByOne(db', db'.candidacies[i], opps + [opp])
  {
    var k :| 0 <= k < |opps| && RightlyLinked(db, db.candidacies[i], opps[k]);
    assert RightlyLinked(db', db'.candidacies[i], (opps + [opp])[k]);
  }

  lemma KeptTwice(a: Tables, b: Tables, c: Tables)
    requires LinksKept(a, b) && LinksKept(b, c)
    ensures LinksKept(a, c)
  {
  }

  lemma LinkedStep(db: Tables, was: Tables, cat: Catalog, front: seq<Opportunity>, opp: Opportunity, now: int)
    requires LinksHold(was) && LinksKept(db, was)
    requires NewOnesCreated(db, was, front)
    ensures var db' := WithCandidacy(WithCandidate(was, opp, now), cat, opp);
            LinksHold(db') && LinksKept(db, db') && NewOnesCreated(db, db', front + [opp])
  {
    hide LinksHold, LinksKept, WithCandidate, WithCandidacy, RightlyLinked, CreatedByOne;
    var mid := WithCandidate(was, opp, now);
    var db' := WithCandidacy(mid, cat, opp);
    CandidateLinks(was, opp, now);
    CandidacyLinks(mid, cat, opp);
    KeptTwice(was, mid, db');
    KeptTwice(db, was, db');
    forall i | |db.candidacies| <= i < |db'.candidacies|
      ensures CreatedByOne(db', db'.candidacies[i], front + [opp])
    {
      if i < |was.candidacies| {
        StillCreatedByOne(was, db', i, front, opp);
      } else {
        OneCreator(db', db'.candidacies[i], front + [opp]);
      }
    }
  }

  lemma {:induction false} NewCandidaciesAreRightlyLinked(db: Tables, cat: Catalog, opps: seq<Opportunity>, now: int)
    requires LinksHold(db)
    ensures var db' := SyncedOpportunities(db, cat, opps, now);
            LinksHold(db') && LinksKept(db, db') && NewOnesCreated(db, db', opps)
  {
    hide LinksHold, WithCandidate, WithCandidacy, CreatedByOne;
    if opps == [] {
    } else {
      hide LinksKept, NewOnesCreated;
      var front, opp := opps[..|opps| - 1], opps[|opps| - 1];
      NewCandidaciesAreRightlyLinked(db, cat, front, now);
      var was := SyncedOpportunities(db, cat, front, now);
      assert SyncedOpportunities(db, cat, opps, now) == WithCandidacy(WithCandidate(was, opp, now), cat, opp);
      assert opps == front + [opp];
      LinkedStep(db, was, cat, front, opp, now);
    }
  }

  lemma OneCreator(db: Tables, row: Row<Candidacy>, opps: seq<Opportunity>)
    requires opps != [] && RightlyLinked(db, row, opps[|opps| - 1])
    ensures CreatedByOne(db, row, opps)
  {
  }

  // ------------------------------------------------------------------
  // Repeating it
  // ------------------------------------------------------------------

  function UntimedPostings(t: Table<Posting>): Table<PostingFacts> {
    seq(|t|, i requires 0 <= i < |t| => Row(t[i].key, t[i].value.facts))
  }

  function UntimedCandidates(t: Table<Candidate>): Table<ContactFacts> {
    seq(|t|, i requires 0 <= i < |t| => Row(t[i].key, t[i].value.facts))
  }

  lemma RowAt<V(!new)>(t: Table<V>, i: nat)
    requires Distinct(t) && i < |t|
    ensures Find(t, t[i].key) == Some(t[i].value)
  {
    IndexIs(t, t[i].key, i);
  }

  lemma Settled<V(!new)>(a: Table<V>, b: Table<V>, keys: set<string>)
    requires Distinct(a) && Grew(a, b, keys) && keys <= KeySet(a)
    ensures |a| == |b|
  {
    assert keys - KeySet(a) == {};
    Growth(a, b, keys);
  }

  lemma PostingsRepeat(t: Table<Posting>, lps: seq<LeverPosting>, now: int, later: int)
    requires Distinct(t)
    ensures var t1 := SyncedPostings(t, lps, now);
            var t2 := SyncedPostings(t1, lps, later);
            |t2| == |t1| && KeySet(t2) == KeySet(t1) && UntimedPostings(t2) == UntimedPostings(t1)
  {
    hide SyncedPostings, LastFacts;
    var t1 := SyncedPostings(t, lps, now);
    var t2 := SyncedPostings(t1, lps, later);
    PostingsAfter(t, lps, now);
    PostingsAfter(t1, lps, later);
    Settled(t1, t2, PostingIds(lps));
    forall i | 0 <= i < |t1|
      ensures t2[i].key == t1[i].key && t2[i].value.facts == t1[i].value.facts
    {
      RowAt(t1, i);
      RowAt(t2, i);
      PostingAfter(t, lps, now, t1[i].key);
      PostingAfter(t1, lps, later, t1[i].key);
    }
    assert KeySet(t2) == KeySet(t1);
  }

  lemma CandidatesRepeat(db: Tables, db': Tables, cat: Catalog, opps: seq<Opportunity>, now: int, later: int)
    requires Distinct(db.candidates)
    requires db'.candidates == SyncedOpportunities(db, cat, opps, now).candidates
    ensures var t2 := SyncedOpportunities(db', cat, opps, later).candidates;
            |t2| == |db'.candidates| && UntimedCandidates(t2) == UntimedCandidates(db'.candidates)
    ensures SyncedOpportunities(db', cat, opps, later).mappings == db'.mappings
  {
    hide SyncedOpportunities, FedContact;
    var t1 := db'.candidates;
    var t2 := SyncedOpportunities(db', cat, opps, later).candidates;
    CandidatesAfter(db, cat, opps, now);
    CandidatesAfter(db', cat, opps, later);
    Settled(t1, t2, Contacts(opps));
    MappingsStay(db', cat, opps, later);
    forall i | 0 <= i < |t1|
      ensures t2[i].key == t1[i].key && t2[i].value.facts == t1[i].value.facts
    {
      RowAt(t1, i);
      RowAt(t2, i);
      CandidateAfter(db, cat, opps, now, t1[i].key);
      CandidateAfter(db', cat, opps, later, t1[i].key);
    }
  }

  lemma {:induction false} SameLinks(a: Table<Posting>, b: Table<Posting>, cat: Catalog, opps: seq<Opportunity>,
                                     id: string)
    requires KeySet(a) == KeySet(b)
    ensures LastStanding(a, cat, opps, id) == LastStanding(b, cat, opps, id)
    ensures LinkedIds(a, opps) == LinkedIds(b, opps)
  {
    forall opp
      ensures IsLinked(a, opp) <==> IsLinked(b, opp)
    {
      HasIffKey(a, PostingNamed(opp));
      HasIffKey(b, PostingNamed(opp));
    }
    if opps == [] {
    } else {
      SameLinks(a, b, cat, opps[..|opps| - 1], id);
    }
  }

  lemma CandidaciesRepeat(db: Tables, db': Tables, cat: Catalog, opps: seq<Opportunity>, now: int, later: int)
    requires Distinct(db.candidacies) && KeySet(db'.postings) == KeySet(db.postings)
    requires db'.candidacies == SyncedOpportunities(db, cat, opps, now).candidacies
    ensures SyncedOpportunities(db', cat, opps, later).candidacies == db'.candidacies
  {
    hide SyncedOpportunities, LastStanding, LinkedIds;
    var t1 := db'.candidacies;
    var t2 := SyncedOpportunities(db', cat, opps, later).candidacies;
    CandidaciesAfter(db, cat, opps, now);
    CandidaciesAfter(db', cat, opps, later);
    SameLinks(db.postings, db'.postings, cat, opps, "");
    Settled(t1, t2, LinkedIds(db.postings, opps));
    forall i | 0 <= i < |t1|
      ensures t2[i] == t1[i]
    {
      RowAt(t1, i);
      RowAt(t2, i);
      SameLinks(db.postings, db'.postings, cat, opps, t1[i].key);
      CandidacyAfter(db, cat, opps, now, t1[i].key);
      CandidacyAfter(db', cat, opps, later, t1[i].key);
    }
  }

  /** A mock feed locks itself out exactly when it fed something that is not a fixture. */
  lemma GuardStaysOpenIff(t: Table<Posting>, t': Table<Posting>, feed: Feed, ids: set<string>)
    requires !MockGuardTrips(t, feed) && Grew(t, t', ids)
    ensures MockGuardTrips(t', feed) <==> feed.mock && !(ids <= feed.fixtureIds)
  {
    forall i | 0 <= i < |t'|
      ensures t'[i].key in KeySet(t) + ids
    {
      assert t'[i].key in KeySet(t');
    }
    if !(ids <= feed.fixtureIds) {
      var id :| id in ids && id !in feed.fixtureIds;
      assert id in KeySet(t');
    }
  }

  /**
   * Syncing the same feed again succeeds (unless a mock feed held more than
   * fixtures), creates nothing, and leaves everything but the timestamps as it was.
   */
  lemma RepeatingChangesOnlyTimestamps(db: Tables, feed: Feed, now: int, later: int)
    requires Keyed(db) && FeedFailure(db.postings, feed) == None
    ensures var db1 := Reconciled(db, feed, now);
            && (FeedFailure(db1.postings, feed) == None
                <==> (feed.mock ==> PostingIds(feed.postings.value) <= feed.fixtureIds))
            && (FeedFailure(db1.postings, feed) == None ==>
               var db2 := Reconciled(db1, feed, later);
               && UntimedPostings(db2.postings) == UntimedPostings(db1.postings)
               && UntimedCandidates(db2.candidates) == UntimedCandidates(db1.candidates)
               && db2.candidacies == db1.candidacies
               && db2.mappings == db1.mappings
               && CountsOf(db1, db2, feed).created == 0
               && CountsOf(db1, db2, feed).read == CountsOf(db, db1, feed).read)
  {
    hide SyncedOpportunities, SyncedPostings, MockGuardTrips, ListingFailure, Distinct, KeySet, Grew,
         UntimedPostings, UntimedCandidates, Unlinked;
    var lps, cat, opps := feed.postings.value, feed.catalog.value, feed.opportunities.value;
    var mid1 := db.(postings := SyncedPostings(db.postings, lps, now));
    var db1 := SyncedOpportunities(mid1, cat, opps, now);
    assert db1 == Reconciled(db, feed, now);
    PostingsStay(mid1, cat, opps, now);
    PostingsAfter(db.postings, lps, now);
    GuardStaysOpenIff(db.postings, db1.postings, feed, PostingIds(lps));
    if FeedFailure(db1.postings, feed).Some? { return; }
    var mid2 := db1.(postings := SyncedPostings(db1.postings, lps, later));
    assert SyncedOpportunities(mid2, cat, opps, later) == Reconciled(db1, feed, later);
    PostingsStay(mid2, cat, opps, later);
    PostingsRepeat(db.postings, lps, now, later);
    CandidatesRepeat(mid1, mid2, cat, opps, now, later);
    CandidaciesRepeat(mid1, mid2, cat, opps, now, later);
  }

  // ------------------------------------------------------------------
  // Every interleaving of requests, starts and finishes
  // ------------------------------------------------------------------

  /**
   * `ExecuteRun` is a Start and then a Finish; other requests and runs may come
   * between them, and a worker that dies never takes its Finish.
   */
  datatype SyncStep =
    | Request(newId: string)
    | Start(runId: string)
    | Finish(runId: string, feed: Feed, now: int, lostCommit: Option<Failure>)

  function AfterStep(db: Database, step: SyncStep): Database {
    match step
    case Request(newId) => if Has(db.runs, newId) then db else Requested(db, newId)
    case Start(runId) => if HasStatus(db, runId, Queued) then Started(db, runId) else db
    case Finish(runId, feed, now, lostCommit) =>
      if HasStatus(db, runId, Running) then Finished(db, runId, feed, now, lostCommit) else db
  }

  function AfterSteps(db: Database, steps: seq<SyncStep>): Database {
    if steps == [] then db else AfterStep(AfterSteps(db, steps[..|steps| - 1]), steps[|steps| - 1])
  }

  /** A failed or unfinished run reports nothing; a successful one accounts for all it read. */
  predicate Accounted(run: SyncRun) {
    var c := run.counts;
    && (run.status == Failed <==> run.error.Some?)
    && (run.status != Succeeded ==> c == ZERO)
    && c.created >= 0 && c.updated >= 0 && c.untouched >= 0
    && c.read <= c.created + c.updated + c.untouched <= 2 * c.read
  }

  predicate SaneRuns(runs: Table<SyncRun>) {
    && Distinct(runs)
    && (forall i, k :: 0 <= i < k < |runs| ==> !(Active(runs[i].value) && Active(runs[k].value)))
    && (forall i :: 0 <= i < |runs| ==> Accounted(runs[i].value))
  }

  ghost predicate Sane(db: Database) {
    SaneRuns(db.runs) && Keyed(db.tables) && LinksHold(db.tables)
  }

  /** The counters of a successful reconciliation, whatever the tables held before. */
  lemma CountsBalance(db: Tables, feed: Feed, now: int)
    requires Keyed(db) && FeedFailure(db.postings, feed) == None
    ensures var c := CountsOf(db, Reconciled(db, feed, now), feed);
            var (listed, seen) := (|feed.postings.value|, |feed.opportunities.value|);
            && c.read == listed + seen
            && c.created + c.updated + c.untouched == listed + 2 * seen
            && c.created >= 0 && c.updated >= 0 && c.untouched >= 0
  {
    hide SyncedOpportunities, SyncedPostings, MockGuardTrips, ListingFailure, Distinct, Grew, Unlinked;
    var lps, cat, opps := feed.postings.value, feed.catalog.value, feed.opportunities.value;
    var mid := db.(postings := SyncedPostings(db.postings, lps, now));
    PostingsGrowSlowly(db.postings, lps, now);
    TablesGrowSlowly(mid, cat, opps, now);
    PostingsStay(mid, cat, opps, now);
  }

  lemma {:induction false} PostingsGrowSlowly(t: Table<Posting>, lps: seq<LeverPosting>, now: int)
    ensures |t| <= |SyncedPostings(t, lps, now)| <= |t| + |lps|
  {
    if lps == [] {
    } else {
      PostingsGrowSlowly(t, lps[..|lps| - 1], now);
    }
  }

  /** Each opportunity adds at most one candidate, and at most one candidacy unless it is skipped. */
  lemma {:induction false} TablesGrowSlowly(db: Tables, cat: Catalog, opps: seq<Opportunity>, now: int)
    ensures var db' := SyncedOpportunities(db, cat, opps, now);
            && |db.candidates| <= |db'.candidates| <= |db.candidates| + |opps|
            && |db.candidacies| <= |db'.candidacies| <= |db.candidacies| + |opps| - Unlinked(db.postings, opps)
  {
    if opps == [] {
    } else {
      hide IsLinked, CandidateFor, CandidacyFor;
      TablesGrowSlowly(db, cat, opps[..|opps| - 1], now);
      PostingsStay(db, cat, opps[..|opps| - 1], now);
    }
  }

  lemma ReconciledIsSane(db: Tables, feed: Feed, now: int)
    requires Keyed(db) && LinksHold(db) && FeedFailure(db.postings, feed) == None
    ensures var db' := Reconciled(db, feed, now);
            Keyed(db') && LinksHold(db') && Accounted(SyncRun(Succeeded, CountsOf(db, db', feed), None))
  {
    OneRowPerId(db, feed, now);
    CountsBalance(db, feed, now);
    var lps, cat, opps := feed.postings.value, feed.catalog.value, feed.opportunities.value;
    PostingsGrowSlowly(db.postings, lps, now);
    hide SyncedOpportunities, SyncedPostings, FeedFailure, Unlinked;
    NewCandidaciesAreRightlyLinked(db.(postings := SyncedPostings(db.postings, lps, now)), cat, opps, now);
  }

  /** Changing one run, when it may only become active if it already was, keeps the runs sane. */
  lemma PutRunSane(runs: Table<SyncRun>, runId: string, run: SyncRun)
    requires SaneRuns(runs) && Accounted(run) && Has(runs, runId)
    requires Active(run) ==> Active(runs[IndexOf(runs, runId)].value)
    ensures SaneRuns(Put(runs, runId, run))
  {
    hide Accounted, Active;
  }

  lemma StepStaysSane(db: Database, step: SyncStep)
    requires Sane(db)
    ensures Sane(AfterStep(db, step))
  {
    hide Reconciled, MockGuardTrips, OpportunityFailure, CountsOf, Keyed, LinksHold, Distinct;
    match step
    case Request(newId) =>
      RequestStaysSane(db, newId);
    case Start(runId) =>
      if HasStatus(db, runId, Queued) {
        PutRunSane(db.runs, runId, Find(db.runs, runId).value.(status := Running));
      }
    case Finish(runId, feed, now, lostCommit) =>
      if HasStatus(db, runId, Running) {
        var failure := FeedFailure(db.tables.postings, feed);
        if failure.Some? {
          PutRunSane(db.runs, runId, SyncRun(Failed, ZERO, failure));
        } else if lostCommit.Some? {
          PutRunSane(db.runs, runId, SyncRun(Failed, ZERO, lostCommit));
        } else {
          FeedIsGood(db.tables.postings, feed);
          ReconciledIsSane(db.tables, feed, now);
          var tables := Reconciled(db.tables, feed, now);
          PutRunSane(db.runs, runId, SyncRun(Succeeded, CountsOf(db.tables, tables, feed), None));
        }
      }
  }

  lemma EmptyDatabaseIsSane()
    ensures Sane(Database([], Tables([], [], [], [])))
  {
  }

  lemma FeedIsGood(t: Table<Posting>, feed: Feed)
    requires FeedFailure(t, feed) == None
    ensures feed.postings.Ok? && feed.catalog.Ok? && feed.opportunities.Ok?
  {
  }

  lemma RequestStaysSane(db: Database, newId: string)
    requires Sane(db)
    ensures Sane(AfterStep(db, Request(newId)))
  {
    hide Keyed, LinksHold;
  }

  /**
   * Single flight and sound data over every run: run ids are distinct, at most one
   * run is queued or running, every run's counters balance, and the read model has
   * one row per Lever id with no dangling link.
   */
  lemma {:induction false} EveryRunIsSane(db: Database, steps: seq<SyncStep>)
    requires Sane(db)
    ensures Sane(AfterSteps(db, steps))
  {
    if steps == [] {
    } else {
      hide Sane, AfterStep;
      EveryRunIsSane(db, steps[..|steps| - 1]);
      StepStaysSane(AfterSteps(db, steps[..|steps| - 1]), steps[|steps| - 1]);
    }
  }

  /**
   * The last good data stays: the read model changes only by a step that turns a
   * running run into a successful one, and then to the reconciled tables in full.
   */
  lemma OnlySuccessMovesTheReadModel(db: Database, step: SyncStep)
    ensures var db' := AfterStep(db, step);
            || db'.tables == db.tables
            || (&& step.Finish? && HasStatus(db, step.runId, Running) && HasStatus(db', step.runId, Succeeded)
                && FeedFailure(db.tables.postings, step.feed) == None
                && db'.tables == Reconciled(db.tables, step.feed, step.now))
    ensures step.Finish? && HasStatus(AfterStep(db, step), step.runId, Failed) ==>
              AfterStep(db, step).tables == db.tables
  {
    hide Reconciled, FeedFailure, CountsOf;
    if step.Finish? && HasStatus(db, step.runId, Running) {
      FinishedStatus(db, step.runId, step.feed, step.now, step.lostCommit);
    }
  }

  lemma FinishedStatus(db: Database, runId: string, feed: Feed, now: int, lostCommit: Option<Failure>)
    requires HasStatus(db, runId, Running)
    ensures HasStatus(Finished(db, runId, feed, now, lostCommit), runId,
                      if FeedFailure(db.tables.postings, feed) == None && lostCommit == None then Succeeded else Failed)
  {
    hide Reconciled, MockGuardTrips, OpportunityFailure, CountsOf, Unlinked;
    var db' := Finished(db, runId, feed, now, lostCommit);
    var i := IndexOf(db.runs, runId);
    assert db'.runs == Put(db.runs, runId, db'.runs[i].value);
    PutPosition(db.runs, runId, db'.runs[i].value, runId);
  }

  /** Nothing else writes the read model between a run's start and its finish. */
  lemma {:induction false} NoOtherWriterWhileRunning(db: Database, steps: seq<SyncStep>, runId: string)
    requires Sane(db) && HasStatus(db, runId, Running)
    requires forall k :: 0 <= k < |steps| ==> !(steps[k].Finish? && steps[k].runId == runId)
    ensures AfterSteps(db, steps) == db
  {
    if steps == [] {
    } else {
      NoOtherWriterWhileRunning(db, steps[..|steps| - 1], runId);
      OthersAreIdle(db, steps[|steps| - 1], runId);
    }
  }

  lemma OthersAreIdle(db: Database, step: SyncStep, runId: string)
    requires Sane(db) && HasStatus(db, runId, Running)
    requires !(step.Finish? && step.runId == runId)
    ensures AfterStep(db, step) == db
  {
    hide Started, Finished, Keyed, LinksHold, Accounted;
    var i := IndexOf(db.runs, runId);
    assert Active(db.runs[i].value);
  }

  /** `ExecuteRun` on a queued run is its start followed by its finish. */
  lemma ExecutionIsTwoSteps(db: Database, runId: string, feed: Feed, now: int, lostCommit: Option<Failure>)
    requires HasStatus(db, runId, Queued)
    ensures AfterSteps(db, [Start(runId), Finish(runId, feed, now, lostCommit)]) ==
              Finished(Started(db, runId), runId, feed, now, lostCommit)
  {
    var start, finish := Start(runId), Finish(runId, feed, now, lostCommit);
    assert [start, finish][..1] == [start] && [start][..0] == [];
    assert AfterSteps(db, [start]) == AfterStep(AfterSteps(db, []), start);
  }
}
