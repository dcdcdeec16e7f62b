/**
 * Requests that die between two commits. A request commits one state after
 * another; whichever of its commits is the last to succeed, the order is left in
 * a state whose timeline still replays and whose accounts are short of exactly
 * the email events that were lost.
 */
module LifecycleCommits {
  import opened Common
  import opened OrderStatuses
  import opened Lifecycle
  import opened LifecycleRuns

  // ------------------------------------------------------------------
  // The states a request commits, in order
  // ------------------------------------------------------------------

  function CommitOf(a: Attempt): seq<OrderState> { if a.Ok? then [a.value] else [] }

  /** `transition` commits the move before the email event is added. */
  function SendCommits(s: OrderState, suppliers: set<int>, releasedBy: Option<int>, email: Email): seq<OrderState> {
    var sent := Send(s, suppliers, releasedBy, email);
    if sent.Raised? then []
    else if email == Accepted then
      [Moved(WithComm(s, Sent).(released := true, releasedBy := releasedBy), SentToSupplier, releasedBy == None),
       sent.value]
    else if s.status == RequiresAttention then [sent.value]
    else [Moved(WithComm(s, Failed).(retryCount := s.retryCount + 1), RequiresAttention, false), sent.value]
  }

  function DecideCommits(s: OrderState, corrected: bool, config: ReleaseConfig, suppliers: set<int>, email: Email)
    : seq<OrderState>
  {
    var releasing := s.(facts := s.facts.(exceptionReason := None));
    if Ready(s) && Flags(s, corrected, config) == [] && config.autoReleaseEnabled
       && Send(releasing, suppliers, None, email) != Raised(NoSupplierAssigned) then
      SendCommits(releasing, suppliers, None, email)
    else CommitOf(Decide(s, corrected, config, suppliers, email))
  }

  function Commits(s: OrderState, r: Request): seq<OrderState> {
    match r
    case Verify(corrected, config, suppliers, email) =>
      var v := WithAddress(s, Verified);
      [v] + DecideCommits(v, corrected, config, suppliers, email)
    case ConfirmRelease(actor, suppliers, email) =>
      if s.status != RequiresReview then []
      else SendCommits(s.(facts := s.facts.(reviewConfirmedBy := Some(actor))), suppliers, Some(actor), email)
    case SendOrResend(sender, suppliers, email) => SendCommits(s, suppliers, sender, email)
    case SupplierStatus(target) =>
      if target !in SupplierDrivable(s.status) then []
      else
        var moved := Transition(s, target, false);
        CommitOf(moved) + if moved.Ok? && target == Delivered then CommitOf(Completing(moved.value)) else []
    case SupplierIssue(_) =>
      var reported := Handle(s, r).0;
      CommitOf(reported) + if reported.Ok? && reported.value.status != s.status then CommitOf(reported) else []
    case AutoComplete => if s.status != Delivered then [] else CommitOf(Completing(s))
    case _ => CommitOf(Handle(s, r).0)
  }

  /** The state before the request, and each state it commits. */
  function Stages(s: OrderState, r: Request): seq<OrderState> { [s] + Commits(s, r) }

  /** A request that runs to its end leaves its last commit. */
  lemma StagesEndInAfter(s: OrderState, r: Request)
    ensures Stages(s, r)[|Stages(s, r)| - 1] == After(s, r)
  {
    hide AllowedTransitions, SupplierDrivable, SupplierActionable, Edited, WithAddress, Corrected, Decide,
         DecideCommits,
         Send, SendCommits;
    match r
    case Verify(corrected, config, suppliers, email) =>
      DecideEnds(WithAddress(s, Verified), corrected, config, suppliers, email);
    case ConfirmRelease(actor, suppliers, email) =>
      SendEnds(s.(facts := s.facts.(reviewConfirmedBy := Some(actor))), suppliers, Some(actor), email);
    case SendOrResend(sender, suppliers, email) => SendEnds(s, suppliers, sender, email);
    case _ =>
  }

  lemma SendEnds(s: OrderState, suppliers: set<int>, releasedBy: Option<int>, email: Email)
    ensures var (sent, commits) :=
            (Send(s, suppliers, releasedBy, email), SendCommits(s, suppliers, releasedBy, email));
            if sent.Ok? then commits != [] && commits[|commits| - 1] == sent.value else commits == []
  {
  }

  lemma DecideEnds(s: OrderState, corrected: bool, config: ReleaseConfig, suppliers: set<int>, email: Email)
    ensures var decided := Decide(s, corrected, config, suppliers, email);
            var commits := DecideCommits(s, corrected, config, suppliers, email);
            if decided.Ok? then commits != [] && commits[|commits| - 1] == decided.value else commits == []
  {
    hide Ready, Flags, Send, SendCommits, AllowedTransitions;
    SendEnds(s.(facts := s.facts.(exceptionReason := None)), suppliers, None, email);
  }

  // ------------------------------------------------------------------
  // Runs in which requests may die
  // ------------------------------------------------------------------

  /** A request of which at most the first `commits` commits succeed. */
  datatype Cut = Cut(request: Request, commits: nat)

  function Reached(s: OrderState, c: Cut): nat {
    if c.commits < |Commits(s, c.request)| then c.commits else |Commits(s, c.request)|
  }

  function AfterCut(s: OrderState, c: Cut): OrderState { Stages(s, c.request)[Reached(s, c)] }

  function CutRun(s: OrderState, cuts: seq<Cut>): OrderState {
    if cuts == [] then s else AfterCut(CutRun(s, cuts[..|cuts| - 1]), cuts[|cuts| - 1])
  }

  /** The email event that the commit from `a` to `b` is there to write, all else being committed before. */
  function EmailEventOf(a: OrderState, b: OrderState): Lost {
    if b.comms != a.comms || |b.events| != |a.events| + 1 then NOTHING
    else if b.events[|a.events|].EmailSent? then Lost(1, 0)
    else if b.events[|a.events|].EmailFailed? then Lost(0, 1)
    else NOTHING
  }

  /** What the first commit that fails would have written of the email log. */
  function LostBy(s: OrderState, c: Cut): Lost {
    var n := Reached(s, c);
    if n < |Commits(s, c.request)| then EmailEventOf(Stages(s, c.request)[n], Stages(s, c.request)[n + 1]) else NOTHING
  }

  function Plus(a: Lost, b: Lost): Lost { Lost(a.sent + b.sent, a.failed + b.failed) }

  function LostIn(s: OrderState, cuts: seq<Cut>): Lost {
    if cuts == [] then NOTHING
    else Plus(LostIn(s, cuts[..|cuts| - 1]), LostBy(CutRun(s, cuts[..|cuts| - 1]), cuts[|cuts| - 1]))
  }

  // ------------------------------------------------------------------
  // Every stage is good but for what is lost
  // ------------------------------------------------------------------

  /** Stage n is good but for the event that the next stage adds. */
  predicate StageGood(stages: seq<OrderState>, n: nat, lost: Lost)
    requires n < |stages|
  {
    GoodBut(stages[n], if n + 1 < |stages| then Plus(lost, EmailEventOf(stages[n], stages[n + 1])) else lost)
  }

  lemma BeforeTheEmailEvent(m: OrderState, e: Event, lost: Lost)
    requires m.events != [] && (e.EmailSent? || e.EmailFailed?) && GoodBut(Logged(m, e), lost)
    ensures GoodBut(m, Plus(lost, EmailEventOf(m, Logged(m, e))))
  {
    hide AllowedTransitions, Replays, Path, AddressAfter, SendsVerified, TallyOf, CommsNumbered, CountComms;
    Append(m.events, e);
  }

  /** A first commit that records the communication, and perhaps a second that only adds the email event. */
  predicate SendShaped(s: OrderState, commits: seq<OrderState>) {
    && 1 <= |commits| <= 2
    && commits[0].comms != s.comms
    && (|commits| == 2 ==>
          && commits[0].events != [] && |commits[1].events| == |commits[0].events| + 1
          && var e := commits[1].events[|commits[0].events|];
             (e.EmailSent? || e.EmailFailed?) && commits[1] == Logged(commits[0], e))
  }

  lemma SendIsShaped(s: OrderState, suppliers: set<int>, releasedBy: Option<int>, email: Email)
    requires Send(s, suppliers, releasedBy, email).Ok?
    ensures var commits := SendCommits(s, suppliers, releasedBy, email);
            SendShaped(s, commits) && commits[|commits| - 1] == Send(s, suppliers, releasedBy, email).value
  {
    hide AllowedTransitions;
  }

  lemma ShapedStagesGood(s: OrderState, commits: seq<OrderState>, n: nat, lost: Lost)
    requires GoodBut(s, lost) && n <= |commits|
    requires SendShaped(s, commits) && GoodBut(commits[|commits| - 1], lost)
    ensures StageGood([s] + commits, n, lost)
  {
    hide GoodBut;
    if n == 1 && |commits| == 2 {
      BeforeTheEmailEvent(commits[0], commits[1].events[|commits[0].events|], lost);
    }
  }

  lemma SendStagesGood(s: OrderState, suppliers: set<int>, releasedBy: Option<int>, email: Email, n: nat, lost: Lost)
    requires GoodBut(s, lost)
    requires n <= |SendCommits(s, suppliers, releasedBy, email)|
    ensures StageGood([s] + SendCommits(s, suppliers, releasedBy, email), n, lost)
  {
    SendKeepsGood(s, suppliers, releasedBy, email, lost);
    if Send(s, suppliers, releasedBy, email).Ok? {
      SendIsShaped(s, suppliers, releasedBy, email);
      hide GoodBut, SendCommits, Send, SendShaped;
      ShapedStagesGood(s, SendCommits(s, suppliers, releasedBy, email), n, lost);
    }
  }

  /** One commit that writes no email event on its own. */
  lemma SingleStagesGood(s: OrderState, commits: seq<OrderState>, n: nat, lost: Lost)
    requires GoodBut(s, lost) && n <= |commits| <= 1
    requires commits != [] ==> GoodBut(commits[0], lost) && EmailEventOf(s, commits[0]) == NOTHING
    ensures StageGood([s] + commits, n, lost)
  {
  }

  /** Stages that start from the same timeline and communications lose the same. */
  lemma SameStart(s: OrderState, s': OrderState, commits: seq<OrderState>, n: nat, lost: Lost)
    requires n <= |commits| && StageGood([s'] + commits, n, lost)
    requires GoodBut(s, lost) && s.comms == s'.comms && s.events == s'.events
    requires commits != [] ==> commits[0].comms != s.comms
    ensures StageGood([s] + commits, n, lost)
  {
    hide GoodBut;
  }

  /** A first commit of its own, then the rest. */
  lemma PrefixStagesGood(s: OrderState, first: OrderState, rest: seq<OrderState>, n: nat, lost: Lost)
    requires GoodBut(s, lost) && n <= |rest| + 1 && EmailEventOf(s, first) == NOTHING
    requires n >= 1 ==> StageGood([first] + rest, n - 1, lost)
    ensures StageGood([s] + ([first] + rest), n, lost)
  {
    hide GoodBut;
    var tail, all := [first] + rest, [s] + ([first] + rest);
    assert forall k :: 0 <= k < |tail| ==> all[k + 1] == tail[k];
  }

  lemma DecideStagesGood(s: OrderState, corrected: bool, config: ReleaseConfig, suppliers: set<int>, email: Email,
                         n: nat, lost: Lost)
    requires GoodBut(s, lost) && n <= |DecideCommits(s, corrected, config, suppliers, email)|
    ensures StageGood([s] + DecideCommits(s, corrected, config, suppliers, email), n, lost)
  {
    hide GoodBut, Ready, Flags, Send, SendCommits, AllowedTransitions, StageGood;
    var commits := DecideCommits(s, corrected, config, suppliers, email);
    var releasing := s.(facts := s.facts.(exceptionReason := None));
    if Ready(s) && Flags(s, corrected, config) == [] && config.autoReleaseEnabled
       && Send(releasing, suppliers, None, email) != Raised(NoSupplierAssigned)
    {
      GoodIgnoresFacts(s, releasing, lost);
      SendStagesGood(releasing, suppliers, None, email, n, lost);
      if commits != [] { FirstOfSend(releasing, suppliers, None, email); }
      SameStart(s, releasing, commits, n, lost);
    } else {
      DecideKeepsGood(s, corrected, config, suppliers, email, lost);
      SingleStagesGood(s, commits, n, lost);
    }
  }

  lemma FirstOfSend(s: OrderState, suppliers: set<int>, releasedBy: Option<int>, email: Email)
    requires SendCommits(s, suppliers, releasedBy, email) != []
    ensures SendCommits(s, suppliers, releasedBy, email)[0].comms != s.comms
  {
    SendIsShaped(s, suppliers, releasedBy, email);
  }

  lemma StagesGood(s: OrderState, r: Request, n: nat, lost: Lost)
    requires GoodBut(s, lost) && n <= |Commits(s, r)|
    ensures StageGood(Stages(s, r), n, lost)
  {
    hide GoodBut, StageGood, SendCommits, DecideCommits, Send, AllowedTransitions, Edited, Corrected, SupplierDrivable,
         SupplierActionable, Completing;
    HandleKeepsGood(s, r, lost);
    match r
    case Verify(corrected, config, suppliers, email) =>
      var v := WithAddress(s, Verified);
      AddressKeepsGood(s, Verified, lost);
      if n >= 1 { DecideStagesGood(v, corrected, config, suppliers, email, n - 1, lost); }
      PrefixStagesGood(s, v, DecideCommits(v, corrected, config, suppliers, email), n, lost);
    case ConfirmRelease(actor, suppliers, email) =>
      var confirmed := s.(facts := s.facts.(reviewConfirmedBy := Some(actor)));
      GoodIgnoresFacts(s, confirmed, lost);
      if s.status == RequiresReview {
        SendStagesGood(confirmed, suppliers, Some(actor), email, n, lost);
        if Commits(s, r) != [] { FirstOfSend(confirmed, suppliers, Some(actor), email); }
        SameStart(s, confirmed, Commits(s, r), n, lost);
      } else {
        SingleStagesGood(s, Commits(s, r), n, lost);
      }
    case SendOrResend(sender, suppliers, email) => SendStagesGood(s, suppliers, sender, email, n, lost);
    case SupplierStatus(target) => SupplierStagesGood(s, target, n, lost);
    case SupplierIssue(_) => IssueStagesGood(s, r, n, lost);
    case _ =>
      OneCommitWithoutEmail(s, r);
      SingleStagesGood(s, Commits(s, r), n, lost);
  }

  lemma OneCommitWithoutEmail(s: OrderState, r: Request)
    requires !r.Verify? && !r.ConfirmRelease? && !r.SendOrResend? && !r.SupplierStatus? && !r.SupplierIssue?
    ensures |Commits(s, r)| <= 1
    ensures Commits(s, r) != [] ==> Commits(s, r)[0] == After(s, r) && EmailEventOf(s, Commits(s, r)[0]) == NOTHING
  {
    hide AllowedTransitions;
  }

  lemma IssueStagesGood(s: OrderState, r: Request, n: nat, lost: Lost)
    requires GoodBut(s, lost) && r.SupplierIssue? && n <= |Commits(s, r)|
    ensures StageGood(Stages(s, r), n, lost)
  {
    hide GoodBut, StageGood, SupplierActionable, AllowedTransitions;
    HandleKeepsGood(s, r, lost);
    var commits := Commits(s, r);
    if commits == [] {
      SingleStagesGood(s, commits, n, lost);
    } else {
      if n >= 1 { SingleStagesGood(commits[0], commits[1..], n - 1, lost); }
      assert commits == [commits[0]] + commits[1..];
      PrefixStagesGood(s, commits[0], commits[1..], n, lost);
    }
  }

  lemma SupplierStagesGood(s: OrderState, target: OrderStatus, n: nat, lost: Lost)
    requires GoodBut(s, lost) && n <= |Commits(s, SupplierStatus(target))|
    ensures StageGood(Stages(s, SupplierStatus(target)), n, lost)
  {
    hide GoodBut, StageGood, SupplierDrivable, AllowedTransitions;
    DrivableNeverSends(s.status);
    var commits := Commits(s, SupplierStatus(target));
    if commits == [] {
      SingleStagesGood(s, commits, n, lost);
    } else {
      TransitionKeepsGood(s, target, lost);
      CompletingKeepsGood(commits[0], lost);
      if n >= 1 { SingleStagesGood(commits[0], commits[1..], n - 1, lost); }
      assert commits == [commits[0]] + commits[1..];
      PrefixStagesGood(s, commits[0], commits[1..], n, lost);
    }
  }

  // ------------------------------------------------------------------
  // Every run, wherever its requests die
  // ------------------------------------------------------------------

  /**
   * From detection on, whatever requests arrive and at whichever commit each of
   * them dies, the timeline replays, the address log holds, and the accounts are
   * short of exactly the email events that were lost.
   */
  lemma {:induction false} EveryCutRunIsGood(s: OrderState, cuts: seq<Cut>)
    requires FreshlyDetected(s)
    ensures GoodBut(CutRun(s, cuts), LostIn(s, cuts))
  {
    hide GoodBut, AfterCut, LostBy;
    if cuts == [] {
      NewOrderIsGood(s);
    } else {
      var front, c := cuts[..|cuts| - 1], cuts[|cuts| - 1];
      EveryCutRunIsGood(s, front);
      CutKeepsGood(CutRun(s, front), c, LostIn(s, front));
    }
  }

  lemma CutKeepsGood(s: OrderState, c: Cut, lost: Lost)
    requires GoodBut(s, lost)
    ensures GoodBut(AfterCut(s, c), Plus(lost, LostBy(s, c)))
  {
    hide GoodBut, Commits, EmailEventOf;
    StagesGood(s, c.request, Reached(s, c), lost);
  }

  /** So what a lost commit can cost is an email event in the timeline, never a count, a communication or a release. */
  lemma CutRunAccounting(s: OrderState, cuts: seq<Cut>)
    requires FreshlyDetected(s)
    ensures var (s', lost) := (CutRun(s, cuts), LostIn(s, cuts));
            var t := TallyOf(s'.events);
            && LegalPath(Path(s'.events))
            && Path(s'.events)[|Path(s'.events)| - 1] == s'.status
            && s'.retryCount == CountComms(s'.comms, Failed) == t.emailsFailed + lost.failed
            && CountComms(s'.comms, Sent) == t.releases == t.emailsSent + lost.sent
            && (s'.released <==> CountComms(s'.comms, Sent) > 0)
            && CommsNumbered(s'.comms)
            && (lost == NOTHING <==> s'.retryCount == t.emailsFailed && CountComms(s'.comms, Sent) == t.emailsSent)
  {
    hide CutRun, LostIn, FreshlyDetected, LegalPath;
    EveryCutRunIsGood(s, cuts);
    ReplayedPathIsLegal(CutRun(s, cuts).events);
  }

  /** It does happen: an accepted send whose second commit fails is at the supplier, released, and has no EMAIL_SENT. */
  lemma SentWithoutItsEvent(s: OrderState, sender: Option<int>, suppliers: set<int>)
    requires SupplierFound(s, suppliers) && Sendable(s.status) && s.address == Verified
    ensures var cut := Cut(SendOrResend(sender, suppliers, Accepted), 1);
            var s' := AfterCut(s, cut);
            && LostBy(s, cut) == Lost(1, 0)
            && s'.status == SentToSupplier && s'.released && |s'.comms| == |s.comms| + 1
            && |s'.events| == |s.events| + 1 && !s'.events[|s.events|].EmailSent?
  {
    SendableEdges(s.status);
    hide AllowedTransitions, Sendable;
  }
}
