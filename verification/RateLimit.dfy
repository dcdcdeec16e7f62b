/** The fixed-window rate limiter of the magic-link redeem endpoint. */
module RateLimit {
  import opened Common

  datatype Window = Window(count: int, resetAt: real)

  const NEW_WINDOW := Window(0, 0.0)

  /** Keys are swept when the dictionary holds more than this many. */
  const SWEEP_ABOVE: nat := 4096

  datatype Limiter = Limiter(
    perKeyLimit: int, globalLimit: int, windowSeconds: real, keys: map<string, Window>, total: Window)

  datatype Call = Call(key: string, now: real)

  // ------------------------------------------------------------------
  // Specification
  // ------------------------------------------------------------------

  function Bumped(w: Window, now: real, seconds: real): Window {
    if now >= w.resetAt then Window(1, now + seconds) else w.(count := w.count + 1)
  }

  function Live(keys: map<string, Window>, now: real): map<string, Window> {
    map k | k in keys && now < keys[k].resetAt :: keys[k]
  }

  function WindowOf(keys: map<string, Window>, key: string): Window {
    if key in keys then keys[key] else NEW_WINDOW
  }

  /** Counting one call against the keys that are remembered. */
  function Counted(l: Limiter, c: Call): (Limiter, bool) {
    var w := Bumped(WindowOf(l.keys, c.key), c.now, l.windowSeconds);
    var t := Bumped(l.total, c.now, l.windowSeconds);
    (l.(keys := l.keys[c.key := w], total := t), w.count <= l.perKeyLimit && t.count <= l.globalLimit)
  }

  function Swept(l: Limiter, now: real, above: nat): Limiter {
    if |l.keys| > above then l.(keys := Live(l.keys, now)) else l
  }

  function Allow(l: Limiter, c: Call, above: nat): (Limiter, bool) {
    Counted(Swept(l, c.now, above), c)
  }

  /** The answers to a history of calls. */
  function Answers(l: Limiter, calls: seq<Call>, above: nat): (r: seq<bool>)
    ensures |r| == |calls|
    decreases calls
  {
    if calls == [] then []
    else [Allow(l, calls[0], above).1] + Answers(Allow(l, calls[0], above).0, calls[1..], above)
  }

  /** The answers of a limiter that never forgets a key. */
  function AnswersWithoutSweep(l: Limiter, calls: seq<Call>): (r: seq<bool>)
    ensures |r| == |calls|
    decreases calls
  {
    if calls == [] then []
    else [Counted(l, calls[0]).1] + AnswersWithoutSweep(Counted(l, calls[0]).0, calls[1..])
  }

  predicate IsNew(l: Limiter) { l.keys == map[] && l.total == NEW_WINDOW }

  /** A monotonic clock: times never decrease. */
  predicate Ordered(times: seq<real>) {
    forall i, j :: 0 <= i < j < |times| ==> times[i] <= times[j]
  }

  function TimesOf(calls: seq<Call>): (r: seq<real>)
    ensures |r| == |calls| && forall i :: 0 <= i < |calls| ==> r[i] == calls[i].now
  {
    seq(|calls|, i requires 0 <= i < |calls| => calls[i].now)
  }

  // ------------------------------------------------------------------
  // The limiter
  // ------------------------------------------------------------------

  class FixedWindowRateLimiter {
    const perKeyLimit: int
    const globalLimit: int
    const windowSeconds: real
    var keys: map<string, Window>
    var total: Window

    function State(): Limiter
      reads this
    {
      Limiter(perKeyLimit, globalLimit, windowSeconds, keys, total)
    }

    constructor (perKeyLimit: int, globalLimit: int, windowSeconds: real)
      ensures IsNew(State())
      ensures this.perKeyLimit == perKeyLimit && this.globalLimit == globalLimit && this.windowSeconds == windowSeconds
    {
      this.perKeyLimit, this.globalLimit, this.windowSeconds := perKeyLimit, globalLimit, windowSeconds;
      this.keys, this.total := map[], NEW_WINDOW;
    }

    method Bump(window: Window, limit: int, now: real) returns (after: Window, ok: bool)
      ensures after == Bumped(window, now, windowSeconds) && ok == (after.count <= limit)
    {
      after := window;
      if now >= after.resetAt {
        after := Window(0, now + windowSeconds);
      }
      after := after.(count := after.count + 1);
      ok := after.count <= limit;
    }

    /** One call, under the lock, with the time the clock gave. */
    method AllowCall(key: string, now: real) returns (ok: bool)
      modifies this
      ensures (State(), ok) == Allow(old(State()), Call(key, now), SWEEP_ABOVE)
    {
      if |keys| > SWEEP_ABOVE {
        keys := map k | k in keys && now < keys[k].resetAt :: keys[k];
      }
      var window := if key in keys then keys[key] else NEW_WINDOW;
      var perKeyOk, globalOk;
      window, perKeyOk := Bump(window, perKeyLimit, now);
      keys := keys[key := window];
      total, globalOk := Bump(total, globalLimit, now);
      ok := perKeyOk && globalOk;
    }
  }

  // ------------------------------------------------------------------
  // The sweep is invisible
  // ------------------------------------------------------------------

  /**
   * After a call at time `t` the sweeping limiter differs from the one that
   * never forgets only in lacking some windows that had expired by then.
   */
  predicate Agree(l: Limiter, m: Limiter, t: real) {
    && l.(keys := m.keys) == m
    && (forall k :: k in l.keys ==> k in m.keys && l.keys[k] == m.keys[k])
    && (forall k :: k in m.keys && k !in l.keys ==> m.keys[k].resetAt <= t && 0.0 <= t)
    && (forall k :: k in m.keys && m.keys[k].resetAt != 0.0 ==> 0.0 <= t)
  }

  lemma SweepThenCountAgrees(l: Limiter, m: Limiter, t: real, c: Call, above: nat)
    requires Agree(l, m, t) && t <= c.now
    ensures Allow(l, c, above).1 == Counted(m, c).1
    ensures Agree(Allow(l, c, above).0, Counted(m, c).0, c.now)
  {
    var s := Swept(l, c.now, above);
    assert Agree(s, m, c.now);
    assert Bumped(WindowOf(s.keys, c.key), c.now, l.windowSeconds)
           == Bumped(WindowOf(m.keys, c.key), c.now, m.windowSeconds);
  }

  lemma {:induction false} AgreeingLimitersAnswerAlike(l: Limiter, m: Limiter, t: real, calls: seq<Call>, above: nat)
    requires Agree(l, m, t)
    requires Ordered(TimesOf(calls)) && (calls != [] ==> t <= calls[0].now)
    ensures Answers(l, calls, above) == AnswersWithoutSweep(m, calls)
    decreases calls
  {
    if calls == [] {
    } else {
      SweepThenCountAgrees(l, m, t, calls[0], above);
      var times := TimesOf(calls);
      assert TimesOf(calls[1..]) == times[1..];
      assert |calls| > 1 ==> times[0] <= times[1];
      AgreeingLimitersAnswerAlike(Allow(l, calls[0], above).0, Counted(m, calls[0]).0, calls[0].now, calls[1..], above);
    }
  }

  /**
   * Cleanup transparency: on every history of a monotonic clock, whatever the
   * sweep threshold, each answer is the one a limiter without a sweep gives.
   */
  lemma SweepIsInvisible(l: Limiter, calls: seq<Call>, above: nat)
    requires IsNew(l) && Ordered(TimesOf(calls))
    ensures Answers(l, calls, above) == AnswersWithoutSweep(l, calls)
  {
    if calls != [] {
      AgreeingLimitersAnswerAlike(l, l, calls[0].now, calls, above);
    }
  }

  /** The dictionary outgrows the threshold only by windows that are still live. */
  lemma DictionaryIsBounded(l: Limiter, c: Call, above: nat)
    ensures var size := |Allow(l, c, above).0.keys|;
            size <= above + 1 || size <= |Live(l.keys, c.now)| + 1
  {
  }

  // ------------------------------------------------------------------
  // The rate bound, for one window over a stream of times
  // ------------------------------------------------------------------

  predicate Within(t: real, a: real, seconds: real) { a <= t < a + seconds }

  /** How many bumps of one window succeed in [a, a + seconds). */
  function Passes(w: Window, limit: int, seconds: real, times: seq<real>, a: real): nat
    decreases times
  {
    if times == [] then 0
    else
      var next := Bumped(w, times[0], seconds);
      (if Within(times[0], a, seconds) && next.count <= limit then 1 else 0)
      + Passes(next, limit, seconds, times[1..], a)
  }

  function Positive(n: int): nat { if n > 0 then n else 0 }

  lemma {:induction false} NoneAfterTheInterval(w: Window, limit: int, seconds: real, times: seq<real>, a: real)
    requires Ordered(times) && times != [] && times[0] >= a + seconds
    ensures Passes(w, limit, seconds, times, a) == 0
    decreases times
  {
    if |times| <= 1 {
    } else {
      assert times[0] <= times[1];
      NoneAfterTheInterval(Bumped(w, times[0], seconds), limit, seconds, times[1..], a);
    }
  }

  /** A window that outlasts the interval admits no more than what is left of its limit. */
  lemma {:induction false} OneWindowLeft(w: Window, limit: int, seconds: real, times: seq<real>, a: real)
    requires Ordered(times) && w.resetAt >= a + seconds
    ensures Passes(w, limit, seconds, times, a) <= Positive(limit - w.count)
    decreases times
  {
    if times == [] {
    } else {
      if times[0] >= a + seconds {
        NoneAfterTheInterval(w, limit, seconds, times, a);
      } else {
        OneWindowLeft(Bumped(w, times[0], seconds), limit, seconds, times[1..], a);
      }
    }
  }

  /** Inside the interval at most one further window can start. */
  lemma {:induction false} OneMoreWindow(w: Window, limit: int, seconds: real, times: seq<real>, a: real)
    requires Ordered(times) && w.count >= 0
    requires times != [] ==> a <= times[0]
    ensures Passes(w, limit, seconds, times, a) <= Positive(limit - w.count) + Positive(limit)
    decreases times
  {
    if times == [] {
    } else {
      var next := Bumped(w, times[0], seconds);
      if times[0] >= a + seconds {
        NoneAfterTheInterval(w, limit, seconds, times, a);
      } else if times[0] >= w.resetAt {
        OneWindowLeft(next, limit, seconds, times[1..], a);
      } else {
        assert |times| > 1 ==> times[0] <= times[1];
        OneMoreWindow(next, limit, seconds, times[1..], a);
      }
    }
  }

  /** The window has been counting since a call, or is due to start over. */
  predicate Started(w: Window, times: seq<real>) {
    w.count >= 1 || (times != [] ==> w.resetAt <= times[0])
  }

  /**
   * At most twice the limit passes in any interval of one window length; one
   * less if the window was started by a call, because that call and the start of
   * the next window are a full window apart.
   */
  lemma {:induction false} TwoWindowsAtMost(w: Window, limit: int, seconds: real, times: seq<real>, a: real)
    requires Ordered(times) && w.count >= 0
    ensures Passes(w, limit, seconds, times, a) <= Positive(2 * limit)
    ensures Started(w, times) ==> Passes(w, limit, seconds, times, a) <= Positive(2 * limit - 1)
    decreases times
  {
    if times == [] {
    } else {
      var next := Bumped(w, times[0], seconds);
      if times[0] < a {
        TwoWindowsAtMost(next, limit, seconds, times[1..], a);
      } else if times[0] >= a + seconds {
        NoneAfterTheInterval(w, limit, seconds, times, a);
      } else {
        if times[0] >= w.resetAt {
          OneWindowLeft(next, limit, seconds, times[1..], a);
        } else {
          assert |times| > 1 ==> times[0] <= times[1];
          OneMoreWindow(next, limit, seconds, times[1..], a);
        }
      }
    }
  }

  function Repeat(t: real, n: nat): (r: seq<real>)
    ensures |r| == n && forall i :: 0 <= i < n ==> r[i] == t
  {
    if n == 0 then [] else [t] + Repeat(t, n - 1)
  }

  lemma {:induction false} BurstPasses(w: Window, limit: int, seconds: real, t: real, n: nat, rest: seq<real>, a: real)
    requires Within(t, a, seconds) && t < w.resetAt && w.count + n <= limit
    ensures Passes(w, limit, seconds, Repeat(t, n) + rest, a)
            == n + Passes(w.(count := w.count + n), limit, seconds, rest, a)
    decreases n
  {
    if n == 0 {
      assert Repeat(t, 0) + rest == rest;
    } else {
      BurstPasses(w.(count := w.count + 1), limit, seconds, t, n - 1, rest, a);
      assert (Repeat(t, n) + rest)[1..] == Repeat(t, n - 1) + rest;
    }
  }

  lemma BurstsInOrder(half: real, full: real, m: nat, n: nat)
    requires 0.0 <= half <= full
    ensures Ordered([0.0] + Repeat(half, m) + Repeat(full, n))
  {
  }

  /** One call, the rest of the limit mid-window, and the whole limit at the next window's start. */
  function BurstTimes(limit: int, seconds: real): seq<real>
    requires limit >= 1
  {
    [0.0] + Repeat(seconds / 2.0, limit - 1) + Repeat(seconds, limit)
  }

  lemma BurstPassesTwice(limit: int, seconds: real)
    requires limit >= 1 && seconds > 0.0
    ensures Ordered(BurstTimes(limit, seconds))
    ensures Passes(NEW_WINDOW, limit, seconds, BurstTimes(limit, seconds), seconds / 2.0) == 2 * limit - 1
  {
    BurstsInOrder(seconds / 2.0, seconds, limit - 1, limit);
    hide Ordered;
    var half, a := seconds / 2.0, seconds / 2.0;
    var late := Repeat(seconds, limit);
    var times := BurstTimes(limit, seconds);
    assert times[1..] == Repeat(half, limit - 1) + late;
    BurstPasses(Window(1, seconds), limit, seconds, half, limit - 1, late, a);
    assert late[1..] == Repeat(seconds, limit - 1) + [];
    BurstPasses(Window(1, seconds + seconds), limit, seconds, seconds, limit - 1, [], a);
  }

  // ------------------------------------------------------------------
  // The rate bound, for the limiter
  // ------------------------------------------------------------------

  /** A call counts towards one key's rate, or towards the overall rate. */
  predicate Concerns(c: Call, who: Option<string>) { who == None || who == Some(c.key) }

  function LimitFor(l: Limiter, who: Option<string>): int { if who == None then l.globalLimit else l.perKeyLimit }

  function WindowFor(l: Limiter, who: Option<string>): Window {
    if who == None then l.total else WindowOf(l.keys, who.value)
  }

  function TimesFor(calls: seq<Call>, who: Option<string>): seq<real> {
    if calls == [] then []
    else (if Concerns(calls[0], who) then [calls[0].now] else []) + TimesFor(calls[1..], who)
  }

  /** Calls that were allowed, concern `who`, and fall in [a, a + seconds). */
  function AllowedCount(calls: seq<Call>, answers: seq<bool>, who: Option<string>, a: real, seconds: real): nat
    requires |calls| == |answers|
  {
    if calls == [] then 0
    else (if answers[0] && Concerns(calls[0], who) && Within(calls[0].now, a, seconds) then 1 else 0)
         + AllowedCount(calls[1..], answers[1..], who, a, seconds)
  }

  lemma {:induction false} TimesForAreOrdered(calls: seq<Call>, who: Option<string>)
    requires Ordered(TimesOf(calls))
    ensures Ordered(TimesFor(calls, who))
    ensures forall t :: t in TimesFor(calls, who) ==> t in TimesOf(calls)
  {
    if calls == [] {
    } else {
      var times := TimesOf(calls);
      assert TimesOf(calls[1..]) == times[1..] && times[0] == calls[0].now;
      TimesForAreOrdered(calls[1..], who);
      var rest := TimesFor(calls[1..], who);
      hide TimesFor, TimesOf;
      SelectedStayOrdered(times, rest);
    }
  }

  lemma SelectedStayOrdered(times: seq<real>, rest: seq<real>)
    requires times != [] && Ordered(times) && Ordered(rest) && forall t :: t in rest ==> t in times[1..]
    ensures Ordered([times[0]] + rest)
    ensures forall t :: t in [times[0]] + rest ==> t in times
  {
    forall t | t in rest
      ensures times[0] <= t && t in times
    {
      var i :| 0 <= i < |times[1..]| && times[1..][i] == t;
      assert times[i + 1] == t;
    }
    assert forall j :: 0 <= j < |rest| ==> rest[j] in rest;
    var all := [times[0]] + rest;
    forall i, j | 0 <= i < j < |all|
      ensures all[i] <= all[j]
    {
      assert all[j] == rest[j - 1];
      if i > 0 { assert all[i] == rest[i - 1]; }
    }
  }

  /** Every allowed call passed its own window, rejected calls having counted as well. */
  lemma {:induction false} AllowedPassedTheWindow(l: Limiter, calls: seq<Call>, who: Option<string>, a: real)
    ensures AllowedCount(calls, AnswersWithoutSweep(l, calls), who, a, l.windowSeconds)
         <= Passes(WindowFor(l, who), LimitFor(l, who), l.windowSeconds, TimesFor(calls, who), a)
    decreases calls
  {
    if calls == [] {
    } else {
      var l' := Counted(l, calls[0]).0;
      AllowedPassedTheWindow(l', calls[1..], who, a);
      if Concerns(calls[0], who) {
        assert WindowFor(l', who) == Bumped(WindowFor(l, who), calls[0].now, l.windowSeconds);
        assert TimesFor(calls, who)[1..] == TimesFor(calls[1..], who);
      } else {
        assert WindowFor(l', who) == WindowFor(l, who);
        assert TimesFor(calls, who) == TimesFor(calls[1..], who);
      }
    }
  }

  /**
   * The rate bound: on every history of a monotonic clock, in any half-open
   * interval of one window length, at most 2 * limit calls are allowed for a key
   * and overall; with a clock that starts at or above zero, at most 2 * limit - 1.
   */
  lemma RateIsBounded(l: Limiter, calls: seq<Call>, above: nat, who: Option<string>, a: real)
    requires IsNew(l) && Ordered(TimesOf(calls))
    ensures var allowed := AllowedCount(calls, Answers(l, calls, above), who, a, l.windowSeconds);
            && allowed <= Positive(2 * LimitFor(l, who))
            && ((forall i :: 0 <= i < |calls| ==> calls[i].now >= 0.0) ==>
                allowed <= Positive(2 * LimitFor(l, who) - 1))
  {
    SweepIsInvisible(l, calls, above);
    AllowedPassedTheWindow(l, calls, who, a);
    TimesForAreOrdered(calls, who);
    var times := TimesFor(calls, who);
    assert WindowFor(l, who) == NEW_WINDOW;
    TwoWindowsAtMost(NEW_WINDOW, LimitFor(l, who), l.windowSeconds, times, a);
    if forall i :: 0 <= i < |calls| ==> calls[i].now >= 0.0 {
      assert times != [] ==> times[0] in TimesOf(calls);
    }
  }

  // ------------------------------------------------------------------
  // The bound is reached
  // ------------------------------------------------------------------

  /** With one key only, and no tighter overall limit, the answers are that key's window's. */
  lemma {:induction false} OneKeyAnswers(l: Limiter, calls: seq<Call>, key: string, a: real)
    requires forall i :: 0 <= i < |calls| ==> calls[i].key == key
    requires WindowOf(l.keys, key) == l.total && l.perKeyLimit <= l.globalLimit
    ensures AllowedCount(calls, AnswersWithoutSweep(l, calls), Some(key), a, l.windowSeconds)
         == Passes(l.total, l.perKeyLimit, l.windowSeconds, TimesOf(calls), a)
    decreases calls
  {
    if calls == [] {
    } else {
      OneKeyAnswers(Counted(l, calls[0]).0, calls[1..], key, a);
      assert TimesOf(calls)[1..] == TimesOf(calls[1..]);
    }
  }

  /** With a new key for every call, the answers are the overall window's. */
  lemma {:induction false} NewKeysAnswers(l: Limiter, calls: seq<Call>, a: real)
    requires forall i, j :: 0 <= i < j < |calls| ==> calls[i].key != calls[j].key
    requires (forall i :: 0 <= i < |calls| ==> calls[i].key !in l.keys) && l.perKeyLimit >= 1
    ensures AllowedCount(calls, AnswersWithoutSweep(l, calls), None, a, l.windowSeconds)
         == Passes(l.total, l.globalLimit, l.windowSeconds, TimesOf(calls), a)
    decreases calls
  {
    if calls == [] {
    } else {
      NewKeysAnswers(Counted(l, calls[0]).0, calls[1..], a);
      assert TimesOf(calls)[1..] == TimesOf(calls[1..]);
    }
  }

  function OneKeyCalls(key: string, times: seq<real>): (calls: seq<Call>)
    ensures TimesOf(calls) == times && forall i :: 0 <= i < |calls| ==> calls[i].key == key
  {
    seq(|times|, i requires 0 <= i < |times| => Call(key, times[i]))
  }

  function NewKeyCalls(times: seq<real>): (calls: seq<Call>)
    ensures TimesOf(calls) == times && forall i, j :: 0 <= i < j < |calls| ==> calls[i].key != calls[j].key
  {
    var calls := seq(|times|, i requires 0 <= i < |times| => Call(seq(i, _ => 'k'), times[i]));
    assert forall i :: 0 <= i < |calls| ==> |calls[i].key| == i;
    calls
  }

  /** The per-key bound is reached: a history of one key, on every limiter whose overall limit is no tighter. */
  lemma KeyBoundIsReached(l: Limiter, key: string, above: nat)
    requires IsNew(l) && 1 <= l.perKeyLimit <= l.globalLimit && l.windowSeconds > 0.0
    ensures var calls := OneKeyCalls(key, BurstTimes(l.perKeyLimit, l.windowSeconds));
            && Ordered(TimesOf(calls))
            && AllowedCount(calls, Answers(l, calls, above), Some(key), l.windowSeconds / 2.0, l.windowSeconds)
            == 2 * l.perKeyLimit - 1
  {
    hide Ordered, OneKeyCalls, BurstTimes, Passes, AllowedCount, Answers, AnswersWithoutSweep;
    var calls := OneKeyCalls(key, BurstTimes(l.perKeyLimit, l.windowSeconds));
    BurstPassesTwice(l.perKeyLimit, l.windowSeconds);
    SweepIsInvisible(l, calls, above);
    OneKeyAnswers(l, calls, key, l.windowSeconds / 2.0);
  }

  /** The overall bound is reached: a history with a key of its own for every call. */
  lemma OverallBoundIsReached(l: Limiter, above: nat)
    requires IsNew(l) && l.perKeyLimit >= 1 && l.globalLimit >= 1 && l.windowSeconds > 0.0
    ensures var calls := NewKeyCalls(BurstTimes(l.globalLimit, l.windowSeconds));
            && Ordered(TimesOf(calls))
            && AllowedCount(calls, Answers(l, calls, above), None, l.windowSeconds / 2.0, l.windowSeconds)
            == 2 * l.globalLimit - 1
  {
    hide Ordered, NewKeyCalls, BurstTimes, Passes, AllowedCount, Answers, AnswersWithoutSweep;
    var calls := NewKeyCalls(BurstTimes(l.globalLimit, l.windowSeconds));
    BurstPassesTwice(l.globalLimit, l.windowSeconds);
    SweepIsInvisible(l, calls, above);
    NewKeysAnswers(l, calls, l.windowSeconds / 2.0);
  }

  // ------------------------------------------------------------------
  // No refusal without load
  // ------------------------------------------------------------------

  /** The limiter after a history, when it never forgets a key. */
  function StateAfter(l: Limiter, calls: seq<Call>): Limiter {
    if calls == [] then l else Counted(StateAfter(l, calls[..|calls| - 1]), calls[|calls| - 1]).0
  }

  /** How many of the calls that concern `who` came at time `a` or later. */
  function LoadSince(calls: seq<Call>, who: Option<string>, a: real): nat {
    if calls == [] then 0
    else
      var last := calls[|calls| - 1];
      LoadSince(calls[..|calls| - 1], who, a) + if Concerns(last, who) && last.now >= a then 1 else 0
  }

  /** How many of the calls that concern `who` came later than time `a`. */
  function LoadAfter(calls: seq<Call>, who: Option<string>, a: real): nat {
    if calls == [] then 0
    else
      var last := calls[|calls| - 1];
      LoadAfter(calls[..|calls| - 1], who, a) + if Concerns(last, who) && last.now > a then 1 else 0
  }

  lemma {:induction false} LoadsCompare(calls: seq<Call>, who: Option<string>, a: real, b: real)
    requires b < a
    ensures LoadSince(calls, who, a) <= LoadAfter(calls, who, b)
  {
    if calls == [] {
    } else {
      LoadsCompare(calls[..|calls| - 1], who, a, b);
    }
  }

  lemma {:induction false} StateAfterHead(l: Limiter, calls: seq<Call>)
    requires calls != []
    ensures StateAfter(l, calls) == StateAfter(Counted(l, calls[0]).0, calls[1..])
    decreases |calls|
  {
    if |calls| == 1 {
      assert calls[..0] == [] && calls[1..] == [];
    } else {
      var front := calls[..|calls| - 1];
      StateAfterHead(l, front);
      assert front[1..] == calls[1..][..|calls| - 2] && front[0] == calls[0];
    }
  }

  lemma {:induction false} AnswerAt(l: Limiter, calls: seq<Call>, k: nat)
    requires k < |calls|
    ensures AnswersWithoutSweep(l, calls)[k] == Counted(StateAfter(l, calls[..k]), calls[k]).1
    decreases |calls|
  {
    if k == 0 {
      assert calls[..0] == [];
    } else {
      AnswerAt(Counted(l, calls[0]).0, calls[1..], k - 1);
      StateAfterHead(l, calls[..k]);
      assert calls[..k][1..] == calls[1..][..k - 1];
    }
  }

  /** Every call a window has counted came within a window length before it is due. */
  predicate Backed(w: Window, calls: seq<Call>, who: Option<string>, seconds: real) {
    && 0 <= w.count <= LoadSince(calls, who, w.resetAt - seconds)
    && (w.count == 0 ==> w == NEW_WINDOW)
    && (w.count > 0 ==> calls != [] && w.resetAt - seconds <= calls[|calls| - 1].now)
  }

  lemma {:induction false} WindowsAreBacked(l: Limiter, calls: seq<Call>, who: Option<string>)
    requires IsNew(l) && Ordered(TimesOf(calls)) && forall i :: 0 <= i < |calls| ==> calls[i].now >= 0.0
    ensures Backed(WindowFor(StateAfter(l, calls), who), calls, who, l.windowSeconds)
    ensures var after := StateAfter(l, calls);
            after.windowSeconds == l.windowSeconds && after.perKeyLimit == l.perKeyLimit && after.globalLimit
              == l.globalLimit
  {
    if calls == [] {
    } else {
      var front, c := calls[..|calls| - 1], calls[|calls| - 1];
      assert TimesOf(front) == TimesOf(calls)[..|calls| - 1];
      WindowsAreBacked(l, front, who);
      var before, after := StateAfter(l, front), StateAfter(l, calls);
      assert WindowFor(after, who) ==
             if Concerns(c, who) then Bumped(WindowFor(before, who), c.now, l.windowSeconds)
               else WindowFor(before, who);
      if front != [] { LastIsLatest(calls); }
      hide StateAfter, WindowFor, Ordered;
      BumpStaysBacked(WindowFor(StateAfter(l, front), who), calls, who, l.windowSeconds);
    }
  }

  lemma LastIsLatest(calls: seq<Call>)
    requires Ordered(TimesOf(calls)) && |calls| >= 2
    ensures calls[|calls| - 2].now <= calls[|calls| - 1].now
  {
    var times := TimesOf(calls);
    assert times[|calls| - 2] <= times[|calls| - 1];
  }

  lemma BumpStaysBacked(w: Window, calls: seq<Call>, who: Option<string>, seconds: real)
    requires calls != [] && calls[|calls| - 1].now >= 0.0
    requires |calls| >= 2 ==> calls[|calls| - 2].now <= calls[|calls| - 1].now
    requires Backed(w, calls[..|calls| - 1], who, seconds)
    ensures var last := calls[|calls| - 1];
            Backed(if Concerns(last, who) then Bumped(w, last.now, seconds) else w, calls, who, seconds)
  {
    hide Concerns;
    var (front, last) := (calls[..|calls| - 1], calls[|calls| - 1]);
    assert front != [] ==> front[|front| - 1] == calls[|calls| - 2];
    assert last.now + seconds - seconds == last.now;
  }

  /**
   * No refusal without load: a refused call has, within the window length before
   * it, at least the limit of earlier calls of its key, or at least the overall
   * limit of earlier calls.
   */
  lemma RefusedUnderLoad(l: Limiter, calls: seq<Call>, above: nat, k: nat)
    requires IsNew(l) && Ordered(TimesOf(calls)) && forall i :: 0 <= i < |calls| ==> calls[i].now >= 0.0
    requires k < |calls| && !Answers(l, calls, above)[k]
    ensures var (before, since) := (calls[..k], calls[k].now - l.windowSeconds);
            || LoadAfter(before, Some(calls[k].key), since) >= l.perKeyLimit
            || LoadAfter(before, None, since) >= l.globalLimit
  {
    hide Ordered, StateAfter, Answers, AnswersWithoutSweep, LoadSince, LoadAfter, WindowFor, Backed, IsNew;
    SweepIsInvisible(l, calls, above);
    RefusedByAWindow(l, calls, k);
    assert TimesOf(calls[..k]) == TimesOf(calls)[..k];
    PrefixIsOrdered(TimesOf(calls), k);
    var before := StateAfter(l, calls[..k]);
    if Bumped(WindowFor(before, Some(calls[k].key)), calls[k].now, l.windowSeconds).count > l.perKeyLimit {
      WindowsAreBacked(l, calls[..k], Some(calls[k].key));
      FullWindowMeansLoad(WindowFor(before, Some(calls[k].key)), calls[..k], Some(calls[k].key),
                          l.windowSeconds, l.perKeyLimit, calls[k].now);
    } else {
      WindowsAreBacked(l, calls[..k], None);
      FullWindowMeansLoad(WindowFor(before, None), calls[..k], None, l.windowSeconds, l.globalLimit, calls[k].now);
    }
  }

  lemma PrefixIsOrdered(times: seq<real>, k: nat)
    requires Ordered(times) && k <= |times|
    ensures Ordered(times[..k])
  {
  }

  /** A refused call overfills the window of its key or the overall one. */
  lemma RefusedByAWindow(l: Limiter, calls: seq<Call>, k: nat)
    requires IsNew(l) && k < |calls| && !AnswersWithoutSweep(l, calls)[k]
    requires Ordered(TimesOf(calls)) && forall i :: 0 <= i < |calls| ==> calls[i].now >= 0.0
    ensures var before := StateAfter(l, calls[..k]);
            || Bumped(WindowFor(before, Some(calls[k].key)), calls[k].now, l.windowSeconds).count > l.perKeyLimit
            || Bumped(WindowFor(before, None), calls[k].now, l.windowSeconds).count > l.globalLimit
  {
    AnswerAt(l, calls, k);
    assert TimesOf(calls[..k]) == TimesOf(calls)[..k];
    PrefixIsOrdered(TimesOf(calls), k);
    WindowsAreBacked(l, calls[..k], None);
    hide StateAfter, AnswersWithoutSweep, Ordered, Backed;
  }

  lemma FullWindowMeansLoad(w: Window, calls: seq<Call>, who: Option<string>, seconds: real, limit: int, now: real)
    requires Backed(w, calls, who, seconds) && Bumped(w, now, seconds).count > limit
    ensures LoadAfter(calls, who, now - seconds) >= limit
  {
    if now < w.resetAt { LoadsCompare(calls, who, w.resetAt - seconds, now - seconds); }
  }
}
