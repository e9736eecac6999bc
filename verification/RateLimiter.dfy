/**
 The controller's discovery rate limiter: fixed one-minute windows per source, at
 most 1024 tracked sources, and first-in-first-out eviction.
 */
module RateLimiter {
  import opened Prelude

  const MAX_TRACKED_SOURCES: nat := 1024
  const SOURCE_WINDOW: nat := 60_000  // milliseconds
  const MAX_REQUESTS_PER_SOURCE: nat := 30

  type Source = nat

  datatype SourceBudget = SourceBudget(windowStarted: nat, requests: nat)

  /** One admitted request and the ordinal of the window it was counted in. */
  datatype Admission = Admission(at: nat, window: nat)

  /** Everything admitted for one source since it has been tracked. */
  datatype History = History(starts: seq<nat>, log: seq<Admission>)

  ghost function InWindow(log: seq<Admission>, w: int): nat {
    if log == [] then 0
    else InWindow(log[..|log| - 1], w) + if log[|log| - 1].window == w then 1 else 0
  }

  /** How many requests were admitted from `t` up to, not including, `t + SOURCE_WINDOW`. */
  ghost function AdmittedIn(log: seq<Admission>, t: int): nat {
    if log == [] then 0
    else AdmittedIn(log[..|log| - 1], t) + if Inside(log[|log| - 1], t) then 1 else 0
  }

  ghost predicate Inside(a: Admission, t: int) {
    t <= a.at < t + SOURCE_WINDOW
  }

  /** The windows do not overlap, each opens with an admission and admits at most its budget. */
  ghost predicate Orderly(h: History) {
    && (forall i, j :: 0 <= i < j < |h.starts| ==> h.starts[i] + SOURCE_WINDOW <= h.starts[j])
    && (forall k :: 0 <= k < |h.log| ==> InItsWindow(h, h.log[k]))
    && (forall w :: 0 <= w < |h.starts| ==> InWindow(h.log, w) <= MAX_REQUESTS_PER_SOURCE)
    && (forall w :: 0 <= w < |h.starts| ==> Admission(h.starts[w], w) in h.log)
  }

  ghost predicate InItsWindow(h: History, a: Admission) {
    a.window < |h.starts| && h.starts[a.window] <= a.at < h.starts[a.window] + SOURCE_WINDOW
  }

  /** A budget is the summary of the last window of a history. */
  ghost predicate Summarizes(b: SourceBudget, h: History) {
    && |h.starts| > 0 && Orderly(h)
    && b.windowStarted == h.starts[|h.starts| - 1]
    && b.requests == InWindow(h.log, |h.starts| - 1)
  }

  /** The queue lists the tracked sources, each once. */
  ghost predicate Listing(order: seq<Source>, sources: set<Source>) {
    && (forall i, j :: 0 <= i < j < |order| ==> order[i] != order[j])
    && (forall s :: s in order <==> s in sources)
    && |order| == |sources|
  }

  lemma {:induction false} Dequeued(order: seq<Source>, sources: set<Source>)
    requires Listing(order, sources) && |order| > 0
    ensures Listing(order[1..], sources - {order[0]})
  {
    assert order[0] in order;
    assert forall s :: s in order <==> s == order[0] || s in order[1..];
  }

  lemma {:induction false} Enqueued(order: seq<Source>, sources: set<Source>, s: Source)
    requires Listing(order, sources) && s !in sources
    ensures Listing(order + [s], sources + {s})
  {
    assert forall x :: x in order + [s] <==> x in order || x == s;
  }

  /** One request of a tracked source: its new budget, and whether it is admitted. */
  function Step(b: SourceBudget, now: nat): (SourceBudget, bool) {
    if Since(now, b.windowStarted) >= SOURCE_WINDOW then (SourceBudget(now, 1), true)
    else if b.requests >= MAX_REQUESTS_PER_SOURCE then (b, false)
    else (SourceBudget(b.windowStarted, b.requests + 1), true)
  }

  /** The limiter's state as a value. */
  datatype Table = Table(budgets: map<Source, SourceBudget>, order: seq<Source>)

  ghost predicate Listed(l: Table) {
    Listing(l.order, l.budgets.Keys) && |l.order| <= MAX_TRACKED_SOURCES
  }

  /** One request: a tracked source uses its budget; a new one starts a window, in place of the oldest source if need be. */
  function Admit(l: Table, source: Source, now: nat): (Table, bool) {
    if source in l.budgets then
      var (b, ok) := Step(l.budgets[source], now);
      (l.(budgets := l.budgets[source := b]), ok)
    else if |l.order| < MAX_TRACKED_SOURCES then
      (Table(l.budgets[source := SourceBudget(now, 1)], l.order + [source]), true)
    else
      (Table((l.budgets - {l.order[0]})[source := SourceBudget(now, 1)], l.order[1..] + [source]), true)
  }

  class Limiter {
    var budgets: map<Source, SourceBudget>
    var order: seq<Source>

    ghost function Value(): Table
      reads this
    {
      Table(budgets, order)
    }

    ghost predicate Valid()
      reads this
    {
      Listed(Value())
    }

    constructor ()
      ensures Valid() && Value() == Table(map[], [])
    {
      budgets, order := map[], [];
    }

    method Allow(source: Source, now: nat) returns (ok: bool)
      requires Valid()
      modifies this
      ensures Valid() && (Value(), ok) == Admit(old(Value()), source, now)
    {
      if source !in budgets {
        StartTracking(source, now);
        return true;
      }
      var b := budgets[source];
      if Since(now, b.windowStarted) >= SOURCE_WINDOW {
        Store(source, SourceBudget(now, 1));
        return true;
      }
      if b.requests >= MAX_REQUESTS_PER_SOURCE {
        assert budgets[source := b] == budgets;
        return false;
      }
      Store(source, SourceBudget(b.windowStarted, b.requests + 1));
      return true;
    }

    method StartTracking(source: Source, now: nat)
      requires Valid() && source !in budgets
      modifies this
      ensures Valid()
      ensures if |old(order)| < MAX_TRACKED_SOURCES
              then order == old(order) + [source] && budgets == old(budgets)[source := SourceBudget(now, 1)]
              else order == old(order)[1..] + [source]
                   && budgets == (old(budgets) - {old(order)[0]})[source := SourceBudget(now, 1)]
    {
      assert |budgets| == |budgets.Keys| == |order|;
      if |budgets| >= MAX_TRACKED_SOURCES && |order| > 0 {
        EvictOldest();
      }
      Track(source, SourceBudget(now, 1));
    }

    method Store(source: Source, b: SourceBudget)
      requires Valid() && source in budgets
      modifies this`budgets
      ensures Valid() && budgets == old(budgets)[source := b]
    {
      budgets := budgets[source := b];
      assert budgets.Keys == old(budgets).Keys;
    }

    method EvictOldest()
      requires Valid() && |order| > 0
      modifies this
      ensures Valid() && order == old(order)[1..] && budgets == old(budgets) - {old(order)[0]}
    {
      Dequeued(order, budgets.Keys);
      budgets, order := budgets - {order[0]}, order[1..];
      assert budgets.Keys == old(budgets).Keys - {old(order)[0]};
    }

    method Track(source: Source, b: SourceBudget)
      requires Valid() && source !in budgets && |order| < MAX_TRACKED_SOURCES
      modifies this
      ensures Valid() && order == old(order) + [source] && budgets == old(budgets)[source := b]
    {
      Enqueued(order, budgets.Keys, source);
      order, budgets := order + [source], budgets[source := b];
      assert budgets.Keys == old(budgets).Keys + {source};
    }
  }

  // ----- one source while it stays tracked -----

  /** Request times as a monotonic clock gives them. */
  ghost predicate Monotonic(times: seq<nat>) {
    forall i, j :: 0 <= i < j < |times| ==> times[i] <= times[j]
  }

  /** The budget after a first request at `times[0]` and the later ones, with the history of what was admitted. */
  ghost function Tracked(times: seq<nat>): (r: (SourceBudget, History))
    requires times != []
    ensures |r.1.starts| >= 1
  {
    if |times| == 1 then (SourceBudget(times[0], 1), History([times[0]], [Admission(times[0], 0)]))
    else
      var (b, h) := Tracked(times[..|times| - 1]);
      Follow(b, h, times[|times| - 1])
  }

  /** One more request of a tracked source. */
  ghost function Follow(b: SourceBudget, h: History, now: nat): (r: (SourceBudget, History))
    requires |h.starts| >= 1
    ensures |r.1.starts| >= 1
  {
    var (b', ok) := Step(b, now);
    if !ok then (b', h)
    else if b'.requests == 1 && Since(now, b.windowStarted) >= SOURCE_WINDOW then
      (b', History(h.starts + [now], h.log + [Admission(now, |h.starts|)]))
    else (b', History(h.starts, h.log + [Admission(now, |h.starts| - 1)]))
  }

  lemma {:induction false} FollowKeeps(b: SourceBudget, h: History, now: nat)
    requires |h.starts| >= 1 && Summarizes(b, h) && b.windowStarted <= now
    ensures Summarizes(Follow(b, h, now).0, Follow(b, h, now).1)
    ensures Follow(b, h, now).0.windowStarted <= now
  {
    if Since(now, b.windowStarted) >= SOURCE_WINDOW {
      NewWindow(h, now);
      assert Follow(b, h, now) == (SourceBudget(now, 1), History(h.starts + [now], h.log + [Admission(now, |h.starts|)]));
    } else if b.requests < MAX_REQUESTS_PER_SOURCE {
      SameWindow(h, now);
      assert Follow(b, h, now) == (SourceBudget(b.windowStarted, b.requests + 1),
                                   History(h.starts, h.log + [Admission(now, |h.starts| - 1)]));
    } else {
      assert Follow(b, h, now).1 == h;
    }
  }

  lemma {:induction false} TrackedSummarizes(times: seq<nat>)
    requires times != [] && Monotonic(times)
    ensures Summarizes(Tracked(times).0, Tracked(times).1)
    ensures Tracked(times).0.windowStarted <= times[|times| - 1]
  {
    if |times| == 1 {
      FirstWindow(times[0]);
    } else {
      var shorter, now := times[..|times| - 1], times[|times| - 1];
      TrackedSummarizes(shorter);
      var (b, h) := Tracked(shorter);
      assert b.windowStarted <= now;
      FollowKeeps(b, h, now);
    }
  }

  /** Of one tracked source, no minute admits more than 59 requests: one less than two budgets. */
  lemma {:induction false} TrackedMinuteIsBounded(times: seq<nat>, t: int)
    requires times != [] && Monotonic(times)
    ensures AdmittedIn(Tracked(times).1.log, t) <= 2 * MAX_REQUESTS_PER_SOURCE - 1
  {
    TrackedSummarizes(times);
    OrderlyIsBounded(Tracked(times).1, t);
  }

  lemma {:induction false} FirstWindow(now: nat)
    ensures Summarizes(SourceBudget(now, 1), History([now], [Admission(now, 0)]))
  {
    var log := [Admission(now, 0)];
    assert log[..0] == [];
    assert log[0] in log;
    assert InWindow(log, 0) == 1;
  }

  lemma {:induction false} LogGrows(log: seq<Admission>, a: Admission, w: int)
    ensures InWindow(log + [a], w) == InWindow(log, w) + if a.window == w then 1 else 0
  {
    assert (log + [a])[..|log|] == log;
  }

  lemma {:induction false} NoneYet(log: seq<Admission>, w: int)
    requires forall k :: 0 <= k < |log| ==> log[k].window < w
    ensures InWindow(log, w) == 0
  {
    if log != [] { NoneYet(log[..|log| - 1], w); }
  }

  /** Adding an admission to a window that has room keeps a history orderly. */
  lemma {:induction false} AdmissionKeeps(h: History, h': History, a: Admission)
    requires Orderly(h) && h'.log == h.log + [a] && InItsWindow(h', a)
    requires InWindow(h.log, a.window) < MAX_REQUESTS_PER_SOURCE
    requires h'.starts == h.starts || (h'.starts == h.starts + [a.at] && a.window == |h.starts|)
    requires forall i, j :: 0 <= i < j < |h'.starts| ==> h'.starts[i] + SOURCE_WINDOW <= h'.starts[j]
    requires a.window == |h.starts| ==> InWindow(h.log, a.window) == 0
    ensures Orderly(h')
  {
    forall w | 0 <= w < |h'.starts| ensures InWindow(h'.log, w) <= MAX_REQUESTS_PER_SOURCE {
      LogGrows(h.log, a, w);
    }
    forall k | 0 <= k < |h'.log| ensures InItsWindow(h', h'.log[k]) {
      if k < |h.log| { assert InItsWindow(h, h.log[k]); }
    }
    forall w | 0 <= w < |h'.starts| ensures Admission(h'.starts[w], w) in h'.log {
      if w < |h.starts| { assert Admission(h.starts[w], w) in h.log; } else { assert h'.log[|h.log|] == a; }
    }
  }

  lemma {:induction false} NewWindow(h: History, now: nat)
    requires |h.starts| > 0 && Orderly(h) && now >= h.starts[|h.starts| - 1] + SOURCE_WINDOW
    ensures Summarizes(SourceBudget(now, 1), History(h.starts + [now], h.log + [Admission(now, |h.starts|)]))
  {
    var a := Admission(now, |h.starts|);
    forall k | 0 <= k < |h.log| ensures h.log[k].window < |h.starts| { assert InItsWindow(h, h.log[k]); }
    NoneYet(h.log, |h.starts|);
    LogGrows(h.log, a, |h.starts|);
    AdmissionKeeps(h, History(h.starts + [now], h.log + [a]), a);
  }

  lemma {:induction false} SameWindow(h: History, now: nat)
    requires |h.starts| > 0 && Orderly(h) && InWindow(h.log, |h.starts| - 1) < MAX_REQUESTS_PER_SOURCE
    requires h.starts[|h.starts| - 1] <= now < h.starts[|h.starts| - 1] + SOURCE_WINDOW
    ensures Summarizes(SourceBudget(h.starts[|h.starts| - 1], InWindow(h.log, |h.starts| - 1) + 1),
                       History(h.starts, h.log + [Admission(now, |h.starts| - 1)]))
  {
    var a := Admission(now, |h.starts| - 1);
    LogGrows(h.log, a, |h.starts| - 1);
    AdmissionKeeps(h, History(h.starts, h.log + [a]), a);
  }

  // ----- what the windows bound -----

  /** Requests inside the interval fall in window `w` or the next. */
  lemma {:induction false} TwoWindows(log: seq<Admission>, t: int, w: int)
    requires forall k :: 0 <= k < |log| && Inside(log[k], t) ==> log[k].window == w || log[k].window == w + 1
    ensures AdmittedIn(log, t) <= InWindow(log, w) + InWindow(log, w + 1)
  {
    if log != [] { TwoWindows(log[..|log| - 1], t, w); }
  }

  /** If some request of window `w` lies outside the interval, one fewer can lie inside. */
  lemma {:induction false} OneIsOutside(log: seq<Admission>, t: int, w: int, k: nat)
    requires forall k :: 0 <= k < |log| && Inside(log[k], t) ==> log[k].window == w || log[k].window == w + 1
    requires k < |log| && log[k].window == w && !Inside(log[k], t)
    ensures AdmittedIn(log, t) + 1 <= InWindow(log, w) + InWindow(log, w + 1)
  {
    var shorter := log[..|log| - 1];
    if k == |log| - 1 { TwoWindows(shorter, t, w); } else { OneIsOutside(shorter, t, w, k); }
  }

  lemma {:induction false} NothingInside(log: seq<Admission>, t: int)
    requires forall k :: 0 <= k < |log| ==> !Inside(log[k], t)
    ensures AdmittedIn(log, t) == 0
  {
    if log != [] { NothingInside(log[..|log| - 1], t); }
  }

  lemma {:induction false} EarliestInside(log: seq<Admission>, t: int, k: nat) returns (e: nat)
    requires k < |log| && Inside(log[k], t)
    ensures e < |log| && Inside(log[e], t)
    ensures forall j :: 0 <= j < |log| && Inside(log[j], t) ==> log[e].window <= log[j].window
  {
    e := k;
    for j := 0 to |log|
      invariant e < |log| && Inside(log[e], t)
      invariant forall i :: 0 <= i < j && Inside(log[i], t) ==> log[e].window <= log[i].window
    {
      if Inside(log[j], t) && log[j].window < log[e].window { e := j; }
    }
  }

  lemma {:induction false} Apart(h: History, i: nat, j: nat)
    requires Orderly(h) && i + 2 <= j < |h.starts|
    ensures h.starts[i] + 2 * SOURCE_WINDOW <= h.starts[j]
  {
    assert h.starts[i] + SOURCE_WINDOW <= h.starts[i + 1];
  }

  lemma {:induction false} OrderlyIsBounded(h: History, t: int)
    requires Orderly(h)
    ensures AdmittedIn(h.log, t) <= 2 * MAX_REQUESTS_PER_SOURCE - 1
  {
    if k :| 0 <= k < |h.log| && Inside(h.log[k], t) {
      var e := EarliestInside(h.log, t, k);
      var w := h.log[e].window;
      assert InItsWindow(h, h.log[e]);
      forall j | 0 <= j < |h.log| && Inside(h.log[j], t)
        ensures h.log[j].window == w || h.log[j].window == w + 1
      {
        assert InItsWindow(h, h.log[j]);
        if h.log[j].window > w + 1 { Apart(h, w, h.log[j].window); }
      }
      if n :| 0 <= n < |h.log| && Inside(h.log[n], t) && h.log[n].window == w + 1 {
        assert InItsWindow(h, h.log[n]);
        var o :| 0 <= o < |h.log| && h.log[o] == Admission(h.starts[w], w);
        OneIsOutside(h.log, t, w, o);
      } else {
        OnlyOneWindow(h.log, t, w);
      }
    } else {
      NothingInside(h.log, t);
    }
  }

  lemma {:induction false} OnlyOneWindow(log: seq<Admission>, t: int, w: int)
    requires forall k :: 0 <= k < |log| && Inside(log[k], t) ==> log[k].window == w
    ensures AdmittedIn(log, t) <= InWindow(log, w)
  {
    if log != [] { OnlyOneWindow(log[..|log| - 1], t, w); }
  }

  lemma {:induction false} AdmittedGrows(log: seq<Admission>, a: Admission, t: int)
    ensures AdmittedIn(log + [a], t) == AdmittedIn(log, t) + if Inside(a, t) then 1 else 0
  {
    assert (log + [a])[..|log|] == log;
  }

  lemma {:induction false} OneMore(times: seq<nat>, now: nat)
    requires times != []
    ensures Tracked(times + [now]) == Follow(Tracked(times).0, Tracked(times).1, now)
  {
    assert (times + [now])[..|times|] == times;
  }

  lemma {:induction false} FollowAdmits(b: SourceBudget, h: History, now: nat, t: int)
    requires |h.starts| >= 1 && Since(now, b.windowStarted) < SOURCE_WINDOW
    requires b.requests < MAX_REQUESTS_PER_SOURCE && t <= now < t + SOURCE_WINDOW
    ensures Follow(b, h, now).0 == SourceBudget(b.windowStarted, b.requests + 1)
    ensures AdmittedIn(Follow(b, h, now).1.log, t) == AdmittedIn(h.log, t) + 1
  {
    AdmittedGrows(h.log, Admission(now, |h.starts| - 1), t);
  }

  lemma {:induction false} BurstStep(times: seq<nat>, now: nat, t: int)
    requires times != [] && Since(now, Tracked(times).0.windowStarted) < SOURCE_WINDOW
    requires Tracked(times).0.requests < MAX_REQUESTS_PER_SOURCE && t <= now < t + SOURCE_WINDOW
    ensures var (b, h) := Tracked(times);
      var (b', h') := Tracked(times + [now]);
      b' == SourceBudget(b.windowStarted, b.requests + 1) && AdmittedIn(h'.log, t) == AdmittedIn(h.log, t) + 1
  {
    OneMore(times, now);
    var (b, h) := Tracked(times);
    FollowAdmits(b, h, now, t);
  }

  /** `n` requests at one instant, all within the current window and its budget. */
  lemma {:induction false} Burst(times: seq<nat>, now: nat, n: nat, t: int) returns (longer: seq<nat>)
    requires times != [] && Monotonic(times) && times[|times| - 1] <= now
    requires Since(now, Tracked(times).0.windowStarted) < SOURCE_WINDOW
    requires Tracked(times).0.requests + n <= MAX_REQUESTS_PER_SOURCE && t <= now < t + SOURCE_WINDOW
    ensures longer != [] && Monotonic(longer) && longer[|longer| - 1] <= now
    ensures Tracked(longer).0 == SourceBudget(Tracked(times).0.windowStarted, Tracked(times).0.requests + n)
    ensures AdmittedIn(Tracked(longer).1.log, t) == AdmittedIn(Tracked(times).1.log, t) + n
  {
    longer := times;
    if n > 0 {
      var some := Burst(times, now, n - 1, t);
      longer := some + [now];
      BurstStep(some, now, t);
    }
  }

  /** The bound is reached: one request, 29 at the end of its window, and 30 at the start of the next. */
  lemma {:induction false} TrackedBoundIsReached() returns (times: seq<nat>, t: int)
    ensures times != [] && Monotonic(times)
    ensures AdmittedIn(Tracked(times).1.log, t) == 2 * MAX_REQUESTS_PER_SOURCE - 1
  {
    t := 59_999;
    assert Tracked([0]).1.log == [] + [Admission(0, 0)];
    AdmittedGrows([], Admission(0, 0), t);
    var first := Burst([0], 59_999, 29, t);
    var second := first + [60_000];
    OneMore(first, 60_000);
    AdmittedGrows(Tracked(first).1.log, Admission(60_000, |Tracked(first).1.starts|), t);
    times := Burst(second, 60_000, 29, t);
  }

  // ----- every sequence of calls -----

  datatype Call = Call(source: Source, at: nat)

  ghost predicate InTimeOrder(calls: seq<Call>) {
    forall i, j :: 0 <= i < j < |calls| ==> calls[i].at <= calls[j].at
  }

  ghost function Run(calls: seq<Call>): (l: Table)
    ensures Listed(l)
  {
    if calls == [] then Table(map[], [])
    else
      var before, c := Run(calls[..|calls| - 1]), calls[|calls| - 1];
      AdmitKeepsListed(before, c.source, c.at);
      Admit(before, c.source, c.at).0
  }

  /** In every run the queue lists the tracked sources, each once, and there are at most 1024. */
  lemma {:induction false} AdmitKeepsListed(l: Table, source: Source, now: nat)
    requires Listed(l)
    ensures Listed(Admit(l, source, now).0)
  {
    if source in l.budgets {
      assert l.budgets[source := Step(l.budgets[source], now).0].Keys == l.budgets.Keys;
    } else if |l.order| < MAX_TRACKED_SOURCES {
      EnqueuedTable(l, source, SourceBudget(now, 1));
    } else {
      EvictedTable(l);
      EnqueuedTable(Table(l.budgets - {l.order[0]}, l.order[1..]), source, SourceBudget(now, 1));
    }
  }

  lemma {:induction false} EnqueuedTable(l: Table, source: Source, b: SourceBudget)
    requires Listing(l.order, l.budgets.Keys) && source !in l.budgets
    ensures Listing(l.order + [source], l.budgets[source := b].Keys)
  {
    Enqueued(l.order, l.budgets.Keys, source);
    assert l.budgets[source := b].Keys == l.budgets.Keys + {source};
  }

  lemma {:induction false} EvictedTable(l: Table)
    requires Listing(l.order, l.budgets.Keys) && l.order != []
    ensures Listing(l.order[1..], (l.budgets - {l.order[0]}).Keys)
  {
    Dequeued(l.order, l.budgets.Keys);
    assert (l.budgets - {l.order[0]}).Keys == l.budgets.Keys - {l.order[0]};
  }

  /** Whether the last of the calls was admitted. */
  ghost predicate LastAdmitted(calls: seq<Call>)
    requires calls != []
  {
    Admit(Run(calls[..|calls| - 1]), calls[|calls| - 1].source, calls[|calls| - 1].at).1
  }

  /** How many of the calls from index `from` on were admitted requests of `s` in the minute from `t`. */
  ghost function Admitted(calls: seq<Call>, from: nat, s: Source, t: int): nat {
    if |calls| <= from then 0
    else
      var c := calls[|calls| - 1];
      Admitted(calls[..|calls| - 1], from, s, t)
      + if c.source == s && t <= c.at < t + SOURCE_WINDOW && LastAdmitted(calls) then 1 else 0
  }

  /** `s` was tracked after every call from index `from` on. */
  ghost predicate StaysTracked(calls: seq<Call>, from: nat, s: Source) {
    |calls| <= from || (s in Run(calls).budgets && StaysTracked(calls[..|calls| - 1], from, s))
  }

  /** The times of the requests of `s` since it was last tracked anew. */
  ghost function Own(calls: seq<Call>, s: Source): seq<nat> {
    if calls == [] || s !in Run(calls).budgets then []
    else
      var before, c := calls[..|calls| - 1], calls[|calls| - 1];
      if c.source != s then Own(before, s)
      else if s in Run(before).budgets then Own(before, s) + [c.at]
      else [c.at]
  }

  /** A call by another source leaves the budget of `s` alone, or drops it. */
  lemma {:induction false} OthersLeaveAlone(l: Table, source: Source, now: nat, s: Source)
    requires Listed(l) && source != s
    ensures var l' := Admit(l, source, now).0;
      s in l'.budgets ==> s in l.budgets && l'.budgets[s] == l.budgets[s]
  {
  }

  lemma {:induction false} OwnStep(calls: seq<Call>, s: Source)
    requires calls != [] && s in Run(calls).budgets
    ensures var before, c := calls[..|calls| - 1], calls[|calls| - 1];
      && (c.source != s ==> Own(calls, s) == Own(before, s) && s in Run(before).budgets
                            && Run(calls).budgets[s] == Run(before).budgets[s])
      && (c.source == s && s in Run(before).budgets ==>
            Own(calls, s) == Own(before, s) + [c.at] && Run(calls).budgets[s] == Step(Run(before).budgets[s], c.at).0)
      && (c.source == s && s !in Run(before).budgets ==>
            Own(calls, s) == [c.at] && Run(calls).budgets[s] == SourceBudget(c.at, 1))
  {
    var before, c := calls[..|calls| - 1], calls[|calls| - 1];
    if c.source != s { OthersLeaveAlone(Run(before), c.source, c.at, s); }
  }

  ghost predicate InOrderUntil(own: seq<nat>, until: nat) {
    Monotonic(own) && (own != [] ==> own[|own| - 1] <= until)
  }

  lemma {:induction false} OrderGrows(own: seq<nat>, earlier: nat, now: nat)
    requires InOrderUntil(own, earlier) && earlier <= now
    ensures InOrderUntil(own, now) && InOrderUntil(own + [now], now) && InOrderUntil([now], now)
  {
  }

  lemma {:induction false} OwnIsInOrder(calls: seq<Call>, s: Source, until: nat)
    requires InTimeOrder(calls) && (calls != [] ==> calls[|calls| - 1].at <= until)
    ensures InOrderUntil(Own(calls, s), until)
  {
    if calls != [] && s in Run(calls).budgets {
      var n := |calls| - 1;
      var at := calls[n].at;
      OwnStep(calls, s);
      OwnIsInOrder(calls[..n], s, at);
      OrderGrows(Own(calls[..n], s), at, at);
      OrderGrows(Own(calls, s), at, until);
    }
  }

  /** In every run the budget of a tracked source is that of its own requests alone, whatever the others did. */
  lemma {:induction false} BudgetIsOwn(calls: seq<Call>, s: Source)
    ensures s in Run(calls).budgets <==> Own(calls, s) != []
    ensures s in Run(calls).budgets ==> Run(calls).budgets[s] == Tracked(Own(calls, s)).0
  {
    if calls != [] && s in Run(calls).budgets {
      var before, c := calls[..|calls| - 1], calls[|calls| - 1];
      OwnStep(calls, s);
      BudgetIsOwn(before, s);
      if s in Run(before).budgets {
        OneMore(Own(before, s), c.at);
      } else {
        assert Tracked([c.at]).0 == SourceBudget(c.at, 1);
      }
    }
  }

  /** What the history of the source's own requests holds for the minute from `t`. */
  ghost function OwnAdmitted(calls: seq<Call>, s: Source, t: int): nat {
    var own := Own(calls, s);
    if own == [] then 0 else AdmittedIn(Tracked(own).1.log, t)
  }

  /** The admissions counted over the calls are those in the history of the source's own requests. */
  lemma {:induction false} AdmittedAreOwn(calls: seq<Call>, from: nat, s: Source, t: int)
    requires InTimeOrder(calls) && from <= |calls| && StaysTracked(calls, from, s)
    ensures Admitted(calls, from, s, t) <= OwnAdmitted(calls, s, t)
    ensures s !in Run(calls[..from]).budgets ==> Admitted(calls, from, s, t) == OwnAdmitted(calls, s, t)
    decreases |calls|
  {
    if from == |calls| {
      assert calls[..from] == calls;
    } else {
      var before := calls[..|calls| - 1];
      assert before[..from] == calls[..from];
      AdmittedAreOwn(before, from, s, t);
      OwnGrows(calls, s, t);
    }
  }

  /** One more call, counted in the history of a source that is tracked after it. */
  lemma {:induction false} OwnGrows(calls: seq<Call>, s: Source, t: int)
    requires InTimeOrder(calls) && calls != [] && s in Run(calls).budgets
    ensures var before, c := calls[..|calls| - 1], calls[|calls| - 1];
      OwnAdmitted(calls, s, t) == OwnAdmitted(before, s, t)
        + if c.source == s && t <= c.at < t + SOURCE_WINDOW && LastAdmitted(calls) then 1 else 0
  {
    var before, c := calls[..|calls| - 1], calls[|calls| - 1];
    OwnStep(calls, s);
    if s in Run(before).budgets {
      BudgetIsOwn(before, s);
      FollowCounts(Own(before, s), c.at, t);
    } else {
      assert Tracked([c.at]).1.log == [] + [Admission(c.at, 0)];
      AdmittedGrows([], Admission(c.at, 0), t);
    }
  }

  lemma {:induction false} FollowCounts(own: seq<nat>, now: nat, t: int)
    requires own != []
    ensures var (b, h) := Tracked(own);
      AdmittedIn(Tracked(own + [now]).1.log, t) ==
        AdmittedIn(h.log, t) + if t <= now < t + SOURCE_WINDOW && Step(b, now).1 then 1 else 0
  {
    OneMore(own, now);
    var h := Tracked(own).1;
    AdmittedGrows(h.log, Admission(now, |h.starts|), t);
    AdmittedGrows(h.log, Admission(now, |h.starts| - 1), t);
  }

  /**
   For every sequence of calls, with any number of sources and evictions: while a
   source stays tracked, no minute admits more than 59 of its requests.
   */
  lemma {:induction false} AnyMinuteIsBounded(calls: seq<Call>, from: nat, s: Source, t: int)
    requires InTimeOrder(calls) && StaysTracked(calls, from, s)
    ensures Admitted(calls, from, s, t) <= 2 * MAX_REQUESTS_PER_SOURCE - 1
  {
    if from < |calls| {
      AdmittedAreOwn(calls, from, s, t);
      assert calls[..|calls|] == calls;
      BudgetIsOwn(calls, s);
      OwnIsInOrder(calls, s, calls[|calls| - 1].at);
      TrackedMinuteIsBounded(Own(calls, s), t);
    }
  }

  // ----- when a minute stays within the budget -----

  /** The last call opens a window of `s`, inside the minute from `t`. */
  ghost predicate Opens(calls: seq<Call>, s: Source, t: int)
    requires calls != []
  {
    var c := calls[|calls| - 1];
    c.source == s && t <= c.at < t + SOURCE_WINDOW && s in Run(calls).budgets && Run(calls).budgets[s] == SourceBudget(c.at, 1)
  }

  /** How many requests of the minute were admitted before a further window opened in it; zero if none did. */
  ghost function Earlier(calls: seq<Call>, from: nat, s: Source, t: int): nat {
    if |calls| <= from then 0
    else if Opens(calls, s, t) then Admitted(calls[..|calls| - 1], from, s, t)
    else Earlier(calls[..|calls| - 1], from, s, t)
  }

  /** A window of `s` has opened inside the minute. */
  ghost predicate Opened(calls: seq<Call>, from: nat, s: Source, t: int) {
    |calls| > from && (Opens(calls, s, t) || Opened(calls[..|calls| - 1], from, s, t))
  }

  lemma {:induction false} RequestsWithinBudget(calls: seq<Call>, s: Source)
    ensures s in Run(calls).budgets ==> 1 <= Run(calls).budgets[s].requests <= MAX_REQUESTS_PER_SOURCE
  {
    if calls != [] {
      var before, c := calls[..|calls| - 1], calls[|calls| - 1];
      RequestsWithinBudget(before, s);
      if c.source != s { OthersLeaveAlone(Run(before), c.source, c.at, s); }
    }
  }

  lemma {:induction false} NothingBefore(calls: seq<Call>, from: nat, s: Source, t: int)
    requires forall i :: 0 <= i < |calls| ==> calls[i].at < t
    ensures Admitted(calls, from, s, t) == 0 && !Opened(calls, from, s, t) && Earlier(calls, from, s, t) == 0
  {
    if |calls| > from { NothingBefore(calls[..|calls| - 1], from, s, t); }
  }

  /** One more call, for a source that stays tracked: nothing, a new window, one more request, or a refusal. */
  lemma {:induction false} BudgetTurn(calls: seq<Call>, s: Source)
    requires calls != [] && s in Run(calls).budgets
    ensures var before, c := calls[..|calls| - 1], calls[|calls| - 1];
      var was, b := Run(before).budgets, Run(calls).budgets[s];
      if c.source == s && b == SourceBudget(c.at, 1) then LastAdmitted(calls)
      else s in was && b.requests == was[s].requests + if c.source == s && LastAdmitted(calls) then 1 else 0
  {
    var before, c := calls[..|calls| - 1], calls[|calls| - 1];
    RequestsWithinBudget(before, s);
    if c.source != s { OthersLeaveAlone(Run(before), c.source, c.at, s); }
  }

  /** What the minute has admitted, against what its earlier window had and the requests of the present one. */
  ghost predicate Splits(calls: seq<Call>, from: nat, s: Source, t: int, used: nat) {
    if Opened(calls, from, s, t) then Admitted(calls, from, s, t) == Earlier(calls, from, s, t) + used
    else Earlier(calls, from, s, t) == 0 && Admitted(calls, from, s, t) <= used
  }

  lemma {:induction false} SplitsStep(calls: seq<Call>, from: nat, s: Source, t: int, used: nat, used': nat)
    requires |calls| > from && t <= calls[|calls| - 1].at < t + SOURCE_WINDOW && !Opens(calls, s, t)
    requires Splits(calls[..|calls| - 1], from, s, t, used)
    requires used' == used + if calls[|calls| - 1].source == s && LastAdmitted(calls) then 1 else 0
    ensures Splits(calls, from, s, t, used')
  {
  }

  /** Until the minute ends, what it has admitted is what its earlier window had, and the requests of the present one. */
  lemma {:induction false} MinuteSplits(calls: seq<Call>, from: nat, s: Source, t: int)
    requires InTimeOrder(calls) && StaysTracked(calls, from, s) && |calls| > from && calls[|calls| - 1].at < t + SOURCE_WINDOW
    ensures s in Run(calls).budgets && Splits(calls, from, s, t, Run(calls).budgets[s].requests)
  {
    var before, c := calls[..|calls| - 1], calls[|calls| - 1];
    BudgetTurn(calls, s);
    if c.at < t {
      forall i | 0 <= i < |calls| ensures calls[i].at < t { }
      NothingBefore(calls, from, s, t);
    } else if !Opens(calls, s, t) {
      if |before| > from { MinuteSplits(before, from, s, t); }
      SplitsStep(calls, from, s, t, Run(before).budgets[s].requests, Run(calls).budgets[s].requests);
    }
  }

  /**
   A minute admits more than the budget of 30 exactly when a further window opened in
   it and the requests admitted before, with those of the new window, exceed the budget.
   */
  lemma {:induction false} MinuteOverrunsIff(calls: seq<Call>, from: nat, s: Source, t: int)
    requires InTimeOrder(calls) && StaysTracked(calls, from, s) && |calls| > from && calls[|calls| - 1].at < t + SOURCE_WINDOW
    ensures s in Run(calls).budgets
    ensures Admitted(calls, from, s, t) > MAX_REQUESTS_PER_SOURCE <==>
      Earlier(calls, from, s, t) > 0 && Earlier(calls, from, s, t) + Run(calls).budgets[s].requests > MAX_REQUESTS_PER_SOURCE
  {
    MinuteSplits(calls, from, s, t);
    RequestsWithinBudget(calls, s);
  }

  /** So, over any run, a minute in which no window opens after its first admission stays within the budget. */
  lemma {:induction false} OneWindowStaysWithinBudget(calls: seq<Call>, from: nat, s: Source, t: int)
    requires InTimeOrder(calls) && StaysTracked(calls, from, s) && Earlier(calls, from, s, t) == 0
    ensures Admitted(calls, from, s, t) <= MAX_REQUESTS_PER_SOURCE
  {
    if |calls| > from {
      if calls[|calls| - 1].at < t + SOURCE_WINDOW {
        MinuteOverrunsIff(calls, from, s, t);
      } else {
        OneWindowStaysWithinBudget(calls[..|calls| - 1], from, s, t);
      }
    }
  }

  /** The calls of a source that is alone. */
  ghost function Alone(times: seq<nat>, s: Source): (calls: seq<Call>)
    ensures |calls| == |times|
  {
    seq(|times|, i requires 0 <= i < |times| => Call(s, times[i]))
  }

  lemma {:induction false} AloneIsOwn(times: seq<nat>, s: Source)
    ensures times != [] ==> s in Run(Alone(times, s)).budgets
    ensures Own(Alone(times, s), s) == times && StaysTracked(Alone(times, s), 0, s)
  {
    if times != [] {
      var n := |times| - 1;
      assert Alone(times, s)[..n] == Alone(times[..n], s);
      AloneIsOwn(times[..n], s);
      assert times == times[..n] + [times[n]];
      if n == 0 { assert times == [times[0]]; }
    }
  }

  /** The bound is reached by a run. */
  lemma {:induction false} BoundIsReached(s: Source) returns (calls: seq<Call>, t: int)
    ensures InTimeOrder(calls) && StaysTracked(calls, 0, s)
    ensures Admitted(calls, 0, s, t) == 2 * MAX_REQUESTS_PER_SOURCE - 1
  {
    var times;
    times, t := TrackedBoundIsReached();
    calls := Alone(times, s);
    AloneIsOwn(times, s);
    assert calls[..0] == [];
    AdmittedAreOwn(calls, 0, s, t);
  }
}
