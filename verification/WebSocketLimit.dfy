/** The fixed-window counter of one WebSocket connection (crates/ngenorca-gateway/src/routes.rs).
    Times are nanoseconds. */
module WebSocketLimit {

  const MAX := 30
  const WINDOW := 60_000_000_000

  /** The two loop variables of the connection. */
  datatype Window = Window(start: int, count: nat)

  function Receive(w: Window, now: int): (Window, bool) {
    var w' := if now - w.start >= WINDOW then Window(now, 0) else w;
    (w'.(count := w'.count + 1), w'.count + 1 <= MAX)
  }

  /** Runs the receive loop over the arrival times of the text messages; says which messages pass. */
  method ReceiveLoop(begin: int, arrivals: seq<int>) returns (passed: seq<bool>)
    ensures passed == Verdicts(begin, arrivals)
  {
    var start, count := begin, 0;
    passed := [];
    for i := 0 to |arrivals|
      invariant passed == Verdicts(begin, arrivals[..i])
      invariant Window(start, count) == WindowAfter(begin, arrivals[..i])
    {
      assert arrivals[..i + 1][..i] == arrivals[..i];
      if arrivals[i] - start >= WINDOW {
        count := 0;
        start := arrivals[i];
      }
      count := count + 1;
      passed := passed + [count <= MAX];
    }
    assert arrivals[..|arrivals|] == arrivals;
  }

  function WindowAfter(begin: int, arrivals: seq<int>): Window {
    if arrivals == [] then Window(begin, 0)
    else Receive(WindowAfter(begin, arrivals[..|arrivals| - 1]), arrivals[|arrivals| - 1]).0
  }

  function Verdicts(begin: int, arrivals: seq<int>): (r: seq<bool>)
    ensures |r| == |arrivals|
  {
    if arrivals == [] then []
    else
      var front := arrivals[..|arrivals| - 1];
      Verdicts(begin, front) + [Receive(WindowAfter(begin, front), arrivals[|arrivals| - 1]).1]
  }

  /** How many passed messages arrived at or after `lo` and before `hi`. */
  function PassedIn(begin: int, arrivals: seq<int>, lo: int, hi: int): nat {
    if arrivals == [] then 0
    else
      var front, now := arrivals[..|arrivals| - 1], arrivals[|arrivals| - 1];
      PassedIn(begin, front, lo, hi) +
      if lo <= now < hi && Receive(WindowAfter(begin, front), now).1 then 1 else 0
  }

  ghost predicate ClockRuns(begin: int, arrivals: seq<int>) {
    && (forall i :: 0 <= i < |arrivals| ==> begin <= arrivals[i])
    && (forall i, j :: 0 <= i <= j < |arrivals| ==> arrivals[i] <= arrivals[j])
  }

  lemma ClockBefore(begin: int, arrivals: seq<int>)
    requires ClockRuns(begin, arrivals) && arrivals != []
    ensures ClockRuns(begin, arrivals[..|arrivals| - 1])
  {
  }

  /** The window began no later than the last arrival and less than one window length before it. */
  lemma {:induction false} WindowStart(begin: int, arrivals: seq<int>)
    requires ClockRuns(begin, arrivals)
    ensures begin <= WindowAfter(begin, arrivals).start
    ensures arrivals != [] ==>
              var last := arrivals[|arrivals| - 1];
              WindowAfter(begin, arrivals).start <= last < WindowAfter(begin, arrivals).start + WINDOW
    ensures arrivals == [] ==> WindowAfter(begin, arrivals).start == begin
  {
    if arrivals != [] {
      ClockBefore(begin, arrivals);
      WindowStart(begin, arrivals[..|arrivals| - 1]);
    }
  }

  function Min(a: nat, b: nat): nat { if a <= b then a else b }

  /** Messages that all arrived before `lo` do not count. */
  lemma {:induction false} NothingYet(begin: int, arrivals: seq<int>, lo: int, hi: int)
    requires forall i :: 0 <= i < |arrivals| ==> arrivals[i] < lo
    ensures PassedIn(begin, arrivals, lo, hi) == 0
  {
    if arrivals != [] {
      NothingYet(begin, arrivals[..|arrivals| - 1], lo, hi);
    }
  }

  /** The bound on an interval, by where the current window began relative to it. */
  function Bound(w: Window, lo: int, hi: int): nat {
    if w.start <= lo then Min(w.count, MAX)
    else if w.start < hi then MAX + Min(w.count, MAX)
    else 2 * MAX
  }

  lemma {:induction false} PassedWithinBound(begin: int, arrivals: seq<int>, lo: int, hi: int)
    requires ClockRuns(begin, arrivals) && hi <= lo + WINDOW
    ensures PassedIn(begin, arrivals, lo, hi) <= Bound(WindowAfter(begin, arrivals), lo, hi)
  {
    if arrivals != [] {
      var front, now := arrivals[..|arrivals| - 1], arrivals[|arrivals| - 1];
      var w := WindowAfter(begin, front);
      ClockBefore(begin, arrivals);
      WindowStart(begin, front);
      PassedWithinBound(begin, front, lo, hi);
      if now - w.start >= WINDOW && now <= lo {
        assert forall i :: 0 <= i < |front| ==> front[i] <= front[|front| - 1] < now;
        NothingYet(begin, front, lo, hi);
      }
    }
  }

  /** Whatever the arrival times, at most sixty messages pass in any half-open minute. */
  lemma SixtyPerMinute(begin: int, arrivals: seq<int>, lo: int)
    requires ClockRuns(begin, arrivals)
    ensures PassedIn(begin, arrivals, lo, lo + 60 * 1_000_000_000) <= 60
  {
    PassedWithinBound(begin, arrivals, lo, lo + WINDOW);
  }

  /** Between two resets at most thirty messages pass: that many since the current window began,
      however long it lasts. */
  lemma {:induction false} ThirtyPerWindow(begin: int, arrivals: seq<int>, hi: int)
    requires ClockRuns(begin, arrivals)
    ensures var w := WindowAfter(begin, arrivals); PassedIn(begin, arrivals, w.start, hi) <= Min(w.count, MAX)
  {
    if arrivals != [] {
      var front, now := arrivals[..|arrivals| - 1], arrivals[|arrivals| - 1];
      var w := WindowAfter(begin, front);
      ClockBefore(begin, arrivals);
      WindowStart(begin, front);
      ThirtyPerWindow(begin, front, hi);
      if now - w.start >= WINDOW {
        assert forall i :: 0 <= i < |front| ==> front[i] <= front[|front| - 1] < now;
        NothingYet(begin, front, now, hi);
      }
    }
  }

  function Repeated(at: int, n: nat): seq<int> {
    if n == 0 then [] else Repeated(at, n - 1) + [at]
  }

  /** The window that a message arriving at `at` is counted in. */
  function Current(w: Window, at: int): Window {
    if at - w.start >= WINDOW then Window(at, 0) else w
  }

  lemma OneMore(begin: int, front: seq<int>, at: int, lo: int, hi: int)
    ensures WindowAfter(begin, front + [at]) == Receive(WindowAfter(begin, front), at).0
    ensures PassedIn(begin, front + [at], lo, hi) ==
            PassedIn(begin, front, lo, hi) + if lo <= at < hi && Receive(WindowAfter(begin, front), at).1 then 1 else 0
  {
    hide Receive;
    assert (front + [at])[..|front|] == front;
  }

  lemma {:induction false} BurstPasses(begin: int, front: seq<int>, at: int, n: nat, lo: int, hi: int)
    requires lo <= at < hi && Current(WindowAfter(begin, front), at).count + n <= MAX
    ensures PassedIn(begin, front + Repeated(at, n), lo, hi) == PassedIn(begin, front, lo, hi) + n
    ensures Current(WindowAfter(begin, front + Repeated(at, n)), at) ==
            var w := Current(WindowAfter(begin, front), at); w.(count := w.count + n)
  {
    hide WindowAfter, PassedIn;
    if n == 0 {
      assert front + Repeated(at, 0) == front;
    } else {
      BurstPasses(begin, front, at, n - 1, lo, hi);
      assert front + Repeated(at, n) == front + Repeated(at, n - 1) + [at];
      OneMore(begin, front + Repeated(at, n - 1), at, lo, hi);
    }
  }

  /** The bound of sixty is reached: thirty messages end one window and thirty begin the next, a nanosecond later. */
  lemma SixtyIsReached()
    ensures var arrivals := Repeated(WINDOW - 1, MAX) + Repeated(WINDOW, MAX);
            PassedIn(0, arrivals, WINDOW - 1, WINDOW - 1 + WINDOW) == 60
  {
    var first := Repeated(WINDOW - 1, MAX);
    BurstPasses(0, [], WINDOW - 1, MAX, WINDOW - 1, 2 * WINDOW - 1);
    assert [] + first == first;
    BurstPasses(0, first, WINDOW, MAX, WINDOW - 1, 2 * WINDOW - 1);
  }

  // ---------- when thirty a minute is kept ----------

  /** `after` may follow `before` on a running clock, from the moment `lo` on. */
  ghost predicate Follows(begin: int, before: seq<int>, after: seq<int>, lo: int) {
    ClockRuns(begin, before + after) && forall i :: 0 <= i < |after| ==> lo <= after[i]
  }

  /** The minute that begins at `lo` keeps to thirty messages, whatever arrives from then on. */
  ghost predicate KeepsThirty(begin: int, before: seq<int>, lo: int) {
    forall after :: Follows(begin, before, after, lo) ==>
      PassedIn(begin, before + after, lo, lo + 60 * 1_000_000_000) <= 30
  }

  /** Nothing of the window open at `lo` can still pass: it has not begun before, it is over, or it is used up. */
  predicate NothingCarriedOver(w: Window, lo: int) {
    w.start >= lo || w.start + WINDOW <= lo || w.count >= MAX
  }

  /** How `passed` messages since `lo` relate to the window when nothing was carried over. */
  predicate Accounted(w: Window, passed: nat, lo: int) {
    || (passed == 0 && (w.start + WINDOW <= lo || w.count >= MAX))
    || (w.start >= lo && passed <= MAX && (w.start < lo + WINDOW ==> passed <= w.count))
  }

  lemma EndsBefore(begin: int, front: seq<int>, at: int)
    requires ClockRuns(begin, front + [at])
    ensures WindowAfter(begin, front).start <= at
  {
    assert (front + [at])[..|front|] == front;
    ClockBefore(begin, front + [at]);
    WindowStart(begin, front);
    assert (front + [at])[|front|] == at;
    assert front != [] ==> (front + [at])[|front| - 1] == front[|front| - 1];
  }

  lemma {:induction false} StaysAccounted(begin: int, before: seq<int>, after: seq<int>, lo: int)
    requires forall i :: 0 <= i < |before| ==> before[i] < lo
    requires Follows(begin, before, after, lo)
    requires NothingCarriedOver(WindowAfter(begin, before), lo)
    ensures Accounted(WindowAfter(begin, before + after), PassedIn(begin, before + after, lo, lo + WINDOW), lo)
    decreases |after|
  {
    hide WindowAfter, PassedIn;
    if after == [] {
      assert before + after == before;
      NothingYet(begin, before, lo, lo + WINDOW);
    } else {
      var front, at := after[..|after| - 1], after[|after| - 1];
      assert before + after == before + front + [at];
      ClockBefore(begin, before + after);
      assert (before + after)[..|before + after| - 1] == before + front;
      StaysAccounted(begin, before, front, lo);
      EndsBefore(begin, before + front, at);
      OneMore(begin, before + front, at, lo, lo + WINDOW);
    }
  }

  /** The rest of the open window, and then a full new one as soon as it is over. */
  function DoubleBurst(w: Window, lo: int): seq<int>
    requires w.count <= MAX
  {
    Repeated(lo, MAX - w.count) + Repeated(w.start + WINDOW, MAX)
  }

  lemma {:induction false} RepeatedIs(at: int, n: nat)
    ensures |Repeated(at, n)| == n && forall i :: 0 <= i < n ==> Repeated(at, n)[i] == at
  {
    if n > 0 {
      RepeatedIs(at, n - 1);
    }
  }

  lemma DoubleBurstPasses(begin: int, before: seq<int>, lo: int)
    requires ClockRuns(begin, before) && forall i :: 0 <= i < |before| ==> before[i] < lo
    requires !NothingCarriedOver(WindowAfter(begin, before), lo)
    ensures var w := WindowAfter(begin, before);
            && Follows(begin, before, DoubleBurst(w, lo), lo)
            && PassedIn(begin, before + DoubleBurst(w, lo), lo, lo + WINDOW) == 2 * MAX - w.count
  {
    hide WindowAfter, PassedIn, Repeated;
    var w := WindowAfter(begin, before);
    var next := w.start + WINDOW;
    WindowStart(begin, before);
    NothingYet(begin, before, lo, lo + WINDOW);
    RepeatedIs(lo, MAX - w.count);
    RepeatedIs(next, MAX);
    BurstPasses(begin, before, lo, MAX - w.count, lo, lo + WINDOW);
    BurstPasses(begin, before + Repeated(lo, MAX - w.count), next, MAX, lo, lo + WINDOW);
    assert before + DoubleBurst(w, lo) == before + Repeated(lo, MAX - w.count) + Repeated(next, MAX);
  }

  /** Thirty messages a minute hold from a moment on, whatever arrives, exactly if nothing of the window
      that is open then can still pass. */
  lemma ThirtyPerMinuteIff(begin: int, before: seq<int>, lo: int)
    requires ClockRuns(begin, before) && forall i :: 0 <= i < |before| ==> before[i] < lo
    ensures KeepsThirty(begin, before, lo) <==> NothingCarriedOver(WindowAfter(begin, before), lo)
  {
    hide WindowAfter, PassedIn, ClockRuns;
    if NothingCarriedOver(WindowAfter(begin, before), lo) {
      forall after | Follows(begin, before, after, lo)
        ensures PassedIn(begin, before + after, lo, lo + WINDOW) <= MAX
      {
        StaysAccounted(begin, before, after, lo);
      }
    } else {
      DoubleBurstPasses(begin, before, lo);
    }
  }
}
