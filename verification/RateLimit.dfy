/** The per-key sliding-window limiter (crates/ngenorca-gateway/src/rate_limit.rs). Times are integers. */
module RateLimit {
  import opened Wrappers

  const U32 := 0x1_0000_0000

  /** `usize as u32` keeps the low 32 bits. */
  function AsU32(n: nat): nat { n % U32 }

  datatype Request = Request(key: string, now: int)

  // ---------- what the code does to one queue ----------

  function Drain(queue: seq<int>, cutoff: int): seq<int> {
    if queue != [] && queue[0] < cutoff then Drain(queue[1..], cutoff) else queue
  }

  /** The buckets after a check, and its verdict. */
  function Check(buckets: map<string, seq<int>>, max: nat, window: nat, request: Request)
    : (map<string, seq<int>>, bool)
  {
    if max == 0 then (buckets, true)
    else
      var queue := Drain(if request.key in buckets then buckets[request.key] else [], request.now - window);
      if AsU32(|queue|) >= max then (buckets[request.key := queue], false)
      else (buckets[request.key := queue + [request.now]], true)
  }

  class RateLimiter {
    const max: nat
    const window: nat
    var buckets: map<string, seq<int>>

    constructor (max: nat, window: nat)
      ensures this.max == max && this.window == window && buckets == map[]
    {
      this.max, this.window, buckets := max, window, map[];
    }

    method CheckRequest(key: string, now: int) returns (allowed: bool)
      modifies this
      ensures (buckets, allowed) == Check(old(buckets), max, window, Request(key, now))
    {
      if max == 0 {
        return true;
      }
      var cutoff := now - window;
      var queue := if key in buckets then buckets[key] else [];
      ghost var initial := queue;
      while queue != [] && queue[0] < cutoff
        invariant Drain(queue, cutoff) == Drain(initial, cutoff)
        decreases |queue|
      {
        queue := queue[1..];
      }
      allowed := AsU32(|queue|) < max;
      if allowed {
        queue := queue + [now];
      }
      buckets := buckets[key := queue];
    }
  }

  // ---------- the specification: count admissions in the window ----------

  /** How many entries of `times` lie in the closed interval from `lo` to `hi`. */
  function CountIn(times: seq<int>, lo: int, hi: int): (n: nat)
    ensures n <= |times|
  {
    if times == [] then 0
    else CountIn(times[..|times| - 1], lo, hi) + if lo <= times[|times| - 1] <= hi then 1 else 0
  }

  /** The admission times of `key` when a request is admitted exactly if fewer than `max`
      admissions of its key fall into the window that ends now. */
  function Admitted(requests: seq<Request>, max: nat, window: nat, key: string): seq<int> {
    if requests == [] then []
    else
      var last := |requests| - 1;
      var earlier := Admitted(requests[..last], max, window, key);
      var r := requests[last];
      if r.key == key && CountIn(earlier, r.now - window, r.now) < max then earlier + [r.now] else earlier
  }

  /** The verdict that the specification gives to the last request. */
  predicate SpecVerdict(requests: seq<Request>, max: nat, window: nat)
    requires requests != []
  {
    var r := requests[|requests| - 1];
    CountIn(Admitted(requests[..|requests| - 1], max, window, r.key), r.now - window, r.now) < max
  }

  function BucketsAfter(requests: seq<Request>, max: nat, window: nat): map<string, seq<int>> {
    if requests == [] then map[]
    else Check(BucketsAfter(requests[..|requests| - 1], max, window), max, window, requests[|requests| - 1]).0
  }

  ghost predicate Ascending(times: seq<int>) {
    forall i, j :: 0 <= i <= j < |times| ==> times[i] <= times[j]
  }

  ghost predicate ClockRuns(requests: seq<Request>) {
    forall i, j :: 0 <= i <= j < |requests| ==> requests[i].now <= requests[j].now
  }

  /** The entries of `times` that are not older than `cutoff`. */
  function Recent(times: seq<int>, cutoff: int): seq<int> {
    if times == [] then []
    else if times[0] >= cutoff then [times[0]] + Recent(times[1..], cutoff)
    else Recent(times[1..], cutoff)
  }

  lemma {:induction false} RecentAppend(times: seq<int>, x: int, cutoff: int)
    ensures Recent(times + [x], cutoff) == Recent(times, cutoff) + if x >= cutoff then [x] else []
  {
    if times == [] {
      assert times + [x] == [x];
    } else {
      assert (times + [x])[1..] == times[1..] + [x];
      RecentAppend(times[1..], x, cutoff);
    }
  }

  lemma {:induction false} RecentAll(times: seq<int>, cutoff: int)
    requires forall i :: 0 <= i < |times| ==> times[i] >= cutoff
    ensures Recent(times, cutoff) == times
  {
    if times != [] {
      RecentAll(times[1..], cutoff);
    }
  }

  /** On an ascending queue, popping stale entries from the front leaves exactly the recent ones. */
  lemma {:induction false} DrainIsRecent(times: seq<int>, cutoff: int)
    requires Ascending(times)
    ensures Drain(times, cutoff) == Recent(times, cutoff) && Ascending(Drain(times, cutoff))
    ensures |Drain(times, cutoff)| <= |times|
  {
    if times != [] {
      if times[0] < cutoff {
        DrainIsRecent(times[1..], cutoff);
      } else {
        RecentAll(times, cutoff);
      }
    }
  }

  /** Draining twice is draining once with the later cutoff. */
  lemma {:induction false} RecentTwice(times: seq<int>, c1: int, c2: int)
    requires c1 <= c2
    ensures Recent(Recent(times, c1), c2) == Recent(times, c2)
  {
    if times != [] {
      RecentTwice(times[1..], c1, c2);
      if times[0] >= c1 {
        var r := Recent(times, c1);
        assert r[0] == times[0] && r[1..] == Recent(times[1..], c1);
      }
    }
  }

  lemma {:induction false} RecentCount(times: seq<int>, lo: int, hi: int)
    requires forall i :: 0 <= i < |times| ==> times[i] <= hi
    ensures |Recent(times, lo)| == CountIn(times, lo, hi)
  {
    if times != [] {
      var front, x := times[..|times| - 1], times[|times| - 1];
      assert times == front + [x];
      RecentCount(front, lo, hi);
      RecentAppend(front, x, lo);
    }
  }

  /** Admissions come in time order, none later than the last request. */
  lemma {:induction false} AdmittedAscending(requests: seq<Request>, max: nat, window: nat, key: string, now: int)
    requires ClockRuns(requests) && (requests != [] ==> requests[|requests| - 1].now <= now)
    ensures Ascending(Admitted(requests, max, window, key))
    ensures forall i :: 0 <= i < |Admitted(requests, max, window, key)| ==>
              Admitted(requests, max, window, key)[i] <= now
  {
    if requests != [] {
      var last := requests[|requests| - 1];
      AdmittedAscending(requests[..|requests| - 1], max, window, key, last.now);
    }
  }

  /** The queue of `key`, empty when the key has none. */
  function Queue(buckets: map<string, seq<int>>, key: string): seq<int> {
    if key in buckets then buckets[key] else []
  }

  /** The cutoff that the last request for `key` drained its queue with. */
  function LastCutoff(requests: seq<Request>, window: nat, key: string): Option<int> {
    if requests == [] then None
    else if requests[|requests| - 1].key == key then Some(requests[|requests| - 1].now - window)
    else LastCutoff(requests[..|requests| - 1], window, key)
  }

  /** The queue content the specification predicts: the admissions inside the window of the last request. */
  function ExpectedQueue(requests: seq<Request>, max: nat, window: nat, key: string): seq<int> {
    var cutoff := LastCutoff(requests, window, key);
    if cutoff.None? then [] else Recent(Admitted(requests, max, window, key), cutoff.value)
  }

  lemma {:induction false} NeverSeen(requests: seq<Request>, max: nat, window: nat, key: string)
    requires LastCutoff(requests, window, key).None?
    ensures Admitted(requests, max, window, key) == []
  {
    if requests != [] {
      NeverSeen(requests[..|requests| - 1], max, window, key);
    }
  }

  lemma {:induction false} CutoffBefore(requests: seq<Request>, window: nat, key: string, now: int)
    requires ClockRuns(requests) && (requests != [] ==> requests[|requests| - 1].now <= now)
    ensures LastCutoff(requests, window, key).Some? ==> LastCutoff(requests, window, key).value <= now - window
  {
    if requests != [] {
      CutoffBefore(requests[..|requests| - 1], window, key, requests[|requests| - 1].now);
    }
  }

  /** Draining the queue at a request leaves exactly the admissions that the specification counts. */
  lemma DrainedQueue(requests: seq<Request>, max: nat, window: nat, key: string, now: int)
    requires ClockRuns(requests) && (requests != [] ==> requests[|requests| - 1].now <= now)
    ensures var admitted := Admitted(requests, max, window, key);
            var drained := Drain(ExpectedQueue(requests, max, window, key), now - window);
            drained == Recent(admitted, now - window) && |drained| == CountIn(admitted, now - window, now)
    ensures var queue := ExpectedQueue(requests, max, window, key); |Drain(queue, now - window)| <= |queue|
  {
    hide Drain, Recent, CountIn, Admitted, LastCutoff;
    var admitted := Admitted(requests, max, window, key);
    var cutoff := LastCutoff(requests, window, key);
    AdmittedAscending(requests, max, window, key, now);
    CutoffBefore(requests, window, key, now);
    RecentCount(admitted, now - window, now);
    if cutoff.Some? {
      DrainIsRecent(admitted, cutoff.value);
      DrainIsRecent(Recent(admitted, cutoff.value), now - window);
      RecentTwice(admitted, cutoff.value, now - window);
    } else {
      NeverSeen(requests, max, window, key);
      DrainIsRecent([], now - window);
    }
  }

  ghost predicate QueueIs(requests: seq<Request>, max: nat, window: nat, key: string) {
    Queue(BucketsAfter(requests, max, window), key) == ExpectedQueue(requests, max, window, key)
  }

  lemma OwnQueueNext(requests: seq<Request>, max: nat, window: nat)
    requires ClockRuns(requests) && 0 < max < U32 && requests != []
    requires var front, key := requests[..|requests| - 1], requests[|requests| - 1].key;
             QueueIs(front, max, window, key) && |ExpectedQueue(front, max, window, key)| <= max
    ensures var key := requests[|requests| - 1].key;
            QueueIs(requests, max, window, key) && |ExpectedQueue(requests, max, window, key)| <= max
  {
    hide Drain, Recent, CountIn, Check, ExpectedQueue, Admitted, Queue, BucketsAfter, ClockRuns, AsU32;
    var front, r := requests[..|requests| - 1], requests[|requests| - 1];
    BucketsNext(requests, max, window);
    ClockBefore(requests);
    DrainedQueue(front, max, window, r.key, r.now);
    CheckOwnKey(BucketsAfter(front, max, window), max, window, r);
    SmallCast(|Drain(ExpectedQueue(front, max, window, r.key), r.now - window)|);
    ExpectedAtOwnRequest(requests, max, window);
  }

  lemma OtherQueueNext(requests: seq<Request>, max: nat, window: nat, key: string)
    requires requests != [] && requests[|requests| - 1].key != key
    requires QueueIs(requests[..|requests| - 1], max, window, key)
    ensures QueueIs(requests, max, window, key)
  {
    hide Check, ExpectedQueue, Queue, BucketsAfter;
    BucketsNext(requests, max, window);
    CheckOtherKey(BucketsAfter(requests[..|requests| - 1], max, window), max, window, requests[|requests| - 1], key);
    ExpectedAtOtherRequest(requests, max, window, key);
  }

  /** A queue always holds exactly the admissions of its key inside the window of its last request,
      and never more than `max` of them. */
  lemma {:induction false} QueueHoldsWindow(requests: seq<Request>, max: nat, window: nat, key: string)
    requires ClockRuns(requests) && 0 < max < U32
    ensures QueueIs(requests, max, window, key) && |Queue(BucketsAfter(requests, max, window), key)| <= max
  {
    if requests != [] {
      hide ExpectedQueue, Queue, BucketsAfter, ClockRuns;
      ClockBefore(requests);
      QueueHoldsWindow(requests[..|requests| - 1], max, window, key);
      if requests[|requests| - 1].key == key {
        OwnQueueNext(requests, max, window);
      } else {
        OtherQueueNext(requests, max, window, key);
        ExpectedAtOtherRequest(requests, max, window, key);
      }
    }
  }

  lemma BucketsNext(requests: seq<Request>, max: nat, window: nat)
    requires requests != []
    ensures BucketsAfter(requests, max, window) ==
            Check(BucketsAfter(requests[..|requests| - 1], max, window), max, window, requests[|requests| - 1]).0
  {
    hide Check;
  }

  lemma ClockBefore(requests: seq<Request>)
    requires ClockRuns(requests) && requests != []
    ensures var front := requests[..|requests| - 1];
            ClockRuns(front) && (front != [] ==> front[|front| - 1].now <= requests[|requests| - 1].now)
  {
  }

  lemma SmallCast(n: nat)
    requires n < U32
    ensures AsU32(n) == n
  {
  }

  lemma CheckOtherKey(buckets: map<string, seq<int>>, max: nat, window: nat, r: Request, key: string)
    ensures r.key != key ==> Queue(Check(buckets, max, window, r).0, key) == Queue(buckets, key)
  {
    hide Drain;
  }

  lemma CheckOwnKey(buckets: map<string, seq<int>>, max: nat, window: nat, r: Request)
    requires 0 < max
    ensures var drained := Drain(Queue(buckets, r.key), r.now - window);
            Queue(Check(buckets, max, window, r).0, r.key) == drained + if AsU32(|drained|) >= max then [] else [r.now]
  {
    hide Drain;
  }

  lemma ExpectedAtOwnRequest(requests: seq<Request>, max: nat, window: nat)
    requires requests != []
    ensures var r := requests[|requests| - 1];
            var earlier := Admitted(requests[..|requests| - 1], max, window, r.key);
            ExpectedQueue(requests, max, window, r.key) ==
              Recent(earlier, r.now - window) + if CountIn(earlier, r.now - window, r.now) >= max then [] else [r.now]
  {
    hide Recent, CountIn;
    var r := requests[|requests| - 1];
    var earlier := Admitted(requests[..|requests| - 1], max, window, r.key);
    RecentAppend(earlier, r.now, r.now - window);
    assert Recent(earlier, r.now - window) + [] == Recent(earlier, r.now - window);
  }

  lemma ExpectedAtOtherRequest(requests: seq<Request>, max: nat, window: nat, key: string)
    requires requests != [] && requests[|requests| - 1].key != key
    ensures ExpectedQueue(requests, max, window, key) == ExpectedQueue(requests[..|requests| - 1], max, window, key)
  {
    hide Recent, CountIn;
  }

  /** Refinement: on every request of every run the queue-based check gives the verdict of the counting specification,
      and the cast to 32 bits never loses anything. */
  lemma CheckRefinesCounting(requests: seq<Request>, max: nat, window: nat)
    requires ClockRuns(requests) && 0 < max < U32 && requests != []
    ensures var r := requests[|requests| - 1];
            var before := BucketsAfter(requests[..|requests| - 1], max, window);
            && Check(before, max, window, r).1 == SpecVerdict(requests, max, window)
            && AsU32(|Drain(Queue(before, r.key), r.now - window)|) == |Drain(Queue(before, r.key), r.now - window)|
  {
    hide Drain, Recent, CountIn, BucketsAfter, ExpectedQueue;
    var front := requests[..|requests| - 1];
    var r := requests[|requests| - 1];
    QueueHoldsWindow(front, max, window, r.key);
    DrainedQueue(front, max, window, r.key, r.now);
  }

  /** A limit of zero turns the limiter off: everything is admitted and nothing is remembered. */
  lemma ZeroAdmitsAll(requests: seq<Request>, window: nat, key: string)
    ensures |Passed(requests, 0, window, key)| == |OfKey(requests, key)| && BucketsAfter(requests, 0, window) == map[]
  {
    if requests != [] {
      ZeroAdmitsAll(requests[..|requests| - 1], window, key);
    }
  }

  /** The requests of one key. */
  function OfKey(requests: seq<Request>, key: string): seq<Request> {
    if requests == [] then []
    else
      var last := requests[|requests| - 1];
      OfKey(requests[..|requests| - 1], key) + if last.key == key then [last] else []
  }

  /** The times at which the code let requests of `key` pass. */
  function Passed(requests: seq<Request>, max: nat, window: nat, key: string): seq<int> {
    if requests == [] then []
    else
      var front, r := requests[..|requests| - 1], requests[|requests| - 1];
      Passed(front, max, window, key) +
      if r.key == key && Check(BucketsAfter(front, max, window), max, window, r).1 then [r.now] else []
  }

  lemma {:induction false} PassedIsAdmitted(requests: seq<Request>, max: nat, window: nat, key: string)
    requires ClockRuns(requests) && 0 < max < U32
    ensures Passed(requests, max, window, key) == Admitted(requests, max, window, key)
  {
    hide Check, BucketsAfter, CountIn;
    if requests != [] {
      PassedIsAdmitted(requests[..|requests| - 1], max, window, key);
      CheckRefinesCounting(requests, max, window);
    }
  }

  // ---------- what the specification guarantees ----------

  /** Between an admission and the `max`-th one after it more than a window passes. */
  lemma {:induction false} AdmissionsAreSpread(requests: seq<Request>, max: nat, window: nat, key: string, i: nat)
    requires ClockRuns(requests) && 0 < max
    requires max <= i < |Admitted(requests, max, window, key)|
    ensures var a := Admitted(requests, max, window, key); a[i] - a[i - max] > window
  {
    var front, r := requests[..|requests| - 1], requests[|requests| - 1];
    var earlier := Admitted(front, max, window, key);
    if i < |earlier| {
      AdmissionsAreSpread(front, max, window, key, i);
    } else {
      AdmittedAscending(front, max, window, key, r.now);
      assert r.key == key && CountIn(earlier, r.now - window, r.now) < max && i == |earlier|;
      if earlier[i - max] >= r.now - window {
        CountOfSuffix(earlier, i - max, r.now - window, r.now);
      }
    }
  }

  lemma {:induction false} CountOfSuffix(times: seq<int>, k: nat, lo: int, hi: int)
    requires k <= |times| && Ascending(times) && (forall i :: 0 <= i < |times| ==> times[i] <= hi)
    requires k < |times| ==> times[k] >= lo
    ensures CountIn(times, lo, hi) >= |times| - k
  {
    if k < |times| {
      CountOfSuffix(times[..|times| - 1], k, lo, hi);
      assert times[|times| - 1] >= times[k];
    }
  }

  lemma {:induction false} AdmissionsSpreadFar(requests: seq<Request>, max: nat, window: nat, key: string,
                                               i: nat, k: nat)
    requires ClockRuns(requests) && 0 < max && k > 0
    requires i + k * max < |Admitted(requests, max, window, key)|
    ensures var a := Admitted(requests, max, window, key); a[i + k * max] - a[i] > k * window
    decreases k
  {
    assert k * max == (k - 1) * max + max && k * window == (k - 1) * window + window;
    AdmissionsAreSpread(requests, max, window, key, i + k * max);
    if k > 1 {
      AdmissionsSpreadFar(requests, max, window, key, i, k - 1);
    }
  }

  /** More than `n` entries of an ascending sequence in an interval means two of them, `n` apart, in it. */
  lemma {:induction false} CrowdedInterval(times: seq<int>, lo: int, hi: int, n: nat) returns (i: nat)
    requires Ascending(times) && CountIn(times, lo, hi) > n
    ensures i + n < |times| && lo <= times[i] && times[i + n] <= hi
  {
    var front := times[..|times| - 1];
    if CountIn(front, lo, hi) > n {
      i := CrowdedInterval(front, lo, hi, n);
    } else {
      i := |times| - 1 - n;
      CountedEntriesAreLast(front, lo, hi, times[|times| - 1]);
    }
  }

  lemma {:induction false} CountedEntriesAreLast(times: seq<int>, lo: int, hi: int, bound: int)
    requires Ascending(times) && bound <= hi && (forall i :: 0 <= i < |times| ==> times[i] <= bound)
    ensures forall i :: |times| - CountIn(times, lo, hi) <= i < |times| ==> lo <= times[i]
  {
    if times != [] {
      CountedEntriesAreLast(times[..|times| - 1], lo, hi, bound);
      if times[|times| - 1] < lo {
        assert forall i :: 0 <= i < |times| ==> times[i] < lo;
        CountsNone(times, lo, hi);
      }
    }
  }

  lemma CountsNone(times: seq<int>, lo: int, hi: int)
    requires forall i :: 0 <= i < |times| ==> times[i] < lo
    ensures CountIn(times, lo, hi) == 0
  {
  }

  /** Whatever a run asks, any closed interval of `k` windows sees at most `k * max` requests of one key pass. */
  lemma WindowBound(requests: seq<Request>, max: nat, window: nat, key: string, start: int, k: nat)
    requires ClockRuns(requests) && 0 < max < U32 && k > 0
    ensures CountIn(Passed(requests, max, window, key), start, start + k * window) <= k * max
  {
    hide Passed, Admitted, CountIn, ClockRuns;
    var a := Admitted(requests, max, window, key);
    PassedIsAdmitted(requests, max, window, key);
    if CountIn(a, start, start + k * window) > k * max {
      AdmittedAscending(requests, max, window, key, if requests == [] then 0 else requests[|requests| - 1].now);
      var i := CrowdedInterval(a, start, start + k * window, k * max);
      AdmissionsSpreadFar(requests, max, window, key, i, k);
    }
  }
}
