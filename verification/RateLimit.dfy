/**
 The fixed-window rate limiter: one counter per key, which expires a window after its first use.

 Times are whole ticks of the store's clock.  `Store` is what the store holds; a counter whose
 time has come reads as absent.
 */
module RateLimit {
  import opened Wrappers

  type Key = string

  datatype Counter = Counter(count: nat, expiresAt: int)
  type Store = map<Key, Counter>

  datatype Limiter = Limiter(limit: nat, window: nat)

  datatype Verdict = Accepted | TooMany(retryAfter: int)

  // ----- The store's commands -----

  predicate Present(s: Store, k: Key, now: int) {
    k in s && now < s[k].expiresAt
  }

  class Redis {
    var counters: map<Key, nat>
    var deadlines: map<Key, int>

    constructor ()
      ensures counters == map[] && deadlines == map[]
    {
      counters, deadlines := map[], map[];
    }

    // Every counter the limiter leaves behind has a deadline.
    ghost predicate Valid()
      reads this
    {
      counters.Keys == deadlines.Keys
    }

    ghost function Contents(): Store
      reads this
      requires Valid()
    {
      map k | k in counters :: Counter(counters[k], deadlines[k])
    }

    method Incr(k: Key, now: int) returns (n: nat)
      modifies this
      ensures n == if k in old(counters) && k in old(deadlines) && now < old(deadlines)[k] then old(counters)[k] + 1 else 1
      ensures counters == old(counters)[k := n]
      ensures n == 1 || k in old(deadlines)
      ensures deadlines == if k in old(counters) && k in old(deadlines) && now < old(deadlines)[k]
                           then old(deadlines) else old(deadlines) - {k}
    {
      if k in counters && k in deadlines && now < deadlines[k] {
        n := counters[k] + 1;
      } else {
        deadlines := deadlines - {k};
        n := 1;
      }
      counters := counters[k := n];
    }

    method Expire(k: Key, window: nat, now: int)
      modifies this`deadlines
      ensures deadlines == old(deadlines)[k := now + window]
    {
      deadlines := deadlines[k := now + window];
    }

    /** The limiter's check: count the request, start the window on the first one, compare with the limit. */
    method Check(limiter: Limiter, k: Key, now: int) returns (v: Verdict)
      requires Valid() && (forall j :: j in counters ==> counters[j] >= 1)
      modifies this
      ensures Valid() && (forall j :: j in counters ==> counters[j] >= 1)
      ensures (Contents(), v) == Call(old(Contents()), limiter, k, now)
    {
      var current := Incr(k, now);
      if current == 1 {
        Expire(k, limiter.window, now);
      }
      assert Contents() == old(Contents())[k := Counted(old(Contents()), limiter.window, k, now)];
      assert Counter(current, deadlines[k]) == Counted(old(Contents()), limiter.window, k, now);
      hide Counted, Present;
      if current > limiter.limit {
        var ttl := deadlines[k] - now;
        v := TooMany(if ttl > 1 then ttl else 1);
      } else {
        v := Accepted;
      }
    }
  }

  // ----- One call, as a function of the store -----

  function Counted(s: Store, window: nat, k: Key, now: int): Counter {
    if Present(s, k, now) then Counter(s[k].count + 1, s[k].expiresAt) else Counter(1, now + window)
  }

  function Call(s: Store, limiter: Limiter, k: Key, now: int): (Store, Verdict) {
    var c := Counted(s, limiter.window, k, now);
    (s[k := c],
     if c.count <= limiter.limit then Accepted
     else TooMany(if c.expiresAt - now > 1 then c.expiresAt - now else 1))
  }

  // ----- Traces of requests -----

  datatype Request = Request(key: Key, time: int)

  predicate InOrder(trace: seq<Request>) {
    forall i, j :: 0 <= i < j < |trace| ==> trace[i].time <= trace[j].time
  }

  function Verdicts(s: Store, limiter: Limiter, trace: seq<Request>): (vs: seq<Verdict>)
    ensures |vs| == |trace|
    decreases |trace|
  {
    if trace == [] then []
    else
      var (s', v) := Call(s, limiter, trace[0].key, trace[0].time);
      [v] + Verdicts(s', limiter, trace[1..])
  }

  // How many requests for `k` in the half-open interval from `lo` to `hi` were accepted.
  function AcceptedIn(s: Store, limiter: Limiter, trace: seq<Request>, k: Key, lo: int, hi: int): nat
    decreases |trace|
  {
    if trace == [] then 0
    else
      var r := trace[0];
      var (s', v) := Call(s, limiter, r.key, r.time);
      (if r.key == k && lo <= r.time < hi && v.Accepted? then 1 else 0)
      + AcceptedIn(s', limiter, trace[1..], k, lo, hi)
  }

  // How many windows can start in a span of length `d`.
  function Windows(d: int, window: nat): nat
    requires window > 0
    decreases if d > 0 then d else 0
  {
    if d <= 0 then 0 else 1 + Windows(d - window, window)
  }

  lemma {:induction false} WindowsMonotone(d: int, e: int, window: nat)
    requires window > 0 && d <= e
    ensures Windows(d, window) <= Windows(e, window)
    decreases if e > 0 then e else 0
  {
    if d > 0 {
      WindowsMonotone(d - window, e - window, window);
    }
  }

  lemma {:induction false} WindowsInSpan(n: nat, window: nat)
    requires window > 0
    ensures Windows(n * window, window) == n
    decreases n
  {
    if n > 0 {
      assert n * window - window == (n - 1) * window;
      assert n * window > 0;
      WindowsInSpan(n - 1, window);
    }
  }

  // What a running window for `k` still lets through at time `t`, and when the next one can start.
  function Left(s: Store, limiter: Limiter, k: Key, t: int): nat {
    if !Present(s, k, t) then 0
    else if s[k].count <= limiter.limit then limiter.limit - s[k].count else 0
  }

  function NextStart(s: Store, k: Key, t: int): int {
    if Present(s, k, t) then s[k].expiresAt else t
  }

  // The most that can still be accepted for `k` before `hi`, from time `t` on.
  function Budget(s: Store, limiter: Limiter, k: Key, t: int, hi: int): nat
    requires limiter.window > 0
  {
    Left(s, limiter, k, t) + limiter.limit * Windows(hi - NextStart(s, k, t), limiter.window)
  }

  lemma MoreTimes(limit: nat, a: nat, b: nat)
    requires a <= b
    ensures limit * a <= limit * b
  {
  }

  /** As time passes the budget only shrinks. */
  lemma BudgetShrinks(s: Store, limiter: Limiter, k: Key, t: int, u: int, hi: int)
    requires limiter.window > 0 && t <= u
    ensures Budget(s, limiter, k, u, hi) <= Budget(s, limiter, k, t, hi)
  {
    WindowsMonotone(hi - NextStart(s, k, u), hi - NextStart(s, k, t), limiter.window);
    MoreTimes(limiter.limit, Windows(hi - NextStart(s, k, u), limiter.window),
              Windows(hi - NextStart(s, k, t), limiter.window));
  }

  /** A request before `hi` costs one unit of the budget if accepted, and never raises it. */
  lemma CallSpendsBudget(s: Store, limiter: Limiter, k: Key, t: int, hi: int)
    requires limiter.window > 0 && t < hi
    ensures var (s', v) := Call(s, limiter, k, t);
      (if v.Accepted? then 1 else 0) + Budget(s', limiter, k, t, hi) <= Budget(s, limiter, k, t, hi)
  {
    var w := Windows(hi - t - limiter.window, limiter.window);
    assert limiter.limit * (1 + w) == limiter.limit + limiter.limit * w;
  }

  lemma {:induction false} AcceptedWithinBudget(s: Store, limiter: Limiter, trace: seq<Request>, k: Key, t: int, hi: int)
    requires limiter.window > 0 && InOrder(trace) && (trace != [] ==> t <= trace[0].time)
    ensures AcceptedIn(s, limiter, trace, k, t, hi) <= Budget(s, limiter, k, t, hi)
    decreases |trace|
  {
    if trace != [] {
      var r := trace[0];
      var s' := Call(s, limiter, r.key, r.time).0;
      BudgetShrinks(s, limiter, k, t, r.time, hi);
      if r.key == k && r.time < hi {
        CallSpendsBudget(s, limiter, k, r.time, hi);
      } else {
        if r.time >= hi {
          NothingAfter(s', limiter, trace[1..], k, t, hi);
        } else {
          assert Budget(s', limiter, k, r.time, hi) == Budget(s, limiter, k, r.time, hi);
        }
      }
      if r.time < hi {
        AcceptedWithinBudget(s', limiter, trace[1..], k, r.time, hi);
        SameCount(s', limiter, trace[1..], k, t, r.time, hi);
      }
    }
  }

  lemma {:induction false} NothingAfter(s: Store, limiter: Limiter, trace: seq<Request>, k: Key, lo: int, hi: int)
    requires forall r :: r in trace ==> r.time >= hi
    ensures AcceptedIn(s, limiter, trace, k, lo, hi) == 0
    decreases |trace|
  {
    if trace != [] {
      assert trace[0] in trace;
      NothingAfter(Call(s, limiter, trace[0].key, trace[0].time).0, limiter, trace[1..], k, lo, hi);
    }
  }

  lemma {:induction false} SameCount(s: Store, limiter: Limiter, trace: seq<Request>, k: Key, lo: int, lo': int, hi: int)
    requires forall r :: r in trace ==> r.time >= lo && r.time >= lo'
    ensures AcceptedIn(s, limiter, trace, k, lo, hi) == AcceptedIn(s, limiter, trace, k, lo', hi)
    decreases |trace|
  {
    if trace != [] {
      assert trace[0] in trace;
      SameCount(Call(s, limiter, trace[0].key, trace[0].time).0, limiter, trace[1..], k, lo, lo', hi);
    }
  }

  // A stored counter has counted something.
  predicate Used(s: Store, k: Key) {
    k in s ==> s[k].count >= 1
  }

  // The sharp bound: the request that opened a window still running at the start lies before the interval.
  function MostIn(limiter: Limiter, n: nat): nat {
    if limiter.limit == 0 then 0 else (n + 1) * limiter.limit - 1
  }

  lemma BudgetOfInterval(s: Store, limiter: Limiter, k: Key, t: int, lo: int, n: nat)
    requires limiter.window > 0 && lo <= t && n >= 1 && Used(s, k)
    ensures Budget(s, limiter, k, t, lo + n * limiter.window) <= MostIn(limiter, n)
  {
    var d := lo + n * limiter.window - NextStart(s, k, t);
    WindowsMonotone(d, n * limiter.window, limiter.window);
    WindowsInSpan(n, limiter.window);
    MoreTimes(limiter.limit, Windows(d, limiter.window), n);
    assert (n + 1) * limiter.limit == limiter.limit * n + limiter.limit;
  }

  /**
   For any trace in order of time and any n, the requests accepted for one key in a half-open
   interval of n windows' length number at most (n + 1) times the limit, and in fact one fewer.
   */
  lemma {:induction false} AcceptedPerWindows(s: Store, limiter: Limiter, trace: seq<Request>, k: Key, lo: int, n: nat)
    requires InOrder(trace) && n >= 1 && Used(s, k)
    ensures AcceptedIn(s, limiter, trace, k, lo, lo + n * limiter.window) <= MostIn(limiter, n)
    ensures MostIn(limiter, n) <= (n + 1) * limiter.limit
    decreases |trace|
  {
    var hi := lo + n * limiter.window;
    if limiter.window == 0 {
      EmptyInterval(s, limiter, trace, k, lo);
    } else if trace != [] {
      var r := trace[0];
      if r.time < lo {
        AcceptedPerWindows(Call(s, limiter, r.key, r.time).0, limiter, trace[1..], k, lo, n);
      } else {
        AcceptedWithinBudget(s, limiter, trace, k, r.time, hi);
        assert forall q :: q in trace ==> q.time >= r.time;
        SameCount(s, limiter, trace, k, lo, r.time, hi);
        BudgetOfInterval(s, limiter, k, r.time, lo, n);
      }
    }
  }

  lemma {:induction false} EmptyInterval(s: Store, limiter: Limiter, trace: seq<Request>, k: Key, lo: int)
    ensures AcceptedIn(s, limiter, trace, k, lo, lo) == 0
    decreases |trace|
  {
    if trace != [] {
      EmptyInterval(Call(s, limiter, trace[0].key, trace[0].time).0, limiter, trace[1..], k, lo);
    }
  }

  /**
   A rejected request leaves the end of a window that is running where it was, and reports the time to
   it; only with a limit of zero can a rejected request open a window.
   */
  lemma RejectionNeverExtends(s: Store, limiter: Limiter, k: Key, now: int)
    requires Call(s, limiter, k, now).1.TooMany?
    ensures Present(s, k, now) || limiter.limit == 0
    ensures Present(s, k, now) ==> Call(s, limiter, k, now).0[k].expiresAt == s[k].expiresAt
                                   && Call(s, limiter, k, now).1.retryAfter == s[k].expiresAt - now
  {
  }

  function OnlyFor(trace: seq<Request>, k: Key): seq<Request>
    decreases |trace|
  {
    if trace == [] then []
    else if trace[0].key == k then [trace[0]] + OnlyFor(trace[1..], k)
    else OnlyFor(trace[1..], k)
  }

  function VerdictsFor(s: Store, limiter: Limiter, trace: seq<Request>, k: Key): seq<Verdict>
    decreases |trace|
  {
    if trace == [] then []
    else
      var (s', v) := Call(s, limiter, trace[0].key, trace[0].time);
      (if trace[0].key == k then [v] else []) + VerdictsFor(s', limiter, trace[1..], k)
  }

  /** The verdicts on one key's requests are those of a store that sees no other key. */
  lemma {:induction false} KeysAreIndependent(s: Store, t: Store, limiter: Limiter, trace: seq<Request>, k: Key)
    requires k in s <==> k in t
    requires k in s ==> s[k] == t[k]
    ensures VerdictsFor(s, limiter, trace, k) == Verdicts(t, limiter, OnlyFor(trace, k))
    decreases |trace|
  {
    if trace != [] {
      var r := trace[0];
      var s' := Call(s, limiter, r.key, r.time).0;
      if r.key == k {
        var only := OnlyFor(trace, k);
        assert only[1..] == OnlyFor(trace[1..], k);
        KeysAreIndependent(s', Call(t, limiter, k, r.time).0, limiter, trace[1..], k);
      } else {
        KeysAreIndependent(s', t, limiter, trace[1..], k);
      }
    }
  }

  // ----- The bound is reached -----

  function Burst(k: Key, t: int, m: nat): (trace: seq<Request>)
    ensures |trace| == m && forall r :: r in trace ==> r == Request(k, t)
  {
    seq(m, _ => Request(k, t))
  }

  // A full burst at every multiple of the window from the i-th to the n-th.
  function Bursts(limiter: Limiter, k: Key, i: nat, n: nat): seq<Request>
    decreases if i <= n then n - i else 0
  {
    if i > n then [] else Burst(k, i * limiter.window, limiter.limit) + (if i < n then Bursts(limiter, k, i + 1, n) else [])
  }

  /** One request at time 0, the rest of its window just before it ends, then n full bursts. */
  function WorstTrace(limiter: Limiter, k: Key, n: nat): seq<Request>
    requires limiter.limit >= 1
  {
    [Request(k, 0)] + (Burst(k, limiter.window - 1, limiter.limit - 1) + Bursts(limiter, k, 1, n))
  }

  lemma BurstSplits(k: Key, t: int, m: nat, rest: seq<Request>)
    requires m >= 1
    ensures var trace := Burst(k, t, m) + rest;
      trace[0] == Request(k, t) && trace[1..] == Burst(k, t, m - 1) + rest
  {
    var trace, tail := Burst(k, t, m) + rest, Burst(k, t, m - 1) + rest;
    assert Burst(k, t, m)[0] in Burst(k, t, m);
    forall i | 0 <= i < |tail| ensures trace[i + 1] == tail[i] {
      if i < m - 1 {
        assert Burst(k, t, m)[i + 1] in Burst(k, t, m) && Burst(k, t, m - 1)[i] in Burst(k, t, m - 1);
      }
    }
  }

  lemma {:induction false} BurstInWindow(s: Store, limiter: Limiter, k: Key, t: int, m: nat, rest: seq<Request>, lo: int, hi: int)
    requires Present(s, k, t) && s[k].count + m <= limiter.limit && lo <= t < hi
    ensures AcceptedIn(s, limiter, Burst(k, t, m) + rest, k, lo, hi)
         == m + AcceptedIn(s[k := Counter(s[k].count + m, s[k].expiresAt)], limiter, rest, k, lo, hi)
    decreases m
  {
    var trace := Burst(k, t, m) + rest;
    if m == 0 {
      assert trace == rest && s[k := Counter(s[k].count, s[k].expiresAt)] == s;
    } else {
      BurstSplits(k, t, m, rest);
      var s' := Call(s, limiter, k, t).0;
      BurstInWindow(s', limiter, k, t, m - 1, rest, lo, hi);
      assert s'[k := Counter(s'[k].count + (m - 1), s'[k].expiresAt)] == s[k := Counter(s[k].count + m, s[k].expiresAt)];
    }
  }

  lemma {:induction false} BurstsAreAccepted(s: Store, limiter: Limiter, k: Key, i: nat, n: nat, lo: int, hi: int)
    requires limiter.limit >= 1 && limiter.window >= 1 && 1 <= i <= n
    requires k in s && s[k].expiresAt == i * limiter.window
    requires lo <= i * limiter.window && n * limiter.window < hi
    ensures AcceptedIn(s, limiter, Bursts(limiter, k, i, n), k, lo, hi) == (n - i + 1) * limiter.limit
    decreases n - i
  {
    var t := i * limiter.window;
    var later := if i < n then Bursts(limiter, k, i + 1, n) else [];
    var trace := Bursts(limiter, k, i, n);
    MoreTimes(limiter.window, i, n);
    var s' := Call(s, limiter, k, t).0;
    BurstSplits(k, t, limiter.limit, later);
    BurstInWindow(s', limiter, k, t, limiter.limit - 1, later, lo, hi);
    if i < n {
      assert (i + 1) * limiter.window == t + limiter.window;
      BurstsAreAccepted(s'[k := Counter(limiter.limit, s'[k].expiresAt)], limiter, k, i + 1, n, lo, hi);
      assert (n - i + 1) * limiter.limit == (n - (i + 1) + 1) * limiter.limit + limiter.limit;
    }
  }

  lemma InOrderConcat(a: seq<Request>, b: seq<Request>)
    requires InOrder(a) && InOrder(b) && forall p, q :: p in a && q in b ==> p.time <= q.time
    ensures InOrder(a + b)
  {
  }

  lemma {:induction false} BurstsInOrder(limiter: Limiter, k: Key, i: nat, n: nat)
    ensures InOrder(Bursts(limiter, k, i, n))
    ensures forall r :: r in Bursts(limiter, k, i, n) ==> r.time >= i * limiter.window
    decreases if i <= n then n - i else 0
  {
    if i < n {
      BurstsInOrder(limiter, k, i + 1, n);
      assert (i + 1) * limiter.window == i * limiter.window + limiter.window;
      var burst := Burst(k, i * limiter.window, limiter.limit);
      assert forall j :: 0 <= j < |burst| ==> burst[j] in burst;
      InOrderConcat(burst, Bursts(limiter, k, i + 1, n));
    } else if i == n {
      var burst := Burst(k, i * limiter.window, limiter.limit);
      assert forall j :: 0 <= j < |burst| ==> burst[j] in burst;
      assert Bursts(limiter, k, i, n) == burst;
    }
  }

  lemma WorstTraceInOrder(limiter: Limiter, k: Key, n: nat)
    requires limiter.limit >= 1 && limiter.window >= 1
    ensures InOrder(WorstTrace(limiter, k, n))
  {
    var burst := Burst(k, limiter.window - 1, limiter.limit - 1);
    assert forall j :: 0 <= j < |burst| ==> burst[j] in burst;
    BurstsInOrder(limiter, k, 1, n);
    InOrderConcat(burst, Bursts(limiter, k, 1, n));
    InOrderConcat([Request(k, 0)], burst + Bursts(limiter, k, 1, n));
  }

  /** No smaller bound holds: some trace has one fewer than (n + 1) times the limit accepted in n windows' length. */
  lemma BoundIsReached(limiter: Limiter, k: Key, n: nat)
    requires limiter.limit >= 1 && limiter.window >= 2 && n >= 1
    ensures AcceptedIn(map[], limiter, WorstTrace(limiter, k, n), k, limiter.window - 1, limiter.window - 1 + n * limiter.window)
         == MostIn(limiter, n)
    ensures InOrder(WorstTrace(limiter, k, n))
  {
    WorstTraceInOrder(limiter, k, n);
    var lo, hi := limiter.window - 1, limiter.window - 1 + n * limiter.window;
    var trace := WorstTrace(limiter, k, n);
    var s1 := Call(map[], limiter, k, 0).0;
    assert s1 == map[k := Counter(1, limiter.window)];
    var bursts := Bursts(limiter, k, 1, n);
    assert trace[1..] == Burst(k, lo, limiter.limit - 1) + bursts;
    assert n * limiter.window >= limiter.window;
    BurstInWindow(s1, limiter, k, lo, limiter.limit - 1, bursts, lo, hi);
    BurstsAreAccepted(s1[k := Counter(limiter.limit, limiter.window)], limiter, k, 1, n, lo, hi);
    assert (n + 1) * limiter.limit == n * limiter.limit + limiter.limit;
  }
  // ----- The verdict, from the history alone -----

  /** The store when request number `i` arrives. */
  function StoreAt(s: Store, limiter: Limiter, trace: seq<Request>, i: nat): Store
    requires i <= |trace|
    decreases i
  {
    if i == 0 then s else StoreAt(Call(s, limiter, trace[0].key, trace[0].time).0, limiter, trace[1..], i - 1)
  }

  lemma {:induction false} VerdictAt(s: Store, limiter: Limiter, trace: seq<Request>, i: nat)
    requires i < |trace|
    ensures Call(StoreAt(s, limiter, trace, i), limiter, trace[i].key, trace[i].time)
         == (StoreAt(s, limiter, trace, i + 1), Verdicts(s, limiter, trace)[i])
    decreases i
  {
    if i > 0 {
      VerdictAt(Call(s, limiter, trace[0].key, trace[0].time).0, limiter, trace[1..], i - 1);
    }
  }

  /** The last request for `k` before number `i`. */
  function Previous(trace: seq<Request>, k: Key, i: nat): (j: Option<nat>)
    requires i <= |trace|
    ensures j.Some? ==> j.value < i && trace[j.value].key == k
    ensures forall m :: (if j.Some? then j.value + 1 else 0) <= m < i ==> trace[m].key != k
  {
    if i == 0 then None else if trace[i - 1].key == k then Some(i - 1) else Previous(trace, k, i - 1)
  }

  /** The request that opened the window in which request number `i` falls: itself, if no window is open. */
  function Opener(trace: seq<Request>, window: nat, i: nat): (o: nat)
    requires i < |trace|
    ensures o <= i && trace[o].key == trace[i].key
    decreases i
  {
    var before := Previous(trace, trace[i].key, i);
    if before.None? then i
    else
      var o := Opener(trace, window, before.value);
      if trace[i].time < trace[o].time + window then o else i
  }

  /** The requests for `k` among those from number `lo` up to `hi`. */
  function CountIn(trace: seq<Request>, k: Key, lo: nat, hi: nat): nat
    requires hi <= |trace|
  {
    if hi <= lo then 0 else CountIn(trace, k, lo, hi - 1) + (if trace[hi - 1].key == k then 1 else 0)
  }

  lemma {:induction false} NothingToCount(trace: seq<Request>, k: Key, lo: nat, mid: nat, hi: nat)
    requires lo <= mid <= hi <= |trace| && forall m :: mid <= m < hi ==> trace[m].key != k
    ensures CountIn(trace, k, lo, hi) == CountIn(trace, k, lo, mid)
    decreases hi
  {
    if mid < hi {
      NothingToCount(trace, k, lo, mid, hi - 1);
    }
  }

  // What the store holds for `k` when request number `i` arrives.
  ghost predicate CounterIs(limiter: Limiter, trace: seq<Request>, k: Key, i: nat)
    requires i <= |trace|
  {
    var s := StoreAt(map[], limiter, trace, i);
    match Previous(trace, k, i)
    case None => k !in s
    case Some(j) =>
      var o := Opener(trace, limiter.window, j);
      k in s && s[k] == Counter(CountIn(trace, k, o, j + 1), trace[o].time + limiter.window)
  }

  lemma CountedNext(limiter: Limiter, trace: seq<Request>, i: nat)
    requires i < |trace| && CounterIs(limiter, trace, trace[i].key, i)
    ensures var r, o := trace[i], Opener(trace, limiter.window, i);
      Counted(StoreAt(map[], limiter, trace, i), limiter.window, r.key, r.time)
      == Counter(CountIn(trace, r.key, o, i + 1), trace[o].time + limiter.window)
  {
    var k := trace[i].key;
    var before := Previous(trace, k, i);
    if before.Some? {
      var o := Opener(trace, limiter.window, before.value);
      NothingToCount(trace, k, o, before.value + 1, i);
    }
    assert CountIn(trace, k, i, i) == 0;
  }

  lemma CounterStep(limiter: Limiter, trace: seq<Request>, k: Key, i: nat)
    requires i < |trace| && CounterIs(limiter, trace, k, i) && CounterIs(limiter, trace, trace[i].key, i)
    ensures CounterIs(limiter, trace, k, i + 1)
  {
    CountedNext(limiter, trace, i);
    VerdictAt(map[], limiter, trace, i);
    assert Previous(trace, k, i + 1) == if trace[i].key == k then Some(i) else Previous(trace, k, i);
    hide StoreAt, Opener, CountIn, Counted, Verdicts, Previous;
  }

  lemma {:induction false} CountersFollow(limiter: Limiter, trace: seq<Request>, k: Key, i: nat)
    requires i <= |trace|
    ensures CounterIs(limiter, trace, k, i)
    decreases i
  {
    if i > 0 {
      CountersFollow(limiter, trace, k, i - 1);
      CountersFollow(limiter, trace, trace[i - 1].key, i - 1);
      hide CounterIs;
      CounterStep(limiter, trace, k, i - 1);
    }
  }

  /**
   A request is accepted exactly if, in the window that is open for its key or that it opens, at most `limit` requests
   have come so far, this one included; otherwise it is told the time to the end of that window, one second at least.
   */
  lemma VerdictFollowsHistory(limiter: Limiter, trace: seq<Request>, i: nat)
    requires i < |trace|
    ensures var r, o := trace[i], Opener(trace, limiter.window, i);
      var left := trace[o].time + limiter.window - r.time;
      Verdicts(map[], limiter, trace)[i]
      == if CountIn(trace, r.key, o, i + 1) <= limiter.limit then Accepted else TooMany(if left > 1 then left else 1)
  {
    CountersFollow(limiter, trace, trace[i].key, i);
    CountedNext(limiter, trace, i);
    VerdictAt(map[], limiter, trace, i);
  }
}
