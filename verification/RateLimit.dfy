/**
 The per-IP rate limiter of ratelimit_middleware.go.

 Instants and durations are integers counted in nanoseconds.  The mutex makes the request
 path and the sweep atomic with respect to each other, so a history is a sequence of `Event`s
 in lock order; the clock is read under the mutex, so the instants never decrease.
 */
module RateLimit {

  type Ip = string

  datatype Config = Config(limit: int, window: int) {
    // The ticker of the sweeper refuses a period that is not positive.
    predicate Valid() {
      window > 0
    }

    // What one window really admits: its first request is never compared with the limit.
    function Quota(): int {
      if limit < 1 then 1 else limit
    }
  }

  /** The value of one entry of the map. */
  datatype Window = Window(count: int, end: int)

  type Table = map<Ip, Window>

  datatype Event = Request(ip: Ip, at: int) | Sweep(at: int)

  // ---------- One event ----------

  /** Whether a request arriving at `now` is let through. */
  predicate Decide(cfg: Config, t: Table, ip: Ip, now: int) {
    if ip !in t || now > t[ip].end then true else t[ip].count + 1 <= cfg.limit
  }

  function OnRequest(cfg: Config, t: Table, ip: Ip, now: int): Table {
    if ip !in t || now > t[ip].end
    then t[ip := Window(1, now + cfg.window)]
    else t[ip := t[ip].(count := t[ip].count + 1)]
  }

  function OnSweep(t: Table, now: int): Table {
    map ip | ip in t && now <= t[ip].end :: t[ip]
  }

  // ---------- Whole histories ----------

  function Run(cfg: Config, es: seq<Event>): Table {
    if es == [] then map[]
    else
      var t := Run(cfg, es[..|es| - 1]);
      match es[|es| - 1]
      case Request(ip, now) => OnRequest(cfg, t, ip, now)
      case Sweep(now) => OnSweep(t, now)
  }

  ghost predicate Sorted(es: seq<Event>) {
    forall i, j :: 0 <= i < j < |es| ==> es[i].at <= es[j].at
  }

  /** The answers given to `ip`, in order. */
  function Decisions(cfg: Config, es: seq<Event>, ip: Ip): seq<bool> {
    if es == [] then []
    else
      var init, last := es[..|es| - 1], es[|es| - 1];
      if last.Request? && last.ip == ip
      then Decisions(cfg, init, ip) + [Decide(cfg, Run(cfg, init), ip, last.at)]
      else Decisions(cfg, init, ip)
  }

  /** The instants at which `ip` sent a request, in order. */
  function TimesOf(es: seq<Event>, ip: Ip): seq<int> {
    if es == [] then []
    else
      var init, last := es[..|es| - 1], es[|es| - 1];
      if last.Request? && last.ip == ip then TimesOf(init, ip) + [last.at] else TimesOf(init, ip)
  }

  /** How many requests of `ip` with an instant in [a, b] were let through. */
  function AdmittedIn(cfg: Config, es: seq<Event>, ip: Ip, a: int, b: int): nat {
    if es == [] then 0
    else
      var init, last := es[..|es| - 1], es[|es| - 1];
      AdmittedIn(cfg, init, ip, a, b) +
      if last.Request? && last.ip == ip && a <= last.at <= b && Decide(cfg, Run(cfg, init), ip, last.at)
      then 1 else 0
  }

  // ---------- Specification from the request times alone ----------

  ghost predicate SortedTimes(ts: seq<int>) {
    forall i, j :: 0 <= i < j < |ts| ==> ts[i] <= ts[j]
  }

  /** The index of the request that opened the window in which request `i` falls. */
  function Opening(w: int, ts: seq<int>, i: nat): (o: nat)
    requires i < |ts|
    ensures o <= i
  {
    if i == 0 then 0
    else
      var p := Opening(w, ts, i - 1);
      if ts[i] > ts[p] + w then i else p
  }

  /** Request `i` is let through iff it is among the first `Quota` requests of its window. */
  predicate Admits(cfg: Config, ts: seq<int>, i: nat)
    requires i < |ts|
  {
    i - Opening(cfg.window, ts, i) < cfg.Quota()
  }

  /** How many of the first `n` requests are in [a, b] and let through. */
  function Count(cfg: Config, ts: seq<int>, n: nat, a: int, b: int): nat
    requires n <= |ts|
  {
    if n == 0 then 0
    else Count(cfg, ts, n - 1, a, b) + if a <= ts[n - 1] <= b && Admits(cfg, ts, n - 1) then 1 else 0
  }

  /** How many of the first `n` requests lie in [a, b], let through or not. */
  function Seen(ts: seq<int>, n: nat, a: int, b: int): nat
    requires n <= |ts|
  {
    if n == 0 then 0 else Seen(ts, n - 1, a, b) + if a <= ts[n - 1] <= b then 1 else 0
  }

  // ---------- The limiter refines that specification ----------

  lemma {:induction false} OpeningPrefix(w: int, ts: seq<int>, x: int, i: nat)
    requires i < |ts|
    ensures Opening(w, ts + [x], i) == Opening(w, ts, i)
  {
    if i > 0 {
      OpeningPrefix(w, ts, x, i - 1);
    }
  }

  lemma {:induction false} CountPrefix(cfg: Config, ts: seq<int>, x: int, n: nat, a: int, b: int)
    requires n <= |ts|
    ensures Count(cfg, ts + [x], n, a, b) == Count(cfg, ts, n, a, b)
  {
    if n > 0 {
      CountPrefix(cfg, ts, x, n - 1, a, b);
      OpeningPrefix(cfg.window, ts, x, n - 1);
    }
  }

  lemma {:induction false} TimesSorted(es: seq<Event>, ip: Ip)
    requires Sorted(es)
    ensures SortedTimes(TimesOf(es, ip))
    ensures es != [] ==> forall i :: 0 <= i < |TimesOf(es, ip)| ==> TimesOf(es, ip)[i] <= es[|es| - 1].at
  {
    if es != [] {
      TimesSorted(es[..|es| - 1], ip);
    }
  }

  lemma {:induction false} TimesFromRequests(es: seq<Event>, ip: Ip, i: nat) returns (k: nat)
    requires i < |TimesOf(es, ip)|
    ensures k < |es| && es[k] == Request(ip, TimesOf(es, ip)[i])
  {
    var init := es[..|es| - 1];
    if i < |TimesOf(init, ip)| {
      k := TimesFromRequests(init, ip, i);
    } else {
      k := |es| - 1;
    }
  }

  /** What the table holds for `ip`, in terms of the history: the coupling invariant. */
  ghost predicate Coupled(cfg: Config, t: Table, ts: seq<int>, ip: Ip, now: int) {
    if ts == [] then ip !in t
    else
      var o := Opening(cfg.window, ts, |ts| - 1);
      if ip in t then t[ip] == Window(|ts| - o, ts[o] + cfg.window)
      else now > ts[o] + cfg.window
  }

  lemma CoupledRequest(cfg: Config, t: Table, ts: seq<int>, ip: Ip, now: int, later: int)
    requires Coupled(cfg, t, ts, ip, now) && now <= later
    ensures Coupled(cfg, OnRequest(cfg, t, ip, now), ts + [now], ip, later)
  {
    if ts != [] {
      OpeningPrefix(cfg.window, ts, now, |ts| - 1);
    }
  }

  lemma {:induction false} RunCoupled(cfg: Config, es: seq<Event>, ip: Ip, now: int)
    requires Sorted(es)
    requires es != [] ==> es[|es| - 1].at <= now
    ensures Coupled(cfg, Run(cfg, es), TimesOf(es, ip), ip, now)
  {
    if es != [] {
      var init, last := es[..|es| - 1], es[|es| - 1];
      RunCoupled(cfg, init, ip, last.at);
      if last.Request? && last.ip == ip {
        CoupledRequest(cfg, Run(cfg, init), TimesOf(init, ip), ip, last.at, now);
      }
    }
  }

  lemma DecideIsAdmits(cfg: Config, es: seq<Event>, ip: Ip, now: int)
    requires Sorted(es)
    requires es != [] ==> es[|es| - 1].at <= now
    ensures var ts := TimesOf(es, ip) + [now];
            Decide(cfg, Run(cfg, es), ip, now) == Admits(cfg, ts, |ts| - 1)
  {
    RunCoupled(cfg, es, ip, now);
    var ts := TimesOf(es, ip);
    if ts != [] {
      OpeningPrefix(cfg.window, ts, now, |ts| - 1);
    }
  }

  /** Every answer of the limiter is the one the request times alone determine. */
  lemma {:induction false} RefinesHistory(cfg: Config, es: seq<Event>, ip: Ip)
    requires Sorted(es)
    ensures |Decisions(cfg, es, ip)| == |TimesOf(es, ip)|
    ensures forall i :: 0 <= i < |TimesOf(es, ip)| ==>
              Decisions(cfg, es, ip)[i] == Admits(cfg, TimesOf(es, ip), i)
  {
    if es != [] {
      var init, last := es[..|es| - 1], es[|es| - 1];
      RefinesHistory(cfg, init, ip);
      if last.Request? && last.ip == ip {
        DecideIsAdmits(cfg, init, ip, last.at);
        var ts := TimesOf(init, ip);
        forall i | 0 <= i < |ts| ensures Admits(cfg, ts + [last.at], i) == Admits(cfg, ts, i) {
          OpeningPrefix(cfg.window, ts, last.at, i);
        }
      }
    }
  }

  lemma {:induction false} AdmittedIsCount(cfg: Config, es: seq<Event>, ip: Ip, a: int, b: int)
    requires Sorted(es)
    ensures AdmittedIn(cfg, es, ip, a, b) == Count(cfg, TimesOf(es, ip), |TimesOf(es, ip)|, a, b)
  {
    if es != [] {
      var init, last := es[..|es| - 1], es[|es| - 1];
      AdmittedIsCount(cfg, init, ip, a, b);
      if last.Request? && last.ip == ip {
        var ts := TimesOf(init, ip);
        DecideIsAdmits(cfg, init, ip, last.at);
        CountPrefix(cfg, ts, last.at, |ts|, a, b);
      }
    }
  }

  // ---------- The sweeper is invisible, and addresses do not affect each other ----------

  /** The part of a history that concerns one address: its requests, without any sweep. */
  function Restrict(es: seq<Event>, ip: Ip): seq<Event> {
    if es == [] then []
    else
      var init, last := es[..|es| - 1], es[|es| - 1];
      if last.Request? && last.ip == ip then Restrict(init, ip) + [last] else Restrict(init, ip)
  }

  function WithoutSweeps(es: seq<Event>): seq<Event> {
    if es == [] then []
    else
      var init, last := es[..|es| - 1], es[|es| - 1];
      if last.Request? then WithoutSweeps(init) + [last] else WithoutSweeps(init)
  }

  lemma {:induction false} AppendSorted(es: seq<Event>, last: Event)
    requires Sorted(es) && forall e :: e in es ==> e.at <= last.at
    ensures Sorted(es + [last])
  {
    forall i, j | 0 <= i < j < |es| + 1 ensures (es + [last])[i].at <= (es + [last])[j].at {
      assert es[i] in es;
    }
  }

  lemma {:induction false} WithoutSweepsKeepsTimes(es: seq<Event>, ip: Ip)
    requires Sorted(es)
    ensures TimesOf(WithoutSweeps(es), ip) == TimesOf(es, ip)
    ensures Sorted(WithoutSweeps(es))
    ensures forall e :: e in WithoutSweeps(es) ==> e in es
  {
    if es != [] {
      var init, last := es[..|es| - 1], es[|es| - 1];
      WithoutSweepsKeepsTimes(init, ip);
      if last.Request? {
        AppendSorted(WithoutSweeps(init), last);
        assert (WithoutSweeps(init) + [last])[..|WithoutSweeps(init)|] == WithoutSweeps(init);
      }
    }
  }

  lemma {:induction false} RestrictKeepsTimes(es: seq<Event>, ip: Ip)
    requires Sorted(es)
    ensures TimesOf(Restrict(es, ip), ip) == TimesOf(es, ip)
    ensures Sorted(Restrict(es, ip))
    ensures forall e :: e in Restrict(es, ip) ==> e in es
  {
    if es != [] {
      var init, last := es[..|es| - 1], es[|es| - 1];
      RestrictKeepsTimes(init, ip);
      if last.Request? && last.ip == ip {
        AppendSorted(Restrict(init, ip), last);
        assert (Restrict(init, ip) + [last])[..|Restrict(init, ip)|] == Restrict(init, ip);
      }
    }
  }

  /** Two histories with the same request times for an address give that address the same answers. */
  lemma SameTimesSameDecisions(cfg: Config, es: seq<Event>, fs: seq<Event>, ip: Ip)
    requires Sorted(es) && Sorted(fs)
    requires TimesOf(es, ip) == TimesOf(fs, ip)
    ensures Decisions(cfg, es, ip) == Decisions(cfg, fs, ip)
  {
    RefinesHistory(cfg, es, ip);
    RefinesHistory(cfg, fs, ip);
  }

  /** Sweeps at arbitrary points change no answer. */
  lemma SweeperInvisible(cfg: Config, es: seq<Event>, ip: Ip)
    requires Sorted(es)
    ensures Decisions(cfg, es, ip) == Decisions(cfg, WithoutSweeps(es), ip)
  {
    WithoutSweepsKeepsTimes(es, ip);
    SameTimesSameDecisions(cfg, es, WithoutSweeps(es), ip);
  }

  /** The answers to one address are those of the history in which it is alone. */
  lemma Isolation(cfg: Config, es: seq<Event>, ip: Ip)
    requires Sorted(es)
    ensures Decisions(cfg, es, ip) == Decisions(cfg, Restrict(es, ip), ip)
  {
    RestrictKeepsTimes(es, ip);
    SameTimesSameDecisions(cfg, es, Restrict(es, ip), ip);
  }

  // ---------- How many requests get through ----------

  /** How many windows open at a request after `lo` and up to `i`. */
  function Openings(w: int, ts: seq<int>, lo: nat, i: nat): nat
    requires lo <= i < |ts|
    decreases i
  {
    if i == lo then 0
    else Openings(w, ts, lo, i - 1) + if Opening(w, ts, i) == i then 1 else 0
  }

  /** Successive windows open more than one window length apart. */
  lemma {:induction false} OpeningsApart(w: int, ts: seq<int>, lo: nat, i: nat)
    requires w > 0 && lo <= i < |ts|
    ensures ts[Opening(w, ts, i)] >= ts[Opening(w, ts, lo)] + Openings(w, ts, lo, i) * (w + 1)
    ensures Openings(w, ts, lo, i) == 0 ==> Opening(w, ts, i) == Opening(w, ts, lo)
    ensures ts[i] <= ts[Opening(w, ts, i)] + w
    ensures Openings(w, ts, lo, i) > 0 ==> Opening(w, ts, i) > lo
    decreases i
  {
    if i > lo {
      OpeningsApart(w, ts, lo, i - 1);
      var k := Openings(w, ts, lo, i - 1);
      assert (k + 1) * (w + 1) == k * (w + 1) + (w + 1);
    }
    WithinWindow(w, ts, i);
  }

  lemma {:induction false} WithinWindow(w: int, ts: seq<int>, i: nat)
    requires w > 0 && i < |ts|
    ensures ts[i] <= ts[Opening(w, ts, i)] + w
    ensures Opening(w, ts, Opening(w, ts, i)) == Opening(w, ts, i)
  {
    if i > 0 {
      WithinWindow(w, ts, i - 1);
    }
  }

  function Min(x: int, y: int): int {
    if x < y then x else y
  }

  /** What `k` whole windows add to `first`. */
  function Whole(m: int, first: int, k: nat): int {
    if k == 0 then first else Whole(m, first, k - 1) + m
  }

  lemma {:induction false} WholeIs(m: int, first: int, k: nat)
    ensures Whole(m, first, k) == first + k * m
  {
    if k > 0 {
      WholeIs(m, first, k - 1);
      assert k * m == (k - 1) * m + m;
    }
  }

  /** What is let through among the requests lo..n-1: a share of the first window, then whole ones. */
  lemma {:induction false} CountByWindows(cfg: Config, ts: seq<int>, lo: nat, n: nat, a: int, b: int)
    requires cfg.Valid() && lo < n <= |ts|
    requires forall i :: 0 <= i < lo ==> ts[i] < a
    ensures var m := cfg.Quota();
            var o, k, p := Opening(cfg.window, ts, n - 1), Openings(cfg.window, ts, lo, n - 1), Opening(cfg.window, ts, lo);
            && (k == 0 ==> o == p && Count(cfg, ts, n, a, b) <= Min(m, n - p) - Min(m, lo - p))
            && (k > 0 ==> Count(cfg, ts, n, a, b) <= Whole(m, m - Min(m, lo - p), k - 1) + Min(m, n - o))
    decreases n
  {
    if n == lo + 1 {
      CountNothingBefore(cfg, ts, lo, a, b);
    } else {
      CountByWindows(cfg, ts, lo, n - 1, a, b);
    }
  }

  lemma {:induction false} CountNothingBefore(cfg: Config, ts: seq<int>, n: nat, a: int, b: int)
    requires n <= |ts|
    requires forall i :: 0 <= i < n ==> ts[i] < a
    ensures Count(cfg, ts, n, a, b) == 0
  {
    if n > 0 {
      CountNothingBefore(cfg, ts, n - 1, a, b);
    }
  }

  lemma {:induction false} CountNothingAfter(cfg: Config, ts: seq<int>, hi: nat, n: nat, a: int, b: int)
    requires hi <= n <= |ts|
    requires forall i :: hi <= i < n ==> ts[i] > b
    ensures Count(cfg, ts, n, a, b) == Count(cfg, ts, hi, a, b)
    decreases n
  {
    if hi < n {
      CountNothingAfter(cfg, ts, hi, n - 1, a, b);
    }
  }

  lemma NonNegativeProduct(x: nat, y: nat)
    ensures x * y >= 0
  {
  }

  lemma Multiply(x: int, x': int, y: int)
    requires y > 0
    ensures x <= x' ==> x * y <= x' * y
    ensures x > x' ==> x * y >= x' * y + y
  {
    if x <= x' {
      NonNegativeProduct(x' - x, y);
      assert (x' - x) * y == x' * y - x * y;
    } else {
      NonNegativeProduct(x - x' - 1, y);
      assert (x - x' - 1) * y == x * y - x' * y - y;
    }
  }

  lemma DivAtLeast(x: int, y: int, k: int)
    requires y > 0
    ensures k * y <= x <==> k <= x / y
  {
    var q := x / y;
    Multiply(k, q, y);
    assert x == q * y + x % y;
  }

  /**
   The most requests one address gets through in a closed interval of length `t`.  Windows open
   at least `window + 1` apart; the interval either starts with a whole window, or with one
   whose first request it misses.
   */
  function Ceiling(cfg: Config, t: nat): int
    requires cfg.Valid()
  {
    if t == 0 then cfg.Quota()
    else if t <= cfg.window then 2 * cfg.Quota() - 1
    else Ceiling(cfg, t - cfg.window - 1) + cfg.Quota()
  }

  lemma {:induction false} CeilingClosedForm(cfg: Config, q: nat, r: nat)
    requires cfg.Valid() && r <= cfg.window
    ensures q * (cfg.window + 1) >= 0
    ensures Ceiling(cfg, q * (cfg.window + 1) + r) == (q + if r == 0 then 1 else 2) * cfg.Quota() - if r == 0 then 0 else 1
  {
    if q > 0 {
      CeilingClosedForm(cfg, q - 1, r);
      assert q * (cfg.window + 1) == (q - 1) * (cfg.window + 1) + cfg.window + 1;
      assert (q - 1 + if r == 0 then 1 else 2) * cfg.Quota() + cfg.Quota() == (q + if r == 0 then 1 else 2) * cfg.Quota();
    }
  }

  /** `k` windows after a first one of which only part counts. */
  lemma {:induction false} SharesFit(cfg: Config, t: nat, k: nat, first: int, count: int)
    requires cfg.Valid() && count <= first + k * cfg.Quota()
    requires first <= cfg.Quota()
    requires k > 0 ==> (k - 1) * (cfg.window + 1) < t
    requires first == cfg.Quota() ==> k * (cfg.window + 1) <= t
    ensures count <= Ceiling(cfg, t)
    decreases t
  {
    var m, v := cfg.Quota(), cfg.window + 1;
    if k > 0 {
      assert k * m == (k - 1) * m + m;
      assert k * v == (k - 1) * v + v;
      if k > 1 {
        assert (k - 1) * v == (k - 2) * v + v;
        Multiply(0, k - 2, v);
      }
    }
    if t > cfg.window {
      if k > 0 {
        SharesFit(cfg, t - v, k - 1, first, count - m);
      } else {
        SharesFit(cfg, t - v, 0, if first == m then m - 1 else first, count - m);
      }
    }
  }

  lemma Span(w: int, k: int, d: int)
    ensures d >= k * (w + 1) - w ==> (k - 1) * (w + 1) < d
  {
    assert k * (w + 1) == (k - 1) * (w + 1) + w + 1;
  }

  /** Requests that span `k` further windows lie far apart. */
  lemma WindowsSpan(w: int, ts: seq<int>, lo: nat, i: nat)
    requires w > 0 && SortedTimes(ts) && lo <= i < |ts|
    ensures Openings(w, ts, lo, i) > 0 ==> (Openings(w, ts, lo, i) - 1) * (w + 1) < ts[i] - ts[lo]
    ensures Opening(w, ts, lo) == lo ==> Openings(w, ts, lo, i) * (w + 1) <= ts[i] - ts[lo]
  {
    OpeningsApart(w, ts, lo, i);
    WithinWindow(w, ts, lo);
    Span(w, Openings(w, ts, lo, i), ts[Opening(w, ts, i)] - ts[lo]);
    assert ts[Opening(w, ts, i)] <= ts[i];
  }

  lemma CountInShares(cfg: Config, ts: seq<int>, lo: nat, hi: nat, a: int, b: int)
    requires cfg.Valid() && lo < hi <= |ts|
    requires forall i :: 0 <= i < lo ==> ts[i] < a
    ensures var m, k := cfg.Quota(), Openings(cfg.window, ts, lo, hi - 1);
            Count(cfg, ts, hi, a, b) <= m - Min(m, lo - Opening(cfg.window, ts, lo)) + k * m
  {
    var m, k := cfg.Quota(), Openings(cfg.window, ts, lo, hi - 1);
    CountByWindows(cfg, ts, lo, hi, a, b);
    if k > 0 {
      WholeIs(m, m - Min(m, lo - Opening(cfg.window, ts, lo)), k - 1);
      assert k * m == (k - 1) * m + m;
    }
  }

  lemma CountBounded(cfg: Config, ts: seq<int>, lo: nat, hi: nat, a: int, t: nat)
    requires cfg.Valid() && SortedTimes(ts)
    requires lo < hi <= |ts|
    requires forall i :: 0 <= i < lo ==> ts[i] < a
    requires a <= ts[lo] && ts[hi - 1] <= a + t
    ensures Count(cfg, ts, hi, a, a + t) <= Ceiling(cfg, t)
  {
    var m, k := cfg.Quota(), Openings(cfg.window, ts, lo, hi - 1);
    CountInShares(cfg, ts, lo, hi, a, a + t);
    WindowsSpan(cfg.window, ts, lo, hi - 1);
    SharesFit(cfg, t, k, m - Min(m, lo - Opening(cfg.window, ts, lo)), Count(cfg, ts, hi, a, a + t));
  }

  function FirstFrom(ts: seq<int>, a: int): (n: nat)
    requires SortedTimes(ts)
    ensures n <= |ts|
    ensures forall i :: 0 <= i < n ==> ts[i] < a
    ensures forall i :: n <= i < |ts| ==> a <= ts[i]
  {
    if ts == [] || ts[|ts| - 1] < a then |ts| else FirstFrom(ts[..|ts| - 1], a)
  }

  lemma CountAtMost(cfg: Config, ts: seq<int>, a: int, t: nat)
    requires cfg.Valid() && SortedTimes(ts)
    ensures Count(cfg, ts, |ts|, a, a + t) <= Ceiling(cfg, t)
  {
    var lo := FirstFrom(ts, a);
    var hi := FirstFrom(ts, a + t + 1);
    CountNothingAfter(cfg, ts, hi, |ts|, a, a + t);
    if lo < hi {
      CountBounded(cfg, ts, lo, hi, a, t);
    } else {
      CountNothingBefore(cfg, ts, hi, a, a + t);
      CeilingPositive(cfg, t);
    }
  }

  /** In every history, every closed interval of length `t` sees at most `Ceiling` requests let through. */
  lemma AdmittedBound(cfg: Config, es: seq<Event>, ip: Ip, a: int, t: nat)
    requires cfg.Valid() && Sorted(es)
    ensures AdmittedIn(cfg, es, ip, a, a + t) <= Ceiling(cfg, t)
  {
    AdmittedIsCount(cfg, es, ip, a, a + t);
    TimesSorted(es, ip);
    CountAtMost(cfg, TimesOf(es, ip), a, t);
  }

  function CeilDiv(x: int, y: int): int
    requires y > 0
  {
    (x + y - 1) / y
  }

  lemma {:induction false} CeilingPositive(cfg: Config, t: nat)
    requires cfg.Valid()
    ensures Ceiling(cfg, t) > 0
  {
    if t > cfg.window {
      CeilingPositive(cfg, t - cfg.window - 1);
    }
  }

  lemma OneWindowLess(x: int, w: int)
    requires w > 0 && x > w
    ensures CeilDiv(x - w - 1, w) <= CeilDiv(x, w) - 1
  {
    var q := CeilDiv(x - w - 1, w);
    DivAtLeast(x - w - 1 + w - 1, w, q);
    assert (q + 1) * w == q * w + w;
    DivAtLeast(x + w - 1, w, q + 1);
  }

  /** The bound in whole windows: one more than the interval covers, each with its quota. */
  lemma {:induction false} CeilingInWindows(cfg: Config, t: nat)
    requires cfg.Valid()
    ensures Ceiling(cfg, t) <= (CeilDiv(t, cfg.window) + 1) * cfg.Quota()
  {
    var w, m, c := cfg.window, cfg.Quota(), CeilDiv(t, cfg.window);
    if t <= w {
      DivAtLeast(t + w - 1, w, if t == 0 then 0 else 1);
      Multiply(if t == 0 then 1 else 2, c + 1, m);
    } else {
      CeilingInWindows(cfg, t - w - 1);
      OneWindowLess(t, w);
      Multiply(CeilDiv(t - w - 1, w) + 1, c, m);
      assert (c + 1) * m == c * m + m;
    }
  }

  // ---------- The bound is exact ----------

  /**
   Request `i` of a client that fills every window: windows open `window + 1` apart, and the
   first one gets its other requests at `late`.
   */
  function BurstTime(cfg: Config, late: int, i: nat): int {
    if 0 < i < cfg.Quota() then late else i / cfg.Quota() * (cfg.window + 1)
  }

  lemma Remainder(x: int, y: int)
    requires 0 <= x < y
    ensures x / y == 0 && x % y == x
  {
  }

  function BurstTimes(cfg: Config, late: int, n: nat): (ts: seq<int>)
    ensures |ts| == n && forall i :: 0 <= i < n ==> ts[i] == BurstTime(cfg, late, i)
  {
    if n == 0 then [] else BurstTimes(cfg, late, n - 1) + [BurstTime(cfg, late, n - 1)]
  }

  function Burst(cfg: Config, late: int, ip: Ip, n: nat): (es: seq<Event>)
    ensures |es| == n && forall i :: 0 <= i < n ==> es[i] == Request(ip, BurstTime(cfg, late, i))
  {
    if n == 0 then [] else Burst(cfg, late, ip, n - 1) + [Request(ip, BurstTime(cfg, late, n - 1))]
  }

  lemma BurstOrdered(cfg: Config, late: int, i: nat, j: nat)
    requires cfg.Valid() && 0 <= late <= cfg.window && i <= j
    ensures BurstTime(cfg, late, i) <= BurstTime(cfg, late, j)
  {
    var m, v := cfg.Quota(), cfg.window + 1;
    DivAtLeast(i, m, i / m);
    DivAtLeast(j, m, i / m);
    DivAtLeast(i, m, 0);
    DivAtLeast(j, m, 1);
    Multiply(i / m, j / m, v);
    Multiply(0, i / m, v);
    Multiply(1, j / m, v);
    if i < m {
      Remainder(i, m);
    }
  }

  lemma {:induction false} BurstIsHistory(cfg: Config, late: int, ip: Ip, n: nat)
    requires cfg.Valid() && 0 <= late <= cfg.window
    ensures Sorted(Burst(cfg, late, ip, n))
    ensures TimesOf(Burst(cfg, late, ip, n), ip) == BurstTimes(cfg, late, n)
  {
    if n > 0 {
      BurstIsHistory(cfg, late, ip, n - 1);
      assert Burst(cfg, late, ip, n)[..n - 1] == Burst(cfg, late, ip, n - 1);
      forall i, j | 0 <= i < j < n ensures BurstTime(cfg, late, i) <= BurstTime(cfg, late, j) {
        BurstOrdered(cfg, late, i, j);
      }
    }
  }

  lemma NextBurst(i: nat, m: int)
    requires m > 0 && i > 0
    ensures (i - 1) / m * m <= i - 1 < (i - 1) / m * m + m
    ensures i / m == (i - 1) / m + if i == (i - 1) / m * m + m then 1 else 0
    ensures (i - 1) / m * m / m == (i - 1) / m
  {
    var q := (i - 1) / m;
    assert i - 1 == q * m + (i - 1) % m;
    assert (q + 1) * m == q * m + m && (q + 2) * m == q * m + 2 * m;
    DivAtLeast(i, m, q);
    DivAtLeast(i, m, q + 1);
    DivAtLeast(i, m, q + 2);
    DivAtLeast(q * m, m, q);
    DivAtLeast(q * m, m, q + 1);
  }

  /** The request after a whole window of the burst opens a new window; the others do not. */
  lemma BurstStep(cfg: Config, late: int, i: nat)
    requires cfg.Valid() && 0 <= late <= cfg.window && i > 0
    ensures var m := cfg.Quota();
            var p := (i - 1) / m * m;
            && p >= 0
            && i / m * m == (if i == p + m then i else p)
            && (BurstTime(cfg, late, i) > BurstTime(cfg, late, p) + cfg.window <==> i == p + m)
  {
    var m, v, q := cfg.Quota(), cfg.window + 1, (i - 1) / cfg.Quota();
    NextBurst(i, m);
    DivAtLeast(i - 1, m, 0);
    Multiply(0, q, m);
    Multiply(1, q, m);
    assert (q + 1) * v == q * v + v && (q + 1) * m == q * m + m;
  }

  lemma {:induction false} BurstOpening(cfg: Config, late: int, n: nat, i: nat)
    requires cfg.Valid() && 0 <= late <= cfg.window && i < n
    ensures Opening(cfg.window, BurstTimes(cfg, late, n), i) == i / cfg.Quota() * cfg.Quota()
  {
    if i > 0 {
      BurstOpening(cfg, late, n, i - 1);
      BurstStep(cfg, late, i);
    } else {
      Remainder(0, cfg.Quota());
    }
  }

  lemma {:induction false} BurstCount(cfg: Config, late: int, n: nat, i: nat, a: int, b: int)
    requires cfg.Valid() && 0 <= late <= cfg.window && i <= n
    requires forall j :: 0 < j < n ==> a <= BurstTime(cfg, late, j) <= b
    ensures Count(cfg, BurstTimes(cfg, late, n), i, a, b) == i - if i > 0 && !(a <= 0 <= b) then 1 else 0
  {
    if i > 0 {
      BurstCount(cfg, late, n, i - 1, a, b);
      BurstOpening(cfg, late, n, i - 1);
      NextBurst(i, cfg.Quota());
      if i == 1 {
        Remainder(0, cfg.Quota());
      }
    }
  }

  /** `k` whole windows of the burst end by the time the last one opens. */
  lemma BurstWithin(cfg: Config, late: int, k: nat, j: nat)
    requires cfg.Valid() && 0 <= late <= cfg.window && k > 0
    requires 0 < j < k * cfg.Quota()
    ensures late <= BurstTime(cfg, late, j)
    ensures BurstTime(cfg, late, j) <= late || BurstTime(cfg, late, j) <= (k - 1) * (cfg.window + 1)
  {
    var m, v := cfg.Quota(), cfg.window + 1;
    DivAtLeast(j, m, 1);
    DivAtLeast(j, m, k);
    Multiply(1, j / m, v);
    Multiply(j / m, k - 1, v);
  }

  /** `k` windows of the burst, seen from `late` on: all its requests but an early first one. */
  lemma BurstFills(cfg: Config, late: int, ip: Ip, k: nat, b: int) returns (es: seq<Event>)
    requires cfg.Valid() && 0 <= late <= cfg.window && k > 0
    requires late <= b && (k - 1) * (cfg.window + 1) <= b
    ensures Sorted(es)
    ensures AdmittedIn(cfg, es, ip, late, b) == k * cfg.Quota() - if late == 0 then 0 else 1
  {
    Multiply(1, k, cfg.Quota());
    var n := k * cfg.Quota();
    es := Burst(cfg, late, ip, n);
    BurstIsHistory(cfg, late, ip, n);
    AdmittedIsCount(cfg, es, ip, late, b);
    forall j | 0 < j < n ensures late <= BurstTime(cfg, late, j) <= b {
      BurstWithin(cfg, late, k, j);
    }
    BurstCount(cfg, late, n, n, late, b);
  }

  lemma Quotient(t: nat, v: int) returns (q: nat, r: nat)
    requires v > 0
    ensures t == q * v + r && r < v
  {
    q, r := t / v, t % v;
  }

  /** For every interval length some history reaches the ceiling. */
  lemma BoundIsExact(cfg: Config, ip: Ip, t: nat) returns (es: seq<Event>, a: int)
    requires cfg.Valid()
    ensures Sorted(es)
    ensures AdmittedIn(cfg, es, ip, a, a + t) == Ceiling(cfg, t)
  {
    var q, r := Quotient(t, cfg.window + 1);
    CeilingClosedForm(cfg, q, r);
    if r == 0 {
      a := 0;
      es := BurstFills(cfg, 0, ip, q + 1, t);
    } else {
      a := cfg.window;
      assert (q + 1) * (cfg.window + 1) == q * (cfg.window + 1) + cfg.window + 1;
      es := BurstFills(cfg, a, ip, q + 2, a + t);
    }
  }

  /**
   What the limiter's own comment claims: a sliding window, that is, never more than `limit`
   requests let through in any closed interval of one window length.
   */
  ghost predicate SlidingWindow(cfg: Config) {
    forall es, ip, a, b :: Sorted(es) && b == a + cfg.window ==> AdmittedIn(cfg, es, ip, a, b) <= cfg.limit
  }

  /** The claim holds for exactly one configured limit. */
  lemma SlidingWindowIff(cfg: Config)
    requires cfg.Valid()
    ensures SlidingWindow(cfg) <==> cfg.limit == 1
  {
    if cfg.limit == 1 {
      forall es, ip, a, b | Sorted(es) && b == a + cfg.window ensures AdmittedIn(cfg, es, ip, a, b) <= cfg.limit {
        AdmittedBound(cfg, es, ip, a, cfg.window);
      }
    } else {
      var es, a := BoundIsExact(cfg, "203.0.113.7", cfg.window);
      assert AdmittedIn(cfg, es, "203.0.113.7", a, a + cfg.window) > cfg.limit;
    }
  }

  // ---------- No false refusal ----------

  lemma {:induction false} SeenAtLeast(ts: seq<int>, o: nat, n: nat, a: int, b: int)
    requires o <= n <= |ts|
    requires forall j :: o <= j < n ==> a <= ts[j] <= b
    ensures Seen(ts, n, a, b) >= n - o
    decreases n
  {
    if o < n {
      SeenAtLeast(ts, o, n - 1, a, b);
    }
  }

  lemma {:induction false} SeenMore(ts: seq<int>, m: nat, n: nat, a: int, b: int)
    requires m <= n <= |ts|
    ensures Seen(ts, m, a, b) <= Seen(ts, n, a, b)
    decreases n
  {
    if m < n {
      SeenMore(ts, m, n - 1, a, b);
    }
  }

  /**
   When request `i` of an address is refused, more than `limit` of its requests, that one
   included, lie within one window length from the request that opened the window.
   */
  lemma RefusalJustified(cfg: Config, es: seq<Event>, ip: Ip, i: nat)
    requires cfg.Valid() && Sorted(es)
    requires i < |Decisions(cfg, es, ip)| && !Decisions(cfg, es, ip)[i]
    ensures |TimesOf(es, ip)| == |Decisions(cfg, es, ip)|
    ensures var ts := TimesOf(es, ip);
            var start := ts[Opening(cfg.window, ts, i)];
            start <= ts[i] <= start + cfg.window && Seen(ts, i + 1, start, start + cfg.window) > cfg.limit
  {
    RefinesHistory(cfg, es, ip);
    TimesSorted(es, ip);
    RefusedWindow(cfg, TimesOf(es, ip), i);
  }

  lemma RefusedWindow(cfg: Config, ts: seq<int>, i: nat)
    requires cfg.Valid() && SortedTimes(ts) && i < |ts| && !Admits(cfg, ts, i)
    ensures var start := ts[Opening(cfg.window, ts, i)];
            start <= ts[i] <= start + cfg.window && Seen(ts, i + 1, start, start + cfg.window) > cfg.limit
  {
    var o := Opening(cfg.window, ts, i);
    WithinWindow(cfg.window, ts, i);
    SeenAtLeast(ts, o, i + 1, ts[o], ts[o] + cfg.window);
  }

  /** The client's requests never exceed the limit in any closed interval of one window length. */
  ghost predicate Compliant(cfg: Config, ts: seq<int>) {
    forall a, b :: b == a + cfg.window ==> Seen(ts, |ts|, a, b) <= cfg.limit
  }

  /** A compliant client is never refused, whatever the other clients and the sweeper do. */
  lemma CompliantNeverRefused(cfg: Config, es: seq<Event>, ip: Ip)
    requires cfg.Valid() && Sorted(es) && Compliant(cfg, TimesOf(es, ip))
    ensures forall i :: 0 <= i < |Decisions(cfg, es, ip)| ==> Decisions(cfg, es, ip)[i]
  {
    RefinesHistory(cfg, es, ip);
    TimesSorted(es, ip);
    var ts := TimesOf(es, ip);
    forall i | 0 <= i < |ts| ensures Admits(cfg, ts, i) {
      var start := ts[Opening(cfg.window, ts, i)];
      SeenMore(ts, i + 1, |ts|, start, start + cfg.window);
      if !Admits(cfg, ts, i) {
        RefusedWindow(cfg, ts, i);
        assert false;
      }
    }
  }

  // ---------- Memory ----------

  lemma SortedPrefix(es: seq<Event>, n: nat)
    requires n <= |es| && Sorted(es)
    ensures Sorted(es[..n])
  {
  }

  /** Right after a sweep the table holds exactly the addresses whose window has not ended. */
  lemma SweptTable(cfg: Config, es: seq<Event>, ip: Ip)
    requires es != [] && es[|es| - 1].Sweep? && Sorted(es)
    ensures var ts := TimesOf(es, ip);
            ip in Run(cfg, es) <==>
              ts != [] && ts[Opening(cfg.window, ts, |ts| - 1)] >= es[|es| - 1].at - cfg.window
  {
    SortedPrefix(es, |es| - 1);
    RunCoupled(cfg, es[..|es| - 1], ip, es[|es| - 1].at);
  }

  /** The addresses with a request at or after `from`. */
  function SeenSince(es: seq<Event>, from: int): set<Ip> {
    set k | 0 <= k < |es| && es[k].Request? && es[k].at >= from :: es[k].ip
  }

  lemma {:induction false} HeldSince(cfg: Config, es: seq<Event>, k: nat, ip: Ip)
    requires k < |es| && es[k].Sweep? && Sorted(es) && cfg.Valid()
    requires ip in Run(cfg, es)
    ensures ip in SeenSince(es, es[k].at - cfg.window)
  {
    var init, last := es[..|es| - 1], es[|es| - 1];
    SortedPrefix(es, |es| - 1);
    if last.Request? && last.ip == ip {
      assert es[k].at <= last.at;
    } else if k < |es| - 1 {
      HeldSince(cfg, init, k, ip);
    } else {
      SweptTable(cfg, es, ip);
      var ts := TimesOf(es, ip);
      var j := TimesFromRequests(es, ip, Opening(cfg.window, ts, |ts| - 1));
    }
  }

  /** With the last sweep at most one window ago, the table holds only addresses seen in the last two. */
  lemma MemoryBounded(cfg: Config, es: seq<Event>, k: nat, now: int)
    requires k < |es| && es[k].Sweep? && Sorted(es) && cfg.Valid()
    requires now <= es[k].at + cfg.window
    ensures Run(cfg, es).Keys <= SeenSince(es, now - 2 * cfg.window)
    ensures |Run(cfg, es)| <= |SeenSince(es, now - 2 * cfg.window)|
  {
    var all := SeenSince(es, now - 2 * cfg.window);
    forall ip | ip in Run(cfg, es) ensures ip in all {
      HeldSince(cfg, es, k, ip);
    }
    SubsetSize(Run(cfg, es).Keys, all);
  }

  lemma SubsetSize<T>(a: set<T>, b: set<T>)
    requires a <= b
    ensures |a| <= |b|
  {
    assert b == a + (b - a);
  }
}
