/**
 The fixed-window per-key limiter with bounded memory, and what it admits over whole runs
 of calls with a clock that never goes back.
 */
module RateLimiter {
  import opened Basics

  type Time = int

  datatype Config = Config(window: nat, limit: int, maxKeys: int)

  datatype Bucket = Bucket(count: int, reset: Time)

  type Buckets = map<string, Bucket>

  function Evict(b: Buckets, now: Time): Buckets {
    map k | k in b && now <= b[k].reset :: b[k]
  }

  /** The buckets among which the key's own is then looked up; the key is missing when memory is full. */
  function Admitted(c: Config, b: Buckets, key: string, now: Time): Buckets {
    if key in b then b
    else
      var kept := Evict(b, now);
      if |kept| >= c.maxKeys then kept else kept[key := Bucket(0, now + c.window)]
  }

  function Rolled(c: Config, b: Bucket, now: Time): Bucket {
    if now > b.reset then Bucket(0, now + c.window) else b
  }

  function Allow(c: Config, b: Buckets, key: string, now: Time): (Buckets, bool) {
    var b1 := Admitted(c, b, key, now);
    if key !in b1 then (b1, false)
    else
      var r := Rolled(c, b1[key], now);
      if r.count >= c.limit then (b1[key := r], false) else (b1[key := r.(count := r.count + 1)], true)
  }

  class Limiter {
    const config: Config
    var buckets: Buckets

    constructor (c: Config)
      ensures config == c && buckets == map[]
    {
      config, buckets := c, map[];
    }

    /** Drops every bucket whose window has passed. */
    method Sweep(now: Time)
      modifies this
      ensures buckets == Evict(old(buckets), now)
      ensures forall k :: k in buckets <==> k in old(buckets) && now <= old(buckets)[k].reset
      ensures forall k :: k in buckets ==> buckets[k] == old(buckets)[k]
    {
      var todo := buckets.Keys;
      while todo != {}
        invariant todo <= old(buckets).Keys
        invariant forall k :: k in buckets <==> k in old(buckets) && (k in todo || now <= old(buckets)[k].reset)
        invariant forall k :: k in buckets ==> buckets[k] == old(buckets)[k]
        decreases |todo|
      {
        var k := Next(todo);
        todo := todo - {k};
        if now > buckets[k].reset {
          buckets := buckets - {k};
        }
      }
      assert buckets == Evict(old(buckets), now);
    }

    method Call(key: string, now: Time) returns (ok: bool)
      modifies this
      ensures (buckets, ok) == Allow(config, old(buckets), key, now)
      // a bucket in its window counts up to the limit, and one whose window has passed starts again
      ensures key in old(buckets) && now <= old(buckets)[key].reset ==>
                (ok <==> old(buckets)[key].count < config.limit)
                && buckets == old(buckets)[key := Bucket(old(buckets)[key].count + (if ok then 1 else 0), old(buckets)[key].reset)]
      ensures key in old(buckets) && now > old(buckets)[key].reset ==>
                (ok <==> 0 < config.limit) && buckets == old(buckets)[key := Bucket(if ok then 1 else 0, now + config.window)]
      // a new key takes the room of the buckets whose window has passed, or is refused for want of room
      ensures key !in old(buckets) ==>
                var kept := map k | k in old(buckets) && now <= old(buckets)[k].reset :: old(buckets)[k];
                (ok <==> |kept| < config.maxKeys && 0 < config.limit)
                && buckets == if |kept| < config.maxKeys then kept[key := Bucket(if ok then 1 else 0, now + config.window)] else kept
    {
      if key !in buckets {
        Sweep(now);
        if |buckets| >= config.maxKeys {
          return false;
        }
        buckets := buckets[key := Bucket(0, now + config.window)];
      }
      ghost var b1 := buckets;
      if now > buckets[key].reset {
        buckets := buckets[key := Bucket(0, now + config.window)];
      }
      ghost var r := Rolled(config, b1[key], now);
      assert buckets == b1[key := r];
      if buckets[key].count >= config.limit {
        return false;
      }
      buckets := buckets[key := buckets[key].(count := buckets[key].count + 1)];
      assert buckets == b1[key := r.(count := r.count + 1)];
      return true;
    }
  }

  // ---------------------------------------------------------------------------
  // Runs

  datatype Request = Request(key: string, time: Time)

  predicate Forward(run: seq<Request>) {
    forall i, j :: 0 <= i <= j < |run| ==> run[i].time <= run[j].time
  }

  function At(c: Config, run: seq<Request>, n: nat): Buckets
    requires n <= |run|
  {
    if n == 0 then map[] else Allow(c, At(c, run, n - 1), run[n - 1].key, run[n - 1].time).0
  }

  predicate Admits(c: Config, run: seq<Request>, i: nat, k: string) {
    i < |run| && run[i].key == k && Allow(c, At(c, run, i), k, run[i].time).1
  }

  /** The map never holds more than the configured number of keys. */
  lemma {:induction false} MemoryBounded(c: Config, run: seq<Request>, n: nat)
    requires n <= |run| && c.maxKeys >= 0
    ensures |At(c, run, n)| <= c.maxKeys
  {
    if n > 0 {
      MemoryBounded(c, run, n - 1);
      var b, key := At(c, run, n - 1), run[n - 1].key;
      var kept := Evict(b, run[n - 1].time);
      SubsetSize(kept.Keys, b.Keys);
      assert |kept| == |kept.Keys| && |b| == |b.Keys|;
      if key in b {
        assert At(c, run, n).Keys == b.Keys;
      } else if |kept| < c.maxKeys {
        assert At(c, run, n).Keys == kept.Keys + {key};
      }
    }
  }

  // ---------------------------------------------------------------------------
  // Counting

  function Count(n: nat, p: nat -> bool): nat {
    if n == 0 then 0 else Count(n - 1, p) + if p(n - 1) then 1 else 0
  }

  lemma {:induction false} CountUnion(n: nat, p: nat -> bool, q: nat -> bool, r: nat -> bool)
    requires forall i: nat :: i < n && p(i) ==> q(i) || r(i)
    ensures Count(n, p) <= Count(n, q) + Count(n, r)
  {
    if n > 0 {
      CountUnion(n - 1, p, q, r);
    }
  }

  lemma {:induction false} CountMore(n: nat, p: nat -> bool, q: nat -> bool, extra: nat)
    requires forall i: nat :: i < n && p(i) ==> q(i)
    requires extra < n && q(extra) && !p(extra)
    ensures Count(n, p) + 1 <= Count(n, q)
  {
    if n - 1 > extra {
      CountMore(n - 1, p, q, extra);
    } else {
      CountUnion(n - 1, p, q, _ => false);
      CountNone(n - 1, _ => false);
    }
  }

  lemma {:induction false} CountNone(n: nat, p: nat -> bool)
    requires forall i: nat :: i < n ==> !p(i)
    ensures Count(n, p) == 0
  {
    if n > 0 {
      CountNone(n - 1, p);
    }
  }

  // ---------------------------------------------------------------------------
  // One key's share of a run

  /** A call as one key sees it: its time, whether it admitted the key, and the end of the lifetime it fell into. */
  datatype Mark = Mark(time: Time, admitted: bool, reset: Time)

  function Live(b: Buckets, k: string): Option<Bucket> {
    if k in b then Some(b[k]) else None
  }

  /** What one call, of this key or another, does to the key's bucket. */
  predicate Moves(c: Config, live: Option<Bucket>, m: Mark, live': Option<Bucket>) {
    || Idle(live, m, live')
    || Continues(c, live, m, live')
    || Starts(c, live, m, live')
  }

  /** The bucket is left alone, or dropped because its lifetime is over. */
  predicate Idle(live: Option<Bucket>, m: Mark, live': Option<Bucket>) {
    !m.admitted && (live' == live || (live'.None? && live.Some? && live.value.reset < m.time))
  }

  predicate Continues(c: Config, live: Option<Bucket>, m: Mark, live': Option<Bucket>) {
    && live.Some? && m.time <= live.value.reset && m.reset == live.value.reset
    && m.admitted == (live.value.count < c.limit)
    && live' == Some(live.value.(count := live.value.count + if m.admitted then 1 else 0))
  }

  predicate Starts(c: Config, live: Option<Bucket>, m: Mark, live': Option<Bucket>) {
    && (live.Some? ==> live.value.reset < m.time) && m.reset == m.time + c.window
    && m.admitted == (c.limit >= 1)
    && live' == Some(Bucket(if m.admitted then 1 else 0, m.reset))
  }

  function MarkOf(c: Config, run: seq<Request>, i: nat, k: string): Mark
    requires i < |run|
  {
    Mark(run[i].time, Admits(c, run, i, k), if k in At(c, run, i + 1) then At(c, run, i + 1)[k].reset else 0)
  }

  lemma KeyMoves(c: Config, run: seq<Request>, i: nat, k: string)
    requires i < |run|
    ensures Moves(c, Live(At(c, run, i), k), MarkOf(c, run, i, k), Live(At(c, run, i + 1), k)) == true
  {
    var b, b' := At(c, run, i), At(c, run, i + 1);
    var m := MarkOf(c, run, i, k);
    if run[i].key == k && k in b' {
      if k in b && run[i].time <= b[k].reset {
        assert Continues(c, Live(b, k), m, Live(b', k));
      } else {
        assert Starts(c, Live(b, k), m, Live(b', k));
      }
    } else {
      assert Idle(Live(b, k), m, Live(b', k));
    }
  }

  /** The bucket of one key before, between and after the calls of a run, and the marks of those calls. */
  ghost predicate Track(c: Config, lives: seq<Option<Bucket>>, ms: seq<Mark>) {
    && |lives| == |ms| + 1 && lives[0] == None
    && (forall n :: 0 <= n < |ms| ==> Moves(c, lives[n], ms[n], lives[n + 1]))
    && (forall i, j :: 0 <= i <= j < |ms| ==> ms[i].time <= ms[j].time)
  }

  function Marks(c: Config, run: seq<Request>, k: string): seq<Mark> {
    seq(|run|, i requires 0 <= i < |run| => MarkOf(c, run, i, k))
  }

  function Lives(c: Config, run: seq<Request>, k: string): seq<Option<Bucket>> {
    seq(|run| + 1, i requires 0 <= i <= |run| => Live(At(c, run, i), k))
  }

  lemma TrackIntro(c: Config, lives: seq<Option<Bucket>>, ms: seq<Mark>)
    requires |lives| == |ms| + 1 && lives[0] == None
    requires forall n :: 0 <= n < |ms| ==> Moves(c, lives[n], ms[n], lives[n + 1]) == true
    requires forall i, j :: 0 <= i <= j < |ms| ==> ms[i].time <= ms[j].time
    ensures Track(c, lives, ms) == true
  {
  }

  lemma LineMoves(c: Config, run: seq<Request>, i: nat, k: string, live: Option<Bucket>, m: Mark, live': Option<Bucket>)
    requires i < |run|
    requires live == Live(At(c, run, i), k) && m == MarkOf(c, run, i, k) && live' == Live(At(c, run, i + 1), k)
    ensures Moves(c, live, m, live') == true
  {
    KeyMoves(c, run, i, k);
  }

  lemma RunMoves(c: Config, run: seq<Request>, k: string, n: nat)
    requires n < |run|
    ensures Moves(c, Lives(c, run, k)[n], Marks(c, run, k)[n], Lives(c, run, k)[n + 1]) == true
  {
    LineMoves(c, run, n, k, Lives(c, run, k)[n], Marks(c, run, k)[n], Lives(c, run, k)[n + 1]);
  }

  lemma RunTracks(c: Config, run: seq<Request>, k: string)
    requires Forward(run)
    ensures Track(c, Lives(c, run, k), Marks(c, run, k)) == true
  {
    forall n: nat | n < |run|
      ensures Moves(c, Lives(c, run, k)[n], Marks(c, run, k)[n], Lives(c, run, k)[n + 1]) == true
    {
      RunMoves(c, run, k, n);
    }
    TrackIntro(c, Lives(c, run, k), Marks(c, run, k));
  }

  // ---------------------------------------------------------------------------
  // Bucket lifetimes

  /** The end of the key's latest lifetime, even if its bucket is gone. */
  function LastReset(lives: seq<Option<Bucket>>, n: nat): Option<Time>
    requires n < |lives|
  {
    if lives[n].Some? then Some(lives[n].value.reset) else if n == 0 then None else LastReset(lives, n - 1)
  }

  /** A lifetime whose bucket is gone ended before the latest call. */
  lemma {:induction false} GoneMeansPast(c: Config, lives: seq<Option<Bucket>>, ms: seq<Mark>, n: nat)
    requires Track(c, lives, ms) && 0 < n <= |ms| && lives[n].None? && LastReset(lives, n).Some?
    ensures LastReset(lives, n).value < ms[n - 1].time
  {
    assert Moves(c, lives[n - 1], ms[n - 1], lives[n]);
    if lives[n - 1].None? && n > 1 {
      GoneMeansPast(c, lives, ms, n - 1);
    }
  }

  /** A call continues the latest lifetime or, when that is over, starts one. */
  lemma LifetimeStep(c: Config, lives: seq<Option<Bucket>>, ms: seq<Mark>, n: nat)
    requires Track(c, lives, ms) && n < |ms|
    ensures var r, r' := LastReset(lives, n), LastReset(lives, n + 1);
            r' == r || (r' == Some(ms[n].time + c.window) && (r.Some? ==> r.value < ms[n].time) && lives[n + 1].Some?
                        && ms[n].reset == r'.value && ms[n].admitted == (c.limit >= 1))
    ensures ms[n].admitted ==> LastReset(lives, n + 1) == Some(ms[n].reset) && ms[n].time <= ms[n].reset
  {
    assert Moves(c, lives[n], ms[n], lives[n + 1]);
    if lives[n].None? && LastReset(lives, n).Some? && n > 0 {
      GoneMeansPast(c, lives, ms, n);
    }
  }

  /** Every lifetime that admitted a call is the latest one, or ended more than a window before its end. */
  lemma {:induction false} LifetimesApart(c: Config, lives: seq<Option<Bucket>>, ms: seq<Mark>, n: nat, i: nat)
    requires Track(c, lives, ms) && i < n <= |ms| && ms[i].admitted
    ensures LastReset(lives, n).Some?
    ensures ms[i].reset == LastReset(lives, n).value || ms[i].reset < LastReset(lives, n).value - c.window
    decreases n
  {
    LifetimeStep(c, lives, ms, n - 1);
    if i < n - 1 {
      LifetimesApart(c, lives, ms, n - 1, i);
    }
  }

  /** The call that starts a lifetime is admitted, one window before the lifetime ends. */
  lemma {:induction false} LifetimeStart(c: Config, lives: seq<Option<Bucket>>, ms: seq<Mark>, n: nat) returns (i: nat)
    requires Track(c, lives, ms) && n <= |ms| && c.limit >= 1 && LastReset(lives, n).Some?
    ensures i < n && ms[i].admitted && ms[i].reset == LastReset(lives, n).value == ms[i].time + c.window
  {
    LifetimeStep(c, lives, ms, n - 1);
    if LastReset(lives, n) == LastReset(lives, n - 1) {
      i := LifetimeStart(c, lives, ms, n - 1);
    } else {
      i := n - 1;
    }
  }

  /** A lifetime ends at most one window after the latest call. */
  lemma {:induction false} ResetBound(c: Config, lives: seq<Option<Bucket>>, ms: seq<Mark>, n: nat)
    requires Track(c, lives, ms) && 0 < n <= |ms| && LastReset(lives, n).Some?
    ensures LastReset(lives, n).value <= ms[n - 1].time + c.window
  {
    LifetimeStep(c, lives, ms, n - 1);
    if LastReset(lives, n) == LastReset(lives, n - 1) && n > 1 {
      ResetBound(c, lives, ms, n - 1);
    }
  }

  function InLife(ms: seq<Mark>, r: Time): nat -> bool {
    (i: nat) => i < |ms| && ms[i].admitted && ms[i].reset == r
  }

  /** A lifetime that starts now has admitted nothing before. */
  lemma NewLifetimeEmpty(c: Config, lives: seq<Option<Bucket>>, ms: seq<Mark>, n: nat, r: Time)
    requires Track(c, lives, ms) && n <= |ms|
    requires LastReset(lives, n).Some? ==> LastReset(lives, n).value < r
    ensures Count(n, InLife(ms, r)) == 0
  {
    forall i: nat | i < n ensures !InLife(ms, r)(i) {
      if ms[i].admitted {
        LifetimesApart(c, lives, ms, n, i);
      }
    }
    CountNone(n, InLife(ms, r));
  }

  /** A bucket's counter is the number of calls its lifetime has admitted, and never exceeds the limit. */
  lemma {:induction false} CounterExact(c: Config, lives: seq<Option<Bucket>>, ms: seq<Mark>, n: nat)
    requires Track(c, lives, ms) && n <= |ms| && c.limit >= 0 && lives[n].Some?
    ensures lives[n].value.count == Count(n, InLife(ms, lives[n].value.reset)) <= c.limit
  {
    assert Moves(c, lives[n - 1], ms[n - 1], lives[n]);
    if Starts(c, lives[n - 1], ms[n - 1], lives[n]) {
      LifetimeStep(c, lives, ms, n - 1);
      if lives[n - 1].None? && LastReset(lives, n - 1).Some? {
        GoneMeansPast(c, lives, ms, n - 1);
      }
      NewLifetimeEmpty(c, lives, ms, n - 1, lives[n].value.reset);
    } else {
      CounterExact(c, lives, ms, n - 1);
    }
  }

  lemma {:induction false} LifetimeBound(c: Config, lives: seq<Option<Bucket>>, ms: seq<Mark>, n: nat, r: Time)
    requires Track(c, lives, ms) && n <= |ms| && c.limit >= 0
    ensures Count(n, InLife(ms, r)) <= c.limit
  {
    if n > 0 {
      LifetimeBound(c, lives, ms, n - 1, r);
      if InLife(ms, r)(n - 1) {
        assert Moves(c, lives[n - 1], ms[n - 1], lives[n]);
        CounterExact(c, lives, ms, n);
      }
    }
  }

  /** A call of the key itself that keeps or gets a bucket. */
  predicate Touches(c: Config, live: Option<Bucket>, m: Mark, live': Option<Bucket>) {
    Continues(c, live, m, live') || Starts(c, live, m, live')
  }

  /** Within a lifetime exactly the first `limit` calls of the key are admitted. */
  lemma FirstCallsAdmitted(c: Config, lives: seq<Option<Bucket>>, ms: seq<Mark>, n: nat)
    requires Track(c, lives, ms) == true && |lives| == |ms| + 1 && n < |ms| && c.limit >= 1
    requires Touches(c, lives[n], ms[n], lives[n + 1]) == true
    ensures ms[n].admitted <==> Count(n, InLife(ms, ms[n].reset)) < c.limit
  {
    if Continues(c, lives[n], ms[n], lives[n + 1]) {
      CounterExact(c, lives, ms, n);
    } else {
      CounterExact(c, lives, ms, n + 1);
    }
  }

  // ---------------------------------------------------------------------------
  // What a window admits

  function InWindow(c: Config, ms: seq<Mark>, a: Time): nat -> bool {
    (i: nat) => i < |ms| && ms[i].admitted && a <= ms[i].time <= a + c.window
  }

  /** Two lifetimes with admitted calls in one window leave no room for a third, and the first began before it. */
  lemma TwoLifetimes(c: Config, lives: seq<Option<Bucket>>, ms: seq<Mark>, a: Time, i: nat, j: nat, m: nat)
    requires Track(c, lives, ms) && i < j < |ms| && m <= j
    requires InWindow(c, ms, a)(i) && InWindow(c, ms, a)(j) && InWindow(c, ms, a)(m)
    requires ms[i].reset != ms[j].reset
    ensures ms[m].reset == ms[i].reset || ms[m].reset == ms[j].reset
    ensures ms[i].reset - c.window < a
  {
    LifetimeStep(c, lives, ms, i);
    LifetimeStep(c, lives, ms, j);
    LifetimeStep(c, lives, ms, m);
    LifetimesApart(c, lives, ms, j + 1, i);
    LifetimesApart(c, lives, ms, j + 1, m);
    ResetBound(c, lives, ms, j + 1);
    if m <= i {
      LifetimesApart(c, lives, ms, i + 1, m);
    } else {
      LifetimesApart(c, lives, ms, m + 1, i);
    }
  }

  lemma {:induction false} LastAdmitted(c: Config, ms: seq<Mark>, a: Time, n: nat) returns (j: nat)
    requires n <= |ms| && Count(n, InWindow(c, ms, a)) > 0
    ensures j < n && InWindow(c, ms, a)(j)
    ensures forall i: nat :: j < i < n ==> !InWindow(c, ms, a)(i)
  {
    if InWindow(c, ms, a)(n - 1) {
      j := n - 1;
    } else {
      j := LastAdmitted(c, ms, a, n - 1);
    }
  }

  /** Calls of one lifetime that fall into the window. */
  function InBoth(c: Config, ms: seq<Mark>, a: Time, r: Time): nat -> bool {
    (i: nat) => i < |ms| && ms[i].admitted && a <= ms[i].time <= a + c.window && ms[i].reset == r
  }

  /** A lifetime that started before the window has spent one of its calls outside it. */
  lemma StartedEarlier(c: Config, lives: seq<Option<Bucket>>, ms: seq<Mark>, a: Time, i: nat)
    requires Track(c, lives, ms) && c.limit >= 1 && i < |ms| && ms[i].admitted
    requires ms[i].reset - c.window < a
    ensures Count(|ms|, InBoth(c, ms, a, ms[i].reset)) <= c.limit - 1
  {
    var r := ms[i].reset;
    LifetimeStep(c, lives, ms, i);
    var start := LifetimeStart(c, lives, ms, i + 1);
    CountMore(|ms|, InBoth(c, ms, a, r), InLife(ms, r), start);
    LifetimeBound(c, lives, ms, |ms|, r);
  }

  lemma TrackBound(c: Config, lives: seq<Option<Bucket>>, ms: seq<Mark>, a: Time)
    requires Track(c, lives, ms) && c.limit >= 1
    ensures Count(|ms|, InWindow(c, ms, a)) <= 2 * c.limit - 1
  {
    var w := InWindow(c, ms, a);
    if Count(|ms|, w) > 0 {
      var j := LastAdmitted(c, ms, a, |ms|);
      var r2 := ms[j].reset;
      LifetimeBound(c, lives, ms, |ms|, r2);
      if i: nat :| i < j && w(i) && ms[i].reset != r2 {
        var r1 := ms[i].reset;
        forall m: nat | m < |ms| && w(m) ensures InBoth(c, ms, a, r1)(m) || InLife(ms, r2)(m) {
          TwoLifetimes(c, lives, ms, a, i, j, m);
        }
        CountUnion(|ms|, w, InBoth(c, ms, a, r1), InLife(ms, r2));
        TwoLifetimes(c, lives, ms, a, i, j, i);
        StartedEarlier(c, lives, ms, a, i);
      } else {
        CountUnion(|ms|, w, InLife(ms, r2), _ => false);
        CountNone(|ms|, _ => false);
      }
    }
  }

  lemma {:induction false} NoneAdmitted(c: Config, lives: seq<Option<Bucket>>, ms: seq<Mark>, n: nat)
    requires Track(c, lives, ms) && c.limit < 1 && n <= |ms|
    ensures lives[n].Some? ==> lives[n].value.count >= 0
    ensures forall i :: 0 <= i < n ==> !ms[i].admitted
  {
    if n > 0 {
      NoneAdmitted(c, lives, ms, n - 1);
      assert Moves(c, lives[n - 1], ms[n - 1], lives[n]);
    }
  }

  /**
   Over any run, in any closed interval of one window length, a key is admitted at most
   2 * limit - 1 times (never, if the limit is not positive).
   */
  lemma WindowBound(c: Config, run: seq<Request>, k: string, a: Time)
    requires Forward(run)
    ensures Count(|run|, (i: nat) => Admits(c, run, i, k) && i < |run| && a <= run[i].time <= a + c.window)
            <= if c.limit >= 1 then 2 * c.limit - 1 else 0
  {
    var ms, lives := Marks(c, run, k), Lives(c, run, k);
    RunTracks(c, run, k);
    var p := (i: nat) => Admits(c, run, i, k) && i < |run| && a <= run[i].time <= a + c.window;
    CountUnion(|run|, p, InWindow(c, ms, a), _ => false);
    CountNone(|run|, _ => false);
    if c.limit >= 1 {
      TrackBound(c, lives, ms, a);
    } else {
      NoneAdmitted(c, lives, ms, |ms|);
      CountNone(|ms|, InWindow(c, ms, a));
    }
  }

  // ---------------------------------------------------------------------------
  // The bound is reached

  /** One call at 0, the rest of the first lifetime at its very end, a full second lifetime one tick later. */
  function Burst(c: Config, k: string): seq<Request>
    requires c.limit >= 1
  {
    seq(2 * c.limit, i requires 0 <= i => Request(k, BurstTime(c, i)))
  }

  function BurstTime(c: Config, i: nat): Time {
    if i == 0 then 0 else if i < c.limit then c.window else c.window + 1
  }

  /** The only bucket after the first `n` calls of the burst. */
  function BurstBucket(c: Config, n: nat): Bucket {
    if n <= c.limit then Bucket(n, c.window) else Bucket(n - c.limit, 2 * c.window + 1)
  }

  lemma BurstStep(c: Config, k: string, b: Buckets, n: nat)
    requires c.limit >= 1 && c.window >= 1 && c.maxKeys >= 1 && n < 2 * c.limit
    requires b == if n == 0 then map[] else map[k := BurstBucket(c, n)]
    ensures Allow(c, b, k, BurstTime(c, n)) == (map[k := BurstBucket(c, n + 1)], true)
  {
    if n == 0 {
      assert Evict(b, 0) == map[];
    }
    var b1 := Admitted(c, b, k, BurstTime(c, n));
    assert k in b1 && b1.Keys == {k};
    var r := Rolled(c, b1[k], BurstTime(c, n));
    assert r.count < c.limit && r.(count := r.count + 1) == BurstBucket(c, n + 1);
    assert b1[k := r.(count := r.count + 1)] == map[k := BurstBucket(c, n + 1)];
  }

  lemma {:induction false} BurstAt(c: Config, k: string, run: seq<Request>, n: nat)
    requires c.limit >= 1 && c.window >= 1 && c.maxKeys >= 1 && run == Burst(c, k) && n <= |run|
    ensures At(c, run, n) == if n == 0 then map[] else map[k := BurstBucket(c, n)]
  {
    if n > 0 {
      BurstAt(c, k, run, n - 1);
      BurstStep(c, k, At(c, run, n - 1), n - 1);
    }
  }

  lemma BurstAdmits(c: Config, k: string, run: seq<Request>, i: nat)
    requires c.limit >= 1 && c.window >= 1 && c.maxKeys >= 1 && run == Burst(c, k) && i < |run|
    ensures Admits(c, run, i, k)
  {
    BurstAt(c, k, run, i);
    BurstStep(c, k, At(c, run, i), i);
  }

  lemma {:induction false} CountAll(n: nat, m: nat, p: nat -> bool)
    requires m <= n && forall i: nat :: i < n ==> (p(i) <==> m <= i)
    ensures Count(n, p) == n - m
  {
    if n > m {
      CountAll(n - 1, m, p);
    } else {
      CountNone(n, p);
    }
  }

  /** For every limit, window and memory of at least one, some window admits a key 2 * limit - 1 times. */
  lemma BoundIsTight(c: Config, k: string)
    requires c.limit >= 1 && c.window >= 1 && c.maxKeys >= 1
    ensures var run, a := Burst(c, k), c.window;
            Forward(run) &&
            Count(|run|, (i: nat) => Admits(c, run, i, k) && i < |run| && a <= run[i].time <= a + c.window) == 2 * c.limit - 1
  {
    var run, a := Burst(c, k), c.window;
    var p := (i: nat) => Admits(c, run, i, k) && i < |run| && a <= run[i].time <= a + c.window;
    forall i: nat | i < |run| ensures p(i) <==> 1 <= i {
      BurstAdmits(c, k, run, i);
      assert run[i].time == BurstTime(c, i);
    }
    CountAll(|run|, 1, p);
  }

  // ---------------------------------------------------------------------------
  // Lifetimes in a run

  /** Call `j` is the key's and falls into the lifetime that ends at `r`, admitted or not. */
  predicate CallOf(c: Config, run: seq<Request>, k: string, r: Time, j: nat) {
    j < |run| && run[j].key == k && k in At(c, run, j + 1) && At(c, run, j + 1)[k].reset == r
  }

  function Calls(c: Config, run: seq<Request>, k: string, r: Time): nat -> bool {
    (j: nat) => CallOf(c, run, k, r, j)
  }

  function Admissions(c: Config, run: seq<Request>, k: string, r: Time): nat -> bool {
    (j: nat) => CallOf(c, run, k, r, j) && Admits(c, run, j, k)
  }

  lemma AdmittedHasBucket(c: Config, run: seq<Request>, k: string, j: nat)
    requires Admits(c, run, j, k)
    ensures k in At(c, run, j + 1)
  {
  }

  lemma {:induction false} CountSame(n: nat, p: nat -> bool, q: nat -> bool)
    requires forall i: nat :: i < n ==> p(i) == q(i)
    ensures Count(n, p) == Count(n, q)
  {
    if n > 0 {
      CountSame(n - 1, p, q);
    }
  }

  lemma AdmissionsAreMarks(c: Config, run: seq<Request>, k: string, r: Time, n: nat, ms: seq<Mark>)
    requires n <= |run| && ms == Marks(c, run, k)
    ensures Count(n, Admissions(c, run, k, r)) == Count(n, InLife(ms, r))
  {
    forall j: nat | j < n ensures Admissions(c, run, k, r)(j) == InLife(ms, r)(j) {
      assert ms[j] == MarkOf(c, run, j, k);
      if Admits(c, run, j, k) {
        AdmittedHasBucket(c, run, k, j);
      }
    }
    CountSame(n, Admissions(c, run, k, r), InLife(ms, r));
  }

  /** In every run a bucket's counter is the number of the key's calls that its lifetime admitted, at most the limit. */
  lemma RunCounterExact(c: Config, run: seq<Request>, k: string, n: nat)
    requires Forward(run) && n <= |run| && c.limit >= 0 && k in At(c, run, n)
    ensures At(c, run, n)[k].count == Count(n, Admissions(c, run, k, At(c, run, n)[k].reset)) <= c.limit
  {
    RunTracks(c, run, k);
    var lives, ms := Lives(c, run, k), Marks(c, run, k);
    assert lives[n] == Some(At(c, run, n)[k]);
    CounterExact(c, lives, ms, n);
    AdmissionsAreMarks(c, run, k, At(c, run, n)[k].reset, n, ms);
  }

  /** A call of the key that keeps or gets a bucket continues a lifetime or starts one. */
  lemma CallMoves(c: Config, run: seq<Request>, k: string, i: nat, live: Option<Bucket>, m: Mark, live': Option<Bucket>)
    requires i < |run| && run[i].key == k && k in At(c, run, i + 1)
    requires live == Live(At(c, run, i), k) && m == MarkOf(c, run, i, k) && live' == Live(At(c, run, i + 1), k)
    ensures Touches(c, live, m, live') == true
  {
    KeyMoves(c, run, i, k);
  }

  lemma MarkOfCall(c: Config, run: seq<Request>, k: string, i: nat, m: Mark)
    requires i < |run| && k in At(c, run, i + 1) && m == MarkOf(c, run, i, k)
    ensures m.admitted == Admits(c, run, i, k) && m.reset == At(c, run, i + 1)[k].reset
  {
  }

  lemma CallTouches(c: Config, run: seq<Request>, k: string, i: nat)
    requires i < |run| && run[i].key == k && k in At(c, run, i + 1)
    ensures Touches(c, Lives(c, run, k)[i], Marks(c, run, k)[i], Lives(c, run, k)[i + 1]) == true
  {
    CallMoves(c, run, k, i, Lives(c, run, k)[i], Marks(c, run, k)[i], Lives(c, run, k)[i + 1]);
  }

  lemma CallAdmitted(c: Config, run: seq<Request>, k: string, i: nat, lives: seq<Option<Bucket>>, ms: seq<Mark>)
    requires Forward(run) && c.limit >= 1 && i < |run| && run[i].key == k && k in At(c, run, i + 1)
    requires lives == Lives(c, run, k) && ms == Marks(c, run, k)
    ensures |ms| == |run| && |lives| == |run| + 1
    ensures ms[i].admitted <==> Count(i, InLife(ms, ms[i].reset)) < c.limit
  {
    CallTouches(c, run, k, i);
    RunTracks(c, run, k);
    FirstCallsAdmitted(c, lives, ms, i);
  }

  /** Of calls that are admitted while fewer than the limit were, exactly the first ones are. */
  lemma {:induction false} CountFirst(n: nat, p: nat -> bool, q: nat -> bool, limit: nat)
    requires forall i: nat :: i < n ==> (q(i) <==> p(i) && Count(i, q) < limit)
    ensures Count(n, q) == if Count(n, p) < limit then Count(n, p) else limit
  {
    if n > 0 {
      CountFirst(n - 1, p, q, limit);
    }
  }

  lemma AdmittedWhileFewer(c: Config, run: seq<Request>, k: string, r: Time, i: nat)
    requires Forward(run) && c.limit >= 1 && CallOf(c, run, k, r, i)
    ensures Admits(c, run, i, k) <==> Count(i, Admissions(c, run, k, r)) < c.limit
  {
    CallAdmitted(c, run, k, i, Lives(c, run, k), Marks(c, run, k));
    MarkOfCall(c, run, k, i, Marks(c, run, k)[i]);
    AdmissionsAreMarks(c, run, k, r, i, Marks(c, run, k));
  }

  /** A lifetime admits all its calls until it has admitted the limit. */
  lemma AdmissionsAreFirst(c: Config, run: seq<Request>, k: string, r: Time, n: nat)
    requires Forward(run) && c.limit >= 1 && n <= |run|
    ensures var calls, adm := Count(n, Calls(c, run, k, r)), Count(n, Admissions(c, run, k, r));
            adm == if calls < c.limit then calls else c.limit
  {
    forall i: nat | i < n
      ensures Admissions(c, run, k, r)(i) <==> Calls(c, run, k, r)(i) && Count(i, Admissions(c, run, k, r)) < c.limit
    {
      if CallOf(c, run, k, r, i) {
        AdmittedWhileFewer(c, run, k, r, i);
      }
    }
    CountFirst(n, Calls(c, run, k, r), Admissions(c, run, k, r), c.limit);
  }

  /** In every run, each bucket lifetime admits exactly its first `limit` calls. */
  lemma FirstCallsOfRun(c: Config, run: seq<Request>, k: string, r: Time, i: nat)
    requires Forward(run) && c.limit >= 1 && CallOf(c, run, k, r, i)
    ensures Admits(c, run, i, k) <==> Count(i, Calls(c, run, k, r)) < c.limit
  {
    AdmittedWhileFewer(c, run, k, r, i);
    AdmissionsAreFirst(c, run, k, r, i);
  }
}
