/** Token buckets over real numbers; times are in seconds. */
module TokenBuckets {
  datatype Bucket = Bucket(tokens: real, last: real)

  /** Refill speed in tokens per second, and capacity. */
  datatype Shape = Shape(rate: real, cap: real)

  ghost predicate Sane(s: Shape) {
    s.rate >= 0.0 && s.cap >= 0.0
  }

  function Fresh(s: Shape, now: real): Bucket {
    Bucket(s.cap, now)
  }

  /** What a span of d seconds refills. */
  function Gain(s: Shape, d: real): real {
    s.rate * d
  }

  /** The tokens there are at time t, if nothing is taken until then. */
  function Level(s: Shape, b: Bucket, t: real): real {
    var refilled := b.tokens + Gain(s, t - b.last);
    if refilled > s.cap then s.cap else refilled
  }

  /** Refill, cap, and take n if they are there. */
  function Take(s: Shape, b: Bucket, n: real, now: real): (Bucket, bool) {
    var l := Level(s, b, now);
    if l >= n then (Bucket(l - n, now), true) else (Bucket(l, now), false)
  }

  lemma NonNegativeProduct(x: real, y: real)
    requires x >= 0.0 && y >= 0.0
    ensures x * y >= 0.0
  {
  }

  lemma GainNonNegative(s: Shape, d: real)
    requires s.rate >= 0.0 && d >= 0.0
    ensures Gain(s, d) >= 0.0
  {
    NonNegativeProduct(s.rate, d);
  }

  lemma GainZero(s: Shape)
    ensures Gain(s, 0.0) == 0.0
  {
  }

  lemma GainAdds(s: Shape, t: real, u: real, v: real)
    ensures Gain(s, v - t) == Gain(s, u - t) + Gain(s, v - u)
  {
  }

  lemma SpanGain(s: Shape, t: real, d: real)
    ensures Gain(s, t + d - t) == Gain(s, d) == s.rate * d
  {
    assert t + d - t == d;
  }

  /** Waiting from t to u adds at most rate * (u - t), and never takes away. */
  lemma LevelGrows(s: Shape, b: Bucket, t: real, u: real)
    requires s.rate >= 0.0 && t <= u
    ensures Level(s, b, t) <= Level(s, b, u) <= Level(s, b, t) + Gain(s, u - t)
  {
    hide Gain;
    GainNonNegative(s, u - t);
    GainAdds(s, b.last, t, u);
  }

  lemma LevelNonNegative(s: Shape, b: Bucket, t: real)
    requires Sane(s) && b.tokens >= 0.0 && b.last <= t
    ensures 0.0 <= Level(s, b, t) <= s.cap
  {
    hide Gain;
    GainNonNegative(s, t - b.last);
  }

  ghost predicate BucketOk(b: Bucket, since: real) {
    b.tokens >= 0.0 && b.last <= since
  }

  /** Taking spends: what is granted is no longer there. */
  lemma TakeSpends(s: Shape, b: Bucket, n: real, now: real)
    requires Sane(s) && BucketOk(b, now)
    ensures var (c, ok) := Take(s, b, n, now);
      BucketOk(c, now) && Level(s, c, now) <= Level(s, b, now) - (if ok then n else 0.0)
  {
    hide Gain;
    LevelNonNegative(s, b, now);
    GainZero(s);
  }

  /** A bucket that is full at t. */
  ghost predicate FullAt(s: Shape, b: Bucket, t: real) {
    Level(s, b, t) == s.cap
  }

  lemma FullStays(s: Shape, b: Bucket, t: real, u: real)
    requires s.rate >= 0.0 && t <= u && FullAt(s, b, t)
    ensures FullAt(s, b, u)
  {
    LevelGrows(s, b, t, u);
  }

  lemma FreshIsFull(s: Shape, t: real)
    ensures FullAt(s, Fresh(s, t), t)
  {
    hide Gain;
    GainZero(s);
  }

  /** From time t on the two buckets cannot be told apart. */
  ghost predicate Alike(s: Shape, b: Bucket, c: Bucket, t: real) {
    b == c || (FullAt(s, b, t) && FullAt(s, c, t))
  }

  lemma AlikeStays(s: Shape, b: Bucket, c: Bucket, t: real, u: real)
    requires s.rate >= 0.0 && t <= u && Alike(s, b, c, t)
    ensures Alike(s, b, c, u) && Level(s, b, u) == Level(s, c, u)
  {
    if b != c {
      FullStays(s, b, t, u);
      FullStays(s, c, t, u);
    }
  }
}

/** The keyed limiter of the security package. */
module SecurityLimiter {
  import opened TokenBuckets

  type Key = string

  datatype Config = Config(shape: Shape, cleanupInterval: real)

  type Buckets = map<Key, Bucket>

  datatype Event = Allow(key: Key, n: int, at: real) | Cleanup(at: real)

  function BucketOf(cfg: Config, m: Buckets, key: Key, now: real): Bucket {
    if key in m then m[key] else Fresh(cfg.shape, now)
  }

  /** Deletes only buckets that are both stale and full. */
  function Cleaned(cfg: Config, m: Buckets, now: real): Buckets {
    map k | k in m && !(now - m[k].last > 2.0 * cfg.cleanupInterval && m[k].tokens >= cfg.shape.cap) :: m[k]
  }

  function Apply(cfg: Config, m: Buckets, e: Event): (Buckets, bool) {
    match e
    case Allow(key, n, at) =>
      var (b, ok) := Take(cfg.shape, BucketOf(cfg, m, key, at), n as real, at);
      (m[key := b], ok)
    case Cleanup(at) => (Cleaned(cfg, m, at), false)
  }

  function Run(cfg: Config, m: Buckets, es: seq<Event>): Buckets {
    if es == [] then m else Apply(cfg, Run(cfg, m, es[..|es| - 1]), es[|es| - 1]).0
  }

  /** What the events, applied from m on, admit for a key. */
  function Admitted(cfg: Config, m: Buckets, es: seq<Event>, key: Key): int {
    if es == [] then 0 else
      var e := es[|es| - 1];
      var before := Admitted(cfg, m, es[..|es| - 1], key);
      if e.Allow? && e.key == key && Apply(cfg, Run(cfg, m, es[..|es| - 1]), e).1 then before + e.n else before
  }

  /** The clock does not run backwards, and starts at `from`. */
  ghost predicate Timed(es: seq<Event>, from: real) {
    && (forall i :: 0 <= i < |es| ==> from <= es[i].at)
    && forall i, j :: 0 <= i < j < |es| ==> es[i].at <= es[j].at
  }

  ghost predicate Solvent(m: Buckets, now: real) {
    forall k :: k in m ==> BucketOk(m[k], now)
  }

  /** What a key could take at time t. */
  ghost function Available(cfg: Config, m: Buckets, key: Key, t: real): real {
    Level(cfg.shape, BucketOf(cfg, m, key, t), t)
  }

  lemma AvailableGrows(cfg: Config, m: Buckets, key: Key, t: real, u: real)
    requires Sane(cfg.shape) && t <= u
    ensures Available(cfg, m, key, u) <= Available(cfg, m, key, t) + Gain(cfg.shape, u - t)
  {
    hide Gain, Level;
    if key in m {
      LevelGrows(cfg.shape, m[key], t, u);
    } else {
      FreshIsFull(cfg.shape, t);
      FreshIsFull(cfg.shape, u);
      GainNonNegative(cfg.shape, u - t);
    }
  }

  lemma CleanedAvailable(cfg: Config, m: Buckets, now: real, key: Key)
    requires Sane(cfg.shape) && Solvent(m, now)
    ensures Available(cfg, Cleaned(cfg, m, now), key, now) == Available(cfg, m, key, now)
  {
    hide Gain;
    FreshIsFull(cfg.shape, now);
    if key in m { GainNonNegative(cfg.shape, now - m[key].last); }
  }

  /** One event conserves: what it admits leaves the key's bucket. */
  lemma StepSpends(cfg: Config, m: Buckets, e: Event, key: Key)
    requires Sane(cfg.shape) && Solvent(m, e.at)
    ensures var (m', ok) := Apply(cfg, m, e);
      && Solvent(m', e.at)
      && Available(cfg, m', key, e.at)
         <= Available(cfg, m, key, e.at) - (if e.Allow? && e.key == key && ok then e.n as real else 0.0)
  {
    if e.Allow? {
      TakeSpends(cfg.shape, BucketOf(cfg, m, e.key, e.at), e.n as real, e.at);
    } else {
      CleanedAvailable(cfg, m, e.at, key);
    }
  }

  lemma {:induction false} RunSpends(cfg: Config, m: Buckets, es: seq<Event>, key: Key, from: real, to: real)
    requires Sane(cfg.shape) && Timed(es, from) && from <= to && Solvent(m, from)
    requires forall i :: 0 <= i < |es| ==> es[i].at <= to
    ensures Solvent(Run(cfg, m, es), to)
    ensures Admitted(cfg, m, es, key) as real + Available(cfg, Run(cfg, m, es), key, to)
      <= Available(cfg, m, key, from) + Gain(cfg.shape, to - from)
  {
    hide Available, Apply, Sane, Gain;
    if es == [] {
      AvailableGrows(cfg, m, key, from, to);
      StaysSolvent(m, from, to);
    } else {
      var init, e := es[..|es| - 1], es[|es| - 1];
      RunSpends(cfg, m, init, key, from, e.at);
      var before := Run(cfg, m, init);
      StepSpends(cfg, before, e, key);
      AvailableGrows(cfg, Apply(cfg, before, e).0, key, e.at, to);
      StaysSolvent(Apply(cfg, before, e).0, e.at, to);
      GainAdds(cfg.shape, from, e.at, to);
    }
  }

  lemma StaysSolvent(m: Buckets, t: real, u: real)
    requires Solvent(m, t) && t <= u
    ensures Solvent(m, u)
  {
  }

  lemma AvailableInRange(cfg: Config, m: Buckets, key: Key, t: real)
    requires Sane(cfg.shape) && Solvent(m, t)
    ensures 0.0 <= Available(cfg, m, key, t) <= cfg.shape.cap
  {
    LevelNonNegative(cfg.shape, BucketOf(cfg, m, key, t), t);
  }

  lemma WindowSpends(cfg: Config, es: seq<Event>, i: nat, j: nat, key: Key, s: real, t: real)
    requires Sane(cfg.shape) && es != [] && Timed(es, es[0].at) && i <= j <= |es| && s <= t
    requires forall k :: i <= k < j ==> s <= es[k].at <= t
    requires forall k :: 0 <= k < i ==> es[k].at <= s
    ensures Admitted(cfg, Run(cfg, map[], es[..i]), es[i..j], key) as real <= cfg.shape.cap + Gain(cfg.shape, t - s)
  {
    hide Available, Admitted, Run, Gain, Sane, Solvent, Timed;
    var m := Run(cfg, map[], es[..i]);
    RunEmpty(cfg);
    var start := if i > 0 then es[0].at else s;
    TimedParts(es, i, j, start, s);
    EmptySolvent(start);
    RunSpends(cfg, map[], es[..i], key, start, s);
    RunSpends(cfg, m, es[i..j], key, s, t);
    AvailableInRange(cfg, m, key, s);
    AvailableInRange(cfg, Run(cfg, m, es[i..j]), key, t);
  }

  /** In every run and every time window of length d, the amount admitted for
      a key is at most the capacity plus what d refills, cleanups included. */
  lemma WindowBound(cfg: Config, es: seq<Event>, i: nat, j: nat, key: Key, s: real, d: real)
    requires Sane(cfg.shape) && es != [] && Timed(es, es[0].at) && i <= j <= |es| && d >= 0.0
    requires forall k :: i <= k < j ==> s <= es[k].at <= s + d
    requires forall k :: 0 <= k < i ==> es[k].at <= s
    ensures Admitted(cfg, Run(cfg, map[], es[..i]), es[i..j], key) as real <= cfg.shape.cap + cfg.shape.rate * d
  {
    hide Admitted, Run, Gain, Timed;
    WindowSpends(cfg, es, i, j, key, s, s + d);
    SpanGain(cfg.shape, s, d);
  }

  lemma EmptySolvent(t: real)
    ensures Solvent(map[], t)
  {
  }

  lemma TimedParts(es: seq<Event>, i: nat, j: nat, start: real, s: real)
    requires es != [] && Timed(es, es[0].at) && i <= j <= |es|
    requires start == if i > 0 then es[0].at else s
    requires forall k :: i <= k < j ==> s <= es[k].at
    requires forall k :: 0 <= k < i ==> es[k].at <= s
    ensures Timed(es[..i], start) && Timed(es[i..j], s) && start <= s
  {
  }

  lemma RunEmpty(cfg: Config)
    ensures Run(cfg, map[], []) == map[]
  {
  }

  // ----- the object

  class TokenBucketLimiter {
    const rate: int
    const interval: real
    const burst: int
    const cleanupInterval: real
    var buckets: Buckets

    function Settings(): Config
      requires interval > 0.0
    {
      Config(Shape(rate as real / interval, burst as real), cleanupInterval)
    }

    constructor (rate: int, interval: real, burst: int, cleanupInterval: real)
      ensures this.rate == rate && this.interval == interval && this.burst == burst
      ensures this.cleanupInterval == cleanupInterval && buckets == map[]
    {
      this.rate, this.interval, this.burst, this.cleanupInterval := rate, interval, burst, cleanupInterval;
      buckets := map[];
    }

    method AllowN(key: Key, n: int, now: real) returns (ok: bool)
      requires interval > 0.0
      modifies this
      ensures (buckets, ok) == Apply(Settings(), old(buckets), Allow(key, n, now))
    {
      if key !in buckets { buckets := buckets[key := Bucket(burst as real, now)]; }
      var b := buckets[key];
      var elapsed := now - b.last;
      var tokens := b.tokens + rate as real * elapsed / interval;
      ElapsedShare(rate as real, elapsed, interval);
      if tokens > burst as real { tokens := burst as real; }
      if tokens >= n as real {
        buckets := buckets[key := Bucket(tokens - n as real, now)];
        assert buckets == old(buckets)[key := buckets[key]];
        return true;
      }
      buckets := buckets[key := Bucket(tokens, now)];
      assert buckets == old(buckets)[key := buckets[key]];
      return false;
    }

    method CleanupStale(now: real)
      requires interval > 0.0
      modifies this
      ensures buckets == Apply(Settings(), old(buckets), Cleanup(now)).0
    {
      var todo := buckets.Keys;
      while todo != {}
        invariant todo <= old(buckets).Keys
        invariant forall k :: k in buckets <==> k in old(buckets) && (k in todo || k in Cleaned(Settings(), old(buckets), now))
        invariant forall k :: k in buckets ==> buckets[k] == old(buckets)[k]
        decreases |todo|
      {
        var k :| k in todo;
        todo := todo - {k};
        if now - buckets[k].last > 2.0 * cleanupInterval && buckets[k].tokens >= burst as real {
          buckets := buckets - {k};
        }
      }
    }
  }

  lemma ElapsedShare(r: real, e: real, i: real)
    requires i > 0.0
    ensures r * e / i == r / i * e
  {
  }

  // ----- exactly when a request is granted

  /** What is admitted for a key from event i of the run on. */
  ghost function AdmittedSince(cfg: Config, es: seq<Event>, i: nat, key: Key): int
    requires i <= |es|
  {
    Admitted(cfg, Run(cfg, map[], es[..i]), es[i..], key)
  }

  function Granted(e: Event, key: Key, ok: bool): int {
    if e.Allow? && e.key == key && ok then e.n else 0
  }

  lemma {:induction false} RunSplits(cfg: Config, m: Buckets, es: seq<Event>, i: nat)
    requires i <= |es|
    ensures Run(cfg, Run(cfg, m, es[..i]), es[i..]) == Run(cfg, m, es)
    decreases |es|
  {
    hide Apply;
    if i == |es| {
      assert es[..i] == es && es[i..] == [];
    } else {
      var last := |es| - 1;
      var init := es[..last];
      assert init[..i] == es[..i] && init[i..] == es[i..][..last - i] && es[i..][last - i] == es[last];
      RunSplits(cfg, m, init, i);
    }
  }

  lemma AdmittedSinceNext(cfg: Config, es: seq<Event>, e: Event, i: nat, key: Key)
    requires i <= |es|
    ensures AdmittedSince(cfg, es + [e], i, key) ==
      AdmittedSince(cfg, es, i, key) + Granted(e, key, Apply(cfg, Run(cfg, map[], es), e).1)
  {
    hide Apply, Run;
    RunSplits(cfg, map[], es, i);
    var all := es + [e];
    assert all[..i] == es[..i] && all[i..] == es[i..] + [e];
    assert (es[i..] + [e])[..|es| - i] == es[i..];
  }

  /** A request takes from its own key what it is granted; the bucket may be
      left full, and nothing else changes what is available. */
  lemma StepLevel(cfg: Config, m: Buckets, e: Event, key: Key)
    requires Sane(cfg.shape) && Solvent(m, e.at)
    ensures var (m', ok) := Apply(cfg, m, e); var left := Available(cfg, m', key, e.at);
      left == cfg.shape.cap || left == Available(cfg, m, key, e.at) - Granted(e, key, ok) as real
  {
    hide Gain;
    GainZero(cfg.shape);
    if e.Cleanup? { CleanedAvailable(cfg, m, e.at, key); }
    AvailableInRange(cfg, m, key, e.at);
  }

  lemma WaitLevel(cfg: Config, m: Buckets, key: Key, t: real, u: real)
    requires Sane(cfg.shape) && t <= u
    ensures var left := Available(cfg, m, key, u);
      left == cfg.shape.cap || left == Available(cfg, m, key, t) + Gain(cfg.shape, u - t)
  {
    hide Gain;
    FreshIsFull(cfg.shape, u);
    if key in m {
      GainNonNegative(cfg.shape, u - t);
      GainAdds(cfg.shape, m[key].last, t, u);
    }
  }

  /** Since event i the bucket has never been full: what is left of the key's
      tokens is no less than the refill since then allows. */
  ghost predicate TightSince(cfg: Config, es: seq<Event>, i: nat, key: Key, t: real)
    requires i < |es|
  {
    Available(cfg, Run(cfg, map[], es), key, t)
      >= cfg.shape.cap + Gain(cfg.shape, t - es[i].at) - AdmittedSince(cfg, es, i, key) as real
  }

  lemma {:induction false} FullOrTight(cfg: Config, es: seq<Event>, from: real, key: Key, t: real)
    requires Sane(cfg.shape) && Timed(es, from) && from <= t && forall i :: 0 <= i < |es| ==> es[i].at <= t
    ensures Available(cfg, Run(cfg, map[], es), key, t) == cfg.shape.cap || exists i :: 0 <= i < |es| && TightSince(cfg, es, i, key, t)
  {
    hide Available, Gain, Sane, Solvent, Run, TightSince, Apply;
    RunEmpty(cfg);
    if es == [] {
      EmptyIsFull(cfg, key, t);
    } else {
      var last := |es| - 1;
      var init, e := es[..last], es[last];
      FullOrTight(cfg, init, from, key, e.at);
      var i := TightBefore(cfg, init, key, e.at, from);
      assert init + [e] == es;
      TightAfter(cfg, init, e, from, key, t, i);
    }
  }

  lemma EmptyIsFull(cfg: Config, key: Key, t: real)
    ensures Available(cfg, map[], key, t) == cfg.shape.cap
  {
    hide Gain;
    FreshIsFull(cfg.shape, t);
  }

  /** The index found, or the length when the bucket is full. */
  lemma TightBefore(cfg: Config, es: seq<Event>, key: Key, t: real, from: real) returns (i: nat)
    requires Available(cfg, Run(cfg, map[], es), key, t) == cfg.shape.cap || exists i :: 0 <= i < |es| && TightSince(cfg, es, i, key, t)
    ensures i <= |es| && (i < |es| ==> TightSince(cfg, es, i, key, t))
    ensures i == |es| ==> Available(cfg, Run(cfg, map[], es), key, t) == cfg.shape.cap
  {
    hide Available, TightSince, Run;
    if Available(cfg, Run(cfg, map[], es), key, t) == cfg.shape.cap {
      i := |es|;
    } else {
      i :| 0 <= i < |es| && TightSince(cfg, es, i, key, t);
    }
  }

  lemma TightAfter(cfg: Config, init: seq<Event>, e: Event, from: real, key: Key, t: real, i: nat)
    requires Sane(cfg.shape) && Timed(init, from) && from <= e.at <= t && forall k :: 0 <= k < |init| ==> init[k].at <= e.at
    requires i <= |init| && (i < |init| ==> TightSince(cfg, init, i, key, e.at))
    requires i == |init| ==> Available(cfg, Run(cfg, map[], init), key, e.at) == cfg.shape.cap
    ensures Available(cfg, Run(cfg, map[], init + [e]), key, t) == cfg.shape.cap || TightSince(cfg, init + [e], i, key, t)
  {
    hide Available, Gain, Sane, Apply, Run, AdmittedSince, Timed;
    var es := init + [e];
    LevelAfter(cfg, init, e, from, key, t);
    AdmittedSinceNext(cfg, init, e, i, key);
    if i < |init| {
      GainAdds(cfg.shape, es[i].at, e.at, t);
    } else {
      NothingSince(cfg, init, key);
    }
  }

  /** What is left some time after event e: a full bucket, or what was there
      before, less what e was granted, plus the refill since. */
  lemma LevelAfter(cfg: Config, init: seq<Event>, e: Event, from: real, key: Key, t: real)
    requires Sane(cfg.shape) && Timed(init, from) && from <= e.at <= t && forall k :: 0 <= k < |init| ==> init[k].at <= e.at
    ensures var m := Run(cfg, map[], init); var left := Available(cfg, Run(cfg, map[], init + [e]), key, t);
      || left == cfg.shape.cap
      || left == Available(cfg, m, key, e.at) - Granted(e, key, Apply(cfg, m, e).1) as real + Gain(cfg.shape, t - e.at)
  {
    hide Available, Gain, Sane, Solvent, Apply, Granted, Timed;
    var m := Run(cfg, map[], init);
    RunStaysSolvent(cfg, init, from, e.at);
    StepLevel(cfg, m, e, key);
    StepSpends(cfg, m, e, key);
    var m' := Apply(cfg, m, e).0;
    assert (init + [e])[..|init|] == init;
    WaitLevel(cfg, m', key, e.at, t);
    GainNonNegativeOf(cfg, t - e.at);
    StaysSolvent(m', e.at, t);
    AvailableInRange(cfg, m', key, t);
  }

  lemma GainNonNegativeOf(cfg: Config, d: real)
    requires Sane(cfg.shape) && d >= 0.0
    ensures Gain(cfg.shape, d) >= 0.0
  {
    GainNonNegative(cfg.shape, d);
  }

  lemma NothingSince(cfg: Config, es: seq<Event>, key: Key)
    ensures AdmittedSince(cfg, es, |es|, key) == 0
  {
  }

  lemma AllowedIffAvailable(cfg: Config, m: Buckets, e: Event)
    requires e.Allow?
    ensures Apply(cfg, m, e).1 <==> Available(cfg, m, e.key, e.at) >= e.n as real
  {
  }

  lemma SinceSpends(cfg: Config, es: seq<Event>, i: nat, from: real, key: Key, t: real)
    requires Sane(cfg.shape) && Timed(es, from) && from <= t && i < |es| && forall k :: 0 <= k < |es| ==> es[k].at <= t
    ensures AdmittedSince(cfg, es, i, key) as real + Available(cfg, Run(cfg, map[], es), key, t)
      <= cfg.shape.cap + Gain(cfg.shape, t - es[i].at)
  {
    hide Available, Admitted, Run, Gain, Sane, Solvent;
    var m := Run(cfg, map[], es[..i]);
    RunStaysSolvent(cfg, es[..i], from, es[i].at);
    RunSpends(cfg, m, es[i..], key, es[i].at, t);
    RunSplits(cfg, map[], es, i);
    AvailableInRange(cfg, m, key, es[i].at);
  }

  /** A request is granted if and only if it fits the burst and, together with
      what was admitted for its key since any earlier event, the burst plus the
      refill since that event. */
  lemma GrantedExactly(lim: TokenBucketLimiter, es: seq<Event>, e: Event, from: real)
    requires lim.interval > 0.0 && lim.rate >= 0 && lim.burst >= 0 && e.Allow? && Timed(es + [e], from)
    ensures Apply(lim.Settings(), Run(lim.Settings(), map[], es), e).1 <==>
      && e.n <= lim.burst
      && forall i :: 0 <= i < |es| ==> FitsSince(lim, es, i, e)
  {
    hide Apply, Run, Fits, FitsSince, TokenBucketLimiter.Settings, Sane;
    var cfg := lim.Settings();
    SettingsSane(lim);
    TimedInit(es, e, from);
    GrantedIffFits(cfg, es, e, from);
    forall i | 0 <= i < |es| ensures FitsSince(lim, es, i, e) <==> Fits(cfg, es, i, e) { FitsAlike(lim, es, i, e); }
  }

  ghost predicate Fits(cfg: Config, es: seq<Event>, i: nat, e: Event)
    requires i < |es| && e.Allow?
  {
    AdmittedSince(cfg, es, i, e.key) as real + e.n as real <= cfg.shape.cap + Gain(cfg.shape, e.at - es[i].at)
  }

  lemma FitsAlike(lim: TokenBucketLimiter, es: seq<Event>, i: nat, e: Event)
    requires lim.interval > 0.0 && i < |es| && e.Allow?
    ensures FitsSince(lim, es, i, e) <==> Fits(lim.Settings(), es, i, e)
  {
    hide AdmittedSince, Gain, TokenBucketLimiter.Settings;
    ShareOf(lim, e.at - es[i].at);
  }

  lemma GrantedIffFits(cfg: Config, es: seq<Event>, e: Event, from: real)
    requires Sane(cfg.shape) && e.Allow? && Timed(es, from) && from <= e.at && forall i :: 0 <= i < |es| ==> es[i].at <= e.at
    ensures Apply(cfg, Run(cfg, map[], es), e).1 <==>
      e.n as real <= cfg.shape.cap && forall i :: 0 <= i < |es| ==> Fits(cfg, es, i, e)
  {
    hide Available, AdmittedSince, Run, Gain, Apply, Sane, Timed, Solvent;
    AllowedIffAvailable(cfg, Run(cfg, map[], es), e);
    RunStaysSolvent(cfg, es, from, e.at);
    AvailableInRange(cfg, Run(cfg, map[], es), e.key, e.at);
    if Apply(cfg, Run(cfg, map[], es), e).1 {
      forall i | 0 <= i < |es| ensures Fits(cfg, es, i, e) { SinceSpends(cfg, es, i, from, e.key, e.at); }
    } else {
      FullOrTight(cfg, es, from, e.key, e.at);
      var i := TightBefore(cfg, es, e.key, e.at, from);
      if i < |es| { assert !Fits(cfg, es, i, e); }
    }
  }

  /** The request and all that was admitted for its key since event i together
      are within the burst and the refill since then. */
  ghost predicate FitsSince(lim: TokenBucketLimiter, es: seq<Event>, i: nat, e: Event)
    requires lim.interval > 0.0 && i < |es| && e.Allow?
  {
    (AdmittedSince(lim.Settings(), es, i, e.key) + e.n) as real
      <= lim.burst as real + lim.rate as real * (e.at - es[i].at) / lim.interval
  }

  lemma SettingsSane(lim: TokenBucketLimiter)
    requires lim.interval > 0.0 && lim.rate >= 0 && lim.burst >= 0
    ensures Sane(lim.Settings().shape) && lim.Settings().shape.cap == lim.burst as real
  {
  }

  lemma ShareOf(lim: TokenBucketLimiter, d: real)
    requires lim.interval > 0.0
    ensures Gain(lim.Settings().shape, d) == lim.rate as real * d / lim.interval
    ensures lim.Settings().shape.cap == lim.burst as real
  {
    ElapsedShare(lim.rate as real, d, lim.interval);
  }

  lemma TimedInit(es: seq<Event>, e: Event, from: real)
    requires Timed(es + [e], from)
    ensures Timed(es, from) && from <= e.at && forall i :: 0 <= i < |es| ==> es[i].at <= e.at
  {
    var all := es + [e];
    assert all[|es|] == e;
    assert forall i :: 0 <= i < |es| ==> all[i] == es[i];
  }

  /** The window bound in the limiter's own figures: over d seconds no more than
      burst + rate * d / interval is admitted for a key. */
  lemma BurstPlusRate(lim: TokenBucketLimiter, es: seq<Event>, i: nat, j: nat, key: Key, s: real, d: real)
    requires lim.interval > 0.0 && lim.rate >= 0 && lim.burst >= 0
    requires es != [] && Timed(es, es[0].at) && i <= j <= |es| && d >= 0.0
    requires forall k :: i <= k < j ==> s <= es[k].at <= s + d
    requires forall k :: 0 <= k < i ==> es[k].at <= s
    ensures Admitted(lim.Settings(), Run(lim.Settings(), map[], es[..i]), es[i..j], key) as real
      <= lim.burst as real + lim.rate as real * d / lim.interval
  {
    hide Admitted, Run, Gain, Timed, TokenBucketLimiter.Settings;
    SettingsSane(lim);
    WindowSpends(lim.Settings(), es, i, j, key, s, s + d);
    SpanGain(lim.Settings().shape, s, d);
    ShareOf(lim, d);
  }

  // ----- cleanup is invisible

  /** m and its uncleaned twin answer alike from time t on. */
  ghost predicate Twins(cfg: Config, m: Buckets, full: Buckets, t: real) {
    && (forall k :: k in m ==> k in full && Alike(cfg.shape, m[k], full[k], t))
    && (forall k :: k in full && k !in m ==> FullAt(cfg.shape, full[k], t))
  }

  lemma TwinsStay(cfg: Config, m: Buckets, full: Buckets, t: real, u: real)
    requires Sane(cfg.shape) && t <= u && Twins(cfg, m, full, t)
    ensures Twins(cfg, m, full, u)
  {
    hide Alike, FullAt;
    forall k | k in m ensures Alike(cfg.shape, m[k], full[k], u) { AlikeStays(cfg.shape, m[k], full[k], t, u); }
    forall k | k in full && k !in m ensures FullAt(cfg.shape, full[k], u) { FullStays(cfg.shape, full[k], t, u); }
  }

  lemma TwinsAnswerAlike(cfg: Config, m: Buckets, full: Buckets, e: Event)
    requires Sane(cfg.shape) && e.Allow? && Twins(cfg, m, full, e.at)
    ensures Apply(cfg, m, e).1 == Apply(cfg, full, e).1
    ensures Twins(cfg, Apply(cfg, m, e).0, Apply(cfg, full, e).0, e.at)
  {
    FreshIsFull(cfg.shape, e.at);
    if e.key in m { AlikeStays(cfg.shape, m[e.key], full[e.key], e.at, e.at); }
  }

  lemma CleanedTwin(cfg: Config, m: Buckets, full: Buckets, now: real)
    requires Sane(cfg.shape) && Twins(cfg, m, full, now) && Solvent(m, now)
    ensures Twins(cfg, Cleaned(cfg, m, now), full, now)
  {
    hide Level;
    forall k | k in m && k !in Cleaned(cfg, m, now) ensures FullAt(cfg.shape, full[k], now) {
      BrimfulIsFull(cfg.shape, m[k], now);
      AlikeStays(cfg.shape, m[k], full[k], now, now);
    }
  }

  lemma BrimfulIsFull(s: Shape, b: Bucket, now: real)
    requires Sane(s) && BucketOk(b, now) && b.tokens >= s.cap
    ensures FullAt(s, b, now)
  {
    hide Gain;
    GainNonNegative(s, now - b.last);
  }

  ghost function WithoutCleanups(es: seq<Event>): seq<Event> {
    if es == [] then [] else
      WithoutCleanups(es[..|es| - 1]) + (if es[|es| - 1].Allow? then [es[|es| - 1]] else [])
  }

  lemma {:induction false} CleanupLeavesTwins(cfg: Config, es: seq<Event>, from: real, to: real)
    requires Sane(cfg.shape) && Timed(es, from) && from <= to
    requires forall i :: 0 <= i < |es| ==> es[i].at <= to
    ensures Solvent(Run(cfg, map[], es), to)
    ensures Twins(cfg, Run(cfg, map[], es), Run(cfg, map[], WithoutCleanups(es)), to)
  {
    if es != [] {
      hide Solvent, Twins, Apply;
      var init, e := es[..|es| - 1], es[|es| - 1];
      CleanupLeavesTwins(cfg, init, from, e.at);
      RunStaysSolvent(cfg, es, from, to);
      var m, full := Run(cfg, map[], init), Run(cfg, map[], WithoutCleanups(init));
      if e.Allow? {
        TwinsAnswerAlike(cfg, m, full, e);
        assert (WithoutCleanups(init) + [e])[..|WithoutCleanups(init)|] == WithoutCleanups(init);
        TwinsStay(cfg, Apply(cfg, m, e).0, Apply(cfg, full, e).0, e.at, to);
      } else {
        ApplyCleanup(cfg, m, e);
        CleanedTwin(cfg, m, full, e.at);
        assert WithoutCleanups(es) == WithoutCleanups(init);
        TwinsStay(cfg, Cleaned(cfg, m, e.at), full, e.at, to);
      }
    } else {
      NoTwins(cfg, to);
    }
  }

  lemma NoTwins(cfg: Config, t: real)
    ensures Twins(cfg, map[], map[], t) && Solvent(map[], t)
  {
  }

  lemma ApplyCleanup(cfg: Config, m: Buckets, e: Event)
    requires e.Cleanup?
    ensures Apply(cfg, m, e).0 == Cleaned(cfg, m, e.at)
  {
  }

  lemma RunStaysSolvent(cfg: Config, es: seq<Event>, from: real, to: real)
    requires Sane(cfg.shape) && Timed(es, from) && from <= to
    requires forall i :: 0 <= i < |es| ==> es[i].at <= to
    ensures Solvent(Run(cfg, map[], es), to)
  {
    RunSpends(cfg, map[], es, "", from, to);
  }

  /** Cleaning up never changes the answer to any later request. */
  lemma CleanupIsInvisible(cfg: Config, es: seq<Event>, from: real, e: Event)
    requires Sane(cfg.shape) && Timed(es + [e], from) && e.Allow?
    ensures Apply(cfg, Run(cfg, map[], es), e).1 == Apply(cfg, Run(cfg, map[], WithoutCleanups(es)), e).1
  {
    hide Run, Apply, WithoutCleanups, Twins;
    assert (es + [e])[|es|] == e;
    assert forall i :: 0 <= i < |es| ==> (es + [e])[i] == es[i];
    CleanupLeavesTwins(cfg, es, from, e.at);
    TwinsAnswerAlike(cfg, Run(cfg, map[], es), Run(cfg, map[], WithoutCleanups(es)), e);
  }
}

/** The per-peer limiter of the p2p package. */
module PeerLimiter {
  import opened Wrappers
  import opened TokenBuckets

  type PeerId = string
  type Stream = string

  /** Messages per second by stream, burst, bytes per second (0: unlimited). */
  datatype Limits = Limits(rates: map<Stream, real>, burst: int, bytesPerSecond: int)

  datatype Limiter = Limiter(buckets: map<Stream, Bucket>, byteBucket: Option<Bucket>, lastActivity: real)

  datatype Event =
    | AllowN(peer: PeerId, stream: Stream, n: int, size: int, at: real)
    | CleanupIdle(at: real)

  type Peers = map<PeerId, Limiter>

  function Capacity(burst: int): real {
    if burst < 1 then 1.0 else burst as real
  }

  function StreamShape(l: Limits, stream: Stream): Shape
    requires stream in l.rates
  {
    Shape(l.rates[stream], Capacity(l.burst))
  }

  function ByteShape(l: Limits): Shape {
    Shape(l.bytesPerSecond as real, Capacity(l.bytesPerSecond))
  }

  ghost predicate SaneLimits(l: Limits) {
    forall s :: s in l.rates ==> l.rates[s] >= 0.0
  }

  function NewLimiter(l: Limits, now: real): Limiter {
    Limiter(map s | s in l.rates :: Fresh(StreamShape(l, s), now),
            if l.bytesPerSecond > 0 then Some(Fresh(ByteShape(l), now)) else None, now)
  }

  function Check(l: Limits, p: Limiter, stream: Stream, n: int, size: int, now: real): (Limiter, bool)
    requires p.buckets.Keys == l.rates.Keys
  {
    var active := p.(lastActivity := now);
    if stream !in p.buckets then CheckBytes(l, active, size, now) else
      var (b, ok) := Take(StreamShape(l, stream), p.buckets[stream], n as real, now);
      var charged := active.(buckets := p.buckets[stream := b]);
      if ok then CheckBytes(l, charged, size, now) else (charged, false)
  }

  function CheckBytes(l: Limits, p: Limiter, size: int, now: real): (Limiter, bool) {
    if p.byteBucket.None? || size <= 0 then (p, true) else
      var (b, ok) := Take(ByteShape(l), p.byteBucket.value, size as real, now);
      (p.(byteBucket := Some(b)), ok)
  }

  /** A message passes exactly when its stream, if limited, has a token for it
      and the bytes, if limited, suffice. A stream that refuses costs no bytes,
      but bytes that refuse still cost the stream its tokens. */
  lemma CheckExactly(l: Limits, p: Limiter, stream: Stream, n: int, size: int, now: real)
    requires p.buckets.Keys == l.rates.Keys
    ensures var (q, ok) := Check(l, p, stream, n, size, now);
      var streamOk := stream in l.rates ==> Level(StreamShape(l, stream), p.buckets[stream], now) >= n as real;
      var bytesOk := p.byteBucket.Some? && size > 0 ==> Level(ByteShape(l), p.byteBucket.value, now) >= size as real;
      && (ok <==> streamOk && bytesOk) && q.lastActivity == now && q.buckets.Keys == p.buckets.Keys
      && (!streamOk ==> q.byteBucket == p.byteBucket)
      && (stream in l.rates && streamOk ==>
            q.buckets[stream] == Bucket(Level(StreamShape(l, stream), p.buckets[stream], now) - n as real, now))
      && (forall s :: s in l.rates && s != stream ==> q.buckets[s] == p.buckets[s])
  {
    hide Level;
  }

  ghost predicate Shaped(l: Limits, p: Limiter) {
    p.buckets.Keys == l.rates.Keys && (p.byteBucket.Some? <==> l.bytesPerSecond > 0)
  }

  ghost predicate AllShaped(l: Limits, m: Peers) {
    forall p :: p in m ==> Shaped(l, m[p])
  }

  function LimiterOf(l: Limits, m: Peers, p: PeerId, now: real): Limiter {
    if p in m then m[p] else NewLimiter(l, now)
  }

  function Idle(p: Limiter, timeout: real, now: real): bool {
    now - p.lastActivity > timeout
  }

  function Apply(l: Limits, timeout: real, m: Peers, e: Event): (Peers, bool)
    requires AllShaped(l, m)
  {
    match e
    case AllowN(peer, stream, n, size, at) =>
      var (p, ok) := Check(l, LimiterOf(l, m, peer, at), stream, n, size, at);
      (m[peer := p], ok)
    case CleanupIdle(at) => (map p | p in m && !Idle(m[p], timeout, at) :: m[p], false)
  }

  lemma ApplyShaped(l: Limits, timeout: real, m: Peers, e: Event)
    requires AllShaped(l, m)
    ensures AllShaped(l, Apply(l, timeout, m, e).0)
  {
  }

  ghost function Run(l: Limits, timeout: real, es: seq<Event>): (m: Peers)
    ensures AllShaped(l, m)
  {
    if es == [] then map[] else
      var before := Run(l, timeout, es[..|es| - 1]);
      ApplyShaped(l, timeout, before, es[|es| - 1]);
      Apply(l, timeout, before, es[|es| - 1]).0
  }

  ghost predicate Timed(es: seq<Event>, from: real) {
    && (forall i :: 0 <= i < |es| ==> from <= es[i].at)
    && forall i, j :: 0 <= i < j < |es| ==> es[i].at <= es[j].at
  }

  ghost function WithoutCleanups(es: seq<Event>): seq<Event> {
    if es == [] then [] else
      WithoutCleanups(es[..|es| - 1]) + (if es[|es| - 1].AllowN? then [es[|es| - 1]] else [])
  }

  /** After every run, cleaning up has not changed the answer to the next request. */
  ghost predicate CleanupIsInvisible(l: Limits, timeout: real) {
    forall es, e, from :: Timed(es + [e], from) && e.AllowN? ==> SameAnswer(l, timeout, es, e)
  }

  ghost predicate SameAnswer(l: Limits, timeout: real, es: seq<Event>, e: Event) {
    Apply(l, timeout, Run(l, timeout, es), e).1 == Apply(l, timeout, Run(l, timeout, WithoutCleanups(es)), e).1
  }

  /** Every bucket of the configuration refills completely within the timeout. */
  ghost predicate RefillsInTime(l: Limits, timeout: real) {
    && (forall s :: s in l.rates ==> Gain(StreamShape(l, s), timeout) >= Capacity(l.burst))
    && (l.bytesPerSecond > 0 ==> Gain(ByteShape(l), timeout) >= Capacity(l.bytesPerSecond))
  }

  // ----- sufficient

  ghost predicate LimiterOk(p: Limiter, now: real) {
    && p.lastActivity <= now
    && (forall s :: s in p.buckets ==> BucketOk(p.buckets[s], p.lastActivity))
    && (p.byteBucket.Some? ==> BucketOk(p.byteBucket.value, p.lastActivity))
  }

  /** p and q answer alike from t on. */
  ghost predicate AlikeLimiters(l: Limits, p: Limiter, q: Limiter, t: real)
    requires Shaped(l, p) && Shaped(l, q)
  {
    && p.lastActivity == q.lastActivity
    && (forall s :: s in l.rates ==> Alike(StreamShape(l, s), p.buckets[s], q.buckets[s], t))
    && (l.bytesPerSecond > 0 ==> Alike(ByteShape(l), p.byteBucket.value, q.byteBucket.value, t))
  }

  ghost predicate FullLimiter(l: Limits, q: Limiter, t: real)
    requires Shaped(l, q)
  {
    && (forall s :: s in l.rates ==> FullAt(StreamShape(l, s), q.buckets[s], t))
    && (l.bytesPerSecond > 0 ==> FullAt(ByteShape(l), q.byteBucket.value, t))
  }

  ghost predicate Twins(l: Limits, m: Peers, full: Peers, t: real) {
    && AllShaped(l, m) && AllShaped(l, full)
    && (forall p :: p in full ==> LimiterOk(full[p], t))
    && (forall p :: p in m ==> p in full && AlikeLimiters(l, m[p], full[p], t))
    && (forall p :: p in full && p !in m ==> FullLimiter(l, full[p], t))
  }

  lemma IdleIsFull(s: Shape, b: Bucket, since: real, now: real, timeout: real)
    requires Sane(s) && BucketOk(b, since) && now - since > timeout && Gain(s, timeout) >= s.cap && timeout >= 0.0
    ensures FullAt(s, b, now)
  {
    hide Gain;
    GainNonNegative(s, now - b.last - timeout);
    GainAdds(s, b.last, b.last + timeout, now);
    assert b.last + timeout - b.last == timeout && now - (b.last + timeout) == now - b.last - timeout;
  }

  lemma IdleLimiterIsFull(l: Limits, q: Limiter, timeout: real, now: real)
    requires SaneLimits(l) && RefillsInTime(l, timeout) && timeout >= 0.0
    requires Shaped(l, q) && LimiterOk(q, now) && Idle(q, timeout, now)
    ensures FullLimiter(l, q, now)
  {
    forall s | s in l.rates ensures FullAt(StreamShape(l, s), q.buckets[s], now) {
      IdleIsFull(StreamShape(l, s), q.buckets[s], q.lastActivity, now, timeout);
    }
    if l.bytesPerSecond > 0 { IdleIsFull(ByteShape(l), q.byteBucket.value, q.lastActivity, now, timeout); }
  }

  lemma TakeAlike(s: Shape, b: Bucket, c: Bucket, n: real, now: real)
    requires Sane(s) && Alike(s, b, c, now) && BucketOk(c, now)
    ensures Take(s, b, n, now) == Take(s, c, n, now)
    ensures BucketOk(Take(s, c, n, now).0, now)
  {
    AlikeStays(s, b, c, now, now);
    LevelNonNegative(s, c, now);
  }

  lemma CheckAlike(l: Limits, p: Limiter, q: Limiter, stream: Stream, n: int, size: int, now: real)
    requires SaneLimits(l) && Shaped(l, p) && Shaped(l, q) && AlikeLimiters(l, p.(lastActivity := now), q.(lastActivity := now), now)
    requires LimiterOk(q.(lastActivity := now), now)
    ensures Check(l, p, stream, n, size, now).1 == Check(l, q, stream, n, size, now).1
    ensures Shaped(l, Check(l, p, stream, n, size, now).0) && Shaped(l, Check(l, q, stream, n, size, now).0)
    ensures AlikeLimiters(l, Check(l, p, stream, n, size, now).0, Check(l, q, stream, n, size, now).0, now)
    ensures LimiterOk(Check(l, q, stream, n, size, now).0, now)
  {
    hide Take, Alike;
    if stream in l.rates { TakeAlike(StreamShape(l, stream), p.buckets[stream], q.buckets[stream], n as real, now); }
    if l.bytesPerSecond > 0 { TakeAlike(ByteShape(l), p.byteBucket.value, q.byteBucket.value, size as real, now); }
    AlikeToItself();
  }

  lemma AlikeToItself()
    ensures forall s: Shape, b: Bucket, t: real :: Alike(s, b, b, t)
  {
  }

  lemma AlikeLimitersStay(l: Limits, p: Limiter, q: Limiter, t: real, u: real)
    requires SaneLimits(l) && Shaped(l, p) && Shaped(l, q) && AlikeLimiters(l, p, q, t) && t <= u
    ensures AlikeLimiters(l, p, q, u)
  {
    hide Alike;
    forall s | s in l.rates ensures Alike(StreamShape(l, s), p.buckets[s], q.buckets[s], u) {
      AlikeStays(StreamShape(l, s), p.buckets[s], q.buckets[s], t, u);
    }
    if l.bytesPerSecond > 0 { AlikeStays(ByteShape(l), p.byteBucket.value, q.byteBucket.value, t, u); }
  }

  lemma FullLimiterStays(l: Limits, q: Limiter, t: real, u: real)
    requires SaneLimits(l) && Shaped(l, q) && FullLimiter(l, q, t) && t <= u
    ensures FullLimiter(l, q, u)
  {
    hide FullAt;
    forall s | s in l.rates ensures FullAt(StreamShape(l, s), q.buckets[s], u) {
      FullStays(StreamShape(l, s), q.buckets[s], t, u);
    }
    if l.bytesPerSecond > 0 { FullStays(ByteShape(l), q.byteBucket.value, t, u); }
  }

  lemma TwinsStay(l: Limits, m: Peers, full: Peers, t: real, u: real)
    requires SaneLimits(l) && Twins(l, m, full, t) && t <= u
    ensures Twins(l, m, full, u)
  {
    hide AlikeLimiters, FullLimiter, SaneLimits, Shaped;
    forall p | p in m ensures AlikeLimiters(l, m[p], full[p], u) { AlikeLimitersStay(l, m[p], full[p], t, u); }
    forall p | p in full && p !in m ensures FullLimiter(l, full[p], u) { FullLimiterStays(l, full[p], t, u); }
  }

  /** A full limiter and a new one answer alike. */
  lemma FullLikeNew(l: Limits, q: Limiter, now: real)
    requires Shaped(l, q) && FullLimiter(l, q, now)
    ensures Shaped(l, NewLimiter(l, now))
    ensures AlikeLimiters(l, NewLimiter(l, now), q.(lastActivity := now), now)
  {
    forall s | s in l.rates ensures FullAt(StreamShape(l, s), Fresh(StreamShape(l, s), now), now) { FreshIsFull(StreamShape(l, s), now); }
    FreshIsFull(ByteShape(l), now);
  }

  lemma NewLimiterOk(l: Limits, now: real)
    requires SaneLimits(l)
    ensures Shaped(l, NewLimiter(l, now)) && LimiterOk(NewLimiter(l, now), now)
    ensures AlikeLimiters(l, NewLimiter(l, now), NewLimiter(l, now), now)
  {
  }

  /** Before a request the two limiters of its peer are alike. */
  lemma TwinLimiters(l: Limits, m: Peers, full: Peers, peer: PeerId, now: real)
    requires SaneLimits(l) && Twins(l, m, full, now)
    ensures var p, q := LimiterOf(l, m, peer, now), LimiterOf(l, full, peer, now);
      && Shaped(l, p) && Shaped(l, q) && LimiterOk(q.(lastActivity := now), now)
      && AlikeLimiters(l, p.(lastActivity := now), q.(lastActivity := now), now)
  {
    hide FullLimiter, Alike, Sane, FullAt;
    NewLimiterOk(l, now);
    if peer in full && peer !in m { FullLikeNew(l, full[peer], now); }
  }

  lemma RequestTwins(l: Limits, timeout: real, m: Peers, full: Peers, e: Event)
    requires SaneLimits(l) && Twins(l, m, full, e.at) && e.AllowN?
    ensures Apply(l, timeout, m, e).1 == Apply(l, timeout, full, e).1
    ensures Twins(l, Apply(l, timeout, m, e).0, Apply(l, timeout, full, e).0, e.at)
  {
    hide Check, AlikeLimiters, FullLimiter, LimiterOk, SaneLimits, Shaped, LimiterOf;
    TwinLimiters(l, m, full, e.peer, e.at);
    ShapedKeys(l);
    CheckAlike(l, LimiterOf(l, m, e.peer, e.at), LimiterOf(l, full, e.peer, e.at), e.stream, e.n, e.size, e.at);
  }

  lemma ShapedKeys(l: Limits)
    ensures forall p :: Shaped(l, p) ==> p.buckets.Keys == l.rates.Keys
  {
  }

  lemma CleanupTwins(l: Limits, timeout: real, m: Peers, full: Peers, e: Event)
    requires SaneLimits(l) && RefillsInTime(l, timeout) && timeout >= 0.0 && Twins(l, m, full, e.at) && e.CleanupIdle?
    ensures Twins(l, Apply(l, timeout, m, e).0, full, e.at)
  {
    hide FullLimiter, SaneLimits, RefillsInTime, Shaped, LimiterOk;
    var kept := Apply(l, timeout, m, e).0;
    forall p | p in full && p !in kept ensures FullLimiter(l, full[p], e.at) {
      if p in m { IdleLimiterIsFull(l, full[p], timeout, e.at); }
    }
  }

  lemma {:induction false} RunTwins(l: Limits, timeout: real, es: seq<Event>, from: real, to: real)
    requires SaneLimits(l) && RefillsInTime(l, timeout) && timeout >= 0.0 && Timed(es, from) && from <= to
    requires forall i :: 0 <= i < |es| ==> es[i].at <= to
    ensures Twins(l, Run(l, timeout, es), Run(l, timeout, WithoutCleanups(es)), to)
  {
    hide Twins, Apply, SaneLimits, RefillsInTime, AllShaped;
    if es == [] {
      NoTwins(l, to);
    } else {
      var init, e := es[..|es| - 1], es[|es| - 1];
      RunTwins(l, timeout, init, from, e.at);
      var m, full := Run(l, timeout, init), Run(l, timeout, WithoutCleanups(init));
      if e.AllowN? {
        assert (WithoutCleanups(init) + [e])[..|WithoutCleanups(init)|] == WithoutCleanups(init);
        RequestTwins(l, timeout, m, full, e);
        TwinsStay(l, Apply(l, timeout, m, e).0, Apply(l, timeout, full, e).0, e.at, to);
      } else {
        assert WithoutCleanups(es) == WithoutCleanups(init);
        CleanupTwins(l, timeout, m, full, e);
        TwinsStay(l, Apply(l, timeout, m, e).0, full, e.at, to);
      }
    }
  }

  lemma NoTwins(l: Limits, t: real)
    ensures Twins(l, map[], map[], t)
  {
  }

  lemma RefillSuffices(l: Limits, timeout: real)
    requires SaneLimits(l) && timeout >= 0.0 && RefillsInTime(l, timeout)
    ensures CleanupIsInvisible(l, timeout)
  {
    hide Twins, Apply, SaneLimits, RefillsInTime, Run, WithoutCleanups;
    forall es, e, from | Timed(es + [e], from) && e.AllowN? ensures SameAnswer(l, timeout, es, e) {
      assert (es + [e])[|es|] == e;
      assert forall i :: 0 <= i < |es| ==> (es + [e])[i] == es[i];
      RunTwins(l, timeout, es, from, e.at);
      RequestTwins(l, timeout, Run(l, timeout, es), Run(l, timeout, WithoutCleanups(es)), e);
    }
  }

  // ----- necessary

  /** A moment after the timeout at which a drained bucket is still not full. */
  lemma TooEarly(s: Shape, timeout: real) returns (u: real)
    requires Sane(s) && timeout >= 0.0 && Gain(s, timeout) < s.cap
    ensures u > timeout && Gain(s, u) < s.cap
  {
    if s.rate == 0.0 {
      u := timeout + 1.0;
    } else {
      var slack := (s.cap - s.rate * timeout) / (2.0 * s.rate);
      Halving(s.rate, s.cap - s.rate * timeout);
      u := timeout + slack;
      assert s.rate * u == s.rate * timeout + s.rate * slack;
    }
  }

  lemma Halving(r: real, x: real)
    requires r > 0.0 && x > 0.0
    ensures x / (2.0 * r) > 0.0 && r * (x / (2.0 * r)) < x
  {
    var q := x / (2.0 * r);
    assert q * (2.0 * r) == x;
    assert r * q == x / 2.0;
  }

  /** Draining a bucket, and asking again before it is full. */
  lemma DrainedRefuses(s: Shape, u: real)
    requires Sane(s) && s.cap > 0.0 && u >= 0.0 && Gain(s, u) < s.cap
    ensures Take(s, Fresh(s, 0.0), s.cap, 0.0) == (Bucket(0.0, 0.0), true)
    ensures !Take(s, Bucket(0.0, 0.0), s.cap, u).1
    ensures Take(s, Fresh(s, u), s.cap, u).1
  {
    assert s.rate * (0.0 - 0.0) == 0.0 && s.rate * (u - u) == 0.0;
    assert s.rate * (u - 0.0) == s.rate * u;
  }

  lemma DrainRun(l: Limits, timeout: real, peer: PeerId, stream: Stream, n: int, size: int, u: real)
    requires u > timeout >= 0.0
    ensures var drain, again := AllowN(peer, stream, n, size, 0.0), AllowN(peer, stream, n, size, u);
      var p := Check(l, NewLimiter(l, 0.0), stream, n, size, 0.0).0;
      && Run(l, timeout, [drain]) == map[peer := p] && p.lastActivity == 0.0
      && Run(l, timeout, [drain, CleanupIdle(u)]) == map[]
      && WithoutCleanups([drain, CleanupIdle(u)]) == [drain]
      && Timed([drain, CleanupIdle(u)] + [again], 0.0)
  {
    var drain, clean := AllowN(peer, stream, n, size, 0.0), CleanupIdle(u);
    assert [drain, clean][..1] == [drain] && [drain][..0] == [];
    assert Run(l, timeout, []) == map[];
    assert Run(l, timeout, [drain]) == Apply(l, timeout, map[], drain).0;
    assert Run(l, timeout, [drain, clean]) == Apply(l, timeout, Run(l, timeout, [drain]), clean).0;
    assert WithoutCleanups([drain]) == [drain];
  }

  lemma StreamNeedsRefill(l: Limits, timeout: real, stream: Stream)
    requires SaneLimits(l) && timeout >= 0.0 && stream in l.rates && Gain(StreamShape(l, stream), timeout) < Capacity(l.burst)
    ensures !CleanupIsInvisible(l, timeout)
  {
    var s := StreamShape(l, stream);
    var n := if l.burst < 1 then 1 else l.burst;
    var u := TooEarly(s, timeout);
    DrainedRefuses(s, u);
    DrainRun(l, timeout, "", stream, n, 0, u);
    var es, e := [AllowN("", stream, n, 0, 0.0), CleanupIdle(u)], AllowN("", stream, n, 0, u);
    assert !SameAnswer(l, timeout, es, e);
  }

  lemma BytesNeedRefill(l: Limits, timeout: real)
    requires SaneLimits(l) && timeout >= 0.0 && l.bytesPerSecond > 0 && Gain(ByteShape(l), timeout) < Capacity(l.bytesPerSecond)
    ensures !CleanupIsInvisible(l, timeout)
  {
    var s, size := ByteShape(l), l.bytesPerSecond;
    var u := TooEarly(s, timeout);
    DrainedRefuses(s, u);
    var stream: Stream := "";
    if stream in l.rates { NothingTaken(StreamShape(l, stream), u); }
    DrainRun(l, timeout, "", stream, 0, size, u);
    var es, e := [AllowN("", stream, 0, size, 0.0), CleanupIdle(u)], AllowN("", stream, 0, size, u);
    assert !SameAnswer(l, timeout, es, e);
  }

  /** Asking for nothing is always granted. */
  lemma NothingTaken(s: Shape, u: real)
    requires Sane(s) && u >= 0.0
    ensures Take(s, Fresh(s, 0.0), 0.0, 0.0) == (Fresh(s, 0.0), true)
    ensures Take(s, Fresh(s, 0.0), 0.0, u).1 && Take(s, Fresh(s, u), 0.0, u).1
  {
    LevelNonNegative(s, Fresh(s, 0.0), 0.0);
    LevelNonNegative(s, Fresh(s, 0.0), u);
    LevelNonNegative(s, Fresh(s, u), u);
    FreshIsFull(s, 0.0);
  }

  /** Dropping idle peers goes unnoticed exactly when every bucket refills
      within the idle timeout. */
  lemma InvisibleExactly(l: Limits, timeout: real)
    requires SaneLimits(l) && timeout >= 0.0
    ensures CleanupIsInvisible(l, timeout) <==> RefillsInTime(l, timeout)
  {
    hide CleanupIsInvisible;
    if RefillsInTime(l, timeout) {
      RefillSuffices(l, timeout);
    } else if l.bytesPerSecond > 0 && Gain(ByteShape(l), timeout) < Capacity(l.bytesPerSecond) {
      BytesNeedRefill(l, timeout);
    } else {
      var s :| s in l.rates && Gain(StreamShape(l, s), timeout) < Capacity(l.burst);
      StreamNeedsRefill(l, timeout, s);
    }
  }

  // ----- the window bound

  /** What is rationed: the messages on one stream, or the bytes on all. */
  datatype Meter = Messages(stream: Stream) | AllBytes

  ghost predicate Metered(l: Limits, meter: Meter) {
    if meter.Messages? then meter.stream in l.rates else l.bytesPerSecond > 0
  }

  function MeterShape(l: Limits, meter: Meter): Shape
    requires Metered(l, meter)
  {
    if meter.Messages? then StreamShape(l, meter.stream) else ByteShape(l)
  }

  function MeterBucket(l: Limits, p: Limiter, meter: Meter): Bucket
    requires Metered(l, meter) && Shaped(l, p)
  {
    if meter.Messages? then p.buckets[meter.stream] else p.byteBucket.value
  }

  function Cost(e: Event, meter: Meter): int {
    if e.CleanupIdle? then 0
    else if meter.Messages? then if e.stream == meter.stream then e.n else 0
    else if e.size > 0 then e.size else 0
  }

  ghost function MeterLevel(l: Limits, m: Peers, peer: PeerId, meter: Meter, t: real): real
    requires AllShaped(l, m) && Metered(l, meter)
  {
    NewIsShaped(l, t);
    Level(MeterShape(l, meter), MeterBucket(l, LimiterOf(l, m, peer, t), meter), t)
  }

  lemma NewIsShaped(l: Limits, t: real)
    ensures Shaped(l, NewLimiter(l, t))
  {
  }

  ghost predicate Solvent(l: Limits, m: Peers, t: real) {
    AllShaped(l, m) && forall p :: p in m ==> LimiterOk(m[p], t)
  }

  /** What one answered request counts: its cost if it was let through. A
      negative number of messages gives back, let through or not. */
  function Counts(e: Event, peer: PeerId, meter: Meter, ok: bool): int {
    if e.AllowN? && e.peer == peer && (ok || Cost(e, meter) < 0) then Cost(e, meter) else 0
  }

  /** What a run lets through for a peer, from event k on. */
  ghost function Admitted(l: Limits, timeout: real, es: seq<Event>, k: nat, peer: PeerId, meter: Meter): int
    requires k <= |es|
    decreases |es|
  {
    if |es| == k then 0 else
      var e := es[|es| - 1];
      Admitted(l, timeout, es[..|es| - 1], k, peer, meter)
      + Counts(e, peer, meter, Apply(l, timeout, Run(l, timeout, es[..|es| - 1]), e).1)
  }

  lemma MeterSane(l: Limits, meter: Meter)
    requires SaneLimits(l) && Metered(l, meter)
    ensures Sane(MeterShape(l, meter)) && MeterShape(l, meter).cap >= 1.0
  {
  }

  /** A new peer starts with a full bucket. */
  lemma NewMeter(l: Limits, meter: Meter, t: real)
    requires Metered(l, meter)
    ensures Shaped(l, NewLimiter(l, t)) && MeterBucket(l, NewLimiter(l, t), meter) == Fresh(MeterShape(l, meter), t)
  {
  }

  lemma MeterLevelGrows(l: Limits, m: Peers, peer: PeerId, meter: Meter, t: real, u: real)
    requires SaneLimits(l) && AllShaped(l, m) && Metered(l, meter) && t <= u
    ensures MeterLevel(l, m, peer, meter, u) <= MeterLevel(l, m, peer, meter, t) + Gain(MeterShape(l, meter), u - t)
  {
    hide Level, Gain, NewLimiter, MeterShape, MeterBucket, SaneLimits;
    MeterSane(l, meter);
    var s := MeterShape(l, meter);
    NewMeter(l, meter, t);
    NewMeter(l, meter, u);
    FreshIsFull(s, t);
    FreshIsFull(s, u);
    GainNonNegative(s, u - t);
    if peer in m { LevelGrows(s, MeterBucket(l, m[peer], meter), t, u); }
  }

  lemma CheckSolvent(l: Limits, p: Limiter, e: Event)
    requires SaneLimits(l) && Shaped(l, p) && LimiterOk(p, e.at) && e.AllowN?
    ensures var q := Check(l, p, e.stream, e.n, e.size, e.at).0; Shaped(l, q) && LimiterOk(q, e.at)
  {
    hide Take;
    if e.stream in l.rates { TakeSpends(StreamShape(l, e.stream), p.buckets[e.stream], e.n as real, e.at); }
    if l.bytesPerSecond > 0 { TakeSpends(ByteShape(l), p.byteBucket.value, e.size as real, e.at); }
  }

  /** A negative request is always granted by its message bucket. */
  lemma NegativeIsGranted(s: Shape, b: Bucket, n: real, now: real)
    requires Sane(s) && BucketOk(b, now) && n < 0.0
    ensures Take(s, b, n, now).1
  {
    hide Level;
    LevelNonNegative(s, b, now);
  }

  /** What a request counts has left the bucket. */
  lemma CheckSpends(l: Limits, p: Limiter, e: Event, meter: Meter)
    requires SaneLimits(l) && Shaped(l, p) && LimiterOk(p, e.at) && e.AllowN? && Metered(l, meter)
    ensures var (q, ok) := Check(l, p, e.stream, e.n, e.size, e.at);
      && Shaped(l, q)
      && Level(MeterShape(l, meter), MeterBucket(l, q, meter), e.at)
         <= Level(MeterShape(l, meter), MeterBucket(l, p, meter), e.at) - Counts(e, e.peer, meter, ok) as real
  {
    hide Take, Level;
    if e.stream in l.rates {
      TakeSpends(StreamShape(l, e.stream), p.buckets[e.stream], e.n as real, e.at);
      if e.n < 0 { NegativeIsGranted(StreamShape(l, e.stream), p.buckets[e.stream], e.n as real, e.at); }
    }
    if l.bytesPerSecond > 0 { TakeSpends(ByteShape(l), p.byteBucket.value, e.size as real, e.at); }
  }

  lemma RequestSpends(l: Limits, timeout: real, m: Peers, e: Event, peer: PeerId, meter: Meter)
    requires SaneLimits(l) && Solvent(l, m, e.at) && Metered(l, meter) && e.AllowN?
    ensures var (m', ok) := Apply(l, timeout, m, e);
      && Solvent(l, m', e.at)
      && MeterLevel(l, m', peer, meter, e.at) <= MeterLevel(l, m, peer, meter, e.at) - Counts(e, peer, meter, ok) as real
  {
    hide Check, Level, LimiterOk, SaneLimits, Sane, Cost, MeterBucket, MeterShape;
    NewLimiterOk(l, e.at);
    CheckSolvent(l, LimiterOf(l, m, e.peer, e.at), e);
    CheckSpends(l, LimiterOf(l, m, e.peer, e.at), e, meter);
  }

  /** The bucket refills completely within the timeout. */
  ghost predicate Refills(l: Limits, timeout: real, meter: Meter)
    requires Metered(l, meter)
  {
    Gain(MeterShape(l, meter), timeout) >= MeterShape(l, meter).cap
  }

  lemma MeterBucketOk(l: Limits, p: Limiter, meter: Meter, t: real)
    requires Metered(l, meter) && Shaped(l, p) && LimiterOk(p, t)
    ensures BucketOk(MeterBucket(l, p, meter), p.lastActivity) && p.lastActivity <= t
  {
  }

  lemma CleanupSpends(l: Limits, timeout: real, m: Peers, e: Event, peer: PeerId, meter: Meter)
    requires SaneLimits(l) && Metered(l, meter) && Refills(l, timeout, meter) && timeout >= 0.0
    requires Solvent(l, m, e.at) && e.CleanupIdle?
    ensures var m' := Apply(l, timeout, m, e).0;
      Solvent(l, m', e.at) && MeterLevel(l, m', peer, meter, e.at) == MeterLevel(l, m, peer, meter, e.at)
  {
    hide Level, Gain, MeterShape, MeterBucket, LimiterOk, SaneLimits, NewLimiter;
    MeterSane(l, meter);
    NewMeter(l, meter, e.at);
    FreshIsFull(MeterShape(l, meter), e.at);
    if peer in m && Idle(m[peer], timeout, e.at) {
      MeterBucketOk(l, m[peer], meter, e.at);
      IdleIsFull(MeterShape(l, meter), MeterBucket(l, m[peer], meter), m[peer].lastActivity, e.at, timeout);
    }
  }

  lemma SolventStays(l: Limits, m: Peers, t: real, u: real)
    requires Solvent(l, m, t) && t <= u
    ensures Solvent(l, m, u)
  {
  }

  lemma MeterLevelInRange(l: Limits, m: Peers, peer: PeerId, meter: Meter, t: real)
    requires SaneLimits(l) && Solvent(l, m, t) && Metered(l, meter)
    ensures 0.0 <= MeterLevel(l, m, peer, meter, t) <= MeterShape(l, meter).cap
  {
    hide Level, MeterShape, MeterBucket, SaneLimits, LimiterOk;
    MeterSane(l, meter);
    NewLimiterOk(l, t);
    var p := LimiterOf(l, m, peer, t);
    MeterBucketOk(l, p, meter, t);
    LevelNonNegative(MeterShape(l, meter), MeterBucket(l, p, meter), t);
  }

  lemma {:induction false} RunSolvent(l: Limits, timeout: real, es: seq<Event>, from: real, to: real)
    requires SaneLimits(l) && Timed(es, from) && from <= to
    requires forall i :: 0 <= i < |es| ==> es[i].at <= to
    ensures Solvent(l, Run(l, timeout, es), to)
  {
    hide Solvent, Apply, SaneLimits, AllShaped;
    if es == [] {
      EmptySolvent(l, to);
    } else {
      var init, e := es[..|es| - 1], es[|es| - 1];
      RunSolvent(l, timeout, init, from, e.at);
      StepSolvent(l, timeout, Run(l, timeout, init), e);
      SolventStays(l, Apply(l, timeout, Run(l, timeout, init), e).0, e.at, to);
    }
  }

  lemma EmptySolvent(l: Limits, t: real)
    ensures Solvent(l, map[], t)
  {
  }

  lemma StepSolvent(l: Limits, timeout: real, m: Peers, e: Event)
    requires SaneLimits(l) && Solvent(l, m, e.at)
    ensures Solvent(l, Apply(l, timeout, m, e).0, e.at)
  {
    hide Check, LimiterOk, SaneLimits;
    if e.AllowN? {
      NewLimiterOk(l, e.at);
      CheckSolvent(l, LimiterOf(l, m, e.peer, e.at), e);
    }
  }

  lemma {:induction false} RunSpends(l: Limits, timeout: real, es: seq<Event>, k: nat, peer: PeerId, meter: Meter,
                                     from: real, s: real, to: real)
    requires SaneLimits(l) && Metered(l, meter) && Refills(l, timeout, meter) && timeout >= 0.0
    requires Timed(es, from) && k <= |es| && from <= s <= to
    requires forall i :: 0 <= i < k ==> es[i].at <= s
    requires forall i :: k <= i < |es| ==> s <= es[i].at <= to
    ensures Solvent(l, Run(l, timeout, es), to)
    ensures Admitted(l, timeout, es, k, peer, meter) as real + MeterLevel(l, Run(l, timeout, es), peer, meter, to)
      <= MeterShape(l, meter).cap + Gain(MeterShape(l, meter), to - s)
    decreases |es|
  {
    hide Solvent, Apply, SaneLimits, Refills, AllShaped, MeterLevel, Gain, MeterShape, Metered, Cost;
    RunSolvent(l, timeout, es, from, to);
    if |es| == k {
      RunSolvent(l, timeout, es, from, s);
      MeterLevelInRange(l, Run(l, timeout, es), peer, meter, s);
      MeterLevelGrows(l, Run(l, timeout, es), peer, meter, s, to);
    } else {
      var init, e := es[..|es| - 1], es[|es| - 1];
      RunSpends(l, timeout, init, k, peer, meter, from, s, e.at);
      var m := Run(l, timeout, init);
      if e.AllowN? {
        RequestSpends(l, timeout, m, e, peer, meter);
      } else {
        CleanupSpends(l, timeout, m, e, peer, meter);
      }
      MeterLevelGrows(l, Apply(l, timeout, m, e).0, peer, meter, e.at, to);
      GainAdds(MeterShape(l, meter), s, e.at, to);
    }
  }

  /** The events from i on fall into the d seconds after s, the others before. */
  ghost predicate InWindow(es: seq<Event>, i: nat, s: real, d: real) {
    && i < |es| && Timed(es, es[0].at) && d >= 0.0
    && (forall k :: i <= k < |es| ==> s <= es[k].at <= s + d)
    && (forall k :: 0 <= k < i ==> es[k].at <= s)
  }

  /** In every run and every window of d seconds, a peer gets at most the
      capacity plus what d refills through, idle cleanups included: messages on
      a stream, and bytes on all streams together. */
  lemma WindowBound(l: Limits, timeout: real, es: seq<Event>, i: nat, peer: PeerId, meter: Meter, s: real, d: real)
    requires SaneLimits(l) && Metered(l, meter) && Refills(l, timeout, meter) && timeout >= 0.0
    requires InWindow(es, i, s, d)
    ensures Admitted(l, timeout, es, i, peer, meter) as real <= MeterShape(l, meter).cap + Gain(MeterShape(l, meter), d)
  {
    hide SaneLimits, Refills, Admitted, Run, MeterLevel, Solvent, Gain, MeterShape, Metered;
    var from := if i > 0 then es[0].at else s;
    RunSpends(l, timeout, es, i, peer, meter, from, s, s + d);
    MeterLevelInRange(l, Run(l, timeout, es), peer, meter, s + d);
    SpanGain(MeterShape(l, meter), s, d);
  }

  /** In figures: burst (at least 1) plus rate times d messages, and
      bytesPerSecond plus bytesPerSecond times d bytes. */
  lemma WindowFigures(l: Limits, meter: Meter, d: real)
    requires Metered(l, meter)
    ensures MeterShape(l, meter).cap + Gain(MeterShape(l, meter), d) ==
      if meter.Messages? then Capacity(l.burst) + l.rates[meter.stream] * d
      else l.bytesPerSecond as real + l.bytesPerSecond as real * d
  {
  }

  ghost predicate WindowHolds(l: Limits, timeout: real, es: seq<Event>, i: nat, peer: PeerId, meter: Meter, d: real)
    requires Metered(l, meter) && i <= |es|
  {
    Admitted(l, timeout, es, i, peer, meter) as real <= MeterShape(l, meter).cap + Gain(MeterShape(l, meter), d)
  }

  ghost predicate WindowBounded(l: Limits, timeout: real, meter: Meter)
    requires Metered(l, meter)
  {
    forall es, i: nat, peer, s, d :: InWindow(es, i, s, d) ==> WindowHolds(l, timeout, es, i, peer, meter, d)
  }

  /** The window bound holds exactly when the bucket refills within the idle
      timeout: otherwise draining it, waiting to be dropped and draining it
      again gets more through. */
  lemma WindowBoundExactly(l: Limits, timeout: real, meter: Meter)
    requires SaneLimits(l) && timeout >= 0.0 && Metered(l, meter)
    ensures WindowBounded(l, timeout, meter) <==> Refills(l, timeout, meter)
  {
    hide Admitted, Gain, SaneLimits, MeterShape, Metered;
    if Refills(l, timeout, meter) {
      forall es, i: nat, peer, s, d | InWindow(es, i, s, d) ensures WindowHolds(l, timeout, es, i, peer, meter, d) {
        WindowBound(l, timeout, es, i, peer, meter, s, d);
      }
    } else {
      var es, u := TwiceDrained(l, timeout, meter);
      assert !WindowHolds(l, timeout, es, 0, "", meter, u);
    }
  }

  /** The request that takes the whole capacity of a meter. */
  function Draining(l: Limits, meter: Meter, t: real): Event {
    if meter.Messages? then AllowN("", meter.stream, if l.burst < 1 then 1 else l.burst, 0, t)
    else AllowN("", "", 0, l.bytesPerSecond, t)
  }

  lemma TwiceDrained(l: Limits, timeout: real, meter: Meter) returns (es: seq<Event>, u: real)
    requires SaneLimits(l) && timeout >= 0.0 && Metered(l, meter) && !Refills(l, timeout, meter)
    ensures InWindow(es, 0, 0.0, u)
    ensures Admitted(l, timeout, es, 0, "", meter) as real > MeterShape(l, meter).cap + Gain(MeterShape(l, meter), u)
  {
    hide Gain, Run, Apply;
    MeterSane(l, meter);
    u := TooEarly(MeterShape(l, meter), timeout);
    var drain, clean, again := Draining(l, meter, 0.0), CleanupIdle(u), Draining(l, meter, u);
    es := [drain, clean, again];
    DrainRun(l, timeout, "", drain.stream, drain.n, drain.size, u);
    EmptyRun(l, timeout);
    FreshGrants(l, timeout, meter, 0.0);
    FreshGrants(l, timeout, meter, u);
    assert es[..2] == [drain, clean] && [drain, clean][..1] == [drain] && [drain][..0] == [];
    assert Admitted(l, timeout, [], 0, "", meter) == 0;
    assert Admitted(l, timeout, [drain], 0, "", meter) == Cost(drain, meter);
    assert Admitted(l, timeout, [drain, clean], 0, "", meter) == Cost(drain, meter);
  }

  lemma EmptyRun(l: Limits, timeout: real)
    ensures Run(l, timeout, []) == map[]
  {
  }

  /** A new peer's first request for the whole capacity is granted. */
  lemma FreshGrants(l: Limits, timeout: real, meter: Meter, t: real)
    requires SaneLimits(l) && Metered(l, meter)
    ensures Apply(l, timeout, map[], Draining(l, meter, t)).1
  {
    hide Gain;
    if meter.Messages? { GainZero(StreamShape(l, meter.stream)); }
    if "" in l.rates { GainZero(StreamShape(l, "")); }
    if l.bytesPerSecond > 0 { GainZero(ByteShape(l)); }
  }

  // ----- the object

  class RateLimiter {
    const limits: Limits
    const peerIdleTimeout: real
    var peers: Peers

    constructor (limits: Limits, peerIdleTimeout: real)
      ensures this.limits == limits && this.peerIdleTimeout == peerIdleTimeout && peers == map[]
    {
      this.limits, this.peerIdleTimeout, peers := limits, peerIdleTimeout, map[];
    }

    method AllowMessages(peer: PeerId, stream: Stream, n: int, size: int, now: real) returns (ok: bool)
      requires AllShaped(limits, peers)
      modifies this
      ensures AllShaped(limits, peers)
      ensures (peers, ok) == Apply(limits, peerIdleTimeout, old(peers), AllowN(peer, stream, n, size, now))
    {
      ApplyShaped(limits, peerIdleTimeout, peers, AllowN(peer, stream, n, size, now));
      var p := if peer in peers then peers[peer] else NewLimiter(limits, now);
      p := p.(lastActivity := now);
      if stream in p.buckets {
        var (b, fits) := Take(StreamShape(limits, stream), p.buckets[stream], n as real, now);
        p := p.(buckets := p.buckets[stream := b]);
        if !fits {
          peers := peers[peer := p];
          return false;
        }
      }
      ok := true;
      if p.byteBucket.Some? && size > 0 {
        var (b, fits) := Take(ByteShape(limits), p.byteBucket.value, size as real, now);
        p := p.(byteBucket := Some(b));
        ok := fits;
      }
      peers := peers[peer := p];
    }

    method CleanupIdlePeers(now: real)
      requires AllShaped(limits, peers)
      modifies this
      ensures AllShaped(limits, peers)
      ensures peers == Apply(limits, peerIdleTimeout, old(peers), CleanupIdle(now)).0
    {
      var todo := peers.Keys;
      while todo != {}
        invariant todo <= old(peers).Keys
        invariant forall p :: p in peers <==> p in old(peers) && (p in todo || !Idle(old(peers)[p], peerIdleTimeout, now))
        invariant forall p :: p in peers ==> peers[p] == old(peers)[p]
        decreases |todo|
      {
        var p :| p in todo;
        todo := todo - {p};
        if now - peers[p].lastActivity > peerIdleTimeout { peers := peers - {p}; }
      }
    }
  }
}
