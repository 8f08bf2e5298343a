/** The fixed-window limiter (crates/api/src/ratelimit.rs). `now` is the clock reading of the call, in any
    unit; counts wrap at 32 bits, as the release build's do. */
module RateLimit {
  import opened Prelude

  const CAP: nat := 100_000
  const U32: nat := 0x1_0000_0000

  datatype Bucket = Bucket(start: int, count: nat)
  type Buckets = map<string, Bucket>

  /** `duration_since`, which is zero rather than negative. */
  function Since(now: int, start: int): nat {
    if now < start then 0 else now - start
  }

  predicate Expired(b: Bucket, now: int, window: nat) {
    Since(now, b.start) > window
  }

  /** The bucket a hit leaves. */
  function Hit(old_: Option<Bucket>, now: int, window: nat): Bucket {
    var b := if old_.None? || Expired(old_.value, now, window) then Bucket(now, 0) else old_.value;
    Bucket(b.start, (b.count + 1) % U32)
  }

  function BucketOf(m: Buckets, key: string): Option<Bucket> {
    if key in m then Some(m[key]) else None
  }

  function Evict(m: Buckets, now: int, window: nat): Buckets {
    map k | k in m && !Expired(m[k], now, window) :: m[k]
  }

  /** One call against a table that evicts above `cap` entries, if there is a cap. */
  function Call(m: Buckets, cap: Option<nat>, window: nat, key: string, now: int): Buckets {
    var m' := if cap.Some? && |m| > cap.value then Evict(m, now, window) else m;
    m'[key := Hit(BucketOf(m', key), now, window)]
  }

  class RateLimiter {
    var inner: Buckets
    const max: nat
    const window: nat

    constructor (max: nat, window: nat)
      ensures this.max == max && this.window == window && inner == map[]
    {
      this.max, this.window, inner := max, window, map[];
    }

    method Allow(key: string, now: int) returns (ok: bool)
      modifies this
      ensures inner == Call(old(inner), Some(CAP), window, key, now)
      ensures ok == (inner[key].count <= max)
    {
      if |inner| > CAP {
        inner := map k | k in inner && Since(now, inner[k].start) <= window :: inner[k];
      }
      if key !in inner {
        inner := inner[key := Bucket(now, 0)];
      }
      if Since(now, inner[key].start) > window {
        inner := inner[key := Bucket(now, 0)];
      }
      var b := inner[key];
      inner := inner[key := Bucket(b.start, (b.count + 1) % U32)];
      ok := inner[key].count <= max;
    }
  }

  // ---- sequences of calls ------------------------------------------------------------

  /** The calls made so far: keys and clock readings, oldest first. */
  datatype Arrival = Arrival(key: string, at: int)

  ghost predicate Ordered(calls: seq<Arrival>) {
    forall i, j | 0 <= i < j < |calls| :: calls[i].at <= calls[j].at
  }

  function Table(calls: seq<Arrival>, cap: Option<nat>, window: nat): Buckets {
    if calls == [] then map[]
    else
      var c := calls[|calls| - 1];
      Call(Table(calls[..|calls| - 1], cap, window), cap, window, c.key, c.at)
  }

  /** The answer to the last call. */
  predicate Allowed(calls: seq<Arrival>, cap: Option<nat>, max: nat, window: nat)
    requires calls != []
  {
    var m := Table(calls, cap, window);
    var key := calls[|calls| - 1].key;
    key in m && m[key].count <= max
  }

  // ---- eviction cannot be observed --------------------------------------------------------

  /** Same entries, except that the evicting table may lack some that have expired. */
  ghost predicate EqualUpToExpired(evicting: Buckets, keeping: Buckets, now: int, window: nat) {
    forall k :: BucketOf(evicting, k) == BucketOf(keeping, k)
      || (k !in evicting && k in keeping && Expired(keeping[k], now, window))
  }

  lemma CallKeepsEqual(evicting: Buckets, keeping: Buckets, cap: nat, window: nat, key: string, before: int, now: int)
    requires before <= now && EqualUpToExpired(evicting, keeping, before, window)
    ensures EqualUpToExpired(Call(evicting, Some(cap), window, key, now), Call(keeping, None, window, key, now), now, window)
    ensures Call(evicting, Some(cap), window, key, now)[key] == Call(keeping, None, window, key, now)[key]
  {
    var trimmed := if |evicting| > cap then Evict(evicting, now, window) else evicting;
    assert EqualUpToExpired(trimmed, keeping, now, window) by {
      forall k ensures BucketOf(trimmed, k) == BucketOf(keeping, k)
        || (k !in trimmed && k in keeping && Expired(keeping[k], now, window))
      {
        assert BucketOf(evicting, k) == BucketOf(keeping, k)
          || (k !in evicting && k in keeping && Expired(keeping[k], before, window));
      }
    }
    assert Hit(BucketOf(trimmed, key), now, window) == Hit(BucketOf(keeping, key), now, window) by {
      assert BucketOf(trimmed, key) == BucketOf(keeping, key)
        || (key !in trimmed && key in keeping && Expired(keeping[key], now, window));
    }
    var e, k' := Call(evicting, Some(cap), window, key, now), Call(keeping, None, window, key, now);
    forall k ensures BucketOf(e, k) == BucketOf(k', k) || (k !in e && k in k' && Expired(k'[k], now, window)) {
      assert BucketOf(trimmed, k) == BucketOf(keeping, k)
        || (k !in trimmed && k in keeping && Expired(keeping[k], now, window));
    }
  }

  lemma {:induction false} TablesStayEqual(calls: seq<Arrival>, cap: nat, window: nat)
    requires Ordered(calls) && calls != []
    ensures EqualUpToExpired(Table(calls, Some(cap), window), Table(calls, None, window), calls[|calls| - 1].at, window)
    ensures Table(calls, Some(cap), window)[calls[|calls| - 1].key] == Table(calls, None, window)[calls[|calls| - 1].key]
  {
    var n := |calls| - 1;
    var c := calls[n];
    var before := if n == 0 then c.at else calls[n - 1].at;
    if n > 0 {
      TablesStayEqual(calls[..n], cap, window);
    }
    CallKeepsEqual(Table(calls[..n], Some(cap), window), Table(calls[..n], None, window), cap, window, c.key, before, c.at);
  }

  /** For any cap, the limiter that evicts answers every call as the one that never does. */
  lemma EvictionIsInvisible(calls: seq<Arrival>, cap: nat, max: nat, window: nat)
    requires Ordered(calls) && calls != []
    ensures Allowed(calls, Some(cap), max, window) == Allowed(calls, None, max, window)
  {
    TablesStayEqual(calls, cap, window);
  }

  // ---- how many get through ------------------------------------------------------------------

  /** How many of the key's calls in [from, to] were allowed. */
  function Admitted(calls: seq<Arrival>, cap: Option<nat>, max: nat, window: nat, key: string, from: int, to: int): nat {
    if calls == [] then 0
    else
      var c := calls[|calls| - 1];
      Admitted(calls[..|calls| - 1], cap, max, window, key, from, to)
        + (if c.key == key && from <= c.at <= to && Allowed(calls, cap, max, window) then 1 else 0)
  }

  function Min(x: int, y: int): int { if x < y then x else y }

  /** What the current bucket says about the calls admitted in [from, to], `last` being the latest call. */
  ghost predicate Tally(b: Option<Bucket>, admitted: nat, max: nat, window: nat, from: int, to: int, last: int) {
    match b
    case None => admitted == 0
    case Some(b) =>
      && 0 < b.count
      && b.start <= last
      && (last < from ==> admitted == 0)
      && (b.start < from ==> admitted <= Min(b.count, max) - 1 || admitted == 0)
      && (from <= b.start ==>
            (admitted <= Min(b.count, max) || (0 < max && admitted <= max - 1 + Min(b.count, max))))
      && (window == 0 ==> admitted <= if b.start < from then 0 else Min(b.count, max))
  }

  /** The bound on [from, to]: one less than two windows' worth, or one instant's worth without a window. */
  function Ceiling(max: nat, window: nat): nat {
    if max == 0 then 0
    else if window == 0 then max
    else 2 * max - 1
  }

  /** Entries never outnumber the calls, so no count wraps while there are fewer than 2^32 calls. */
  lemma {:induction false} CountsWithinCalls(calls: seq<Arrival>, window: nat, key: string)
    requires |calls| < U32
    ensures var m := Table(calls, None, window); key in m ==> 0 < m[key].count <= |calls|
  {
    if calls != [] {
      CountsWithinCalls(calls[..|calls| - 1], window, key);
      CountsWithinCalls(calls[..|calls| - 1], window, calls[|calls| - 1].key);
    }
  }

  /** One hit of the key at a time within the interval's end. */
  lemma TallyAfterHit(b: Option<Bucket>, admitted: nat, max: nat, window: nat, from: int, to: int, last: int, now: int)
    requires Tally(b, admitted, max, window, from, to, last) && last <= now <= to && to - from <= window
    requires b.Some? ==> b.value.count + 1 < U32
    ensures var after := Hit(b, now, window);
      Tally(Some(after), admitted + (if from <= now && after.count <= max then 1 else 0), max, window, from, to, now)
  {}

  lemma TallyBelowCeiling(b: Option<Bucket>, admitted: nat, max: nat, window: nat, from: int, to: int, last: int)
    requires Tally(b, admitted, max, window, from, to, last)
    ensures admitted <= Ceiling(max, window)
  {}

  lemma {:induction false} TallyHolds(calls: seq<Arrival>, max: nat, window: nat, key: string, from: int, to: int)
    requires Ordered(calls) && |calls| < U32 && to - from <= window
    ensures Admitted(calls, None, max, window, key, from, to) <= Ceiling(max, window)
    ensures calls != [] && calls[|calls| - 1].at <= to ==>
      Tally(BucketOf(Table(calls, None, window), key), Admitted(calls, None, max, window, key, from, to), max, window, from, to,
            calls[|calls| - 1].at)
  {
    if calls != [] {
      var n := |calls| - 1;
      var c, earlier := calls[n], calls[..n];
      TallyHolds(earlier, max, window, key, from, to);
      CountsWithinCalls(earlier, window, key);
      if c.at <= to {
        var b := BucketOf(Table(earlier, None, window), key);
        var admitted := Admitted(earlier, None, max, window, key, from, to);
        var last := if n == 0 then c.at else earlier[n - 1].at;
        assert last <= c.at by { if n > 0 { assert calls[n - 1].at <= calls[n].at; } }
        assert Tally(b, admitted, max, window, from, to, last);
        if c.key == key {
          TallyAfterHit(b, admitted, max, window, from, to, last, c.at);
        }
        TallyBelowCeiling(BucketOf(Table(calls, None, window), key), Admitted(calls, None, max, window, key, from, to), max, window, from, to, c.at);
      }
    }
  }

  lemma {:induction false} EvictionAdmitsTheSame(calls: seq<Arrival>, cap: nat, max: nat, window: nat, key: string, from: int, to: int)
    requires Ordered(calls)
    ensures Admitted(calls, Some(cap), max, window, key, from, to) == Admitted(calls, None, max, window, key, from, to)
  {
    if calls != [] {
      EvictionAdmitsTheSame(calls[..|calls| - 1], cap, max, window, key, from, to);
      EvictionIsInvisible(calls, cap, max, window);
    }
  }

  /** In any stretch of time no longer than one window, fewer than twice `max` calls of a key get through. */
  lemma AdmittedBelowTwiceMax(calls: seq<Arrival>, max: nat, window: nat, key: string, from: int, to: int)
    requires Ordered(calls) && |calls| < U32 && to - from <= window
    ensures Admitted(calls, Some(CAP), max, window, key, from, to) <= Ceiling(max, window)
  {
    EvictionAdmitsTheSame(calls, CAP, max, window, key, from, to);
    TallyHolds(calls, max, window, key, from, to);
  }

  /** The hits of a key that fell into the window opened at `start`, and those of them that were allowed. */
  function HitsIn(calls: seq<Arrival>, window: nat, key: string, start: int): nat {
    if calls == [] then 0
    else
      HitsIn(calls[..|calls| - 1], window, key, start)
        + (if calls[|calls| - 1].key == key && BucketStart(calls, window, key) == Some(start) then 1 else 0)
  }

  function AllowedIn(calls: seq<Arrival>, max: nat, window: nat, key: string, start: int): nat {
    if calls == [] then 0
    else
      AllowedIn(calls[..|calls| - 1], max, window, key, start)
        + (if calls[|calls| - 1].key == key && BucketStart(calls, window, key) == Some(start)
              && Allowed(calls, None, max, window) then 1 else 0)
  }

  function BucketStart(calls: seq<Arrival>, window: nat, key: string): Option<int> {
    var b := BucketOf(Table(calls, None, window), key);
    if b.None? then None else Some(b.value.start)
  }

  /** What the counts of one window say about the bucket, `last` being the latest clock reading. */
  ghost predicate WindowHolds(b: Option<Bucket>, hits: nat, start: int, last: int) {
    match b
    case None => hits == 0
    case Some(b) =>
      && b.start <= last
      && (b.start < start ==> hits == 0)
      && (b.start == start ==> hits == b.count)
  }

  lemma WindowStep(b: Option<Bucket>, hits: nat, max: nat, window: nat, start: int, last: int, now: int)
    requires WindowHolds(b, hits, start, last) && (b.Some? ==> last <= now && b.value.count + 1 < U32)
    ensures var after := Hit(b, now, window);
      var hits' := hits + (if after.start == start then 1 else 0);
      && WindowHolds(Some(after), hits', start, now)
      && (after.start == start ==> after.count == hits')
  {}

  lemma LastCall(calls: seq<Arrival>, window: nat, key: string)
    requires calls != []
    ensures var c, earlier := calls[|calls| - 1], Table(calls[..|calls| - 1], None, window);
      BucketOf(Table(calls, None, window), key) ==
        if c.key == key then Some(Hit(BucketOf(earlier, key), c.at, window)) else BucketOf(earlier, key)
  {
    hide Hit;
  }

  /** Every window lets exactly its first `max` hits through. */
  lemma {:induction false} WindowAllowsFirstMax(calls: seq<Arrival>, max: nat, window: nat, key: string, start: int)
    requires Ordered(calls) && |calls| < U32
    ensures AllowedIn(calls, max, window, key, start) == Min(HitsIn(calls, window, key, start), max)
    ensures WindowHolds(BucketOf(Table(calls, None, window), key), HitsIn(calls, window, key, start), start,
                        if calls == [] then 0 else calls[|calls| - 1].at)
  {
    if calls != [] {
      var n := |calls| - 1;
      var earlier := calls[..n];
      var last := if n == 0 then 0 else earlier[n - 1].at;
      WindowAllowsFirstMax(earlier, max, window, key, start);
      CountsWithinCalls(earlier, window, key);
      LastCall(calls, window, key);
      var b := BucketOf(Table(earlier, None, window), key);
      assert b.Some? ==> n > 0 && last <= calls[n].at;
      WindowStep(b, HitsIn(earlier, window, key, start), max, window, start, last, calls[n].at);
      hide Table, Hit, Ordered;
    }
  }

  // ---- the bound is reached ---------------------------------------------------------------------

  function Hits(key: string, at: int, n: nat): seq<Arrival> {
    seq(n, _ => Arrival(key, at))
  }

  lemma OneMore(calls: seq<Arrival>, c: Arrival, max: nat, window: nat, from: int, to: int)
    requires from <= c.at <= to
    ensures var b := Hit(BucketOf(Table(calls, None, window), c.key), c.at, window);
      && BucketOf(Table(calls + [c], None, window), c.key) == Some(b)
      && Admitted(calls + [c], None, max, window, c.key, from, to)
         == Admitted(calls, None, max, window, c.key, from, to) + (if b.count <= max then 1 else 0)
  {
    assert (calls + [c])[..|calls|] == calls;
    LastCall(calls + [c], window, c.key);
    hide Hit;
  }

  /** A burst at one instant into a bucket with room for it: every hit gets through. */
  lemma {:induction false} BurstGetsThrough(calls: seq<Arrival>, key: string, at: int, n: nat, b: Bucket, max: nat, window: nat, from: int, to: int)
    requires n > 0 && from <= at <= to && max < U32
    requires b == Hit(BucketOf(Table(calls, None, window), key), at, window)
    requires b.start <= at <= b.start + window && b.count + n - 1 <= max
    ensures BucketOf(Table(calls + Hits(key, at, n), None, window), key) == Some(Bucket(b.start, b.count + n - 1))
    ensures Admitted(calls + Hits(key, at, n), None, max, window, key, from, to)
      == Admitted(calls, None, max, window, key, from, to) + n
  {
    hide Table, Admitted, BucketOf;
    var c := Arrival(key, at);
    if n == 1 {
      assert Hits(key, at, 1) == [c];
      OneMore(calls, c, max, window, from, to);
    } else {
      BurstGetsThrough(calls, key, at, n - 1, b, max, window, from, to);
      OneMore(calls + Hits(key, at, n - 1), c, max, window, from, to);
      assert calls + Hits(key, at, n) == calls + Hits(key, at, n - 1) + [c];
    }
  }

  lemma FirstHit(key: string, max: nat, window: nat, from: int, to: int)
    requires from > 0
    ensures BucketOf(Table([Arrival(key, 0)], None, window), key) == Some(Bucket(0, 1))
    ensures Admitted([Arrival(key, 0)], None, max, window, key, from, to) == 0
  {
    assert [Arrival(key, 0)][..0] == [];
  }

  /** The calls that fill two windows at their seam: one hit opens the first window, the rest of its hits
      come as it ends, and the next window's come one unit later. */
  function Seam(key: string, max: nat, window: nat): seq<Arrival>
    requires max > 0
  {
    if window == 0 then Hits(key, 0, max)
    else [Arrival(key, 0)] + Hits(key, window, max - 1) + Hits(key, window + 1, max)
  }

  lemma SeamIsOrdered(key: string, max: nat, window: nat)
    requires max > 0
    ensures Ordered(Seam(key, max, window))
  {}

  /** The bound is reached by every limiter, in a stretch of one unit (of none, without a window). */
  lemma {:induction false} CeilingIsReached(key: string, max: nat, window: nat)
    requires 0 < max < U32
    ensures Ordered(Seam(key, max, window))
    ensures Admitted(Seam(key, max, window), Some(CAP), max, window, key, window, if window == 0 then 0 else window + 1)
      == Ceiling(max, window)
  {
    hide Table, Admitted, Ordered;
    SeamIsOrdered(key, max, window);
    EvictionAdmitsTheSame(Seam(key, max, window), CAP, max, window, key, window, if window == 0 then 0 else window + 1);
    if window == 0 {
      NothingYet(max, key);
      BurstGetsThrough([], key, 0, max, Bucket(0, 1), max, 0, 0, 0);
      assert [] + Hits(key, 0, max) == Hits(key, 0, max);
    } else {
      var first := [Arrival(key, 0)];
      var full := first + Hits(key, window, max - 1);
      FirstHit(key, max, window, window, window + 1);
      if max > 1 {
        BurstGetsThrough(first, key, window, max - 1, Bucket(0, 2), max, window, window, window + 1);
      } else {
        assert full == first;
      }
      BurstGetsThrough(full, key, window + 1, max, Bucket(window + 1, 1), max, window, window, window + 1);
    }
  }

  lemma NothingYet(max: nat, key: string)
    ensures Table([], None, 0) == map[] && Admitted([], None, max, 0, key, 0, 0) == 0
  {}
}
