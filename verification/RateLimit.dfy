/** The fixed-window rate limiter: how many hits any minute can admit, and that forgetting expired
    buckets is invisible. Clock readings are in nanoseconds and do not run backwards from one check to
    the next. */
module RateLimit {
  import opened Wrappers

  type Key = nat

  datatype Bucket = Bucket(windowStart: nat, count: nat)

  const WINDOW: nat := 60_000_000_000
  const MAX_BUCKETS: nat := 10_000

  datatype Call = Call(now: nat, key: Key)

  predicate Expired(b: Bucket, now: nat) { now >= b.windowStart + WINDOW }

  // ---- One check ------------------------------------------------------------------------------------

  function Evict(buckets: map<Key, Bucket>, now: nat): map<Key, Bucket> {
    map k | k in buckets && !Expired(buckets[k], now) :: buckets[k]
  }

  /** The bucket a check works on: a fresh one when there is none or its window is over. */
  function Current(buckets: map<Key, Bucket>, c: Call): Bucket {
    if c.key in buckets && !Expired(buckets[c.key], c.now) then buckets[c.key] else Bucket(c.now, 0)
  }

  predicate Allows(limit: nat, buckets: map<Key, Bucket>, c: Call) {
    limit == 0 || Current(buckets, c).count < limit
  }

  /** The buckets afterwards, for a limiter that never forgets. */
  function Hit(limit: nat, buckets: map<Key, Bucket>, c: Call): map<Key, Bucket> {
    if limit == 0 then buckets
    else
      var b := Current(buckets, c);
      buckets[c.key := if b.count < limit then b.(count := b.count + 1) else b]
  }

  function Kept(limit: nat, buckets: map<Key, Bucket>, now: nat): map<Key, Bucket> {
    if limit > 0 && |buckets| > MAX_BUCKETS then Evict(buckets, now) else buckets
  }

  // ---- Runs -----------------------------------------------------------------------------------------

  predicate Ordered(from: nat, calls: seq<Call>)
    decreases |calls|
  {
    calls == [] || (from <= calls[0].now && Ordered(calls[0].now, calls[1..]))
  }

  /** The decisions of the limiter, which forgets expired buckets when it has too many. */
  function Decisions(limit: nat, buckets: map<Key, Bucket>, calls: seq<Call>): (d: seq<bool>)
    ensures |d| == |calls|
    decreases |calls|
  {
    if calls == [] then []
    else
      var kept := Kept(limit, buckets, calls[0].now);
      [Allows(limit, kept, calls[0])] + Decisions(limit, Hit(limit, kept, calls[0]), calls[1..])
  }

  /** The decisions of a limiter that never forgets a bucket. */
  function Unforgetting(limit: nat, buckets: map<Key, Bucket>, calls: seq<Call>): (d: seq<bool>)
    ensures |d| == |calls|
    decreases |calls|
  {
    if calls == [] then []
    else [Allows(limit, buckets, calls[0])] + Unforgetting(limit, Hit(limit, buckets, calls[0]), calls[1..])
  }

  /** What has been forgotten has expired. */
  ghost predicate Forgot(kept: map<Key, Bucket>, full: map<Key, Bucket>, now: nat) {
    && (forall k :: k in kept ==> k in full && kept[k] == full[k])
    && (forall k :: k in full && k !in kept ==> Expired(full[k], now))
  }

  lemma ForgetMore(limit: nat, kept: map<Key, Bucket>, full: map<Key, Bucket>, from: nat, now: nat)
    requires Forgot(kept, full, from) && from <= now
    ensures Forgot(Kept(limit, kept, now), full, now)
  {
  }

  lemma HitForgot(limit: nat, kept: map<Key, Bucket>, full: map<Key, Bucket>, c: Call)
    requires Forgot(kept, full, c.now)
    ensures Allows(limit, kept, c) == Allows(limit, full, c)
    ensures Forgot(Hit(limit, kept, c), Hit(limit, full, c), c.now)
  {
    assert Current(kept, c) == Current(full, c);
  }

  /** Eviction is invisible: on every sequence of checks the limiter decides as one that never evicts. */
  lemma {:induction false} EvictionIsInvisible(limit: nat, kept: map<Key, Bucket>, full: map<Key, Bucket>, from: nat,
                                               calls: seq<Call>)
    requires Forgot(kept, full, from) && Ordered(from, calls)
    ensures Decisions(limit, kept, calls) == Unforgetting(limit, full, calls)
    decreases |calls|
  {
    if calls != [] {
      var c := calls[0];
      ForgetMore(limit, kept, full, from, c.now);
      HitForgot(limit, Kept(limit, kept, c.now), full, c);
      EvictionIsInvisible(limit, Hit(limit, Kept(limit, kept, c.now), c), Hit(limit, full, c), c.now, calls[1..]);
    }
  }

  // ---- The rate ---------------------------------------------------------------------------------------

  /** Hits of one key that were admitted in the minute from `from` on. */
  function Admitted(calls: seq<Call>, decisions: seq<bool>, key: Key, from: nat): nat
    requires |decisions| == |calls|
  {
    if calls == [] then 0
    else
      (if decisions[0] && calls[0].key == key && from <= calls[0].now < from + WINDOW then 1 else 0)
      + Admitted(calls[1..], decisions[1..], key, from)
  }

  /** Buckets count between one hit and the limit, in windows that have begun. */
  ghost predicate Sane(limit: nat, buckets: map<Key, Bucket>, now: nat) {
    forall k :: k in buckets ==> 1 <= buckets[k].count <= limit && buckets[k].windowStart <= now
  }

  /** How many hits of a key the minute from `from` on can still admit. */
  function Room(limit: nat, buckets: map<Key, Bucket>, key: Key, now: nat, from: nat): int {
    if now < from || key !in buckets then 2 * limit - 1
    else if buckets[key].windowStart < from then 2 * limit - buckets[key].count
    else limit - buckets[key].count
  }

  lemma HitTakesRoom(limit: nat, buckets: map<Key, Bucket>, clock: nat, c: Call, key: Key, from: nat)
    requires limit > 0 && Sane(limit, buckets, clock) && clock <= c.now < from + WINDOW
    ensures Sane(limit, Hit(limit, buckets, c), c.now)
    ensures (if Allows(limit, buckets, c) && c.key == key && from <= c.now then 1 else 0)
            + Room(limit, Hit(limit, buckets, c), key, c.now, from) <= Room(limit, buckets, key, clock, from)
  {
  }

  lemma {:induction false} NoneAfter(limit: nat, calls: seq<Call>, decisions: seq<bool>, key: Key, now: nat, from: nat)
    requires |decisions| == |calls| && Ordered(now, calls) && from + WINDOW <= now
    ensures Admitted(calls, decisions, key, from) == 0
    decreases |calls|
  {
    if calls != [] { NoneAfter(limit, calls[1..], decisions[1..], key, calls[0].now, from); }
  }

  lemma {:induction false} RoomBounds(
    limit: nat, buckets: map<Key, Bucket>, clock: nat, calls: seq<Call>, key: Key, from: nat)
    requires limit > 0 && Sane(limit, buckets, clock) && Ordered(clock, calls)
    ensures Admitted(calls, Unforgetting(limit, buckets, calls), key, from) <= Room(limit, buckets, key, clock, from)
    decreases |calls|
  {
    hide Hit, Allows, Room, Sane;
    RoomNotNegative(limit, buckets, key, clock, from);
    if calls != [] {
      var c, d := calls[0], Unforgetting(limit, buckets, calls);
      var next := Hit(limit, buckets, c);
      assert d[1..] == Unforgetting(limit, next, calls[1..]);
      if c.now < from + WINDOW {
        HitTakesRoom(limit, buckets, clock, c, key, from);
        RoomBounds(limit, next, c.now, calls[1..], key, from);
      } else {
        NoneAfter(limit, calls[1..], d[1..], key, c.now, from);
      }
    }
  }

  lemma RoomNotNegative(limit: nat, buckets: map<Key, Bucket>, key: Key, now: nat, from: nat)
    requires limit > 0 && Sane(limit, buckets, now)
    ensures Room(limit, buckets, key, now, from) >= 0
  {
  }

  /** Over every sequence of checks, any minute admits fewer than twice the limit of one key's hits. */
  lemma MinuteBound(limit: nat, calls: seq<Call>, key: Key, from: nat)
    requires limit > 0 && Ordered(0, calls)
    ensures Admitted(calls, Decisions(limit, map[], calls), key, from) <= 2 * limit - 1
  {
    EvictionIsInvisible(limit, map[], map[], 0, calls);
    RoomBounds(limit, map[], 0, calls, key, from);
  }

  /** A limit of zero admits everything. */
  lemma {:induction false} ZeroDisables(buckets: map<Key, Bucket>, calls: seq<Call>)
    ensures forall i :: 0 <= i < |calls| ==> Decisions(0, buckets, calls)[i]
    decreases |calls|
  {
    if calls != [] {
      ZeroDisables(buckets, calls[1..]);
      var d, rest := Decisions(0, buckets, calls), Decisions(0, buckets, calls[1..]);
      forall i | 0 <= i < |calls| ensures d[i] {
        if i > 0 { assert d[i] == rest[i - 1]; }
      }
    }
  }

  // ---- Exactly which checks are allowed -------------------------------------------------------------------

  /** The `i`-th check opens a window: no window that an earlier check of its key opened reaches it. */
  ghost predicate Opens(calls: seq<Call>, i: nat)
    requires i < |calls|
  {
    forall k: nat :: k < i && calls[k].key == calls[i].key && Opens(calls, k) ==> calls[i].now >= calls[k].now + WINDOW
  }

  /** The last of the first `n` checks that opened a window of the key. */
  ghost predicate LastOpener(calls: seq<Call>, key: Key, o: nat, n: nat)
    requires n <= |calls|
  {
    && o < n && calls[o].key == key && Opens(calls, o)
    && forall j: nat :: o < j < n && calls[j].key == key ==> !Opens(calls, j)
  }

  /** Checks of the key from the `o`-th to before the `n`-th. */
  ghost function Checks(calls: seq<Call>, key: Key, o: nat, n: nat): nat
    requires n <= |calls|
  {
    if n <= o then 0 else Checks(calls, key, o, n - 1) + if calls[n - 1].key == key then 1 else 0
  }

  lemma OneMoreCheck(calls: seq<Call>, key: Key, o: nat, n: nat)
    requires o <= n < |calls|
    ensures Checks(calls, key, o, n + 1) == Checks(calls, key, o, n) + if calls[n].key == key then 1 else 0
    ensures Checks(calls, key, n, n) == 0
  {
  }

  /** The buckets after the first `n` checks. */
  ghost function After(limit: nat, calls: seq<Call>, n: nat): map<Key, Bucket>
    requires n <= |calls|
  {
    if n == 0 then map[] else Hit(limit, After(limit, calls, n - 1), calls[n - 1])
  }

  lemma {:induction false} DecisionAt(limit: nat, calls: seq<Call>, from: nat, i: nat)
    requires from <= i < |calls|
    ensures Unforgetting(limit, After(limit, calls, from), calls[from..])[i - from]
            == Allows(limit, After(limit, calls, i), calls[i])
    decreases i - from
  {
    hide Hit, Allows;
    var rest := calls[from..];
    assert rest[0] == calls[from] && rest[1..] == calls[from + 1..];
    if from < i {
      DecisionAt(limit, calls, from + 1, i);
      var d := Unforgetting(limit, After(limit, calls, from), rest);
      assert d[1..] == Unforgetting(limit, After(limit, calls, from + 1), calls[from + 1..]);
    }
  }

  lemma {:induction false} InOrder(from: nat, calls: seq<Call>, i: nat, k: nat)
    requires Ordered(from, calls) && i <= k < |calls|
    ensures from <= calls[i].now <= calls[k].now
    decreases k
  {
    if k > 0 {
      if i > 0 {
        InOrder(calls[0].now, calls[1..], i - 1, k - 1);
      } else {
        InOrder(calls[0].now, calls[1..], 0, k - 1);
      }
    }
  }

  /** A key's bucket tells its last window and how many checks fell into it, up to the limit. */
  ghost predicate Tells(limit: nat, calls: seq<Call>, n: nat, key: Key)
    requires n <= |calls|
  {
    var buckets := After(limit, calls, n);
    if key in buckets then
      exists o: nat :: LastOpener(calls, key, o, n)
        && buckets[key] == Bucket(calls[o].now, Least(limit, Checks(calls, key, o, n)))
    else forall j: nat :: j < n ==> calls[j].key != key
  }

  function Least(a: nat, b: nat): nat { if a < b then a else b }

  lemma OneLastOpener(calls: seq<Call>, key: Key, a: nat, b: nat, n: nat)
    requires n <= |calls| && LastOpener(calls, key, a, n) && LastOpener(calls, key, b, n)
    ensures a == b
  {
  }

  /** The next check of a key opens a window exactly if the bucket's one is over. */
  lemma OpensIffExpired(calls: seq<Call>, o: nat, n: nat)
    requires n < |calls| && Ordered(0, calls) && LastOpener(calls, calls[n].key, o, n)
    ensures Opens(calls, n) <==> calls[n].now >= calls[o].now + WINDOW
  {
    forall k: nat | k < n && calls[k].key == calls[n].key && Opens(calls, k)
      ensures calls[k].now <= calls[o].now
    {
      InOrder(0, calls, k, if k <= o then o else k);
    }
  }

  lemma {:induction false} BucketsTell(limit: nat, calls: seq<Call>, n: nat, key: Key)
    requires limit > 0 && n <= |calls| && Ordered(0, calls)
    ensures Tells(limit, calls, n, key)
    decreases n
  {
    if n > 0 {
      BucketsTell(limit, calls, n - 1, key);
      hide Checks, Opens, After;
      NextTells(limit, calls, n - 1, key);
    }
  }

  lemma NextTells(limit: nat, calls: seq<Call>, n: nat, key: Key)
    requires limit > 0 && n < |calls| && Ordered(0, calls) && Tells(limit, calls, n, key)
    ensures Tells(limit, calls, n + 1, key)
  {
    var was := After(limit, calls, n);
    if key in was {
      var o: nat :| LastOpener(calls, key, o, n)
        && was[key] == Bucket(calls[o].now, Least(limit, Checks(calls, key, o, n)));
      NextTellsOf(limit, calls, n, key, o);
    } else if calls[n].key == key {
      OneMoreCheck(calls, key, n, n);
      assert Opens(calls, n);
      assert LastOpener(calls, key, n, n + 1);
    }
  }

  lemma NextTellsOf(limit: nat, calls: seq<Call>, n: nat, key: Key, o: nat)
    requires limit > 0 && n < |calls| && Ordered(0, calls) && LastOpener(calls, key, o, n)
    requires var was := After(limit, calls, n);
             key in was && was[key] == Bucket(calls[o].now, Least(limit, Checks(calls, key, o, n)))
    ensures Tells(limit, calls, n + 1, key)
  {
    var was := After(limit, calls, n);
    assert After(limit, calls, n + 1) == Hit(limit, was, calls[n]);
    OneMoreCheck(calls, key, o, n);
    OneMoreCheck(calls, key, n, n);
    if calls[n].key == key { OpensIffExpired(calls, o, n); }
    hide Checks, Opens, After;
    if calls[n].key == key && Opens(calls, n) {
      assert LastOpener(calls, key, n, n + 1);
    } else {
      assert LastOpener(calls, key, o, n + 1);
    }
  }

  /** Over every sequence of checks, exactly these are allowed: the first `limit` checks of each window of
      their key, where a window begins with the first check that no earlier window of the key reaches. So
      a denied check neither counts against a later window nor prolongs its own. */
  lemma AllowedIff(limit: nat, calls: seq<Call>, i: nat)
    requires limit > 0 && Ordered(0, calls) && i < |calls|
    ensures Decisions(limit, map[], calls)[i] <==>
            exists o: nat :: LastOpener(calls, calls[i].key, o, i + 1) && Checks(calls, calls[i].key, o, i) < limit
  {
    EvictionIsInvisible(limit, map[], map[], 0, calls);
    assert calls[0..] == calls;
    DecisionAt(limit, calls, 0, i);
    BucketsTell(limit, calls, i, calls[i].key);
    DecisionTold(limit, calls, i);
  }

  lemma DecisionTold(limit: nat, calls: seq<Call>, i: nat)
    requires limit > 0 && Ordered(0, calls) && i < |calls| && Tells(limit, calls, i, calls[i].key)
    ensures Allows(limit, After(limit, calls, i), calls[i]) <==>
            exists o: nat :: LastOpener(calls, calls[i].key, o, i + 1) && Checks(calls, calls[i].key, o, i) < limit
  {
    hide After, Hit;
    var key, buckets := calls[i].key, After(limit, calls, i);
    OneMoreCheck(calls, key, i, i);
    hide Checks;
    if key in buckets {
      var o: nat :| LastOpener(calls, key, o, i)
        && buckets[key] == Bucket(calls[o].now, Least(limit, Checks(calls, key, o, i)));
      OpensIffExpired(calls, o, i);
      hide Opens;
      if Opens(calls, i) {
        assert LastOpener(calls, key, i, i + 1);
      } else {
        assert LastOpener(calls, key, o, i + 1);
        assert Allows(limit, buckets, calls[i]) <==> Checks(calls, key, o, i) < limit;
        if k: nat :| LastOpener(calls, key, k, i + 1) && Checks(calls, key, k, i) < limit {
          OneLastOpener(calls, key, k, o, i + 1);
        }
      }
    } else {
      assert Opens(calls, i);
      assert LastOpener(calls, key, i, i + 1);
    }
  }

  // ---- The bound is reached -----------------------------------------------------------------------------

  /** `n` checks of one key at one instant. */
  function Burst(now: nat, key: Key, n: nat): (calls: seq<Call>)
    ensures |calls| == n
    decreases n
  {
    if n == 0 then [] else [Call(now, key)] + Burst(now, key, n - 1)
  }

  lemma HitCounts(limit: nat, buckets: map<Key, Bucket>, c: Call)
    requires Current(buckets, c).count < limit
    ensures var b := Current(buckets, c);
            var t := Hit(limit, buckets, c);
            && Allows(limit, buckets, c) && t == buckets[c.key := Bucket(b.windowStart, b.count + 1)]
            && Current(t, c) == Bucket(b.windowStart, b.count + 1)
  {
  }

  lemma {:induction false} BurstIn(
    limit: nat, buckets: map<Key, Bucket>, now: nat, key: Key, n: nat, rest: seq<Call>, from: nat)
    requires limit > 0 && from <= now < from + WINDOW && Ordered(now, rest)
    requires Current(buckets, Call(now, key)).count + n <= limit
    ensures Ordered(now, Burst(now, key, n) + rest)
    ensures var b := Current(buckets, Call(now, key));
            var t := if n == 0 then buckets else buckets[key := Bucket(b.windowStart, b.count + n)];
            Admitted(Burst(now, key, n) + rest, Unforgetting(limit, buckets, Burst(now, key, n) + rest), key, from)
            == n + Admitted(rest, Unforgetting(limit, t, rest), key, from)
    decreases n
  {
    hide Current, Hit, Allows;
    var calls := Burst(now, key, n) + rest;
    if n == 0 {
      assert calls == rest;
    } else {
      var c, tail := Call(now, key), Burst(now, key, n - 1) + rest;
      assert calls[0] == c && calls[1..] == tail;
      var next := Hit(limit, buckets, c);
      var b := Current(buckets, c);
      HitCounts(limit, buckets, c);
      BurstIn(limit, next, now, key, n - 1, rest, from);
      var d := Unforgetting(limit, buckets, calls);
      assert d[1..] == Unforgetting(limit, next, tail);
      assert next[key := Bucket(b.windowStart, b.count + 1 + (n - 1))]
             == buckets[key := Bucket(b.windowStart, b.count + n)];
    }
  }

  /** For every limit there is a sequence of checks that reaches the bound: one hit opens a window, and
      a minute that starts right after it takes the rest of that window and all of the next. */
  lemma BoundIsReached(limit: nat, key: Key) returns (calls: seq<Call>)
    requires limit > 0
    ensures Ordered(0, calls)
    ensures Admitted(calls, Decisions(limit, map[], calls), key, 1) == 2 * limit - 1
  {
    hide Current, Hit, Burst, Unforgetting, Decisions;
    var first, second := Burst(1, key, limit - 1), Burst(WINDOW, key, limit);
    var rest := first + (second + []);
    calls := [Call(0, key)] + rest;
    OpenWindow(limit, key, rest);
    var one := map[key := Bucket(0, 1)];
    var filled := if limit - 1 == 0 then one else map[key := Bucket(0, limit)];
    CurrentOf(one, key, 1);
    CurrentOf(filled, key, WINDOW);
    assert Ordered(WINDOW, []);
    BurstIn(limit, filled, WINDOW, key, limit, [], 1);
    LaterOrdered(1, WINDOW, second + []);
    BurstIn(limit, one, 1, key, limit - 1, second + [], 1);
    assert one[key := Bucket(0, limit)] == map[key := Bucket(0, limit)];
    LaterOrdered(0, 1, rest);
    EvictionIsInvisible(limit, map[], map[], 0, calls);
  }

  /** So the windows bound every minute by the limit itself, as a rolling window would, exactly for a
      limit of one. */
  lemma RollingOnlyForOne(limit: nat)
    requires limit > 0
    ensures BoundsEveryMinute(limit) <==> limit == 1
  {
    if limit == 1 {
      forall calls, key, from | Ordered(0, calls)
        ensures Admitted(calls, Decisions(limit, map[], calls), key, from) <= limit
      {
        MinuteBound(limit, calls, key, from);
      }
    } else {
      var calls := BoundIsReached(limit, 0);
    }
  }

  /** Every minute of every run admits at most the limit of each key. */
  ghost predicate BoundsEveryMinute(limit: nat) {
    forall calls, key, from ::
      Ordered(0, calls) ==> Admitted(calls, Decisions(limit, map[], calls), key, from) <= limit
  }

  lemma OpenWindow(limit: nat, key: Key, rest: seq<Call>)
    requires limit > 0
    ensures var calls := [Call(0, key)] + rest;
            Admitted(calls, Unforgetting(limit, map[], calls), key, 1)
            == Admitted(rest, Unforgetting(limit, map[key := Bucket(0, 1)], rest), key, 1)
  {
    var calls := [Call(0, key)] + rest;
    assert calls[1..] == rest;
    assert Hit(limit, map[], Call(0, key)) == map[key := Bucket(0, 1)];
    assert Unforgetting(limit, map[], calls)[1..] == Unforgetting(limit, map[key := Bucket(0, 1)], rest);
  }

  lemma CurrentOf(buckets: map<Key, Bucket>, key: Key, now: nat)
    requires key in buckets && buckets[key].windowStart == 0
    ensures Current(buckets, Call(now, key)) == if now < WINDOW then buckets[key] else Bucket(now, 0)
  {
  }

  lemma LaterOrdered(a: nat, b: nat, calls: seq<Call>)
    requires a <= b && Ordered(b, calls)
    ensures Ordered(a, calls)
  {
  }

  // ---- The limiter -----------------------------------------------------------------------------------

  class RateLimiter {
    const perMinute: nat
    var buckets: map<Key, Bucket>

    constructor (limit: nat)
      ensures perMinute == limit && buckets == map[]
    {
      perMinute, buckets := limit, map[];
    }

    /** Record a hit. */
    method Check(now: nat, key: Key) returns (allowed: bool)
      modifies this`buckets
      ensures var kept := Kept(perMinute, old(buckets), now);
              allowed == Allows(perMinute, kept, Call(now, key)) && buckets == Hit(perMinute, kept, Call(now, key))
    {
      if perMinute == 0 { return true; }
      if |buckets| > MAX_BUCKETS {
        buckets := Evict(buckets, now);
      }
      if key !in buckets {
        buckets := buckets[key := Bucket(now, 0)];
      }
      if Expired(buckets[key], now) {
        buckets := buckets[key := Bucket(now, 0)];
      }
      if buckets[key].count >= perMinute { return false; }
      buckets := buckets[key := buckets[key].(count := buckets[key].count + 1)];
      allowed := true;
    }
  }
}
