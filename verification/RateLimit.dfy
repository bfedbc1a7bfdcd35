/** The per-key token bucket (`agent.rs`), with tokens and seconds as reals and the clock as a parameter. */
module RateLimiting {

  type Key = nat

  datatype Bucket = Bucket(tokens: real, last: real)

  type Buckets = map<Key, Bucket>

  datatype Limits = Limits(rate: real, burst: real)

  datatype Call = Call(key: Key, at: real)

  function Lower(x: real, y: real): real { if x <= y then x else y }

  /** What drips into a bucket between two instants. */
  function Refill(rate: real, from: real, to: real): (r: real)
    ensures rate >= 0.0 && from <= to ==> r >= 0.0
    ensures from == to ==> r == 0.0
  {
    var elapsed := to - from;
    assert rate >= 0.0 && elapsed >= 0.0 ==> elapsed * rate >= 0.0;
    elapsed * rate
  }

  /** Tokens `key` has at `at`, counting the refill; a new key starts full. */
  function Level(l: Limits, b: Buckets, key: Key, at: real): real
  {
    if key in b then Lower(b[key].tokens + Refill(l.rate, b[key].last, at), l.burst) else l.burst
  }

  predicate Grants(l: Limits, b: Buckets, call: Call) { Level(l, b, call.key, call.at) >= 1.0 }

  function After(l: Limits, b: Buckets, call: Call): Buckets
  {
    var level := Level(l, b, call.key, call.at);
    b[call.key := Bucket(if level >= 1.0 then level - 1.0 else level, call.at)]
  }

  class RateLimit {
    var buckets: Buckets
    const limits: Limits

    constructor (limits: Limits)
      ensures buckets == map[] && this.limits == limits
    {
      buckets := map[];
      this.limits := limits;
    }

    method TryAcquire(key: Key, now: real) returns (granted: bool)
      modifies this
      ensures granted == Grants(limits, old(buckets), Call(key, now))
      ensures buckets == After(limits, old(buckets), Call(key, now))
    {
      var bucket := if key in buckets then buckets[key] else Bucket(limits.burst, now);
      var tokens := Lower(bucket.tokens + Refill(limits.rate, bucket.last, now), limits.burst);
      if tokens >= 1.0 {
        tokens := tokens - 1.0;
        granted := true;
      } else {
        granted := false;
      }
      buckets := buckets[key := Bucket(tokens, now)];
    }
  }

  // -- Runs ----------------------------------------------------------------------------------------

  predicate Ordered(calls: seq<Call>, from: real, to: real)
  {
    && (forall i :: 0 <= i < |calls| ==> from <= calls[i].at <= to)
    && forall i, j :: 0 <= i < j < |calls| ==> calls[i].at <= calls[j].at
  }

  function AfterAll(l: Limits, b: Buckets, calls: seq<Call>): Buckets
  {
    if calls == [] then b else After(l, AfterAll(l, b, calls[..|calls| - 1]), calls[|calls| - 1])
  }

  /** How many of the calls for `key` are granted. */
  function GrantsTo(l: Limits, b: Buckets, calls: seq<Call>, key: Key): nat
    decreases |calls|
  {
    if calls == [] then 0
    else (if calls[0].key == key && Grants(l, b, calls[0]) then 1 else 0)
         + GrantsTo(l, After(l, b, calls[0]), calls[1..], key)
  }

  function CallsOf(calls: seq<Call>, key: Key): nat
  {
    if calls == [] then 0 else (if calls[0].key == key then 1 else 0) + CallsOf(calls[1..], key)
  }

  predicate Sane(l: Limits) { l.rate >= 0.0 && l.burst >= 0.0 }

  /** Every bucket is between empty and full, and was last touched in the past. */
  ghost predicate Sound(l: Limits, b: Buckets, now: real)
  {
    forall k :: k in b ==> 0.0 <= b[k].tokens <= l.burst && b[k].last <= now
  }

  lemma SoundNext(l: Limits, b: Buckets, call: Call)
    requires Sane(l) && Sound(l, b, call.at)
    ensures Sound(l, After(l, b, call), call.at)
    ensures 0.0 <= Level(l, b, call.key, call.at) <= l.burst
  {
  }

  lemma RefillAddsUp(rate: real, a: real, b: real, c: real)
    ensures Refill(rate, a, c) == Refill(rate, a, b) + Refill(rate, b, c)
  {
  }

  lemma LevelRises(l: Limits, b: Buckets, key: Key, from: real, to: real)
    requires Sane(l) && from <= to
    ensures Level(l, b, key, to) <= Level(l, b, key, from) + Refill(l.rate, from, to)
  {
    if key in b {
      RefillAddsUp(l.rate, b[key].last, from, to);
    }
  }

  /** A grant to `key` costs it a token; nobody else's call touches its level. */
  lemma OneCall(l: Limits, b: Buckets, call: Call, key: Key)
    requires Sane(l)
    ensures Level(l, After(l, b, call), key, call.at) + (if call.key == key && Grants(l, b, call) then 1.0 else 0.0)
         <= Level(l, b, key, call.at)
  {
  }

  /** Grants between two instants are bounded by what was there and what dripped in. */
  lemma {:induction false} Conserved(l: Limits, b: Buckets, calls: seq<Call>, key: Key, from: real, to: real)
    requires Sane(l) && Sound(l, b, from) && from <= to && Ordered(calls, from, to)
    ensures GrantsTo(l, b, calls, key) as real <= Level(l, b, key, from) + Refill(l.rate, from, to)
    decreases |calls|
  {
    if calls == [] {
      SoundNext(l, b, Call(key, from));
    } else {
      var c := calls[0];
      SoundNext(l, b, c);
      OrderedTail(calls, from, to);
      Conserved(l, After(l, b, c), calls[1..], key, c.at, to);
      OneCall(l, b, c, key);
      LevelRises(l, b, key, from, c.at);
      RefillAddsUp(l.rate, from, c.at, to);
    }
  }

  lemma OrderedTail(calls: seq<Call>, from: real, to: real)
    requires calls != [] && Ordered(calls, from, to)
    ensures Ordered(calls[1..], calls[0].at, to)
  {
  }

  lemma {:induction false} SoundAfterAll(l: Limits, calls: seq<Call>, from: real, to: real)
    requires Sane(l) && Ordered(calls, from, to)
    ensures Sound(l, AfterAll(l, map[], calls), to)
    ensures calls != [] ==> Sound(l, AfterAll(l, map[], calls), calls[|calls| - 1].at)
  {
    if calls != [] {
      var n := |calls| - 1;
      SoundAfterAll(l, calls[..n], from, calls[n].at);
      SoundNext(l, AfterAll(l, map[], calls[..n]), calls[n]);
    }
  }

  /** The token bucket bound: after any traffic, in any stretch of calls from `t1` to `t2`, whatever other keys do,
      one key is granted at most burst + rate * (t2 - t1), and every bucket stays between empty and full. */
  lemma GrantsAreBounded(l: Limits, before: seq<Call>, stretch: seq<Call>, key: Key, t0: real, t1: real, t2: real)
    requires Sane(l) && t1 <= t2 && Ordered(before, t0, t1) && Ordered(stretch, t1, t2)
    ensures GrantsTo(l, AfterAll(l, map[], before), stretch, key) as real <= l.burst + (t2 - t1) * l.rate
    ensures Sound(l, AfterAll(l, map[], before), t1)
  {
    SoundAfterAll(l, before, t0, t1);
    var b := AfterAll(l, map[], before);
    Conserved(l, b, stretch, key, t1, t2);
    SoundNext(l, b, Call(key, t1));
    var drip := (t2 - t1) * l.rate;
    RefillIs(l.rate, t1, t2);
    assert Refill(l.rate, t1, t2) == drip;
    assert GrantsTo(l, b, stretch, key) as real <= l.burst + drip;
  }

  lemma RefillIs(rate: real, from: real, to: real)
    ensures Refill(rate, from, to) == (to - from) * rate
  {
  }

  // -- Exactly when a call is refused ----------------------------------------------------------------

  predicate GrantedAt(l: Limits, calls: seq<Call>, i: nat)
    requires i < |calls|
  {
    Grants(l, AfterAll(l, map[], calls[..i]), calls[i])
  }

  /** Grants to `key` among the calls from `i` up to `n`. */
  function GrantsIn(l: Limits, calls: seq<Call>, key: Key, i: nat, n: nat): nat
    requires n <= |calls|
  {
    if n <= i then 0
    else GrantsIn(l, calls, key, i, n - 1) + if calls[n - 1].key == key && GrantedAt(l, calls, n - 1) then 1 else 0
  }

  /** What the window from the `i`-th call on leaves at `at`: a full bucket, what dripped in since, less the grants. */
  function Allowance(l: Limits, calls: seq<Call>, key: Key, i: nat, n: nat, at: real): real
    requires i <= n <= |calls| && i < |calls|
  {
    l.burst + Refill(l.rate, calls[i].at, at) - GrantsIn(l, calls, key, i, n) as real
  }

  function Allowances(l: Limits, calls: seq<Call>, key: Key, n: nat, at: real): (a: seq<real>)
    requires n <= |calls|
    ensures |a| == n && forall i :: 0 <= i < n ==> a[i] == Allowance(l, calls, key, i, n, at)
  {
    seq(n, i requires 0 <= i < n => Allowance(l, calls, key, i, n, at))
  }

  function Own(calls: seq<Call>, key: Key, n: nat): seq<bool>
    requires n <= |calls|
  {
    seq(n, i requires 0 <= i < n => calls[i].key == key)
  }

  /** The level is the least of the own windows, and never more than the burst. */
  ghost predicate IsLeast(own: seq<bool>, windows: seq<real>, burst: real, level: real)
    requires |own| == |windows|
  {
    && level <= burst && (forall i :: 0 <= i < |own| && own[i] ==> level <= windows[i])
    && (level == burst || exists i :: 0 <= i < |own| && own[i] && level == windows[i])
  }

  /** The level is the tightest of the windows that open with a call of the key, and never more than the burst. */
  ghost predicate Tightest(l: Limits, calls: seq<Call>, key: Key, n: nat, at: real, level: real)
    requires n <= |calls|
  {
    IsLeast(Own(calls, key, n), Allowances(l, calls, key, n, at), l.burst, level)
  }

  lemma {:induction false} LevelIsTightest(l: Limits, calls: seq<Call>, key: Key, n: nat, at: real)
    requires n <= |calls|
    ensures Tightest(l, calls, key, n, at, Level(l, AfterAll(l, map[], calls[..n]), key, at))
    decreases n
  {
    if n > 0 {
      var c := calls[n - 1];
      assert calls[..n][..n - 1] == calls[..n - 1];
      if c.key == key {
        LevelIsTightest(l, calls, key, n - 1, c.at);
        TightestAfterOwn(l, calls, n, at);
      } else {
        LevelIsTightest(l, calls, key, n - 1, at);
        TightestAfterOther(l, calls, key, n, at, Level(l, AfterAll(l, map[], calls[..n]), key, at));
      }
    }
  }

  lemma TightestAfterOther(l: Limits, calls: seq<Call>, key: Key, n: nat, at: real, level: real)
    requires 0 < n <= |calls| && calls[n - 1].key != key && Tightest(l, calls, key, n - 1, at, level)
    ensures Tightest(l, calls, key, n, at, level)
  {
    var own, before := Own(calls, key, n), Own(calls, key, n - 1);
    var windows, were := Allowances(l, calls, key, n, at), Allowances(l, calls, key, n - 1, at);
    forall i | 0 <= i < n - 1 ensures windows[i] == were[i] && own[i] == before[i] {
      assert GrantsIn(l, calls, key, i, n) == GrantsIn(l, calls, key, i, n - 1);
    }
    assert !own[n - 1];
  }

  /** What a call of the key does to the windows before it, and to the one it opens. */
  lemma AllowanceMoves(l: Limits, calls: seq<Call>, i: nat, n: nat, at: real, paid: real)
    requires 0 < n <= |calls| && i < n && paid == if GrantedAt(l, calls, n - 1) then 1.0 else 0.0
    ensures var c := calls[n - 1];
      Allowance(l, calls, c.key, i, n, at) ==
        (if i == n - 1 then l.burst else Allowance(l, calls, c.key, i, n - 1, c.at)) - paid + Refill(l.rate, c.at, at)
  {
    var c := calls[n - 1];
    var all, first := Refill(l.rate, calls[i].at, at), Refill(l.rate, calls[i].at, c.at);
    var rest := Refill(l.rate, c.at, at);
    RefillAddsUp(l.rate, calls[i].at, c.at, at);
    assert all == first + rest;
    var grants, more := GrantsIn(l, calls, c.key, i, n - 1), GrantsIn(l, calls, c.key, i, n);
    assert more as real == grants as real + paid;
    if i == n - 1 {
      assert grants == 0 && first == 0.0;
    }
    assert Allowance(l, calls, c.key, i, n, at) == l.burst + all - more as real;
  }

  /** The least of some windows stays the least when all of them move alike and a full one joins. */
  lemma LeastMoves(own: seq<bool>, before: seq<real>, after: seq<real>, burst: real, was: real, move: real)
    requires |own| == |after| == |before| + 1 && own[|before|] == true && IsLeast(own[..|before|], before, burst, was)
    requires forall i :: 0 <= i < |before| ==> after[i] == before[i] + move
    requires after[|before|] == burst + move
    ensures IsLeast(own, after, burst, Lower(was + move, burst))
  {
    var n, level := |before|, Lower(was + move, burst);
    if was < burst {
      var i :| 0 <= i < n && own[..n][i] && was == before[i];
      assert own[i] && after[i] == was + move;
    }
    forall i | 0 <= i <= n && own[i] ensures level <= after[i] {
      assert i < n ==> own[..n][i] && was <= before[i];
    }
  }

  lemma TightestAfterOwn(l: Limits, calls: seq<Call>, n: nat, at: real)
    requires 0 < n <= |calls|
    requires var c := calls[n - 1];
      Tightest(l, calls, c.key, n - 1, c.at, Level(l, AfterAll(l, map[], calls[..n - 1]), c.key, c.at))
    ensures Tightest(l, calls, calls[n - 1].key, n, at, Level(l, AfterAll(l, map[], calls[..n]), calls[n - 1].key, at))
  {
    var c := calls[n - 1];
    var before, after := Allowances(l, calls, c.key, n - 1, c.at), Allowances(l, calls, c.key, n, at);
    var paid := if GrantedAt(l, calls, n - 1) then 1.0 else 0.0;
    var move := Refill(l.rate, c.at, at) - paid;
    forall i | 0 <= i < n ensures after[i] == (if i == n - 1 then l.burst else before[i]) + move {
      AllowanceMoves(l, calls, i, n, at, paid);
    }
    LevelAfterOwn(l, calls, n, at);
    assert Own(calls, c.key, n)[..n - 1] == Own(calls, c.key, n - 1);
    LeastMoves(Own(calls, c.key, n), before, after, l.burst, Level(l, AfterAll(l, map[], calls[..n - 1]), c.key, c.at),
               move);
  }

  lemma LevelAfterOwn(l: Limits, calls: seq<Call>, n: nat, at: real)
    requires 0 < n <= |calls|
    ensures var c := calls[n - 1]; var was := Level(l, AfterAll(l, map[], calls[..n - 1]), c.key, c.at);
      var move := Refill(l.rate, c.at, at) - if GrantedAt(l, calls, n - 1) then 1.0 else 0.0;
      Level(l, AfterAll(l, map[], calls[..n]), c.key, at) == Lower(was + move, l.burst)
  {
    assert calls[..n][..n - 1] == calls[..n - 1];
  }

  /** Granting the `n`-th call would let through more than burst + rate * elapsed since the `i`-th. */
  predicate Exceeds(l: Limits, calls: seq<Call>, i: nat, n: nat)
    requires i <= n < |calls|
  {
    GrantsIn(l, calls, calls[n].key, i, n) as real + 1.0 > l.burst + (calls[n].at - calls[i].at) * l.rate
  }

  lemma ExceedsMeans(l: Limits, calls: seq<Call>, i: nat, n: nat)
    requires i <= n < |calls|
    ensures Exceeds(l, calls, i, n) <==> Allowance(l, calls, calls[n].key, i, n, calls[n].at) < 1.0
  {
    var drip := (calls[n].at - calls[i].at) * l.rate;
    RefillIs(l.rate, calls[i].at, calls[n].at);
    assert Refill(l.rate, calls[i].at, calls[n].at) == drip;
  }

  /** A call is refused exactly when granting it would let through more than burst + rate * elapsed since some call of
      its key, this one included: the bucket keeps that bound and is no stricter. */
  lemma RefusedExactlyWhen(l: Limits, calls: seq<Call>, n: nat)
    requires n < |calls|
    ensures !GrantedAt(l, calls, n) <==>
      exists i :: 0 <= i <= n && calls[i].key == calls[n].key && Exceeds(l, calls, i, n)
  {
    var key, at := calls[n].key, calls[n].at;
    var level := Level(l, AfterAll(l, map[], calls[..n]), key, at);
    LevelIsTightest(l, calls, key, n, at);
    BelowOne(l, calls, n, level);
    forall i | 0 <= i <= n ensures Exceeds(l, calls, i, n) <==> Allowance(l, calls, key, i, n, at) < 1.0 {
      ExceedsMeans(l, calls, i, n);
    }
  }

  lemma BelowOne(l: Limits, calls: seq<Call>, n: nat, level: real)
    requires n < |calls| && Tightest(l, calls, calls[n].key, n, calls[n].at, level)
    ensures level < 1.0 <==>
      exists i :: 0 <= i <= n && calls[i].key == calls[n].key &&
        Allowance(l, calls, calls[n].key, i, n, calls[n].at) < 1.0
  {
    var key, at := calls[n].key, calls[n].at;
    assert Allowance(l, calls, key, n, n, at) == l.burst;
    var own, windows := Own(calls, key, n), Allowances(l, calls, key, n, at);
    forall i | 0 <= i < n
      ensures own[i] == (calls[i].key == key) && windows[i] == Allowance(l, calls, key, i, n, at)
    {
    }
    if level < 1.0 && level != l.burst {
      var i :| 0 <= i < n && own[i] && level == windows[i];
      assert calls[i].key == key && Allowance(l, calls, key, i, n, at) < 1.0;
    }
  }

  /** The calls of `key` are at least one token's refill apart, and as far from the bucket's last touch. */
  predicate Patient(l: Limits, b: Buckets, calls: seq<Call>, key: Key)
  {
    && (forall i, j :: 0 <= i < j < |calls| && calls[i].key == calls[j].key == key ==>
          Refill(l.rate, calls[i].at, calls[j].at) >= 1.0)
    && (key in b ==>
          && b[key].tokens >= 0.0
          && forall i :: 0 <= i < |calls| && calls[i].key == key ==> Refill(l.rate, b[key].last, calls[i].at) >= 1.0)
  }

  lemma PatientStep(l: Limits, b: Buckets, calls: seq<Call>, key: Key)
    requires l.burst >= 1.0 && Patient(l, b, calls, key) && calls != []
    ensures Patient(l, After(l, b, calls[0]), calls[1..], key)
    ensures calls[0].key == key ==> Grants(l, b, calls[0])
  {
    assert forall i :: 0 <= i < |calls[1..]| ==> calls[1..][i] == calls[i + 1];
  }

  /** A patient caller is never refused, whatever other keys do. */
  lemma {:induction false} PatientCallerIsNeverRefused(l: Limits, b: Buckets, calls: seq<Call>, key: Key)
    requires l.burst >= 1.0 && Patient(l, b, calls, key)
    ensures GrantsTo(l, b, calls, key) == CallsOf(calls, key)
    decreases |calls|
  {
    if calls != [] {
      PatientStep(l, b, calls, key);
      PatientCallerIsNeverRefused(l, After(l, b, calls[0]), calls[1..], key);
    }
  }
}
