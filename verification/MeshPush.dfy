/**
 What every operator push has in common as it spreads through the mesh (`operator.rs`): the relay guard shared by the
 revocation, silence and YARA handlers, and the hop budget, which alone makes a flood die out whatever the stores and
 seen-sets answer.
 */
module MeshPush {
  import opened Basics

  type Fp = nat

  /** Hop ceiling every agent applies to an incoming revocation or silence push; for YARA each agent configures its
      own. */
  const MAX_REVOKE_TTL := 8

  /** Deliveries that one message of budget `ttl` can cause when nobody has more than `d` peers. */
  function Cost(ttl: nat, d: nat): nat
  {
    if ttl == 0 then 1 else 1 + d * Cost(ttl - 1, d)
  }

  /** The same for everything in flight, `cap` being the largest clamp any agent applies. */
  function Weight(flight: seq<nat>, cap: nat, d: nat): nat
  {
    if flight == [] then 0 else Cost(Min(flight[0], cap), d) + Weight(flight[1..], cap, d)
  }

  /** One delivery: message `i` is consumed and at most `d` copies replace it, each with less than its clamped budget,
      so none at all when that is spent. Which of these happens is left open, because it depends on the receiver's own
      clamp and on a store or a seen-set that may forget. */
  predicate Delivery(before: seq<nat>, after: seq<nat>, i: nat, copies: seq<nat>, cap: nat, d: nat)
  {
    && i < |before| && |copies| <= d
    && (forall j :: 0 <= j < |copies| ==> copies[j] < Min(before[i], cap))
    && after == Remove(before, i) + copies
  }

  lemma {:induction false} CostGrows(m: nat, n: nat, d: nat)
    requires m <= n
    ensures 1 <= Cost(m, d) <= Cost(n, d)
  {
    if m > 0 {
      var x, y := Cost(m - 1, d), Cost(n - 1, d);
      CostGrows(m - 1, n - 1, d);
      ScaleUp(x, y, d);
      assert Cost(m, d) == 1 + d * x && Cost(n, d) == 1 + d * y;
    }
  }

  lemma {:induction false} WeightConcat(a: seq<nat>, b: seq<nat>, cap: nat, d: nat)
    ensures Weight(a + b, cap, d) == Weight(a, cap, d) + Weight(b, cap, d)
  {
    if a == [] {
      assert a + b == b;
    } else {
      assert (a + b)[1..] == a[1..] + b;
      WeightConcat(a[1..], b, cap, d);
    }
  }

  lemma {:induction false} WeightBelow(copies: seq<nat>, ttl: nat, cap: nat, d: nat)
    requires forall i :: 0 <= i < |copies| ==> copies[i] <= ttl
    ensures Weight(copies, cap, d) <= |copies| * Cost(ttl, d)
  {
    if copies != [] {
      var rest := copies[1..];
      WeightBelow(rest, ttl, cap, d);
      CostGrows(Min(copies[0], cap), ttl, d);
      OneMore(|rest|, Cost(ttl, d));
    }
  }

  lemma OneMore(n: nat, c: nat)
    ensures (n + 1) * c == n * c + c
  {
  }

  lemma DeliveryShrinks(before: seq<nat>, after: seq<nat>, i: nat, copies: seq<nat>, cap: nat, d: nat)
    requires Delivery(before, after, i, copies, cap, d)
    ensures Weight(after, cap, d) < Weight(before, cap, d)
  {
    WeightSplit(before, i, cap, d);
    WeightConcat(Remove(before, i), copies, cap, d);
    CopiesAreCheaper(copies, Min(before[i], cap), cap, d);
  }

  /** Relaying costs less than what was delivered. */
  lemma CopiesAreCheaper(sent: seq<nat>, ttl: nat, cap: nat, d: nat)
    requires |sent| <= d && forall i :: 0 <= i < |sent| ==> sent[i] < ttl
    ensures Weight(sent, cap, d) < Cost(ttl, d)
  {
    assert sent != [] ==> sent[0] < ttl;
    if ttl > 0 {
      WeightBelow(sent, ttl - 1, cap, d);
      ScaleUp(|sent|, d, Cost(ttl - 1, d));
    }
  }

  lemma ScaleUp(a: nat, b: nat, c: nat)
    requires a <= b
    ensures a * c <= b * c && c * a <= c * b
  {
  }

  lemma WeightSplit(flight: seq<nat>, i: nat, cap: nat, d: nat)
    requires i < |flight|
    ensures Weight(flight, cap, d) == Weight(Remove(flight, i), cap, d) + Cost(Min(flight[i], cap), d)
  {
    assert flight == flight[..i] + ([flight[i]] + flight[i + 1..]);
    WeightConcat(flight[..i], [flight[i]] + flight[i + 1..], cap, d);
    WeightConcat([flight[i]], flight[i + 1..], cap, d);
    WeightConcat(flight[..i], flight[i + 1..], cap, d);
  }

  ghost predicate IsDelivery(before: seq<nat>, after: seq<nat>, cap: nat, d: nat)
  {
    exists i: nat, copies: seq<nat> :: Delivery(before, after, i, copies, cap, d)
  }

  /** A delivery, position by position. */
  lemma Replaced(before: seq<nat>, after: seq<nat>, i: nat, copies: seq<nat>, cap: nat, d: nat)
    requires i < |before| && |copies| <= d && |after| == |before| - 1 + |copies|
    requires forall j :: 0 <= j < |copies| ==> copies[j] < Min(before[i], cap)
    requires forall k :: 0 <= k < i ==> after[k] == before[k]
    requires forall k :: i <= k < |before| - 1 ==> after[k] == before[k + 1]
    requires forall j :: 0 <= j < |copies| ==> copies[j] == after[|before| - 1 + j]
    ensures IsDelivery(before, after, cap, d)
  {
    var rest := Remove(before, i);
    forall k | 0 <= k < |rest| ensures after[k] == rest[k] {
      if k >= i {
        assert rest[k] == before[i + 1..][k - i] == before[k + 1];
      }
    }
    assert after[..|rest|] == rest && after[|rest|..] == copies;
    assert after == rest + copies;
    assert Delivery(before, after, i, copies, cap, d);
  }

  lemma DeliveryLowers(before: seq<nat>, after: seq<nat>, cap: nat, d: nat)
    requires IsDelivery(before, after, cap, d)
    ensures Weight(after, cap, d) < Weight(before, cap, d)
  {
    var i: nat, copies: seq<nat> :| Delivery(before, after, i, copies, cap, d);
    DeliveryShrinks(before, after, i, copies, cap, d);
  }

  /** Every flood dies out: no run of deliveries is longer than the weight it starts with, whatever
      each agent's store or seen-set answers along the way. */
  lemma {:induction false} FloodAlwaysEnds(run: seq<seq<nat>>, cap: nat, d: nat)
    requires |run| > 0
    requires forall n :: 0 < n < |run| ==> IsDelivery(run[n - 1], run[n], cap, d)
    ensures |run| - 1 <= Weight(run[0], cap, d) - Weight(run[|run| - 1], cap, d)
  {
    if |run| > 1 {
      var front := run[..|run| - 1];
      FloodAlwaysEnds(front, cap, d);
      assert IsDelivery(run[|run| - 2], run[|run| - 1], cap, d);
      DeliveryLowers(run[|run| - 2], run[|run| - 1], cap, d);
    }
  }

  /** Gossiped, still pinned, and not ourselves; in gossip order. */
  function Targets(peers: seq<Fp>, pins: set<Fp>, self: Fp): seq<Fp>
  {
    if peers == [] then []
    else (if peers[0] in pins && peers[0] != self then [peers[0]] else []) + Targets(peers[1..], pins, self)
  }

  lemma {:induction false} TargetsAre(peers: seq<Fp>, pins: set<Fp>, self: Fp)
    ensures forall b :: b in Targets(peers, pins, self) <==> b in peers && b in pins && b != self
    ensures NoDup(peers) ==> NoDup(Targets(peers, pins, self))
    ensures |Targets(peers, pins, self)| <= |peers|
  {
    if peers != [] {
      TargetsAre(peers[1..], pins, self);
      assert peers == [peers[0]] + peers[1..];
      if NoDup(peers) {
        assert forall j :: 0 < j < |peers| ==> peers[j] == peers[1..][j - 1];
        assert NoDup(peers[1..]);
        assert peers[0] !in peers[1..];
      }
    }
  }

  /** A pinned peer is relayed to as often as it is listed. */
  lemma {:induction false} TargetsCount(peers: seq<Fp>, pins: set<Fp>, self: Fp, b: Fp)
    ensures multiset(Targets(peers, pins, self))[b] == if b in pins && b != self then multiset(peers)[b] else 0
  {
    if peers != [] {
      TargetsCount(peers[1..], pins, self, b);
      assert peers == [peers[0]] + peers[1..];
    }
  }

  /** The budgets an agent sends on: the guard shared by the revocation, silence and YARA handlers. `ttl` is clamped
      already, and `isNew` is whatever the store or the seen-set said. */
  function Relayed(
      peers: seq<Fp>, pins: set<Fp>, self: Fp, relay: bool, fanout: bool, ttl: nat, isNew: bool): seq<nat>
  {
    if fanout && ttl > 0 && isNew && relay then seq(|Targets(peers, pins, self)|, _ => ttl - 1) else []
  }

  /** Any push handled by any agent is such a delivery, under any answer of its store and whatever clamp of its own it
      applies. */
  lemma AnyPushIsADelivery(
      flight: seq<nat>, i: nat, peers: seq<Fp>, pins: set<Fp>, self: Fp, relay: bool, fanout: bool, isNew: bool,
      own: nat, cap: nat, d: nat)
    requires i < |flight| && |peers| <= d && own <= cap
    ensures IsDelivery(
      flight, Remove(flight, i) + Relayed(peers, pins, self, relay, fanout, Min(flight[i], own), isNew), cap, d)
  {
    TargetsAre(peers, pins, self);
    var sent := Relayed(peers, pins, self, relay, fanout, Min(flight[i], own), isNew);
    assert Delivery(flight, Remove(flight, i) + sent, i, sent, cap, d);
  }
}
