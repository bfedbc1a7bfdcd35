/**
 What re-issues of a silence do to a store (`SilenceSet::insert` behind `accept`): which judgement is held after any
 deliveries, when their order matters, when a copy that comes again counts as a change, and how long a revocation
 protects.
 */
module SilenceReissues {
  import opened Basics
  import opened SilenceStore

  /** A record arriving at a time. */
  datatype Delivery = Delivery(r: Record, now: nat)

  function AcceptAll(c: Config, s: State, ds: seq<Delivery>): State
  {
    if ds == [] then s
    else
      var d := ds[|ds| - 1];
      AfterAccept(c, AcceptAll(c, s, ds[..|ds| - 1]), d.r, d.now)
  }

  /** The records among the deliveries that verified when they came. */
  function Verified(c: Config, ds: seq<Delivery>): set<Record>
  {
    set d | d in ds && Verify(c, d.r, d.now) == None :: d.r
  }

  function Ids(rs: set<Record>): set<Bytes>
  {
    set r | r in rs :: r.id
  }

  /** As many ids as fit are held. */
  predicate Filled(keys: set<Bytes>, ids: set<Bytes>, cap: nat)
  {
    keys <= ids && |keys| == Min(cap, |ids|)
  }

  /** Each id held is held in a latest issue of it. */
  predicate LatestHeld(s: State, rs: set<Record>)
  {
    && (forall d :: d in rs && d.id in s.held ==> d.issued <= s.held[d.id].issued)
    && (forall id :: id in s.meta ==> s.meta[id] in rs)
  }

  predicate HoldsLatest(c: Config, s: State, rs: set<Record>)
  {
    Filled(s.held.Keys, Ids(rs), c.cap) && LatestHeld(s, rs)
  }

  lemma FilledNext(keys: set<Bytes>, ids: set<Bytes>, id: Bytes, cap: nat)
    requires Filled(keys, ids, cap)
    ensures id in keys ==> ids + {id} == ids
    ensures id !in keys && |keys| >= cap ==> Filled(keys, ids + {id}, cap)
    ensures id !in keys && |keys| < cap ==> id !in ids && Filled(keys + {id}, ids + {id}, cap)
  {
    SubsetFits(ids, ids + {id});
    SubsetFits(keys, ids);
  }

  lemma IdsGrow(rs: set<Record>, r: Record)
    ensures Ids(rs + {r}) == Ids(rs) + {r.id}
  {
  }

  lemma InsertKeys(s: State, r: Record)
    ensures Insert(s, r).held.Keys == s.held.Keys + {r.id}
  {
  }

  lemma LatestInserted(s: State, rs: set<Record>, r: Record)
    requires Agree(s) && LatestHeld(s, rs) && (r.id !in s.held ==> r.id !in Ids(rs))
    ensures LatestHeld(Insert(s, r), rs + {r})
  {
    InsertAgrees(s, r);
    var t := Insert(s, r);
    forall d | d in rs + {r} && d.id in t.held ensures d.issued <= t.held[d.id].issued {
      if d != r {
        assert d.id in Ids(rs);
      }
    }
  }

  lemma LatestTaken(c: Config, s: State, rs: set<Record>, r: Record)
    requires Agree(s) && HoldsLatest(c, s, rs) && (|s.held| < c.cap || r.id in s.held)
    ensures Agree(Insert(s, r)) && HoldsLatest(c, Insert(s, r), rs + {r})
  {
    KeysSize(s.held);
    FilledNext(s.held.Keys, Ids(rs), r.id, c.cap);
    LatestInserted(s, rs, r);
    InsertAgrees(s, r);
    InsertKeys(s, r);
    IdsGrow(rs, r);
    assert r.id in s.held ==> s.held.Keys + {r.id} == s.held.Keys;
  }

  lemma LatestRefused(c: Config, s: State, rs: set<Record>, r: Record)
    requires HoldsLatest(c, s, rs) && |s.held| >= c.cap && r.id !in s.held
    ensures HoldsLatest(c, s, rs + {r})
  {
    KeysSize(s.held);
    FilledNext(s.held.Keys, Ids(rs), r.id, c.cap);
    IdsGrow(rs, r);
  }

  lemma LatestNext(c: Config, s: State, rs: set<Record>, d: Delivery)
    requires Agree(s) && HoldsLatest(c, s, rs)
    ensures Agree(AfterAccept(c, s, d.r, d.now))
    ensures HoldsLatest(c, AfterAccept(c, s, d.r, d.now), if Verify(c, d.r, d.now) == None then rs + {d.r} else rs)
  {
    if Verify(c, d.r, d.now) == None {
      if |s.held| >= c.cap && d.r.id !in s.held {
        LatestRefused(c, s, rs, d.r);
      } else {
        LatestTaken(c, s, rs, d.r);
      }
    }
  }

  lemma KeysSize(m: map<Bytes, Silence>)
    ensures |m| == |m.Keys|
  {
  }

  /** After any deliveries at any times, no sweep coming between: as many of the delivered ids are held as the store
      has room for, each in a latest issue of everything that verified under it. */
  lemma {:induction false} HeldIsALatestIssue(c: Config, ds: seq<Delivery>)
    ensures Agree(AcceptAll(c, NOTHING, ds)) && HoldsLatest(c, AcceptAll(c, NOTHING, ds), Verified(c, ds))
  {
    if ds == [] {
      assert Ids(Verified(c, ds)) == {};
    } else {
      var front, d := ds[..|ds| - 1], ds[|ds| - 1];
      HeldIsALatestIssue(c, front);
      LatestNext(c, AcceptAll(c, NOTHING, front), Verified(c, front), d);
      VerifiedAppend(c, front, d);
      assert front + [d] == ds;
    }
  }

  lemma VerifiedAppend(c: Config, ds: seq<Delivery>, d: Delivery)
    ensures Verified(c, ds + [d]) == if Verify(c, d.r, d.now) == None then Verified(c, ds) + {d.r} else Verified(c, ds)
  {
  }

  // -- When order matters --------------------------------------------------------------------------------

  predicate Latest(rs: set<Record>, d: Record)
  {
    d in rs && forall e :: e in rs && e.id == d.id ==> e.issued <= d.issued
  }

  /** The latest issues of an id say the same. */
  ghost predicate LatestAgree(rs: set<Record>)
  {
    forall d, e :: Latest(rs, d) && Latest(rs, e) && d.id == e.id ==> Convert(d) == Convert(e)
  }

  ghost predicate UninterruptedOrderDoesNotMatter(c: Config, rs: set<Record>)
  {
    forall ds, es :: Verified(c, ds) == rs && Verified(c, es) == rs ==>
      AcceptAll(c, NOTHING, ds).held == AcceptAll(c, NOTHING, es).held
  }

  lemma HeldIsLatest(c: Config, s: State, rs: set<Record>, id: Bytes)
    requires Agree(s) && HoldsLatest(c, s, rs) && id in s.held
    ensures id in s.meta && Latest(rs, s.meta[id]) && s.meta[id].id == id && s.held[id] == Convert(s.meta[id])
  {
  }

  lemma SameKeys(a: set<Bytes>, b: set<Bytes>, ids: set<Bytes>, cap: nat)
    requires Filled(a, ids, cap) && Filled(b, ids, cap) && (cap == 0 || |ids| <= cap)
    ensures a == b
  {
    if cap > 0 {
      SubsetFits(a, ids);
      SubsetFits(b, ids);
    }
  }

  /** The store of a run that delivered `rs`. */
  predicate Outcome(c: Config, s: State, rs: set<Record>)
  {
    Agree(s) && HoldsLatest(c, s, rs)
  }

  ghost predicate Orderless(c: Config, rs: set<Record>)
  {
    c.cap == 0 || (|Ids(rs)| <= c.cap && LatestAgree(rs))
  }

  lemma SameIds(c: Config, s: State, t: State, rs: set<Record>)
    requires Outcome(c, s, rs) && Outcome(c, t, rs) && Orderless(c, rs)
    ensures s.held.Keys == t.held.Keys
  {
    SameKeys(s.held.Keys, t.held.Keys, Ids(rs), c.cap);
  }

  lemma SameHeld(c: Config, s: State, t: State, rs: set<Record>)
    requires Outcome(c, s, rs) && Outcome(c, t, rs) && Orderless(c, rs)
    ensures s.held == t.held
  {
    SameIds(c, s, t, rs);
    var a, b := s.held, t.held;
    forall id | id in a ensures a[id] == b[id] {
      SameAt(c, s, t, rs, id);
    }
    SameMaps(a, b);
  }

  lemma SameMaps(a: map<Bytes, Silence>, b: map<Bytes, Silence>)
    requires a.Keys == b.Keys && forall id :: id in a ==> a[id] == b[id]
    ensures a == b
  {
  }

  lemma SameAt(c: Config, s: State, t: State, rs: set<Record>, id: Bytes)
    requires Outcome(c, s, rs) && Outcome(c, t, rs) && Orderless(c, rs) && id in s.held && id in t.held
    ensures s.held[id] == t.held[id]
  {
    assert s.held.Keys != {};
    HeldIsLatest(c, s, rs, id);
    HeldIsLatest(c, t, rs, id);
  }

  lemma {:induction false} AcceptAllConcat(c: Config, s: State, a: seq<Delivery>, b: seq<Delivery>)
    ensures AcceptAll(c, s, a + b) == AcceptAll(c, AcceptAll(c, s, a), b)
  {
    if b == [] {
      assert a + b == a;
    } else {
      assert (a + b)[..|a + b| - 1] == a + b[..|b| - 1];
      AcceptAllConcat(c, s, a, b[..|b| - 1]);
    }
  }

  lemma {:induction false} IdsStay(c: Config, s: State, ds: seq<Delivery>)
    ensures s.held.Keys <= AcceptAll(c, s, ds).held.Keys
  {
    if ds != [] {
      IdsStay(c, s, ds[..|ds| - 1]);
    }
  }

  /** Some way to deliver the records. */
  lemma {:induction false} Listing(c: Config, rs: set<Record>) returns (ds: seq<Delivery>)
    requires forall r :: r in rs ==> Sound(c, r) && r.expires > 0
    ensures Verified(c, ds) == rs && forall d :: d in ds ==> d.now == 0 && d.r in rs
    decreases rs
  {
    if rs == {} {
      ds := [];
    } else {
      var r :| r in rs;
      ds := Listing(c, rs - {r});
      VerifiedMeansSound(c, r, 0);
      VerifiedAppend(c, ds, Delivery(r, 0));
      ds := ds + [Delivery(r, 0)];
    }
  }

  /** A store that cannot hold all ids keeps whichever come first: some order holds an id that another order leaves
      out. */
  lemma CapacityMakesOrderMatter(c: Config, rs: set<Record>) returns (ds: seq<Delivery>, es: seq<Delivery>)
    requires (forall r :: r in rs ==> Sound(c, r) && r.expires > 0) && 0 < c.cap < |Ids(rs)|
    ensures Verified(c, ds) == rs && Verified(c, es) == rs
    ensures AcceptAll(c, NOTHING, ds).held != AcceptAll(c, NOTHING, es).held
  {
    ds := Listing(c, rs);
    var x := LeftOut(c, rs, ds);
    VerifiedMeansSound(c, x, 0);
    es := [Delivery(x, 0)] + ds;
    assert Verified(c, es) == rs;
    StaysFirst(c, x, ds);
  }

  lemma LeftOut(c: Config, rs: set<Record>, ds: seq<Delivery>) returns (x: Record)
    requires Verified(c, ds) == rs && c.cap < |Ids(rs)|
    ensures x in rs && x.id !in AcceptAll(c, NOTHING, ds).held
  {
    HeldIsALatestIssue(c, ds);
    var keys := AcceptAll(c, NOTHING, ds).held.Keys;
    assert keys != Ids(rs);
    var id :| id in Ids(rs) && id !in keys;
    x :| x in rs && x.id == id;
  }

  lemma StaysFirst(c: Config, x: Record, ds: seq<Delivery>)
    requires Verify(c, x, 0) == None && c.cap > 0
    ensures x.id in AcceptAll(c, NOTHING, [Delivery(x, 0)] + ds).held
  {
    AcceptAllConcat(c, NOTHING, [Delivery(x, 0)], ds);
    TakenFirst(c, x);
    IdsStay(c, AcceptAll(c, NOTHING, [Delivery(x, 0)]), ds);
  }

  lemma TakenFirst(c: Config, x: Record)
    requires Verify(c, x, 0) == None && c.cap > 0
    ensures x.id in AcceptAll(c, NOTHING, [Delivery(x, 0)]).held
  {
    var ds := [Delivery(x, 0)];
    assert ds[..0] == [];
    assert AcceptAll(c, NOTHING, ds) == AfterAccept(c, AcceptAll(c, NOTHING, ds[..0]), x, 0);
  }

  /** Delivering a latest issue last leaves exactly it. */
  lemma LatestLast(c: Config, rs: set<Record>, ds: seq<Delivery>, d: Record)
    requires Verified(c, ds) == rs && Latest(rs, d) && Sound(c, d) && d.expires > 0 && 0 < |Ids(rs)| <= c.cap
    ensures Verified(c, ds + [Delivery(d, 0)]) == rs
    ensures var t := AcceptAll(c, NOTHING, ds + [Delivery(d, 0)]); d.id in t.held && t.held[d.id] == Convert(d)
  {
    VerifiedMeansSound(c, d, 0);
    VerifiedAppend(c, ds, Delivery(d, 0));
    assert rs + {d} == rs;
    HeldIsALatestIssue(c, ds);
    AcceptOne(c, NOTHING, ds, Delivery(d, 0));
    LatestReplaces(c, AcceptAll(c, NOTHING, ds), rs, d);
  }

  lemma AcceptOne(c: Config, s: State, ds: seq<Delivery>, d: Delivery)
    ensures AcceptAll(c, s, ds + [d]) == AfterAccept(c, AcceptAll(c, s, ds), d.r, d.now)
  {
    assert (ds + [d])[..|ds|] == ds;
  }

  lemma LatestReplaces(c: Config, s: State, rs: set<Record>, d: Record)
    requires Agree(s) && HoldsLatest(c, s, rs) && Latest(rs, d) && Verify(c, d, 0) == None && |Ids(rs)| <= c.cap
    ensures var t := AfterAccept(c, s, d, 0); d.id in t.held && t.held[d.id] == Convert(d)
  {
    SubsetFits(s.held.Keys, Ids(rs));
    assert d.id in Ids(rs) && s.held.Keys == Ids(rs);
    HeldIsLatest(c, s, rs, d.id);
  }

  lemma TiesMakeOrderMatter(c: Config, rs: set<Record>) returns (ds: seq<Delivery>, es: seq<Delivery>)
    requires (forall r :: r in rs ==> Sound(c, r) && r.expires > 0) && 0 < |Ids(rs)| <= c.cap && !LatestAgree(rs)
    ensures Verified(c, ds) == rs && Verified(c, es) == rs
    ensures AcceptAll(c, NOTHING, ds).held != AcceptAll(c, NOTHING, es).held
  {
    var d, e :| Latest(rs, d) && Latest(rs, e) && d.id == e.id && Convert(d) != Convert(e);
    var all := Listing(c, rs);
    LatestLast(c, rs, all, d);
    LatestLast(c, rs, all, e);
    ds, es := all + [Delivery(d, 0)], all + [Delivery(e, 0)];
  }

  /** Agents that were sent the same judgements hold the same silences, whatever order the mesh delivered them in and
      however often, exactly when the store can hold all their ids and the latest issues of each id say the same; a
      store without any room holds nothing in every order. */
  lemma UninterruptedOrderDoesNotMatterExactlyWhen(c: Config, rs: set<Record>)
    requires forall r :: r in rs ==> Sound(c, r) && r.expires > 0
    ensures UninterruptedOrderDoesNotMatter(c, rs) <==> c.cap == 0 || (|Ids(rs)| <= c.cap && LatestAgree(rs))
  {
    if Orderless(c, rs) {
      forall ds, es | Verified(c, ds) == rs && Verified(c, es) == rs
        ensures AcceptAll(c, NOTHING, ds).held == AcceptAll(c, NOTHING, es).held
      {
        HeldIsALatestIssue(c, ds);
        HeldIsALatestIssue(c, es);
        SameHeld(c, AcceptAll(c, NOTHING, ds), AcceptAll(c, NOTHING, es), rs);
      }
    } else if |Ids(rs)| > c.cap {
      var ds, es := CapacityMakesOrderMatter(c, rs);
    } else {
      var d, e :| Latest(rs, d) && Latest(rs, e) && d.id == e.id && Convert(d) != Convert(e);
      assert d.id in Ids(rs);
      var ds, es := TiesMakeOrderMatter(c, rs);
    }
  }

  /** Both are wanted and only one fits. */
  predicate Compete(c: Config, s: State, a: Record, b: Record)
  {
    a.id != b.id && a.id !in s.held && b.id !in s.held && |s.held| + 1 == c.cap
  }

  /** Both are to be held under one id, from one millisecond, and say different things. */
  predicate Tie(c: Config, s: State, a: Record, b: Record)
  {
    && a.id == b.id && a.issued == b.issued && Convert(a) != Convert(b)
    && (if a.id in s.held then s.held[a.id].issued <= a.issued else |s.held| < c.cap)
  }

  lemma OnePush(c: Config, s: State, a: Record, now: nat)
    ensures AfterAccept(c, s, a, now).held ==
      if Verify(c, a, now) != None ||
        (|s.held| >= c.cap && a.id !in s.held) then s.held else SetAfter(s.held, Convert(a))
  {
  }

  /** In any store at any time two deliveries commute unless both verify and they compete for the last place or tie. */
  lemma TwoDeliveriesCommute(c: Config, s: State, a: Record, b: Record, now: nat)
    ensures var ab := AfterAccept(c, AfterAccept(c, s, a, now), b, now).held;
      var ba := AfterAccept(c, AfterAccept(c, s, b, now), a, now).held;
      ab == ba <==>
      !(Verify(c, a, now) == None && Verify(c, b, now) == None && (Compete(c, s, a, b) || Tie(c, s, a, b)))
  {
    var sa, sb := AfterAccept(c, s, a, now), AfterAccept(c, s, b, now);
    OnePush(c, s, a, now);
    OnePush(c, s, b, now);
    OnePush(c, sa, b, now);
    OnePush(c, sb, a, now);
    if Verify(c, a, now) == None && Verify(c, b, now) == None {
      HeldCommutes(s.held, Convert(a), Convert(b), c.cap);
    }
  }

  /** What a store of room `cap` does with a silence that verified. */
  function Place(held: map<Bytes, Silence>, a: Silence, cap: nat): map<Bytes, Silence>
  {
    if |held| >= cap && a.id !in held then held else SetAfter(held, a)
  }

  lemma PlaceKeys(held: map<Bytes, Silence>, a: Silence, cap: nat)
    ensures Place(held, a, cap).Keys == if a.id !in held && |held| < cap then held.Keys + {a.id} else held.Keys
  {
  }

  lemma PlaceSize(held: map<Bytes, Silence>, a: Silence, cap: nat)
    ensures |Place(held, a, cap)| == |held| + if a.id !in held && |held| < cap then 1 else 0
  {
    PlaceKeys(held, a, cap);
    KeysSize(held);
    KeysSize(Place(held, a, cap));
  }

  lemma PlaceAt(held: map<Bytes, Silence>, a: Silence, cap: nat)
    ensures forall id :: id != a.id ==> (id in Place(held, a, cap) <==> id in held)
    ensures forall id :: id != a.id && id in held ==> Place(held, a, cap)[id] == held[id]
    ensures a.id in held || |held| < cap ==>
      a.id in Place(held, a, cap) && Place(held, a, cap)[a.id] == if a.id in held &&
        held[a.id].issued > a.issued then held[a.id] else a
  {
  }

  lemma OtherIdsCommute(held: map<Bytes, Silence>, a: Silence, b: Silence, cap: nat)
    requires a.id != b.id
    ensures Place(Place(held, a, cap), b, cap) == Place(Place(held, b, cap), a, cap) <==>
            !(a.id !in held && b.id !in held && |held| + 1 == cap)
  {
    var ha, hb := Place(held, a, cap), Place(held, b, cap);
    PlaceSize(held, a, cap);
    PlaceSize(held, b, cap);
    PlaceAt(held, a, cap);
    PlaceAt(held, b, cap);
    PlaceAt(ha, b, cap);
    PlaceAt(hb, a, cap);
    var x, y := Place(ha, b, cap), Place(hb, a, cap);
    if a.id !in held && b.id !in held && |held| + 1 == cap {
      assert a.id in x && a.id !in y;
    } else {
      assert x.Keys == y.Keys;
      assert forall id :: id in x ==> x[id] == y[id];
    }
  }

  lemma SameIdCommutes(held: map<Bytes, Silence>, a: Silence, b: Silence, cap: nat)
    requires a.id == b.id
    ensures Place(Place(held, a, cap), b, cap) == Place(Place(held, b, cap), a, cap) <==>
            !(&& a.issued == b.issued && a != b
              && (if a.id in held then held[a.id].issued <= a.issued else |held| < cap))
  {
    if |held| >= cap && a.id !in held {
      assert Place(held, a, cap) == held && Place(held, b, cap) == held;
    } else {
      var kept := if a.id in held then Some(held[a.id]) else None;
      var x, y := Place(Place(held, a, cap), b, cap), Place(Place(held, b, cap), a, cap);
      assert x == held[a.id := Later(Later(kept, a), b).value] && y == held[a.id := Later(Later(kept, b), a).value];
      assert x[a.id] == y[a.id] ==> x == y;
    }
  }

  function Later(kept: Option<Silence>, a: Silence): (r: Option<Silence>)
    ensures r.Some?
  {
    if kept.Some? && kept.value.issued > a.issued then kept else Some(a)
  }

  lemma HeldCommutes(held: map<Bytes, Silence>, a: Silence, b: Silence, cap: nat)
    ensures Place(Place(held, a, cap), b, cap) == Place(Place(held, b, cap), a, cap) <==>
            !(|| (a.id != b.id && a.id !in held && b.id !in held && |held| + 1 == cap)
              || (&& a.id == b.id && a.issued == b.issued && a != b
                  && (if a.id in held then held[a.id].issued <= a.issued else |held| < cap)))
  {
    if a.id == b.id {
      SameIdCommutes(held, a, b, cap);
    } else {
      OtherIdsCommute(held, a, b, cap);
    }
  }

  // -- Copies that come again ----------------------------------------------------------------------------

  /** A push, a sweep, or a restart from a file in step with memory. */
  datatype Op = Take(d: Delivery) | Clear(now: nat) | Reload(now: nat)

  function Apply(c: Config, s: State, op: Op): State
  {
    match op
    case Take(d) => AfterAccept(c, s, d.r, d.now)
    case Clear(now) => AfterSweep(s, now)
    case Reload(now) => AfterRestart(s, now)
  }

  function At(op: Op): nat
  {
    if op.Take? then op.d.now else op.now
  }

  function RunOps(c: Config, s: State, ops: seq<Op>): State
  {
    if ops == [] then s else Apply(c, RunOps(c, s, ops[..|ops| - 1]), ops[|ops| - 1])
  }

  /** A sweep or a restart found the judgement then held under the id expired. */
  predicate Expires(c: Config, s: State, ops: seq<Op>, i: nat, id: Bytes)
    requires i < |ops|
  {
    && !ops[i].Take? && id in RunOps(c, s, ops[..i]).held
    && RunOps(c, s, ops[..i]).held[id].expires <= ops[i].now
  }

  lemma OneOp(c: Config, s: State, op: Op, id: Bytes)
    requires id in s.held && (!op.Take? ==> op.now < s.held[id].expires)
    ensures id in Apply(c, s, op).held && Apply(c, s, op).held[id].issued >= s.held[id].issued
  {
    if !op.Take? {
      assert Apply(c, s, op).held == Live(s.held, op.now);
    }
  }

  lemma {:induction false} StaysUnlessExpired(c: Config, s: State, ops: seq<Op>, id: Bytes)
    requires id in s.held && forall i :: 0 <= i < |ops| ==> !Expires(c, s, ops, i, id)
    ensures id in RunOps(c, s, ops).held && RunOps(c, s, ops).held[id].issued >= s.held[id].issued
  {
    if ops != [] {
      var n := |ops| - 1;
      forall i | 0 <= i < n ensures !Expires(c, s, ops[..n], i, id) {
        assert ops[..n][..i] == ops[..i] && !Expires(c, s, ops, i, id);
      }
      StaysUnlessExpired(c, s, ops[..n], id);
      assert !Expires(c, s, ops, n, id);
      OneOp(c, RunOps(c, s, ops[..n]), ops[n], id);
    }
  }

  /** A record that was accepted comes again after any pushes, sweeps and restarts. As long as none of these found
      what was held under its id expired, that is a change, and so is relayed again, exactly when it still verifies
      and another judgement of its id from the same millisecond has replaced it. When its id is gone it is a change
      exactly when it still verifies and there is room. */
  lemma RedeliveryIsAChangeExactlyWhen(c: Config, before: State, r: Record, t: nat, ops: seq<Op>, now: nat)
    requires AnswerTo(c, before, r, t).Accepted?
    ensures var start := AfterAccept(c, before, r, t); var s := RunOps(c, start, ops);
      && ((forall i :: 0 <= i < |ops| ==> !Expires(c, start, ops, i, r.id)) ==>
            && r.id in s.held
            && (AnswerTo(c, s, r, now) == Accepted(true) <==>
                  Verify(c, r, now) == None && s.held[r.id].issued == r.issued && s.held[r.id] != Convert(r)))
      && (r.id !in s.held ==>
            (AnswerTo(c, s, r, now) == Accepted(true) <==> Verify(c, r, now) == None && |s.held| < c.cap))
  {
    var start := AfterAccept(c, before, r, t);
    assert r.id in start.held && start.held[r.id].issued >= r.issued;
    if forall i :: 0 <= i < |ops| ==> !Expires(c, start, ops, i, r.id) {
      StaysUnlessExpired(c, start, ops, r.id);
    }
  }

  // -- When order matters, with sweeps and restarts in between -----------------------------------------------

  function Takes(ds: seq<Delivery>): seq<Op>
  {
    seq(|ds|, i requires 0 <= i < |ds| => Take(ds[i]))
  }

  /** The records among the operations that verified when they came. */
  function Taken(c: Config, ops: seq<Op>): set<Record>
  {
    set op | op in ops && op.Take? && Verify(c, op.d.r, op.d.now) == None :: op.d.r
  }

  /** A run up to time `t`, under a clock that does not go back, that brings in exactly `rs`. */
  predicate Brings(c: Config, ops: seq<Op>, rs: set<Record>, t: nat)
  {
    && (forall i, j :: 0 <= i < j < |ops| ==> At(ops[i]) <= At(ops[j]))
    && (forall i :: 0 <= i < |ops| ==> At(ops[i]) <= t)
    && Taken(c, ops) == rs
  }

  /** What is in force at `t` after a run. */
  function InForce(c: Config, ops: seq<Op>, t: nat): map<Bytes, Silence>
  {
    Live(RunOps(c, NOTHING, ops).held, t)
  }

  ghost predicate OrderDoesNotMatter(c: Config, rs: set<Record>, t: nat)
  {
    forall a, b :: Brings(c, a, rs, t) && Brings(c, b, rs, t) ==> InForce(c, a, t) == InForce(c, b, t)
  }

  /** No issue of an id outlives `t` unless its latest issues do. */
  predicate LatestOutlive(rs: set<Record>, t: nat)
  {
    forall d, e :: d in rs && e in rs && Latest(rs, e) && e.id == d.id && t < d.expires ==> t < e.expires
  }

  /** The latest issues of an id that outlive `t` say the same as its other latest issues. */
  predicate LiveAgreeing(rs: set<Record>, t: nat)
  {
    forall d, e :: d in rs && e in rs && Latest(rs, d) && Latest(rs, e) && d.id == e.id && t < d.expires ==>
      Convert(d) == Convert(e)
  }

  lemma {:induction false} RunTakes(c: Config, s: State, ds: seq<Delivery>)
    ensures RunOps(c, s, Takes(ds)) == AcceptAll(c, s, ds)
  {
    if ds != [] {
      var front := ds[..|ds| - 1];
      RunTakes(c, s, front);
      assert Takes(ds)[..|ds| - 1] == Takes(front);
    }
  }

  lemma TakenIsVerified(c: Config, ds: seq<Delivery>)
    ensures Taken(c, Takes(ds)) == Verified(c, ds)
  {
    forall r | r in Verified(c, ds) ensures r in Taken(c, Takes(ds)) {
      var d :| d in ds && Verify(c, d.r, d.now) == None && d.r == r;
      var i :| 0 <= i < |ds| && ds[i] == d;
      assert Takes(ds)[i] in Takes(ds);
    }
    forall r | r in Taken(c, Takes(ds)) ensures r in Verified(c, ds) {
      var op :| op in Takes(ds) && op.Take? && Verify(c, op.d.r, op.d.now) == None && op.d.r == r;
      var i :| 0 <= i < |ds| && Takes(ds)[i] == op;
      assert ds[i] in ds;
    }
  }

  lemma TakenAppend(c: Config, ops: seq<Op>, op: Op)
    ensures Taken(c, ops + [op]) ==
      if op.Take? && Verify(c, op.d.r, op.d.now) == None then Taken(c, ops) + {op.d.r} else Taken(c, ops)
  {
  }

  lemma RunAppend(c: Config, s: State, ops: seq<Op>, op: Op)
    ensures RunOps(c, s, ops + [op]) == Apply(c, RunOps(c, s, ops), op)
  {
    assert (ops + [op])[..|ops|] == ops;
  }

  // The condition suffices.

  /** Every record held was brought in, and a latest issue that outlives `t` is never displaced once it came. */
  predicate KeepsLatest(s: State, taken: set<Record>, rs: set<Record>, t: nat)
  {
    && Agree(s)
    && (forall id :: id in s.meta ==> s.meta[id] in taken)
    && (forall e :: e in taken && Latest(rs, e) && t < e.expires ==> e.id in s.held && s.held[e.id].issued >= e.issued)
  }

  lemma DropKeepsLatest(s: State, l: State, taken: set<Record>, rs: set<Record>, now: nat, t: nat)
    requires KeepsLatest(s, taken, rs, t) && taken <= rs && now <= t && Agree(l) && l.held == Live(s.held, now)
    requires forall id :: id in l.meta ==> id in s.meta && l.meta[id] == s.meta[id]
    requires LatestOutlive(rs, t)
    ensures KeepsLatest(l, taken, rs, t)
  {
    forall e | e in taken && Latest(rs, e) && t < e.expires ensures e.id in l.held && l.held[e.id].issued >= e.issued {
      var m := s.meta[e.id];
      assert m in rs && Latest(rs, m);
    }
  }

  lemma TakeKeepsLatest(c: Config, s: State, taken: set<Record>, rs: set<Record>, d: Delivery, t: nat)
    requires KeepsLatest(s, taken, rs, t) && d.r in rs && taken <= rs && |Ids(rs)| <= c.cap &&
      Verify(c, d.r, d.now) == None
    ensures KeepsLatest(AfterAccept(c, s, d.r, d.now), taken + {d.r}, rs, t)
  {
    if d.r.id !in s.held {
      Room(s, taken, rs, d.r.id);
      KeysSize(s.held);
    }
    InsertKeepsLatest(s, taken, rs, d.r, t);
  }

  lemma InsertKeepsLatest(s: State, taken: set<Record>, rs: set<Record>, r: Record, t: nat)
    requires KeepsLatest(s, taken, rs, t)
    ensures KeepsLatest(Insert(s, r), taken + {r}, rs, t)
  {
    InsertAgrees(s, r);
  }

  lemma Room(s: State, taken: set<Record>, rs: set<Record>, id: Bytes)
    requires Agree(s) && (forall x :: x in s.meta ==> s.meta[x] in taken) && taken <= rs && id in Ids(rs) &&
      id !in s.held
    ensures |s.held.Keys| < |Ids(rs)|
  {
    forall x | x in s.held.Keys ensures x in Ids(rs) - {id} {
      assert s.meta[x] in rs && s.meta[x].id == x;
    }
    SubsetFits(s.held.Keys, Ids(rs) - {id});
  }

  lemma ApplyKeepsLatest(c: Config, s: State, taken: set<Record>, rs: set<Record>, op: Op, t: nat)
    requires KeepsLatest(s, taken, rs, t) && taken <= rs && |Ids(rs)| <= c.cap && At(op) <= t && LatestOutlive(rs, t)
    requires op.Take? && Verify(c, op.d.r, op.d.now) == None ==> op.d.r in rs
    ensures KeepsLatest(Apply(c, s, op), if op.Take? &&
      Verify(c, op.d.r, op.d.now) == None then taken + {op.d.r} else taken, rs, t)
  {
    match op
    case Take(d) =>
      if Verify(c, d.r, d.now) == None {
        TakeKeepsLatest(c, s, taken, rs, d, t);
      }
    case Clear(now) =>
      SweepAgrees(s, now);
      DropKeepsLatest(s, AfterSweep(s, now), taken, rs, now, t);
    case Reload(now) =>
      RestartAgrees(s, now);
      DropKeepsLatest(s, AfterRestart(s, now), taken, rs, now, t);
  }

  lemma RestartAgrees(s: State, now: nat)
    requires Agree(s)
    ensures Agree(AfterRestart(s, now))
    ensures forall id :: id in AfterRestart(s, now).meta ==> id in s.meta && AfterRestart(s, now).meta[id] == s.meta[id]
  {
  }

  lemma {:induction false} RunKeepsLatest(c: Config, ops: seq<Op>, rs: set<Record>, t: nat)
    requires Taken(c, ops) <= rs && |Ids(rs)| <= c.cap && LatestOutlive(rs, t) && forall i :: 0 <= i < |ops| ==>
      At(ops[i]) <= t
    ensures KeepsLatest(RunOps(c, NOTHING, ops), Taken(c, ops), rs, t)
  {
    if ops != [] {
      var front, op := ops[..|ops| - 1], ops[|ops| - 1];
      assert front + [op] == ops;
      TakenAppend(c, front, op);
      RunKeepsLatest(c, front, rs, t);
      ApplyKeepsLatest(c, RunOps(c, NOTHING, front), Taken(c, front), rs, op, t);
    }
  }

  /** What is in force at `t` when the condition holds: for each id with an issue that outlives `t`, its latest one. */
  lemma InForceIsLatest(c: Config, ops: seq<Op>, rs: set<Record>, t: nat, id: Bytes)
    requires Brings(c, ops, rs, t) && |Ids(rs)| <= c.cap && LatestOutlive(rs, t)
    ensures id in InForce(c, ops, t) <==> exists d :: d in rs && d.id == id && t < d.expires
    ensures id in InForce(c, ops, t) ==>
      exists e ::
        e in rs && Latest(rs, e) && e.id == id && t < e.expires && InForce(c, ops, t)[id] == Convert(e)
  {
    RunKeepsLatest(c, ops, rs, t);
    var s := RunOps(c, NOTHING, ops);
    if d :| d in rs && d.id == id && t < d.expires {
      var e := ALatest(rs, d);
      assert e.id in s.held && s.held[e.id].issued >= e.issued;
      var m := s.meta[id];
      assert m in rs && Latest(rs, m) && t < m.expires;
    }
    if id in InForce(c, ops, t) {
      assert s.meta[id] in rs && s.meta[id].id == id && t < s.meta[id].expires;
    }
  }

  lemma {:induction false} ALatest(rs: set<Record>, d: Record) returns (e: Record)
    requires d in rs
    ensures e in rs && Latest(rs, e) && e.id == d.id && d.issued <= e.issued
    decreases rs
  {
    if Latest(rs, d) {
      e := d;
    } else {
      var x :| x in rs && x.id == d.id && x.issued > d.issued;
      e := ALatest(rs - {d}, x);
      forall y | y in rs && y.id == e.id ensures y.issued <= e.issued {
      }
    }
  }

  lemma SameInForce(c: Config, a: seq<Op>, b: seq<Op>, rs: set<Record>, t: nat)
    requires Brings(c, a, rs, t) && Brings(c, b, rs, t) && |Ids(rs)| <= c.cap && LatestOutlive(rs, t) &&
      LiveAgreeing(rs, t)
    ensures InForce(c, a, t) == InForce(c, b, t)
  {
    var x, y := InForce(c, a, t), InForce(c, b, t);
    forall id ensures id in x <==> id in y {
      InForceIsLatest(c, a, rs, t, id);
      InForceIsLatest(c, b, rs, t, id);
    }
    forall id | id in x ensures x[id] == y[id] {
      SameInForceAt(c, a, b, rs, t, id);
    }
    SameMaps(x, y);
  }

  lemma SameInForceAt(c: Config, a: seq<Op>, b: seq<Op>, rs: set<Record>, t: nat, id: Bytes)
    requires Brings(c, a, rs, t) && Brings(c, b, rs, t) && |Ids(rs)| <= c.cap && LatestOutlive(rs, t) &&
      LiveAgreeing(rs, t)
    requires id in InForce(c, a, t) && id in InForce(c, b, t)
    ensures InForce(c, a, t)[id] == InForce(c, b, t)[id]
  {
    InForceIsLatest(c, a, rs, t, id);
    InForceIsLatest(c, b, rs, t, id);
    var d :| d in rs && Latest(rs, d) && d.id == id && t < d.expires && InForce(c, a, t)[id] == Convert(d);
    var e :| e in rs && Latest(rs, e) && e.id == id && t < e.expires && InForce(c, b, t)[id] == Convert(e);
  }

  /** With no room nothing is ever held. */
  lemma {:induction false} NoRoomHoldsNothing(c: Config, ops: seq<Op>)
    requires c.cap == 0
    ensures RunOps(c, NOTHING, ops).held == map[]
  {
    if ops != [] {
      NoRoomHoldsNothing(c, ops[..|ops| - 1]);
    }
  }

  /** Whatever the sizes, what is held was brought in. */
  lemma {:induction false} HeldWasTaken(c: Config, ops: seq<Op>)
    ensures Agree(RunOps(c, NOTHING, ops))
    ensures forall id :: id in RunOps(c, NOTHING, ops).meta ==> RunOps(c, NOTHING, ops).meta[id] in Taken(c, ops)
  {
    if ops != [] {
      var front, op := ops[..|ops| - 1], ops[|ops| - 1];
      HeldWasTaken(c, front);
      assert front + [op] == ops;
      TakenAppend(c, front, op);
      TakenNext(c, RunOps(c, NOTHING, front), op);
    }
  }

  lemma TakenNext(c: Config, s: State, op: Op)
    requires Agree(s)
    ensures Agree(Apply(c, s, op))
    ensures forall id :: id in Apply(c, s, op).meta ==>
      || (id in s.meta && Apply(c, s, op).meta[id] == s.meta[id])
      || (op.Take? && Verify(c, op.d.r, op.d.now) == None && Apply(c, s, op).meta[id] == op.d.r)
  {
    match op
    case Take(d) => InsertAgrees(s, d.r);
    case Clear(now) => SweepAgrees(s, now);
    case Reload(now) => RestartAgrees(s, now);
  }

  lemma NothingInForce(c: Config, ops: seq<Op>, rs: set<Record>, t: nat)
    requires Brings(c, ops, rs, t) && forall d :: d in rs ==> d.expires <= t
    ensures InForce(c, ops, t) == map[]
  {
    HeldWasTaken(c, ops);
    var s := RunOps(c, NOTHING, ops);
    forall id | id in s.held ensures s.held[id].expires <= t {
      assert s.meta[id] in rs;
    }
  }

  // The condition is needed.

  lemma TakesBring(c: Config, ds: seq<Delivery>, rs: set<Record>, t: nat)
    requires Verified(c, ds) == rs && forall d :: d in ds ==> d.now == 0
    ensures Brings(c, Takes(ds), rs, t)
    ensures forall i :: 0 <= i < |Takes(ds)| ==> At(Takes(ds)[i]) == 0
  {
    TakenIsVerified(c, ds);
    forall i | 0 <= i < |ds| ensures At(Takes(ds)[i]) == 0 {
      assert ds[i] in ds;
    }
  }

  /** The same again, then a sweep at `t`, then a record of it once more. */
  function Again(ds: seq<Delivery>, d: Record, t: nat): seq<Op>
  {
    Takes(ds) + [Clear(t)] + [Take(Delivery(d, t))]
  }

  lemma AgainBrings(c: Config, ds: seq<Delivery>, rs: set<Record>, d: Record, t: nat)
    requires Verified(c, ds) == rs && (forall x :: x in ds ==> x.now == 0) && d in rs && Verify(c, d, t) == None
    ensures Brings(c, Again(ds, d, t), rs, t)
  {
    TakesBring(c, ds, rs, t);
    TakenAppend(c, Takes(ds), Clear(t));
    TakenAppend(c, Takes(ds) + [Clear(t)], Take(Delivery(d, t)));
    assert rs + {d} == rs;
  }

  /** After a sweep at `t` a record that outlives `t` has its id in force, if the id was held before or there is room.
      */
  lemma AgainInForce(c: Config, ds: seq<Delivery>, d: Record, t: nat)
    requires Verify(c, d, t) == None && t < d.expires
    requires var s := AcceptAll(c, NOTHING, ds); |s.held| <= c.cap && (d.id in s.held || |s.held| < c.cap)
    ensures d.id in InForce(c, Again(ds, d, t), t)
  {
    var s := AcceptAll(c, NOTHING, ds);
    RunTakes(c, NOTHING, ds);
    RunAppend(c, NOTHING, Takes(ds), Clear(t));
    RunAppend(c, NOTHING, Takes(ds) + [Clear(t)], Take(Delivery(d, t)));
    SweptAgain(c, s, d, t);
  }

  lemma SweptAgain(c: Config, s: State, d: Record, t: nat)
    requires Verify(c, d, t) == None && t < d.expires && |s.held| <= c.cap && (d.id in s.held || |s.held| < c.cap)
    ensures d.id in Live(AfterAccept(c, AfterSweep(s, t), d, t).held, t)
  {
    var l := AfterSweep(s, t);
    assert l.held == Live(s.held, t);
    LiveIsSmaller(s.held, t);
    if d.id !in l.held && d.id in s.held {
      assert l.held != s.held;
    }
  }

  /** An older issue that outlives the latest: delivered before it, nothing is in force at `t`; delivered again after
      a sweep or a restart that dropped the latest, it is. */
  lemma OutlivedOrderMatters(c: Config, rs: set<Record>, d: Record, e: Record, t: nat) returns (a: seq<Op>, b: seq<Op>)
    requires (forall r :: r in rs ==> Sound(c, r) && r.expires > 0) && 0 < |Ids(rs)| <= c.cap
    requires d in rs && Latest(rs, e) && d.id == e.id && e.expires <= t < d.expires
    ensures Brings(c, a, rs, t) && Brings(c, b, rs, t) && d.id !in InForce(c, a, t) && d.id in InForce(c, b, t)
  {
    var ds := Listing(c, rs);
    LatestLast(c, rs, ds, e);
    TakesBring(c, ds + [Delivery(e, 0)], rs, t);
    a := Takes(ds + [Delivery(e, 0)]);
    RunTakes(c, NOTHING, ds + [Delivery(e, 0)]);
    VerifiedMeansSound(c, d, t);
    AgainBrings(c, ds, rs, d, t);
    b := Again(ds, d, t);
    RoomFor(c, ds, rs, d.id);
    AgainInForce(c, ds, d, t);
  }

  lemma RoomFor(c: Config, ds: seq<Delivery>, rs: set<Record>, id: Bytes)
    requires Verified(c, ds) == rs && id in Ids(rs)
    ensures var s := AcceptAll(c, NOTHING, ds); |s.held| <= c.cap && (|Ids(rs)| <= c.cap ==> id in s.held)
  {
    HeldIsALatestIssue(c, ds);
    var s := AcceptAll(c, NOTHING, ds);
    KeysSize(s.held);
    SubsetFits(s.held.Keys, Ids(rs));
  }

  lemma TiedOrderMatters(c: Config, rs: set<Record>, d: Record, e: Record, t: nat) returns (a: seq<Op>, b: seq<Op>)
    requires (forall r :: r in rs ==> Sound(c, r) && r.expires > 0) && 0 < |Ids(rs)| <= c.cap
    requires Latest(rs, d) && Latest(rs, e) && d.id == e.id && t < d.expires && Convert(d) != Convert(e)
    ensures Brings(c, a, rs, t) && Brings(c, b, rs, t) && InForce(c, a, t) != InForce(c, b, t)
  {
    var ds := Listing(c, rs);
    LatestLast(c, rs, ds, d);
    LatestLast(c, rs, ds, e);
    TakesBring(c, ds + [Delivery(d, 0)], rs, t);
    TakesBring(c, ds + [Delivery(e, 0)], rs, t);
    a, b := Takes(ds + [Delivery(d, 0)]), Takes(ds + [Delivery(e, 0)]);
    RunTakes(c, NOTHING, ds + [Delivery(d, 0)]);
    RunTakes(c, NOTHING, ds + [Delivery(e, 0)]);
    assert d.id in InForce(c, a, t) && InForce(c, a, t)[d.id] == Convert(d);
    assert d.id in InForce(c, b, t) ==> InForce(c, b, t)[d.id] == Convert(e);
  }

  lemma {:induction false} FullRefuses(c: Config, s: State, ds: seq<Delivery>)
    requires |s.held| >= c.cap && forall d :: d in ds ==> d.r.id !in s.held
    ensures AcceptAll(c, s, ds) == s
  {
    if ds != [] {
      var front := ds[..|ds| - 1];
      assert forall d :: d in front ==> d in ds;
      FullRefuses(c, s, front);
      assert ds[|ds| - 1] in ds;
    }
  }

  lemma CrowdedOut(c: Config, rs: set<Record>, d: Record, t: nat) returns (a: seq<Op>)
    requires (forall r :: r in rs ==> Sound(c, r) && r.expires > 0) && 0 < c.cap < |Ids(rs)| && d in rs
    ensures Brings(c, a, rs, t) && d.id !in InForce(c, a, t)
  {
    var others, mine := set r | r in rs && r.id != d.id, set r | r in rs && r.id == d.id;
    var xs := Listing(c, others);
    var ys := Listing(c, mine);
    LeftOutLast(c, rs, others, d.id, xs, ys);
    VerifiedConcat(c, xs, ys);
    assert others + mine == rs;
    TakesBring(c, xs + ys, rs, t);
    a := Takes(xs + ys);
    RunTakes(c, NOTHING, xs + ys);
  }

  lemma CrowdedIn(c: Config, rs: set<Record>, d: Record, t: nat) returns (b: seq<Op>)
    requires (forall r :: r in rs ==> Sound(c, r) && r.expires > 0) && 0 < c.cap && d in rs && t < d.expires
    ensures Brings(c, b, rs, t) && d.id in InForce(c, b, t)
  {
    var all := Listing(c, rs);
    var zs := [Delivery(d, 0)] + all;
    VerifiedMeansSound(c, d, 0);
    VerifiedMeansSound(c, d, t);
    VerifiedConcat(c, [Delivery(d, 0)], all);
    assert Verified(c, [Delivery(d, 0)]) == {d} && {d} + rs == rs;
    AgainBrings(c, zs, rs, d, t);
    b := Again(zs, d, t);
    assert d.id in Ids(rs);
    StaysFirst(c, d, all);
    RoomFor(c, zs, rs, d.id);
    AgainInForce(c, zs, d, t);
  }

  /** More ids than places: an id with a live issue is left out when all others come first, and held when it comes
      first. */
  lemma CrowdedOrderMatters(c: Config, rs: set<Record>, d: Record, t: nat) returns (a: seq<Op>, b: seq<Op>)
    requires (forall r :: r in rs ==> Sound(c, r) && r.expires > 0) && 0 < c.cap < |Ids(rs)| && d in rs && t < d.expires
    ensures Brings(c, a, rs, t) && Brings(c, b, rs, t) && d.id !in InForce(c, a, t) && d.id in InForce(c, b, t)
  {
    a := CrowdedOut(c, rs, d, t);
    b := CrowdedIn(c, rs, d, t);
  }

  lemma VerifiedConcat(c: Config, a: seq<Delivery>, b: seq<Delivery>)
    ensures Verified(c, a + b) == Verified(c, a) + Verified(c, b)
  {
  }

  lemma LeftOutLast(c: Config, rs: set<Record>, others: set<Record>, id: Bytes, xs: seq<Delivery>, ys: seq<Delivery>)
    requires 0 < c.cap < |Ids(rs)| && others == (set r | r in rs && r.id != id) && Verified(c, xs) == others
    requires forall y :: y in ys ==> y.r.id == id
    ensures id !in AcceptAll(c, NOTHING, xs + ys).held
  {
    HeldIsALatestIssue(c, xs);
    var s := AcceptAll(c, NOTHING, xs);
    assert Ids(rs) <= Ids(others) + {id} by {
      forall x | x in Ids(rs) ensures x in Ids(others) + {id} {
        var r :| r in rs && r.id == x;
        assert x != id ==> r in others;
      }
    }
    SubsetFits(Ids(rs), Ids(others) + {id});
    assert id !in Ids(others) && |Ids(others)| >= c.cap;
    KeysSize(s.held);
    AcceptAllConcat(c, NOTHING, xs, ys);
    FullRefuses(c, s, ys);
  }

  /** Stores that were brought the same judgements by time `t`, in whatever order and number and with whatever sweeps
      and restarts in between, have the same silences in force at `t` exactly when: there is no room at all, or none
      of the judgements outlives `t`, or all their ids fit, no issue of an id outlives `t` unless its latest issues
      do, and those say the same. */
  lemma DeliveryOrderDoesNotMatterExactlyWhen(c: Config, rs: set<Record>, t: nat)
    requires forall r :: r in rs ==> Sound(c, r) && r.expires > 0
    ensures OrderDoesNotMatter(c, rs, t) <==>
            (|| c.cap == 0
             || (forall d :: d in rs ==> d.expires <= t)
             || (|Ids(rs)| <= c.cap && LatestOutlive(rs, t) && LiveAgreeing(rs, t)))
  {
    if c.cap == 0 {
      forall ops ensures RunOps(c, NOTHING, ops).held == map[] {
        NoRoomHoldsNothing(c, ops);
      }
    } else if forall d :: d in rs ==> d.expires <= t {
      forall a | Brings(c, a, rs, t) ensures InForce(c, a, t) == map[] {
        NothingInForce(c, a, rs, t);
      }
    } else if |Ids(rs)| <= c.cap && LatestOutlive(rs, t) && LiveAgreeing(rs, t) {
      forall a, b | Brings(c, a, rs, t) && Brings(c, b, rs, t) ensures InForce(c, a, t) == InForce(c, b, t) {
        SameInForce(c, a, b, rs, t);
      }
    } else {
      var a, b := SomeOrderMatters(c, rs, t);
    }
  }

  lemma SomeOrderMatters(c: Config, rs: set<Record>, t: nat) returns (a: seq<Op>, b: seq<Op>)
    requires (forall r :: r in rs ==> Sound(c, r) && r.expires > 0) && c.cap > 0 && exists d :: d in rs && t < d.expires
    requires !(|Ids(rs)| <= c.cap && LatestOutlive(rs, t) && LiveAgreeing(rs, t))
    ensures Brings(c, a, rs, t) && Brings(c, b, rs, t) && InForce(c, a, t) != InForce(c, b, t)
  {
    var d :| d in rs && t < d.expires;
    assert d.id in Ids(rs);
    if |Ids(rs)| > c.cap {
      a, b := CrowdedOrderMatters(c, rs, d, t);
    } else if !LatestOutlive(rs, t) {
      var x, e :| x in rs && e in rs && Latest(rs, e) && e.id == x.id && t < x.expires && !(t < e.expires);
      a, b := OutlivedOrderMatters(c, rs, x, e, t);
    } else {
      var x, e :| x in rs && e in rs && Latest(rs, x) && Latest(rs, e) && x.id == e.id && t < x.expires &&
        Convert(x) != Convert(e);
      a, b := TiedOrderMatters(c, rs, x, e, t);
    }
  }
}
