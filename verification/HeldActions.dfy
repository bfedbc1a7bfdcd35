/**
 Actions held until the neighbourhood agrees: the store (`pending_actions.rs`), the round that releases or
 discards them (`whisper_qa.rs`), and the release loop that executes or abandons them (`agent.rs`).

 Every parked action is an `Occurrence` with its own serial number, so that "executed at most once" and "in
 exactly one place" are statements about that parking and not about equal-looking actions.
 */
module HeldActions {
  import opened Basics
  import C = Corroboration

  type Episode = string

  datatype Occurrence = Occurrence(serial: nat, episode: Episode, action: string, at: int)

  /** What one episode waits with; `since` is the time of its first parking. */
  datatype Parked = Parked(actions: seq<Occurrence>, since: int)

  type Held = map<Episode, Parked>

  datatype Dropped = NotCorroborated | NotComparable | Expired

  /** An action leaving the store: to be executed when `dropped` is `None`. */
  datatype Release = Release(occ: Occurrence, dropped: Option<Dropped>, at: int)

  // ------------------------------------------------------------------------------------------
  // The store
  // ------------------------------------------------------------------------------------------

  /** The entry that must go first: present exactly when the store is full, and nobody waits longer. */
  predicate IsVictim(held: Held, maxTracked: nat, victim: Option<Episode>)
  {
    if |held| >= maxTracked && held != map[]
    then victim.Some? && victim.value in held && forall e :: e in held ==> held[victim.value].since <= held[e].since
    else victim.None?
  }

  function Evict(held: Held, victim: Option<Episode>): Held
  {
    if victim.Some? then held - {victim.value} else held
  }

  function Park(held: Held, episode: Episode, actions: seq<Occurrence>, now: int): Held
  {
    if episode in held
    then held[episode := Parked(held[episode].actions + actions, held[episode].since)]
    else held[episode := Parked(actions, now)]
  }

  predicate Stale(p: Parked, now: int, ttl: nat) { now - p.since > ttl }

  function Waiting(held: Held, episode: Episode): seq<Occurrence>
  {
    if episode in held then held[episode].actions else []
  }

  function StaleEpisodes(held: Held, now: int, ttl: nat): set<Episode>
  {
    set e | e in held && Stale(held[e], now, ttl)
  }

  class PendingActions {
    var held: Held
    const ttl: nat
    const maxTracked: nat

    constructor (ttl: nat, maxTracked: nat)
      ensures held == map[] && this.ttl == ttl && this.maxTracked == maxTracked
    {
      held := map[];
      this.ttl, this.maxTracked := ttl, maxTracked;
    }

    method ParkAll(episode: Episode, actions: seq<Occurrence>, now: int) returns (ghost victim: Option<Episode>)
      modifies this
      ensures actions == [] ==> held == old(held)
      ensures actions != [] ==>
        IsVictim(old(held), maxTracked, victim) && held == Park(Evict(old(held), victim), episode, actions, now)
      ensures old(|held|) <= Max(1, maxTracked) ==> |held| <= Max(1, maxTracked)
    {
      victim := None;
      if actions == [] {
        return;
      }
      if |held| >= maxTracked && held != map[] {
        var oldest := Oldest();
        victim := Some(oldest);
        assert (held - {oldest}).Keys == held.Keys - {oldest};
        held := held - {oldest};
      }
      if episode in held {
        held := held[episode := Parked(held[episode].actions + actions, held[episode].since)];
      } else {
        held := held[episode := Parked(actions, now)];
      }
    }

    method Oldest() returns (oldest: Episode)
      requires held != map[]
      ensures oldest in held && forall e :: e in held ==> held[oldest].since <= held[e].since
    {
      var todo := held.Keys;
      oldest :| oldest in todo;
      todo := todo - {oldest};
      while todo != {}
        invariant todo <= held.Keys && oldest in held
        invariant forall e :: e in held && e !in todo ==> held[oldest].since <= held[e].since
        decreases todo
      {
        var e :| e in todo;
        if held[e].since < held[oldest].since {
          oldest := e;
        }
        todo := todo - {e};
      }
    }

    method ReleaseAll(episode: Episode, now: int) returns (actions: seq<Occurrence>)
      modifies this
      ensures held == old(held) - {episode}
      ensures actions == if episode in old(held) && Stale(old(held)[episode], now, ttl) then []
                         else Waiting(old(held), episode)
    {
      actions := [];
      if episode in held {
        var parked := held[episode];
        held := held - {episode};
        if now - parked.since <= ttl {
          actions := parked.actions;
        }
      }
    }

    method DiscardAll(episode: Episode) returns (actions: seq<Occurrence>)
      modifies this
      ensures held == old(held) - {episode} && actions == Waiting(old(held), episode)
    {
      actions := [];
      if episode in held {
        actions := held[episode].actions;
        held := held - {episode};
      }
    }

    method TakeExpired(now: int) returns (order: seq<Episode>, taken: seq<seq<Occurrence>>)
      modifies this
      ensures NoDup(order) && |taken| == |order|
      ensures forall e :: e in order <==> e in StaleEpisodes(old(held), now, ttl)
      ensures forall i :: 0 <= i < |order| ==> taken[i] == Waiting(old(held), order[i])
      ensures held == old(held) - StaleEpisodes(old(held), now, ttl)
    {
      order, taken := [], [];
      ghost var before := held;
      var stale := set e | e in held && now - held[e].since > ttl;
      var todo := stale;
      while todo != {}
        invariant todo <= stale && stale == StaleEpisodes(before, now, ttl)
        invariant NoDup(order) && |taken| == |order|
        invariant forall e :: e in order <==> e in stale && e !in todo
        invariant forall i :: 0 <= i < |order| ==> taken[i] == Waiting(before, order[i])
        invariant held == before - (stale - todo)
        decreases todo
      {
        var e :| e in todo;
        taken := taken + [held[e].actions];
        NoDupAppend(order, [e]);
        order := order + [e];
        held := held - {e};
        todo := todo - {e};
      }
    }
  }

  // ------------------------------------------------------------------------------------------
  // The whole path, with a ledger
  // ------------------------------------------------------------------------------------------

  datatype Config = Config(ttl: nat, maxTracked: nat, channel: nat)

  /** `outbox` holds releases a round is about to offer to the bounded channel `chan`; `done` is what the release task
      executed or reported. Then come the unreported losses: evicted for capacity, found stale when released, refused by
      a full or closed channel, and in the channel when the release loop stopped. `orphaned` logs what was held when it
      stopped or was parked after that, and `confirmed` the confirmed rounds. */
  datatype System = System(
    now: int, held: Held, outbox: seq<Release>, chan: seq<Release>, closed: bool,
    parked: seq<Occurrence>, done: seq<Release>, confirmed: set<(Episode, int)>,
    evicted: seq<Occurrence>, stale: seq<Occurrence>, lost: seq<Release>, abandoned: seq<Release>,
    orphaned: set<Occurrence>)

  datatype Step =
    | Decide(episode: Episode, actions: seq<string>, now: int, victim: Option<Episode>)
    | FinishRound(episode: Episode, verdict: C.Confirmation, now: int)
    | Offer(i: nat)
    | HandleRelease
    | Sweep(now: int, order: seq<Episode>)
    | Stop

  const START := System(0, map[], [], [], false, [], [], {}, [], [], [], [], {})

  predicate Enabled(c: Config, s: System, step: Step)
  {
    match step
    case Decide(_, actions, now, victim) => now >= s.now && actions != [] && IsVictim(s.held, c.maxTracked, victim)
    case FinishRound(_, _, now) => now >= s.now
    case Offer(i) => i < |s.outbox|
    case HandleRelease => !s.closed && s.chan != []
    case Sweep(now, order) =>
      now >= s.now && !s.closed && NoDup(order)
      && (set e | e in order) == StaleEpisodes(s.held, now, c.ttl)
    case Stop => !s.closed
  }

  function Tag(s: System, episode: Episode, actions: seq<string>, now: int): seq<Occurrence>
  {
    seq(|actions|, i requires 0 <= i < |actions| => Occurrence(|s.parked| + i, episode, actions[i], now))
  }

  function Outgoing(occs: seq<Occurrence>, dropped: Option<Dropped>, now: int): seq<Release>
  {
    seq(|occs|, i requires 0 <= i < |occs| => Release(occs[i], dropped, now))
  }

  function WhyNot(verdict: C.Confirmation): Dropped
  {
    if C.NothingComparable(verdict) then NotComparable else NotCorroborated
  }

  function ExpiredBatch(held: Held, order: seq<Episode>, now: int): seq<Release>
  {
    if order == [] then []
    else Outgoing(Waiting(held, order[0]), Some(Expired), now) + ExpiredBatch(held, order[1..], now)
  }

  function Next(c: Config, s: System, step: Step): System
    requires Enabled(c, s, step)
  {
    match step
    case Decide(episode, actions, now, victim) =>
      var occs := Tag(s, episode, actions, now);
      s.(now := now,
         held := Park(Evict(s.held, victim), episode, occs, now),
         parked := s.parked + occs,
         evicted := s.evicted + (if victim.Some? then Waiting(s.held, victim.value) else []),
         orphaned := if s.closed then s.orphaned + (set o | o in occs) else s.orphaned)
    case FinishRound(episode, verdict, now) =>
      var occs := Waiting(s.held, episode);
      if verdict.confirmed then
        var tooOld := episode in s.held && Stale(s.held[episode], now, c.ttl);
        s.(now := now,
           held := s.held - {episode},
           outbox := s.outbox + (if tooOld then [] else Outgoing(occs, None, now)),
           stale := s.stale + (if tooOld then occs else []),
           confirmed := s.confirmed + {(episode, now)})
      else
        s.(now := now,
           held := s.held - {episode},
           outbox := s.outbox + Outgoing(occs, Some(WhyNot(verdict)), now))
    case Offer(i) =>
      if !s.closed && |s.chan| < c.channel
      then s.(outbox := Remove(s.outbox, i), chan := s.chan + [s.outbox[i]])
      else s.(outbox := Remove(s.outbox, i), lost := s.lost + [s.outbox[i]])
    case HandleRelease => s.(chan := s.chan[1..], done := s.done + [s.chan[0]])
    case Sweep(now, order) =>
      s.(now := now,
         held := s.held - StaleEpisodes(s.held, now, c.ttl),
         done := s.done + ExpiredBatch(s.held, order, now))
    case Stop =>
      s.(closed := true, chan := [], abandoned := s.abandoned + s.chan, orphaned := s.orphaned + AllWaiting(s.held))
  }

  function AllWaiting(held: Held): set<Occurrence>
  {
    set e, o | e in held && o in held[e].actions :: o
  }

  function Run(c: Config, steps: seq<Step>): System
  {
    if steps == [] then START
    else
      var s := Run(c, steps[..|steps| - 1]);
      var step := steps[|steps| - 1];
      if Enabled(c, s, step) then Next(c, s, step) else s
  }

  // -- The ledger ----------------------------------------------------------------------------------

  function Count(occs: seq<Occurrence>, o: Occurrence): nat { multiset(occs)[o] }

  function Tally(rs: seq<Release>, o: Occurrence): nat
  {
    if rs == [] then 0 else (if rs[0].occ == o then 1 else 0) + Tally(rs[1..], o)
  }

  /** How often `o` appears anywhere. */
  function Everywhere(s: System, o: Occurrence): nat
  {
    Count(Waiting(s.held, o.episode), o) + Tally(s.outbox, o) + Tally(s.chan, o) + Tally(s.done, o)
    + Forgotten(s, o)
  }

  /** How often `o` appears among what left the path without a report. */
  function Forgotten(s: System, o: Occurrence): nat
  {
    Count(s.evicted, o) + Count(s.stale, o) + Tally(s.lost, o) + Tally(s.abandoned, o)
  }

  lemma {:induction false} TallyConcat(a: seq<Release>, b: seq<Release>, o: Occurrence)
    ensures Tally(a + b, o) == Tally(a, o) + Tally(b, o)
  {
    if a == [] {
      assert a + b == b;
    } else {
      assert (a + b)[1..] == a[1..] + b;
      TallyConcat(a[1..], b, o);
    }
  }

  lemma TallyRemove(rs: seq<Release>, i: nat, o: Occurrence)
    requires i < |rs|
    ensures Tally(rs, o) == Tally(Remove(rs, i), o) + Tally([rs[i]], o)
  {
    assert rs == rs[..i] + ([rs[i]] + rs[i + 1..]);
    TallyConcat(rs[..i], [rs[i]] + rs[i + 1..], o);
    TallyConcat([rs[i]], rs[i + 1..], o);
    TallyConcat(rs[..i], rs[i + 1..], o);
  }

  lemma {:induction false} TallyOutgoing(occs: seq<Occurrence>, dropped: Option<Dropped>, now: int, o: Occurrence)
    ensures Tally(Outgoing(occs, dropped, now), o) == Count(occs, o)
  {
    if occs != [] {
      assert occs == [occs[0]] + occs[1..];
      assert Outgoing(occs, dropped, now)[1..] == Outgoing(occs[1..], dropped, now);
      TallyOutgoing(occs[1..], dropped, now, o);
    }
  }

  ghost predicate Keyed(held: Held)
  {
    forall e, o :: e in held && o in held[e].actions ==> o.episode == e
  }

  lemma {:induction false} TallyExpired(held: Held, order: seq<Episode>, now: int, o: Occurrence)
    requires Keyed(held) && NoDup(order)
    ensures Tally(ExpiredBatch(held, order, now), o) == if o.episode in order then
      Count(Waiting(held, o.episode), o) else 0
  {
    if order != [] {
      var first := Outgoing(Waiting(held, order[0]), Some(Expired), now);
      TallyConcat(first, ExpiredBatch(held, order[1..], now), o);
      TallyOutgoing(Waiting(held, order[0]), Some(Expired), now, o);
      assert forall j :: 0 < j < |order| ==> order[j] == order[1..][j - 1];
      TallyExpired(held, order[1..], now, o);
      if o.episode != order[0] && o in Waiting(held, order[0]) {
        assert false;
      }
    }
  }

  /** A release that will execute is backed by a confirmed round within the TTL of its parking. */
  predicate Backed(c: Config, s: System, r: Release)
  {
    r.dropped.None? ==> (r.occ.episode, r.at) in s.confirmed && r.occ.at <= r.at <= r.occ.at + c.ttl
  }

  ghost predicate Dated(held: Held, now: int)
  {
    forall e :: e in held ==> held[e].since <= now && forall o :: o in held[e].actions ==> held[e].since <= o.at <= now
  }

  ghost predicate Inv(c: Config, s: System)
  {
    && (forall o :: Count(s.parked, o) == Everywhere(s, o))
    && (forall i :: 0 <= i < |s.parked| ==> s.parked[i].serial == i)
    && Keyed(s.held)
    && Dated(s.held, s.now)
    && (forall r :: r in s.outbox ==> Backed(c, s, r))
    && (forall r :: r in s.chan ==> Backed(c, s, r))
    && (forall r :: r in s.done ==> Backed(c, s, r))
  }

  lemma {:induction false} ExpiredNeverExecutes(held: Held, order: seq<Episode>, now: int)
    ensures forall r :: r in ExpiredBatch(held, order, now) ==> r.dropped == Some(Expired)
  {
    if order != [] {
      ExpiredNeverExecutes(held, order[1..], now);
    }
  }

  lemma OutboxBacked(c: Config, s: System, step: Step, r: Release)
    requires Inv(c, s) && Enabled(c, s, step) && r in Next(c, s, step).outbox
    ensures Backed(c, Next(c, s, step), r)
  {
    if step.Offer? {
      assert r in s.outbox;
    }
  }

  lemma ChannelBacked(c: Config, s: System, step: Step, r: Release)
    requires Inv(c, s) && Enabled(c, s, step) && r in Next(c, s, step).chan
    ensures Backed(c, Next(c, s, step), r)
  {
    if r !in s.chan {
      assert r in s.outbox;
    }
  }

  lemma DoneBacked(c: Config, s: System, step: Step, r: Release)
    requires Inv(c, s) && Enabled(c, s, step) && r in Next(c, s, step).done
    ensures Backed(c, Next(c, s, step), r)
  {
    if step.Sweep? {
      ExpiredNeverExecutes(s.held, step.order, step.now);
    }
    if r !in s.done && step.HandleRelease? {
      assert r in s.chan;
    }
  }

  lemma BackedNext(c: Config, s: System, step: Step)
    requires Inv(c, s) && Enabled(c, s, step)
    ensures var t := Next(c, s, step);
      && (forall r :: r in t.outbox ==> Backed(c, t, r))
      && (forall r :: r in t.chan ==> Backed(c, t, r))
      && (forall r :: r in t.done ==> Backed(c, t, r))
  {
    var t := Next(c, s, step);
    forall r | r in t.outbox ensures Backed(c, t, r) {
      OutboxBacked(c, s, step, r);
    }
    forall r | r in t.chan ensures Backed(c, t, r) {
      ChannelBacked(c, s, step, r);
    }
    forall r | r in t.done ensures Backed(c, t, r) {
      DoneBacked(c, s, step, r);
    }
  }

  lemma FewerHeld(held: Held, kept: Held, now: int, later: int)
    requires Keyed(held) && Dated(held, now) && now <= later
    requires forall e :: e in kept ==> e in held && kept[e] == held[e]
    ensures Keyed(kept) && Dated(kept, later)
  {
  }

  lemma ParkHeld(held: Held, episode: Episode, occs: seq<Occurrence>, now: int)
    requires Keyed(held) && Dated(held, now)
    requires forall o :: o in occs ==> o.episode == episode && o.at == now
    ensures Keyed(Park(held, episode, occs, now)) && Dated(Park(held, episode, occs, now), now)
  {
  }

  lemma StoreNext(c: Config, s: System, step: Step)
    requires Inv(c, s) && Enabled(c, s, step)
    ensures Keyed(Next(c, s, step).held) && Dated(Next(c, s, step).held, Next(c, s, step).now)
  {
    match step
    case Decide(episode, actions, now, victim) =>
      FewerHeld(s.held, Evict(s.held, victim), s.now, now);
      ParkHeld(Evict(s.held, victim), episode, Tag(s, episode, actions, now), now);
    case FinishRound(episode, _, now) => FewerHeld(s.held, s.held - {episode}, s.now, now);
    case Sweep(now, _) => FewerHeld(s.held, s.held - StaleEpisodes(s.held, now, c.ttl), s.now, now);
    case _ =>
  }

  lemma SerialsNext(c: Config, s: System, step: Step)
    requires Inv(c, s) && Enabled(c, s, step)
    ensures forall i :: 0 <= i < |Next(c, s, step).parked| ==> Next(c, s, step).parked[i].serial == i
  {
  }

  lemma ParkedCount(held: Held, episode: Episode, occs: seq<Occurrence>, now: int, o: Occurrence)
    requires forall i :: 0 <= i < |occs| ==> occs[i].episode == episode
    ensures Count(Waiting(Park(held, episode, occs, now), o.episode), o)
         == Count(Waiting(held, o.episode), o) + Count(occs, o)
  {
    if o.episode != episode {
      assert o !in occs;
    }
  }

  lemma EvictedCount(held: Held, victim: Option<Episode>, o: Occurrence)
    requires Keyed(held)
    ensures Count(Waiting(held, o.episode), o)
         == Count(Waiting(Evict(held, victim), o.episode), o)
            + Count(if victim.Some? then Waiting(held, victim.value) else [], o)
  {
    if victim.Some? && victim.value != o.episode {
      assert o !in Waiting(held, victim.value);
    }
  }

  lemma ParkBalance(s: System, step: Step, c: Config, o: Occurrence)
    requires Inv(c, s) && Enabled(c, s, step) && step.Decide?
    ensures Count(Next(c, s, step).parked, o) == Everywhere(Next(c, s, step), o)
  {
    assert Count(s.parked, o) == Everywhere(s, o);
    EvictedCount(s.held, step.victim, o);
    ParkedCount(Evict(s.held, step.victim), step.episode, Tag(s, step.episode, step.actions, step.now), step.now, o);
  }

  /** What a finished round takes out of the store. */
  lemma RoundTakes(held: Held, episode: Episode, dropped: Option<Dropped>, outbox: seq<Release>, now: int,
      o: Occurrence)
    requires Keyed(held)
    ensures Count(Waiting(held, o.episode), o)
         == Count(Waiting(held - {episode}, o.episode), o) + Count(Waiting(held, episode), o)
    ensures Tally(outbox + Outgoing(Waiting(held, episode), dropped, now), o)
         == Tally(outbox, o) + Count(Waiting(held, episode), o)
  {
    var occs := Waiting(held, episode);
    assert o in occs ==> o.episode == episode;
    TallyConcat(outbox, Outgoing(occs, dropped, now), o);
    TallyOutgoing(occs, dropped, now, o);
  }

  lemma RoundBalance(s: System, step: Step, c: Config, o: Occurrence)
    requires Inv(c, s) && Enabled(c, s, step) && step.FinishRound?
    ensures Count(Next(c, s, step).parked, o) == Everywhere(Next(c, s, step), o)
  {
    assert Count(s.parked, o) == Everywhere(s, o);
    var dropped := if step.verdict.confirmed then None else Some(WhyNot(step.verdict));
    RoundTakes(s.held, step.episode, dropped, s.outbox, step.now, o);
    assert s.outbox + [] == s.outbox && s.stale + [] == s.stale;
  }

  lemma SweepBalance(s: System, step: Step, c: Config, o: Occurrence)
    requires Inv(c, s) && Enabled(c, s, step) && step.Sweep?
    ensures Count(Next(c, s, step).parked, o) == Everywhere(Next(c, s, step), o)
  {
    assert Count(s.parked, o) == Everywhere(s, o);
    TallyConcat(s.done, ExpiredBatch(s.held, step.order, step.now), o);
    TallyExpired(s.held, step.order, step.now, o);
  }

  lemma OfferBalance(s: System, step: Step, c: Config, o: Occurrence)
    requires Inv(c, s) && Enabled(c, s, step) && step.Offer?
    ensures Count(Next(c, s, step).parked, o) == Everywhere(Next(c, s, step), o)
  {
    var t := Next(c, s, step);
    assert Count(s.parked, o) == Everywhere(s, o);
    assert t.held == s.held && t.done == s.done && t.evicted == s.evicted && t.stale == s.stale && t.parked == s.parked;
    if !s.closed && |s.chan| < c.channel {
      MoveBalance(s.outbox, step.i, s.chan, o);
      assert t.lost == s.lost;
    } else {
      MoveBalance(s.outbox, step.i, s.lost, o);
      assert t.chan == s.chan;
    }
  }

  lemma MoveBalance(from: seq<Release>, i: nat, dest: seq<Release>, o: Occurrence)
    requires i < |from|
    ensures Tally(Remove(from, i), o) + Tally(dest + [from[i]], o) == Tally(from, o) + Tally(dest, o)
  {
    TallyRemove(from, i, o);
    TallyConcat(dest, [from[i]], o);
  }

  lemma HandleBalance(s: System, step: Step, c: Config, o: Occurrence)
    requires Inv(c, s) && Enabled(c, s, step) && step.HandleRelease?
    ensures Count(Next(c, s, step).parked, o) == Everywhere(Next(c, s, step), o)
  {
    assert Count(s.parked, o) == Everywhere(s, o);
    MoveBalance(s.chan, 0, s.done, o);
    assert Remove(s.chan, 0) == s.chan[1..];
  }

  lemma StopBalance(s: System, step: Step, c: Config, o: Occurrence)
    requires Inv(c, s) && Enabled(c, s, step) && step.Stop?
    ensures Count(Next(c, s, step).parked, o) == Everywhere(Next(c, s, step), o)
  {
    assert Count(s.parked, o) == Everywhere(s, o);
    TallyConcat(s.abandoned, s.chan, o);
  }

  lemma {:induction false} InvAlways(c: Config, steps: seq<Step>)
    ensures Inv(c, Run(c, steps))
  {
    if steps != [] {
      InvAlways(c, steps[..|steps| - 1]);
      var s, step := Run(c, steps[..|steps| - 1]), steps[|steps| - 1];
      if Enabled(c, s, step) {
        BackedNext(c, s, step);
        StoreNext(c, s, step);
        SerialsNext(c, s, step);
        forall o: Occurrence ensures Count(Next(c, s, step).parked, o) == Everywhere(Next(c, s, step), o) {
          match step
          case Decide(_, _, _, _) => ParkBalance(s, step, c, o);
          case FinishRound(_, _, _) => RoundBalance(s, step, c, o);
          case Sweep(_, _) => SweepBalance(s, step, c, o);
          case Offer(_) => OfferBalance(s, step, c, o);
          case HandleRelease => HandleBalance(s, step, c, o);
          case Stop => StopBalance(s, step, c, o);
        }
      }
    }
  }

  lemma {:induction false} TallyPositive(rs: seq<Release>, r: Release)
    requires r in rs
    ensures Tally(rs, r.occ) > 0
  {
    if rs[0] != r {
      TallyPositive(rs[1..], r);
    }
  }

  /** Every parked occurrence is in exactly one place, and nothing is anywhere that was not parked. */
  lemma EveryParkingIsAccountedForOnce(c: Config, steps: seq<Step>, o: Occurrence)
    ensures Everywhere(Run(c, steps), o) == if o in Run(c, steps).parked then 1 else 0
  {
    InvAlways(c, steps);
    var s := Run(c, steps);
    assert Count(s.parked, o) == Everywhere(s, o);
    OnceOnly(s.parked, o);
  }

  lemma {:induction false} OnceOnly(occs: seq<Occurrence>, o: Occurrence)
    requires forall i :: 0 <= i < |occs| ==> occs[i].serial == i
    ensures Count(occs, o) == if o in occs then 1 else 0
  {
    if occs != [] {
      var front := occs[..|occs| - 1];
      assert occs == front + [occs[|occs| - 1]];
      OnceOnly(front, o);
    }
  }

  ghost predicate ConfirmedRound(steps: seq<Step>, episode: Episode, at: int)
  {
    exists k :: 0 <= k < |steps| && steps[k].FinishRound? && steps[k].verdict.confirmed
             && steps[k].episode == episode && steps[k].now == at
  }

  lemma {:induction false} ConfirmedMeansARound(c: Config, steps: seq<Step>, episode: Episode, at: int)
    requires (episode, at) in Run(c, steps).confirmed
    ensures ConfirmedRound(steps, episode, at)
  {
    var front := steps[..|steps| - 1];
    if (episode, at) in Run(c, front).confirmed {
      ConfirmedMeansARound(c, front, episode, at);
      var k :| 0 <= k < |front| && front[k].FinishRound? && front[k].verdict.confirmed
            && front[k].episode == episode && front[k].now == at;
      assert steps[k] == front[k];
    } else {
      assert steps[|steps| - 1].FinishRound?;
    }
  }

  /** Whatever executes through the held path was parked, was released by a confirmed round for its own episode no
      more than the TTL after it was parked, and executes once. */
  lemma ExecutionIsCorroboratedTimelyAndOnce(c: Config, steps: seq<Step>, r: Release)
    requires r in Run(c, steps).done && r.dropped.None?
    ensures var s := Run(c, steps);
      && r.occ in s.parked
      && ConfirmedRound(steps, r.occ.episode, r.at)
      && r.occ.at <= r.at <= r.occ.at + c.ttl
      && Tally(s.done, r.occ) == 1
  {
    InvAlways(c, steps);
    EveryParkingIsAccountedForOnce(c, steps, r.occ);
    ConfirmedMeansARound(c, steps, r.occ.episode, r.at);
    TallyPositive(Run(c, steps).done, r);
  }

  /** End to end: when every finished round was an honest one, an execution has behind it a round for its episode in
      which at least a quorum of positions had standing to say they had never seen the binary; the quorum is one of
      distinct peers when no peer stood at two positions of that round. */
  lemma ExecutionHasWitnesses(c: Config, steps: seq<Step>, rounds: seq<C.Round>, r: Release)
    requires |rounds| == |steps|
    requires forall k :: 0 <= k < |steps| && steps[k].FinishRound? ==>
      C.Honest(rounds[k]) && C.Decides(rounds[k], steps[k].verdict)
    requires r in Run(c, steps).done && r.dropped.None?
    ensures exists k ::
      && 0 <= k < |steps| && steps[k].FinishRound? && steps[k].episode == r.occ.episode && steps[k].now == r.at
      && C.Honest(rounds[k]) && 0 < rounds[k].quorum <= |C.Standing(rounds[k])|
      && (C.OneVoiceEach(rounds[k]) ==> rounds[k].quorum <= |C.Witnesses(rounds[k])|)
  {
    ExecutionIsCorroboratedTimelyAndOnce(c, steps, r);
    var k :| 0 <= k < |steps| && steps[k].FinishRound? && steps[k].verdict.confirmed
          && steps[k].episode == r.occ.episode && steps[k].now == r.at;
    C.DistinctVoices(rounds[k]);
  }

  // -- Every outcome has its reason ----------------------------------------------------------------

  /** The release is on its way, carried out, or lost. */
  predicate Somewhere(s: System, r: Release)
  {
    r in s.outbox || r in s.chan || r in s.done || r in s.lost || r in s.abandoned
  }

  /** The step takes the occurrence out of the store for good: its episode's round ends, or a sweep finds it stale. */
  predicate Leaves(c: Config, s: System, step: Step, o: Occurrence)
  {
    && Enabled(c, s, step) && o.episode in s.held && o in s.held[o.episode].actions
    && match step
       case FinishRound(episode, _, _) => episode == o.episode
       case Sweep(now, _) => now > s.held[o.episode].since + c.ttl
       case _ => false
  }

  /** The round confirmed, but only after the TTL: what waited is gone without a release. */
  predicate LeavesStale(c: Config, s: System, step: Step, o: Occurrence)
  {
    Leaves(c, s, step, o) && step.FinishRound? && step.verdict.confirmed && step.now > s.held[o.episode].since + c.ttl
  }

  /** The release says what happened: to be executed exactly when the round confirmed, which it did within the TTL; not
      comparable exactly when it did not, somebody was incomparable and nobody else had an opinion; not corroborated in
      the other rounds that did not; and expired exactly when a sweep took it. */
  predicate Reason(c: Config, s: System, step: Step, r: Release)
  {
    && Leaves(c, s, step, r.occ) && !LeavesStale(c, s, step, r.occ) && r.at == step.now
    && match step
       case FinishRound(_, v, _) =>
         var nobodyCompared := v.unseen == 0 && v.seen == 0 && v.familiar == 0 && v.incomparable > 0;
         && (r.dropped == None <==> v.confirmed)
         && (r.dropped == Some(NotComparable) <==> !v.confirmed && nobodyCompared)
         && (r.dropped == Some(NotCorroborated) <==> !v.confirmed && !nobodyCompared)
       case _ => r.dropped == Some(Expired)
  }

  predicate LeavesAt(c: Config, steps: seq<Step>, k: nat, o: Occurrence)
  {
    k < |steps| && Leaves(c, Run(c, steps[..k]), steps[k], o)
  }

  predicate StaleAt(c: Config, steps: seq<Step>, k: nat, o: Occurrence)
  {
    k < |steps| && LeavesStale(c, Run(c, steps[..k]), steps[k], o)
  }

  predicate ReasonAt(c: Config, steps: seq<Step>, k: nat, r: Release)
  {
    k < |steps| && Reason(c, Run(c, steps[..k]), steps[k], r)
  }

  lemma {:induction false} ExpiredBatchIs(held: Held, order: seq<Episode>, now: int, r: Release)
    ensures r in ExpiredBatch(held, order, now) <==>
      r.dropped == Some(Expired) && r.at == now && exists e :: e in order && r.occ in Waiting(held, e)
  {
    if order != [] {
      ExpiredBatchIs(held, order[1..], now, r);
      OutgoingIs(Waiting(held, order[0]), Some(Expired), now, r);
      assert order == [order[0]] + order[1..];
    }
  }

  lemma OutgoingIs(occs: seq<Occurrence>, dropped: Option<Dropped>, now: int, r: Release)
    ensures r in Outgoing(occs, dropped, now) <==> r.dropped == dropped && r.at == now && r.occ in occs
  {
    if r.dropped == dropped && r.at == now && r.occ in occs {
      var i :| 0 <= i < |occs| && occs[i] == r.occ;
      assert Outgoing(occs, dropped, now)[i] == r;
    }
  }

  lemma ReleasesStay(c: Config, s: System, step: Step, r: Release)
    requires Enabled(c, s, step) && Somewhere(s, r)
    ensures Somewhere(Next(c, s, step), r)
  {
    var t := Next(c, s, step);
    if step.Offer? && r in s.outbox {
      RemoveKeeps(s.outbox, step.i, r);
      assert s.outbox[step.i] in t.chan || s.outbox[step.i] in t.lost;
    } else if step.HandleRelease? && r in s.chan {
      assert s.chan == [s.chan[0]] + s.chan[1..];
    }
  }

  /** What is new among the releases has its reason, and what leaves is released with a reason or goes stale. */
  lemma RoundReleases(c: Config, s: System, step: Step, r: Release)
    requires Inv(c, s) && Enabled(c, s, step) && step.FinishRound?
    ensures Somewhere(Next(c, s, step), r) <==> Somewhere(s, r) || Reason(c, s, step, r)
  {
    var occs := Waiting(s.held, step.episode);
    var dropped := if step.verdict.confirmed then None else Some(WhyNot(step.verdict));
    OutgoingIs(occs, dropped, step.now, r);
    assert r.occ in occs ==> r.occ.episode == step.episode;
  }

  lemma SweepReleases(c: Config, s: System, step: Step, r: Release)
    requires Inv(c, s) && Enabled(c, s, step) && step.Sweep?
    ensures Somewhere(Next(c, s, step), r) <==> Somewhere(s, r) || Reason(c, s, step, r)
  {
    ExpiredBatchIs(s.held, step.order, step.now, r);
    var e := r.occ.episode;
    assert forall x :: r.occ in Waiting(s.held, x) ==> x == e;
    assert e in step.order <==> e in set x | x in step.order;
    assert e in step.order <==> e in StaleEpisodes(s.held, step.now, c.ttl);
  }

  lemma MoveReleases(c: Config, s: System, step: Step, r: Release)
    requires Enabled(c, s, step) && !step.FinishRound? && !step.Sweep? && Somewhere(Next(c, s, step), r)
    ensures Somewhere(s, r)
  {
    if step.Offer? {
      assert forall x :: x in Remove(s.outbox, step.i) ==> x in s.outbox;
      assert s.outbox[step.i] in s.outbox;
    }
  }

  lemma ReleasesNext(c: Config, s: System, step: Step, r: Release)
    requires Inv(c, s) && Enabled(c, s, step)
    ensures Somewhere(Next(c, s, step), r) <==> Somewhere(s, r) || Reason(c, s, step, r)
  {
    if step.FinishRound? {
      RoundReleases(c, s, step, r);
    } else if step.Sweep? {
      SweepReleases(c, s, step, r);
    } else if Somewhere(s, r) {
      ReleasesStay(c, s, step, r);
    } else if Somewhere(Next(c, s, step), r) {
      MoveReleases(c, s, step, r);
    }
  }

  /** In every run the releases are exactly those some step had reason for. */
  lemma {:induction false} ReleasedExactlyWhen(c: Config, steps: seq<Step>, r: Release)
    ensures Somewhere(Run(c, steps), r) <==> exists k :: 0 <= k < |steps| && ReasonAt(c, steps, k, r)
  {
    if steps != [] {
      var n := |steps| - 1;
      var front := steps[..n];
      ReleasedExactlyWhen(c, front, r);
      InvAlways(c, front);
      forall k | 0 <= k < n ensures ReasonAt(c, front, k, r) <==> ReasonAt(c, steps, k, r) {
        assert front[..k] == steps[..k];
      }
      if Enabled(c, Run(c, front), steps[n]) {
        ReleasesNext(c, Run(c, front), steps[n], r);
      }
      assert ReasonAt(c, steps, n, r) <==> Reason(c, Run(c, front), steps[n], r);
    }
  }

  /** The same for what went stale. */
  lemma {:induction false} StaleExactlyWhen(c: Config, steps: seq<Step>, o: Occurrence)
    ensures o in Run(c, steps).stale <==> exists k :: 0 <= k < |steps| && StaleAt(c, steps, k, o)
  {
    if steps != [] {
      var n := |steps| - 1;
      var front := steps[..n];
      StaleExactlyWhen(c, front, o);
      InvAlways(c, front);
      forall k | 0 <= k < n ensures StaleAt(c, front, k, o) <==> StaleAt(c, steps, k, o) {
        assert front[..k] == steps[..k];
      }
      StaleNext(c, Run(c, front), steps[n], o);
      assert StaleAt(c, steps, n, o) <==> LeavesStale(c, Run(c, front), steps[n], o);
    }
  }

  lemma StaleNext(c: Config, s: System, step: Step, o: Occurrence)
    requires Inv(c, s)
    ensures LeavesStale(c, s, step, o) ==> Enabled(c, s, step)
    ensures Enabled(c, s, step) ==> (o in Next(c, s, step).stale <==> o in s.stale || LeavesStale(c, s, step, o))
  {
    if step.FinishRound? {
      assert o in Waiting(s.held, step.episode) ==> o.episode == step.episode;
    }
  }

  /** What is held has something to wait with, and waits since its first action was parked. */
  lemma {:induction false} HeldSinceItsFirst(c: Config, steps: seq<Step>, e: Episode)
    requires e in Run(c, steps).held
    ensures var p := Run(c, steps).held[e]; p.actions != [] && p.since == p.actions[0].at
  {
    var n := |steps| - 1;
    var s, step := Run(c, steps[..n]), steps[n];
    if e in s.held {
      HeldSinceItsFirst(c, steps[..n], e);
    }
    if Enabled(c, s, step) && step.Decide? {
      assert Tag(s, step.episode, step.actions, step.now)[0].at == step.now;
    }
  }

  /** The step parks into a full store, and what waits longest goes: nobody in the store waits since before it. */
  predicate Evicts(c: Config, s: System, step: Step, o: Occurrence)
  {
    && Enabled(c, s, step) && step.Decide? && |s.held| >= c.maxTracked
    && step.victim == Some(o.episode) && o.episode in s.held && o in s.held[o.episode].actions
    && forall e :: e in s.held ==> s.held[o.episode].since <= s.held[e].since
  }

  predicate EvictsAt(c: Config, steps: seq<Step>, k: nat, o: Occurrence)
  {
    k < |steps| && Evicts(c, Run(c, steps[..k]), steps[k], o)
  }

  /** And what was evicted was evicted so, in every run. */
  lemma {:induction false} EvictedExactlyWhen(c: Config, steps: seq<Step>, o: Occurrence)
    ensures o in Run(c, steps).evicted <==> exists k :: 0 <= k < |steps| && EvictsAt(c, steps, k, o)
  {
    if steps != [] {
      var n := |steps| - 1;
      var front := steps[..n];
      EvictedExactlyWhen(c, front, o);
      InvAlways(c, front);
      forall k | 0 <= k < n ensures EvictsAt(c, front, k, o) <==> EvictsAt(c, steps, k, o) {
        assert front[..k] == steps[..k];
      }
      EvictedNext(c, Run(c, front), steps[n], o);
      assert EvictsAt(c, steps, n, o) <==> Evicts(c, Run(c, front), steps[n], o);
    }
  }

  lemma EvictedNext(c: Config, s: System, step: Step, o: Occurrence)
    requires Inv(c, s)
    ensures Evicts(c, s, step, o) ==> Enabled(c, s, step)
    ensures Enabled(c, s, step) ==> (o in Next(c, s, step).evicted <==> o in s.evicted || Evicts(c, s, step, o))
  {
    if step.Decide? && step.victim.Some? {
      assert o in Waiting(s.held, step.victim.value) ==> o.episode == step.victim.value;
    }
  }

  /** The release a step has reason for. */
  function ReasonFor(step: Step, o: Occurrence): Release
    requires step.FinishRound? || step.Sweep?
  {
    match step
    case FinishRound(_, v, now) =>
      var nobodyCompared := v.unseen == 0 && v.seen == 0 && v.familiar == 0 && v.incomparable > 0;
      Release(o, if v.confirmed then None else Some(if nobodyCompared then NotComparable else NotCorroborated), now)
    case Sweep(now, _) => Release(o, Some(Expired), now)
  }

  /** Nothing leaves twice. */
  lemma LeavesOnce(c: Config, steps: seq<Step>, j: nat, k: nat, o: Occurrence)
    requires LeavesAt(c, steps, j, o) && LeavesAt(c, steps, k, o)
    ensures j == k
  {
    if j < k {
      GoneAfter(c, steps, j, k, o);
    } else if k < j {
      GoneAfter(c, steps, k, j, o);
    }
  }

  lemma GoneAfter(c: Config, steps: seq<Step>, j: nat, k: nat, o: Occurrence)
    requires LeavesAt(c, steps, j, o) && j < k < |steps|
    ensures o !in Waiting(Run(c, steps[..k]).held, o.episode)
  {
    var front := steps[..k];
    var s := Run(c, front);
    assert front[..j] == steps[..j] && LeavesAt(c, front, j, o);
    EveryParkingIsAccountedForOnce(c, front, o);
    if StaleAt(c, front, j, o) {
      StaleExactlyWhen(c, front, o);
      assert Count(s.stale, o) > 0;
    } else {
      var r := ReasonFor(front[j], o);
      assert ReasonAt(c, front, j, r);
      ReleasedExactlyWhen(c, front, r);
      SomewhereCounts(s, r);
    }
  }

  lemma SomewhereCounts(s: System, r: Release)
    requires Somewhere(s, r)
    ensures Tally(s.outbox, r.occ) + Tally(s.chan, r.occ) + Tally(s.done, r.occ) + Forgotten(s, r.occ) > 0
  {
    if r in s.outbox {
      TallyPositive(s.outbox, r);
    } else if r in s.chan {
      TallyPositive(s.chan, r);
    } else if r in s.done {
      TallyPositive(s.done, r);
    } else if r in s.lost {
      TallyPositive(s.lost, r);
    } else {
      TallyPositive(s.abandoned, r);
    }
  }

  ghost predicate OnlyRelease(s: System, r: Release)
  {
    forall x :: Somewhere(s, x) && x.occ == r.occ ==> x == r
  }

  /** Whatever waits when its episode's round ends, or when a sweep finds it stale, has exactly one outcome from then
      on, in every run: it is gone as stale, when the round confirmed too late, or there is one release of it, with the
      reason of that step. */
  lemma OutcomeIsTheRounds(c: Config, steps: seq<Step>, k: nat, o: Occurrence)
    requires LeavesAt(c, steps, k, o)
    ensures var s := Run(c, steps);
      if StaleAt(c, steps, k, o) then o in s.stale && forall r :: Somewhere(s, r) ==> r.occ != o
      else o !in s.stale && exists r :: Somewhere(s, r) && ReasonAt(c, steps, k, r) && OnlyRelease(s, r)
  {
    var s, step := Run(c, steps), steps[k];
    StaleExactlyWhen(c, steps, o);
    forall x | Somewhere(s, x) && x.occ == o ensures ReasonAt(c, steps, k, x) {
      ReleasedExactlyWhen(c, steps, x);
      var j :| 0 <= j < |steps| && ReasonAt(c, steps, j, x);
      LeavesOnce(c, steps, j, k, o);
    }
    if !StaleAt(c, steps, k, o) {
      var r := ReasonFor(step, o);
      assert ReasonAt(c, steps, k, r);
      ReleasedExactlyWhen(c, steps, r);
      if o in s.stale {
        var j :| 0 <= j < |steps| && StaleAt(c, steps, j, o);
        LeavesOnce(c, steps, j, k, o);
      }
    }
  }

  /** And backwards: everything executed or reported left the store at one step, which had the reason it carries. So an
      action executes exactly when the one round that ended while it waited confirmed, within the TTL. */
  lemma DoneHasItsReason(c: Config, steps: seq<Step>, r: Release)
    requires r in Run(c, steps).done
    ensures exists k ::
      0 <= k < |steps| && ReasonAt(c, steps, k, r) && forall j :: LeavesAt(c, steps, j, r.occ) ==> j == k
  {
    ReleasedExactlyWhen(c, steps, r);
    var k :| 0 <= k < |steps| && ReasonAt(c, steps, k, r);
    forall j | LeavesAt(c, steps, j, r.occ) ensures j == k {
      LeavesOnce(c, steps, j, k, r.occ);
    }
  }

  /** A report says what the hosts of that round were: when every finished round was an honest one, "not comparable"
      means that somebody was on another platform, and nobody who could compare answered at all, and "not corroborated"
      that fewer than the quorum had standing. */
  lemma ReportHasGrounds(c: Config, steps: seq<Step>, rounds: seq<C.Round>, r: Release)
    requires |rounds| == |steps|
    requires forall k :: 0 <= k < |steps| && steps[k].FinishRound? ==>
      C.Honest(rounds[k]) && C.Decides(rounds[k], steps[k].verdict)
    requires r in Run(c, steps).done && r.dropped.Some? && r.dropped.value != Expired
    ensures exists k ::
      && 0 <= k < |steps| && LeavesAt(c, steps, k, r.occ) && steps[k].FinishRound? && C.Honest(rounds[k])
      && !(0 < rounds[k].quorum <= |C.Standing(rounds[k])|)
      && (r.dropped.value == NotComparable <==>
            && C.Positions(rounds[k], C.Foreign) != {} && C.Standing(rounds[k]) == {}
            && C.Positions(rounds[k], C.Seen) == {} && C.Positions(rounds[k], C.Known) == {})
  {
    DoneHasItsReason(c, steps, r);
    var k :| 0 <= k < |steps| && ReasonAt(c, steps, k, r);
    assert LeavesAt(c, steps, k, r.occ) && steps[k].FinishRound?;
    assert C.Decides(rounds[k], steps[k].verdict);
  }

  /** And something does execute: parked, confirmed in time, offered and handled. */
  lemma ConfirmedActionExecutes(c: Config, action: string)
    requires c.channel > 0
    ensures var o := Occurrence(0, "a", action, 0);
      Run(c, [Decide("a", [action], 0, None), FinishRound("a", Confirmed(), 0), Offer(0), HandleRelease]).done ==
        [Release(o, None, 0)]
  {
    var o := Occurrence(0, "a", action, 0);
    var one := Decide("a", [action], 0, None);
    var s := Next(c, START, one);
    RunOne(c, one);
    assert Tag(START, "a", [action], 0) == [o] && [] + [o] == [o];
    assert s.held == map["a" := Parked([o], 0)];
    RunAppend(c, [one], FinishRound("a", Confirmed(), 0));
    var t := Next(c, s, FinishRound("a", Confirmed(), 0));
    assert t.outbox == [Release(o, None, 0)];
    RunAppend(c, [one] + [FinishRound("a", Confirmed(), 0)], Offer(0));
    var u := Next(c, t, Offer(0));
    assert u.chan == [Release(o, None, 0)];
    RunAppend(c, [one] + [FinishRound("a", Confirmed(), 0)] + [Offer(0)], HandleRelease);
    assert [one] + [FinishRound("a", Confirmed(), 0)] + [Offer(0)] + [HandleRelease]
        == [one, FinishRound("a", Confirmed(), 0), Offer(0), HandleRelease];
  }

  // -- The unreported losses -----------------------------------------------------------------------

  datatype Loss = Eviction | Staleness | Refusal | Shutdown

  predicate Clean(s: System, loss: Loss)
  {
    match loss
    case Eviction => s.evicted == []
    case Staleness => s.stale == []
    case Refusal => s.lost == []
    case Shutdown => s.abandoned == [] && s.orphaned == {}
  }

  /** The step loses something without a report: it parks into a full store, confirms an episode that has waited past
      the TTL, offers to a full or closed channel, stops the release loop while something is queued or held, or parks
      when the loop has stopped. */
  predicate Loses(c: Config, s: System, step: Step, loss: Loss)
  {
    match loss
    case Eviction => step.Decide? && |s.held| >= c.maxTracked && s.held != map[]
    case Staleness =>
      && step.FinishRound? && step.verdict.confirmed
      && step.episode in s.held && Stale(s.held[step.episode], step.now, c.ttl)
    case Refusal => step.Offer? && (s.closed || |s.chan| >= c.channel)
    case Shutdown => (step.Stop? && (s.chan != [] || s.held != map[])) || (step.Decide? && s.closed)
  }

  predicate LosesAt(c: Config, steps: seq<Step>, n: nat, loss: Loss)
    requires n < |steps|
  {
    var s := Run(c, steps[..n]);
    Enabled(c, s, steps[n]) && Loses(c, s, steps[n], loss)
  }

  predicate NoneEmpty(held: Held)
  {
    forall e :: e in held ==> held[e].actions != []
  }

  lemma {:induction false} NoneEmptyAlways(c: Config, steps: seq<Step>)
    ensures NoneEmpty(Run(c, steps).held)
  {
    if steps != [] {
      NoneEmptyAlways(c, steps[..|steps| - 1]);
      var s, step := Run(c, steps[..|steps| - 1]), steps[|steps| - 1];
      if Enabled(c, s, step) && step.Decide? {
        assert Tag(s, step.episode, step.actions, step.now) != [];
      }
    }
  }

  lemma SomethingWaits(held: Held)
    requires NoneEmpty(held)
    ensures AllWaiting(held) == {} <==> held == map[]
  {
    if held != map[] {
      var e :| e in held;
      var o := held[e].actions[0];
      assert o in held[e].actions;
      assert o in AllWaiting(held);
    }
  }

  lemma CleanNext(c: Config, s: System, step: Step, loss: Loss)
    requires Enabled(c, s, step) && NoneEmpty(s.held)
    ensures Clean(Next(c, s, step), loss) <==> Clean(s, loss) && !Loses(c, s, step, loss)
  {
    var t := Next(c, s, step);
    if step.Stop? {
      SomethingWaits(s.held);
      assert t.orphaned == {} <==> s.orphaned == {} && AllWaiting(s.held) == {};
      assert t.abandoned == [] <==> s.abandoned == [] && s.chan == [];
    } else if step.Decide? && s.closed {
      assert Tag(s, step.episode, step.actions, step.now)[0] in t.orphaned;
    }
  }

  /** Nothing is forgotten without a report, in any run, exactly when no step of it parks into a full store, confirms an
      episode past its TTL, offers to a full or closed channel, stops the loop over something queued or held, or parks
      after that; and each ledger is clean exactly when its own kind of step is missing. */
  lemma {:induction false} NothingIsForgottenExactlyWhen(c: Config, steps: seq<Step>, loss: Loss)
    ensures Clean(Run(c, steps), loss) <==> forall n :: 0 <= n < |steps| ==> !LosesAt(c, steps, n, loss)
  {
    if steps != [] {
      var k := |steps| - 1;
      var front := steps[..k];
      NothingIsForgottenExactlyWhen(c, front, loss);
      forall n | 0 <= n < k ensures LosesAt(c, steps, n, loss) <==> LosesAt(c, front, n, loss) {
        assert front[..n] == steps[..n];
      }
      NoneEmptyAlways(c, front);
      var s := Run(c, front);
      if Enabled(c, s, steps[k]) {
        CleanNext(c, s, steps[k], loss);
      }
      assert LosesAt(c, steps, k, loss) <==> Enabled(c, s, steps[k]) && Loses(c, s, steps[k], loss);
    }
  }

  /** Once the loop has stopped nothing more is executed or reported, and whatever then waits is logged as orphaned. */
  ghost predicate StoppedOk(s: System)
  {
    && (s.orphaned != {} ==> s.closed)
    && (forall o :: o in s.orphaned ==> Tally(s.done, o) == 0)
    && (s.closed ==> s.chan == [] && AllWaiting(s.held) <= s.orphaned)
  }

  lemma NewIsNowhere(c: Config, s: System, o: Occurrence)
    requires Inv(c, s) && o.serial >= |s.parked|
    ensures Tally(s.done, o) == 0
  {
    assert o !in s.parked;
    assert Count(s.parked, o) == Everywhere(s, o);
  }

  lemma WaitingIsNotDone(c: Config, s: System, o: Occurrence)
    requires Inv(c, s) && o in AllWaiting(s.held)
    ensures Tally(s.done, o) == 0
  {
    assert o in Waiting(s.held, o.episode);
    assert Count(s.parked, o) == Everywhere(s, o);
    OnceOnly(s.parked, o);
  }

  lemma StoppedNext(c: Config, s: System, step: Step)
    requires Inv(c, s) && StoppedOk(s) && Enabled(c, s, step)
    ensures StoppedOk(Next(c, s, step)) && (s.closed ==> Next(c, s, step).done == s.done)
  {
    var t := Next(c, s, step);
    if step.Stop? {
      forall o | o in t.orphaned ensures Tally(t.done, o) == 0 {
        WaitingIsNotDone(c, s, o);
      }
    } else if step.Decide? {
      forall o | o in t.orphaned ensures Tally(t.done, o) == 0 {
        if o !in s.orphaned {
          NewIsNowhere(c, s, o);
        }
      }
    }
  }

  lemma {:induction false} StoppedAlways(c: Config, steps: seq<Step>)
    ensures StoppedOk(Run(c, steps))
  {
    if steps != [] {
      var front := steps[..|steps| - 1];
      StoppedAlways(c, front);
      InvAlways(c, front);
      if Enabled(c, Run(c, front), steps[|steps| - 1]) {
        StoppedNext(c, Run(c, front), steps[|steps| - 1]);
      }
    }
  }

  /** The ledgers are what they say: in every run what was evicted, stale, refused, abandoned or orphaned was neither
      executed nor reported; and any other parked occurrence was, or is still on its way to a loop that runs, or is
      about to be offered. */
  lemma ForgottenExactlyWhenUnreported(c: Config, steps: seq<Step>, o: Occurrence)
    ensures var s := Run(c, steps);
      && (Forgotten(s, o) > 0 || o in s.orphaned ==> Tally(s.done, o) == 0)
      && (o in s.parked && Forgotten(s, o) == 0 && o !in s.orphaned ==>
            || Tally(s.done, o) == 1
            || Tally(s.outbox, o) == 1
            || (!s.closed && (Tally(s.chan, o) == 1 || o in Waiting(s.held, o.episode))))
  {
    var s := Run(c, steps);
    EveryParkingIsAccountedForOnce(c, steps, o);
    StoppedAlways(c, steps);
    if o in Waiting(s.held, o.episode) {
      assert o in AllWaiting(s.held);
    }
  }

  // -- Each loss happens, whatever the sizes -------------------------------------------------------

  function Confirmed(): C.Confirmation { C.Confirmation(1, 1, 0, 0, 0, 0, 0, 1, true) }

  lemma RunAppend(c: Config, steps: seq<Step>, step: Step)
    ensures Run(c, steps + [step]) ==
      if Enabled(c, Run(c, steps), step) then Next(c, Run(c, steps), step) else Run(c, steps)
  {
    assert (steps + [step])[..|steps|] == steps;
  }

  /** A run that can take a losing step loses. */
  lemma LosingStep(c: Config, steps: seq<Step>, step: Step, loss: Loss)
    requires Enabled(c, Run(c, steps), step) && Loses(c, Run(c, steps), step, loss)
    ensures !Clean(Run(c, steps + [step]), loss)
  {
    RunAppend(c, steps, step);
    NoneEmptyAlways(c, steps);
    CleanNext(c, Run(c, steps), step, loss);
  }

  function Name(i: nat): (s: Episode)
    ensures |s| == i
  {
    seq(i, _ => 'a')
  }

  /** `n` episodes parked at time 0. */
  function Fill(n: nat): seq<Step>
  {
    if n == 0 then [] else Fill(n - 1) + [Decide(Name(n - 1), ["x"], 0, None)]
  }

  predicate Filled(s: System, n: nat)
  {
    && s.now == 0 && !s.closed && |s.held| == n
    && (forall i: nat :: i < n ==> Name(i) in s.held)
    && (forall e :: e in s.held ==> |e| < n && s.held[e].since == 0)
  }

  lemma FilledNext(c: Config, s: System, n: nat)
    requires Filled(s, n) && n < Max(1, c.maxTracked)
    ensures var step := Decide(Name(n), ["x"], 0, None); Enabled(c, s, step) && Filled(Next(c, s, step), n + 1)
  {
    var t := Next(c, s, Decide(Name(n), ["x"], 0, None));
    assert Name(n) !in s.held;
    assert t.held.Keys == s.held.Keys + {Name(n)};
  }

  lemma {:induction false} FillFills(c: Config, n: nat)
    requires n <= Max(1, c.maxTracked)
    ensures Filled(Run(c, Fill(n)), n)
  {
    if n > 0 {
      FillFills(c, n - 1);
      FilledNext(c, Run(c, Fill(n - 1)), n - 1);
      RunAppend(c, Fill(n - 1), Decide(Name(n - 1), ["x"], 0, None));
    }
  }

  /** One episode more than the store has room for. */
  lemma EvictionHappens(c: Config) returns (steps: seq<Step>)
    ensures !Clean(Run(c, steps), Eviction)
  {
    var n := Max(1, c.maxTracked);
    FillFills(c, n);
    var step := Decide(Name(n), ["x"], 0, Some(Name(0)));
    assert Name(0) in Run(c, Fill(n)).held;
    LosingStep(c, Fill(n), step, Eviction);
    steps := Fill(n) + [step];
  }

  /** Confirmed after the TTL. */
  lemma StalenessHappens(c: Config) returns (steps: seq<Step>)
    ensures !Clean(Run(c, steps), Staleness)
  {
    FillFills(c, 1);
    var step := FinishRound(Name(0), Confirmed(), c.ttl + 1);
    assert Name(0) in Run(c, Fill(1)).held;
    LosingStep(c, Fill(1), step, Staleness);
    steps := Fill(1) + [step];
  }

  /** `n` actions of one episode, released by a confirmed round, of which `j` have been offered. */
  function Offered(n: nat, j: nat): seq<Step>
  {
    if j == 0 then [Decide("a", seq(n, _ => "x"), 0, None)] + [FinishRound("a", Confirmed(), 0)]
    else Offered(n, j - 1) + [Offer(0)]
  }

  predicate ParkedOnly(s: System, n: nat)
  {
    && s.now == 0 && !s.closed && s.outbox == [] && s.chan == [] && s.done == [] && s.abandoned == []
    && s.orphaned == {} && s.held.Keys == {"a"} && s.held["a"].since == 0 && |s.held["a"].actions| == n
  }

  /** Of `n` releases `j` are in the channel, the others still to be offered, and nothing else happened. */
  predicate QueuedOnly(s: System, n: nat, j: nat)
  {
    && !s.closed && |s.outbox| == n - j && |s.chan| == j && s.done == [] && s.abandoned == []
    && s.orphaned == {} && s.held == map[]
  }

  lemma ParkMany(c: Config, actions: seq<string>)
    requires actions != []
    ensures var step := Decide("a", actions, 0, None);
      Enabled(c, START, step) && ParkedOnly(Next(c, START, step), |actions|)
  {
  }

  lemma ReleaseMany(c: Config, s: System, n: nat)
    requires ParkedOnly(s, n)
    ensures var step := FinishRound("a", Confirmed(), 0); Enabled(c, s, step) && QueuedOnly(Next(c, s, step), n, 0)
  {
    assert (s.held - {"a"}).Keys == {};
  }

  lemma OfferOne(c: Config, s: System, n: nat, j: nat)
    requires QueuedOnly(s, n, j) && j < n && j < c.channel
    ensures Enabled(c, s, Offer(0)) && QueuedOnly(Next(c, s, Offer(0)), n, j + 1)
  {
  }

  lemma RunOne(c: Config, step: Step)
    requires Enabled(c, START, step)
    ensures Run(c, [step]) == Next(c, START, step)
  {
    RunAppend(c, [], step);
    assert [] + [step] == [step];
  }

  lemma {:induction false} OffersQueue(c: Config, n: nat, j: nat)
    requires 0 < n && j <= n && j <= c.channel
    ensures QueuedOnly(Run(c, Offered(n, j)), n, j)
  {
    if j == 0 {
      var actions := seq(n, _ => "x");
      var first := Decide("a", actions, 0, None);
      ParkMany(c, actions);
      RunOne(c, first);
      ReleaseMany(c, Run(c, [first]), n);
      RunAppend(c, [first], FinishRound("a", Confirmed(), 0));
    } else {
      OffersQueue(c, n, j - 1);
      OfferOne(c, Run(c, Offered(n, j - 1)), n, j - 1);
      RunAppend(c, Offered(n, j - 1), Offer(0));
    }
  }

  /** One release more than the channel has room for, with the loop running. */
  lemma FullChannelRefuses(c: Config) returns (steps: seq<Step>)
    ensures !Clean(Run(c, steps), Refusal) && Stop !in steps
  {
    var n := c.channel + 1;
    OffersQueue(c, n, c.channel);
    LosingStep(c, Offered(n, c.channel), Offer(0), Refusal);
    steps := Offered(n, c.channel) + [Offer(0)];
    NoStop(n, c.channel);
  }

  lemma {:induction false} NoStop(n: nat, j: nat)
    ensures Stop !in Offered(n, j)
  {
    if j > 0 {
      NoStop(n, j - 1);
    }
  }

  /** Parked, and then the agent shuts down. */
  lemma ShutdownHappens(c: Config) returns (steps: seq<Step>)
    ensures !Clean(Run(c, steps), Shutdown)
  {
    FillFills(c, 1);
    assert Name(0) in Run(c, Fill(1)).held;
    LosingStep(c, Fill(1), Stop, Shutdown);
    steps := Fill(1) + [Stop];
  }

  /** Released and queued, and then the agent shuts down: only the channel had it. */
  lemma QueuedReleaseIsAbandoned(c: Config)
    requires c.channel > 0
    ensures var s := Run(c, Offered(1, 1) + [Stop]); |s.abandoned| == 1 && s.orphaned == {} && s.done == []
  {
    OffersQueue(c, 1, 1);
    RunAppend(c, Offered(1, 1), Stop);
  }

  /** Every loss does happen, whatever the sizes of store and channel. */
  lemma EachLossHappens(c: Config, loss: Loss) returns (steps: seq<Step>)
    ensures !Clean(Run(c, steps), loss)
  {
    match loss
    case Eviction => steps := EvictionHappens(c);
    case Staleness => steps := StalenessHappens(c);
    case Refusal => steps := FullChannelRefuses(c);
    case Shutdown => steps := ShutdownHappens(c);
  }
}
