/**
 YARA rule pushes at one agent (`handle_yara_push` in `operator.rs`): the seen-set is asked first, and only a push it
 calls new is stored, scanned and passed on. The seen-set forgets, so a flood ends by its hop budget; while the set is
 roomy an agent passes one request on at most once per window.
 */
module YaraFlood {
  import opened Basics
  import M = MeshPush
  import S = Seen

  /** An agent as configured, with its own hop ceiling. */
  datatype Agent = Agent(self: M.Fp, peers: seq<M.Fp>, pins: set<M.Fp>, relay: bool, maxTtl: nat)

  datatype Push = Push(operator: string, request: string, ttl: nat, fanout: bool)

  /** The budgets of the copies an agent sends on. `accepted` is whether the rule was small enough and could be
      stored. */
  function Onward(g: Agent, p: Push, isNew: bool, accepted: bool): seq<nat>
  {
    M.Relayed(g.peers, g.pins, g.self, g.relay, p.fanout, Min(p.ttl, g.maxTtl), isNew && accepted)
  }

  /** The push asks for it, the agent relays, and there is budget left under its own ceiling. */
  predicate GoesOn(g: Agent, p: Push) { p.fanout && g.relay && p.ttl > 0 && g.maxTtl > 0 }

  method HandleYaraPush(g: Agent, seen: S.RecentlySeen, p: Push, now: int, accepted: bool)
    returns (onward: seq<nat>, ghost victim: Option<S.Key>)
    modifies seen
    ensures var call := S.Call((p.operator, p.request), now, victim);
      && S.Admissible(old(seen.seen), call, seen.ttl, seen.maxEntries)
      && seen.seen == S.After(old(seen.seen), call, seen.ttl)
      && onward == Onward(g, p, S.AnswersNew(old(seen.seen), call, seen.ttl), accepted)
      && |onward| == (if S.AnswersNew(old(seen.seen), call, seen.ttl) && accepted && GoesOn(g, p)
                      then |M.Targets(g.peers, g.pins, g.self)| else 0)
      && (forall i :: 0 <= i < |onward| ==> onward[i] == Min(p.ttl, g.maxTtl) - 1)
  {
    onward := [];
    var isNew;
    isNew, victim := seen.CheckAndRecord((p.operator, p.request), now);
    if !isNew || !accepted {
      return;
    }
    var ttl := Min(p.ttl, g.maxTtl);
    if p.fanout && ttl > 0 && g.relay {
      onward := seq(|M.Targets(g.peers, g.pins, g.self)|, _ => ttl - 1);
    }
  }

  /** One push an agent handled: the push, the call on its seen-set, and whether the rule was accepted. */
  datatype Handling = Handling(p: Push, call: S.Call, accepted: bool)

  function Calls(hs: seq<Handling>): seq<S.Call>
  {
    seq(|hs|, i requires 0 <= i < |hs| => hs[i].call)
  }

  /** The pushes an agent handled in order, each asked of the seen-set as it then stood. */
  ghost predicate IsRun(hs: seq<Handling>, ttl: nat, max: nat)
  {
    && S.IsRun(Calls(hs), ttl, max)
    && forall i :: 0 <= i < |hs| ==> hs[i].call.key == (hs[i].p.operator, hs[i].p.request)
  }

  /** What the agent sent on for the `i`-th push. */
  function Sent(g: Agent, hs: seq<Handling>, ttl: nat, i: nat): seq<nat>
    requires i < |hs|
  {
    Onward(g, hs[i].p, S.AnswersNew(S.Run(Calls(hs)[..i], ttl), hs[i].call, ttl), hs[i].accepted)
  }

  /** While the seen-set is roomy an agent passes one request of one operator on at most once per window: a later time
      is at least the window after every earlier arrival of it, passed on or not. */
  lemma OnePassPerWindow(g: Agent, hs: seq<Handling>, ttl: nat, max: nat, i: nat, j: nat)
    requires IsRun(hs, ttl, max) && S.Roomy(Calls(hs), ttl, max) && i < j < |hs|
    requires hs[i].p.operator == hs[j].p.operator && hs[i].p.request == hs[j].p.request && Sent(g, hs, ttl, j) != []
    ensures hs[j].call.now - hs[i].call.now >= ttl
  {
    S.NewAnswersAreSpaced(Calls(hs), ttl, max, i, j);
  }

  /** Whatever the seen-set answers, the flood is bounded by the hop budget. */
  lemma YaraDeliveryIsDelivery(g: Agent, flight: seq<nat>, i: nat, p: Push, isNew: bool, accepted: bool, cap: nat,
      d: nat)
    requires i < |flight| && flight[i] == p.ttl && |g.peers| <= d && g.maxTtl <= cap
    ensures M.IsDelivery(flight, Remove(flight, i) + Onward(g, p, isNew, accepted), cap, d)
  {
    M.AnyPushIsADelivery(flight, i, g.peers, g.pins, g.self, g.relay, p.fanout, isNew && accepted, g.maxTtl, cap, d);
  }
}
