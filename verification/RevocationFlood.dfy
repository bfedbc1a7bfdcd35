/**
 The revocation flood (`handle_revoke_push` and its relay in `operator.rs`, the store in
 `bowery-whisper/src/mesh_trust.rs`): agents, messages in flight delivered in any order, and pin sets that shrink as
 revocations land. Anybody may send anything; `World.signed` is what operators signed, `World.authorised` which
 commands they authorised relays to carry.
 */
module RevocationFlood {
  import opened Basics
  import A = Authorisation
  import M = MeshPush

  type Fp = nat

  // -- One agent handling a push ---------------------------------------------------------------------------

  datatype Revocation = Revocation(target: Fp, cluster: string, issued: nat, reason: string, operator: Fp)

  datatype Entry = Entry(issued: nat, reason: string, operator: Fp)

  /** `accepts` is whether revocation handling is enabled, `peers` whom the mesh lists, `pins` whom the agent starts
      out pinning. */
  datatype AgentConfig = AgentConfig(
    cluster: string, operators: set<Fp>, peers: seq<Fp>, pins: set<Fp>, relay: bool, accepts: bool)

  datatype World = World(cfg: map<Fp, AgentConfig>, signed: set<Revocation>, authorised: set<A.Signed<Revocation>>)

  /** What an agent holds and whom it pins. */
  datatype Node = Node(held: map<Fp, Entry>, pins: set<Fp>)

  datatype Push = Push(
    dest: Fp, sender: Fp, request: string, carried: A.Carried<Revocation>, rev: Revocation, ttl: nat, fanout: bool)

  /** What the world answers while a push is handled: the clock, the fan-out rate limiter, whether the store could be
      written, whether the pin file could be, and whether the report could be sent. */
  datatype Env = Env(now: nat, budget: bool, persisted: bool, saved: bool, reported: bool)

  datatype Report = Report(accepted: bool, alreadyKnown: bool, evicted: bool)

  datatype Outcome = Outcome(node: Node, report: Report, onward: seq<Push>)

  const REFUSAL := Report(false, false, false)

  predicate Verifies(cfg: AgentConfig, signed: set<Revocation>, r: Revocation)
  {
    r.cluster == cfg.cluster && r.operator in cfg.operators && r in signed
  }

  function EntryOf(r: Revocation): Entry { Entry(r.issued, r.reason, r.operator) }

  /** The push passes the dispatcher's gates at this agent. */
  predicate Admitted(w: World, cfg: AgentConfig, p: Push, now: nat)
  {
    A.Admits(cfg.operators, w.authorised, p.request, p.carried, p.rev, p.sender, now) && cfg.accepts
  }

  predicate RateLimited(cfg: AgentConfig, p: Push, e: Env)
  {
    p.fanout && p.sender in cfg.operators && !e.budget
  }

  /** The same gates and the verification, written out: revocations are on, the record is for this cluster and really
      signed by a configured operator, the push came bare from one or under a timely genuine authorisation of one, and
      the fan-out budget of an operator that sent it held out. */
  predicate Passes(w: World, cfg: AgentConfig, p: Push, e: Env)
  {
    && cfg.accepts && p.rev.cluster == cfg.cluster && p.rev.operator in cfg.operators && p.rev in w.signed
    && (|| (p.carried == A.Absent && p.sender in cfg.operators)
        || (&& A.Genuine(w.authorised, p.request, p.carried, p.rev)
            && p.carried.auth.operator in cfg.operators && A.Timely(p.carried.auth.ts, e.now)))
    && (p.fanout && p.sender in cfg.operators ==> e.budget)
  }

  function Forward(targets: seq<Fp>, self: Fp, p: Push, ttl: nat): seq<Push>
  {
    seq(|targets|, i requires 0 <= i < |targets| => Push(targets[i], self, p.request, p.carried, p.rev, ttl, true))
  }

  /** Verify, store, evict, report, and pass on what was new. A failed write or a failed report ends the handling
      early, with the revocation held. */
  function Handle(w: World, self: Fp, cfg: AgentConfig, n: Node, p: Push, e: Env): Outcome
  {
    var target, ttl := p.rev.target, Min(p.ttl, M.MAX_REVOKE_TTL);
    if !Admitted(w, cfg, p, e.now) || RateLimited(cfg, p, e) || !Verifies(cfg, w.signed, p.rev) then
      Outcome(n, REFUSAL, [])
    else if target in n.held then
      Outcome(n.(pins := n.pins - {target}), Report(true, true, target in n.pins && e.saved), [])
    else
      var held := n.held[target := EntryOf(p.rev)];
      if !e.persisted then
        Outcome(Node(held, n.pins), REFUSAL, [])
      else
        var pins := n.pins - {target};
        Outcome(Node(held, pins), Report(true, false, target in n.pins && e.saved),
                if e.reported && p.fanout && ttl > 0 && cfg.relay
                then Forward(M.Targets(cfg.peers, pins, self), self, p, ttl - 1) else [])
  }

  /** What the gossip task leaves pinned: listed peers whose revocation is held go. */
  function Evicted(cfg: AgentConfig, n: Node): Node
  {
    n.(pins := n.pins - set k | k in n.held && k in cfg.peers)
  }

  /** The agent side of `RevokePush`, with the revocation store and the pin store it updates. */
  class PushAgent {
    var held: map<Fp, Entry>
    var pins: set<Fp>
    const cfg: AgentConfig
    const self: Fp

    constructor (cfg: AgentConfig, self: Fp)
      ensures held == map[] && pins == cfg.pins && this.cfg == cfg && this.self == self
    {
      held, pins := map[], cfg.pins;
      this.cfg, this.self := cfg, self;
    }

    /** Insert-if-absent; the record stays in memory even when writing the file fails. */
    method Insert(target: Fp, entry: Entry, writeOk: bool) returns (ok: bool, isNew: bool)
      modifies this`held
      ensures isNew == (target !in old(held)) && (ok <==> !isNew || writeOk)
      ensures held == if isNew then old(held)[target := entry] else old(held)
    {
      if target in held {
        return true, false;
      }
      held := held[target := entry];
      return writeOk, true;
    }

    method HandleRevokePush(w: World, p: Push, e: Env) returns (report: Report, onward: seq<Push>)
      modifies this
      ensures Outcome(Node(held, pins), report, onward) == Handle(w, self, cfg, old(Node(held, pins)), p, e)
      ensures var k := p.rev.target; var known := k in old(held);
        && report.accepted == (Passes(w, cfg, p, e) && (known || e.persisted))
        && report.alreadyKnown == (report.accepted && known)
        && report.evicted == (report.accepted && k in old(pins) && e.saved)
        && pins == (if report.accepted then old(pins) - {k} else old(pins))
        && held == (if Passes(w, cfg, p, e) && !known then old(held)[k := EntryOf(p.rev)] else old(held))
    {
      HandleMeans(w, self, cfg, Node(held, pins), p, e);
      report, onward := REFUSAL, [];
      if !Admitted(w, cfg, p, e.now) || RateLimited(cfg, p, e) {
        return;
      }
      var ttl, isNew := Min(p.ttl, M.MAX_REVOKE_TTL), false;
      if Verifies(cfg, w.signed, p.rev) {
        var ok, inserted := Insert(p.rev.target, EntryOf(p.rev), e.persisted);
        if ok {
          isNew := inserted;
          report := Report(true, !inserted, p.rev.target in pins && e.saved);
          pins := pins - {p.rev.target};
        }
      }
      if !e.reported {
        return;
      }
      if p.fanout && ttl > 0 && isNew && cfg.relay {
        onward := Forward(M.Targets(cfg.peers, pins, self), self, p, ttl - 1);
      }
    }

    /** One round of the gossip task over the listed peers. */
    method EvictRevoked()
      modifies this`pins
      ensures Node(held, pins) == Evicted(cfg, old(Node(held, pins)))
      ensures forall k :: k in pins <==> k in old(pins) && !(k in held && k in cfg.peers)
    {
      for i := 0 to |cfg.peers|
        invariant forall k :: k in pins <==> k in old(pins) && !(k in held && k in cfg.peers[..i])
      {
        if cfg.peers[i] in held {
          pins := pins - {cfg.peers[i]};
        }
      }
    }
  }

  /** What a push does to its receiver: it is accepted exactly when it passes and its key is known or could be written;
      then, and only then, the target is unpinned, which is reported when it was pinned and the pin file was written;
      and the key is held from then on even when it could not be written. */
  lemma HandleMeans(w: World, self: Fp, cfg: AgentConfig, n: Node, p: Push, e: Env)
    ensures var o := Handle(w, self, cfg, n, p, e); var k := p.rev.target; var passes := Passes(w, cfg, p, e);
      && o.report.accepted == (passes && (k in n.held || e.persisted))
      && o.report.alreadyKnown == (o.report.accepted && k in n.held)
      && o.report.evicted == (o.report.accepted && k in n.pins && e.saved)
      && o.node.pins == (if o.report.accepted then n.pins - {k} else n.pins)
      && o.node.held == (if passes && k !in n.held then n.held[k := EntryOf(p.rev)] else n.held)
  {
    A.AdmitsExactlyWhen(cfg.operators, w.authorised, p.request, p.carried, p.rev, p.sender, e.now);
  }

  lemma ForwardAre(targets: seq<Fp>, self: Fp, p: Push, ttl: nat)
    ensures forall q :: q in Forward(targets, self, p, ttl) ==>
      q.dest in targets && q == p.(dest := q.dest, sender := self, ttl := ttl, fanout := true)
  {
  }

  /** A handled push only adds its own key, only when it is admitted and verifies; it restores no pin; and it is
      passed on only when the key was new, with one hop less and the same authorisation. */
  lemma HandleKeeps(w: World, self: Fp, cfg: AgentConfig, n: Node, p: Push, e: Env)
    ensures var o := Handle(w, self, cfg, n, p, e); var k := p.rev.target;
      && o.node.pins <= n.pins
      && (o.node.held != n.held ==>
            && k !in n.held && o.node.held == n.held[k := EntryOf(p.rev)]
            && Admitted(w, cfg, p, e.now) && !RateLimited(cfg, p, e) && Verifies(cfg, w.signed, p.rev))
      && (o.onward != [] ==> o.node.held != n.held && e.persisted && e.reported)
      && |o.onward| <= |cfg.peers|
      && (forall q :: q in o.onward ==>
            && 0 < Min(p.ttl, M.MAX_REVOKE_TTL)
            && q.dest in cfg.peers && q.dest in o.node.pins && q.dest != self && q.dest != k
            && q == p.(dest := q.dest, sender := self, ttl := Min(p.ttl, M.MAX_REVOKE_TTL) - 1, fanout := true))
  {
    var pins := n.pins - {p.rev.target};
    var targets, ttl := M.Targets(cfg.peers, pins, self), Min(p.ttl, M.MAX_REVOKE_TTL);
    M.TargetsAre(cfg.peers, pins, self);
    var o := Handle(w, self, cfg, n, p, e);
    if ttl > 0 {
      ForwardAre(targets, self, p, ttl - 1);
      assert o.onward == [] || (o.onward == Forward(targets, self, p, ttl - 1) && o.node.pins == pins);
    }
  }

  // -- The network -----------------------------------------------------------------------------------------

  datatype Hop = Hop(sender: Fp, receiver: Fp, key: Fp)

  /** `injected` logs what was sent into the mesh from outside, `sent` every relay, `turnedAway` whom the rate limiter
      cost which key, and `stranded` the agents that took a key but could not write it or report it, and so never
      relayed it. */
  datatype Net = Net(
    nodes: map<Fp, Node>, flight: seq<Push>, injected: set<Push>, sent: seq<Hop>,
    turnedAway: set<(Fp, Fp)>, stranded: set<(Fp, Fp)>)

  /** Anybody sends anything to anybody; the network delivers any message in flight; an agent's gossip task runs. */
  datatype Step = Inject(p: Push) | Deliver(i: nat, e: Env) | Tick(a: Fp)

  /** The mesh lists nobody twice. It does list a peer once per incarnation, so this is not to be taken for granted. */
  predicate WellFormed(w: World)
  {
    forall a :: a in w.cfg ==> NoDup(w.cfg[a].peers)
  }

  function Initial(w: World): Net
  {
    Net(map a | a in w.cfg :: Node(map[], w.cfg[a].pins), [], {}, [], {}, {})
  }

  function Hops(sender: Fp, onward: seq<Push>): seq<Hop>
  {
    seq(|onward|, i requires 0 <= i < |onward| => Hop(sender, onward[i].dest, onward[i].rev.target))
  }

  function Next(w: World, s: Net, step: Step): Net
    requires s.nodes.Keys == w.cfg.Keys
  {
    match step
    case Inject(p) => s.(flight := s.flight + [p], injected := s.injected + {p})
    case Deliver(i, e) =>
      if i >= |s.flight| then s
      else if s.flight[i].dest !in w.cfg then s.(flight := Remove(s.flight, i))
      else Delivered(w, s, i, e)
    case Tick(a) => if a in w.cfg then s.(nodes := s.nodes[a := Evicted(w.cfg[a], s.nodes[a])]) else s
  }

  function OutcomeAt(w: World, s: Net, i: nat, e: Env): Outcome
    requires s.nodes.Keys == w.cfg.Keys && i < |s.flight| && s.flight[i].dest in w.cfg
  {
    var p := s.flight[i];
    Handle(w, p.dest, w.cfg[p.dest], s.nodes[p.dest], p, e)
  }

  function Delivered(w: World, s: Net, i: nat, e: Env): Net
    requires s.nodes.Keys == w.cfg.Keys && i < |s.flight| && s.flight[i].dest in w.cfg
  {
    var p := s.flight[i];
    var o, at := OutcomeAt(w, s, i, e), (p.dest, p.rev.target);
    Net(s.nodes[p.dest := o.node],
        Remove(s.flight, i) + o.onward,
        s.injected,
        s.sent + Hops(p.dest, o.onward),
        if RateLimited(w.cfg[p.dest], p, e) then s.turnedAway + {at} else s.turnedAway,
        if o.node.held != s.nodes[p.dest].held && !(e.persisted && e.reported) then s.stranded + {at} else s.stranded)
  }

  datatype History = History(nets: seq<Net>, steps: seq<Step>)

  predicate StepAt(w: World, h: History, i: nat)
    requires |h.nets| == |h.steps| + 1 && i < |h.steps|
  {
    h.nets[i].nodes.Keys == w.cfg.Keys && h.nets[i + 1] == Next(w, h.nets[i], h.steps[i])
  }

  predicate IsHistory(w: World, h: History)
  {
    && |h.nets| == |h.steps| + 1 && h.nets[0] == Initial(w)
    && forall i :: 0 <= i < |h.steps| ==> StepAt(w, h, i)
  }

  // -- What holds in every reachable state ---------------------------------------------------------------------

  /** Agent `a` accepts what this push carries as coming from one of its operators: as a bare push of one, be it the
      original sender or an agent that relayed it to `a`, or under a genuine authorisation by one. */
  predicate TrustedWay(w: World, s: Net, a: Fp, cfg: AgentConfig, q: Push)
  {
    match q.carried
    case Absent => q.sender in cfg.operators || exists b :: b in cfg.operators && Hop(b, a, q.rev.target) in s.sent
    case Garbled => false
    case Given(auth) => A.Genuine(w.authorised, q.request, q.carried, q.rev) && auth.operator in cfg.operators
  }

  /** The entry is an injected revocation that the agent verifies, and that came in a way it trusts. */
  predicate Brought(w: World, s: Net, a: Fp, cfg: AgentConfig, k: Fp, entry: Entry)
  {
    exists q ::
      && q in s.injected && q.rev.target == k && Verifies(cfg, w.signed, q.rev)
      && entry == Entry(q.rev.issued, q.rev.reason, q.rev.operator) && TrustedWay(w, s, a, cfg, q)
  }

  predicate Origin(s: Net, p: Push, q: Push)
  {
    && q.rev == p.rev && q.request == p.request && q.carried == p.carried
    && (p.sender == q.sender || Hop(p.sender, p.dest, p.rev.target) in s.sent)
  }

  /** Relays change nothing but the hop: a message in flight carries what some injected one carried, and comes from
      its sender or from an agent that relayed it. */
  predicate Descends(s: Net, p: Push)
  {
    exists q :: q in s.injected && Origin(s, p, q)
  }

  lemma BroughtStays(w: World, s: Net, t: Net, a: Fp, cfg: AgentConfig, k: Fp, entry: Entry)
    requires Brought(w, s, a, cfg, k, entry) && s.injected <= t.injected && forall h :: h in s.sent ==> h in t.sent
    ensures Brought(w, t, a, cfg, k, entry)
  {
    var q :| q in s.injected && q.rev.target == k && Verifies(cfg, w.signed, q.rev)
          && entry == Entry(q.rev.issued, q.rev.reason, q.rev.operator) && TrustedWay(w, s, a, cfg, q);
    assert TrustedWay(w, t, a, cfg, q);
  }

  /** How often the mesh lists the receiver to the sender. */
  function Listed(w: World, h: Hop): nat
  {
    if h.sender in w.cfg then multiset(w.cfg[h.sender].peers)[h.receiver] else 0
  }

  predicate AllBrought(w: World, s: Net)
    requires s.nodes.Keys == w.cfg.Keys
  {
    forall a, k :: a in s.nodes && k in s.nodes[a].held ==> Brought(w, s, a, w.cfg[a], k, s.nodes[a].held[k])
  }

  predicate SentOk(w: World, s: Net, h: Hop)
  {
    && h.sender in s.nodes && h.key in s.nodes[h.sender].held && h.sender in w.cfg
    && h.receiver in w.cfg[h.sender].peers && h.receiver in w.cfg[h.sender].pins
    && h.receiver != h.sender && h.receiver != h.key
    && (h.sender, h.key) !in s.stranded
  }

  ghost predicate Inv(w: World, s: Net)
  {
    && s.nodes.Keys == w.cfg.Keys
    && (forall a :: a in s.nodes ==> s.nodes[a].pins <= w.cfg[a].pins)
    && (forall p :: p in s.flight ==> Descends(s, p))
    && AllBrought(w, s)
    && (forall h :: multiset(s.sent)[h] <= Listed(w, h))
    && (forall h :: h in s.sent ==> SentOk(w, s, h))
    && (forall x :: x in s.stranded ==> x.0 in s.nodes && x.1 in s.nodes[x.0].held)
  }

  lemma BringsItsOwn(w: World, s: Net, i: nat, e: Env)
    requires Inv(w, s) && i < |s.flight| && s.flight[i].dest in w.cfg
    requires OutcomeAt(w, s, i, e).node.held != s.nodes[s.flight[i].dest].held
    ensures var p := s.flight[i]; Brought(w, s, p.dest, w.cfg[p.dest], p.rev.target, EntryOf(p.rev))
  {
    var p := s.flight[i];
    var cfg := w.cfg[p.dest];
    HandleKeeps(w, p.dest, cfg, s.nodes[p.dest], p, e);
    A.AdmitsExactlyWhen(cfg.operators, w.authorised, p.request, p.carried, p.rev, p.sender, e.now);
    assert Descends(s, p);
    var q :| q in s.injected && Origin(s, p, q);
    assert TrustedWay(w, s, p.dest, cfg, q);
  }

  lemma DeliveredBrought(w: World, s: Net, i: nat, e: Env)
    requires Inv(w, s) && i < |s.flight| && s.flight[i].dest in w.cfg
    ensures AllBrought(w, Delivered(w, s, i, e))
  {
    var p, t := s.flight[i], Delivered(w, s, i, e);
    HandleKeeps(w, p.dest, w.cfg[p.dest], s.nodes[p.dest], p, e);
    forall a, k | a in t.nodes && k in t.nodes[a].held ensures Brought(w, t, a, w.cfg[a], k, t.nodes[a].held[k]) {
      if k in s.nodes[a].held {
        assert t.nodes[a].held[k] == s.nodes[a].held[k];
        BroughtStays(w, s, t, a, w.cfg[a], k, s.nodes[a].held[k]);
      } else {
        BringsItsOwn(w, s, i, e);
        BroughtStays(w, s, t, a, w.cfg[a], k, t.nodes[a].held[k]);
      }
    }
  }

  lemma DeliveredDescends(w: World, s: Net, i: nat, e: Env, x: Push)
    requires Inv(w, s) && i < |s.flight| && s.flight[i].dest in w.cfg && x in Delivered(w, s, i, e).flight
    ensures Descends(Delivered(w, s, i, e), x)
  {
    var p, t := s.flight[i], Delivered(w, s, i, e);
    HandleKeeps(w, p.dest, w.cfg[p.dest], s.nodes[p.dest], p, e);
    var onward := OutcomeAt(w, s, i, e).onward;
    if x in onward {
      var j :| 0 <= j < |onward| && onward[j] == x;
      assert Hops(p.dest, onward)[j] == Hop(x.sender, x.dest, x.rev.target) && Hops(p.dest, onward)[j] in t.sent;
      assert Descends(s, p);
      var q :| q in s.injected && Origin(s, p, q);
      assert Origin(t, x, q);
    } else {
      assert x in s.flight;
      var q :| q in s.injected && Origin(s, x, q);
      assert Origin(t, x, q);
    }
  }

  lemma {:induction false} HopsCount(a: Fp, onward: seq<Push>, targets: seq<Fp>, k: Fp, h: Hop)
    requires |onward| == |targets|
    requires forall j :: 0 <= j < |onward| ==> onward[j].dest == targets[j] && onward[j].rev.target == k
    ensures multiset(Hops(a, onward))[h] == if h.sender == a && h.key == k then multiset(targets)[h.receiver] else 0
    decreases |onward|
  {
    if onward != [] {
      var n := |onward| - 1;
      HopsCount(a, onward[..n], targets[..n], k, h);
      assert targets == targets[..n] + [targets[n]];
      assert Hops(a, onward) == Hops(a, onward[..n]) + [Hop(a, targets[n], k)];
    }
  }

  /** A relay happens once per listing: the key was new to the sender, so it had not relayed it before. */
  lemma HopsAreListed(w: World, s: Net, i: nat, e: Env, h: Hop)
    requires Inv(w, s) && i < |s.flight| && s.flight[i].dest in w.cfg
    ensures multiset(Delivered(w, s, i, e).sent)[h] <= Listed(w, h)
  {
    var p := s.flight[i];
    var cfg, n, onward := w.cfg[p.dest], s.nodes[p.dest], OutcomeAt(w, s, i, e).onward;
    HandleKeeps(w, p.dest, cfg, n, p, e);
    if onward != [] {
      var targets := M.Targets(cfg.peers, n.pins - {p.rev.target}, p.dest);
      assert onward == Forward(targets, p.dest, p, Min(p.ttl, M.MAX_REVOKE_TTL) - 1);
      HopsCount(p.dest, onward, targets, p.rev.target, h);
      M.TargetsCount(cfg.peers, n.pins - {p.rev.target}, p.dest, h.receiver);
      assert h in s.sent ==> SentOk(w, s, h);
      assert multiset(s.sent + Hops(p.dest, onward))[h] == multiset(s.sent)[h] + multiset(Hops(p.dest, onward))[h];
    } else {
      assert s.sent + Hops(p.dest, []) == s.sent;
    }
  }

  lemma DeliveredSent(w: World, s: Net, i: nat, e: Env, h: Hop)
    requires Inv(w, s) && i < |s.flight| && s.flight[i].dest in w.cfg && h in Delivered(w, s, i, e).sent
    ensures SentOk(w, Delivered(w, s, i, e), h)
  {
    var p, t := s.flight[i], Delivered(w, s, i, e);
    HandleKeeps(w, p.dest, w.cfg[p.dest], s.nodes[p.dest], p, e);
    var onward := OutcomeAt(w, s, i, e).onward;
    if h in s.sent {
      assert SentOk(w, s, h);
    } else {
      var j :| 0 <= j < |onward| && Hops(p.dest, onward)[j] == h;
      assert onward[j] in onward;
      assert (p.dest, p.rev.target) !in s.stranded;
    }
  }

  lemma DeliveredInv(w: World, s: Net, i: nat, e: Env)
    requires Inv(w, s) && i < |s.flight| && s.flight[i].dest in w.cfg
    ensures Inv(w, Delivered(w, s, i, e))
  {
    var p, t := s.flight[i], Delivered(w, s, i, e);
    HandleKeeps(w, p.dest, w.cfg[p.dest], s.nodes[p.dest], p, e);
    forall x | x in t.flight ensures Descends(t, x) {
      DeliveredDescends(w, s, i, e, x);
    }
    DeliveredBrought(w, s, i, e);
    forall h ensures multiset(t.sent)[h] <= Listed(w, h) {
      HopsAreListed(w, s, i, e, h);
    }
    forall h | h in t.sent ensures SentOk(w, t, h) {
      DeliveredSent(w, s, i, e, h);
    }
  }

  lemma InjectInv(w: World, s: Net, p: Push)
    requires Inv(w, s)
    ensures Inv(w, Next(w, s, Inject(p)))
  {
    var t := Next(w, s, Inject(p));
    forall x | x in t.flight ensures Descends(t, x) {
      if x in s.flight {
        var q :| q in s.injected && Origin(s, x, q);
        assert Origin(t, x, q);
      } else {
        assert Origin(t, x, p);
      }
    }
    forall a, k | a in t.nodes && k in t.nodes[a].held ensures Brought(w, t, a, w.cfg[a], k, t.nodes[a].held[k]) {
      BroughtStays(w, s, t, a, w.cfg[a], k, s.nodes[a].held[k]);
    }
    forall h | h in t.sent ensures SentOk(w, t, h) {
      assert SentOk(w, s, h);
    }
  }

  lemma LostInv(w: World, s: Net, i: nat)
    requires Inv(w, s) && i < |s.flight|
    ensures Inv(w, s.(flight := Remove(s.flight, i)))
  {
    var t := s.(flight := Remove(s.flight, i));
    forall x | x in t.flight ensures Descends(t, x) {
      assert x in s.flight;
      var q :| q in s.injected && Origin(s, x, q);
      assert Origin(t, x, q);
    }
    forall a, k | a in t.nodes && k in t.nodes[a].held ensures Brought(w, t, a, w.cfg[a], k, t.nodes[a].held[k]) {
      BroughtStays(w, s, t, a, w.cfg[a], k, s.nodes[a].held[k]);
    }
    forall h | h in t.sent ensures SentOk(w, t, h) {
      assert SentOk(w, s, h);
    }
  }

  lemma TickInv(w: World, s: Net, a: Fp)
    requires Inv(w, s)
    ensures Inv(w, Next(w, s, Tick(a)))
  {
    var t := Next(w, s, Tick(a));
    forall x | x in t.flight ensures Descends(t, x) {
      var q :| q in s.injected && Origin(s, x, q);
      assert Origin(t, x, q);
    }
    forall b, k | b in t.nodes && k in t.nodes[b].held ensures Brought(w, t, b, w.cfg[b], k, t.nodes[b].held[k]) {
      BroughtStays(w, s, t, b, w.cfg[b], k, s.nodes[b].held[k]);
    }
    forall h | h in t.sent ensures SentOk(w, t, h) {
      assert SentOk(w, s, h);
    }
  }

  lemma {:induction false} InvAlways(w: World, h: History, n: nat)
    requires IsHistory(w, h) && n < |h.nets|
    ensures Inv(w, h.nets[n])
  {
    if n > 0 {
      InvAlways(w, h, n - 1);
      assert StepAt(w, h, n - 1);
      var s := h.nets[n - 1];
      match h.steps[n - 1]
      case Inject(p) => InjectInv(w, s, p);
      case Deliver(i, e) =>
        if i < |s.flight| {
          if s.flight[i].dest in w.cfg {
            DeliveredInv(w, s, i, e);
          } else {
            LostInv(w, s, i);
          }
        }
      case Tick(a) => TickInv(w, s, a);
    }
  }

  /** Relays of one key. */
  function RelaysOf(sent: seq<Hop>, k: Fp): seq<Hop>
  {
    if sent == [] then []
    else RelaysOf(sent[..|sent| - 1], k) + if sent[|sent| - 1].key == k then [sent[|sent| - 1]] else []
  }

  ghost function PinEdges(w: World, k: Fp): set<Hop>
  {
    set a, b | a in w.cfg && b in w.cfg[a].pins && a != b :: Hop(a, b, k)
  }

  lemma {:induction false} RelaysOfAre(sent: seq<Hop>, k: Fp)
    requires NoDup(sent)
    ensures NoDup(RelaysOf(sent, k))
    ensures forall h :: h in RelaysOf(sent, k) ==> h in sent && h.key == k
  {
    if sent != [] {
      var front := sent[..|sent| - 1];
      RelaysOfAre(front, k);
      assert forall h :: h in front ==> h in sent;
      assert sent[|sent| - 1] !in front;
    }
  }

  /** The flood is safe in every run, whatever anybody sends. Each revocation held was injected by somebody, signed by
      an operator its holder trusts, and brought under an authorisation of an operator its holder trusts; an agent
      relays a key to a peer at most as often as the mesh lists that peer to it, so once, and in all never over more
      than the directed pin edges, when nobody is listed twice; no revocation is relayed to the agent it revokes; and an
      agent that took a key but failed to write or report it holds it and never relays it. */
  lemma RevocationFloodIsSafe(w: World, h: History, n: nat, k: Fp)
    requires IsHistory(w, h) && n < |h.nets|
    ensures var s := h.nets[n];
      && s.nodes.Keys == w.cfg.Keys
      && (forall a :: a in s.nodes && k in s.nodes[a].held ==> Brought(w, s, a, w.cfg[a], k, s.nodes[a].held[k]))
      && (forall hop :: multiset(s.sent)[hop] <= Listed(w, hop))
      && (forall hop :: hop in s.sent ==> hop.receiver != hop.key)
      && (WellFormed(w) ==> NoDup(s.sent) && |RelaysOf(s.sent, k)| <= |PinEdges(w, k)|)
      && (forall a :: (a, k) in s.stranded ==>
            a in s.nodes && k in s.nodes[a].held && forall hop :: hop in s.sent ==> hop.sender != a || hop.key != k)
  {
    InvAlways(w, h, n);
    var s := h.nets[n];
    forall hop | hop in s.sent ensures SentOk(w, s, hop) {
    }
    if WellFormed(w) {
      RelaysFit(w, s, k);
    }
  }

  lemma RelaysFit(w: World, s: Net, k: Fp)
    requires Inv(w, s) && WellFormed(w)
    ensures NoDup(s.sent) && |RelaysOf(s.sent, k)| <= |PinEdges(w, k)|
  {
    forall h ensures multiset(s.sent)[h] <= 1 {
      if h.sender in w.cfg {
        NoDupMeansCounts(w.cfg[h.sender].peers, h.receiver);
      }
    }
    CountsMeanNoDup(s.sent);
    RelaysOfAre(s.sent, k);
    forall hop | hop in RelaysOf(s.sent, k) ensures hop in PinEdges(w, k) {
      assert SentOk(w, s, hop);
    }
    NoDupFits(RelaysOf(s.sent, k), PinEdges(w, k));
  }

  /** An agent that trusts none of the authorisers never gets the revocation, in any run: trust in the operator that
      signed the revocation is not enough, every hop asks for trust in the operator that authorised the push. */
  lemma UntrustedAuthoriserNeverArrives(w: World, h: History, n: nat, b: Fp, k: Fp)
    requires IsHistory(w, h) && n < |h.nets| && b in w.cfg
    requires forall q :: q in h.nets[n].injected && q.rev.target == k ==> !TrustedWay(w, h.nets[n], b, w.cfg[b], q)
    ensures b in h.nets[n].nodes && k !in h.nets[n].nodes[b].held
  {
    InvAlways(w, h, n);
    var s := h.nets[n];
    assert k in s.nodes[b].held ==> Brought(w, s, b, w.cfg[b], k, s.nodes[b].held[k]);
  }

  // -- Containment: who is still pinned ------------------------------------------------------------------------

  /** Step `i` delivers to `a` a push for `k` that passes. */
  predicate ArrivesAt(w: World, h: History, i: nat, a: Fp, k: Fp)
    requires |h.nets| == |h.steps| + 1 && i < |h.steps| && a in w.cfg
  {
    match h.steps[i]
    case Deliver(j, e) =>
      && j < |h.nets[i].flight|
      && var p := h.nets[i].flight[j]; p.dest == a && p.rev.target == k && Passes(w, w.cfg[a], p, e)
    case _ => false
  }

  /** Step `i` is a round of `a`'s gossip task, and the mesh lists `k` to it. */
  predicate TicksAt(w: World, h: History, i: nat, a: Fp, k: Fp)
    requires |h.nets| == |h.steps| + 1 && i < |h.steps| && a in w.cfg
  {
    h.steps[i] == Tick(a) && k in w.cfg[a].peers
  }

  /** Step `i` ends the pin: a push for a key that is known or could be written, or the gossip task once it is held. */
  predicate UnpinsAt(w: World, h: History, i: nat, a: Fp, k: Fp)
    requires |h.nets| == |h.steps| + 1 && i < |h.steps| && a in w.cfg && a in h.nets[i].nodes
  {
    var known := k in h.nets[i].nodes[a].held;
    (ArrivesAt(w, h, i, a, k) && (known || h.steps[i].e.persisted)) || (TicksAt(w, h, i, a, k) && known)
  }

  /** Step `i` costs `a` the key `k`: a fan-out push an operator sent it meets an exhausted budget. */
  predicate LimitsAt(w: World, h: History, i: nat, a: Fp, k: Fp)
    requires |h.nets| == |h.steps| + 1 && i < |h.steps| && a in w.cfg
  {
    match h.steps[i]
    case Deliver(j, e) =>
      && j < |h.nets[i].flight|
      && var p := h.nets[i].flight[j];
         p.dest == a && p.rev.target == k && p.fanout && p.sender in w.cfg[a].operators && !e.budget
    case _ => false
  }

  /** Step `i` brings `k` to `a` for the first time, and it could not be written or not be reported. */
  predicate StrandsAt(w: World, h: History, i: nat, a: Fp, k: Fp)
    requires |h.nets| == |h.steps| + 1 && i < |h.steps| && a in w.cfg && a in h.nets[i].nodes
  {
    && ArrivesAt(w, h, i, a, k) && k !in h.nets[i].nodes[a].held
    && !(h.steps[i].e.persisted && h.steps[i].e.reported)
  }

  /** The logs are what they say: whom the rate limiter cost which key, and who took which key but could not write or
      report it. */
  lemma {:induction false} LogsAreExact(w: World, h: History, n: nat, a: Fp, k: Fp)
    requires IsHistory(w, h) && n < |h.nets| && a in w.cfg
    ensures forall i :: 0 <= i <= n ==> a in h.nets[i].nodes
    ensures (a, k) in h.nets[n].turnedAway <==> exists i :: 0 <= i < n && LimitsAt(w, h, i, a, k)
    ensures (a, k) in h.nets[n].stranded <==> exists i :: 0 <= i < n && StrandsAt(w, h, i, a, k)
  {
    SameAgents(w, h, n);
    if n > 0 {
      LogsAreExact(w, h, n - 1, a, k);
      LogsNext(w, h, n - 1, a, k);
    }
  }

  lemma LogsNext(w: World, h: History, i: nat, a: Fp, k: Fp)
    requires IsHistory(w, h) && i < |h.steps| && a in w.cfg && a in h.nets[i].nodes
    ensures (a, k) in h.nets[i + 1].turnedAway <==> (a, k) in h.nets[i].turnedAway || LimitsAt(w, h, i, a, k)
    ensures (a, k) in h.nets[i + 1].stranded <==> (a, k) in h.nets[i].stranded || StrandsAt(w, h, i, a, k)
  {
    assert StepAt(w, h, i);
    var s := h.nets[i];
    if h.steps[i].Deliver? && h.steps[i].i < |s.flight| && s.flight[h.steps[i].i].dest == a {
      HandleMeans(w, a, w.cfg[a], s.nodes[a], s.flight[h.steps[i].i], h.steps[i].e);
    }
  }

  lemma SameAgents(w: World, h: History, n: nat)
    requires IsHistory(w, h) && n < |h.nets|
    ensures h.nets[n].nodes.Keys == w.cfg.Keys
  {
    InvAlways(w, h, n);
  }

  lemma HeldNext(w: World, h: History, i: nat, a: Fp, k: Fp)
    requires IsHistory(w, h) && i < |h.steps| && a in w.cfg
    ensures a in h.nets[i].nodes && a in h.nets[i + 1].nodes
    ensures k in h.nets[i + 1].nodes[a].held <==> k in h.nets[i].nodes[a].held || ArrivesAt(w, h, i, a, k)
    ensures k in h.nets[i + 1].nodes[a].pins <==> k in h.nets[i].nodes[a].pins && !UnpinsAt(w, h, i, a, k)
  {
    SameAgents(w, h, i);
    SameAgents(w, h, i + 1);
    assert StepAt(w, h, i);
    var s := h.nets[i];
    if h.steps[i].Deliver? && h.steps[i].i < |s.flight| && s.flight[h.steps[i].i].dest == a {
      HandleMeans(w, a, w.cfg[a], s.nodes[a], s.flight[h.steps[i].i], h.steps[i].e);
    }
  }

  /** In every run an agent holds a key exactly when some push for it passed there, written or not. */
  lemma {:induction false} HeldExactlyWhen(w: World, h: History, n: nat, a: Fp, k: Fp)
    requires IsHistory(w, h) && n < |h.nets| && a in w.cfg
    ensures a in h.nets[n].nodes
    ensures k in h.nets[n].nodes[a].held <==> exists i :: 0 <= i < n && ArrivesAt(w, h, i, a, k)
  {
    if n > 0 {
      HeldExactlyWhen(w, h, n - 1, a, k);
      HeldNext(w, h, n - 1, a, k);
    }
  }

  lemma {:induction false} PinnedExactlyWhen(w: World, h: History, n: nat, a: Fp, k: Fp)
    requires IsHistory(w, h) && n < |h.nets| && a in w.cfg
    ensures forall i :: 0 <= i <= n ==> a in h.nets[i].nodes
    ensures k in h.nets[n].nodes[a].pins <==>
      k in w.cfg[a].pins && forall i :: 0 <= i < n ==> !UnpinsAt(w, h, i, a, k)
  {
    if n > 0 {
      PinnedExactlyWhen(w, h, n - 1, a, k);
      HeldNext(w, h, n - 1, a, k);
    }
  }

  /** Containment, exactly: in every run an agent that holds a revocation still pins the revoked agent if and only if
      it pinned it at the start, one single push for it ever passed there, that one could not be written, and the gossip
      task has not come across the revoked agent since. */
  lemma RevokedStaysPinnedExactlyWhen(w: World, h: History, n: nat, a: Fp, k: Fp)
    requires IsHistory(w, h) && n < |h.nets| && a in w.cfg
    ensures a in h.nets[n].nodes
    ensures k in h.nets[n].nodes[a].held && k in h.nets[n].nodes[a].pins <==>
      k in w.cfg[a].pins && exists i :: 0 <= i < n && OnlyArrival(w, h, n, i, a, k)
  {
    PinnedExactlyWhen(w, h, n, a, k);
    HeldExactlyWhen(w, h, n, a, k);
    if k in h.nets[n].nodes[a].held && k in h.nets[n].nodes[a].pins {
      var i :| 0 <= i < n && ArrivesAt(w, h, i, a, k);
      StillPinned(w, h, n, i, a, k);
    }
    if k in w.cfg[a].pins && exists i :: 0 <= i < n && OnlyArrival(w, h, n, i, a, k) {
      var i :| 0 <= i < n && OnlyArrival(w, h, n, i, a, k);
      forall j | 0 <= j < n ensures !UnpinsAt(w, h, j, a, k) {
        HeldExactlyWhen(w, h, j, a, k);
      }
    }
  }

  /** Of the first `n` steps only `i` brings `k` to `a`, it could not be written, and no tick lists `k` after it. */
  predicate OnlyArrival(w: World, h: History, n: nat, i: nat, a: Fp, k: Fp)
    requires |h.nets| == |h.steps| + 1 && i < n <= |h.steps| && a in w.cfg
  {
    && ArrivesAt(w, h, i, a, k) && !h.steps[i].e.persisted
    && (forall j :: 0 <= j < n && j != i ==> !ArrivesAt(w, h, j, a, k))
    && (forall j :: i < j < n ==> !TicksAt(w, h, j, a, k))
  }

  lemma StillPinned(w: World, h: History, n: nat, i: nat, a: Fp, k: Fp)
    requires IsHistory(w, h) && i < n < |h.nets| && a in w.cfg && ArrivesAt(w, h, i, a, k)
    requires forall j :: 0 <= j < n ==> a in h.nets[j].nodes && !UnpinsAt(w, h, j, a, k)
    ensures OnlyArrival(w, h, n, i, a, k)
  {
    forall j | 0 <= j < n && j != i ensures !ArrivesAt(w, h, j, a, k) {
      HeldExactlyWhen(w, h, i, a, k);
      HeldExactlyWhen(w, h, j, a, k);
    }
    forall j | i < j < n ensures !TicksAt(w, h, j, a, k) {
      HeldExactlyWhen(w, h, j, a, k);
    }
  }

  // -- The flood ends ------------------------------------------------------------------------------------------

  function Budgets(flight: seq<Push>): seq<nat>
  {
    seq(|flight|, i requires 0 <= i < |flight| => flight[i].ttl)
  }

  lemma RevocationDeliveryIsDelivery(w: World, s: Net, i: nat, e: Env, d: nat)
    requires s.nodes.Keys == w.cfg.Keys && i < |s.flight| && forall a :: a in w.cfg ==> |w.cfg[a].peers| <= d
    ensures M.IsDelivery(Budgets(s.flight), Budgets(Next(w, s, Deliver(i, e)).flight), M.MAX_REVOKE_TTL, d)
  {
    var p, t := s.flight[i], Next(w, s, Deliver(i, e));
    var onward: seq<Push> := if p.dest in w.cfg then OutcomeAt(w, s, i, e).onward else [];
    if p.dest in w.cfg {
      HandleKeeps(w, p.dest, w.cfg[p.dest], s.nodes[p.dest], p, e);
      assert forall j :: 0 <= j < |onward| ==> onward[j] in onward;
    }
    assert t.flight == Remove(s.flight, i) + onward;
    M.Replaced(Budgets(s.flight), Budgets(t.flight), i, Budgets(onward), M.MAX_REVOKE_TTL, d);
  }

  predicate DeliversAt(h: History, i: nat)
    requires |h.nets| == |h.steps| + 1 && i < |h.steps|
  {
    h.steps[i].Deliver? && h.steps[i].i < |h.nets[i].flight|
  }

  /** Every flood dies out: a stretch of deliveries is never longer than the weight of what was in flight when it
      began. */
  lemma {:induction false} RevocationFloodEnds(w: World, h: History, m: nat, n: nat, d: nat)
    requires IsHistory(w, h) && m <= n < |h.nets| && forall a :: a in w.cfg ==> |w.cfg[a].peers| <= d
    requires forall i :: m <= i < n ==> DeliversAt(h, i)
    ensures n - m <= M.Weight(Budgets(h.nets[m].flight), M.MAX_REVOKE_TTL, d) - M.Weight(Budgets(h.nets[n].flight),
      M.MAX_REVOKE_TTL, d)
  {
    if m < n {
      RevocationFloodEnds(w, h, m, n - 1, d);
      assert StepAt(w, h, n - 1) && DeliversAt(h, n - 1);
      var s, step := h.nets[n - 1], h.steps[n - 1];
      RevocationDeliveryIsDelivery(w, s, step.i, step.e, d);
      M.DeliveryLowers(Budgets(s.flight), Budgets(h.nets[n].flight), M.MAX_REVOKE_TTL, d);
    }
  }

  // -- Coverage ------------------------------------------------------------------------------------------------

  /** Some agent could take this push at some time; everything else may be sent freely. */
  predicate Live(w: World, p: Push)
  {
    && p.rev in w.signed
    && (|| A.Genuine(w.authorised, p.request, p.carried, p.rev)
        || (p.carried == A.Absent && exists a :: a in w.cfg && p.sender in w.cfg[a].operators))
  }

  predicate Driven(w: World, d: A.Drive, p: Push)
  {
    p.fanout && A.Drives(d, w.authorised, p.request, p.carried, p.rev)
  }

  /** Every push for this key that any agent could take carries the same record, asks for fan-out under an
      authorisation of the drive, and has a hop budget of at least (agents - 1) after the clamp; and copies of it are
      delivered within the window of all those authorisations. */
  predicate Generous(w: World, s: Net, r: Revocation, d: A.Drive, step: Step)
  {
    match step
    case Inject(p) =>
      Live(w, p) && p.rev.target == r.target ==>
        p.rev == r && Driven(w, d, p) && Min(p.ttl, M.MAX_REVOKE_TTL) >= |w.cfg| - 1
    case Deliver(i, e) =>
      i < |s.flight| && s.flight[i].rev == r && Live(w, s.flight[i]) ==> A.InWindow(d, e.now)
    case Tick(_) => true
  }

  predicate GenerousAt(w: World, h: History, r: Revocation, d: A.Drive, i: nat)
    requires |h.nets| == |h.steps| + 1 && i < |h.steps|
  {
    Generous(w, h.nets[i], r, d, h.steps[i])
  }

  /** The agent takes revocations, this one verifies there, and it trusts every operator of the drive. */
  predicate Accepting(w: World, cfg: AgentConfig, r: Revocation, d: A.Drive)
  {
    cfg.accepts && Verifies(cfg, w.signed, r) && d.operators <= cfg.operators
  }

  function Holders(s: Net, k: Fp): set<Fp>
  {
    set a | a in s.nodes && k in s.nodes[a].held
  }

  /** Where `a` would still relay to: gossiped and pinned now. */
  function Edges(w: World, s: Net, a: Fp): seq<Fp>
    requires a in w.cfg && a in s.nodes
  {
    if w.cfg[a].relay then M.Targets(w.cfg[a].peers, s.nodes[a].pins, a) else []
  }

  predicate Coming(w: World, s: Net, b: Fp, r: Revocation)
  {
    exists p :: p in s.flight && p.dest == b && p.rev == r && Live(w, p)
  }

  /** The agent holds the key, will get it, or the rate limiter cost it the key. */
  predicate Served(w: World, s: Net, b: Fp, r: Revocation)
    requires b in s.nodes
  {
    r.target in s.nodes[b].held || Coming(w, s, b, r) || (b, r.target) in s.turnedAway
  }

  /** Each live message for the key has enough budget left for the agents that do not hold it yet. */
  predicate EnoughBudget(w: World, s: Net, r: Revocation, d: A.Drive)
  {
    forall p :: p in s.flight && p.rev.target == r.target && Live(w, p) ==>
      p.rev == r && Driven(w, d, p) && Min(p.ttl, M.MAX_REVOKE_TTL) + |Holders(s, r.target)| >= |w.cfg| - 1
  }

  predicate NeighboursServed(w: World, s: Net, r: Revocation, d: A.Drive, a: Fp)
    requires s.nodes.Keys == w.cfg.Keys && a in w.cfg
  {
    forall b :: b in Edges(w, s, a) && b in w.cfg && Accepting(w, w.cfg[b], r, d) ==> Served(w, s, b, r)
  }

  predicate EntriesServed(w: World, s: Net, r: Revocation, d: A.Drive)
    requires s.nodes.Keys == w.cfg.Keys
  {
    forall p :: p in s.injected && p.rev == r && Live(w, p) && p.dest in w.cfg && Accepting(w, w.cfg[p.dest], r, d) ==>
      Served(w, s, p.dest, r)
  }

  predicate Covering(w: World, s: Net, r: Revocation, d: A.Drive)
  {
    && s.nodes.Keys == w.cfg.Keys
    && EnoughBudget(w, s, r, d) && EntriesServed(w, s, r, d)
    && (forall a :: a in Holders(s, r.target) && (a, r.target) !in s.stranded ==> NeighboursServed(w, s, r, d, a))
  }

  /** What no step undoes: holders stay, pins only go, and what is on its way stays or arrives. */
  predicate Grows(w: World, s: Net, t: Net, r: Revocation, d: A.Drive)
    requires s.nodes.Keys == w.cfg.Keys
  {
    && t.nodes.Keys == w.cfg.Keys
    && Holders(s, r.target) <= Holders(t, r.target) && s.stranded <= t.stranded
    && (forall a :: a in w.cfg ==> t.nodes[a].pins <= s.nodes[a].pins)
    && (forall b :: b in w.cfg && Accepting(w, w.cfg[b], r, d) && Served(w, s, b, r) ==> Served(w, t, b, r))
  }

  lemma GrowsKeepsNeighbours(w: World, s: Net, t: Net, r: Revocation, d: A.Drive, a: Fp)
    requires s.nodes.Keys == w.cfg.Keys && Grows(w, s, t, r, d) && a in w.cfg && NeighboursServed(w, s, r, d, a)
    ensures NeighboursServed(w, t, r, d, a)
  {
    M.TargetsAre(w.cfg[a].peers, s.nodes[a].pins, a);
    M.TargetsAre(w.cfg[a].peers, t.nodes[a].pins, a);
    forall b | b in Edges(w, t, a) && b in w.cfg && Accepting(w, w.cfg[b], r, d) ensures Served(w, t, b, r) {
      assert b in Edges(w, s, a);
    }
  }

  /** A step that changes no holder keeps what holders owe their neighbours. */
  lemma SameHolders(w: World, s: Net, t: Net, r: Revocation, d: A.Drive)
    requires Covering(w, s, r, d) && Grows(w, s, t, r, d) && Holders(t, r.target) == Holders(s, r.target)
    requires EnoughBudget(w, t, r, d) && EntriesServed(w, t, r, d)
    ensures Covering(w, t, r, d)
  {
    forall a | a in Holders(t, r.target) && (a, r.target) !in t.stranded ensures NeighboursServed(w, t, r, d, a) {
      GrowsKeepsNeighbours(w, s, t, r, d, a);
    }
  }

  lemma InjectCovers(w: World, s: Net, r: Revocation, d: A.Drive, p: Push)
    requires Covering(w, s, r, d) && Generous(w, s, r, d, Inject(p))
    ensures Covering(w, Next(w, s, Inject(p)), r, d)
  {
    var t := Next(w, s, Inject(p));
    assert Holders(t, r.target) == Holders(s, r.target);
    assert forall q :: q in s.flight ==> q in t.flight;
    assert p in t.flight;
    assert Grows(w, s, t, r, d);
    assert EnoughBudget(w, t, r, d) && EntriesServed(w, t, r, d);
    SameHolders(w, s, t, r, d);
  }

  lemma LostCovers(w: World, s: Net, r: Revocation, d: A.Drive, i: nat)
    requires Covering(w, s, r, d) && i < |s.flight| && s.flight[i].dest !in w.cfg
    ensures Covering(w, s.(flight := Remove(s.flight, i)), r, d)
  {
    var t := s.(flight := Remove(s.flight, i));
    assert Holders(t, r.target) == Holders(s, r.target);
    forall b | b in w.cfg && Served(w, s, b, r) ensures Served(w, t, b, r) {
      if Coming(w, s, b, r) {
        var q :| q in s.flight && q.dest == b && q.rev == r && Live(w, q);
        RemoveKeeps(s.flight, i, q);
      }
    }
    assert Grows(w, s, t, r, d);
    assert EnoughBudget(w, t, r, d) && EntriesServed(w, t, r, d);
    SameHolders(w, s, t, r, d);
  }

  lemma TickCovers(w: World, s: Net, r: Revocation, d: A.Drive, a: Fp)
    requires Covering(w, s, r, d)
    ensures Covering(w, Next(w, s, Tick(a)), r, d)
  {
    var t := Next(w, s, Tick(a));
    assert Holders(t, r.target) == Holders(s, r.target);
    forall b | b in w.cfg && Served(w, s, b, r) ensures Served(w, t, b, r) {
      if Coming(w, s, b, r) {
        var q :| q in s.flight && q.dest == b && q.rev == r && Live(w, q);
        assert q in t.flight;
      }
    }
    assert Grows(w, s, t, r, d);
    assert EnoughBudget(w, t, r, d) && EntriesServed(w, t, r, d);
    SameHolders(w, s, t, r, d);
  }

  /** What a delivery does to the key at its receiver: a live copy is taken, or lost to the rate limiter, by an
      accepting agent; and only a live copy of `r` makes a new holder. */
  lemma DeliveryTakes(w: World, s: Net, r: Revocation, d: A.Drive, i: nat, e: Env)
    requires Covering(w, s, r, d) && i < |s.flight| && s.flight[i].dest in w.cfg && Generous(w, s, r, d, Deliver(i, e))
    ensures var p, t := s.flight[i], Delivered(w, s, i, e);
      && t.nodes.Keys == w.cfg.Keys
      && (p.rev == r && Live(w, p) && Accepting(w, w.cfg[p.dest], r, d) ==>
            r.target in t.nodes[p.dest].held || (p.dest, r.target) in t.turnedAway)
      && (r.target in t.nodes[p.dest].held && r.target !in s.nodes[p.dest].held ==>
            && p.rev == r && Live(w, p) && Driven(w, d, p)
            && ((p.dest, r.target) !in t.stranded ==> e.persisted && e.reported))
  {
    var p := s.flight[i];
    var cfg := w.cfg[p.dest];
    assert p in s.flight;
    HandleKeeps(w, p.dest, cfg, s.nodes[p.dest], p, e);
    A.AdmitsExactlyWhen(cfg.operators, w.authorised, p.request, p.carried, p.rev, p.sender, e.now);
  }

  lemma DeliveredServes(w: World, s: Net, r: Revocation, d: A.Drive, i: nat, e: Env, b: Fp)
    requires Covering(w, s, r, d) && i < |s.flight| && s.flight[i].dest in w.cfg && Generous(w, s, r, d, Deliver(i, e))
    requires b in w.cfg && Accepting(w, w.cfg[b], r, d) && Served(w, s, b, r)
    ensures b in Delivered(w, s, i, e).nodes && Served(w, Delivered(w, s, i, e), b, r)
  {
    var p, t := s.flight[i], Delivered(w, s, i, e);
    HandleKeeps(w, p.dest, w.cfg[p.dest], s.nodes[p.dest], p, e);
    DeliveryTakes(w, s, r, d, i, e);
    if Coming(w, s, b, r) {
      var q :| q in s.flight && q.dest == b && q.rev == r && Live(w, q);
      RemoveKeeps(s.flight, i, q);
      assert q in t.flight || q == p;
    }
  }

  lemma DeliveredGrows(w: World, s: Net, r: Revocation, d: A.Drive, i: nat, e: Env)
    requires Covering(w, s, r, d) && i < |s.flight| && s.flight[i].dest in w.cfg && Generous(w, s, r, d, Deliver(i, e))
    ensures Grows(w, s, Delivered(w, s, i, e), r, d)
    ensures Holders(Delivered(w, s, i, e), r.target) <= Holders(s, r.target) + {s.flight[i].dest}
  {
    var p, t := s.flight[i], Delivered(w, s, i, e);
    HandleKeeps(w, p.dest, w.cfg[p.dest], s.nodes[p.dest], p, e);
    forall b | b in w.cfg && Accepting(w, w.cfg[b], r, d) && Served(w, s, b, r) ensures Served(w, t, b, r) {
      DeliveredServes(w, s, r, d, i, e, b);
    }
  }

  lemma BudgetAfter(w: World, s: Net, r: Revocation, d: A.Drive, i: nat, e: Env)
    requires Covering(w, s, r, d) && i < |s.flight| && s.flight[i].dest in w.cfg && Generous(w, s, r, d, Deliver(i, e))
    ensures EnoughBudget(w, Delivered(w, s, i, e), r, d)
  {
    var p, t := s.flight[i], Delivered(w, s, i, e);
    var k, onward := r.target, OutcomeAt(w, s, i, e).onward;
    DeliveredGrows(w, s, r, d, i, e);
    SubsetFits(Holders(s, k), Holders(t, k));
    HandleKeeps(w, p.dest, w.cfg[p.dest], s.nodes[p.dest], p, e);
    DeliveryTakes(w, s, r, d, i, e);
    assert p in s.flight;
    if onward != [] && p.rev.target == k {
      assert p.dest !in Holders(s, k) && p.dest in Holders(t, k);
      SubsetFits(Holders(s, k) + {p.dest}, Holders(t, k));
    }
    forall q | q in t.flight && q.rev.target == k && Live(w, q)
      ensures q.rev == r && Driven(w, d, q) && Min(q.ttl, M.MAX_REVOKE_TTL) + |Holders(t, k)| >= |w.cfg| - 1
    {
      if q !in onward {
        assert q in s.flight;
      }
    }
  }

  /** An agent that just took the revocation has served its neighbours: it forwarded to all of them, or its budget was
      spent, and then every agent already holds the key. */
  lemma TakerServes(w: World, s: Net, r: Revocation, d: A.Drive, i: nat, e: Env)
    requires Covering(w, s, r, d) && i < |s.flight| && s.flight[i].dest in w.cfg && Generous(w, s, r, d, Deliver(i, e))
    requires s.flight[i].dest !in Holders(s, r.target) && s.flight[i].dest in Holders(Delivered(w, s, i, e), r.target)
    requires (s.flight[i].dest, r.target) !in Delivered(w, s, i, e).stranded
    ensures Delivered(w, s, i, e).nodes.Keys == w.cfg.Keys &&
      NeighboursServed(w, Delivered(w, s, i, e), r, d, s.flight[i].dest)
  {
    var p, t := s.flight[i], Delivered(w, s, i, e);
    var a, k, ttl := p.dest, r.target, Min(p.ttl, M.MAX_REVOKE_TTL);
    DeliveredGrows(w, s, r, d, i, e);
    DeliveryTakes(w, s, r, d, i, e);
    assert p in s.flight;
    if ttl == 0 {
      SubsetFits(Holders(s, k) + {a}, Holders(t, k));
      SubsetFits(Holders(t, k), w.cfg.Keys);
    } else {
      var onward, targets := OutcomeAt(w, s, i, e).onward, Edges(w, t, a);
      assert w.cfg[a].relay ==> onward == Forward(targets, a, p, ttl - 1);
      forall b | b in targets ensures Coming(w, t, b, r) {
        var j :| 0 <= j < |targets| && targets[j] == b;
        assert onward[j] in t.flight && Live(w, onward[j]);
      }
    }
  }

  lemma DeliveredCovers(w: World, s: Net, r: Revocation, d: A.Drive, i: nat, e: Env)
    requires Covering(w, s, r, d) && i < |s.flight| && s.flight[i].dest in w.cfg && Generous(w, s, r, d, Deliver(i, e))
    ensures Covering(w, Delivered(w, s, i, e), r, d)
  {
    var t := Delivered(w, s, i, e);
    DeliveredGrows(w, s, r, d, i, e);
    BudgetAfter(w, s, r, d, i, e);
    assert EntriesServed(w, t, r, d);
    forall a | a in Holders(t, r.target) && (a, r.target) !in t.stranded ensures NeighboursServed(w, t, r, d, a) {
      if a in Holders(s, r.target) {
        GrowsKeepsNeighbours(w, s, t, r, d, a);
      } else {
        TakerServes(w, s, r, d, i, e);
      }
    }
  }

  lemma {:induction false} CoveringAlways(w: World, h: History, r: Revocation, d: A.Drive, n: nat)
    requires IsHistory(w, h) && n < |h.nets| && forall i :: 0 <= i < |h.steps| ==> GenerousAt(w, h, r, d, i)
    ensures Covering(w, h.nets[n], r, d)
  {
    if n > 0 {
      CoveringAlways(w, h, r, d, n - 1);
      assert StepAt(w, h, n - 1) && GenerousAt(w, h, r, d, n - 1);
      var s := h.nets[n - 1];
      match h.steps[n - 1]
      case Inject(p) => InjectCovers(w, s, r, d, p);
      case Deliver(i, e) =>
        if i < |s.flight| {
          if s.flight[i].dest in w.cfg {
            DeliveredCovers(w, s, r, d, i, e);
          } else {
            LostCovers(w, s, r, d, i);
          }
        }
      case Tick(a) => TickCovers(w, s, r, d, a);
    } else {
      assert Holders(h.nets[0], r.target) == {};
    }
  }

  /** A way for the revocation to travel: from where a live push of it was sent, over edges still pinned in `s`,
      through agents that accept it, trust every authoriser of the drive, did not fail to write or report it, and were
      not rate limited. */
  predicate Route(w: World, s: Net, r: Revocation, d: A.Drive, path: seq<Fp>)
    requires s.nodes.Keys == w.cfg.Keys
  {
    && |path| > 0 && (exists p :: p in s.injected && p.rev == r && Live(w, p) && p.dest == path[0])
    && (forall i :: 0 <= i < |path| ==>
          path[i] in w.cfg && Accepting(w, w.cfg[path[i]], r, d) && (path[i], r.target) !in s.turnedAway)
    && (forall i :: 0 < i < |path| ==> Linked(w, s, r, path, i))
  }

  predicate Linked(w: World, s: Net, r: Revocation, path: seq<Fp>, i: nat)
    requires s.nodes.Keys == w.cfg.Keys && 0 < i < |path| && path[i - 1] in w.cfg
  {
    path[i] in Edges(w, s, path[i - 1]) && (path[i - 1], r.target) !in s.stranded
  }

  lemma {:induction false} RouteHolds(w: World, s: Net, r: Revocation, d: A.Drive, path: seq<Fp>, n: nat)
    requires Covering(w, s, r, d) && Route(w, s, r, d, path) && n < |path|
    requires forall p :: p in s.flight ==> p.rev != r || !Live(w, p)
    ensures r.target in s.nodes[path[n]].held
  {
    if n == 0 {
      var p :| p in s.injected && p.rev == r && Live(w, p) && p.dest == path[0];
      assert Served(w, s, p.dest, r);
    } else {
      RouteHolds(w, s, r, d, path, n - 1);
      assert Linked(w, s, r, path, n) && path[n - 1] in Holders(s, r.target);
      assert NeighboursServed(w, s, r, d, path[n - 1]);
    }
  }

  /** Coverage: in whatever order messages were delivered, whatever else anybody sent, and while other revocations
      shrank the pin sets, once no live copy of it is in flight every agent with a route from an entry agent holds the
      revocation. */
  lemma EveryRoutedAgentHoldsIt(w: World, h: History, r: Revocation, d: A.Drive, n: nat, path: seq<Fp>)
    requires IsHistory(w, h) && n < |h.nets| && forall i :: 0 <= i < |h.steps| ==> GenerousAt(w, h, r, d, i)
    requires h.nets[n].nodes.Keys == w.cfg.Keys && Route(w, h.nets[n], r, d, path)
    requires forall p :: p in h.nets[n].flight ==> p.rev != r || !Live(w, p)
    ensures forall k :: 0 <= k < |path| ==> r.target in h.nets[n].nodes[path[k]].held
  {
    CoveringAlways(w, h, r, d, n);
    forall k | 0 <= k < |path| ensures r.target in h.nets[n].nodes[path[k]].held {
      RouteHolds(w, h.nets[n], r, d, path, k);
    }
  }

  // -- The budget is exact: with one hop less some fleet of that size is not covered -----------------------------

  /** A bare minimum of a fleet: agents `0` to `n - 1` that all trust operator `n + 1`, and its revocation of `n`,
      authorised by it. */
  function Fleet(n: nat, peers: nat -> seq<Fp>, pins: nat -> set<Fp>): World
  {
    World(map i: nat | i < n :: AgentConfig("c", {n + 1}, peers(i), pins(i), true, true),
          {FleetRevocation(n)},
          {A.Signed(n + 1, 0, "q", FleetRevocation(n), 0)})
  }

  function FleetRevocation(n: nat): Revocation { Revocation(n, "c", 0, "", n + 1) }

  function FleetPush(n: nat, sender: Fp, dest: Fp, ttl: nat): Push
  {
    Push(dest, sender, "q", A.Given(A.Auth(32, n + 1, 32, FleetRevocation(n), 64, 0, "q", 0)), FleetRevocation(n),
      ttl, true)
  }

  const SMOOTH := Env(0, true, true, true, true)

  function FleetDrive(n: nat): A.Drive { A.Drive({n + 1}, 0, 0) }

  /** `n` agents in a line, each pinning the next. */
  function Line(n: nat): World
  {
    Fleet(n, i => if i + 1 < n then [i + 1] else [], i => if i + 1 < n then {i + 1} else {})
  }

  function LinePath(n: nat): seq<Fp> { seq(n, i requires 0 <= i < n => i) }

  /** One operator push at the head of the line, then smooth deliveries only. */
  predicate LineRun(n: nat, ttl: nat, h: History)
  {
    && IsHistory(Line(n), h) && |h.steps| > 0 && h.steps[0] == Inject(FleetPush(n, n + 1, 0, ttl))
    && forall i :: 0 < i < |h.steps| ==> h.steps[i].Deliver? && h.steps[i].e == SMOOTH
  }

  predicate LineInv(n: nat, ttl: nat, s: Net)
  {
    && s.nodes.Keys == Line(n).cfg.Keys && s.stranded == {} && s.turnedAway == {}
    && s.injected == {FleetPush(n, n + 1, 0, ttl)}
    && (forall i :: i in s.nodes ==> s.nodes[i].pins == Line(n).cfg[i].pins)
    && (forall i :: i in s.nodes && n in s.nodes[i].held ==> i <= Min(ttl, M.MAX_REVOKE_TTL))
    && (forall p :: p in s.flight ==>
          p.rev == FleetRevocation(n) && p.dest + Min(p.ttl, M.MAX_REVOKE_TTL) <= Min(ttl, M.MAX_REVOKE_TTL))
  }

  lemma LineNext(n: nat, ttl: nat, s: Net, i: nat)
    requires LineInv(n, ttl, s)
    ensures LineInv(n, ttl, Next(Line(n), s, Deliver(i, SMOOTH)))
  {
    var w := Line(n);
    if i < |s.flight| && s.flight[i].dest in w.cfg {
      var p := s.flight[i];
      assert p in s.flight;
      HandleKeeps(w, p.dest, w.cfg[p.dest], s.nodes[p.dest], p, SMOOTH);
      assert s.nodes[p.dest].pins - {n} == s.nodes[p.dest].pins;
    }
  }

  lemma {:induction false} LineStays(n: nat, ttl: nat, h: History, k: nat)
    requires n > 0 && LineRun(n, ttl, h) && 0 < k < |h.nets|
    ensures LineInv(n, ttl, h.nets[k])
  {
    assert StepAt(Line(n), h, k - 1);
    if k > 1 {
      LineStays(n, ttl, h, k - 1);
      LineNext(n, ttl, h.nets[k - 1], h.steps[k - 1].i);
    }
  }

  /** With a clamped budget below (agents - 1) coverage fails for a fleet of that size in every run: the last agent of
      the line has a route over live pins all along, and never gets the revocation. So no budget helps a line of ten
      agents, because the clamp is at 8. */
  lemma TooFewHopsMissTheEnd(n: nat, ttl: nat, h: History, k: nat)
    requires Min(ttl, M.MAX_REVOKE_TTL) < n - 1 && LineRun(n, ttl, h) && 0 < k < |h.nets|
    ensures var w, s, path := Line(n), h.nets[k], LinePath(n);
      && s.nodes.Keys == w.cfg.Keys
      && Route(w, s, FleetRevocation(n), FleetDrive(n), path)
      && n !in s.nodes[path[n - 1]].held
  {
    LineStays(n, ttl, h, k);
    LineRoute(n, ttl, h.nets[k]);
  }

  lemma LineRoute(n: nat, ttl: nat, s: Net)
    requires n > 0 && LineInv(n, ttl, s)
    ensures s.nodes.Keys == Line(n).cfg.Keys && Route(Line(n), s, FleetRevocation(n), FleetDrive(n), LinePath(n))
  {
    var w, r, path := Line(n), FleetRevocation(n), LinePath(n);
    forall i | 0 < i < |path| ensures Linked(w, s, r, path, i) {
      M.TargetsAre(w.cfg[i - 1].peers, s.nodes[i - 1].pins, i - 1);
    }
    assert Live(w, FleetPush(n, n + 1, 0, ttl)) && FleetPush(n, n + 1, 0, ttl) in s.injected;
  }

  /** Four agents where 2 can be reached directly or through 1, and 3 only through 2. */
  function Diamond(): World
  {
    Fleet(4, i => if i == 0 then [1, 2] else if i == 1 then [2] else if i == 2 then [3] else [], _ => {1, 2, 3})
  }

  function DiamondNode(a: Fp, have: set<Fp>): Node
  {
    Node(if a in have then map[4 := EntryOf(FleetRevocation(4))] else map[], {1, 2, 3})
  }

  /** The network with `flight` in the air once the agents in `have` took the revocation. */
  function DiamondNet(have: set<Fp>, flight: seq<Push>, sent: seq<Hop>): Net
  {
    Net(DiamondNodes(have), flight, {FleetPush(4, 5, 0, 2)}, sent, {}, {})
  }

  lemma DiamondHandle(have: set<Fp>, sender: Fp, a: Fp, ttl: nat, targets: seq<Fp>)
    requires a in Diamond().cfg && ttl <= M.MAX_REVOKE_TTL && M.Targets(Diamond().cfg[a].peers, {1, 2, 3}, a) == targets
    ensures var p := FleetPush(4, sender, a, ttl); var o :=
      Handle(Diamond(), a, Diamond().cfg[a], DiamondNode(a, have), p, SMOOTH);
      && o.node == DiamondNode(a, have + {a})
      && o.onward == if a in have || ttl == 0 then [] else Forward(targets, a, p, ttl - 1)
  {
    assert {1, 2, 3} - {4} == {1, 2, 3};
    var w, p := Diamond(), FleetPush(4, sender, a, ttl);
    A.AdmitsExactlyWhen(w.cfg[a].operators, w.authorised, p.request, p.carried, p.rev, p.sender, 0);
    assert Verifies(w.cfg[a], w.signed, p.rev);
  }

  /** Agent `a` takes the message at `i`; `targets` is what `Targets` yields for it. */
  lemma DiamondDelivery(have: set<Fp>, flight: seq<Push>, sent: seq<Hop>, i: nat, sender: Fp, a: Fp, ttl: nat,
      targets: seq<Fp>)
    requires i < |flight| && flight[i] == FleetPush(4, sender, a, ttl) && ttl <= M.MAX_REVOKE_TTL
    requires a in Diamond().cfg && M.Targets(Diamond().cfg[a].peers, {1, 2, 3}, a) == targets
    ensures var onward := if a in have || ttl == 0 then [] else Forward(targets, a, flight[i], ttl - 1);
      && DiamondNet(have, flight, sent).nodes.Keys == Diamond().cfg.Keys
      && Next(Diamond(), DiamondNet(have, flight, sent), Deliver(i, SMOOTH))
         == DiamondNet(have + {a}, Remove(flight, i) + onward, sent + Hops(a, onward))
  {
    DiamondHandle(have, sender, a, ttl, targets);
    DiamondTaken(have, a);
    var s, e := DiamondNet(have, flight, sent), SMOOTH;
    assert s.nodes.Keys == Diamond().cfg.Keys && s.nodes[a] == DiamondNode(a, have);
    assert Next(Diamond(), s, Deliver(i, e)) == Delivered(Diamond(), s, i, e);
    assert !RateLimited(Diamond().cfg[a], flight[i], e);
  }

  function DiamondNodes(have: set<Fp>): map<Fp, Node>
  {
    map a | a in Diamond().cfg :: DiamondNode(a, have)
  }

  lemma DiamondTaken(have: set<Fp>, a: Fp)
    requires a in Diamond().cfg
    ensures DiamondNodes(have)[a := DiamondNode(a, have + {a})] == DiamondNodes(have + {a})
  {
  }

  lemma DiamondTargets()
    ensures M.Targets([1, 2], {1, 2, 3}, 0) == [1, 2] && M.Targets([2], {1, 2, 3}, 1) == [2]
    ensures M.Targets([3], {1, 2, 3}, 2) == [3]
  {
    assert M.Targets([2], {1, 2, 3}, 0) == [2];
  }

  function DiamondFlights(): seq<seq<Push>>
  {
    [[FleetPush(4, 5, 0, 2)],
     [FleetPush(4, 0, 1, 1), FleetPush(4, 0, 2, 1)],
     [FleetPush(4, 0, 2, 1), FleetPush(4, 1, 2, 0)],
     [FleetPush(4, 0, 2, 1)],
     []]
  }

  function DiamondSteps(): seq<Step>
  {
    [Inject(FleetPush(4, 5, 0, 2)), Deliver(0, SMOOTH), Deliver(0, SMOOTH), Deliver(1, SMOOTH), Deliver(0, SMOOTH)]
  }

  predicate Leads(w: World, s: Net, step: Step, t: Net)
  {
    s.nodes.Keys == w.cfg.Keys && t == Next(w, s, step)
  }

  lemma DiamondStart()
    ensures Leads(Diamond(), Initial(Diamond()), DiamondSteps()[0], DiamondNet({}, DiamondFlights()[0], []))
  {
  }

  lemma DiamondFirst() returns (after: seq<Hop>)
    ensures Leads(Diamond(), DiamondNet({}, DiamondFlights()[0], []), DiamondSteps()[1],
      DiamondNet({0}, DiamondFlights()[1], after))
  {
    DiamondTargets();
    var f := [FleetPush(4, 5, 0, 2)];
    DiamondDelivery({}, f, [], 0, 5, 0, 2, [1, 2]);
    FirstCopies();
    assert {} + {0} == {0};
    after := [] + Hops(0, Forward([1, 2], 0, f[0], 1));
  }

  lemma FirstCopies()
    ensures Remove([FleetPush(4, 5, 0, 2)], 0) + Forward([1, 2], 0, FleetPush(4, 5, 0, 2), 1) == DiamondFlights()[1]
  {
    assert Forward([1, 2], 0, FleetPush(4, 5, 0, 2), 1) == [FleetPush(4, 0, 1, 1), FleetPush(4, 0, 2, 1)];
  }

  lemma DiamondSecond(sent: seq<Hop>) returns (after: seq<Hop>)
    ensures Leads(Diamond(), DiamondNet({0}, DiamondFlights()[1], sent), DiamondSteps()[2],
      DiamondNet({0, 1}, DiamondFlights()[2], after))
  {
    DiamondTargets();
    var f := DiamondFlights()[1];
    DiamondDelivery({0}, f, sent, 0, 0, 1, 1, [2]);
    assert {0} + {1} == {0, 1} && Remove(f, 0) + Forward([2], 1, f[0], 0) == DiamondFlights()[2];
    after := sent + Hops(1, Forward([2], 1, f[0], 0));
  }

  lemma DiamondThird(sent: seq<Hop>)
    ensures Leads(Diamond(), DiamondNet({0, 1}, DiamondFlights()[2], sent), DiamondSteps()[3],
      DiamondNet({0, 1, 2}, DiamondFlights()[3], sent))
  {
    DiamondTargets();
    var f := DiamondFlights()[2];
    DiamondDelivery({0, 1}, f, sent, 1, 1, 2, 0, [3]);
    assert {0, 1} + {2} == {0, 1, 2} && Remove(f, 1) + [] == DiamondFlights()[3] && sent + Hops(2, []) == sent;
  }

  lemma DiamondLast(sent: seq<Hop>)
    ensures Leads(Diamond(), DiamondNet({0, 1, 2}, DiamondFlights()[3], sent), DiamondSteps()[4],
      DiamondNet({0, 1, 2}, [], sent))
  {
    DiamondTargets();
    var f := DiamondFlights()[3];
    DiamondDelivery({0, 1, 2}, f, sent, 0, 0, 2, 1, [3]);
    assert {0, 1, 2} + {2} == {0, 1, 2} && Remove(f, 0) + [] == [] && sent + Hops(2, []) == sent;
  }

  /** The flood is over, agent 3 has a route, and does not hold the key. */
  predicate Missed(s: Net)
  {
    && s.nodes.Keys == Diamond().cfg.Keys && s.flight == []
    && Route(Diamond(), s, FleetRevocation(4), FleetDrive(4), [0, 2, 3])
    && 3 in s.nodes && 4 !in s.nodes[3].held
  }

  lemma DiamondMisses(sent: seq<Hop>)
    ensures Missed(DiamondNet({0, 1, 2}, [], sent))
  {
    DiamondTargets();
    var w, s, r := Diamond(), DiamondNet({0, 1, 2}, [], sent), FleetRevocation(4);
    assert Linked(w, s, r, [0, 2, 3], 1) && Linked(w, s, r, [0, 2, 3], 2);
    assert Live(w, FleetPush(4, 5, 0, 2)) && FleetPush(4, 5, 0, 2) in s.injected;
  }

  lemma FiveSteps(w: World, a: Net, b: Net, c: Net, d: Net, e: Net, f: Net, steps: seq<Step>)
    requires |steps| == 5 && a == Initial(w) && Leads(w, a, steps[0], b) && Leads(w, b, steps[1], c) &&
      Leads(w, c, steps[2], d)
    requires Leads(w, d, steps[3], e) && Leads(w, e, steps[4], f)
    ensures IsHistory(w, History([a, b, c, d, e, f], steps))
  {
    var h := History([a, b, c, d, e, f], steps);
    forall i | 0 <= i < 5 ensures StepAt(w, h, i) {
      assert Leads(w, h.nets[i], h.steps[i], h.nets[i + 1]);
    }
  }

  /** "Everyone within `ttl` hops" is false. Agent 3 is two pinned hops from the entry, the budget is 2, everything
      goes smoothly, and a delivery order exists in which the flood ends without it: agent 2 takes the copy that came
      the long way round, with its budget spent, and the better copy then finds nothing new. */
  lemma DeliveryOrderDefeatsTheHopCount() returns (h: History)
    ensures IsHistory(Diamond(), h) && h.steps == DiamondSteps() && |h.nets| == 6 && Missed(h.nets[5])
  {
    DiamondStart();
    var one := DiamondFirst();
    var two := DiamondSecond(one);
    DiamondThird(two);
    DiamondLast(two);
    DiamondMisses(two);
    var w, f := Diamond(), DiamondFlights();
    FiveSteps(w, Initial(w), DiamondNet({}, f[0], []), DiamondNet({0}, f[1], one), DiamondNet({0, 1}, f[2], two),
              DiamondNet({0, 1, 2}, f[3], two), DiamondNet({0, 1, 2}, [], two), DiamondSteps());
    h := History([Initial(w), DiamondNet({}, f[0], []), DiamondNet({0}, f[1], one), DiamondNet({0, 1}, f[2], two),
                  DiamondNet({0, 1, 2}, f[3], two), DiamondNet({0, 1, 2}, [], two)], DiamondSteps());
  }

  // -- The authoriser matters --------------------------------------------------------------------------------

  /** Agent 0 trusts operators 8 and 9 and pins agent 1, which trusts only 8. Operator 8 signed the revocation of 7,
      operator 9 authorised the push. */
  function Mixed(): World
  {
    World(map[0 := AgentConfig("c", {8, 9}, [1], {1}, true, true), 1 := AgentConfig("c", {8}, [], {}, true, true)],
          {MixedRevocation()}, {A.Signed(9, 0, "q", MixedRevocation(), 0)})
  }

  function MixedRevocation(): Revocation { Revocation(7, "c", 0, "", 8) }

  function MixedPush(ttl: nat): Push
  {
    Push(0, 9, "q", A.Given(A.Auth(32, 9, 32, MixedRevocation(), 64, 0, "q", 0)), MixedRevocation(), ttl, true)
  }

  /** Both agents verify the revocation and the edge between them is pinned, yet no budget, no delivery order and no
      luck with the environment brings it to agent 1. */
  lemma MixedTrustStopsTheFlood(h: History, n: nat)
    requires IsHistory(Mixed(), h) && n < |h.nets| && forall q :: q in h.nets[n].injected ==>
      exists ttl :: q == MixedPush(ttl)
    ensures Verifies(Mixed().cfg[0], Mixed().signed, MixedRevocation()) &&
      Verifies(Mixed().cfg[1], Mixed().signed, MixedRevocation())
    ensures 1 in M.Targets(Mixed().cfg[0].peers, Mixed().cfg[0].pins, 0)
    ensures 1 in h.nets[n].nodes && 7 !in h.nets[n].nodes[1].held
  {
    UntrustedAuthoriserNeverArrives(Mixed(), h, n, 1, 7);
  }

  // -- The report matters ------------------------------------------------------------------------------------

  const UNREPORTED := Env(0, true, true, true, false)

  lemma CutHandle()
    ensures var w := Line(2); var p := FleetPush(2, 3, 0, 8);
      Handle(w, 0, w.cfg[0], Node(map[], {1}), p, UNREPORTED) ==
        Outcome(Node(map[2 := EntryOf(p.rev)], {1}), Report(true, false, false), [])
  {
    var w, p := Line(2), FleetPush(2, 3, 0, 8);
    A.AdmitsExactlyWhen(w.cfg[0].operators, w.authorised, p.request, p.carried, p.rev, p.sender, 0);
    assert Verifies(w.cfg[0], w.signed, p.rev);
    assert {1} - {2} == {1};
  }

  /** Two agents in a line, a push with all the budget there is, and the connection it came over is gone when the
      first agent reports: it holds the revocation, the flood is over, and its pinned neighbour is left out. */
  lemma UnreportedTakerEndsTheFlood() returns (h: History)
    ensures IsHistory(Line(2), h) && h.steps == [Inject(FleetPush(2, 3, 0, 8)), Deliver(0, UNREPORTED)] && |h.nets| == 3
    ensures var s := h.nets[2];
      && s.flight == [] && s.nodes.Keys == {0, 1} && 2 in s.nodes[0].held && 2 !in s.nodes[1].held
      && (0, 2) in s.stranded && s.sent == []
  {
    var w, p := Line(2), FleetPush(2, 3, 0, 8);
    var a := Initial(w);
    var b := Next(w, a, Inject(p));
    assert a.nodes.Keys == w.cfg.Keys && a.nodes[0] == Node(map[], {1});
    CutHandle();
    var c := Next(w, b, Deliver(0, UNREPORTED));
    assert b.flight == [p] && Remove([p], 0) + [] == [];
    h := History([a, b, c], [Inject(p), Deliver(0, UNREPORTED)]);
    assert StepAt(w, h, 0) && StepAt(w, h, 1);
  }

  // -- A failed write keeps the pin ----------------------------------------------------------------------------

  const UNWRITTEN := Env(0, true, false, true, true)

  /** A revocation that cannot be written is held, and the revoked agent stays pinned. */
  lemma FailedWriteKeepsThePin() returns (h: History)
    ensures var w := Fleet(1, _ => [1], _ => {1});
      && IsHistory(w, h) && |h.nets| == 3 && h.nets[2].nodes.Keys == {0}
      && 1 in h.nets[2].nodes[0].held && 1 in h.nets[2].nodes[0].pins
  {
    var w, p := Fleet(1, _ => [1], _ => {1}), FleetPush(1, 2, 0, 8);
    var a := Initial(w);
    assert a.nodes.Keys == w.cfg.Keys == {0} && a.nodes[0] == Node(map[], {1});
    var b := a.(flight := [p], injected := {p});
    HandleMeans(w, 0, w.cfg[0], b.nodes[0], p, UNWRITTEN);
    assert Passes(w, w.cfg[0], p, UNWRITTEN);
    var c := Delivered(w, b, 0, UNWRITTEN);
    assert [] + [p] == [p] && {} + {p} == {p};
    assert Leads(w, a, Inject(p), b) && Leads(w, b, Deliver(0, UNWRITTEN), c);
    h := TwoSteps(w, a, b, c, Inject(p), Deliver(0, UNWRITTEN));
  }

  // -- Listed twice, relayed twice -----------------------------------------------------------------------------

  /** Agent 0 is told about its peers by `listed` and pins agent 1. */
  function Told(listed: seq<Fp>): World
  {
    Fleet(2, i => if i == 0 then listed else [], i => if i == 0 then {1} else {})
  }

  lemma ToldHandle(listed: seq<Fp>)
    ensures var w := Told(listed); var p := FleetPush(2, 3, 0, 8);
      Handle(w, 0, w.cfg[0], Node(map[], {1}), p, SMOOTH).onward == Forward(M.Targets(listed, {1}, 0), 0, p, 7)
  {
    var w, p := Told(listed), FleetPush(2, 3, 0, 8);
    A.AdmitsExactlyWhen(w.cfg[0].operators, w.authorised, p.request, p.carried, p.rev, p.sender, 0);
    assert Verifies(w.cfg[0], w.signed, p.rev);
    assert {1} - {2} == {1};
  }

  lemma ToldSends(listed: seq<Fp>, s: Net)
    requires s.nodes.Keys == {0, 1} && s.nodes[0] == Node(map[], {1}) && s.flight == [FleetPush(2, 3, 0, 8)] &&
      s.sent == []
    ensures Told(listed).cfg.Keys == {0, 1}
    ensures multiset(Delivered(Told(listed), s, 0, SMOOTH).sent)[Hop(0, 1, 2)] == multiset(listed)[1]
  {
    var p, targets := FleetPush(2, 3, 0, 8), M.Targets(listed, {1}, 0);
    var onward := Forward(targets, 0, p, 7);
    assert Told(listed).cfg.Keys == {0, 1};
    ToldHandle(listed);
    M.TargetsCount(listed, {1}, 0, 1);
    HopsCount(0, onward, targets, 2, Hop(0, 1, 2));
    assert [] + Hops(0, onward) == Hops(0, onward);
  }

  /** The bound needs the listing to be free of duplicates: whenever agent 1 is listed twice there is a run in which
      the revocation is relayed to it twice, over one pin edge. */
  lemma DuplicateListingRelaysTwice(listed: seq<Fp>) returns (h: History)
    requires multiset(listed)[1] >= 2
    ensures IsHistory(Told(listed), h) && |h.nets| == 3 && multiset(h.nets[2].sent)[Hop(0, 1, 2)] >= 2
  {
    var w, p := Told(listed), FleetPush(2, 3, 0, 8);
    var a := Initial(w);
    assert a.nodes.Keys == w.cfg.Keys == {0, 1} && a.nodes[0] == Node(map[], {1});
    var b := a.(flight := [p], injected := {p});
    ToldSends(listed, b);
    var c := Delivered(w, b, 0, SMOOTH);
    assert [] + [p] == [p] && {} + {p} == {p};
    assert Leads(w, a, Inject(p), b) && Leads(w, b, Deliver(0, SMOOTH), c);
    h := TwoSteps(w, a, b, c, Inject(p), Deliver(0, SMOOTH));
  }

  lemma TwoSteps(w: World, a: Net, b: Net, c: Net, x: Step, y: Step) returns (h: History)
    requires a == Initial(w) && Leads(w, a, x, b) && Leads(w, b, y, c)
    ensures IsHistory(w, h) && h == History([a, b, c], [x, y])
  {
    h := History([a, b, c], [x, y]);
    assert StepAt(w, h, 0) && StepAt(w, h, 1);
  }
}
