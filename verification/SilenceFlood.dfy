/**
 Silence pushes spreading through the mesh (`handle_silence_push` and its relay in `operator.rs`). An agent forwards a
 silence when accepting it changed its store, so a re-issue of a known id, which is how a silence is revoked, spreads
 like a new one. Anybody may send anything; `World.authorised` is which commands operators authorised relays to carry.
 */
module SilenceFlood {
  import opened Basics
  import A = Authorisation
  import M = MeshPush
  import S = SilenceStore

  type Fp = nat

  /** An agent as configured: whose commands it takes, what its store verifies against, whom it gossips with, whom it
      pins. */
  datatype Agent = Agent(operators: set<Fp>, store: S.Config, peers: seq<Fp>, pins: set<Fp>, relay: bool, accepts: bool)

  datatype World = World(agents: map<Fp, Agent>, authorised: set<A.Signed<S.Record>>)

  datatype Push = Push(
    dest: Fp, sender: Fp, request: string, carried: A.Carried<S.Record>, rec: S.Record, ttl: nat, fanout: bool)

  /** What the world answers while a push is handled: the clock, the fan-out rate limiter, and whether the report
      could be sent. */
  datatype Env = Env(now: nat, budget: bool, reported: bool)

  datatype Report = Report(accepted: bool, alreadyKnown: bool)

  datatype Outcome = Outcome(state: S.State, report: Report, onward: seq<Push>)

  function Edges(g: Agent, self: Fp): seq<Fp>
  {
    if g.relay then M.Targets(g.peers, g.pins, self) else []
  }

  function Forward(targets: seq<Fp>, self: Fp, p: Push, ttl: nat): seq<Push>
  {
    seq(|targets|, i requires 0 <= i < |targets| => p.(dest := targets[i], sender := self, ttl := ttl, fanout := true))
  }

  /** The push passes the dispatcher's gates at this agent. */
  predicate Admitted(w: World, g: Agent, p: Push, now: nat)
  {
    A.Admits(g.operators, w.authorised, p.request, p.carried, p.rec, p.sender, now) && g.accepts
  }

  predicate RateLimited(g: Agent, p: Push, e: Env)
  {
    p.fanout && p.sender in g.operators && !e.budget
  }

  /** Accept, report, and pass on what changed something; a failed report ends the handling with the silence held. */
  function Handle(w: World, g: Agent, self: Fp, s: S.State, p: Push, e: Env): Outcome
  {
    var ttl := Min(p.ttl, M.MAX_REVOKE_TTL);
    if !Admitted(w, g, p, e.now) || RateLimited(g, p, e) then Outcome(s, Report(false, false), [])
    else
      var answer := S.AnswerTo(g.store, s, p.rec, e.now);
      Outcome(S.AfterAccept(g.store, s, p.rec, e.now),
              Report(answer.Accepted?, answer == S.Accepted(false)),
              if answer == S.Accepted(true) && e.reported && p.fanout &&
                ttl > 0 then Forward(Edges(g, self), self, p, ttl - 1) else [])
  }

  /** The handler on an agent's store. */
  method HandleSilencePush(w: World, g: Agent, self: Fp, store: S.Store, p: Push, e: Env,
      disk: S.Disk) returns (report: Report, onward: seq<Push>)
    requires store.Valid() && store.config == g.store
    modifies store
    ensures store.Valid() && Outcome(store.Value(), report, onward) == Handle(w, g, self, old(store.Value()), p, e)
    ensures Taken(w, g, old(store.Value()), p, e, Outcome(store.Value(), report, onward))
    ensures PassedOn(g, self, old(store.Value()), p, e, Outcome(store.Value(), report, onward))
  {
    HandleMeans(w, g, self, store.Value(), p, e);
    report, onward := Report(false, false), [];
    if !Admitted(w, g, p, e.now) || RateLimited(g, p, e) {
      return;
    }
    var answer := store.Accept(p.rec, e.now, disk);
    report, onward := Pass(g, self, p, answer, e.reported);
  }

  /** The gates written out: silences are on, the push came bare from a configured operator or under a timely genuine
      authorisation of one, and the fan-out budget of an operator that sent it held out. */
  predicate Passes(w: World, g: Agent, p: Push, e: Env)
  {
    && g.accepts
    && (|| (p.carried == A.Absent && p.sender in g.operators)
        || (&& A.Genuine(w.authorised, p.request, p.carried, p.rec)
            && p.carried.auth.operator in g.operators && A.Timely(p.carried.auth.ts, e.now)))
    && (p.fanout && p.sender in g.operators ==> e.budget)
  }

  /** What a push should come to: it is accepted exactly when it passes, its record is sound and not expired, and there
      is room; known already exactly when that changes nothing; and what is held under its id is then the record, unless
      that was issued before what was held. */
  ghost predicate Taken(w: World, g: Agent, s: S.State, p: Push, e: Env, o: Outcome)
  {
    var id := p.rec.id;
    && (o.report.accepted <==>
          Passes(w, g, p, e) && S.Sound(g.store, p.rec) && e.now < p.rec.expires
          && (id in s.held || |s.held| < g.store.cap))
    && (o.report.alreadyKnown <==> o.report.accepted && o.state == s)
    && (!o.report.accepted ==> o.state == s)
    && (o.report.accepted ==>
          o.state.held == if id in s.held && s.held[id].issued > p.rec.issued then s.held
                          else s.held[id := S.Convert(p.rec)])
  }

  /** Copies with one hop less go to every pinned peer the mesh lists exactly when the push changed something, was
      reported, and asks for it. */
  ghost predicate PassedOn(g: Agent, self: Fp, s: S.State, p: Push, e: Env, o: Outcome)
  {
    var targets, ttl := M.Targets(g.peers, g.pins, self), Min(p.ttl, M.MAX_REVOKE_TTL);
    && |o.onward| == (if o.state != s && e.reported && p.fanout && ttl > 0 && g.relay then |targets| else 0)
    && forall i :: 0 <= i < |o.onward| ==>
         && i < |targets| && ttl > 0
         && o.onward[i] == p.(dest := targets[i], sender := self, ttl := ttl - 1, fanout := true)
  }

  lemma HandleMeans(w: World, g: Agent, self: Fp, s: S.State, p: Push, e: Env)
    requires S.Agree(s)
    ensures Taken(w, g, s, p, e, Handle(w, g, self, s, p, e))
    ensures PassedOn(g, self, s, p, e, Handle(w, g, self, s, p, e))
  {
    HandleTakes(w, g, self, s, p, e);
    HandlePassesOn(w, g, self, s, p, e);
  }

  lemma HandleTakes(w: World, g: Agent, self: Fp, s: S.State, p: Push, e: Env)
    requires S.Agree(s)
    ensures Taken(w, g, s, p, e, Handle(w, g, self, s, p, e))
  {
    A.AdmitsExactlyWhen(g.operators, w.authorised, p.request, p.carried, p.rec, p.sender, e.now);
    assert Passes(w, g, p, e) <==> Admitted(w, g, p, e.now) && !RateLimited(g, p, e);
    S.AcceptMeans(g.store, s, p.rec, e.now);
  }

  lemma HandlePassesOn(w: World, g: Agent, self: Fp, s: S.State, p: Push, e: Env)
    requires S.Agree(s)
    ensures PassedOn(g, self, s, p, e, Handle(w, g, self, s, p, e))
  {
    S.AcceptMeans(g.store, s, p.rec, e.now);
  }

  /** What follows on the store's answer: the report, and the copies when it got through. */
  method Pass(g: Agent, self: Fp, p: Push, answer: S.Answer, reported: bool) returns (report: Report, onward: seq<Push>)
    ensures report == Report(answer.Accepted?, answer == S.Accepted(false))
    ensures onward == if answer == S.Accepted(true) && reported && p.fanout && Min(p.ttl, M.MAX_REVOKE_TTL) > 0
                      then Forward(Edges(g, self), self, p, Min(p.ttl, M.MAX_REVOKE_TTL) - 1) else []
  {
    report, onward := Report(false, false), [];
    var ttl, isNew := Min(p.ttl, M.MAX_REVOKE_TTL), false;
    if answer.Accepted? {
      report := Report(true, !answer.changed);
      isNew := answer.changed;
    }
    if !reported {
      return;
    }
    if p.fanout && ttl > 0 && isNew && g.relay {
      onward := Forward(M.Targets(g.peers, g.pins, self), self, p, ttl - 1);
    }
  }

  // -- One store and the newest judgement under an id -----------------------------------------------------

  predicate Holds(s: S.State, r: S.Record)
  {
    r.id in s.held && s.held[r.id] == S.Convert(r)
  }

  /** `r` is newer than anything else held under its id. */
  predicate Newest(s: S.State, r: S.Record)
  {
    r.id in s.held ==> s.held[r.id].issued < r.issued || Holds(s, r)
  }

  predicate Older(q: S.Record, r: S.Record)
  {
    q.id == r.id ==> q == r || q.issued < r.issued
  }

  /** There is no room for the record. */
  predicate NoRoom(g: Agent, s: S.State, r: S.Record)
  {
    |s.held| >= g.store.cap && r.id !in s.held
  }

  /** Once the newest judgement is held no delivery displaces it; a store takes it up exactly when it is delivered,
      verifies and fits, and that is a change; delivering it again is not. */
  lemma NewestIsKept(g: Agent, s: S.State, q: S.Record, r: S.Record, now: nat)
    requires Newest(s, r) && (S.Sound(g.store, q) ==> Older(q, r))
    ensures var t := S.AfterAccept(g.store, s, q, now);
      && Newest(t, r) && (Holds(s, r) ==> Holds(t, r))
      && (Holds(t, r) && !Holds(s, r) ==> q == r && S.AnswerTo(g.store, s, q, now) == S.Accepted(true))
      && (q == r && now < r.expires && S.Sound(g.store, r) && !NoRoom(g, s, r) ==> Holds(t, r))
      && (q == r && Holds(s, r) ==> S.AnswerTo(g.store, s, q, now) != S.Accepted(true))
      && (q == r && S.AnswerTo(g.store, s, q, now) == S.Accepted(true) ==> Holds(t, r))
  {
    S.VerifiedMeansSound(g.store, q, now);
  }

  lemma SweepKeepsNewest(s: S.State, r: S.Record, now: nat)
    requires Newest(s, r) && now < r.expires
    ensures Newest(S.AfterSweep(s, now), r) && (Holds(S.AfterSweep(s, now), r) <==> Holds(s, r))
  {
    assert S.AfterSweep(s, now).held == S.Live(s.held, now);
  }

  // -- The network ---------------------------------------------------------------------------------------

  /** `injected` logs what was sent into the mesh from outside, `turnedAway` who had no room or no fan-out budget for
      what, `relays` who passed what on, and `stranded` who took what but could not report it, and so never passed it
      on. */
  datatype Net = Net(
    stores: map<Fp, S.State>, flight: seq<Push>, injected: set<Push>, turnedAway: set<(Fp, S.Record)>,
    relays: seq<(Fp, S.Record)>, stranded: set<(Fp, S.Record)>)

  /** Anybody sends anything, the network delivers any message in flight, agents sweep. */
  datatype Step = Inject(p: Push) | Deliver(i: nat, e: Env) | Sweep(agent: Fp, now: nat)

  function Initial(w: World): Net
  {
    Net(map a | a in w.agents :: S.NOTHING, [], {}, {}, [], {})
  }

  function Next(w: World, s: Net, step: Step): Net
    requires s.stores.Keys == w.agents.Keys
  {
    match step
    case Inject(p) => s.(flight := s.flight + [p], injected := s.injected + {p})
    case Deliver(i, e) =>
      if i >= |s.flight| then s
      else if s.flight[i].dest !in w.agents then s.(flight := Remove(s.flight, i))
      else Delivered(w, s, i, e)
    case Sweep(a, now) =>
      if a in w.agents then s.(stores := s.stores[a := S.AfterSweep(s.stores[a], now)]) else s
  }

  function OutcomeAt(w: World, s: Net, i: nat, e: Env): Outcome
    requires s.stores.Keys == w.agents.Keys && i < |s.flight| && s.flight[i].dest in w.agents
  {
    var p := s.flight[i];
    Handle(w, w.agents[p.dest], p.dest, s.stores[p.dest], p, e)
  }

  function Delivered(w: World, s: Net, i: nat, e: Env): Net
    requires s.stores.Keys == w.agents.Keys && i < |s.flight| && s.flight[i].dest in w.agents
  {
    var p := s.flight[i];
    var g, o, at := w.agents[p.dest], OutcomeAt(w, s, i, e), (p.dest, p.rec);
    Net(s.stores[p.dest := o.state],
        Remove(s.flight, i) + o.onward,
        s.injected,
        if RateLimited(g, p, e) || NoRoom(g, s.stores[p.dest], p.rec) then s.turnedAway + {at} else s.turnedAway,
        if o.onward != [] then s.relays + [at] else s.relays,
        if o.state != s.stores[p.dest] && !e.reported then s.stranded + {at} else s.stranded)
  }

  datatype History = History(nets: seq<Net>, steps: seq<Step>)

  predicate StepAt(w: World, h: History, i: nat)
    requires |h.nets| == |h.steps| + 1 && i < |h.steps|
  {
    h.nets[i].stores.Keys == w.agents.Keys && h.nets[i + 1] == Next(w, h.nets[i], h.steps[i])
  }

  predicate IsHistory(w: World, h: History)
  {
    && |h.nets| == |h.steps| + 1 && h.nets[0] == Initial(w)
    && forall i :: 0 <= i < |h.steps| ==> StepAt(w, h, i)
  }

  // -- Coverage ------------------------------------------------------------------------------------------

  /** Some agent could take this push at some time; everything else may be sent freely. */
  predicate Live(w: World, p: Push)
  {
    && (exists a :: a in w.agents && S.Sound(w.agents[a].store, p.rec))
    && (|| A.Genuine(w.authorised, p.request, p.carried, p.rec)
        || (p.carried == A.Absent && exists a :: a in w.agents && p.sender in w.agents[a].operators))
  }

  predicate Driven(w: World, d: A.Drive, p: Push)
  {
    p.fanout && A.Drives(d, w.authorised, p.request, p.carried, p.rec)
  }

  /** What is asked about `r`: of everything that any agent could take it is the newest judgement under its id; each
      such push of it asks for fan-out under an authorisation of the drive and has a hop budget of at least (agents -
      1) after the clamp; its copies are delivered before it expires and within the window of all those
      authorisations; and nobody's sweep reaches its expiry. Older judgements of the id may be sent anyhow. */
  predicate Fair(w: World, s: Net, r: S.Record, d: A.Drive, step: Step)
  {
    match step
    case Inject(p) =>
      Live(w, p) ==>
        Older(p.rec, r) && (p.rec == r ==> Driven(w, d, p) && Min(p.ttl, M.MAX_REVOKE_TTL) >= |w.agents| - 1)
    case Deliver(i, e) =>
      i < |s.flight| && s.flight[i].rec == r && Live(w, s.flight[i]) ==>
        e.now < r.expires && A.InWindow(d, e.now)
    case Sweep(_, now) => now < r.expires
  }

  predicate FairAt(w: World, h: History, r: S.Record, d: A.Drive, i: nat)
    requires |h.nets| == |h.steps| + 1 && i < |h.steps|
  {
    Fair(w, h.nets[i], r, d, h.steps[i])
  }

  /** The agent takes silences, this one verifies there, and it trusts every operator of the drive. */
  predicate Accepting(g: Agent, r: S.Record, d: A.Drive)
  {
    g.accepts && S.Sound(g.store, r) && d.operators <= g.operators
  }

  function Holders(s: Net, r: S.Record): set<Fp>
  {
    set a | a in s.stores && Holds(s.stores[a], r)
  }

  predicate Coming(w: World, s: Net, b: Fp, r: S.Record)
  {
    exists p :: p in s.flight && p.dest == b && p.rec == r && Live(w, p)
  }

  /** The agent holds `r`, will get it, or was turned away. */
  predicate Served(w: World, s: Net, b: Fp, r: S.Record)
    requires b in s.stores
  {
    Holds(s.stores[b], r) || Coming(w, s, b, r) || (b, r) in s.turnedAway
  }

  predicate EnoughBudget(w: World, s: Net, r: S.Record, d: A.Drive)
  {
    forall p :: p in s.flight && Live(w, p) ==>
      && Older(p.rec, r)
      && (p.rec == r ==> Driven(w, d, p) && Min(p.ttl, M.MAX_REVOKE_TTL) + |Holders(s, r)| >= |w.agents| - 1)
  }

  predicate NeighboursServed(w: World, s: Net, r: S.Record, d: A.Drive, a: Fp)
    requires s.stores.Keys == w.agents.Keys && a in w.agents
  {
    forall b :: b in Edges(w.agents[a], a) && b in w.agents && Accepting(w.agents[b], r, d) ==> Served(w, s, b, r)
  }

  predicate EntriesServed(w: World, s: Net, r: S.Record, d: A.Drive)
    requires s.stores.Keys == w.agents.Keys
  {
    forall p ::
      p in s.injected && p.rec == r && Live(w, p) && p.dest in w.agents && Accepting(w.agents[p.dest], r, d) ==>
        Served(w, s, p.dest, r)
  }

  predicate RelayedOnce(s: Net, r: S.Record)
  {
    && (forall i, j :: 0 <= i < j < |s.relays| && s.relays[i].1 == r ==> s.relays[i] != s.relays[j])
    && (forall i :: 0 <= i < |s.relays| && s.relays[i].1 == r ==> s.relays[i].0 in Holders(s, r))
  }

  predicate AllNewest(w: World, s: Net, r: S.Record)
    requires s.stores.Keys == w.agents.Keys
  {
    forall a :: a in w.agents ==> Newest(s.stores[a], r)
  }

  predicate Covering(w: World, s: Net, r: S.Record, d: A.Drive)
  {
    && s.stores.Keys == w.agents.Keys
    && AllNewest(w, s, r) && EnoughBudget(w, s, r, d) && EntriesServed(w, s, r, d) && RelayedOnce(s, r)
    && (forall a :: a in Holders(s, r) && (a, r) !in s.stranded ==> NeighboursServed(w, s, r, d, a))
  }

  // -- One step keeps it -----------------------------------------------------------------------------------

  /** What no step undoes: holders stay, and what is on its way stays or arrives. */
  predicate Grows(w: World, s: Net, t: Net, r: S.Record, d: A.Drive)
    requires s.stores.Keys == w.agents.Keys
  {
    && t.stores.Keys == w.agents.Keys && AllNewest(w, t, r)
    && Holders(s, r) <= Holders(t, r) && s.stranded <= t.stranded
    && (forall b :: b in w.agents && Accepting(w.agents[b], r, d) && Served(w, s, b, r) ==> Served(w, t, b, r))
  }

  lemma GrowsKeepsNeighbours(w: World, s: Net, t: Net, r: S.Record, d: A.Drive, a: Fp)
    requires s.stores.Keys == w.agents.Keys && Grows(w, s, t, r, d) && a in w.agents && NeighboursServed(w, s, r, d, a)
    ensures NeighboursServed(w, t, r, d, a)
  {
  }

  /** A step that changes no holder keeps what holders owe their neighbours, and the relay log. */
  lemma SameHolders(w: World, s: Net, t: Net, r: S.Record, d: A.Drive)
    requires Covering(w, s, r, d) && Grows(w, s, t, r, d) && Holders(t, r) == Holders(s, r) && t.relays == s.relays
    requires EnoughBudget(w, t, r, d) && EntriesServed(w, t, r, d)
    ensures Covering(w, t, r, d)
  {
    forall b | b in Holders(t, r) && (b, r) !in t.stranded ensures NeighboursServed(w, t, r, d, b) {
      GrowsKeepsNeighbours(w, s, t, r, d, b);
    }
  }

  lemma SweepIsGrowth(w: World, s: Net, r: S.Record, d: A.Drive, a: Fp, now: nat)
    requires Covering(w, s, r, d) && now < r.expires && a in w.agents
    ensures Grows(w, s, Next(w, s, Sweep(a, now)), r, d) && Holders(Next(w, s, Sweep(a, now)), r) == Holders(s, r)
  {
    var t := Next(w, s, Sweep(a, now));
    SweepKeepsNewest(s.stores[a], r, now);
    forall b | b in w.agents ensures Holds(t.stores[b], r) <==> Holds(s.stores[b], r) {
    }
    assert t.flight == s.flight && t.turnedAway == s.turnedAway;
  }

  lemma SweepCovers(w: World, s: Net, r: S.Record, d: A.Drive, a: Fp, now: nat)
    requires Covering(w, s, r, d) && now < r.expires && a in w.agents
    ensures Covering(w, Next(w, s, Sweep(a, now)), r, d)
  {
    var t := Next(w, s, Sweep(a, now));
    SweepIsGrowth(w, s, r, d, a, now);
    assert EnoughBudget(w, t, r, d) && EntriesServed(w, t, r, d);
    SameHolders(w, s, t, r, d);
  }

  lemma InjectCovers(w: World, s: Net, r: S.Record, d: A.Drive, p: Push)
    requires Covering(w, s, r, d) && Fair(w, s, r, d, Inject(p))
    ensures Covering(w, Next(w, s, Inject(p)), r, d)
  {
    var t := Next(w, s, Inject(p));
    assert Holders(t, r) == Holders(s, r);
    assert forall q :: q in s.flight ==> q in t.flight;
    assert p in t.flight;
    assert Grows(w, s, t, r, d);
    assert EnoughBudget(w, t, r, d) && EntriesServed(w, t, r, d);
    SameHolders(w, s, t, r, d);
  }

  lemma LostCovers(w: World, s: Net, r: S.Record, d: A.Drive, i: nat)
    requires Covering(w, s, r, d) && i < |s.flight| && s.flight[i].dest !in w.agents
    ensures Covering(w, s.(flight := Remove(s.flight, i)), r, d)
  {
    var t := s.(flight := Remove(s.flight, i));
    assert Holders(t, r) == Holders(s, r);
    forall b | b in w.agents && Served(w, s, b, r) ensures Served(w, t, b, r) {
      if Coming(w, s, b, r) {
        var q :| q in s.flight && q.dest == b && q.rec == r && Live(w, q);
        RemoveKeeps(s.flight, i, q);
      }
    }
    assert Grows(w, s, t, r, d);
    assert EnoughBudget(w, t, r, d) && EntriesServed(w, t, r, d);
    SameHolders(w, s, t, r, d);
  }

  /** A push that changes a store is one that some agent could take: this one did. */
  lemma ChangeIsLive(w: World, g: Agent, self: Fp, s: S.State, p: Push, e: Env)
    requires self in w.agents && w.agents[self] == g
    ensures var o := Handle(w, g, self, s, p, e);
      && (o.state != s || o.onward != [] ==> Live(w, p) && S.Sound(g.store, p.rec))
      && (o.onward != [] ==> S.AnswerTo(g.store, s, p.rec, e.now) == S.Accepted(true) && e.reported)
      && (forall q :: q in o.onward ==>
            && 0 < Min(p.ttl, M.MAX_REVOKE_TTL)
            && q == p.(dest := q.dest, sender := self, ttl := Min(p.ttl, M.MAX_REVOKE_TTL) - 1, fanout := true))
  {
    A.AdmitsExactlyWhen(g.operators, w.authorised, p.request, p.carried, p.rec, p.sender, e.now);
    S.VerifiedMeansSound(g.store, p.rec, e.now);
  }

  /** What a delivery does at its receiver: the newest judgement stays; a live copy of it is taken up, or turned away,
      by an accepting agent; and only a live copy makes a new holder. */
  lemma DeliveryTakes(w: World, s: Net, r: S.Record, d: A.Drive, i: nat, e: Env)
    requires Covering(w, s, r, d) && i < |s.flight| && s.flight[i].dest in w.agents && Fair(w, s, r, d, Deliver(i, e))
    ensures var p := s.flight[i]; var u, v := s.stores[p.dest], OutcomeAt(w, s, i, e).state;
      && Newest(v, r) && (Holds(u, r) ==> Holds(v, r))
      && (p.rec == r && Live(w, p) && Accepting(w.agents[p.dest], r, d) ==>
            Holds(v, r) || (p.dest, r) in Delivered(w, s, i, e).turnedAway)
      && (Holds(v, r) && !Holds(u, r) ==>
            && p.rec == r && Live(w, p) && Driven(w, d, p) &&
              S.AnswerTo(w.agents[p.dest].store, u, r, e.now) == S.Accepted(true)
            && Admitted(w, w.agents[p.dest], p, e.now) && !RateLimited(w.agents[p.dest], p, e)
            && ((p.dest, r) !in Delivered(w, s, i, e).stranded ==> e.reported))
      && (OutcomeAt(w, s, i, e).onward != [] && p.rec == r ==> Holds(v, r) && !Holds(u, r))
  {
    var p := s.flight[i];
    var g, u := w.agents[p.dest], s.stores[p.dest];
    assert p in s.flight;
    ChangeIsLive(w, g, p.dest, u, p, e);
    A.AdmitsExactlyWhen(g.operators, w.authorised, p.request, p.carried, p.rec, p.sender, e.now);
    if Live(w, p) || !S.Sound(g.store, p.rec) {
      NewestIsKept(g, u, p.rec, r, e.now);
    }
  }

  lemma DeliveredServes(w: World, s: Net, r: S.Record, d: A.Drive, i: nat, e: Env, b: Fp)
    requires Covering(w, s, r, d) && i < |s.flight| && s.flight[i].dest in w.agents && Fair(w, s, r, d, Deliver(i, e))
    requires b in w.agents && Accepting(w.agents[b], r, d) && Served(w, s, b, r)
    ensures b in Delivered(w, s, i, e).stores && Served(w, Delivered(w, s, i, e), b, r)
  {
    var p, t := s.flight[i], Delivered(w, s, i, e);
    DeliveryTakes(w, s, r, d, i, e);
    if Coming(w, s, b, r) {
      var q :| q in s.flight && q.dest == b && q.rec == r && Live(w, q);
      RemoveKeeps(s.flight, i, q);
      assert q in t.flight || q == p;
    }
  }

  lemma DeliveredGrows(w: World, s: Net, r: S.Record, d: A.Drive, i: nat, e: Env)
    requires Covering(w, s, r, d) && i < |s.flight| && s.flight[i].dest in w.agents && Fair(w, s, r, d, Deliver(i, e))
    ensures Grows(w, s, Delivered(w, s, i, e), r, d)
    ensures Holders(Delivered(w, s, i, e), r) <= Holders(s, r) + {s.flight[i].dest}
  {
    var t := Delivered(w, s, i, e);
    DeliveryTakes(w, s, r, d, i, e);
    forall b | b in w.agents && Accepting(w.agents[b], r, d) && Served(w, s, b, r) ensures Served(w, t, b, r) {
      DeliveredServes(w, s, r, d, i, e, b);
    }
  }

  lemma OneMoreHolder(w: World, s: Net, r: S.Record, d: A.Drive, i: nat, e: Env)
    requires Covering(w, s, r, d) && i < |s.flight| && s.flight[i].dest in w.agents && Fair(w, s, r, d, Deliver(i, e))
    ensures |Holders(s, r)| <= |Holders(Delivered(w, s, i, e), r)|
    ensures OutcomeAt(w, s, i, e).onward != [] && s.flight[i].rec == r ==>
      && s.flight[i].dest !in Holders(s, r) && s.flight[i].dest in Holders(Delivered(w, s, i, e), r)
      && |Holders(s, r)| + 1 <= |Holders(Delivered(w, s, i, e), r)|
  {
    var p, t := s.flight[i], Delivered(w, s, i, e);
    DeliveredGrows(w, s, r, d, i, e);
    SubsetFits(Holders(s, r), Holders(t, r));
    DeliveryTakes(w, s, r, d, i, e);
    if OutcomeAt(w, s, i, e).onward != [] && p.rec == r {
      assert p.dest !in Holders(s, r) && p.dest in Holders(t, r);
      SubsetFits(Holders(s, r) + {p.dest}, Holders(t, r));
    }
  }

  lemma BudgetAfter(w: World, s: Net, r: S.Record, d: A.Drive, i: nat, e: Env)
    requires Covering(w, s, r, d) && i < |s.flight| && s.flight[i].dest in w.agents && Fair(w, s, r, d, Deliver(i, e))
    ensures EnoughBudget(w, Delivered(w, s, i, e), r, d)
  {
    var p, t := s.flight[i], Delivered(w, s, i, e);
    var onward := OutcomeAt(w, s, i, e).onward;
    OneMoreHolder(w, s, r, d, i, e);
    ChangeIsLive(w, w.agents[p.dest], p.dest, s.stores[p.dest], p, e);
    assert p in s.flight;
    forall q | q in t.flight && Live(w, q)
      ensures Older(q.rec, r)
      ensures q.rec == r ==> Driven(w, d, q) && Min(q.ttl, M.MAX_REVOKE_TTL) + |Holders(t, r)| >= |w.agents| - 1
    {
      if q !in onward {
        assert q in s.flight;
      }
    }
  }

  /** An agent that just took `r` up has passed it to every neighbour, or its budget was spent and then everybody
      holds it. */
  lemma TakerServes(w: World, s: Net, r: S.Record, d: A.Drive, i: nat, e: Env)
    requires Covering(w, s, r, d) && i < |s.flight| && s.flight[i].dest in w.agents && Fair(w, s, r, d, Deliver(i, e))
    requires s.flight[i].dest !in Holders(s, r) && s.flight[i].dest in Holders(Delivered(w, s, i, e), r)
    requires (s.flight[i].dest, r) !in Delivered(w, s, i, e).stranded
    ensures Delivered(w, s, i, e).stores.Keys == w.agents.Keys &&
      NeighboursServed(w, Delivered(w, s, i, e), r, d, s.flight[i].dest)
  {
    var p, t := s.flight[i], Delivered(w, s, i, e);
    var a, ttl := p.dest, Min(p.ttl, M.MAX_REVOKE_TTL);
    DeliveredGrows(w, s, r, d, i, e);
    DeliveryTakes(w, s, r, d, i, e);
    assert p in s.flight;
    if ttl == 0 {
      SubsetFits(Holders(s, r) + {a}, Holders(t, r));
      SubsetFits(Holders(t, r), w.agents.Keys);
    } else {
      var onward, targets := OutcomeAt(w, s, i, e).onward, Edges(w.agents[a], a);
      assert onward == Forward(targets, a, p, ttl - 1);
      forall b | b in targets ensures Coming(w, t, b, r) {
        var j :| 0 <= j < |targets| && targets[j] == b;
        assert onward[j] in t.flight && Live(w, onward[j]);
      }
    }
  }

  lemma RelayedOnceAfter(w: World, s: Net, r: S.Record, d: A.Drive, i: nat, e: Env)
    requires Covering(w, s, r, d) && i < |s.flight| && s.flight[i].dest in w.agents && Fair(w, s, r, d, Deliver(i, e))
    ensures RelayedOnce(Delivered(w, s, i, e), r)
  {
    var p, t := s.flight[i], Delivered(w, s, i, e);
    assert Holders(s, r) <= Holders(t, r) by {
      DeliveredGrows(w, s, r, d, i, e);
    }
    OneMoreHolder(w, s, r, d, i, e);
    LogOnce(s.relays, t.relays, Holders(s, r), Holders(t, r), (p.dest, p.rec), r);
  }

  lemma LogOnce(before: seq<(Fp, S.Record)>, after: seq<(Fp, S.Record)>, had: set<Fp>, have: set<Fp>,
      at: (Fp, S.Record), r: S.Record)
    requires forall i, j :: 0 <= i < j < |before| && before[i].1 == r ==> before[i] != before[j]
    requires forall i :: 0 <= i < |before| && before[i].1 == r ==> before[i].0 in had
    requires had <= have && (after == before ||
      (after == before + [at] && (at.1 == r ==> at.0 !in had && at.0 in have)))
    ensures forall i, j :: 0 <= i < j < |after| && after[i].1 == r ==> after[i] != after[j]
    ensures forall i :: 0 <= i < |after| && after[i].1 == r ==> after[i].0 in have
  {
  }

  lemma DeliveredCovers(w: World, s: Net, r: S.Record, d: A.Drive, i: nat, e: Env)
    requires Covering(w, s, r, d) && i < |s.flight| && s.flight[i].dest in w.agents && Fair(w, s, r, d, Deliver(i, e))
    ensures Covering(w, Delivered(w, s, i, e), r, d)
  {
    var t := Delivered(w, s, i, e);
    DeliveredGrows(w, s, r, d, i, e);
    BudgetAfter(w, s, r, d, i, e);
    RelayedOnceAfter(w, s, r, d, i, e);
    assert EntriesServed(w, t, r, d);
    forall a | a in Holders(t, r) && (a, r) !in t.stranded ensures NeighboursServed(w, t, r, d, a) {
      if a in Holders(s, r) {
        GrowsKeepsNeighbours(w, s, t, r, d, a);
      } else {
        TakerServes(w, s, r, d, i, e);
      }
    }
  }

  lemma CoveringNext(w: World, s: Net, r: S.Record, d: A.Drive, step: Step)
    requires Covering(w, s, r, d) && Fair(w, s, r, d, step)
    ensures Covering(w, Next(w, s, step), r, d)
  {
    match step
    case Inject(p) => InjectCovers(w, s, r, d, p);
    case Deliver(i, e) =>
      if i < |s.flight| {
        if s.flight[i].dest in w.agents {
          DeliveredCovers(w, s, r, d, i, e);
        } else {
          LostCovers(w, s, r, d, i);
        }
      }
    case Sweep(a, now) =>
      if a in w.agents {
        SweepCovers(w, s, r, d, a, now);
      }
  }

  lemma {:induction false} CoveringAlways(w: World, h: History, r: S.Record, d: A.Drive, n: nat)
    requires IsHistory(w, h) && n < |h.nets| && forall i :: 0 <= i < |h.steps| ==> FairAt(w, h, r, d, i)
    ensures Covering(w, h.nets[n], r, d)
  {
    if n > 0 {
      CoveringAlways(w, h, r, d, n - 1);
      assert StepAt(w, h, n - 1) && FairAt(w, h, r, d, n - 1);
      CoveringNext(w, h.nets[n - 1], r, d, h.steps[n - 1]);
    } else {
      assert Holders(h.nets[0], r) == {};
    }
  }

  // -- What it means ----------------------------------------------------------------------------------------

  /** A way for `r` to travel: from where a live push of it was sent, over pinned gossiping neighbours, through agents
      that accept it, trust every authoriser of the drive, were not turned away and did not fail to report. */
  predicate Route(w: World, s: Net, r: S.Record, d: A.Drive, path: seq<Fp>)
  {
    && |path| > 0 && (exists p :: p in s.injected && p.rec == r && Live(w, p) && p.dest == path[0])
    && (forall i :: 0 <= i < |path| ==>
          path[i] in w.agents && Accepting(w.agents[path[i]], r, d) && (path[i], r) !in s.turnedAway)
    && (forall i :: 0 < i < |path| ==> Linked(w, s, r, path, i))
  }

  predicate Linked(w: World, s: Net, r: S.Record, path: seq<Fp>, i: nat)
    requires 0 < i < |path| && path[i - 1] in w.agents
  {
    path[i] in Edges(w.agents[path[i - 1]], path[i - 1]) && (path[i - 1], r) !in s.stranded
  }

  lemma {:induction false} RouteHolds(w: World, s: Net, r: S.Record, d: A.Drive, path: seq<Fp>, n: nat)
    requires Covering(w, s, r, d) && Route(w, s, r, d, path) && n < |path|
    requires forall p :: p in s.flight ==> p.rec != r || !Live(w, p)
    ensures Holds(s.stores[path[n]], r)
  {
    if n == 0 {
      var p :| p in s.injected && p.rec == r && Live(w, p) && p.dest == path[0];
      assert Served(w, s, p.dest, r);
    } else {
      RouteHolds(w, s, r, d, path, n - 1);
      assert path[n - 1] in Holders(s, r) && Linked(w, s, r, path, n);
      assert NeighboursServed(w, s, r, d, path[n - 1]);
    }
  }

  /** A re-issue reaches the fleet. However many agents already hold an older judgement of the same id, in whatever
      order messages are delivered and stores are swept, and whatever else anybody sends: once no live copy of the
      newest judgement is in flight, every agent with a route from an entry holds it, and nobody passed it on more
      than once. */
  lemma NewestJudgementReachesEveryone(w: World, h: History, r: S.Record, d: A.Drive, n: nat, path: seq<Fp>)
    requires IsHistory(w, h) && n < |h.nets| && forall i :: 0 <= i < |h.steps| ==> FairAt(w, h, r, d, i)
    requires Route(w, h.nets[n], r, d, path) && forall p :: p in h.nets[n].flight ==> p.rec != r || !Live(w, p)
    ensures forall k :: 0 <= k < |path| ==> path[k] in h.nets[n].stores && Holds(h.nets[n].stores[path[k]], r)
    ensures forall i, j :: 0 <= i < j < |h.nets[n].relays| && h.nets[n].relays[i].1 == r ==>
      h.nets[n].relays[i] != h.nets[n].relays[j]
  {
    CoveringAlways(w, h, r, d, n);
    forall k | 0 <= k < |path| ensures path[k] in h.nets[n].stores && Holds(h.nets[n].stores[path[k]], r) {
      RouteHolds(w, h.nets[n], r, d, path, k);
    }
  }

  // -- The logs are what they say -------------------------------------------------------------------------------

  /** Step `i` delivers a push of `r` to `a`. */
  predicate DeliveredAt(w: World, h: History, i: nat, a: Fp, r: S.Record)
    requires |h.nets| == |h.steps| + 1 && i < |h.steps|
  {
    match h.steps[i]
    case Deliver(j, _) =>
      j < |h.nets[i].flight| && h.nets[i].flight[j].dest == a && h.nets[i].flight[j].rec == r
    case _ => false
  }

  /** Step `i` turns `r` away at `a`: the fan-out budget of the operator that sent it is exhausted, or there is no
      room. */
  predicate TurnsAwayAt(w: World, h: History, i: nat, a: Fp, r: S.Record)
    requires |h.nets| == |h.steps| + 1 && i < |h.steps| && a in w.agents && a in h.nets[i].stores
  {
    && DeliveredAt(w, h, i, a, r)
    && var p, e, held := h.nets[i].flight[h.steps[i].i], h.steps[i].e, h.nets[i].stores[a].held;
       || (p.fanout && p.sender in w.agents[a].operators && !e.budget)
       || (|held| >= w.agents[a].store.cap && r.id !in held)
  }

  /** Step `i` changes what `a` holds, and could not be reported. */
  predicate StrandsAt(w: World, h: History, i: nat, a: Fp, r: S.Record)
    requires |h.nets| == |h.steps| + 1 && i < |h.steps| && a in h.nets[i].stores && a in h.nets[i + 1].stores
  {
    DeliveredAt(w, h, i, a, r) && h.nets[i + 1].stores[a] != h.nets[i].stores[a] && !h.steps[i].e.reported
  }

  lemma {:induction false} SameAgents(w: World, h: History, n: nat)
    requires IsHistory(w, h) && n < |h.nets|
    ensures h.nets[n].stores.Keys == w.agents.Keys
  {
    if n > 0 {
      SameAgents(w, h, n - 1);
      assert StepAt(w, h, n - 1);
    }
  }

  lemma {:induction false} LogsAreExact(w: World, h: History, n: nat, a: Fp, r: S.Record)
    requires IsHistory(w, h) && n < |h.nets| && a in w.agents
    requires forall i :: 0 <= i < |h.nets| ==> a in h.nets[i].stores
    ensures (a, r) in h.nets[n].turnedAway <==> exists i :: 0 <= i < n && TurnsAwayAt(w, h, i, a, r)
    ensures (a, r) in h.nets[n].stranded <==> exists i :: 0 <= i < n && StrandsAt(w, h, i, a, r)
  {
    if n > 0 {
      LogsAreExact(w, h, n - 1, a, r);
      LogsNext(w, h, n - 1, a, r);
    }
  }

  /** The logs are what they say: who was turned away for want of budget or room, and who could not report a change. */
  lemma TurnedAwayAndStranded(w: World, h: History, n: nat, a: Fp, r: S.Record)
    requires IsHistory(w, h) && n < |h.nets| && a in w.agents
    ensures forall i :: 0 <= i < |h.nets| ==> a in h.nets[i].stores
    ensures (a, r) in h.nets[n].turnedAway <==> exists i :: 0 <= i < n && TurnsAwayAt(w, h, i, a, r)
    ensures (a, r) in h.nets[n].stranded <==> exists i :: 0 <= i < n && StrandsAt(w, h, i, a, r)
  {
    forall i | 0 <= i < |h.nets| ensures a in h.nets[i].stores {
      SameAgents(w, h, i);
    }
    LogsAreExact(w, h, n, a, r);
  }

  lemma LogsNext(w: World, h: History, i: nat, a: Fp, r: S.Record)
    requires IsHistory(w, h) && i < |h.steps| && a in w.agents && a in h.nets[i].stores && a in h.nets[i + 1].stores
    ensures (a, r) in h.nets[i + 1].turnedAway <==> (a, r) in h.nets[i].turnedAway || TurnsAwayAt(w, h, i, a, r)
    ensures (a, r) in h.nets[i + 1].stranded <==> (a, r) in h.nets[i].stranded || StrandsAt(w, h, i, a, r)
  {
    assert StepAt(w, h, i);
  }

  // -- The flood ends ------------------------------------------------------------------------------------------

  function Budgets(flight: seq<Push>): seq<nat>
  {
    seq(|flight|, i requires 0 <= i < |flight| => flight[i].ttl)
  }

  lemma OnwardFits(w: World, g: Agent, self: Fp, s: S.State, p: Push, e: Env)
    ensures var onward := Handle(w, g, self, s, p, e).onward;
      |onward| <= |g.peers| && forall j :: 0 <= j < |onward| ==> onward[j].ttl < Min(p.ttl, M.MAX_REVOKE_TTL)
  {
    M.TargetsAre(g.peers, g.pins, self);
  }

  lemma SilenceDeliveryIsDelivery(w: World, s: Net, i: nat, e: Env, d: nat)
    requires s.stores.Keys == w.agents.Keys && i < |s.flight| && forall a :: a in w.agents ==> |w.agents[a].peers| <= d
    ensures M.IsDelivery(Budgets(s.flight), Budgets(Next(w, s, Deliver(i, e)).flight), M.MAX_REVOKE_TTL, d)
  {
    var p, t := s.flight[i], Next(w, s, Deliver(i, e));
    var onward: seq<Push> := if p.dest in w.agents then OutcomeAt(w, s, i, e).onward else [];
    if p.dest in w.agents {
      OnwardFits(w, w.agents[p.dest], p.dest, s.stores[p.dest], p, e);
    }
    assert t.flight == Remove(s.flight, i) + onward;
    M.Replaced(Budgets(s.flight), Budgets(t.flight), i, Budgets(onward), M.MAX_REVOKE_TTL, d);
  }

  predicate DeliversAt(h: History, i: nat)
    requires |h.nets| == |h.steps| + 1 && i < |h.steps|
  {
    h.steps[i].Deliver? && h.steps[i].i < |h.nets[i].flight|
  }

  function Deliveries(h: History, m: nat, n: nat): nat
    requires |h.nets| == |h.steps| + 1 && m <= n <= |h.steps|
  {
    if m == n then 0 else Deliveries(h, m, n - 1) + if DeliversAt(h, n - 1) then 1 else 0
  }

  /** Every flood dies out: in a stretch in which nothing is injected there are never more deliveries than the weight
      of what was in flight when it began. */
  lemma {:induction false} SilenceFloodEnds(w: World, h: History, m: nat, n: nat, d: nat)
    requires IsHistory(w, h) && m <= n < |h.nets| && forall a :: a in w.agents ==> |w.agents[a].peers| <= d
    requires forall i :: m <= i < n ==> !h.steps[i].Inject?
    ensures Deliveries(h, m, n) <= M.Weight(Budgets(h.nets[m].flight), M.MAX_REVOKE_TTL,
      d) - M.Weight(Budgets(h.nets[n].flight), M.MAX_REVOKE_TTL, d)
  {
    if m < n {
      SilenceFloodEnds(w, h, m, n - 1, d);
      assert StepAt(w, h, n - 1);
      var s, step := h.nets[n - 1], h.steps[n - 1];
      if DeliversAt(h, n - 1) {
        SilenceDeliveryIsDelivery(w, s, step.i, step.e, d);
        M.DeliveryLowers(Budgets(s.flight), Budgets(h.nets[n].flight), M.MAX_REVOKE_TTL, d);
      } else {
        assert h.nets[n].flight == s.flight;
      }
    }
  }
}
