/**
 Whose queries an agent runs, and where a fanned-out query ends up (`operator.rs`): the gates a command passes, the
 operator authorisation a relayed command must carry (`bowery-whisper/src/forwarding.rs`), and the mesh as a network
 of honest agents that anybody may send commands to.

 Signatures are ideal, and the digest of a command body is its normal form.
 */
module QueryDispatch {
  import opened Basics
  import A = Authorisation

  type Fp = nat

  /** The four command bodies. A peer filter entry is absent when it is not the size of a fingerprint. */
  datatype Body =
    | Sql(sql: string, fanout: bool, peers: seq<Option<Fp>>)
    | YaraPush(rule: string, rules: seq<nat>, targets: seq<string>, fanout: bool, ttl: nat)
    | RevokePush(revocation: seq<nat>, fanout: bool, ttl: nat)
    | SilencePush(silence: seq<nat>, fanout: bool, ttl: nat)

  /** What an operator's authorisation covers: everything but the dispatch fields that change from hop to hop. */
  function Normalise(b: Body): Body
  {
    match b
    case Sql(sql, _, _) => Sql(sql, false, [])
    case YaraPush(rule, rules, targets, _, _) => YaraPush(rule, rules, targets, false, 0)
    case RevokePush(revocation, _, _) => RevokePush(revocation, false, 0)
    case SilencePush(silence, _, _) => SilencePush(silence, false, 0)
  }

  /** The body a relay sends on. */
  function Onward(b: Body): Body
  {
    match b
    case Sql(sql, _, _) => Sql(sql, false, [])
    case YaraPush(rule, rules, targets, _, ttl) => YaraPush(rule, rules, targets, true, if ttl > 0 then ttl - 1 else 0)
    case RevokePush(revocation, _, ttl) => RevokePush(revocation, true, if ttl > 0 then ttl - 1 else 0)
    case SilencePush(silence, _, ttl) => SilencePush(silence, true, if ttl > 0 then ttl - 1 else 0)
  }

  /** The dispatch fields aside, two commands say the same. */
  predicate SayTheSame(a: Body, b: Body)
  {
    match a
    case Sql(sql, _, _) => b.Sql? && b.sql == sql
    case YaraPush(rule, rules, targets, _, _) =>
      b.YaraPush? && b.rule == rule && b.rules == rules && b.targets == targets
    case RevokePush(revocation, _, _) => b.RevokePush? && b.revocation == revocation
    case SilencePush(silence, _, _) => b.SilencePush? && b.silence == silence
  }

  /** An authorisation covers everything a command says: two have one normal form exactly when they say the same; and
      what a relay sends on says the same, with a hop less to go. */
  lemma NormalFormExactlyWhen(a: Body, b: Body)
    ensures Normalise(a) == Normalise(b) <==> SayTheSame(a, b)
    ensures SayTheSame(a, Onward(a))
    ensures if a.Sql? then !Onward(a).fanout && Onward(a).peers == []
            else Onward(a).fanout && Onward(a).ttl == Max(a.ttl - 1, 0)
  {
  }

  type Signed = A.Signed<Body>

  datatype Command = Command(request: string, carried: A.Carried<Body>, body: Option<Body>)

  function Resolve(operators: set<Fp>, signed: set<Signed>, cmd: Command, sender: Fp, now: nat): A.Resolved
  {
    A.Resolve(operators, signed, cmd.request, cmd.carried,
      if cmd.body == None then None else Some(Normalise(cmd.body.value)),
              sender, now)
  }

  /** An agent's part in dispatch: its configured operators, its pinned peers, and whether it has a query engine and a
      relay. */
  datatype Node = Node(operators: set<Fp>, pins: set<Fp>, engine: bool, relay: bool)

  datatype Verdict = Ignored | ForwardingInvalid(why: A.Reason) | OneHopOnly | RateLimited | NotAQuery | NoEngine
                   | Runs(operator: Fp, fansOut: bool)

  /** What happens to a command on arrival; `budget` is the answer of the fan-out rate limiter. */
  function Dispatch(n: Node, signed: set<Signed>, cmd: Command, sender: Fp, now: nat, budget: bool): Verdict
  {
    var direct := sender in n.operators;
    if !direct && cmd.carried == A.Absent then Ignored
    else
      var who := Resolve(n.operators, signed, cmd, sender, now);
      if who.Denied? then ForwardingInvalid(who.why)
      else if cmd.body == None || !cmd.body.value.Sql? then NotAQuery
      else if !direct && cmd.body.value.fanout then OneHopOnly
      else if cmd.body.value.fanout && !budget then RateLimited
      else if !n.engine then NoEngine
      else Runs(who.fp, cmd.body.value.fanout && n.relay)
  }

  /** An operator of this agent asked for exactly this: by sending it itself, or by signing this request and this text
      within the skew window. */
  predicate Authorised(n: Node, signed: set<Signed>, cmd: Command, sender: Fp, now: nat, operator: Fp)
  {
    && operator in n.operators && cmd.body.Some?
    && match cmd.carried
       case Absent => sender == operator
       case Garbled => false
       case Given(a) =>
         A.Signed(operator, a.ts, cmd.request, Normalise(cmd.body.value), a.sig) in signed && A.Timely(a.ts, now)
  }

  predicate Shaped(cmd: Command)
  {
    cmd.carried.Given? ==>
      var a := cmd.carried.auth; a.operatorLen == 32 && a.digestLen == 32 && a.sigLen == 64
  }

  /** A query runs exactly when an operator of this agent asked for it in one of the two ways, nothing about it asks
      for a second hop or exceeds the budget, and there is an engine; then it runs for that operator, and is fanned out
      exactly when it asks for that and the agent relays. */
  lemma RunsExactlyWhenAuthorised(n: Node, signed: set<Signed>, cmd: Command, sender: Fp, now: nat, budget: bool,
      operator: Fp, fansOut: bool)
    ensures Dispatch(n, signed, cmd, sender, now, budget) == Runs(operator, fansOut) <==>
            (&& Authorised(n, signed, cmd, sender, now, operator)
             && Shaped(cmd) && cmd.body.value.Sql? && n.engine
             && (cmd.carried.Given? ==>
                   && cmd.carried.auth.operator == operator && cmd.carried.auth.request == cmd.request
                   && cmd.carried.auth.digest == Normalise(cmd.body.value))
             && (cmd.body.value.fanout ==> sender in n.operators && budget)
             && fansOut == (cmd.body.value.fanout && n.relay))
  {
    A.AdmitsExactlyWhen(n.operators, signed, cmd.request, cmd.carried,
      if cmd.body.Some? then Normalise(cmd.body.value) else Sql("", false, []), sender, now);
  }

  /** A command that does not run is turned away for what it is: silently only when nobody the agent knows sent or
      authorised it, and otherwise with what is wrong with it. */
  lemma TurnedAwayForAReason(n: Node, signed: set<Signed>, cmd: Command, sender: Fp, now: nat, budget: bool)
    ensures var direct := sender in n.operators; var d := Dispatch(n, signed, cmd, sender, now, budget);
      && (d.Ignored? <==> !direct && cmd.carried == A.Absent)
      && (d.ForwardingInvalid? ==> Resolve(n.operators, signed, cmd, sender, now) == A.Denied(d.why))
      && (d.NotAQuery? ==> cmd.body == None || !cmd.body.value.Sql?)
      && (d.OneHopOnly? ==> !direct && cmd.body.Some? && cmd.body.value.Sql? && cmd.body.value.fanout)
      && (d.RateLimited? ==> direct && cmd.body.Some? && cmd.body.value.fanout && !budget)
      && (d.NoEngine? ==> !n.engine)
  {
  }

  /** A relay cannot change what an operator authorised, and need not: if two bodies pass under one authorisation they
      have the same normal form, and the body a relay sends on passes wherever the original does. */
  lemma ForwardingKeepsTheAuthorisation(n: Node, signed: set<Signed>, cmd: Command, sender: Fp, relay: Fp, now: nat,
      budget: bool)
    requires Dispatch(n, signed, cmd, sender, now, budget).Runs? && cmd.carried.Given?
    ensures var onward := cmd.(body := Some(Onward(cmd.body.value)));
      Dispatch(n, signed, onward, relay, now, false) == Runs(cmd.carried.auth.operator, false)
    ensures forall b: Body :: Resolve(n.operators, signed, cmd.(body := Some(b)), relay, now).Operator? <==>
                              Normalise(b) == Normalise(cmd.body.value)
    ensures forall b :: Normalise(Onward(b)) == Normalise(b)
  {
    forall b: Body
      ensures Resolve(n.operators, signed, cmd.(body := Some(b)), relay, now).Operator? <==>
              Normalise(b) == Normalise(cmd.body.value)
    {
    }
  }

  // -- The mesh -----------------------------------------------------------------------------------------

  /** A command in flight. `serial` says which injected command it stems from, `hop` whether a relay sent it, and
      `slot` for which entry of the relay's peer list. */
  datatype Msg = Msg(dest: Fp, sender: Fp, cmd: Command, serial: nat, hop: nat, slot: nat)

  datatype QueryRun = QueryRun(agent: Fp, serial: nat, hop: nat, slot: nat, operator: Fp, sql: string)

  datatype Mesh = Mesh(nodes: map<Fp, Node>, signed: set<Signed>)

  /** `dialled` logs whom the entry agent of a command dialled. */
  datatype Net = Net(injected: seq<Msg>, flight: set<Msg>, runs: seq<QueryRun>, dialled: map<nat, seq<Fp>>)

  /** The peers a fan-out dials, entry by entry: listed by the mesh, pinned, not ourselves, and in the filter when
      there is one. A peer that is listed twice is dialled twice. */
  function Targets(n: Node, self: Fp, filter: seq<Option<Fp>>, listed: seq<Fp>): seq<Fp>
  {
    if listed == [] then []
    else
      var p := listed[0];
      (if p in n.pins && p != self && (filter == [] || Some(p) in filter) then [p] else [])
      + Targets(n, self, filter, listed[1..])
  }

  lemma {:induction false} TargetsAre(n: Node, self: Fp, filter: seq<Option<Fp>>, listed: seq<Fp>)
    ensures forall p :: p in Targets(n, self, filter, listed) <==>
      p in listed && p in n.pins && p != self && (filter == [] || Some(p) in filter)
    ensures NoDup(listed) ==> NoDup(Targets(n, self, filter, listed))
    decreases |listed|
  {
    if listed != [] {
      TargetsAre(n, self, filter, listed[1..]);
      assert listed == [listed[0]] + listed[1..];
      if NoDup(listed) {
        assert forall j :: 0 < j < |listed| ==> listed[j] == listed[1..][j - 1];
        assert NoDup(listed[1..]) && listed[0] !in listed[1..];
      }
    }
  }

  /** A pinned peer the filter lets through is dialled as often as it is listed. */
  lemma {:induction false} TargetsCount(n: Node, self: Fp, filter: seq<Option<Fp>>, listed: seq<Fp>, p: Fp)
    ensures multiset(Targets(n, self, filter, listed))[p] ==
      if p in n.pins && p != self && (filter == [] || Some(p) in filter) then multiset(listed)[p] else 0
    decreases |listed|
  {
    if listed != [] {
      TargetsCount(n, self, filter, listed[1..], p);
      assert listed == [listed[0]] + listed[1..];
    }
  }

  function RelayMsg(m: Msg, p: Fp, slot: nat): Msg
    requires m.cmd.body.Some?
  {
    Msg(p, m.dest, m.cmd.(body := Some(Onward(m.cmd.body.value))), m.serial, m.hop + 1, slot)
  }

  function Relayed(m: Msg, targets: seq<Fp>): set<Msg>
    requires m.cmd.body.Some?
  {
    set i | 0 <= i < |targets| :: RelayMsg(m, targets[i], i)
  }

  datatype Step =
    | Inject(m: Msg)
    | Lose(m: Msg)
    | Handle(m: Msg, now: nat, budget: bool, succeeds: bool, listed: seq<Fp>)

  /** An outsider, operator or not, sends any command to any agent under its own name; a message is lost; an agent
      handles one. A query that fails on the entry agent is not fanned out. */
  predicate Enabled(w: Mesh, s: Net, step: Step)
  {
    match step
    case Inject(m) =>
      m.sender !in w.nodes && m.dest in w.nodes && m.serial == |s.injected| && m.hop == 0 && m.slot == 0
    case Lose(m) => m in s.flight
    case Handle(m, _, _, _, _) => m in s.flight && m.dest in w.nodes
  }

  function Next(w: Mesh, s: Net, step: Step): Net
    requires Enabled(w, s, step)
  {
    match step
    case Inject(m) => s.(injected := s.injected + [m], flight := s.flight + {m})
    case Lose(m) => s.(flight := s.flight - {m})
    case Handle(m, now, budget, succeeds, listed) =>
      var n := w.nodes[m.dest];
      match Dispatch(n, w.signed, m.cmd, m.sender, now, budget)
      case Runs(operator, fansOut) =>
        var query := m.cmd.body.value;
        var run := QueryRun(m.dest, m.serial, m.hop, m.slot, operator, query.sql);
        if fansOut && succeeds then FannedOut(s, m, run, Targets(n, m.dest, query.peers, listed))
        else Net(s.injected, s.flight - {m}, s.runs + [run], s.dialled)
      case _ => s.(flight := s.flight - {m})
  }

  function FannedOut(s: Net, m: Msg, run: QueryRun, targets: seq<Fp>): Net
    requires m.cmd.body.Some?
  {
    Net(s.injected, s.flight - {m} + Relayed(m, targets), s.runs + [run], s.dialled[m.serial := targets])
  }

  /** A query that fans out and succeeds locally is sent on, once per listing, to every listed peer that is pinned and
      the filter lets through: with the same text and authorisation, without a further hop, under the agent's name. */
  lemma FanOutAsksEveryone(w: Mesh, s: Net, m: Msg, now: nat, budget: bool, listed: seq<Fp>, p: Fp)
    requires Enabled(w, s, Handle(m, now, budget, true, listed))
    requires var d := Dispatch(w.nodes[m.dest], w.signed, m.cmd, m.sender, now, budget); d.Runs? && d.fansOut
    ensures var n, t := w.nodes[m.dest], Next(w, s, Handle(m, now, budget, true, listed));
      && m.cmd.body.Some? && m.cmd.body.value.Sql? && m.serial in t.dialled
      && var query, dialled := m.cmd.body.value, t.dialled[m.serial];
         && multiset(dialled)[p] == (if p in n.pins && p != m.dest && (query.peers == [] || Some(p) in query.peers)
                                     then multiset(listed)[p] else 0)
         && forall i :: 0 <= i < |dialled| ==>
              Msg(dialled[i], m.dest, Command(m.cmd.request, m.cmd.carried, Some(Sql(query.sql, false, []))), m.serial,
                  m.hop + 1, i) in t.flight
  {
    var n, query := w.nodes[m.dest], m.cmd.body.value;
    TargetsCount(n, m.dest, query.peers, listed, p);
    CopiesFly(m, Targets(n, m.dest, query.peers, listed));
  }

  lemma CopiesFly(m: Msg, targets: seq<Fp>)
    requires m.cmd.body.Some? && m.cmd.body.value.Sql?
    ensures forall i :: 0 <= i < |targets| ==>
      Msg(targets[i], m.dest, Command(m.cmd.request, m.cmd.carried, Some(Sql(m.cmd.body.value.sql, false, []))),
          m.serial, m.hop + 1, i) in Relayed(m, targets)
  {
    forall i | 0 <= i < |targets| ensures RelayMsg(m, targets[i], i) in Relayed(m, targets) {
    }
  }

  const SILENT_MESH := Net([], {}, [], map[])

  /** The mesh from its silent start on: `nets[i]` is its state after `i` steps. */
  datatype History = History(nets: seq<Net>, steps: seq<Step>)

  predicate StepAt(w: Mesh, h: History, i: nat)
    requires |h.nets| == |h.steps| + 1 && i < |h.steps|
  {
    Enabled(w, h.nets[i], h.steps[i]) && h.nets[i + 1] == Next(w, h.nets[i], h.steps[i])
  }

  predicate IsHistory(w: Mesh, h: History)
  {
    && |h.nets| == |h.steps| + 1 && h.nets[0] == SILENT_MESH
    && forall i :: 0 <= i < |h.steps| ==> StepAt(w, h, i)
  }

  /** The agent stands where the command's entry agent may have it run: at the entry itself, or, for a fan-out an
      operator of the entry agent asked for, at a pinned peer of the entry the filter lets through. */
  predicate Within(w: Mesh, origin: Msg, agent: Fp, hop: nat)
  {
    && origin.dest in w.nodes && origin.cmd.body.Some? && origin.cmd.body.value.Sql?
    && (hop == 0 ==> agent == origin.dest)
    && (hop > 0 ==>
          && hop == 1 && agent != origin.dest && agent in w.nodes[origin.dest].pins
          && origin.cmd.body.value.fanout && origin.sender in w.nodes[origin.dest].operators
          && (origin.cmd.body.value.peers != [] ==> Some(agent) in origin.cmd.body.value.peers))
  }

  /** Whom the entry agent of a command dialled. */
  function Dialled(s: Net, serial: nat): seq<Fp>
  {
    if serial in s.dialled then s.dialled[serial] else []
  }

  /** The entry of the peer list the copy or run is for names its agent. */
  predicate Slotted(s: Net, serial: nat, hop: nat, slot: nat, agent: Fp)
  {
    if hop == 0 then slot == 0 else slot < |Dialled(s, serial)| && Dialled(s, serial)[slot] == agent
  }

  /** A message in flight is an injected one, or the single-hop copy a relay made of it for one entry of its peer
      list. */
  predicate Legit(w: Mesh, s: Net, m: Msg)
  {
    && m.serial < |s.injected| && Slotted(s, m.serial, m.hop, m.slot, m.dest)
    && var o := s.injected[m.serial];
       && (m.hop == 0 ==> m == o)
       && (m.hop > 0 ==> Within(w, o, m.dest, m.hop) && m == RelayMsg(o, m.dest, m.slot))
  }

  predicate Accounted(w: Mesh, s: Net, r: QueryRun)
  {
    && r.serial < |s.injected| && Within(w, s.injected[r.serial], r.agent, r.hop)
    && Slotted(s, r.serial, r.hop, r.slot, r.agent)
    && r.agent in w.nodes && r.operator in w.nodes[r.agent].operators
    && r.sql == s.injected[r.serial].cmd.body.value.sql
    && Commissioned(w, s.injected[r.serial], r)
  }

  /** The operator a query runs for asked for it: it sent the bare command, to the entry agent or as the entry agent,
      or it signed this text for this request. */
  predicate Commissioned(w: Mesh, origin: Msg, r: QueryRun)
  {
    match origin.cmd.carried
    case Absent => r.operator == if r.hop == 0 then origin.sender else origin.dest
    case Garbled => false
    case Given(a) =>
      && r.operator == a.operator
      && A.Signed(a.operator, a.ts, origin.cmd.request, Sql(r.sql, false, []), a.sig) in w.signed
  }

  /** Nothing stems from a command that has not been handled yet. */
  predicate Untouched(s: Net, serial: nat)
  {
    && serial !in s.dialled
    && (forall m :: m in s.flight && m.serial == serial ==> m.hop == 0)
    && (forall i :: 0 <= i < |s.runs| ==> s.runs[i].serial != serial)
  }

  predicate SameSlot(r: QueryRun, serial: nat, hop: nat, slot: nat)
  {
    r.serial == serial && r.hop == hop && r.slot == slot
  }

  /** No entry of a peer list has run twice, or has run and is still in flight. */
  predicate Once(s: Net)
  {
    && (forall i, j :: 0 <= i < j < |s.runs| ==> !SameSlot(s.runs[i], s.runs[j].serial, s.runs[j].hop, s.runs[j].slot))
    && (forall m, i :: m in s.flight && 0 <= i < |s.runs| ==> !SameSlot(s.runs[i], m.serial, m.hop, m.slot))
  }

  predicate DialledOk(w: Mesh, s: Net, k: nat)
  {
    k < |s.injected| && forall p :: p in Dialled(s, k) ==> Within(w, s.injected[k], p, 1)
  }

  predicate InjectedOk(w: Mesh, m: Msg, i: nat)
  {
    m.hop == 0 && m.slot == 0 && m.serial == i && m.dest in w.nodes && m.sender !in w.nodes
  }

  predicate Inv(w: Mesh, s: Net)
  {
    && (forall i :: 0 <= i < |s.injected| ==> InjectedOk(w, s.injected[i], i))
    && (forall m :: m in s.flight ==> Legit(w, s, m))
    && (forall i :: 0 <= i < |s.runs| ==> Accounted(w, s, s.runs[i]))
    && (forall m :: m in s.flight && m.hop == 0 ==> Untouched(s, m.serial))
    && (forall k :: k in s.dialled ==> DialledOk(w, s, k))
    && Once(s)
  }

  lemma InjectKeeps(w: Mesh, s: Net, m: Msg)
    requires Inv(w, s) && Enabled(w, s, Inject(m))
    ensures Inv(w, Next(w, s, Inject(m)))
  {
    var t := Next(w, s, Inject(m));
    forall x | x in t.flight ensures Legit(w, t, x) {
      if x != m {
        assert Legit(w, s, x);
      }
    }
    forall i | 0 <= i < |t.runs| ensures Accounted(w, t, t.runs[i]) && t.runs[i].serial != m.serial {
      assert Accounted(w, s, s.runs[i]);
    }
    forall k | k in t.dialled ensures DialledOk(w, t, k) && k != m.serial {
      assert DialledOk(w, s, k);
    }
    forall x | x in t.flight && x.hop == 0 ensures Untouched(t, x.serial) {
      if x != m {
        assert Legit(w, s, x) && Untouched(s, x.serial);
      } else {
        assert forall y :: y in s.flight ==> Legit(w, s, y);
      }
    }
  }

  /** Taking a message out of flight keeps everything. */
  lemma DropKeeps(w: Mesh, s: Net, m: Msg)
    requires Inv(w, s)
    ensures Inv(w, s.(flight := s.flight - {m}))
  {
    var t := s.(flight := s.flight - {m});
    forall x | x in t.flight ensures Legit(w, t, x) && (x.hop == 0 ==> Untouched(t, x.serial)) {
      assert Legit(w, s, x);
      assert x.hop == 0 ==> Untouched(s, x.serial);
    }
    forall i | 0 <= i < |t.runs| ensures Accounted(w, t, t.runs[i]) {
      assert Accounted(w, s, s.runs[i]);
    }
    forall k | k in t.dialled ensures DialledOk(w, t, k) {
      assert DialledOk(w, s, k);
    }
  }

  /** The run a handled message causes is accounted for, and only an entry command of an operator fans out. */
  lemma RunIsAccounted(w: Mesh, s: Net, m: Msg, now: nat, budget: bool)
    requires Inv(w, s) && m in s.flight && m.dest in w.nodes
    requires Dispatch(w.nodes[m.dest], w.signed, m.cmd, m.sender, now, budget).Runs?
    ensures var d := Dispatch(w.nodes[m.dest], w.signed, m.cmd, m.sender, now, budget);
      && Accounted(w, s, QueryRun(m.dest, m.serial, m.hop, m.slot, d.operator, m.cmd.body.value.sql))
      && (d.fansOut ==> m.hop == 0 && m.sender in w.nodes[m.dest].operators && m.cmd.body.value.fanout)
  {
    assert Legit(w, s, m);
  }

  /** Another message in flight is for another entry, and another entry command has another serial number. */
  lemma OthersDiffer(w: Mesh, s: Net, m: Msg, x: Msg)
    requires Inv(w, s) && m in s.flight && x in s.flight && x != m
    ensures x.serial != m.serial || x.hop != m.hop || x.slot != m.slot
    ensures x.hop == 0 ==> x.serial != m.serial && Untouched(s, x.serial)
    ensures m.hop == 0 ==> x.serial != m.serial
  {
    assert Legit(w, s, m) && Legit(w, s, x);
    assert m.hop == 0 ==> Untouched(s, m.serial);
    assert x.hop == 0 ==> Untouched(s, x.serial);
  }

  /** Handling that runs the query and dials nobody. */
  lemma RunKeeps(w: Mesh, s: Net, m: Msg, r: QueryRun)
    requires Inv(w, s) && m in s.flight && Accounted(w, s, r) && SameSlot(r, m.serial, m.hop, m.slot)
    ensures Inv(w, Net(s.injected, s.flight - {m}, s.runs + [r], s.dialled))
  {
    var t := Net(s.injected, s.flight - {m}, s.runs + [r], s.dialled);
    forall x | x in t.flight
      ensures Legit(w, t, x) && (x.hop == 0 ==> Untouched(t, x.serial)) && !SameSlot(r, x.serial, x.hop, x.slot)
    {
      assert Legit(w, s, x);
      OthersDiffer(w, s, m, x);
    }
    forall i | 0 <= i < |t.runs| ensures Accounted(w, t, t.runs[i]) {
      assert i < |s.runs| ==> Accounted(w, s, s.runs[i]);
    }
    forall k | k in t.dialled ensures DialledOk(w, t, k) {
      assert DialledOk(w, s, k);
    }
  }

  /** Dialling the peers adds copies of an entry command nothing stemmed from yet. */
  lemma DialKeeps(w: Mesh, s: Net, m: Msg, r: QueryRun, targets: seq<Fp>)
    requires Inv(w, s) && m in s.flight && m.hop == 0 && Accounted(w, s, r) && SameSlot(r, m.serial, m.hop, m.slot)
    requires m.cmd.body.Some? && forall p :: p in targets ==> Within(w, m, p, 1)
    ensures Inv(w, FannedOut(s, m, r, targets))
  {
    RunKeeps(w, s, m, r);
    var u, t := Net(s.injected, s.flight - {m}, s.runs + [r], s.dialled), FannedOut(s, m, r, targets);
    assert Legit(w, s, m) && Untouched(s, m.serial);
    assert Dialled(t, m.serial) == targets;
    forall x | x in t.flight
      ensures Legit(w, t, x) && (x.hop == 0 ==> Untouched(t, x.serial))
      ensures forall i :: 0 <= i < |t.runs| ==> !SameSlot(t.runs[i], x.serial, x.hop, x.slot)
    {
      if x in Relayed(m, targets) {
        var i :| 0 <= i < |targets| && x == RelayMsg(m, targets[i], i);
        assert targets[i] in targets;
      } else {
        assert x in u.flight && Legit(w, u, x);
        OthersDiffer(w, s, m, x);
        assert x.hop == 0 ==> Untouched(u, x.serial);
      }
    }
    forall i | 0 <= i < |t.runs| ensures Accounted(w, t, t.runs[i]) {
      assert Accounted(w, u, u.runs[i]);
      assert t.runs[i].serial != m.serial ==> Dialled(t, t.runs[i].serial) == Dialled(u, t.runs[i].serial);
      assert i < |s.runs| ==> s.runs[i].serial != m.serial;
    }
    forall k | k in t.dialled ensures DialledOk(w, t, k) {
      assert k != m.serial ==> DialledOk(w, s, k);
    }
    OnceKept(s, m, r, targets);
  }

  lemma OnceKept(s: Net, m: Msg, r: QueryRun, targets: seq<Fp>)
    requires m.cmd.body.Some? && Once(Net(s.injected, s.flight - {m}, s.runs + [r], s.dialled))
    requires forall x, i :: x in FannedOut(s, m, r, targets).flight && 0 <= i < |s.runs + [r]| ==>
      !SameSlot((s.runs + [r])[i], x.serial, x.hop, x.slot)
    ensures Once(FannedOut(s, m, r, targets))
  {
  }

  lemma NextKeeps(w: Mesh, s: Net, step: Step)
    requires Inv(w, s) && Enabled(w, s, step)
    ensures Inv(w, Next(w, s, step))
  {
    match step
    case Inject(m) => InjectKeeps(w, s, m);
    case Lose(m) => DropKeeps(w, s, m);
    case Handle(m, now, budget, succeeds, listed) =>
      var n := w.nodes[m.dest];
      var d := Dispatch(n, w.signed, m.cmd, m.sender, now, budget);
      if d.Runs? {
        RunIsAccounted(w, s, m, now, budget);
        var query := m.cmd.body.value;
        var run := QueryRun(m.dest, m.serial, m.hop, m.slot, d.operator, query.sql);
        if d.fansOut && succeeds {
          TargetsAre(n, m.dest, query.peers, listed);
          DialKeeps(w, s, m, run, Targets(n, m.dest, query.peers, listed));
        } else {
          RunKeeps(w, s, m, run);
        }
      } else {
        DropKeeps(w, s, m);
      }
  }

  lemma {:induction false} InvAlways(w: Mesh, h: History, n: nat)
    requires IsHistory(w, h) && n < |h.nets|
    ensures Inv(w, h.nets[n])
  {
    if n > 0 {
      InvAlways(w, h, n - 1);
      assert StepAt(w, h, n - 1);
      NextKeeps(w, h.nets[n - 1], h.steps[n - 1]);
    }
  }

  /** Fan-out is one hop. In every run of honest agents, whatever outsiders send them: an injected query runs only at
      the agent it was sent to and, when an operator of that agent asked for a fan-out, for entries of its peer list
      that it pins and the filter lets through, at most once per entry; always with the text that was sent, and always
      for an operator configured where it runs that sent or signed it. */
  lemma FanoutIsOneHop(w: Mesh, h: History, s: Net, i: nat)
    requires IsHistory(w, h) && s in h.nets && i < |s.runs|
    ensures s.runs[i].serial < |s.injected| && s.runs[i].hop <= 1
    ensures Within(w, s.injected[s.runs[i].serial], s.runs[i].agent, s.runs[i].hop)
    ensures Slotted(s, s.runs[i].serial, s.runs[i].hop, s.runs[i].slot, s.runs[i].agent)
    ensures s.runs[i].sql == s.injected[s.runs[i].serial].cmd.body.value.sql
    ensures s.runs[i].agent in w.nodes && s.runs[i].operator in w.nodes[s.runs[i].agent].operators
    ensures Commissioned(w, s.injected[s.runs[i].serial], s.runs[i])
    ensures forall j :: 0 <= j < |s.runs| && j != i ==>
      !SameSlot(s.runs[j], s.runs[i].serial, s.runs[i].hop, s.runs[i].slot)
  {
    var n :| 0 <= n < |h.nets| && h.nets[n] == s;
    InvAlways(w, h, n);
    assert Accounted(w, s, s.runs[i]);
  }

  function RunsOf(runs: seq<QueryRun>, serial: nat): seq<QueryRun>
  {
    if runs == [] then []
    else RunsOf(runs[..|runs| - 1], serial) + if runs[|runs| - 1].serial == serial then [runs[|runs| - 1]] else []
  }

  lemma {:induction false} RunsOfAre(runs: seq<QueryRun>, serial: nat)
    requires forall i, j :: 0 <= i < j < |runs| ==> !SameSlot(runs[i], runs[j].serial, runs[j].hop, runs[j].slot)
    ensures forall r :: r in RunsOf(runs, serial) ==> r in runs && r.serial == serial
    ensures forall i, j :: 0 <= i < j < |RunsOf(runs, serial)| ==>
      RunsOf(runs, serial)[i].hop != RunsOf(runs, serial)[j].hop ||
        RunsOf(runs, serial)[i].slot != RunsOf(runs, serial)[j].slot
  {
    if runs != [] {
      var front, last := runs[..|runs| - 1], runs[|runs| - 1];
      RunsOfAre(front, serial);
      assert forall r :: r in front ==> r in runs;
      forall r | r in RunsOf(front, serial) ensures !SameSlot(r, last.serial, last.hop, last.slot) {
        var i :| 0 <= i < |front| && front[i] == r;
        assert runs[i] == r;
      }
    }
  }

  function Places(rs: seq<QueryRun>): seq<(nat, nat)>
  {
    seq(|rs|, i requires 0 <= i < |rs| => (rs[i].hop, rs[i].slot))
  }

  /** The entry itself and the first `n` entries of a list. */
  function Pool(n: nat): set<(nat, nat)>
  {
    if n == 0 then {(0, 0)} else Pool(n - 1) + {(1, n - 1)}
  }

  lemma {:induction false} PoolIs(n: nat)
    ensures |Pool(n)| == n + 1 && forall x :: x in Pool(n) <==> x == (0, 0) || (x.0 == 1 && x.1 < n)
  {
    if n > 0 {
      PoolIs(n - 1);
    }
  }

  function AgentsOf(rs: seq<QueryRun>): seq<Fp>
  {
    seq(|rs|, i requires 0 <= i < |rs| => rs[i].agent)
  }

  /** Amplification: one injected command causes at most one query more than its entry agent dialled list entries; and
      when no peer was listed twice, at most one at each agent and at most one more than the entry agent has pins. */
  lemma AmplificationIsBounded(w: Mesh, h: History, s: Net, serial: nat)
    requires IsHistory(w, h) && s in h.nets && serial < |s.injected|
    ensures s.injected[serial].dest in w.nodes
    ensures |RunsOf(s.runs, serial)| <= 1 + |Dialled(s, serial)|
    ensures NoDup(Dialled(s, serial)) ==>
      && NoDup(AgentsOf(RunsOf(s.runs, serial)))
      && |RunsOf(s.runs, serial)| <= 1 + |w.nodes[s.injected[serial].dest].pins|
  {
    var n :| 0 <= n < |h.nets| && h.nets[n] == s;
    InvAlways(w, h, n);
    RunsOfAre(s.runs, serial);
    EntriesBound(w, s, serial);
    if NoDup(Dialled(s, serial)) {
      AgentsBound(w, s, serial);
    }
  }

  lemma EntriesBound(w: Mesh, s: Net, serial: nat)
    requires Inv(w, s) && serial < |s.injected|
    ensures |RunsOf(s.runs, serial)| <= 1 + |Dialled(s, serial)|
  {
    RunsOfAre(s.runs, serial);
    var rs := RunsOf(s.runs, serial);
    PoolIs(|Dialled(s, serial)|);
    forall x | x in Places(rs) ensures x in Pool(|Dialled(s, serial)|) {
      var i :| 0 <= i < |rs| && Places(rs)[i] == x;
      assert rs[i] in rs && Accounted(w, s, rs[i]);
    }
    NoDupFits(Places(rs), Pool(|Dialled(s, serial)|));
  }

  lemma AgentsBound(w: Mesh, s: Net, serial: nat)
    requires Inv(w, s) && serial < |s.injected| && NoDup(Dialled(s, serial)) && s.injected[serial].dest in w.nodes
    ensures NoDup(AgentsOf(RunsOf(s.runs, serial)))
    ensures |RunsOf(s.runs, serial)| <= 1 + |w.nodes[s.injected[serial].dest].pins|
  {
    RunsOfAre(s.runs, serial);
    var rs, entry := RunsOf(s.runs, serial), s.injected[serial].dest;
    forall i | 0 <= i < |rs| ensures Accounted(w, s, rs[i]) && rs[i].serial == serial {
      assert rs[i] in rs;
    }
    forall i, j | 0 <= i < j < |rs| ensures rs[i].agent != rs[j].agent {
      assert Accounted(w, s, rs[i]) && Accounted(w, s, rs[j]);
    }
    forall a | a in AgentsOf(rs) ensures a in {entry} + w.nodes[entry].pins {
      var i :| 0 <= i < |rs| && rs[i].agent == a;
    }
    NoDupFits(AgentsOf(rs), {entry} + w.nodes[entry].pins);
  }

  // -- Listed twice, run twice ------------------------------------------------------------------------------

  /** Agent 0 pins agent 1, both trust operator 9, which authorised the query. */
  function Pair(): Mesh
  {
    Mesh(map[0 := Node({9}, {1}, true, true), 1 := Node({9}, {}, true, true)],
      {A.Signed(9, 0, "q", Sql("", false, []), 0)})
  }

  function PairQuery(): Msg
  {
    Msg(0, 9, Command("q", A.Given(A.Auth(32, 9, 32, Sql("", false, []), 64, 0, "q", 0)), Some(Sql("", true, []))), 0,
      0, 0)
  }

  lemma {:induction false} TwiceListed(n: Node, listed: seq<Fp>, i: nat, j: nat)
    requires i < j < |listed| && listed[i] == listed[j] == 1 && n.pins == {1}
    ensures var t := Targets(n, 0, [], listed); |t| >= 2 && t[0] == t[1] == 1
    decreases |listed|
  {
    if i > 0 {
      TwiceListed(n, listed[1..], i - 1, j - 1);
      OnlyOnes(n, listed);
    } else {
      OnlyOnes(n, listed);
      OnlyOnes(n, listed[1..]);
      TargetsAre(n, 0, [], listed[1..]);
      assert listed[1..][j - 1] == 1;
    }
  }

  lemma OnlyOnes(n: Node, listed: seq<Fp>)
    requires n.pins == {1}
    ensures forall k :: 0 <= k < |Targets(n, 0, [], listed)| ==> Targets(n, 0, [], listed)[k] == 1
  {
    TargetsAre(n, 0, [], listed);
    var t := Targets(n, 0, [], listed);
    assert forall k :: 0 <= k < |t| ==> t[k] in t;
  }

  lemma PairRuns(listed: seq<Fp>)
    ensures Dispatch(Pair().nodes[0], Pair().signed, PairQuery().cmd, 9, 0, true) == Runs(9, true)
    ensures Dispatch(Pair().nodes[1], Pair().signed, RelayMsg(PairQuery(), 1, 0).cmd, 0, 0, true) == Runs(9, false)
  {
  }

  /** The bound on agents needs the list to be free of duplicates: however a list names agent 1 twice, there is a run
      in which one query of an operator runs twice at agent 1, which is more than its one pin allows. */
  lemma DuplicateListingRunsTwice(listed: seq<Fp>, i: nat, j: nat) returns (h: History)
    requires i < j < |listed| && listed[i] == listed[j] == 1
    ensures IsHistory(Pair(), h) && |h.nets| == 5
    ensures var s := h.nets[4];
      && |s.runs| == 3 && s.runs[1].serial == s.runs[2].serial == 0 && s.runs[1].agent == s.runs[2].agent == 1
  {
    var w, q := Pair(), PairQuery();
    var n := w.nodes[0];
    TwiceListed(n, listed, i, j);
    PairRuns(listed);
    var t := Targets(n, 0, [], listed);
    var x, y := RelayMsg(q, 1, 0), RelayMsg(q, 1, 1);
    var a := Next(w, SILENT_MESH, Inject(q));
    var b := Next(w, a, Handle(q, 0, true, true, listed));
    assert b == FannedOut(a, q, QueryRun(0, 0, 0, 0, 9, ""), t);
    assert x == RelayMsg(q, t[0], 0) && y == RelayMsg(q, t[1], 1) && x in b.flight && y in b.flight;
    var c := Next(w, b, Handle(x, 0, true, true, []));
    assert c.flight == b.flight - {x} && c.runs == b.runs + [QueryRun(1, 0, 1, 0, 9, "")];
    var d := Next(w, c, Handle(y, 0, true, true, []));
    assert d.runs == c.runs + [QueryRun(1, 0, 1, 1, 9, "")];
    h := History([SILENT_MESH, a, b, c, d],
                 [Inject(q), Handle(q, 0, true, true, listed), Handle(x, 0, true, true, []),
                   Handle(y, 0, true, true, [])]);
    assert StepAt(w, h, 0) && StepAt(w, h, 1) && StepAt(w, h, 2) && StepAt(w, h, 3);
  }
}
