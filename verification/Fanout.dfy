/**
 The answer to an operator query on its way back (`operator.rs`): an agent's own rows in chunks, the peers' replies as
 a relay passes them on, and the marker that ends a fan-out.
 */
module Fanout {
  import opened Basics

  type Fp = nat

  // -- The answer stream -------------------------------------------------------------------------------

  const SQL_CHUNK_ROW_LIMIT := 256

  datatype Row = Row(columns: seq<string>, values: seq<string>)

  /** What an agent seals for the operator; `agent` is empty only in the fan-out terminator. */
  datatype Reply =
    | Chunk(columns: seq<string>, rows: seq<Row>, end: bool, agent: Option<Fp>, signer: Fp)
    | Error(kind: string, signer: Fp)

  predicate Closing(r: Reply)
  {
    r.Error? || r.end
  }

  function RowsOf(cs: seq<Reply>): seq<Row>
  {
    if cs == [] then []
    else RowsOf(cs[..|cs| - 1]) + if cs[|cs| - 1].Chunk? then cs[|cs| - 1].rows else []
  }

  function ColumnsOf(rows: seq<Row>): seq<string>
  {
    if rows == [] then [] else rows[0].columns
  }

  /** The `i`-th chunk of `n` that carry `rows` for `agent`. */
  predicate FrameOk(r: Reply, i: nat, n: nat, agent: Fp, rows: seq<Row>)
  {
    && r.Chunk? && r.agent == Some(agent) && r.signer == agent
    && (r.end <==> i == n - 1)
    && r.columns == (if i == 0 then ColumnsOf(rows) else [])
    && |r.rows| <= SQL_CHUNK_ROW_LIMIT
    && (i < n - 1 ==> |r.rows| == SQL_CHUNK_ROW_LIMIT)
    && (rows != [] ==> r.rows != [])
  }

  /** One agent's whole answer: its rows in order, columns on the first chunk only, `end` on the last chunk only,
      every chunk full but the last. */
  predicate Framed(cs: seq<Reply>, agent: Fp, rows: seq<Row>)
  {
    && |cs| > 0 && RowsOf(cs) == rows
    && forall i :: 0 <= i < |cs| ==> FrameOk(cs[i], i, |cs|, agent, rows)
  }

  lemma RowsOfAppend(cs: seq<Reply>, r: Reply)
    ensures RowsOf(cs + [r]) == RowsOf(cs) + if r.Chunk? then r.rows else []
  {
    assert (cs + [r])[..|cs|] == cs;
  }

  /** Stream an agent's own rows. */
  method StreamRows(rows: seq<Row>, self: Fp) returns (cs: seq<Reply>)
    ensures Framed(cs, self, rows)
  {
    var columns := ColumnsOf(rows);
    if rows == [] {
      cs := [Chunk(columns, [], true, Some(self), self)];
      assert cs[..0] == [];
      return;
    }
    cs := [];
    var sent := 0;
    while sent < |rows|
      invariant 0 <= sent <= |rows| && RowsOf(cs) == rows[..sent]
      invariant sent < |rows| ==> sent == |cs| * SQL_CHUNK_ROW_LIMIT
      invariant forall i :: 0 <= i < |cs| ==>
          FrameOk(cs[i], i, if sent == |rows| then |cs| else |cs| + 1, self, rows)
      invariant sent == |rows| ==> |cs| > 0
      decreases |rows| - sent
    {
      var take := Min(SQL_CHUNK_ROW_LIMIT, |rows| - sent);
      var chunk := Chunk(if sent == 0 then columns else [], rows[sent..sent + take], sent + take == |rows|,
        Some(self), self);
      RowsOfAppend(cs, chunk);
      assert rows[..sent] + rows[sent..sent + take] == rows[..sent + take];
      cs := cs + [chunk];
      sent := sent + take;
    }
    assert rows[..sent] == rows;
  }

  lemma {:induction false} RowsOfLength(cs: seq<Reply>, agent: Fp, rows: seq<Row>, n: nat, k: nat)
    requires n == |cs| > 0 && k < n && forall i :: 0 <= i < n ==> FrameOk(cs[i], i, n, agent, rows)
    ensures |RowsOf(cs[..k])| == k * SQL_CHUNK_ROW_LIMIT && cs[k].Chunk?
    ensures RowsOf(cs[..k + 1]) == RowsOf(cs[..k]) + cs[k].rows
  {
    assert cs[..k + 1][..k] == cs[..k];
    if k > 0 {
      RowsOfLength(cs, agent, rows, n, k - 1);
    }
  }

  lemma RowsAt(cs: seq<Reply>, agent: Fp, rows: seq<Row>, k: nat)
    requires Framed(cs, agent, rows) && k < |cs|
    ensures k * SQL_CHUNK_ROW_LIMIT + |cs[k].rows| <= |rows|
    ensures cs[k].rows == rows[k * SQL_CHUNK_ROW_LIMIT..k * SQL_CHUNK_ROW_LIMIT + |cs[k].rows|]
    ensures k == |cs| - 1 ==> k * SQL_CHUNK_ROW_LIMIT + |cs[k].rows| == |rows|
  {
    RowsOfLength(cs, agent, rows, |cs|, k);
    RowsOfPrefix(cs, k + 1);
    assert cs[..|cs|] == cs;
  }

  lemma {:induction false} RowsOfPrefix(cs: seq<Reply>, k: nat)
    requires k <= |cs|
    ensures |RowsOf(cs[..k])| <= |RowsOf(cs)| && RowsOf(cs[..k]) == RowsOf(cs)[..|RowsOf(cs[..k])|]
  {
    if k == |cs| {
      assert cs[..k] == cs;
    } else {
      var front := cs[..|cs| - 1];
      RowsOfPrefix(front, k);
      assert front[..k] == cs[..k];
    }
  }

  /** The framing is determined by the agent and its rows. */
  lemma FramingIsUnique(a: seq<Reply>, b: seq<Reply>, agent: Fp, rows: seq<Row>)
    requires Framed(a, agent, rows) && Framed(b, agent, rows)
    ensures a == b
  {
    RowsAt(a, agent, rows, |a| - 1);
    RowsAt(b, agent, rows, |b| - 1);
    assert |a| == |b|;
    forall k | 0 <= k < |a| ensures a[k] == b[k] {
      RowsAt(a, agent, rows, k);
      RowsAt(b, agent, rows, k);
    }
  }

  // -- One peer's leg of the fan-out ---------------------------------------------------------------------

  /** What comes back from a dialled peer: envelopes, or nothing more (a broken connection or the timeout). */
  datatype Heard = Envelope(claims: Fp, reply: Reply) | Broken

  /** A leg closes exactly once, at its end: with the peer's own last reply, or with a failure. */
  predicate ClosesOnce(leg: seq<Option<Reply>>)
  {
    && |leg| > 0
    && forall i :: 0 <= i < |leg| ==> ((leg[i] == None || Closing(leg[i].value)) <==> i == |leg| - 1)
  }

  /** Pass on what the peer sends until it closes its stream; a failed dial, a broken connection, a timeout or an
      envelope that claims another sender ends the leg with a failure. */
  method RunPeerQuery(peer: Fp, dialled: bool, heard: seq<Heard>) returns (leg: seq<Option<Reply>>)
    ensures ClosesOnce(leg)
    ensures forall i :: 0 <= i < |leg| && leg[i].Some? ==>
      dialled && i < |heard| && heard[i] == Envelope(peer, leg[i].value)
    ensures leg[|leg| - 1] == None <==>
      !dialled || forall n :: 0 <= n < |heard| && Closes(peer, heard[n]) ==>
        exists m :: 0 <= m < n && !Usable(peer, heard[m])
    ensures leg[|leg| - 1] == None && dialled ==>
      |leg| - 1 == |heard| || (|leg| - 1 < |heard| && !Usable(peer, heard[|leg| - 1]))
  {
    leg := [];
    if !dialled {
      return [None];
    }
    var i := 0;
    while i < |heard|
      invariant 0 <= i <= |heard| && |leg| == i
      invariant forall j :: 0 <= j < i ==> Usable(peer, heard[j]) && !Closes(peer, heard[j])
      invariant forall j :: 0 <= j < i ==> leg[j].Some? && heard[j] == Envelope(peer, leg[j].value)
    {
      if heard[i].Broken? || heard[i].claims != peer {
        assert !Usable(peer, heard[i]);
        return leg + [None];
      }
      leg := leg + [Some(heard[i].reply)];
      if Closing(heard[i].reply) {
        assert Closes(peer, heard[i]);
        return;
      }
      i := i + 1;
    }
    leg := leg + [None];
  }

  predicate Usable(peer: Fp, h: Heard)
  {
    h.Envelope? && h.claims == peer
  }

  predicate Closes(peer: Fp, h: Heard)
  {
    Usable(peer, h) && Closing(h.reply)
  }

  // -- The whole answer ----------------------------------------------------------------------------------

  /** What one peer task passed to the relay: which entry of the peer list it serves, the peer, and a reply or a
      failure. */
  datatype Arrival = Arrival(task: nat, peer: Fp, outcome: Option<Reply>)

  /** A failed leg becomes a relay-signed empty chunk that closes the peer's stream; everything else passes unchanged.
      */
  function Forward(a: Arrival, self: Fp): Reply
  {
    ForwardOne(a.peer, a.outcome, self)
  }

  function ForwardOne(peer: Fp, outcome: Option<Reply>, self: Fp): Reply
  {
    match outcome
    case Some(r) => r
    case None => Chunk([], [], true, Some(peer), self)
  }

  function Terminator(self: Fp): Reply
  {
    Chunk([], [], true, None, self)
  }

  datatype Engine = NoEngine | Failed(kind: string) | Answered(rows: seq<Row>)

  /** The three phases of an answer: own rows, the peers' replies as they arrive, and the terminator. A query that
      fails locally is a single error. */
  method StreamSqlResponse(engine: Engine, fanout: bool, arrivals: Option<seq<Arrival>>,
      self: Fp) returns (out: seq<Reply>)
    ensures engine == NoEngine ==> out == [Error("policy_denied", self)]
    ensures engine.Failed? ==> out == [Error(engine.kind, self)]
    ensures engine.Answered? ==>
      exists own ::
        && Framed(own, self, engine.rows)
        && out == Answer(own, if arrivals.Some? then arrivals.value else [], fanout, self)
  {
    match engine
    case NoEngine => return [Error("policy_denied", self)];
    case Failed(kind) => return [Error(kind, self)];
    case Answered(rows) =>
      var own := StreamRows(rows, self);
      out := own;
      if fanout && arrivals.Some? {
        var i := 0;
        while i < |arrivals.value|
          invariant 0 <= i <= |arrivals.value|
          invariant out == own + Forwarded(arrivals.value[..i], self)
        {
          out := out + [Forward(arrivals.value[i], self)];
          i := i + 1;
        }
        assert arrivals.value[..i] == arrivals.value;
      }
      if fanout {
        out := out + [Terminator(self)];
      }
      assert out == Answer(own, if arrivals.Some? then arrivals.value else [], fanout, self);
  }

  function Forwarded(arrivals: seq<Arrival>, self: Fp): (out: seq<Reply>)
    ensures |out| == |arrivals|
  {
    seq(|arrivals|, i requires 0 <= i < |arrivals| => Forward(arrivals[i], self))
  }

  function Answer(own: seq<Reply>, arrivals: seq<Arrival>, fanout: bool, self: Fp): seq<Reply>
  {
    if fanout then own + Forwarded(arrivals, self) + [Terminator(self)] else own
  }

  /** Whom a reply speaks for: the agent it names, or the signer of an error; the terminator speaks for nobody. */
  function About(r: Reply): Option<Fp>
  {
    match r
    case Chunk(_, _, _, agent, _) => agent
    case Error(_, signer) => Some(signer)
  }

  /** The part of the stream that speaks for one agent. */
  function Of(out: seq<Reply>, who: Fp): seq<Reply>
  {
    if out == [] then []
    else Of(out[..|out| - 1], who) + if About(out[|out| - 1]) == Some(who) then [out[|out| - 1]] else []
  }

  /** What came from one peer, through whichever tasks. */
  function Leg(arrivals: seq<Arrival>, p: Fp): seq<Option<Reply>>
  {
    if arrivals == [] then []
    else
      var last := arrivals[|arrivals| - 1];
      Leg(arrivals[..|arrivals| - 1], p) + if last.peer == p then [last.outcome] else []
  }

  /** What came through one task. */
  function TaskLeg(arrivals: seq<Arrival>, task: nat): seq<Option<Reply>>
  {
    if arrivals == [] then []
    else
      var last := arrivals[|arrivals| - 1];
      TaskLeg(arrivals[..|arrivals| - 1], task) + if last.task == task then [last.outcome] else []
  }

  lemma {:induction false} OfConcat(a: seq<Reply>, b: seq<Reply>, who: Fp)
    ensures Of(a + b, who) == Of(a, who) + Of(b, who)
  {
    if b == [] {
      assert a + b == a;
    } else {
      assert (a + b)[..|a + b| - 1] == a + b[..|b| - 1];
      OfConcat(a, b[..|b| - 1], who);
    }
  }

  lemma {:induction false} OfUniform(a: seq<Reply>, who: Fp, about: Option<Fp>)
    requires forall i :: 0 <= i < |a| ==> About(a[i]) == about
    ensures Of(a, who) == if about == Some(who) then a else []
  {
    if a != [] {
      OfUniform(a[..|a| - 1], who, about);
      assert a[..|a| - 1] + [a[|a| - 1]] == a;
    }
  }

  /** A leg as the operator sees it. */
  function ForwardLeg(leg: seq<Option<Reply>>, p: Fp, self: Fp): seq<Reply>
  {
    seq(|leg|, i requires 0 <= i < |leg| => ForwardOne(p, leg[i], self))
  }

  /** Honest peers speak only for themselves. */
  predicate OwnReplies(arrivals: seq<Arrival>)
  {
    forall i :: 0 <= i < |arrivals| && arrivals[i].outcome.Some? ==>
      About(arrivals[i].outcome.value) == Some(arrivals[i].peer)
  }

  lemma {:induction false} ForwardedOf(arrivals: seq<Arrival>, self: Fp, p: Fp)
    requires OwnReplies(arrivals)
    ensures Of(Forwarded(arrivals, self), p) == ForwardLeg(Leg(arrivals, p), p, self)
  {
    if arrivals != [] {
      var n := |arrivals| - 1;
      ForwardedOf(arrivals[..n], self, p);
      assert Forwarded(arrivals, self)[..n] == Forwarded(arrivals[..n], self);
    }
  }

  /** However the replies interleave: the dialled peers are others, one task per entry of the list, and each task's
      replies are one leg. */
  predicate Interleaved(arrivals: seq<Arrival>, self: Fp, peers: seq<Fp>)
  {
    && OwnReplies(arrivals) && self !in peers && FromTasks(arrivals, peers)
    && (forall j :: 0 <= j < |peers| ==> ClosesOnce(TaskLeg(arrivals, j)))
  }

  predicate FromTasks(arrivals: seq<Arrival>, peers: seq<Fp>)
  {
    forall i :: 0 <= i < |arrivals| ==> arrivals[i].task < |peers| && peers[arrivals[i].task] == arrivals[i].peer
  }

  predicate Ends(outcome: Option<Reply>)
  {
    outcome == None || Closing(outcome.value)
  }

  function Endings(leg: seq<Option<Reply>>): nat
  {
    if leg == [] then 0 else Endings(leg[..|leg| - 1]) + if Ends(leg[|leg| - 1]) then 1 else 0
  }

  lemma {:induction false} NoEndings(leg: seq<Option<Reply>>)
    requires forall i :: 0 <= i < |leg| ==> !Ends(leg[i])
    ensures Endings(leg) == 0
  {
    if leg != [] {
      NoEndings(leg[..|leg| - 1]);
    }
  }

  lemma OneEnding(leg: seq<Option<Reply>>)
    requires ClosesOnce(leg)
    ensures Endings(leg) == 1
  {
    NoEndings(leg[..|leg| - 1]);
  }

  /** The endings of the tasks among the first `n` that serve `p`. */
  function TaskEndings(arrivals: seq<Arrival>, peers: seq<Fp>, p: Fp, n: nat): nat
    requires n <= |peers|
  {
    if n == 0 then 0
    else TaskEndings(arrivals, peers, p, n - 1) + if peers[n - 1] == p then Endings(TaskLeg(arrivals, n - 1)) else 0
  }

  lemma {:induction false} TaskEndingsNext(arrivals: seq<Arrival>, a: Arrival, peers: seq<Fp>, p: Fp, n: nat)
    requires n <= |peers|
    ensures TaskEndings(arrivals + [a], peers, p, n) == TaskEndings(arrivals, peers, p, n)
         + if a.task < n && peers[a.task] == p && Ends(a.outcome) then 1 else 0
  {
    if n > 0 {
      TaskEndingsNext(arrivals, a, peers, p, n - 1);
      TaskLegNext(arrivals, a, n - 1);
    }
  }

  lemma TaskLegNext(arrivals: seq<Arrival>, a: Arrival, task: nat)
    ensures TaskLeg(arrivals + [a], task) == TaskLeg(arrivals, task) + (if a.task == task then [a.outcome] else [])
    ensures Endings(TaskLeg(arrivals + [a], task)) == Endings(TaskLeg(arrivals, task)) + if a.task == task &&
      Ends(a.outcome) then 1 else 0
  {
    assert (arrivals + [a])[..|arrivals|] == arrivals;
    var leg := TaskLeg(arrivals, task);
    assert (leg + [a.outcome])[..|leg|] == leg && leg + [] == leg;
  }

  lemma {:induction false} NoTaskEndings(peers: seq<Fp>, p: Fp, n: nat)
    requires n <= |peers|
    ensures TaskEndings([], peers, p, n) == 0
  {
    if n > 0 {
      NoTaskEndings(peers, p, n - 1);
    }
  }

  /** What a peer's replies end is what its tasks end. */
  lemma {:induction false} EndingsAreTaskEndings(arrivals: seq<Arrival>, peers: seq<Fp>, p: Fp)
    requires FromTasks(arrivals, peers)
    ensures Endings(Leg(arrivals, p)) == TaskEndings(arrivals, peers, p, |peers|)
  {
    if arrivals == [] {
      NoTaskEndings(peers, p, |peers|);
    } else {
      var front, a := arrivals[..|arrivals| - 1], arrivals[|arrivals| - 1];
      EndingsAreTaskEndings(front, peers, p);
      TaskEndingsNext(front, a, peers, p, |peers|);
      assert front + [a] == arrivals;
      var leg := Leg(front, p);
      assert (leg + [a.outcome])[..|leg|] == leg && leg + [] == leg;
    }
  }

  lemma {:induction false} OneEndingEach(arrivals: seq<Arrival>, peers: seq<Fp>, p: Fp, n: nat)
    requires n <= |peers| && forall j :: 0 <= j < |peers| ==> ClosesOnce(TaskLeg(arrivals, j))
    ensures TaskEndings(arrivals, peers, p, n) == multiset(peers[..n])[p]
  {
    if n > 0 {
      OneEndingEach(arrivals, peers, p, n - 1);
      OneEnding(TaskLeg(arrivals, n - 1));
      assert peers[..n] == peers[..n - 1] + [peers[n - 1]];
    }
  }

  /** A peer that is listed once has one task. */
  lemma {:induction false} OneTask(arrivals: seq<Arrival>, peers: seq<Fp>, j: nat)
    requires FromTasks(arrivals, peers) && j < |peers| && forall i :: 0 <= i < |peers| && peers[i] == peers[j] ==>
      i == j
    ensures Leg(arrivals, peers[j]) == TaskLeg(arrivals, j)
  {
    if arrivals != [] {
      OneTask(arrivals[..|arrivals| - 1], peers, j);
    }
  }

  lemma AnswerOf(own: seq<Reply>, rows: seq<Row>, self: Fp, fanout: bool, arrivals: seq<Arrival>, p: Fp)
    requires Framed(own, self, rows) && OwnReplies(arrivals)
    ensures Of(Answer(own, arrivals, fanout, self), p) ==
      (if p == self then own else []) + (if fanout then ForwardLeg(Leg(arrivals, p), p, self) else [])
  {
    assert Of(own, p) == if p == self then own else [] by {
      OfUniform(own, p, Some(self));
    }
    if fanout {
      AnswerSplits(own, Forwarded(arrivals, self), self, p);
      ForwardedOf(arrivals, self, p);
    }
  }

  lemma AnswerSplits(own: seq<Reply>, mid: seq<Reply>, self: Fp, p: Fp)
    ensures Of(own + mid + [Terminator(self)], p) == Of(own, p) + Of(mid, p)
  {
    OfConcat(own + mid, [Terminator(self)], p);
    OfConcat(own, mid, p);
    OfUniform([Terminator(self)], p, None);
  }

  /** A well-framed fan-out answer. The relay's own rows come back whole; what speaks for a peer is what that peer
      sent, in order, and closes as often as the peer is listed; for a peer listed once that is one leg, which closes
      exactly once, at its end; nothing speaks for anyone else; and the empty-fingerprint terminator is there exactly
      when a fan-out was asked for, once, at the very end. */
  lemma FanoutStreamIsWellFramed(own: seq<Reply>, rows: seq<Row>, self: Fp, peers: seq<Fp>, fanout: bool,
      arrivals: seq<Arrival>)
    requires Framed(own, self, rows) && Interleaved(arrivals, self, peers)
    ensures var out := Answer(own, arrivals, fanout, self);
      && Of(out, self) == own
      && (forall p :: p != self ==> Of(out, p) == if fanout then ForwardLeg(Leg(arrivals, p), p, self) else [])
      && (forall p :: Endings(Leg(arrivals, p)) == multiset(peers)[p])
      && (fanout ==> forall j :: 0 <= j < |peers| && multiset(peers)[peers[j]] == 1 ==>
            Of(out, peers[j]) == ForwardLeg(TaskLeg(arrivals, j), peers[j], self) && ClosesAtTheEnd(Of(out, peers[j])))
      && (forall p :: p !in peers && p != self ==> Of(out, p) == [])
      && (forall i :: 0 <= i < |out| ==> (About(out[i]) == None <==> fanout && i == |out| - 1))
      && (fanout ==> out[|out| - 1] == Chunk([], [], true, None, self))
  {
    var out := Answer(own, arrivals, fanout, self);
    NoLeg(arrivals, peers, self);
    forall p ensures Of(out, p) ==
      (if p == self then own else []) + (if fanout then ForwardLeg(Leg(arrivals, p), p, self) else []) {
      AnswerOf(own, rows, self, fanout, arrivals, p);
    }
    forall p ensures Endings(Leg(arrivals, p)) == multiset(peers)[p] {
      EndingsAreTaskEndings(arrivals, peers, p);
      OneEndingEach(arrivals, peers, p, |peers|);
      assert peers[..|peers|] == peers;
    }
    forall j | 0 <= j < |peers| && multiset(peers)[peers[j]] == 1
      ensures Leg(arrivals, peers[j]) == TaskLeg(arrivals, j) &&
        ClosesAtTheEnd(ForwardLeg(TaskLeg(arrivals, j), peers[j], self))
    {
      ListedOnce(peers, j);
      OneTask(arrivals, peers, j);
      LegCloses(TaskLeg(arrivals, j), peers[j], self);
    }
    forall p | p !in peers && p != self ensures Of(out, p) == [] {
      NoLeg(arrivals, peers, p);
    }
    forall i | 0 <= i < |out| ensures About(out[i]) == None <==> fanout && i == |out| - 1 {
      MarkedAt(own, rows, self, fanout, arrivals, i);
    }
  }

  lemma ListedOnce(peers: seq<Fp>, j: nat)
    requires j < |peers| && multiset(peers)[peers[j]] == 1
    ensures forall i :: 0 <= i < |peers| && peers[i] == peers[j] ==> i == j
  {
    forall i | 0 <= i < |peers| && i != j ensures peers[i] != peers[j] {
      var rest := Remove(peers, j);
      assert peers == peers[..j] + ([peers[j]] + peers[j + 1..]);
      assert multiset(peers) == multiset(rest) + multiset{peers[j]};
      assert rest[if i < j then i else i - 1] == peers[i];
      assert peers[i] in multiset(rest);
    }
  }

  /** Peers need not be honest about whom they speak for, and the relay does not check: the marker that ends a fan-out
      is the only reply with an empty fingerprint exactly when no peer sent one. */
  lemma TerminatorIsUniqueExactlyWhen(own: seq<Reply>, rows: seq<Row>, self: Fp, arrivals: seq<Arrival>)
    requires Framed(own, self, rows)
    ensures var out := Answer(own, arrivals, true, self);
      && About(out[|out| - 1]) == None
      && ((forall i :: 0 <= i < |out| - 1 ==> About(out[i]) != None) <==>
            (forall i :: 0 <= i < |arrivals| && arrivals[i].outcome.Some? ==> About(arrivals[i].outcome.value) != None))
  {
    var out, n := Answer(own, arrivals, true, self), |own|;
    forall i | 0 <= i < |arrivals| ensures out[n + i] == Forward(arrivals[i], self) {
    }
    forall i | 0 <= i < n ensures About(out[i]) == Some(self) {
      assert out[i] == own[i] && FrameOk(own[i], i, n, self, rows);
    }
    if forall i :: 0 <= i < |out| - 1 ==> About(out[i]) != None {
      forall i | 0 <= i < |arrivals| && arrivals[i].outcome.Some? ensures About(arrivals[i].outcome.value) != None {
        assert About(out[n + i]) != None;
      }
    } else {
      var i :| 0 <= i < |out| - 1 && About(out[i]) == None;
      assert out[n + (i - n)] == Forward(arrivals[i - n], self);
    }
  }

  predicate ClosesAtTheEnd(cs: seq<Reply>)
  {
    |cs| > 0 && forall i :: 0 <= i < |cs| ==> (Closing(cs[i]) <==> i == |cs| - 1)
  }

  lemma LegCloses(leg: seq<Option<Reply>>, p: Fp, self: Fp)
    requires ClosesOnce(leg)
    ensures ClosesAtTheEnd(ForwardLeg(leg, p, self))
  {
  }

  /** A peer that answered with its rows is heard in full when its leg did not fail, and otherwise up to the failure,
      with an empty chunk of the relay's closing its stream. */
  lemma LegCarriesThePeersRows(stream: seq<Reply>, rows: seq<Row>, p: Fp, self: Fp, leg: seq<Option<Reply>>)
    requires Framed(stream, p, rows) && ClosesOnce(leg)
    requires forall i :: 0 <= i < |leg| && leg[i].Some? ==> i < |stream| && leg[i].value == stream[i]
    ensures leg[|leg| - 1].Some? ==> Framed(ForwardLeg(leg, p, self), p, rows)
    ensures leg[|leg| - 1] == None ==>
      |leg| - 1 < |stream| && ForwardLeg(leg, p, self) == stream[..|leg| - 1] + [Chunk([], [], true, Some(p), self)]
  {
    var n := |leg| - 1;
    if leg[n].Some? {
      assert FrameOk(stream[n], n, |stream|, p, rows);
      assert ForwardLeg(leg, p, self) == stream;
    } else {
      if n > 0 {
        assert leg[n - 1].Some? && !Closing(stream[n - 1]) && FrameOk(stream[n - 1], n - 1, |stream|, p, rows);
      }
      assert ForwardLeg(leg, p, self) == stream[..n] + [Chunk([], [], true, Some(p), self)];
    }
  }

  lemma MarkedAt(own: seq<Reply>, rows: seq<Row>, self: Fp, fanout: bool, arrivals: seq<Arrival>, i: nat)
    requires Framed(own, self, rows) && OwnReplies(arrivals) && i < |Answer(own, arrivals, fanout, self)|
    ensures var out := Answer(own, arrivals, fanout, self); About(out[i]) == None <==> fanout && i == |out| - 1
  {
    var out := Answer(own, arrivals, fanout, self);
    if i < |own| {
      assert out[i] == own[i] && FrameOk(own[i], i, |own|, self, rows);
    } else if fanout && i < |own| + |arrivals| {
      assert out[i] == Forward(arrivals[i - |own|], self);
    }
  }

  lemma {:induction false} NoLeg(arrivals: seq<Arrival>, peers: seq<Fp>, p: Fp)
    requires p !in peers && forall i :: 0 <= i < |arrivals| ==> arrivals[i].peer in peers
    ensures Leg(arrivals, p) == []
  {
    if arrivals != [] {
      NoLeg(arrivals[..|arrivals| - 1], peers, p);
    }
  }
}
