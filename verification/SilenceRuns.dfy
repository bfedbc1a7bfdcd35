/**
 Whole runs of a silence store (`silence_store.rs`): pushes with any content in any order, sweeps, decisions,
 restarts, writes that fail, and somebody editing the file. What is held was always signed; and what the file says
 agrees with memory from any successful rewrite on.
 */
module SilenceRuns {
  import opened Basics
  import opened SilenceStore

  /** The store, its file, and the clock of the last event. */
  datatype World = World(state: State, file: string, now: nat)

  /** Pushes arrive with any content and in any order, sweeps, decisions and restarts come at any time, and someone on
      the host may edit the file. */
  datatype Event = Push(r: Record, disk: Disk) | Sweep(disk: Disk) | Decide | Restart | Edit

  /** Whether an event changes what is held, and so rewrites the file. */
  predicate Rewrites(c: Config, s: State, e: Event, now: nat)
  {
    match e
    case Push(r, _) => AnswerTo(c, s, r, now) == Accepted(true)
    case Sweep(_) => Live(s.held, now) != s.held
    case _ => false
  }

  ghost predicate Step(c: Config, k: Codec, w: World, e: Event, w': World)
  {
    match e
    case Push(r, disk) =>
      && w'.state == AfterAccept(c, w.state, r, w'.now)
      && Written(k, w.file, w'.file, w'.state.meta, Rewrites(c, w.state, e, w'.now), disk)
    case Sweep(disk) =>
      && w'.state == AfterSweep(w.state, w'.now)
      && Written(k, w.file, w'.file, w'.state.meta, Rewrites(c, w.state, e, w'.now), disk)
    case Decide =>
      && w'.state == w.state.(counts := w'.state.counts) && w'.state.counts.Keys == w.state.counts.Keys
      && w'.file == w.file
    case Restart =>
      w'.state == Loaded(c, k, w.file, w'.now) && w'.file == w.file
    case Edit =>
      w'.state == w.state
  }

  datatype History = History(worlds: seq<World>, events: seq<Event>)

  ghost predicate Steps(c: Config, k: Codec, h: History, i: nat)
    requires |h.worlds| == |h.events| + 1 && i < |h.events|
  {
    Step(c, k, h.worlds[i], h.events[i], h.worlds[i + 1])
  }

  /** A run of an agent that starts with nothing in memory and any file. */
  ghost predicate IsHistory(c: Config, k: Codec, h: History)
  {
    && |h.worlds| == |h.events| + 1 && h.worlds[0].state == NOTHING
    && forall i :: 0 <= i < |h.events| ==> Steps(c, k, h, i)
  }

  /** The record came in at this event: pushed, or decoded from a line of the file at a restart. */
  predicate Offered(k: Codec, w: World, e: Event, r: Record)
  {
    match e
    case Push(q, _) => q == r
    case Restart => exists line :: line in Lines(w.file) && k.dec(Trim(line)) == Some(r)
    case _ => false
  }

  predicate AdmittedAt(c: Config, k: Codec, h: History, i: nat, r: Record)
    requires |h.worlds| == |h.events| + 1
  {
    i < |h.events| && Offered(k, h.worlds[i], h.events[i], r) && Verify(c, r, h.worlds[i + 1].now) == None
  }

  predicate Admitted(c: Config, k: Codec, h: History, n: nat, r: Record)
    requires |h.worlds| == |h.events| + 1
  {
    exists i :: 0 <= i < n && AdmittedAt(c, k, h, i, r)
  }

  predicate Traced(c: Config, k: Codec, h: History, n: nat)
    requires |h.worlds| == |h.events| + 1 && n < |h.worlds|
  {
    Agree(h.worlds[n].state) && AllAdmitted(c, k, h, n, h.worlds[n].state.meta)
  }

  predicate AllAdmitted(c: Config, k: Codec, h: History, n: nat, meta: map<Bytes, Record>)
    requires |h.worlds| == |h.events| + 1
  {
    forall id :: id in meta ==> Admitted(c, k, h, n, meta[id])
  }

  lemma {:induction false} LoadTraces(c: Config, k: Codec, lines: seq<string>, now: nat)
    ensures var s := LoadLines(c, k, lines, now);
      && Agree(s)
      && forall id :: id in s.meta ==> FromLine(c, k, lines, s.meta[id], now)
  {
    if lines != [] {
      var n := |lines| - 1;
      LoadTraces(c, k, lines[..n], now);
      var s, r := LoadLines(c, k, lines[..n], now), LineRecord(c, k, lines[n], now);
      var t := After(s, r);
      if r.Some? {
        InsertAgrees(s, r.value);
        assert FromLine(c, k, lines, r.value, now);
      }
      forall id | id in t.meta ensures FromLine(c, k, lines, t.meta[id], now) {
        if id in s.meta && t.meta[id] == s.meta[id] {
          assert FromLine(c, k, lines[..n], s.meta[id], now);
        }
      }
    }
  }

  predicate FromLine(c: Config, k: Codec, lines: seq<string>, r: Record, now: nat)
  {
    Verify(c, r, now) == None && exists line :: line in lines && k.dec(Trim(line)) == Some(r)
  }

  lemma AdmittedStays(c: Config, k: Codec, h: History, n: nat)
    requires |h.worlds| == |h.events| + 1 && n < |h.events| && Traced(c, k, h, n)
    ensures AllAdmitted(c, k, h, n + 1, h.worlds[n].state.meta)
  {
    var meta := h.worlds[n].state.meta;
    forall id | id in meta ensures Admitted(c, k, h, n + 1, meta[id]) {
      var i :| 0 <= i < n && AdmittedAt(c, k, h, i, meta[id]);
    }
  }

  lemma TracedPush(c: Config, k: Codec, h: History, n: nat)
    requires IsHistory(c, k, h) && n < |h.events| && Traced(c, k, h, n) && h.events[n].Push?
    ensures Traced(c, k, h, n + 1)
  {
    var w, r, w' := h.worlds[n], h.events[n].r, h.worlds[n + 1];
    assert Steps(c, k, h, n);
    AdmittedStays(c, k, h, n);
    InsertAgrees(w.state, r);
    if Verify(c, r, w'.now) == None {
      assert AdmittedAt(c, k, h, n, r);
      AdmitOne(c, k, h, n + 1, w.state.meta, r);
    }
  }

  lemma AdmitOne(c: Config, k: Codec, h: History, n: nat, meta: map<Bytes, Record>, r: Record)
    requires |h.worlds| == |h.events| + 1 && n > 0 && AllAdmitted(c, k, h, n, meta) && AdmittedAt(c, k, h, n - 1, r)
    ensures AllAdmitted(c, k, h, n, meta[r.id := r])
  {
  }

  lemma TracedRestart(c: Config, k: Codec, h: History, n: nat)
    requires IsHistory(c, k, h) && n < |h.events| && h.events[n] == Restart
    ensures Traced(c, k, h, n + 1)
  {
    var w, w' := h.worlds[n], h.worlds[n + 1];
    assert Steps(c, k, h, n);
    LoadTraces(c, k, Lines(w.file), w'.now);
    forall id | id in w'.state.meta ensures Admitted(c, k, h, n + 1, w'.state.meta[id]) {
      assert FromLine(c, k, Lines(w.file), w'.state.meta[id], w'.now);
      assert AdmittedAt(c, k, h, n, w'.state.meta[id]);
    }
  }

  lemma TracedStep(c: Config, k: Codec, h: History, n: nat)
    requires IsHistory(c, k, h) && n < |h.events| && Traced(c, k, h, n)
    ensures Traced(c, k, h, n + 1)
  {
    match h.events[n]
    case Push(r, _) => TracedPush(c, k, h, n);
    case Restart => TracedRestart(c, k, h, n);
    case Sweep(_) =>
      assert Steps(c, k, h, n);
      AdmittedStays(c, k, h, n);
      SweepAgrees(h.worlds[n].state, h.worlds[n + 1].now);
    case Decide =>
      assert Steps(c, k, h, n);
      AdmittedStays(c, k, h, n);
    case Edit =>
      assert Steps(c, k, h, n);
      AdmittedStays(c, k, h, n);
  }

  lemma {:induction false} TracedAlways(c: Config, k: Codec, h: History, n: nat)
    requires IsHistory(c, k, h) && n < |h.worlds|
    ensures Traced(c, k, h, n)
  {
    if n > 0 {
      TracedAlways(c, k, h, n - 1);
      TracedStep(c, k, h, n - 1);
    }
  }

  /** Only operator-signed judgements are ever held. Whatever is pushed and whatever the file is made to say, the
      three maps agree, and every silence held is a record that some event brought in, that a configured operator
      signed for this cluster, that constrains something, that had not expired when it was admitted, and whose weight
      is between 0 and 1; and it covers at any time exactly the alerts that record is about. */
  lemma OnlySignedJudgementsAreHeld(c: Config, k: Codec, h: History, n: nat, id: Bytes) returns (r: Record, i: nat)
    requires IsHistory(c, k, h) && n < |h.worlds| && id in h.worlds[n].state.held
    ensures Agree(h.worlds[n].state)
    ensures h.worlds[n].state.meta[id] == r && h.worlds[n].state.held[id] == Convert(r) && r.id == id
    ensures i < n && Offered(k, h.worlds[i], h.events[i], r)
    ensures Sound(c, r) && h.worlds[i + 1].now < r.expires
    ensures 0.0 <= h.worlds[n].state.held[id].weight <= 1.0 && h.worlds[n].state.held[id].spec.Constrains() > 0
    ensures forall subject, t :: Covers(h.worlds[n].state.held[id], subject, t) <==> IsAbout(r, subject, t)
  {
    TracedAlways(c, k, h, n);
    r := h.worlds[n].state.meta[id];
    assert Admitted(c, k, h, n, r);
    i :| 0 <= i < n && AdmittedAt(c, k, h, i, r);
    VerifiedMeansSound(c, r, h.worlds[i + 1].now);
    assert 0 <= Min(r.permille, FULL_WEIGHT) <= 1000;
    forall subject, t ensures Covers(Convert(r), subject, t) <==> IsAbout(r, subject, t) {
      CoversExactlyWhen(r, subject, t);
    }
  }

  /** A relay cannot rewrite a judgement: a sound record equals, in everything but the signature bytes, one the operator
      signed. */
  lemma RelaysCannotRewrite(c: Config, signed: set<Record>, r: Record) returns (b: Record)
    requires Sound(c, r) && forall i :: 0 <= i < 7 ==> Fits(Fields(r)[i])
    requires forall g :: g in c.genuine ==> exists b :: b in signed && b.operator == g.0 && SigningInput(b) == Some(g.1)
    requires forall b, i :: b in signed && 0 <= i < 7 ==> Fits(Fields(b)[i])
    ensures b in signed && r.(sig := b.sig) == b && Convert(r) == Convert(b)
  {
    var g := (r.operator, SigningInput(r).value, r.sig);
    b :| b in signed && b.operator == g.0 && SigningInput(b) == Some(g.1);
    SigningInputIsInjective(r, b);
    assert r.(sig := []).(sig := b.sig) == b.(sig := []).(sig := b.sig);
  }

  // -- The file agrees with memory across restarts ------------------------------------------------------

  /** `recs` is what the file says: it covers everything held, and whatever it says beyond that has expired. */
  predicate InFile(c: Config, k: Codec, w: World, recs: seq<Record>)
  {
    && w.file == Render(k, recs) && DistinctIds(recs)
    && Dated(c, recs)
    && Covered(w.state.meta, recs, w.now)
  }

  predicate Covered(meta: map<Bytes, Record>, recs: seq<Record>, now: nat)
  {
    && (forall id :: id in meta ==> meta[id] in recs)
    && (forall i :: 0 <= i < |recs| && now < recs[i].expires ==> recs[i].id in meta && meta[recs[i].id] == recs[i])
  }

  ghost predicate Synced(c: Config, k: Codec, w: World)
  {
    && Agree(w.state)
    && ((w.file == "" && w.state == NOTHING) || exists recs :: InFile(c, k, w, recs))
  }

  predicate AllSound(c: Config, meta: map<Bytes, Record>)
  {
    forall id :: id in meta ==> Sound(c, meta[id]) && meta[id].expires > 0
  }

  /** What is held was admitted at some point, so is sound and has an expiry. */
  lemma SoundInMemory(c: Config, k: Codec, h: History, n: nat)
    requires IsHistory(c, k, h) && n < |h.worlds|
    ensures Agree(h.worlds[n].state) && AllSound(c, h.worlds[n].state.meta)
  {
    TracedAlways(c, k, h, n);
    var meta := h.worlds[n].state.meta;
    forall id | id in meta ensures Sound(c, meta[id]) && meta[id].expires > 0 {
      assert Admitted(c, k, h, n, meta[id]);
      var i :| 0 <= i < n && AdmittedAt(c, k, h, i, meta[id]);
      VerifiedMeansSound(c, meta[id], h.worlds[i + 1].now);
    }
  }

  /** A rewrite that succeeds puts the file in step with memory, whatever the file said before. */
  lemma RewriteSyncs(c: Config, k: Codec, file: string, w: World)
    requires Agree(w.state) && Rewritten(k, file, w.file, w.state.meta, Writes) && AllSound(c, w.state.meta)
    ensures Synced(c, k, w)
  {
    var recs :| Lists(recs, w.state.meta) && w.file == OnDisk(Render(k, recs), Writes);
    assert InFile(c, k, w, recs);
  }

  lemma SameIsSynced(c: Config, k: Codec, w: World, w': World)
    requires Synced(c, k, w) && Agree(w'.state) && w'.state.meta == w.state.meta && w'.file == w.file && w.now <= w'.now
    ensures Synced(c, k, w')
  {
    if w.file == "" && w.state == NOTHING {
      assert w'.state == NOTHING;
    } else {
      var recs :| InFile(c, k, w, recs);
      assert InFile(c, k, w', recs);
    }
  }

  lemma LoadedFromFile(c: Config, k: Codec, w: World, recs: seq<Record>, t: nat)
    requires Faithful(k) && InFile(c, k, w, recs)
    ensures HoldsLive(Loaded(c, k, w.file, t), recs, t)
  {
    LinesOfRender(k, recs);
    LoadHolds(c, k, recs, t);
  }

  lemma RestartIsSynced(c: Config, k: Codec, w: World, w': World)
    requires Faithful(k) && Synced(c, k, w) && Step(c, k, w, Restart, w')
    ensures Synced(c, k, w')
  {
    if w.file == "" && w.state == NOTHING {
      assert Lines("") == [];
    } else {
      var recs :| InFile(c, k, w, recs);
      LoadedFromFile(c, k, w, recs, w'.now);
      assert InFile(c, k, w', recs);
    }
  }

  predicate Rewrote(c: Config, h: History, i: nat)
    requires |h.worlds| == |h.events| + 1 && i < |h.events|
  {
    Rewrites(c, h.worlds[i].state, h.events[i], h.worlds[i + 1].now)
  }

  predicate WroteAll(e: Event)
  {
    (e.Push? || e.Sweep?) && e.disk == Writes
  }

  /** The file stays as it was. */
  predicate Untouched(e: Event)
  {
    (e.Push? || e.Sweep?) && (e.disk == NoPath || e.disk == Locked)
  }

  /** At this event the clock does not go back, nobody else writes the file, and a rewrite, if there is one, succeeds;
      or it is a sweep that leaves the file alone, which loses nothing because loading drops the expired lines anyway.
      */
  predicate CalmAt(c: Config, h: History, i: nat)
    requires |h.worlds| == |h.events| + 1 && i < |h.events|
  {
    && h.worlds[i].now <= h.worlds[i + 1].now && h.events[i] != Edit
    && (Rewrote(c, h, i) ==> WroteAll(h.events[i]) || (h.events[i].Sweep? && Untouched(h.events[i])))
  }

  /** Memory and file are in step here by construction: nothing was ever written, or the event before rewrote the
      file. */
  predicate Anchor(c: Config, h: History, m: nat)
    requires |h.worlds| == |h.events| + 1 && m < |h.worlds|
  {
    if m == 0 then h.worlds[0].file == "" else Rewrote(c, h, m - 1) && WroteAll(h.events[m - 1])
  }

  lemma RewroteIsSynced(c: Config, k: Codec, h: History, i: nat)
    requires IsHistory(c, k, h) && i < |h.events| && Rewrote(c, h, i) && WroteAll(h.events[i])
    ensures Synced(c, k, h.worlds[i + 1])
  {
    assert Steps(c, k, h, i);
    SoundInMemory(c, k, h, i + 1);
    RewriteSyncs(c, k, h.worlds[i].file, h.worlds[i + 1]);
  }

  /** An event that rewrites nothing changes no record. */
  lemma QuietKeepsRecords(c: Config, s: State, e: Event, now: nat)
    requires Agree(s) && !Rewrites(c, s, e, now)
    ensures e.Push? ==> AfterAccept(c, s, e.r, now) == s
    ensures e.Sweep? ==> AfterSweep(s, now) == s
  {
    if e.Push? {
      InsertAgrees(s, e.r);
    }
  }

  lemma SweptIsSynced(c: Config, k: Codec, w: World, w': World)
    requires Synced(c, k, w) && w'.state == AfterSweep(w.state, w'.now) && w'.file == w.file && w.now <= w'.now
    ensures Synced(c, k, w')
  {
    SweepAgrees(w.state, w'.now);
    if w.file == "" && w.state == NOTHING {
      assert w'.state == NOTHING;
    } else {
      var recs :| InFile(c, k, w, recs);
      assert Covered(w'.state.meta, recs, w'.now);
      assert InFile(c, k, w', recs);
    }
  }

  lemma SyncedStep(c: Config, k: Codec, h: History, i: nat)
    requires Faithful(k) && IsHistory(c, k, h) && i < |h.events| && CalmAt(c, h, i) && Synced(c, k, h.worlds[i])
    ensures Synced(c, k, h.worlds[i + 1])
  {
    var w, e, w' := h.worlds[i], h.events[i], h.worlds[i + 1];
    assert Steps(c, k, h, i);
    if Rewrote(c, h, i) && WroteAll(e) {
      RewroteIsSynced(c, k, h, i);
    } else if Rewrote(c, h, i) {
      SweptIsSynced(c, k, w, w');
    } else if e == Restart {
      RestartIsSynced(c, k, w, w');
    } else {
      QuietKeepsRecords(c, w.state, e, w'.now);
      SameIsSynced(c, k, w, w');
    }
  }

  lemma {:induction false} SyncedSince(c: Config, k: Codec, h: History, m: nat, n: nat)
    requires Faithful(k) && IsHistory(c, k, h) && m <= n < |h.worlds| && Anchor(c, h, m)
    requires forall i :: m <= i < n ==> CalmAt(c, h, i)
    ensures Synced(c, k, h.worlds[n])
  {
    if m < n {
      SyncedSince(c, k, h, m, n - 1);
      SyncedStep(c, k, h, n - 1);
    } else if m > 0 {
      RewroteIsSynced(c, k, h, m - 1);
    }
  }

  /** Loading a file that is in step with memory is what a restart is taken for. */
  lemma SyncedLoads(c: Config, k: Codec, w: World, t: nat)
    requires Faithful(k) && Synced(c, k, w) && w.now <= t
    ensures Loaded(c, k, w.file, t) == AfterRestart(w.state, t)
  {
    var s, l := w.state, Loaded(c, k, w.file, t);
    LoadCountsNothing(c, k, Lines(w.file), t);
    if w.file == "" && w.state == NOTHING {
      assert Lines("") == [];
    } else {
      var recs :| InFile(c, k, w, recs);
      LoadedFromFile(c, k, w, recs, t);
      LiveAgrees(s, l, recs, w.now, t);
      SameAfterRestart(s, l, t);
    }
  }

  lemma SameAfterRestart(s: State, l: State, t: nat)
    requires Agree(s) && Agree(l) && l.held == Live(s.held, t)
    requires forall id :: id in l.meta ==> id in s.meta && l.meta[id] == s.meta[id]
    requires forall id :: id in l.counts ==> l.counts[id] == Count(0, 0)
    ensures l == AfterRestart(s, t)
  {
    var r := AfterRestart(s, t);
    assert l.counts == r.counts;
    assert l.meta == r.meta;
  }

  lemma LiveAgrees(s: State, l: State, recs: seq<Record>, now: nat, t: nat)
    requires Agree(s) && HoldsLive(l, recs, t) && Covered(s.meta, recs, now) && now <= t
    ensures l.held == Live(s.held, t)
    ensures forall id :: id in l.meta ==> id in s.meta && l.meta[id] == s.meta[id]
  {
    forall id | id in s.meta && t < s.meta[id].expires ensures id in l.meta && l.meta[id] == s.meta[id] {
      var i :| 0 <= i < |recs| && recs[i] == s.meta[id];
    }
    forall id | id in l.meta ensures id in s.meta && l.meta[id] == s.meta[id] {
      var i :| 0 <= i < |recs| && recs[i] == l.meta[id];
    }
    assert l.held.Keys == Live(s.held, t).Keys;
  }

  /** Nothing is lost or resurrected by a restart. From a successful rewrite on, whatever came before it, and through
      any further pushes and restarts whose rewrites succeed and any sweeps that are not cut short: loading the file
      at `t` gives exactly the records held that outlive `t`, in whatever order the lines were written. */
  lemma RestartKeepsExactlyTheLive(c: Config, k: Codec, h: History, m: nat, n: nat, t: nat)
    requires Faithful(k) && IsHistory(c, k, h) && m <= n < |h.worlds| && Anchor(c, h, m)
    requires (forall i :: m <= i < n ==> CalmAt(c, h, i)) && h.worlds[n].now <= t
    ensures Agree(h.worlds[n].state) && Loaded(c, k, h.worlds[n].file, t) == AfterRestart(h.worlds[n].state, t)
  {
    SyncedSince(c, k, h, m, n);
    SyncedLoads(c, k, h.worlds[n], t);
  }

  /** Without the rewrite it is not so. When the file was in step and then could not be rewritten for a push that was
      a change, a restart at `t` keeps exactly the live silences if and only if by then the new record has expired,
      and so has the one it replaced. */
  lemma FailedRewriteIsForgottenExactlyWhen(c: Config, k: Codec, w: World, e: Event, w': World, t: nat)
    requires Faithful(k) && Synced(c, k, w) && Step(c, k, w, e, w') && w.now <= w'.now <= t
    requires e.Push? && Untouched(e) && Rewrites(c, w.state, e, w'.now)
    ensures Loaded(c, k, w'.file, t).held == Live(w'.state.held, t) <==>
            e.r.expires <= t && (e.r.id in w.state.held ==> w.state.held[e.r.id].expires <= t)
  {
    var r := e.r;
    assert w'.file == w.file;
    SyncedLoads(c, k, w, t);
    assert w'.state.held == w.state.held[r.id := Convert(r)] &&
      (r.id in w.state.held ==> w.state.held[r.id] != Convert(r));
    LiveUpdate(w.state.held, Convert(r), t);
  }

  lemma LiveUpdate(held: map<Bytes, Silence>, a: Silence, t: nat)
    requires a.id in held ==> held[a.id] != a
    ensures Live(held, t) == Live(held[a.id := a], t) <==> a.expires <= t && (a.id in held ==> held[a.id].expires <= t)
  {
    var x, y := Live(held, t), Live(held[a.id := a], t);
    assert forall id :: id != a.id ==> (id in x <==> id in y) && (id in x ==> x[id] == y[id]);
    assert a.id in y <==> t < a.expires;
    assert a.id in x <==> a.id in held && t < held[a.id].expires;
    if a.id !in x && a.id !in y {
      assert x == y;
    }
  }

  /** Such a push is possible: a silence accepted while the file cannot be opened is held, and gone after a restart. */
  lemma FailedRewriteIsForgotten(c: Config, k: Codec, r: Record, now: nat) returns (h: History)
    requires Verify(c, r, now) == None && c.cap > 0
    ensures IsHistory(c, k, h) && h.events == [Push(r, Locked)] && |h.worlds| == 2
    ensures h.worlds[1].state.held == map[r.id := Convert(r)] && Loaded(c, k, h.worlds[1].file, now).held == map[]
  {
    var before, after := World(NOTHING, "", now), World(Insert(NOTHING, r), "", now);
    h := History([before, after], [Push(r, Locked)]);
    assert Step(c, k, before, Push(r, Locked), after);
    assert Steps(c, k, h, 0);
    assert Lines("") == [];
  }

  // -- How long a revocation protects -----------------------------------------------------------------------

  lemma LateCopyReturns(c: Config, s: State, live: State, revocation: Record, late: Record, t: nat, now: nat)
    requires Agree(s) && Sound(c, late) && late.id in s.meta && s.meta[late.id] == revocation
    requires late.issued < revocation.issued && live.held == Live(s.held, t)
    ensures var after := AfterAccept(c, live, late, now);
      (late.id in after.held && after.held[late.id] == Convert(late)) <==>
      revocation.expires <= t && now < late.expires && |live.held| < c.cap
  {
    VerifiedMeansSound(c, late, now);
    if revocation.expires <= t {
      assert late.id !in live.held;
    } else {
      assert live.held[late.id] == s.held[late.id];
      assert AfterAccept(c, live, late, now).held == live.held;
    }
  }

  /** A revocation re-issues an id, and it protects against a late copy of the silence it revokes only while it is
      held. When the agent restarts from a file in step with memory, or the store is swept, and the old judgement is
      then pushed again, it comes back exactly when the revocation had expired at the restart or sweep, the old one
      has not expired at the push, and there is room. */
  lemma ExpiredRevocationCanBeUndone(c: Config, k: Codec, h: History, m: nat, n: nat, revocation: Record)
    requires Faithful(k) && IsHistory(c, k, h) && m <= n && n + 1 < |h.events| && Anchor(c, h, m)
    requires (forall i :: m <= i < n ==> CalmAt(c, h, i)) && h.worlds[n].now <= h.worlds[n + 1].now
    requires (h.events[n] == Restart || h.events[n].Sweep?) && h.events[n + 1].Push?
    requires var s, late := h.worlds[n].state, h.events[n + 1].r;
      && late.id in s.meta && s.meta[late.id] == revocation && late.issued < revocation.issued
      && Sound(c, late)
    ensures var late, after := h.events[n + 1].r, h.worlds[n + 2].state;
      (late.id in after.held && after.held[late.id] == Convert(late)) <==>
      (&& revocation.expires <= h.worlds[n + 1].now && h.worlds[n + 2].now < late.expires
       && |h.worlds[n + 1].state.held| < c.cap)
  {
    var s, live := h.worlds[n].state, h.worlds[n + 1].state;
    assert Steps(c, k, h, n) && Steps(c, k, h, n + 1);
    RestartKeepsExactlyTheLive(c, k, h, m, n, h.worlds[n + 1].now);
    if h.events[n].Sweep? {
      SweepAgrees(s, h.worlds[n + 1].now);
    }
    assert live.held == Live(s.held, h.worlds[n + 1].now);
    LateCopyReturns(c, s, live, revocation, h.events[n + 1].r, h.worlds[n + 1].now, h.worlds[n + 2].now);
  }
}
