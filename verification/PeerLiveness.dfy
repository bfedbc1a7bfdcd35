/**
 Noticing neighbours that go silent (`peer_watchdog.rs`), with the clock as a parameter in milliseconds. A fingerprint
 is a number; the verdict lists peers in ascending order.
 */
module PeerWatchdog {
  import opened Basics

  type Fp = nat

  const STARTUP_GRACE: int := 120_000
  const REMIND_AFTER: int := 3_600_000

  datatype Verdict = Starting | Healthy | Missing(peers: set<Fp>) | Isolated(known: nat)

  datatype State = State(lastSeen: map<Fp, int>, reported: map<Fp, int>, isolatedReported: Option<int>)

  /** One look at the live set. */
  datatype Look = Look(live: set<Fp>, sinceStart: int, now: int)

  // ------------------------------------------------------------------------------------------
  // One observation
  // ------------------------------------------------------------------------------------------

  function Fold(s: State, o: Look): State
  {
    State(map p | p in s.lastSeen.Keys + o.live :: if p in o.live then o.now else s.lastSeen[p],
          s.reported - o.live,
          if o.live != {} then None else s.isolatedReported)
  }

  lemma FoldOne(s: State, o: Look, p: Fp)
    ensures Fold(s, o.(live := o.live + {p})).lastSeen == Fold(s, o).lastSeen[p := o.now]
    ensures Fold(s, o.(live := o.live + {p})).reported == Fold(s, o).reported - {p}
  {
  }

  /** Silent past the grace, and not reported within the remind window. */
  function Due(s: State, now: int, grace: nat): set<Fp>
  {
    set p | p in s.lastSeen && now - s.lastSeen[p] >= grace
            && (p in s.reported ==> now - s.reported[p] >= REMIND_AFTER)
  }

  function Judge(s: State, o: Look, grace: nat): Verdict
  {
    if o.sinceStart < STARTUP_GRACE then Starting
    else if s.lastSeen == map[] then Healthy
    else if o.live == {} then
      if forall p :: p in s.lastSeen ==> o.now - s.lastSeen[p] >= grace then Isolated(|s.lastSeen|) else Healthy
    else if Due(s, o.now, grace) == {} then Healthy
    else Missing(Due(s, o.now, grace))
  }

  function Stamp(peers: set<Fp>, now: int): map<Fp, int> { map p | p in peers :: now }

  function Observed(s: State, o: Look, grace: nat): (State, Verdict)
  {
    var folded := Fold(s, o);
    var v := Judge(folded, o, grace);
    (if v.Missing? then folded.(reported := folded.reported + Stamp(v.peers, o.now)) else folded, v)
  }

  predicate Ascending(s: seq<Fp>) { forall i, j :: 0 <= i < j < |s| ==> s[i] < s[j] }

  method Sorted(peers: set<Fp>) returns (s: seq<Fp>)
    ensures Ascending(s) && forall p :: p in s <==> p in peers
  {
    s := [];
    var todo := peers;
    while todo != {}
      invariant Ascending(s) && todo <= peers
      invariant forall p :: p in s <==> p in peers && p !in todo
      invariant forall p, q :: p in s && q in todo ==> p < q
      decreases todo
    {
      var least :| least in todo;
      var rest := todo - {least};
      while rest != {}
        invariant least in todo && rest <= todo
        invariant forall q :: q in todo && q !in rest ==> least <= q
        decreases rest
      {
        var q :| q in rest;
        if q < least {
          least := q;
        }
        rest := rest - {q};
      }
      assert forall i :: 0 <= i < |s| ==> s[i] in s;
      s := s + [least];
      todo := todo - {least};
    }
  }

  class PeerLiveness {
    var lastSeen: map<Fp, int>
    var reported: map<Fp, int>
    var isolatedReported: Option<int>
    const grace: nat

    constructor (grace: nat)
      ensures View() == State(map[], map[], None) && this.grace == grace
    {
      lastSeen, reported, isolatedReported := map[], map[], None;
      this.grace := grace;
    }

    function View(): State reads this { State(lastSeen, reported, isolatedReported) }

    /** A peer that is visible again is no longer a finding. */
    method NoteLive(live: seq<Fp>, ghost sinceStart: int, now: int)
      modifies this
      ensures View() == Fold(old(View()), Look((set p | p in live), sinceStart, now))
    {
      ghost var noted: set<Fp> := {};
      for i := 0 to |live|
        invariant noted == set p | p in live[..i]
        invariant lastSeen == Fold(old(View()), Look(noted, sinceStart, now)).lastSeen
        invariant reported == Fold(old(View()), Look(noted, sinceStart, now)).reported
        invariant isolatedReported == old(isolatedReported)
      {
        FoldOne(old(View()), Look(noted, sinceStart, now), live[i]);
        lastSeen := lastSeen[live[i] := now];
        reported := reported - {live[i]};
        noted := noted + {live[i]};
        assert live[..i + 1] == live[..i] + [live[i]];
      }
      assert live[..|live|] == live;
      if live != [] {
        assert live[0] in noted;
        isolatedReported := None;
      }
    }

    /** Returns the verdict and, when peers are missing, their fingerprints in order. */
    method Observe(live: seq<Fp>, sinceStart: int, now: int) returns (verdict: Verdict, missing: seq<Fp>)
      modifies this
      ensures (View(), verdict) == Observed(old(View()), Look((set p | p in live), sinceStart, now), grace)
      ensures Ascending(missing) && forall p :: p in missing <==> verdict.Missing? && p in verdict.peers
    {
      missing := [];
      NoteLive(live, sinceStart, now);
      ghost var folded, o := View(), Look((set p | p in live), sinceStart, now);
      if sinceStart < STARTUP_GRACE {
        return Starting, [];
      }
      if lastSeen == map[] {
        return Healthy, [];
      }
      if live == [] {
        if forall p :: p in lastSeen ==> now - lastSeen[p] >= grace {
          return Isolated(|lastSeen|), [];
        }
        return Healthy, [];
      }
      var due := set p | p in lastSeen && now - lastSeen[p] >= grace
                         && (p in reported ==> now - reported[p] >= REMIND_AFTER);
      assert due == Due(folded, now, grace) && live[0] in o.live;
      if due == {} {
        return Healthy, [];
      }
      missing := Sorted(due);
      reported := reported + Stamp(due, now);
      assert Judge(folded, o, grace) == Missing(due);
      return Missing(due), missing;
    }

    method IsolationIsNew(now: int) returns (isNew: bool)
      ensures isNew <==> isolatedReported.None? || now - isolatedReported.value >= REMIND_AFTER
    {
      isNew := isolatedReported.None? || now - isolatedReported.value >= REMIND_AFTER;
    }

    method MarkIsolatedReported(now: int)
      modifies this`isolatedReported
      ensures isolatedReported == Some(now)
    {
      isolatedReported := Some(now);
    }

    /** One round of the loop: observe, and raise an isolation alert when one is due. */
    method Watch(live: seq<Fp>, sinceStart: int, now: int) returns (verdict: Verdict, missing: seq<Fp>, alert: bool)
      modifies this
      ensures View() == Tick(old(View()), Look((set p | p in live), sinceStart, now), grace)
      ensures verdict == Observed(old(View()), Look((set p | p in live), sinceStart, now), grace).1
      ensures Ascending(missing) && forall p :: p in missing <==> Accuses(verdict, p)
      ensures alert <==> IsolationAlert(Observed(old(View()), Look((set p | p in live), sinceStart, now), grace).0,
        verdict, now)
    {
      verdict, missing := Observe(live, sinceStart, now);
      alert := false;
      if verdict.Isolated? {
        alert := IsolationIsNew(now);
        if alert {
          MarkIsolatedReported(now);
        }
      }
    }

    /** The loop over what it gets to see: it makes a run, which ends in the state it leaves. */
    method WatchAll(lives: seq<seq<Fp>>, sinceStarts: seq<int>, nows: seq<int>) returns (ghost run: Run)
      requires |lives| == |sinceStarts| == |nows|
      modifies this
      ensures |run.states| == |lives| + 1 && |run.looks| == |lives| && run.grace == grace
      ensures run.states[0] == old(View()) && run.states[|lives|] == View()
      ensures forall i :: 0 <= i < |lives| ==> run.looks[i] == Look((set p | p in lives[i]), sinceStarts[i], nows[i])
      ensures forall i :: 0 <= i < |lives| ==> Ticks(run, i)
    {
      run := Run([View()], [], grace);
      var n := 0;
      while n < |lives|
        invariant 0 <= n <= |lives| && |run.states| == n + 1 && |run.looks| == n && run.grace == grace
        invariant run.states[0] == old(View()) && run.states[n] == View()
        invariant forall i :: 0 <= i < n ==> run.looks[i] == Look((set p | p in lives[i]), sinceStarts[i], nows[i])
        invariant forall i :: 0 <= i < n ==> Ticks(run, i)
      {
        ghost var before, o := run, Look((set p | p in lives[n]), sinceStarts[n], nows[n]);
        var _, _, _ := Watch(lives[n], sinceStarts[n], nows[n]);
        run := Run(before.states + [View()], before.looks + [o], grace);
        forall i | 0 <= i < n + 1 ensures Ticks(run, i) {
          if i < n {
            assert Ticks(before, i);
          }
        }
        n := n + 1;
      }
    }
  }

  // ------------------------------------------------------------------------------------------
  // The watchdog loop
  // ------------------------------------------------------------------------------------------

  predicate IsolationAlert(s: State, v: Verdict, now: int)
  {
    v.Isolated? && (s.isolatedReported.None? || now - s.isolatedReported.value >= REMIND_AFTER)
  }

  /** One tick: observe, and raise an isolation alert on the remind cadence. */
  function Tick(s: State, o: Look, grace: nat): State
  {
    var (t, v) := Observed(s, o, grace);
    if IsolationAlert(t, v, o.now) then t.(isolatedReported := Some(o.now)) else t
  }

  /** A run of the loop: the state before each look, and what the look found. */
  datatype Run = Run(states: seq<State>, looks: seq<Look>, grace: nat)

  /** Starts empty, ticks from state to state, and the clock does not go back. With no grace at all a peer would be
      missing the moment it is seen. */
  ghost predicate IsRun(r: Run)
  {
    && |r.states| == |r.looks| + 1 && r.grace > 0
    && r.states[0] == State(map[], map[], None)
    && (forall i :: 0 <= i < |r.looks| ==> Ticks(r, i))
    && forall i, j :: 0 <= i < j < |r.looks| ==> r.looks[i].now <= r.looks[j].now
  }

  predicate Ticks(r: Run, i: nat)
    requires i < |r.looks| < |r.states|
  {
    r.states[i + 1] == Tick(r.states[i], r.looks[i], r.grace)
  }

  /** What the `n`-th observation says. */
  function VerdictAt(r: Run, n: nat): Verdict
    requires n < |r.states| && n < |r.looks|
  {
    Observed(r.states[n], r.looks[n], r.grace).1
  }

  /** One peer's side of a run: when it was live, and when it was accused. */
  datatype Mark = Mark(live: bool, accused: bool, now: int)

  predicate Accuses(v: Verdict, p: Fp) { v.Missing? && p in v.peers }

  function MarkAt(r: Run, i: nat, p: Fp): Mark
    requires i < |r.states| && i < |r.looks|
  {
    Mark(p in r.looks[i].live, Accuses(VerdictAt(r, i), p), r.looks[i].now)
  }

  function Timeline(r: Run, p: Fp): seq<Mark>
    requires |r.states| > |r.looks|
  {
    seq(|r.looks|, i requires 0 <= i < |r.looks| => MarkAt(r, i, p))
  }

  /** The last mark before the `n`-th at which the peer was live. */
  function LastLive(t: seq<Mark>, n: nat): Option<nat>
    requires n <= |t|
  {
    if n == 0 then None else if t[n - 1].live then Some(n - 1) else LastLive(t, n - 1)
  }

  /** The last report before the `n`-th mark, unless the peer was live since. */
  function LastReport(t: seq<Mark>, n: nat): Option<nat>
    requires n <= |t|
  {
    if n == 0 then None
    else if t[n - 1].accused then Some(n - 1)
    else if t[n - 1].live then None
    else LastReport(t, n - 1)
  }

  lemma {:induction false} LastLiveIs(t: seq<Mark>, n: nat)
    requires n <= |t|
    ensures var i := LastLive(t, n);
      && (i.Some? ==> i.value < n && t[i.value].live)
      && forall j :: (if i.Some? then i.value + 1 else 0) <= j < n ==> !t[j].live
  {
    if n > 0 {
      LastLiveIs(t, n - 1);
    }
  }

  lemma {:induction false} LastReportIs(t: seq<Mark>, n: nat)
    requires n <= |t| && forall i :: 0 <= i < n ==> !(t[i].live && t[i].accused)
    ensures var rep := LastReport(t, n); var seen := LastLive(t, n);
      && (rep.Some? ==> rep.value < n && t[rep.value].accused && (seen.Some? ==> seen.value < rep.value))
      && forall j :: (if seen.Some? then seen.value else -1) < j < n && t[j].accused ==> rep.Some? && j <= rep.value
  {
    if n > 0 {
      LastReportIs(t, n - 1);
      LastLiveIs(t, n - 1);
    }
  }

  /** One observation accuses `p` under exactly this condition. */
  lemma AccusedNow(s: State, o: Look, grace: nat, p: Fp)
    requires grace > 0
    ensures Accuses(Observed(s, o, grace).1, p) <==>
      && o.sinceStart >= STARTUP_GRACE && o.live != {} && p !in o.live
      && p in s.lastSeen && o.now - s.lastSeen[p] >= grace
      && (p in s.reported ==> o.now - s.reported[p] >= REMIND_AFTER)
  {
    var f := Fold(s, o);
    if p in Due(f, o.now, grace) {
      assert p in f.lastSeen && Due(f, o.now, grace) != {};
    }
  }

  lemma TickRecords(s: State, o: Look, grace: nat, p: Fp)
    requires grace > 0
    ensures var t := Tick(s, o, grace);
      && (p in t.lastSeen <==> p in o.live || p in s.lastSeen)
      && (p in t.lastSeen ==> t.lastSeen[p] == if p in o.live then o.now else s.lastSeen[p])
      && (Accuses(Observed(s, o, grace).1, p) ==> p in t.reported && t.reported[p] == o.now)
      && (!Accuses(Observed(s, o, grace).1, p) ==>
            && (p in t.reported <==> p in s.reported && p !in o.live)
            && (p in t.reported ==> t.reported[p] == s.reported[p]))
  {
  }

  /** The two maps hold exactly the last live observation and the last report since. */
  ghost predicate Agrees(s: State, t: seq<Mark>, n: nat, p: Fp)
    requires n <= |t|
  {
    && (p in s.lastSeen <==> LastLive(t, n).Some?)
    && (p in s.lastSeen ==> LastLive(t, n).value < n && s.lastSeen[p] == t[LastLive(t, n).value].now)
    && (p in s.reported <==> LastReport(t, n).Some?)
    && (p in s.reported ==> LastReport(t, n).value < n && s.reported[p] == t[LastReport(t, n).value].now)
  }

  lemma AgreesNext(s: State, o: Look, grace: nat, t: seq<Mark>, n: nat, p: Fp)
    requires grace > 0 && n < |t| && Agrees(s, t, n, p)
    requires t[n] == Mark(p in o.live, Accuses(Observed(s, o, grace).1, p), o.now)
    ensures Agrees(Tick(s, o, grace), t, n + 1, p)
  {
    TickRecords(s, o, grace, p);
  }

  lemma {:induction false} StateIsHistory(r: Run, n: nat, p: Fp)
    requires IsRun(r) && n <= |r.looks|
    ensures Agrees(r.states[n], Timeline(r, p), n, p)
  {
    if n > 0 {
      StateIsHistory(r, n - 1, p);
      assert Ticks(r, n - 1);
      assert Timeline(r, p)[n - 1] == MarkAt(r, n - 1, p);
      AgreesNext(r.states[n - 1], r.looks[n - 1], r.grace, Timeline(r, p), n - 1, p);
    }
  }

  lemma LiveIsNeverAccused(r: Run, p: Fp)
    requires IsRun(r)
    ensures forall i :: 0 <= i < |r.looks| ==> !(Timeline(r, p)[i].live && Timeline(r, p)[i].accused)
  {
    forall i | 0 <= i < |r.looks| ensures !(Timeline(r, p)[i].live && Timeline(r, p)[i].accused) {
      AccusedNow(r.states[i], r.looks[i], r.grace, p);
    }
  }

  /** Silent long enough at the `n`-th mark, and not reported since it went silent within the remind window. */
  predicate Overdue(t: seq<Mark>, n: nat, grace: nat)
    requires n < |t|
  {
    var seen := LastLive(t, n);
    && !t[n].live && seen.Some? && seen.value < n && t[n].now - t[seen.value].now >= grace
    && forall j :: seen.value < j < n && t[j].accused ==> t[n].now - t[j].now >= REMIND_AFTER
  }

  /** A peer is reported missing exactly when startup is over, somebody is visible, and the peer is overdue. */
  lemma AccusedExactlyWhenSilent(r: Run, n: nat, p: Fp)
    requires IsRun(r) && n < |r.looks|
    ensures Accuses(VerdictAt(r, n), p) <==>
      r.looks[n].sinceStart >= STARTUP_GRACE && r.looks[n].live != {} && Overdue(Timeline(r, p), n, r.grace)
  {
    AccusedNow(r.states[n], r.looks[n], r.grace, p);
    StateIsHistory(r, n, p);
    LiveIsNeverAccused(r, p);
    LastReportDecides(Timeline(r, p), n);
  }

  /** The stored report decides for all reports since the peer was last live. */
  lemma LastReportDecides(t: seq<Mark>, n: nat)
    requires n < |t| && forall i :: 0 <= i < |t| ==> !(t[i].live && t[i].accused)
    requires forall i, j :: 0 <= i < j < |t| ==> t[i].now <= t[j].now
    ensures var rep, seen := LastReport(t, n), LastLive(t, n);
      && (rep.Some? ==> rep.value < n)
      && (seen.Some? && seen.value < n ==>
            ((rep.Some? ==> t[n].now - t[rep.value].now >= REMIND_AFTER) <==>
             forall j :: seen.value < j < n && t[j].accused ==> t[n].now - t[j].now >= REMIND_AFTER))
  {
    LastReportIs(t, n);
  }

  /** Two reports of one peer are at least the smaller of the grace and the remind window apart. */
  lemma ReportsAreSpaced(r: Run, k: nat, n: nat, p: Fp)
    requires IsRun(r) && k < n < |r.looks| && Accuses(VerdictAt(r, k), p) && Accuses(VerdictAt(r, n), p)
    ensures r.looks[n].now - r.looks[k].now >= Min(r.grace, REMIND_AFTER)
  {
    AccusedExactlyWhenSilent(r, n, p);
    var t := Timeline(r, p);
    assert t[k] == MarkAt(r, k, p) && t[n] == MarkAt(r, n, p);
    OverdueIsSpaced(t, k, n, r.grace);
  }

  lemma OverdueIsSpaced(t: seq<Mark>, k: nat, n: nat, grace: nat)
    requires k < n < |t| && Overdue(t, n, grace) && t[k].accused
    requires forall i, j :: 0 <= i < j < |t| ==> t[i].now <= t[j].now
    ensures t[n].now - t[k].now >= Min(grace, REMIND_AFTER)
  {
  }

  predicate EverSeen(r: Run, n: nat, p: Fp)
    requires n < |r.looks| < |r.states|
  {
    LastLive(Timeline(r, p), n).Some?
  }

  /** How long `p` has been silent at the `n`-th look. */
  function SilentFor(r: Run, n: nat, p: Fp): int
    requires n < |r.looks| < |r.states| && EverSeen(r, n, p)
  {
    LastLiveIs(Timeline(r, p), n);
    r.looks[n].now - Timeline(r, p)[LastLive(Timeline(r, p), n).value].now
  }

  /** With nobody visible no peer is accused; the agent reports itself, and only if everyone it ever saw is silent
      past the grace. */
  lemma IsolationIsAboutOurselves(r: Run, n: nat)
    requires IsRun(r) && n < |r.looks| && r.looks[n].live == {}
    ensures !VerdictAt(r, n).Missing?
    ensures VerdictAt(r, n).Isolated? <==>
      && r.looks[n].sinceStart >= STARTUP_GRACE
      && (exists p :: EverSeen(r, n, p))
      && forall p :: EverSeen(r, n, p) ==> SilentFor(r, n, p) >= r.grace
  {
    var s := r.states[n];
    forall p
      ensures p in s.lastSeen <==> EverSeen(r, n, p)
      ensures p in s.lastSeen ==> r.looks[n].now - s.lastSeen[p] == SilentFor(r, n, p)
    {
      StateIsHistory(r, n, p);
    }
    IsolatedNow(s, r.looks[n], r.grace);
  }

  lemma IsolatedNow(s: State, o: Look, grace: nat)
    requires o.live == {}
    ensures var v := Observed(s, o, grace).1;
      && !v.Missing?
      && (v.Isolated? <==> && o.sinceStart >= STARTUP_GRACE && (exists p :: p in s.lastSeen)
                           && forall p :: p in s.lastSeen ==> o.now - s.lastSeen[p] >= grace)
  {
    assert Fold(s, o).lastSeen == s.lastSeen;
    assert s.lastSeen != map[] ==> exists p :: p in s.lastSeen;
  }

  /** The `n`-th tick raises an isolation alert. */
  predicate SaysIsolated(r: Run, n: nat)
    requires n < |r.looks| < |r.states|
  {
    var (t, v) := Observed(r.states[n], r.looks[n], r.grace);
    IsolationAlert(t, v, r.looks[n].now)
  }

  predicate IsolationNoted(s: State, since: int) { s.isolatedReported.Some? && s.isolatedReported.value >= since }

  lemma TickNotesIsolation(s: State, o: Look, grace: nat, since: int)
    requires since <= o.now
    requires (o.live == {} && IsolationNoted(s, since))
          || (var (t, v) := Observed(s, o, grace); IsolationAlert(t, v, o.now))
    ensures IsolationNoted(Tick(s, o, grace), since)
  {
  }

  lemma {:induction false} IsolationIsRemembered(r: Run, k: nat, n: nat)
    requires IsRun(r) && k < n <= |r.looks| && SaysIsolated(r, k)
    requires forall j :: k < j < n ==> r.looks[j].live == {}
    ensures IsolationNoted(r.states[n], r.looks[k].now)
    decreases n
  {
    if k < n - 1 {
      IsolationIsRemembered(r, k, n - 1);
    }
    assert Ticks(r, n - 1);
    TickNotesIsolation(r.states[n - 1], r.looks[n - 1], r.grace, r.looks[k].now);
  }

  /** Isolation alerts are spaced like reports: by the remind window while nobody is visible, and by the grace when
      somebody was visible in between. */
  lemma IsolationAlertsAreSpaced(r: Run, k: nat, n: nat)
    requires IsRun(r) && k < n < |r.looks| && SaysIsolated(r, k) && SaysIsolated(r, n)
    ensures r.looks[n].now - r.looks[k].now >= Min(r.grace, REMIND_AFTER)
  {
    assert r.looks[n].live == {};
    if j :| k < j < n && r.looks[j].live != {} {
      var p :| p in r.looks[j].live;
      IsolationIsAboutOurselves(r, n);
      var t := Timeline(r, p);
      assert t[j] == MarkAt(r, j, p);
      LastLiveIs(t, n);
      assert EverSeen(r, n, p);
      var seen := LastLive(t, n).value;
      assert j <= seen && t[seen] == MarkAt(r, seen, p);
    } else {
      IsolationIsRemembered(r, k, n);
    }
  }

  /** The last isolation alert before the `n`-th look, unless somebody was visible since. */
  function LastAlert(r: Run, n: nat): Option<nat>
    requires n <= |r.looks| < |r.states|
  {
    if n == 0 then None
    else if SaysIsolated(r, n - 1) then Some(n - 1)
    else if r.looks[n - 1].live != {} then None
    else LastAlert(r, n - 1)
  }

  lemma {:induction false} AlertIsRemembered(r: Run, n: nat)
    requires IsRun(r) && n <= |r.looks|
    ensures var k := LastAlert(r, n);
      && (k.Some? ==> k.value < n)
      && r.states[n].isolatedReported == if k.Some? then Some(r.looks[k.value].now) else None
  {
    if n > 0 {
      AlertIsRemembered(r, n - 1);
      assert Ticks(r, n - 1);
    }
  }

  /** Nobody was visible after the `k`-th look and before the `n`-th. */
  predicate NobodySince(r: Run, k: nat, n: nat)
    requires n <= |r.looks|
  {
    forall j :: k < j < n ==> r.looks[j].live == {}
  }

  lemma {:induction false} LastAlertIs(r: Run, n: nat)
    requires IsRun(r) && n <= |r.looks|
    ensures var k := LastAlert(r, n);
      && (k.Some? ==> k.value < n && SaysIsolated(r, k.value) && NobodySince(r, k.value, n))
      && forall j :: 0 <= j < n && SaysIsolated(r, j) && NobodySince(r, j, n) ==> k.Some? && j <= k.value
  {
    if n > 0 {
      LastAlertIs(r, n - 1);
      forall j | 0 <= j < n - 1 && NobodySince(r, j, n)
        ensures NobodySince(r, j, n - 1) && r.looks[n - 1].live == {}
      {
      }
    }
  }

  /** An isolation alert is raised exactly when the verdict is isolation and no alert since somebody was last visible is
      within the remind window. */
  lemma IsolationAlertExactlyWhen(r: Run, n: nat)
    requires IsRun(r) && n < |r.looks|
    ensures SaysIsolated(r, n) <==>
      && VerdictAt(r, n).Isolated?
      && forall k :: 0 <= k < n && SaysIsolated(r, k) && NobodySince(r, k, n) ==>
           r.looks[n].now - r.looks[k].now >= REMIND_AFTER
  {
    AlertIsRemembered(r, n);
    LastAlertIs(r, n);
    var k := LastAlert(r, n);
    if VerdictAt(r, n).Isolated? {
      assert r.looks[n].live == {};
      assert Observed(r.states[n], r.looks[n], r.grace).0.isolatedReported == r.states[n].isolatedReported;
    }
  }

  /** The verdict is "starting" exactly during startup, whatever is visible, and an isolation verdict says how many
      peers were ever seen. */
  lemma VerdictSays(r: Run, n: nat, ever: set<Fp>)
    requires IsRun(r) && n < |r.looks| && forall p :: p in ever <==> EverSeen(r, n, p)
    ensures VerdictAt(r, n).Starting? <==> r.looks[n].sinceStart < STARTUP_GRACE
    ensures VerdictAt(r, n).Isolated? ==> VerdictAt(r, n).known == |ever| > 0
  {
    if VerdictAt(r, n).Isolated? {
      forall p ensures p in r.states[n].lastSeen.Keys <==> p in ever {
        StateIsHistory(r, n, p);
      }
      assert r.states[n].lastSeen.Keys == ever;
      assert Fold(r.states[n], r.looks[n]).lastSeen == r.states[n].lastSeen;
    }
  }
}
