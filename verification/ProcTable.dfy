/**
 The recent pid-to-exe table (`proc_table.rs`): what a pid exec'd, and the exec before it, which pid forked it, and how
 long an exited pid keeps answering. Both maps are cleared whole when full. Also the parent lookup over it
 (`pipeline.rs`).
 */
module ProcTables {
  import opened Basics

  type Pid = nat
  type Exe = string

  const EXIT_GRACE: int := 2000

  datatype Exec = Exec(exe: Exe, ts: int)

  datatype Entry = Entry(current: Exec, exitedAt: Option<int>, previous: Option<Exec>)

  datatype Fork = Fork(parent: Pid, ts: int)

  type Execs = map<Pid, Entry>
  type Forks = map<Pid, Fork>

  datatype Table = Table(execs: Execs, forks: Forks)

  datatype Event = Execed(pid: Pid, exe: Exe, ts: int) | Forked(parent: Pid, child: Pid, ts: int) | Exited(pid: Pid,
      ts: int)

  // ------------------------------------------------------------------------------------------
  // The table
  // ------------------------------------------------------------------------------------------

  function RecordExec(execs: Execs, pid: Pid, exe: Exe, ts: int): Execs
  {
    execs[pid := Entry(Exec(exe, ts), None, if pid in execs then Some(execs[pid].current) else None)]
  }

  /** Answers only inside [ts, ts + ttl]. */
  predicate Answers(ts: int, at: int, ttl: nat) { ts <= at <= ts + ttl }

  function ExeAt(t: Table, pid: Pid, at: int, ttl: nat): Option<Exe>
  {
    if pid !in t.execs then None
    else
      var e := t.execs[pid];
      if e.exitedAt.Some? && at - e.exitedAt.value > EXIT_GRACE then None
      else if Answers(e.current.ts, at, ttl) then Some(e.current.exe) else None
  }

  function PreviousExe(t: Table, pid: Pid, at: int, ttl: nat): Option<Exe>
  {
    if pid !in t.execs || t.execs[pid].previous.None? then None
    else
      var p := t.execs[pid].previous.value;
      if Answers(p.ts, at, ttl) then Some(p.exe) else None
  }

  function ForkedFrom(t: Table, child: Pid, at: int, ttl: nat): Option<Pid>
  {
    if child in t.forks && Answers(t.forks[child].ts, at, ttl) then Some(t.forks[child].parent) else None
  }

  /** The parent's own exec, or else the exec of whatever forked it: one hop, no more. */
  function RememberedParentExe(t: Table, ppid: Pid, at: int, ttl: nat): Option<Exe>
  {
    if ExeAt(t, ppid, at, ttl).Some? then ExeAt(t, ppid, at, ttl)
    else
      var origin := ForkedFrom(t, ppid, at, ttl);
      if origin.Some? then ExeAt(t, origin.value, at, ttl) else None
  }

  /** One event on a table that clears a map of `max` entries before a new key; `None` never clears. */
  function Apply(t: Table, e: Event, max: Option<nat>): Table
  {
    match e
    case Execed(pid, exe, ts) =>
      var full := max.Some? && |t.execs| >= max.value && pid !in t.execs;
      t.(execs := RecordExec(if full then map[] else t.execs, pid, exe, ts))
    case Forked(parent, child, ts) =>
      var full := max.Some? && |t.forks| >= max.value && child !in t.forks;
      t.(forks := (if full then map[] else t.forks)[child := Fork(parent, ts)])
    case Exited(pid, ts) =>
      Table(if pid in t.execs then t.execs[pid := t.execs[pid].(exitedAt := Some(ts))] else t.execs, t.forks - {pid})
  }

  class ProcTable {
    var execs: Execs
    var forks: Forks
    const ttl: nat
    const maxTracked: nat

    constructor (ttl: nat, maxTracked: nat)
      ensures execs == map[] && forks == map[] && this.ttl == ttl && this.maxTracked == maxTracked
    {
      execs, forks := map[], map[];
      this.ttl, this.maxTracked := ttl, maxTracked;
    }

    function View(): Table reads this { Table(execs, forks) }

    method Record(pid: Pid, exe: Exe, ts: int)
      modifies this
      ensures View() == Apply(old(View()), Execed(pid, exe, ts), Some(maxTracked))
    {
      if |execs| >= maxTracked && pid !in execs {
        execs := map[];
      }
      var previous := if pid in execs then Some(execs[pid].current) else None;
      execs := execs[pid := Entry(Exec(exe, ts), None, previous)];
    }

    method RecordFork(parent: Pid, child: Pid, ts: int)
      modifies this
      ensures View() == Apply(old(View()), Forked(parent, child, ts), Some(maxTracked))
    {
      if |forks| >= maxTracked && child !in forks {
        forks := map[];
      }
      forks := forks[child := Fork(parent, ts)];
    }

    method Forget(pid: Pid, ts: int)
      modifies this
      ensures View() == Apply(old(View()), Exited(pid, ts), Some(maxTracked))
    {
      forks := forks - {pid};
      if pid in execs {
        execs := execs[pid := execs[pid].(exitedAt := Some(ts))];
      }
    }
  }

  function Run(trace: seq<Event>, max: Option<nat>): Table
  {
    if trace == [] then Table(map[], map[]) else Apply(Run(trace[..|trace| - 1], max), trace[|trace| - 1], max)
  }

  // ------------------------------------------------------------------------------------------
  // The history
  // ------------------------------------------------------------------------------------------

  /** The latest exec of `pid` among the first `n` events. */
  function LatestExec(trace: seq<Event>, pid: Pid, n: nat): Option<nat>
    requires n <= |trace|
  {
    if n == 0 then None
    else if trace[n - 1].Execed? && trace[n - 1].pid == pid then Some(n - 1)
    else LatestExec(trace, pid, n - 1)
  }

  /** The last exit of `pid` among the events from `from` up to `n`. */
  function LatestExit(trace: seq<Event>, pid: Pid, from: nat, n: nat): Option<int>
    requires n <= |trace|
  {
    if n <= from then None
    else if trace[n - 1].Exited? && trace[n - 1].pid == pid then Some(trace[n - 1].ts)
    else LatestExit(trace, pid, from, n - 1)
  }

  /** The fork that still explains `child`: the latest one, unless the pid exited since. */
  function LatestFork(trace: seq<Event>, child: Pid, n: nat): Option<nat>
    requires n <= |trace|
  {
    if n == 0 then None
    else if trace[n - 1].Forked? && trace[n - 1].child == child then Some(n - 1)
    else if trace[n - 1].Exited? && trace[n - 1].pid == child then None
    else LatestFork(trace, child, n - 1)
  }

  lemma {:induction false} LatestExecIs(trace: seq<Event>, pid: Pid, n: nat)
    requires n <= |trace|
    ensures var i := LatestExec(trace, pid, n);
      && (i.Some? ==> i.value < n && trace[i.value].Execed? && trace[i.value].pid == pid)
      && forall j :: (if i.Some? then i.value + 1 else 0) <= j < n ==> !(trace[j].Execed? && trace[j].pid == pid)
  {
    if n > 0 {
      LatestExecIs(trace, pid, n - 1);
    }
  }

  /** What the full history says about `pid`. */
  ghost predicate Remembers(trace: seq<Event>, pid: Pid, e: Entry, n: nat)
    requires n <= |trace|
  {
    var i := LatestExec(trace, pid, n);
    && i.Some? && i.value < n && trace[i.value].Execed?
    && e.current == Exec(trace[i.value].exe, trace[i.value].ts)
    && e.exitedAt == LatestExit(trace, pid, i.value, n)
    && (e.previous.Some? ==>
          var p := LatestExec(trace, pid, i.value);
          p.Some? && p.value < n && trace[p.value].Execed? &&
            e.previous.value == Exec(trace[p.value].exe, trace[p.value].ts))
  }

  ghost predicate RemembersFork(trace: seq<Event>, child: Pid, f: Fork, n: nat)
    requires n <= |trace|
  {
    var i := LatestFork(trace, child, n);
    i.Some? && i.value < n && trace[i.value].Forked? && f == Fork(trace[i.value].parent, trace[i.value].ts)
  }

  lemma RemembersNext(trace: seq<Event>, n: nat, execs: Execs, pid: Pid, max: Option<nat>, forks: Forks)
    requires n < |trace| && pid in Apply(Table(execs, forks), trace[n], max).execs
    requires pid in execs ==> Remembers(trace, pid, execs[pid], n)
    ensures Remembers(trace, pid, Apply(Table(execs, forks), trace[n], max).execs[pid], n + 1)
  {
    LatestExecIs(trace, pid, n);
  }

  lemma RemembersForkNext(trace: seq<Event>, n: nat, t: Table, child: Pid, max: Option<nat>)
    requires n < |trace| && child in Apply(t, trace[n], max).forks
    requires child in t.forks ==> RemembersFork(trace, child, t.forks[child], n)
    ensures RemembersFork(trace, child, Apply(t, trace[n], max).forks[child], n + 1)
  {
  }

  /** Whatever the table still holds, however often it was cleared, is what the full history says. */
  lemma {:induction false} TableIsHistory(trace: seq<Event>, max: Option<nat>, n: nat)
    requires n <= |trace|
    ensures forall pid :: pid in Run(trace[..n], max).execs ==>
      Remembers(trace, pid, Run(trace[..n], max).execs[pid], n)
    ensures forall c :: c in Run(trace[..n], max).forks ==> RemembersFork(trace, c, Run(trace[..n], max).forks[c], n)
  {
    if n > 0 {
      TableIsHistory(trace, max, n - 1);
      assert trace[..n][..n - 1] == trace[..n - 1];
      var t := Run(trace[..n - 1], max);
      forall pid | pid in Run(trace[..n], max).execs ensures Remembers(trace, pid, Run(trace[..n], max).execs[pid], n) {
        RemembersNext(trace, n - 1, t.execs, pid, max, t.forks);
      }
      forall c | c in Run(trace[..n], max).forks ensures RemembersFork(trace, c, Run(trace[..n], max).forks[c], n) {
        RemembersForkNext(trace, n - 1, t, c, max);
      }
    }
  }

  /** An answer names the pid's latest exec, inside its window, and not past the grace of a later exit. */
  lemma ExeAtIsLatestExec(trace: seq<Event>, max: Option<nat>, pid: Pid, at: int, ttl: nat)
    requires ExeAt(Run(trace, max), pid, at, ttl).Some?
    ensures var i := LatestExec(trace, pid, |trace|);
      && i.Some? && i.value < |trace| && trace[i.value].Execed? && trace[i.value].pid == pid
      && ExeAt(Run(trace, max), pid, at, ttl).value == trace[i.value].exe
      && trace[i.value].ts <= at <= trace[i.value].ts + ttl
      && var exit := LatestExit(trace, pid, i.value, |trace|); exit.Some? ==> at <= exit.value + EXIT_GRACE
  {
    TableIsHistory(trace, max, |trace|);
    assert trace[..|trace|] == trace;
    LatestExecIs(trace, pid, |trace|);
    assert Remembers(trace, pid, Run(trace, max).execs[pid], |trace|);
  }

  /** The previous answer names the exec immediately before the latest one. */
  lemma PreviousExeIsTheOneBefore(trace: seq<Event>, max: Option<nat>, pid: Pid, at: int, ttl: nat)
    requires PreviousExe(Run(trace, max), pid, at, ttl).Some?
    ensures var i := LatestExec(trace, pid, |trace|);
      && i.Some? && i.value < |trace|
      && var p := LatestExec(trace, pid, i.value);
         && p.Some? && p.value < i.value && trace[p.value].Execed? && trace[p.value].pid == pid
         && PreviousExe(Run(trace, max), pid, at, ttl).value == trace[p.value].exe
         && trace[p.value].ts <= at <= trace[p.value].ts + ttl
  {
    TableIsHistory(trace, max, |trace|);
    assert trace[..|trace|] == trace;
    LatestExecIs(trace, pid, |trace|);
    assert Remembers(trace, pid, Run(trace, max).execs[pid], |trace|);
    LatestExecIs(trace, pid, LatestExec(trace, pid, |trace|).value);
  }

  // ------------------------------------------------------------------------------------------
  // Bounded against unbounded
  // ------------------------------------------------------------------------------------------

  predicate Below(b: Table, u: Table)
  {
    ExecsBelow(b.execs, u.execs) && ForksBelow(b.forks, u.forks)
  }

  predicate EntryBelow(b: Entry, u: Entry)
  {
    b.current == u.current && b.exitedAt == u.exitedAt && (b.previous.None? || b.previous == u.previous)
  }

  predicate ExecsBelow(b: Execs, u: Execs)
  {
    forall p :: p in b ==> p in u && EntryBelow(b[p], u[p])
  }

  predicate ForksBelow(b: Forks, u: Forks)
  {
    forall c :: c in b ==> c in u && b[c] == u[c]
  }

  lemma ExecBelow(b: Execs, u: Execs, pid: Pid, exe: Exe, ts: int)
    requires ExecsBelow(b, u)
    ensures ExecsBelow(RecordExec(b, pid, exe, ts), RecordExec(u, pid, exe, ts))
  {
  }

  lemma ExitBelow(b: Execs, u: Execs, pid: Pid, ts: int)
    requires ExecsBelow(b, u)
    ensures ExecsBelow(if pid in b then b[pid := b[pid].(exitedAt := Some(ts))] else b,
                       if pid in u then u[pid := u[pid].(exitedAt := Some(ts))] else u)
  {
  }

  lemma ForkBelow(b: Forks, u: Forks, child: Pid, f: Fork)
    requires ForksBelow(b, u)
    ensures ForksBelow(b[child := f], u[child := f]) && ForksBelow(b - {child}, u - {child})
  {
  }

  lemma BelowNext(b: Table, u: Table, e: Event, max: nat)
    requires Below(b, u)
    ensures Below(Apply(b, e, Some(max)), Apply(u, e, None))
  {
    match e
    case Execed(pid, exe, ts) =>
      ExecBelow(b.execs, u.execs, pid, exe, ts);
      ExecBelow(map[], u.execs, pid, exe, ts);
    case Forked(parent, child, ts) =>
      ForkBelow(b.forks, u.forks, child, Fork(parent, ts));
      ForkBelow(map[], u.forks, child, Fork(parent, ts));
    case Exited(pid, ts) =>
      ExitBelow(b.execs, u.execs, pid, ts);
      ForkBelow(b.forks, u.forks, pid, Fork(pid, ts));
  }

  lemma {:induction false} BoundedIsBelow(trace: seq<Event>, max: nat)
    ensures Below(Run(trace, Some(max)), Run(trace, None))
    ensures |Run(trace, Some(max)).execs| <= Max(1, max) && |Run(trace, Some(max)).forks| <= Max(1, max)
  {
    if trace != [] {
      var n := |trace| - 1;
      BoundedIsBelow(trace[..n], max);
      BelowNext(Run(trace[..n], Some(max)), Run(trace[..n], None), trace[n], max);
      if trace[n].Exited? {
        ForgetShrinks(Run(trace[..n], Some(max)).forks, trace[n].pid);
      }
    }
  }

  lemma ForgetShrinks(forks: Forks, pid: Pid)
    ensures |forks - {pid}| <= |forks|
  {
    assert (forks - {pid}).Keys == forks.Keys - {pid};
  }

  /** Every direct answer of the bounded table is the unbounded table's answer, and both maps stay within the cap. */
  lemma BoundedAnswersAreRight(trace: seq<Event>, max: nat, pid: Pid, at: int, ttl: nat)
    ensures var b, u := Run(trace, Some(max)), Run(trace, None);
      && (ExeAt(b, pid, at, ttl).Some? ==> ExeAt(u, pid, at, ttl) == ExeAt(b, pid, at, ttl))
      && (PreviousExe(b, pid, at, ttl).Some? ==> PreviousExe(u, pid, at, ttl) == PreviousExe(b, pid, at, ttl))
      && (ForkedFrom(b, pid, at, ttl).Some? ==> ForkedFrom(u, pid, at, ttl) == ForkedFrom(b, pid, at, ttl))
      && |b.execs| <= Max(1, max) && |b.forks| <= Max(1, max)
  {
    BoundedIsBelow(trace, max);
  }

  // ------------------------------------------------------------------------------------------
  // What a clear costs
  // ------------------------------------------------------------------------------------------

  /** Event `j` clears the exec map: a new pid execs while the map is full. */
  predicate Clears(trace: seq<Event>, j: nat, max: nat)
    requires j < |trace|
  {
    var execs := Run(trace[..j], Some(max)).execs;
    trace[j].Execed? && |execs| >= max && trace[j].pid !in execs
  }

  predicate ClearedSince(trace: seq<Event>, i: nat, n: nat, max: nat)
    requires n <= |trace|
  {
    exists j :: i < j < n && Clears(trace, j, max)
  }

  lemma KnownNext(t: Table, e: Event, max: nat, pid: Pid)
    ensures pid in Apply(t, e, Some(max)).execs <==>
            (e.Execed? && e.pid == pid) || (pid in t.execs && !(e.Execed? && |t.execs| >= max && e.pid !in t.execs))
  {
  }

  lemma ClearedNext(trace: seq<Event>, i: nat, n: nat, max: nat)
    requires i < n < |trace|
    ensures ClearedSince(trace, i, n + 1, max) <==> ClearedSince(trace, i, n, max) || Clears(trace, n, max)
  {
  }

  /** The table knows a pid exactly when it exec'd and no clear came since its latest exec. */
  lemma {:induction false} KnownUnlessCleared(trace: seq<Event>, max: nat, n: nat, pid: Pid)
    requires n <= |trace|
    ensures pid in Run(trace[..n], Some(max)).execs <==>
            LatestExec(trace, pid, n).Some? && !ClearedSince(trace, LatestExec(trace, pid, n).value, n, max)
  {
    if n > 0 {
      KnownUnlessCleared(trace, max, n - 1, pid);
      LatestExecIs(trace, pid, n - 1);
      assert trace[..n][..n - 1] == trace[..n - 1];
      KnownNext(Run(trace[..n - 1], Some(max)), trace[n - 1], max, pid);
      var i := LatestExec(trace, pid, n - 1);
      if i.Some? {
        ClearedNext(trace, i.value, n - 1, max);
      }
    }
  }

  lemma {:induction false} UnboundedKnows(trace: seq<Event>, n: nat, pid: Pid)
    requires n <= |trace|
    ensures pid in Run(trace[..n], None).execs <==> LatestExec(trace, pid, n).Some?
  {
    if n > 0 {
      UnboundedKnows(trace, n - 1, pid);
      assert trace[..n][..n - 1] == trace[..n - 1];
      UnboundedNext(Run(trace[..n - 1], None), trace[n - 1], pid);
    }
  }

  lemma UnboundedNext(t: Table, e: Event, pid: Pid)
    ensures pid in Apply(t, e, None).execs <==> (e.Execed? && e.pid == pid) || pid in t.execs
  {
  }

  /** The pid's latest exec of the trace can answer: inside its window, and not past the grace of a later exit. */
  predicate Answering(trace: seq<Event>, pid: Pid, at: int, ttl: nat)
  {
    var i := LatestExec(trace, pid, |trace|);
    && i.Some? && i.value < |trace| && trace[i.value].Execed? && Answers(trace[i.value].ts, at, ttl)
    && var exit := LatestExit(trace, pid, i.value, |trace|); exit.Some? ==> at <= exit.value + EXIT_GRACE
  }

  /** The unbounded table answers exactly when the history can, and the bounded one exactly when moreover no clear
      came since. */
  lemma AnswersExactlyWhen(trace: seq<Event>, max: nat, pid: Pid, at: int, ttl: nat)
    ensures ExeAt(Run(trace, None), pid, at, ttl).Some? <==> Answering(trace, pid, at, ttl)
    ensures ExeAt(Run(trace, Some(max)), pid, at, ttl).Some? <==>
            Answering(trace, pid, at, ttl) && !ClearedSince(trace, LatestExec(trace, pid, |trace|).value, |trace|, max)
  {
    assert trace[..|trace|] == trace;
    LatestExecIs(trace, pid, |trace|);
    KnownUnlessCleared(trace, max, |trace|, pid);
    UnboundedKnows(trace, |trace|, pid);
    TableIsHistory(trace, None, |trace|);
    TableIsHistory(trace, Some(max), |trace|);
  }

  /** The exec before the latest is kept exactly when the table still knew the pid at its latest exec. */
  lemma {:induction false} PreviousIsKept(trace: seq<Event>, max: Option<nat>, n: nat, pid: Pid)
    requires n <= |trace| && pid in Run(trace[..n], max).execs
    ensures var i := LatestExec(trace, pid, n);
      && i.Some? && i.value < n
      && (Run(trace[..n], max).execs[pid].previous.Some? <==> pid in Run(trace[..i.value], max).execs)
  {
    assert n > 0 && trace[..n][..n - 1] == trace[..n - 1];
    if !(trace[n - 1].Execed? && trace[n - 1].pid == pid) {
      PreviousIsKept(trace, max, n - 1, pid);
    }
  }

  /** The unbounded table names the exec before the latest exactly when there is one inside its window; the bounded one
      exactly when moreover no clear came since that one. */
  lemma PreviousAnswersExactlyWhen(trace: seq<Event>, max: nat, pid: Pid, at: int, ttl: nat)
    ensures var i := LatestExec(trace, pid, |trace|);
      var p := if i.Some? && i.value < |trace| then LatestExec(trace, pid, i.value) else None;
      var answering := p.Some? && p.value < |trace| && trace[p.value].Execed? && Answers(trace[p.value].ts, at, ttl);
      && (PreviousExe(Run(trace, None), pid, at, ttl).Some? <==> answering)
      && (PreviousExe(Run(trace, Some(max)), pid, at, ttl).Some? <==>
            answering && !ClearedSince(trace, p.value, |trace|, max))
  {
    var n := |trace|;
    assert trace[..n] == trace;
    LatestExecIs(trace, pid, n);
    KnownUnlessCleared(trace, max, n, pid);
    UnboundedKnows(trace, n, pid);
    var i := LatestExec(trace, pid, n);
    if i.Some? {
      LatestExecIs(trace, pid, i.value);
      KnownUnlessCleared(trace, max, i.value, pid);
      UnboundedKnows(trace, i.value, pid);
      PreviousNamed(trace, None, pid, at, ttl);
      PreviousNamed(trace, Some(max), pid, at, ttl);
      var p := LatestExec(trace, pid, i.value);
      if p.Some? {
        ClearedSplits(trace, p.value, i.value, max);
      }
    }
  }

  lemma ClearedSplits(trace: seq<Event>, p: nat, i: nat, max: nat)
    requires p < i < |trace| && trace[i].Execed?
    ensures ClearedSince(trace, p, |trace|, max) <==>
      ClearedSince(trace, p, i, max) || Clears(trace, i, max) || ClearedSince(trace, i, |trace|, max)
    ensures Clears(trace, i, max) ==> trace[i].pid !in Run(trace[..i], Some(max)).execs
  {
  }

  lemma PreviousNamed(trace: seq<Event>, max: Option<nat>, pid: Pid, at: int, ttl: nat)
    requires LatestExec(trace, pid, |trace|).Some? && LatestExec(trace, pid, |trace|).value < |trace|
    ensures var i := LatestExec(trace, pid, |trace|).value; var p := LatestExec(trace, pid, i);
      PreviousExe(Run(trace, max), pid, at, ttl).Some? <==>
        && pid in Run(trace, max).execs && pid in Run(trace[..i], max).execs
        && p.Some? && p.value < |trace| && trace[p.value].Execed? && Answers(trace[p.value].ts, at, ttl)
  {
    assert trace[..|trace|] == trace;
    if pid in Run(trace, max).execs {
      PreviousIsKept(trace, max, |trace|, pid);
      TableIsHistory(trace, max, |trace|);
      assert Remembers(trace, pid, Run(trace, max).execs[pid], |trace|);
    }
  }

  /** Event `j` clears the fork map: a new child is forked while the map is full. */
  predicate ClearsForks(trace: seq<Event>, j: nat, max: nat)
    requires j < |trace|
  {
    var forks := Run(trace[..j], Some(max)).forks;
    trace[j].Forked? && |forks| >= max && trace[j].child !in forks
  }

  predicate ForksClearedSince(trace: seq<Event>, i: nat, n: nat, max: nat)
    requires n <= |trace|
  {
    exists j :: i < j < n && ClearsForks(trace, j, max)
  }

  lemma ForkNext(t: Table, e: Event, max: Option<nat>, child: Pid)
    ensures var full := e.Forked? && max.Some? && |t.forks| >= max.value && e.child !in t.forks;
      child in Apply(t, e, max).forks <==>
        (e.Forked? && e.child == child) || (child in t.forks && !full && !(e.Exited? && e.pid == child))
  {
  }

  lemma ForksClearedNext(trace: seq<Event>, i: nat, n: nat, max: nat)
    requires i < n < |trace|
    ensures ForksClearedSince(trace, i, n + 1, max) <==>
      ForksClearedSince(trace, i, n, max) || ClearsForks(trace, n, max)
  {
  }

  lemma {:induction false} LatestForkIs(trace: seq<Event>, child: Pid, n: nat)
    requires n <= |trace|
    ensures var i := LatestFork(trace, child, n);
      && (i.Some? ==>
            && i.value < n && trace[i.value].Forked? && trace[i.value].child == child
            && forall j :: i.value < j < n ==> !(trace[j].Forked? && trace[j].child == child)
                                               && !(trace[j].Exited? && trace[j].pid == child))
      && (i.None? ==> forall j :: 0 <= j < n && trace[j].Forked? && trace[j].child == child ==>
                        exists k :: j < k < n && trace[k].Exited? && trace[k].pid == child)
  {
    if n > 0 {
      LatestForkIs(trace, child, n - 1);
    }
  }

  /** The bounded table knows who forked a child exactly when the trace has a fork of it, no exit of the child since,
      and no clear of the fork map since. */
  lemma {:induction false} ForkKnownUnlessCleared(trace: seq<Event>, max: nat, n: nat, child: Pid)
    requires n <= |trace|
    ensures var i := LatestFork(trace, child, n);
      child in Run(trace[..n], Some(max)).forks <==> i.Some? && !ForksClearedSince(trace, i.value, n, max)
  {
    if n > 0 {
      ForkKnownUnlessCleared(trace, max, n - 1, child);
      LatestForkIs(trace, child, n - 1);
      assert trace[..n][..n - 1] == trace[..n - 1];
      ForkNext(Run(trace[..n - 1], Some(max)), trace[n - 1], Some(max), child);
      var i := LatestFork(trace, child, n - 1);
      if i.Some? {
        ForksClearedNext(trace, i.value, n - 1, max);
      }
    }
  }

  /** And the unbounded one exactly when the trace has a fork of it and no exit since. */
  lemma {:induction false} UnboundedForks(trace: seq<Event>, n: nat, child: Pid)
    requires n <= |trace|
    ensures child in Run(trace[..n], None).forks <==> LatestFork(trace, child, n).Some?
  {
    if n > 0 {
      UnboundedForks(trace, n - 1, child);
      assert trace[..n][..n - 1] == trace[..n - 1];
      ForkNext(Run(trace[..n - 1], None), trace[n - 1], None, child);
    }
  }

  /** The parent the table names: the latest fork of the trace that no exit of the child came after, inside its window;
      for the bounded table moreover no clear of the fork map since. */
  lemma ForkAnswersExactlyWhen(trace: seq<Event>, max: nat, child: Pid, at: int, ttl: nat)
    ensures var i := LatestFork(trace, child, |trace|);
      var answering := i.Some? && i.value < |trace| && trace[i.value].Forked? && Answers(trace[i.value].ts, at, ttl);
      && ForkedFrom(Run(trace, None), child, at, ttl) == (if answering then Some(trace[i.value].parent) else None)
      && ForkedFrom(Run(trace, Some(max)), child, at, ttl) ==
           if answering && !ForksClearedSince(trace, i.value, |trace|, max) then Some(trace[i.value].parent) else None
  {
    assert trace[..|trace|] == trace;
    ForkKnownUnlessCleared(trace, max, |trace|, child);
    UnboundedForks(trace, |trace|, child);
    LatestForkIs(trace, child, |trace|);
    TableIsHistory(trace, None, |trace|);
    TableIsHistory(trace, Some(max), |trace|);
  }

  /** The exec event a parent answer comes from. */
  function ParentSource(trace: seq<Event>, t: Table, ppid: Pid, at: int, ttl: nat): Option<nat>
  {
    if ExeAt(t, ppid, at, ttl).Some? then LatestExec(trace, ppid, |trace|)
    else
      var origin := ForkedFrom(t, ppid, at, ttl);
      if origin.Some? && ExeAt(t, origin.value, at, ttl).Some? then LatestExec(trace, origin.value, |trace|) else None
  }

  lemma SourceIsTheAnswer(trace: seq<Event>, max: Option<nat>, ppid: Pid, at: int, ttl: nat)
    ensures var t := Run(trace, max); var i := ParentSource(trace, t, ppid, at, ttl);
      && (i.Some? <==> RememberedParentExe(t, ppid, at, ttl).Some?)
      && (i.Some? ==>
            && i.value < |trace| && trace[i.value].Execed?
            && RememberedParentExe(t, ppid, at, ttl).value == trace[i.value].exe)
  {
    var t := Run(trace, max);
    if ExeAt(t, ppid, at, ttl).Some? {
      ExeAtIsLatestExec(trace, max, ppid, at, ttl);
    } else {
      var origin := ForkedFrom(t, ppid, at, ttl);
      if origin.Some? && ExeAt(t, origin.value, at, ttl).Some? {
        ExeAtIsLatestExec(trace, max, origin.value, at, ttl);
      }
    }
  }

  /** The parent lookup is not always right. When the bounded table answers, its answer comes from the same exec as
      the unbounded table's exactly unless the parent's own latest exec could answer and the map was cleared since;
      then the bounded table falls through to whatever forked the parent. */
  lemma ParentIsRightExactlyWhen(trace: seq<Event>, max: nat, ppid: Pid, at: int, ttl: nat)
    requires RememberedParentExe(Run(trace, Some(max)), ppid, at, ttl).Some?
    ensures var b, u := Run(trace, Some(max)), Run(trace, None);
      ParentSource(trace, b, ppid, at, ttl) == ParentSource(trace, u, ppid, at, ttl) <==>
      !(&& Answering(trace, ppid, at, ttl)
        && ClearedSince(trace, LatestExec(trace, ppid, |trace|).value, |trace|, max))
  {
    var b, u := Run(trace, Some(max)), Run(trace, None);
    AnswersExactlyWhen(trace, max, ppid, at, ttl);
    if ExeAt(b, ppid, at, ttl).None? {
      var origin := ForkedFrom(b, ppid, at, ttl).value;
      BoundedAnswersAreRight(trace, max, ppid, at, ttl);
      BoundedAnswersAreRight(trace, max, origin, at, ttl);
      LatestExecIs(trace, ppid, |trace|);
      ExeAtIsLatestExec(trace, Some(max), origin, at, ttl);
    }
  }

  /** Execs of `n` other processes. */
  function Others(n: nat): seq<Event> { if n == 0 then [] else Others(n - 1) + [Execed(n + 1, "z", 0)] }

  /** Pid 0 forks pid 1, pid 1 execs "x", enough others exec to fill the table, and pid 0 execs "y". */
  function Forgetting(max: nat): seq<Event>
    requires max > 0
  {
    [Forked(0, 1, 0), Execed(1, "x", 0)] + Others(max - 1) + [Execed(0, "y", 0)]
  }

  /** Pids 1 to `n + 1` are in the table, pid 1 with "x", and the fork of pid 1 is remembered. */
  ghost predicate Filled(t: Table, n: nat)
  {
    && (forall i :: i in t.execs <==> 1 <= i <= n + 1) && |t.execs| == n + 1
    && t.execs[1] == Entry(Exec("x", 0), None, None) && t.forks == map[1 := Fork(0, 0)]
  }

  lemma FilledNext(t: Table, n: nat, cap: Option<nat>)
    requires n > 0 && Filled(t, n - 1) && (cap.None? || n < cap.value)
    ensures Filled(Apply(t, Execed(n + 1, "z", 0), cap), n)
  {
    assert n + 1 !in t.execs;
  }

  lemma FilledFirst(cap: Option<nat>)
    requires cap.None? || cap.value > 0
    ensures Filled(Run([Forked(0, 1, 0), Execed(1, "x", 0)], cap), 0)
  {
    var start := [Forked(0, 1, 0), Execed(1, "x", 0)];
    assert start[..1] == [start[0]] && start[..1][..0] == [];
    assert Run(start[..1], cap) == Table(map[], map[1 := Fork(0, 0)]);
    assert Run(start, cap).execs == map[1 := Entry(Exec("x", 0), None, None)];
  }

  lemma RunAppend(trace: seq<Event>, e: Event, cap: Option<nat>)
    ensures Run(trace + [e], cap) == Apply(Run(trace, cap), e, cap)
  {
    assert (trace + [e])[..|trace|] == trace;
  }

  lemma {:induction false} Filling(n: nat, cap: Option<nat>)
    requires cap.None? || n < cap.value
    ensures Filled(Run([Forked(0, 1, 0), Execed(1, "x", 0)] + Others(n), cap), n)
  {
    var start := [Forked(0, 1, 0), Execed(1, "x", 0)];
    var all := start + Others(n);
    if n == 0 {
      assert all == start;
      FilledFirst(cap);
    } else {
      Filling(n - 1, cap);
      var before := start + Others(n - 1);
      FilledNext(Run(before, cap), n, cap);
      RunAppend(before, Execed(n + 1, "z", 0), cap);
      assert all == before + [Execed(n + 1, "z", 0)];
    }
  }

  /** That does happen: for every cap there is a run after which the bounded table names the wrong parent binary.
      The exec table was cleared, the fork map was not, and the lookup falls through to the forking process. */
  lemma ForgottenParentIsMisnamed(max: nat)
    requires max > 0
    ensures RememberedParentExe(Run(Forgetting(max), Some(max)), 1, 0, 0) == Some("y")
    ensures RememberedParentExe(Run(Forgetting(max), None), 1, 0, 0) == Some("x")
  {
    var before := [Forked(0, 1, 0), Execed(1, "x", 0)] + Others(max - 1);
    Filling(max - 1, Some(max));
    Filling(max - 1, None);
    FilledForgets(Run(before, Some(max)), max);
    FilledForgets(Run(before, None), max);
    RunAppend(before, Execed(0, "y", 0), Some(max));
    RunAppend(before, Execed(0, "y", 0), None);
  }

  lemma FilledForgets(t: Table, max: nat)
    requires max > 0 && Filled(t, max - 1)
    ensures RememberedParentExe(Apply(t, Execed(0, "y", 0), Some(max)), 1, 0, 0) == Some("y")
    ensures RememberedParentExe(Apply(t, Execed(0, "y", 0), None), 1, 0, 0) == Some("x")
  {
    assert 0 !in t.execs;
  }

  /** With no more distinct pids than the cap the bounded table is the unbounded one. */
  ghost function Pids(trace: seq<Event>): set<Pid>
  {
    set i | 0 <= i < |trace| && trace[i].Execed? :: trace[i].pid
  }

  ghost function Children(trace: seq<Event>): set<Pid>
  {
    set i | 0 <= i < |trace| && trace[i].Forked? :: trace[i].child
  }

  lemma {:induction false} ExactWhileItFits(trace: seq<Event>, max: nat)
    requires |Pids(trace)| <= max && |Children(trace)| <= max
    ensures Run(trace, Some(max)) == Run(trace, None)
    ensures Run(trace, None).execs.Keys <= Pids(trace) && Run(trace, None).forks.Keys <= Children(trace)
  {
    if trace != [] {
      var n := |trace| - 1;
      var front := trace[..n];
      assert trace == front + [trace[n]];
      assert Pids(front) <= Pids(trace) && Children(front) <= Children(trace);
      SubsetFits(Pids(front), Pids(trace));
      SubsetFits(Children(front), Children(trace));
      ExactWhileItFits(front, max);
      FitsNext(Run(front, None), trace[n], Pids(trace), Children(trace), max);
    }
  }

  lemma FitsNext(t: Table, e: Event, pids: set<Pid>, children: set<Pid>, max: nat)
    requires t.execs.Keys <= pids && t.forks.Keys <= children && |pids| <= max && |children| <= max
    requires (e.Execed? ==> e.pid in pids) && (e.Forked? ==> e.child in children)
    ensures Apply(t, e, Some(max)) == Apply(t, e, None)
    ensures Apply(t, e, None).execs.Keys <= pids && Apply(t, e, None).forks.Keys <= children
  {
    match e
    case Execed(pid, _, _) => SubsetFits(t.execs.Keys + {pid}, pids);
    case Forked(_, child, _) => SubsetFits(t.forks.Keys + {child}, children);
    case Exited(_, _) =>
  }
}
