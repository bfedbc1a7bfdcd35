/**
 The event-log queue and its writer (`eventlog_writer.rs`): a bounded queue that sheds, a writer that takes what is
 queued in batches, and counters for what was shed and for what a failed write lost.
 */
module EventLog {
  import opened Basics

  type Event = nat

  const MAX_BATCH := 512

  datatype Fate = Dropped | Pending | Committed | Failed

  /** An event as the pipeline recorded it, and what has become of it. */
  datatype Entry = Entry(event: Event, fate: Fate)

  /** The events of a stretch with a given fate, in the order they were recorded. */
  function Select(log: seq<Entry>, fate: Fate): seq<Event>
  {
    if log == [] then []
    else Select(log[..|log| - 1], fate) + if log[|log| - 1].fate == fate then [log[|log| - 1].event] else []
  }

  function Events(log: seq<Entry>): seq<Event>
  {
    seq(|log|, i requires 0 <= i < |log| => log[i].event)
  }

  lemma {:induction false} SelectConcat(a: seq<Entry>, b: seq<Entry>, fate: Fate)
    ensures Select(a + b, fate) == Select(a, fate) + Select(b, fate)
  {
    if b == [] {
      assert a + b == a;
    } else {
      var n := |b| - 1;
      assert (a + b)[..|a + b| - 1] == a + b[..n];
      SelectConcat(a, b[..n], fate);
    }
  }

  /** Nothing in a stretch has been written or has failed yet. */
  predicate Open(log: seq<Entry>)
  {
    forall i :: 0 <= i < |log| ==> log[i].fate == Pending || log[i].fate == Dropped
  }

  predicate Settled(log: seq<Entry>)
  {
    forall i :: 0 <= i < |log| ==> log[i].fate != Pending
  }

  /** Give the pending events of a stretch the fate `b`. */
  function Settle(log: seq<Entry>, b: Fate): seq<Entry>
  {
    seq(|log|, i requires 0 <= i < |log| => if log[i].fate == Pending then log[i].(fate := b) else log[i])
  }

  lemma {:induction false} SelectSettle(log: seq<Entry>, b: Fate, f: Fate)
    requires Open(log) && (b == Committed || b == Failed)
    ensures Settled(Settle(log, b)) && Events(Settle(log, b)) == Events(log)
    ensures Select(Settle(log, b), f) ==
      if f == b then Select(log, Pending) else if f == Dropped then Select(log, Dropped) else []
  {
    if log != [] {
      var n := |log| - 1;
      assert Settle(log, b)[..n] == Settle(log[..n], b);
      SelectSettle(log[..n], b, f);
    }
  }

  lemma {:induction false} SelectNone(log: seq<Entry>, fate: Fate)
    requires forall i :: 0 <= i < |log| ==> log[i].fate != fate
    ensures Select(log, fate) == []
  {
    if log != [] {
      SelectNone(log[..|log| - 1], fate);
    }
  }

  /** Where the first `n` pending events of a stretch end. */
  function Cut(log: seq<Entry>, n: nat): (k: nat)
    ensures k <= |log|
  {
    if log == [] || |Select(log, Pending)| <= n then |log| else Cut(log[..|log| - 1], n)
  }

  lemma {:induction false} CutTakes(log: seq<Entry>, n: nat)
    requires n <= |Select(log, Pending)|
    ensures Select(log[..Cut(log, n)], Pending) == Select(log, Pending)[..n]
    ensures Select(log[Cut(log, n)..], Pending) == Select(log, Pending)[n..]
  {
    var k := Cut(log, n);
    if log == [] || |Select(log, Pending)| <= n {
      assert log[..k] == log && log[k..] == [];
    } else {
      var front, last := log[..|log| - 1], log[|log| - 1];
      CutTakes(front, n);
      assert log[..k] == front[..k] && log[k..] == front[k..] + [last];
      assert Select(log[k..], Pending) == Select(front[k..], Pending) + if last.fate == Pending then
        [last.event] else [] by {
        assert log[k..][..|log[k..]| - 1] == front[k..];
      }
    }
  }

  /** Everything recorded so far, in order: a settled stretch, the stretch the writer holds, and the stretch still
      queued. */
  datatype Journal = Journal(settled: seq<Entry>, flight: seq<Entry>, waiting: seq<Entry>)
  {
    predicate Valid()
    {
      Settled(settled) && Open(flight) && Open(waiting)
    }

    function Log(): seq<Entry>
    {
      settled + flight + waiting
    }

    function Add(e: Entry): Journal
    {
      this.(waiting := waiting + [e])
    }

    /** The writer has taken the first `n` queued events. */
    function Take(n: nat): Journal
    {
      var k := Cut(waiting, n);
      Journal(settled + flight, waiting[..k], waiting[k..])
    }

    /** The batch was written, or lost. */
    function Finish(fate: Fate): Journal
    {
      Journal(settled + Settle(flight, fate), [], waiting)
    }
  }

  /** Every container is the recorded events of its fate, in recorded order, and the two counters count theirs. */
  predicate Balanced(j: Journal, queue: seq<Event>, batch: seq<Event>, committed: seq<Event>, dropped: nat, failed: nat)
  {
    && j.Valid()
    && queue == Select(j.waiting, Pending) && batch == Select(j.flight, Pending)
    && committed == Select(j.settled, Committed)
    && dropped == |Select(j.settled, Dropped)| + |Select(j.flight, Dropped)| + |Select(j.waiting, Dropped)|
    && failed == |Select(j.settled, Failed)|
  }

  lemma AddBalance(j: Journal, q: seq<Event>, b: seq<Event>, c: seq<Event>, d: nat, f: nat, e: Event, kept: bool)
    requires Balanced(j, q, b, c, d, f)
    ensures var j' := j.Add(Entry(e, if kept then Pending else Dropped));
      && Balanced(j', if kept then q + [e] else q, b, c, if kept then d else d + 1, f)
      && Events(j'.Log()) == Events(j.Log()) + [e]
  {
    var x := Entry(e, if kept then Pending else Dropped);
    assert (j.waiting + [x])[..|j.waiting|] == j.waiting;
    assert j.Add(x).Log() == j.Log() + [x];
  }

  lemma TakeBalance(j: Journal, q: seq<Event>, c: seq<Event>, d: nat, f: nat, n: nat)
    requires Balanced(j, q, [], c, d, f) && j.flight == [] && n <= |q|
    ensures Balanced(j.Take(n), q[n..], q[..n], c, d, f) && Events(j.Take(n).Log()) == Events(j.Log())
  {
    var k := Cut(j.waiting, n);
    CutTakes(j.waiting, n);
    assert j.settled + [] == j.settled;
    assert j.waiting == j.waiting[..k] + j.waiting[k..];
    SelectConcat(j.waiting[..k], j.waiting[k..], Dropped);
    assert j.Take(n).Log() == j.Log();
  }

  lemma SameEvents(a: seq<Entry>, b: seq<Entry>, b': seq<Entry>, c: seq<Entry>)
    requires Events(b) == Events(b')
    ensures Events((a + b') + [] + c) == Events(a + b + c)
  {
    assert Events((a + b') + [] + c) == Events(a) + Events(b') + Events(c);
    assert Events(a + b + c) == Events(a) + Events(b) + Events(c);
  }

  lemma FinishBalance(j: Journal, q: seq<Event>, b: seq<Event>, c: seq<Event>, d: nat, f: nat, ok: bool)
    requires Balanced(j, q, b, c, d, f)
    ensures var j' := j.Finish(if ok then Committed else Failed);
      && Balanced(j', q, [], if ok then c + b else c, d, if ok then f else f + |b|)
      && Events(j'.Log()) == Events(j.Log())
  {
    var fate := if ok then Committed else Failed;
    var done := Settle(j.flight, fate);
    SelectSettle(j.flight, fate, Committed);
    SelectSettle(j.flight, fate, Failed);
    SelectSettle(j.flight, fate, Dropped);
    SelectConcat(j.settled, done, Committed);
    SelectConcat(j.settled, done, Failed);
    SelectConcat(j.settled, done, Dropped);
    SameEvents(j.settled, j.flight, done, j.waiting);
  }

  /** The queue, the writer's batch, the committed log and the two loss counters. `recorded` and `journal` are
      history. */
  class Writer {
    var queue: seq<Event>
    var batch: seq<Event>
    var dropped: nat
    var failed: nat
    var committed: seq<Event>
    var closed: bool
    var exited: bool
    const capacity: nat
    ghost var recorded: seq<Event>
    ghost var journal: Journal

    ghost predicate Valid()
      reads this
    {
      && capacity >= 1 && |queue| <= capacity && |batch| <= MAX_BATCH
      && Balanced(journal, queue, batch, committed, dropped, failed)
      && recorded == Events(journal.Log())
      && (batch == [] ==> journal.flight == [])
      && (exited ==> closed && queue == [] && batch == [])
    }

    constructor (queueCapacity: nat)
      ensures Valid() && recorded == [] && !closed && !exited && capacity == Max(1, queueCapacity)
    {
      queue, batch, committed, recorded, journal := [], [], [], [], Journal([], [], []);
      dropped, failed := 0, 0;
      closed, exited := false, false;
      capacity := Max(1, queueCapacity);
    }

    /** Queue the event, or count a drop when the writer is behind. */
    method Record(event: Event)
      requires Valid() && !closed
      modifies this
      ensures Valid() && !closed && exited == old(exited)
      ensures recorded == old(recorded) + [event]
      ensures batch == old(batch) && committed == old(committed) && failed == old(failed)
      ensures old(|queue|) < capacity ==> queue == old(queue) + [event] && dropped == old(dropped)
      ensures old(|queue|) == capacity ==> queue == old(queue) && dropped == old(dropped) + 1
    {
      if |queue| < capacity {
        AddBalance(journal, queue, batch, committed, dropped, failed, event, true);
        journal := journal.Add(Entry(event, Pending));
        queue := queue + [event];
      } else {
        AddBalance(journal, queue, batch, committed, dropped, failed, event, false);
        journal := journal.Add(Entry(event, Dropped));
        dropped := dropped + 1;
      }
      recorded := recorded + [event];
    }

    method CloseSenders()
      requires Valid()
      modifies this`closed
      ensures Valid() && closed
    {
      closed := true;
    }

    /** Take everything queued, up to a full batch; nothing queued and nobody left to send ends the writer. */
    method Receive() returns (n: nat)
      requires Valid() && batch == [] && !exited && (queue != [] || closed)
      modifies this
      ensures Valid() && closed == old(closed) && recorded == old(recorded)
      ensures n == Min(|old(queue)|, MAX_BATCH) && batch == old(queue)[..n] && queue == old(queue)[n..]
      ensures committed == old(committed) && dropped == old(dropped) && failed == old(failed)
      ensures exited <==> n == 0
    {
      n := Min(|queue|, MAX_BATCH);
      if n == 0 {
        exited := true;
        return;
      }
      TakeBalance(journal, queue, committed, dropped, failed, n);
      journal := journal.Take(n);
      batch := queue[..n];
      queue := queue[n..];
    }

    /** The batch was written, or its write failed and its events are counted as lost. */
    method Finish(ok: bool)
      requires Valid() && !exited
      modifies this
      ensures Valid() && batch == [] && queue == old(queue) && closed == old(closed) && !exited
      ensures recorded == old(recorded) && dropped == old(dropped)
      ensures committed == old(committed) + (if ok then old(batch) else [])
      ensures failed == old(failed) + (if ok then 0 else old(|batch|))
    {
      FinishBalance(journal, queue, batch, committed, dropped, failed, ok);
      journal := journal.Finish(if ok then Committed else Failed);
      if ok {
        committed := committed + batch;
      } else {
        failed := failed + |batch|;
      }
      batch := [];
    }

    /** The writer loop once every sender is gone: whatever the writes answer, it empties the queue and stops, and by
        then every recorded event has been committed, dropped or counted as failed. */
    method RunToExit(answers: nat -> bool)
      requires Valid() && closed && !exited && batch == []
      modifies this
      ensures Valid() && exited && queue == [] && batch == [] && recorded == old(recorded) && dropped == old(dropped)
      ensures |recorded| == dropped + |committed| + failed
    {
      var turn := 0;
      while !exited
        invariant Valid() && closed && batch == [] && recorded == old(recorded) && dropped == old(dropped)
        decreases |queue| + if exited then 0 else 1
      {
        var n := Receive();
        if n > 0 {
          Finish(answers(turn));
        }
        turn := turn + 1;
      }
      NoEventIsLostUncounted(this);
    }
  }

  // -- What validity means -----------------------------------------------------------------------------

  lemma {:induction false} FatesPartition(log: seq<Entry>)
    ensures |log| == |Select(log, Dropped)| + |Select(log, Pending)| + |Select(log, Committed)| + |Select(log, Failed)|
  {
    if log != [] {
      FatesPartition(log[..|log| - 1]);
    }
  }

  /** No event is lost uncounted: at every point the recorded events are the dropped, the queued, those in flight, the
      committed and the failed; after the writer exits none is queued or in flight. */
  lemma NoEventIsLostUncounted(w: Writer)
    requires w.Valid()
    ensures |w.recorded| == w.dropped + |w.queue| + |w.batch| + |w.committed| + w.failed
    ensures w.exited ==> |w.recorded| == w.dropped + |w.committed| + w.failed
    ensures |w.batch| <= MAX_BATCH && |w.queue| <= w.capacity
  {
    var j := w.journal;
    FatesPartition(j.settled);
    FatesPartition(j.flight);
    FatesPartition(j.waiting);
    SelectNone(j.settled, Pending);
    SelectNone(j.flight, Committed);
    SelectNone(j.flight, Failed);
    SelectNone(j.waiting, Committed);
    SelectNone(j.waiting, Failed);
  }

  /** Increasing positions of a log spell out its events of one fate. */
  lemma {:induction false} SelectIsSubsequence(log: seq<Entry>, fate: Fate) returns (at: seq<nat>)
    ensures |at| == |Select(log, fate)| && forall i, j :: 0 <= i < j < |at| ==> at[i] < at[j]
    ensures forall i :: 0 <= i < |at| ==> at[i] < |log| && log[at[i]] == Entry(Select(log, fate)[i], fate)
  {
    if log == [] {
      at := [];
    } else {
      var n := |log| - 1;
      at := SelectIsSubsequence(log[..n], fate);
      if log[n].fate == fate {
        at := at + [n];
      }
    }
  }

  /** What is committed, then in flight, then queued is one subsequence of what was recorded, in recorded order:
      nothing is written twice, invented or overtaken. */
  lemma NothingIsReordered(w: Writer) returns (at: seq<nat>)
    requires w.Valid()
    ensures |at| == |w.committed + w.batch + w.queue|
    ensures forall i, j :: 0 <= i < j < |at| ==> at[i] < at[j]
    ensures forall i :: 0 <= i < |at| ==>
      at[i] < |w.recorded| && w.recorded[at[i]] == (w.committed + w.batch + w.queue)[i]
  {
    var j := w.journal;
    var a := SelectIsSubsequence(j.settled, Committed);
    var b := SelectIsSubsequence(j.flight, Pending);
    var c := SelectIsSubsequence(j.waiting, Pending);
    var p, q := |j.settled|, |j.settled| + |j.flight|;
    at := a + seq(|b|, i requires 0 <= i < |b| => b[i] + p) + seq(|c|, i requires 0 <= i < |c| => c[i] + q);
    forall i | 0 <= i < |at|
      ensures at[i] < |w.recorded| && w.recorded[at[i]] == (w.committed + w.batch + w.queue)[i]
    {
      if i < |a| {
        assert j.Log()[at[i]] == j.settled[a[i]];
      } else if i < |a| + |b| {
        assert j.Log()[at[i]] == j.flight[b[i - |a|]];
      } else {
        assert j.Log()[at[i]] == j.waiting[c[i - |a| - |b|]];
      }
    }
  }
}
