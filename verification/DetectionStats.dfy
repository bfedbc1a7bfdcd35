/**
 Detection counters under interleaving: recorders (`detection_stats.rs`), the one flush task that drains them into the
 baseline (`agent.rs`), and any number of views adding the durable total to what is not flushed yet
 (`sql_tables.rs`).

 Rules do not touch each other's counters, so one rule is modelled; each atomic load, store, swap or transaction is one
 step. The clock value stored with a fire is left out.
 */
module DetectionStats {
  import opened Basics

  /** The counters of one rule, as each call sees them when nothing runs in between. */
  class RuleCounters {
    var fired: nat
    var flushed: nat

    ghost predicate Valid() reads this { flushed <= fired }

    constructor ()
      ensures Valid() && fired == 0 && flushed == 0
    {
      fired, flushed := 0, 0;
    }

    method Record()
      requires Valid()
      modifies this
      ensures Valid() && fired == old(fired) + 1 && flushed == old(flushed)
    {
      fired := fired + 1;
    }

    method Unflushed() returns (n: nat)
      requires Valid()
      ensures flushed + n == fired
    {
      n := Saturating(fired, flushed);
    }

    /** Takes what was not taken before; a second call in a row takes nothing. */
    method Drain() returns (delta: nat)
      requires Valid()
      modifies this
      ensures Valid() && fired == old(fired) && flushed == fired && old(flushed) + delta == fired
    {
      delta := Saturating(fired, flushed);
      flushed := fired;
    }
  }

  // ------------------------------------------------------------------------------------------
  // Interleaved
  // ------------------------------------------------------------------------------------------

  /** The flush task between its atomic steps. */
  datatype Drainer = Idle | Loaded(fired: nat) | Writing(delta: nat)

  /** A view between its atomic steps; `Shown` is what it reports. */
  datatype View = Start | GotDurable(durable: nat) | GotFired(durable: nat, fired: nat) | Shown(total: nat)

  /** `base` is the durable total at start, `drained` the sum of the deltas taken, `failed` those whose write failed. */
  datatype World = World(
    base: nat, fired: nat, flushed: nat, durable: nat, drained: nat, failed: nat, drainer: Drainer, views: map<nat,
      View>)

  datatype Step =
    | Fire
    | LoadFired
    | SwapFlushed
    | Write(ok: bool)
    | OpenView(v: nat)
    | ReadDurable(v: nat)
    | ReadFired(v: nat)
    | ReadFlushed(v: nat)

  function Initial(base: nat): World { World(base, 0, 0, base, 0, 0, Idle, map[]) }

  function Saturating(a: nat, b: nat): nat { if a >= b then a - b else 0 }

  predicate At(w: World, v: nat, view: View) { v in w.views && w.views[v] == view }

  function Next(w: World, step: Step): World
  {
    match step
    case Fire => w.(fired := w.fired + 1)
    case LoadFired => if w.drainer.Idle? then w.(drainer := Loaded(w.fired)) else w
    case SwapFlushed =>
      if w.drainer.Loaded? then
        var delta := Saturating(w.drainer.fired, w.flushed);
        w.(flushed := w.drainer.fired, drained := w.drained + delta, drainer := Writing(delta))
      else w
    case Write(ok) =>
      if !w.drainer.Writing? then w
      else if ok then w.(durable := w.durable + w.drainer.delta, drainer := Idle)
      else w.(failed := w.failed + w.drainer.delta, drainer := Idle)
    case OpenView(v) => w.(views := w.views[v := Start])
    case ReadDurable(v) => if At(w, v, Start) then w.(views := w.views[v := GotDurable(w.durable)]) else w
    case ReadFired(v) =>
      if v in w.views && w.views[v].GotDurable?
      then w.(views := w.views[v := GotFired(w.views[v].durable, w.fired)]) else w
    case ReadFlushed(v) =>
      if v in w.views && w.views[v].GotFired?
      then w.(views := w.views[v := Shown(w.views[v].durable + Saturating(w.views[v].fired, w.flushed))]) else w
  }

  function Run(base: nat, steps: seq<Step>): World
  {
    if steps == [] then Initial(base) else Next(Run(base, steps[..|steps| - 1]), steps[|steps| - 1])
  }

  /** Deltas taken and not yet decided. */
  function InFlight(d: Drainer): nat { if d.Writing? then d.delta else 0 }

  ghost predicate ViewSound(w: World, view: View)
  {
    match view
    case Start => true
    case GotDurable(d) => d <= w.base + w.flushed
    case GotFired(d, f) => d <= w.base + w.flushed && f <= w.fired
    case Shown(total) => total <= w.base + w.fired
  }

  ghost predicate Inv(w: World)
  {
    && w.flushed <= w.fired
    && w.drained == w.flushed
    && w.durable + InFlight(w.drainer) + w.failed == w.base + w.flushed
    && (w.drainer.Loaded? ==> w.flushed <= w.drainer.fired <= w.fired)
    && forall v :: v in w.views ==> ViewSound(w, w.views[v])
  }

  lemma InvNext(w: World, step: Step)
    requires Inv(w)
    ensures Inv(Next(w, step)) && w.fired <= Next(w, step).fired && w.flushed <= Next(w, step).flushed
  {
  }

  lemma {:induction false} InvAlways(base: nat, steps: seq<Step>)
    ensures Inv(Run(base, steps)) && Run(base, steps).base == base
  {
    if steps != [] {
      InvAlways(base, steps[..|steps| - 1]);
      InvNext(Run(base, steps[..|steps| - 1]), steps[|steps| - 1]);
    }
  }

  /** Under any interleaving: nothing is flushed that did not fire, the drained deltas sum to the watermark, what was
      taken is durable, in flight or lost to a failed write, and no view shows more than the base and the fires so
      far. */
  lemma NeverOverReports(base: nat, steps: seq<Step>, v: nat)
    ensures var w := Run(base, steps);
      && w.flushed <= w.fired && w.drained == w.flushed
      && w.durable + InFlight(w.drainer) + w.failed == base + w.flushed
      && (v in w.views && w.views[v].Shown? ==> w.views[v].total <= base + w.fired)
  {
    InvAlways(base, steps);
  }

  /** `snapshot` never decreases: the fire count only grows along a run. */
  lemma {:induction false} SnapshotNeverDecreases(base: nat, steps: seq<Step>, n: nat)
    requires n <= |steps|
    ensures Run(base, steps[..n]).fired <= Run(base, steps).fired
  {
    if n == |steps| {
      assert steps[..n] == steps;
    } else {
      var front := steps[..|steps| - 1];
      SnapshotNeverDecreases(base, front, n);
      assert front[..n] == steps[..n];
      InvAlways(base, front);
      InvNext(Run(base, front), steps[|steps| - 1]);
    }
  }

  /** Neither a step of the flush task nor one of view `v`. */
  predicate Aside(step: Step, v: nat)
  {
    match step
    case Fire => true
    case LoadFired => false
    case SwapFlushed => false
    case Write(_) => false
    case OpenView(u) => u != v
    case ReadDurable(u) => u != v
    case ReadFired(u) => u != v
    case ReadFlushed(u) => u != v
  }

  function RunFrom(w: World, steps: seq<Step>): World
    decreases |steps|
  {
    if steps == [] then w else RunFrom(Next(w, steps[0]), steps[1..])
  }

  /** Everything view `v` and the flush task have to do with is the same. */
  predicate SameFor(w: World, t: World, v: nat)
  {
    && v in w.views && v in t.views && t.views[v] == w.views[v] && t.base == w.base
    && t.flushed == w.flushed && t.durable == w.durable && t.failed == w.failed && t.drainer == w.drainer &&
      w.fired <= t.fired
  }

  lemma {:induction false} AsideChangesNothing(w: World, steps: seq<Step>, v: nat)
    requires v in w.views && forall i :: 0 <= i < |steps| ==> Aside(steps[i], v)
    ensures SameFor(w, RunFrom(w, steps), v)
    decreases |steps|
  {
    if steps != [] {
      AsideChangesNothing(Next(w, steps[0]), steps[1..], v);
    }
  }

  /** A view that no flush step overlaps, whatever fires or is viewed meanwhile, shows exactly the base and the fires
      up to its reading, less what is in flight or was lost to a failed write: exactly base + fired when nothing is or
      was. */
  lemma QuietViewIsExact(base: nat, before: seq<Step>, v: nat, a: seq<Step>, b: seq<Step>)
    requires forall i :: 0 <= i < |a| ==> Aside(a[i], v)
    requires forall i :: 0 <= i < |b| ==> Aside(b[i], v)
    ensures var w := Run(base, before);
      var atFired := RunFrom(Next(Next(w, OpenView(v)), ReadDurable(v)), a);
      var end := Next(RunFrom(Next(atFired, ReadFired(v)), b), ReadFlushed(v));
      && v in end.views && end.views[v].Shown?
      && end.views[v].total + InFlight(w.drainer) + w.failed == base + atFired.fired
  {
    InvAlways(base, before);
    var w := Run(base, before);
    OpenedView(w, v);
    var w1 := Next(Next(w, OpenView(v)), ReadDurable(v));
    AsideChangesNothing(w1, a, v);
    var w2 := RunFrom(w1, a);
    AsideChangesNothing(Next(w2, ReadFired(v)), b, v);
    QuietReads(w, v, w2, RunFrom(Next(w2, ReadFired(v)), b));
  }

  lemma OpenedView(w: World, v: nat)
    ensures v in Next(Next(w, OpenView(v)), ReadDurable(v)).views
    ensures Next(Next(w, OpenView(v)), ReadDurable(v)).fired == w.fired
  {
  }

  lemma QuietReads(w: World, v: nat, atFired: World, atFlushed: World)
    requires Inv(w) && w.fired <= atFired.fired
    requires SameFor(Next(Next(w, OpenView(v)), ReadDurable(v)), atFired, v)
    requires SameFor(Next(atFired, ReadFired(v)), atFlushed, v)
    ensures var end := Next(atFlushed, ReadFlushed(v));
      && v in end.views && end.views[v].Shown?
      && end.views[v].total + InFlight(w.drainer) + w.failed == w.base + atFired.fired
  {
    assert atFired.views[v] == GotDurable(w.durable);
    assert atFlushed.views[v] == GotFired(w.durable, atFired.fired);
  }

  function Fires(steps: seq<Step>): nat
  {
    if steps == [] then 0 else Fires(steps[..|steps| - 1]) + if steps[|steps| - 1].Fire? then 1 else 0
  }

  /** No fire is lost or counted twice, whatever it is interleaved with. */
  lemma {:induction false} EveryFireCounts(base: nat, steps: seq<Step>)
    ensures Run(base, steps).fired == Fires(steps)
  {
    if steps != [] {
      EveryFireCounts(base, steps[..|steps| - 1]);
    }
  }

  /** A step of a recorder or a view. */
  predicate Outside(step: Step) { !step.LoadFired? && !step.SwapFlushed? && !step.Write? }

  predicate SameFlush(w: World, t: World)
  {
    && t.base == w.base && t.flushed == w.flushed && t.durable == w.durable && t.failed == w.failed
    && t.drainer == w.drainer && w.fired <= t.fired
  }

  lemma {:induction false} OutsideChangesNothing(w: World, steps: seq<Step>)
    requires forall i :: 0 <= i < |steps| ==> Outside(steps[i])
    ensures SameFlush(w, RunFrom(w, steps))
    decreases |steps|
  {
    if steps != [] {
      OutsideChangesNothing(Next(w, steps[0]), steps[1..]);
    }
  }

  /** One flush, whatever fires and is viewed between its steps: it takes exactly what had fired when it began and was
      not taken before, and that is durable, or counted as lost when the write fails. */
  lemma FlushTakesWhatFired(base: nat, before: seq<Step>, a: seq<Step>, b: seq<Step>, ok: bool)
    requires Run(base, before).drainer.Idle?
    requires forall i :: 0 <= i < |a| ==> Outside(a[i])
    requires forall i :: 0 <= i < |b| ==> Outside(b[i])
    ensures var w := Run(base, before);
      var end := Next(RunFrom(Next(RunFrom(Next(w, LoadFired), a), SwapFlushed), b), Write(ok));
      && end.drainer.Idle? && end.flushed == w.fired
      && end.durable + end.failed == base + w.fired
      && (if ok then end.failed == w.failed else end.durable == w.durable)
  {
    InvAlways(base, before);
    var w := Run(base, before);
    var loaded := Next(w, LoadFired);
    OutsideChangesNothing(loaded, a);
    var swapped := Next(RunFrom(loaded, a), SwapFlushed);
    OutsideChangesNothing(swapped, b);
  }
}
