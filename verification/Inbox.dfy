/**
 The operator inbox (`inbox.rs`): a bounded ring of alerts with silencing, inherited mesh verdicts, recognition
 damping, in-place model damping and cursor paging.

 Scores are reals. Rationale text is reduced to the fact the code reads back from it: whether the recognition
 marker is in there.
 */
module Inbox {
  import opened Basics
  import C = Corroboration

  const U64_MAX: nat := 0xFFFF_FFFF_FFFF_FFFF
  const MAX_WHY := 300

  datatype Alert = Alert(
    ts: nat, episode: string, rule: string, score: real, confirmation: Option<C.Confirmation>,
    recognised: bool, explanation: string, backend: string)

  /** What the silence store decided about an alert. */
  datatype Decision = Unaffected | Damped(silence: string, to: real)

  const TAMPER_RULES: set<string> := {"integrity.packaged_modified", "privesc.setid_packaged_modified"}

  // ------------------------------------------------------------------------------------------
  // Rescoring
  // ------------------------------------------------------------------------------------------

  function Silenced(a: Alert, d: Decision): Alert
  {
    if d.Damped? then a.(score := d.to) else a
  }

  /** The most recent verdict of the episode fills a hole, and only a hole. */
  function Inherit(items: seq<Alert>, a: Alert): Alert
  {
    if a.confirmation.Some? || a.episode == "" then a else a.(confirmation := LastVerdict(items, a.episode))
  }

  /** The verdict an alert would inherit. */
  function Inherited(items: seq<Alert>, a: Alert): Option<C.Confirmation>
  {
    if a.episode == "" then None else LastVerdict(items, a.episode)
  }

  function LastVerdict(items: seq<Alert>, episode: string): Option<C.Confirmation>
  {
    if items == [] then None
    else
      var last := items[|items| - 1];
      if last.episode == episode && last.confirmation.Some? then last.confirmation
      else LastVerdict(items[..|items| - 1], episode)
  }

  function Recognise(a: Alert): Alert
  {
    if a.rule in TAMPER_RULES || a.confirmation.None? then a
    else
      var c := a.confirmation.value;
      if c.confirmed || c.familiar == 0 || a.recognised then a
      else a.(score := RecognitionDamp(a.score, c), recognised := true)
  }

  function Saturate16(n: nat): nat { if n <= 65535 then n else 65535 }

  /** The inbox's own reckoning of how far recognition lowers a score. */
  function RecognitionDamp(from: real, c: C.Confirmation): real
  {
    var fraction := Saturate16(c.familiar) as real / Saturate16(Max(c.asked, 1)) as real;
    from * (1.0 - 0.6 * (if fraction < 0.0 then 0.0 else if fraction > 1.0 then 1.0 else fraction))
  }

  /** The inbox and the round reckon alike. */
  lemma DampsAlike(from: real, c: C.Confirmation)
    ensures RecognitionDamp(from, c) == C.ExplainedSuspicion(from, c)
  {
    var fraction := Saturate16(c.familiar) as real / Saturate16(Max(c.asked, 1)) as real;
    assert fraction >= 0.0;
    assert C.RecognisedFraction(c) == if fraction > 1.0 then 1.0 else fraction;
  }

  function Explain(a: Alert, to: real, why: string, backend: string): Alert
  {
    if a.explanation != "" then a
    else
      a.(explanation := why[..Min(|why|, MAX_WHY)],
         backend := if backend != "" then backend else a.backend,
         score := if to >= a.score then a.score else Higher(to, a.score * 0.4))
  }

  function Higher(x: real, y: real): real { if x >= y then x else y }

  /** What a model verdict makes of an alert no model has spoken for: the first characters of its explanation, its
      backend when it names one, and its score when that is lower, though no lower than two fifths of what there was;
      nothing else changes. */
  predicate SpokenFor(a: Alert, b: Alert, to: real, why: string, backend: string)
  {
    && b == a.(explanation := b.explanation, backend := b.backend, score := b.score)
    && b.explanation <= why && |b.explanation| == Min(|why|, 300)
    && b.backend == (if backend == "" then a.backend else backend)
    && (to >= a.score ==> b.score == a.score)
    && (to < a.score ==> b.score >= to && b.score >= a.score * 0.4 && (b.score == to || b.score == a.score * 0.4))
  }

  lemma ExplainSpeaks(a: Alert, to: real, why: string, backend: string)
    requires a.explanation == ""
    ensures SpokenFor(a, Explain(a, to, why, backend), to, why, backend)
  {
  }

  /** A ring before and after a verdict: the alerts it reaches are spoken for, the others stay as they are. */
  predicate Spoken(before: seq<Alert>, after: seq<Alert>, episode: string, to: real, why: string, backend: string)
  {
    && |after| == |before|
    && forall i :: 0 <= i < |before| ==>
         if before[i].episode == episode != "" && before[i].explanation == ""
         then SpokenFor(before[i], after[i], to, why, backend) else after[i] == before[i]
  }

  lemma ExplainAllSpeaks(items: seq<Alert>, episode: string, to: real, why: string, backend: string)
    requires episode != ""
    ensures Spoken(items, ExplainAll(items, episode, to, why, backend), episode, to, why, backend)
  {
    forall i | 0 <= i < |items| && items[i].explanation == ""
      ensures SpokenFor(items[i], Explain(items[i], to, why, backend), to, why, backend)
    {
      ExplainSpeaks(items[i], to, why, backend);
    }
  }

  /** The verdict the last alert of the episode that has one carries. */
  predicate IsLatestVerdict(items: seq<Alert>, episode: string, v: Option<C.Confirmation>)
  {
    if v.None? then forall i :: 0 <= i < |items| && items[i].episode == episode ==> items[i].confirmation.None?
    else
      exists i ::
        && 0 <= i < |items| && items[i].episode == episode && items[i].confirmation == v
        && forall j :: i < j < |items| && items[j].episode == episode ==> items[j].confirmation.None?
  }

  lemma {:induction false} LastVerdictIsLatest(items: seq<Alert>, episode: string)
    ensures IsLatestVerdict(items, episode, LastVerdict(items, episode))
  {
    if items != [] {
      var n := |items| - 1;
      var front, v := items[..n], LastVerdict(items[..n], episode);
      LastVerdictIsLatest(front, episode);
      if items[n].episode != episode || items[n].confirmation.None? {
        if v.Some? {
          var i :| 0 <= i < n && front[i].episode == episode && front[i].confirmation == v
                && forall j :: i < j < n && front[j].episode == episode ==> front[j].confirmation.None?;
          assert items[i] == front[i] && forall j :: i < j < n ==> items[j] == front[j];
        } else {
          assert forall i :: 0 <= i < n ==> items[i] == front[i];
        }
      }
    }
  }

  /** What becomes of an alert when it is stored: it takes the score the silence left it with, inherits the latest
      verdict of its episode when it has none, and is lowered once when its verdict is one of recognition and the
      finding is not about tampering; nothing else changes. */
  predicate StoredAs(items: seq<Alert>, a: Alert, d: Decision, b: Alert)
  {
    var from := if d.Damped? then d.to else a.score;
    var v := b.confirmation;
    var lowered := !a.recognised && v.Some? && !v.value.confirmed && v.value.familiar > 0
                   && a.rule != "integrity.packaged_modified" && a.rule != "privesc.setid_packaged_modified";
    && b == a.(score := b.score, confirmation := v, recognised := a.recognised || lowered)
    && (if a.confirmation.Some? || a.episode == "" then v == a.confirmation else IsLatestVerdict(items, a.episode, v))
    && b.score == if lowered then C.ExplainedSuspicion(from, v.value) else from
  }

  lemma StoringMeans(items: seq<Alert>, a: Alert, d: Decision)
    ensures StoredAs(items, a, d, Recognise(Inherit(items, Silenced(a, d))))
  {
    LastVerdictIsLatest(items, a.episode);
    var b := Inherit(items, Silenced(a, d));
    if b.confirmation.Some? {
      DampsAlike(b.score, b.confirmation.value);
    }
  }

  // ------------------------------------------------------------------------------------------
  // The ring
  // ------------------------------------------------------------------------------------------

  function Push(items: seq<Alert>, capacity: nat, a: Alert): seq<Alert>
  {
    (if |items| >= capacity && items != [] then items[1..] else items) + [a]
  }

  /** One alert more at the end, and the oldest gone when the ring was full. */
  predicate IsPushed(before: seq<Alert>, after: seq<Alert>, capacity: nat)
  {
    && |after| == Min(|before| + 1, capacity) && after != []
    && forall i :: 0 <= i < |after| - 1 ==> after[i] == before[|before| + 1 - |after| + i]
  }

  lemma PushMeans(items: seq<Alert>, capacity: nat, a: Alert)
    requires capacity >= 1 && |items| <= capacity
    ensures IsPushed(items, Push(items, capacity, a), capacity)
    ensures var pushed := Push(items, capacity, a); pushed[|pushed| - 1] == a
  {
  }

  function ExplainAll(items: seq<Alert>, episode: string, to: real, why: string, backend: string): seq<Alert>
  {
    seq(|items|, i requires 0 <= i < |items| =>
      if items[i].episode == episode then Explain(items[i], to, why, backend) else items[i])
  }

  /** The alerts a model verdict reaches: those of the episode no model has spoken for. */
  function Unexplained(items: seq<Alert>, episode: string): set<nat>
  {
    set i: nat | i < |items| && episode != "" && items[i].episode == episode && items[i].explanation == ""
  }

  lemma UnexplainedGrows(items: seq<Alert>, n: nat, episode: string)
    requires n < |items| && episode != ""
    ensures |Unexplained(items[..n + 1], episode)|
         == |Unexplained(items[..n], episode)|
            + if items[n].episode == episode && items[n].explanation == "" then 1 else 0
  {
    var extra := if items[n].episode == episode && items[n].explanation == "" then {n} else {};
    assert Unexplained(items[..n + 1], episode) == Unexplained(items[..n], episode) + extra;
    assert n !in Unexplained(items[..n], episode);
  }

  /** The ring without the expired alerts at its head. */
  function Fresh(items: seq<Alert>, cutoff: int): seq<Alert>
  {
    if items != [] && items[0].ts < cutoff then Fresh(items[1..], cutoff) else items
  }

  /** Exactly the expired head is gone: up to the first alert that has not expired. */
  predicate IsSwept(before: seq<Alert>, after: seq<Alert>, cutoff: int)
  {
    && |after| <= |before| && after == before[|before| - |after|..]
    && (forall i :: 0 <= i < |before| - |after| ==> before[i].ts < cutoff)
    && (after != [] ==> after[0].ts >= cutoff)
  }

  lemma {:induction false} FreshIsSwept(items: seq<Alert>, cutoff: int)
    ensures IsSwept(items, Fresh(items, cutoff), cutoff)
  {
    if items != [] && items[0].ts < cutoff {
      FreshIsSwept(items[1..], cutoff);
      assert forall i :: 0 < i < |items| ==> items[i] == items[1..][i - 1];
    }
  }

  function Matching(items: seq<Alert>, since: nat): seq<Alert>
  {
    if items == [] then []
    else (if items[0].ts >= since then [items[0]] else []) + Matching(items[1..], since)
  }

  function Page(items: seq<Alert>, since: nat, cap: nat): seq<Alert>
  {
    var all := Matching(items, since);
    if cap == 0 || |all| <= cap then all else all[..cap]
  }

  /** One past the latest timestamp of the page, saturating at 64 bits. */
  function Cursor(page: seq<Alert>, since: nat): nat
  {
    if page == [] then since else Min(Latest(page, since) + 1, U64_MAX)
  }

  function Latest(page: seq<Alert>, since: nat): nat
  {
    if page == [] then since else Max(page[|page| - 1].ts, Latest(page[..|page| - 1], since))
  }

  class AlertInbox {
    var items: seq<Alert>
    const capacity: nat
    const retention: nat
    const threshold: real

    ghost predicate Valid() reads this { capacity >= 1 && |items| <= capacity }

    constructor (capacity: nat, retention: nat, threshold: real)
      ensures Valid() && items == [] && this.capacity == Max(1, capacity)
      ensures this.retention == retention && this.threshold == threshold
    {
      items := [];
      this.capacity, this.retention, this.threshold := Max(1, capacity), retention, threshold;
    }

    /** Returns the silence that suppressed the alert, if one did. */
    method Append(alert: Alert, decision: Decision) returns (suppressed: Option<string>)
      requires Valid()
      modifies this
      ensures Valid()
      ensures suppressed.Some? <==> decision.Damped? && decision.to < threshold
      ensures suppressed.Some? ==> suppressed.value == decision.silence && items == old(items)
      ensures suppressed.None? ==>
        && items == Push(old(items), capacity, Recognise(Inherit(old(items), Silenced(alert, decision))))
        && IsPushed(old(items), items, capacity) && StoredAs(old(items), alert, decision, items[|items| - 1])
      ensures forall log :: items == Step(capacity, threshold, Ring(old(items), log), Op.Append(alert, decision)).items
    {
      StoringMeans(items, alert, decision);
      PushMeans(items, capacity, Recognise(Inherit(items, Silenced(alert, decision))));
      var a := alert;
      if decision.Damped? {
        if decision.to < threshold {
          return Some(decision.silence);
        }
        a := a.(score := decision.to);
      }
      a := Recognise(Inherit(items, a));
      if |items| >= capacity && items != [] {
        items := items[1..];
      }
      items := items + [a];
      return None;
    }

    method ApplyModelVerdict(episode: string, to: real, why: string, backend: string) returns (reached: nat)
      requires Valid()
      modifies this
      ensures Valid()
      ensures items == if episode == "" then old(items) else ExplainAll(old(items), episode, to, why, backend)
      ensures Spoken(old(items), items, episode, to, why, backend)
      ensures forall log ::
        items == Step(capacity, threshold, Ring(old(items), log), Op.Verdict(episode, to, why, backend)).items
      ensures reached == |Unexplained(old(items), episode)|
    {
      reached := 0;
      if episode == "" {
        return;
      }
      ghost var before := items;
      var n := 0;
      while n < |items|
        invariant 0 <= n <= |items| == |before|
        invariant forall i :: n <= i < |items| ==> items[i] == before[i]
        invariant forall i :: 0 <= i < n ==> items[i] == ExplainAll(before, episode, to, why, backend)[i]
        invariant reached == |Unexplained(before[..n], episode)|
      {
        var a := items[n];
        UnexplainedGrows(before, n, episode);
        if a.episode == episode && a.explanation == "" {
          var b := a.(explanation := why[..Min(|why|, MAX_WHY)]);
          if backend != "" {
            b := b.(backend := backend);
          }
          reached := reached + 1;
          if to < a.score {
            b := b.(score := Higher(to, a.score * 0.4));
          }
          items := items[n := b];
        }
        n := n + 1;
      }
      assert before[..n] == before;
      ExplainAllSpeaks(before, episode, to, why, backend);
      assert items == ExplainAll(before, episode, to, why, backend);
    }

    /** Sweep the expired head, then one page of what is at or after `since`; `cap == 0` means no cap. */
    method ReadSince(since: nat, cap: nat, now: int) returns (page: seq<Alert>, cursor: nat)
      requires Valid()
      modifies this
      ensures Valid()
      ensures items == Fresh(old(items), Max(0, now - retention))
      ensures forall log ::
        items == Step(capacity, threshold, Ring(old(items), log), Op.Read(Max(0, now - retention))).items
      ensures page == Page(items, since, cap) && cursor == Cursor(page, since)
    {
      SweepHead(Max(0, now - retention));
      page, cursor := ReadPage(items, since, cap);
    }

    /** Drop alerts from the front while they are older than the cutoff. */
    method SweepHead(cutoff: int)
      requires Valid()
      modifies this
      ensures Valid() && items == Fresh(old(items), cutoff)
      ensures IsSwept(old(items), items, cutoff)
    {
      FreshIsSwept(items, cutoff);
      while items != [] && items[0].ts < cutoff
        invariant Valid() && Fresh(items, cutoff) == Fresh(old(items), cutoff)
        decreases |items|
      {
        items := items[1..];
      }
    }
  }

  lemma MatchingFrom(items: seq<Alert>, since: nat, n: nat, page: seq<Alert>)
    requires n < |items| && Matching(items, since) == page + Matching(items[n..], since)
    ensures var found := if items[n].ts >= since then page + [items[n]] else page;
      Matching(items, since) == found + Matching(items[n + 1..], since)
  {
    assert items[n..][1..] == items[n + 1..] && items[n..][0] == items[n];
    assert page + ([items[n]] + Matching(items[n + 1..], since)) ==
      (page + [items[n]]) + Matching(items[n + 1..], since);
    assert [] + Matching(items[n + 1..], since) == Matching(items[n + 1..], since);
  }

  lemma LatestGrows(page: seq<Alert>, since: nat, a: Alert)
    ensures Latest(page + [a], since) == Max(a.ts, Latest(page, since))
  {
    assert (page + [a])[..|page|] == page;
  }

  /** The scan of a read: matching alerts in ring order up to the cap, and the cursor past the latest of them. */
  method ReadPage(items: seq<Alert>, since: nat, cap: nat) returns (page: seq<Alert>, cursor: nat)
    ensures page == Page(items, since, cap) && cursor == Cursor(page, since)
  {
    page := [];
    var latest, n := since, 0;
    while n < |items| && (cap == 0 || |page| < cap)
      invariant 0 <= n <= |items|
      invariant cap == 0 || |page| <= cap
      invariant Matching(items, since) == page + Matching(items[n..], since)
      invariant latest == Latest(page, since)
    {
      MatchingFrom(items, since, n, page);
      if items[n].ts >= since {
        latest := Max(items[n].ts, latest);
        LatestGrows(page, since, items[n]);
        page := page + [items[n]];
      }
      n := n + 1;
    }
    cursor := if page == [] then since else Min(latest + 1, U64_MAX);
  }

  // ------------------------------------------------------------------------------------------
  // Every run: a mesh verdict survives supersession
  // ------------------------------------------------------------------------------------------

  datatype Op =
    | Append(alert: Alert, decision: Decision)
    | Verdict(episode: string, to: real, why: string, backend: string)
    | Read(cutoff: int)

  /** What was stored, and what has been done to it since: the alert as the silences left it, and every touch it had. */
  datatype Stored = Stored(silenced: Alert, touches: seq<Touch>)

  /** What may happen to a stored alert: it is recognised, possibly through a verdict it inherits, or a model speaks
      for it. */
  datatype Touch = Recognition(verdict: Option<C.Confirmation>) | Model(to: real, why: string, backend: string)

  function Touched(a: Alert, t: Touch): Alert
  {
    match t
    case Recognition(v) => Recognise(if a.confirmation.None? then a.(confirmation := v) else a)
    case Model(to, why, backend) => Explain(a, to, why, backend)
  }

  function Life(a: Alert, touches: seq<Touch>): Alert
    decreases |touches|
  {
    if touches == [] then a else Life(Touched(a, touches[0]), touches[1..])
  }

  datatype Ring = Ring(items: seq<Alert>, stored: seq<Stored>)

  /** A model verdict touches what is still in a ring of `n`. */
  function TouchAll(stored: seq<Stored>, n: nat, episode: string, t: Touch): seq<Stored>
  {
    seq(|stored|, k requires 0 <= k < |stored| =>
      if k + n >= |stored| && stored[k].silenced.episode == episode then
        stored[k].(touches := stored[k].touches + [t]) else stored[k])
  }

  function Step(capacity: nat, threshold: real, s: Ring, op: Op): Ring
  {
    match op
    case Append(alert, d) =>
      if d.Damped? && d.to < threshold then s
      else
        var a := Silenced(alert, d);
        Ring(Push(s.items, capacity, Recognise(Inherit(s.items, a))),
          s.stored + [Stored(a, [Recognition(Inherited(s.items, a))])])
    case Verdict(episode, to, why, backend) =>
      if episode == "" then s
      else Ring(ExplainAll(s.items, episode, to, why, backend),
        TouchAll(s.stored, |s.items|, episode, Model(to, why, backend)))
    case Read(cutoff) => s.(items := Fresh(s.items, cutoff))
  }

  function Run(capacity: nat, threshold: real, ops: seq<Op>): Ring
  {
    if ops == [] then Ring([], [])
    else Step(capacity, threshold, Run(capacity, threshold, ops[..|ops| - 1]), ops[|ops| - 1])
  }

  /** Once a ring entry of an episode carries a verdict, every later one does. */
  ghost predicate VerdictsStick(items: seq<Alert>)
  {
    forall i, j :: 0 <= i < j < |items| && items[i].episode == items[j].episode != "" && items[i].confirmation.Some?
      ==> items[j].confirmation.Some?
  }

  /** The ring is the end of what was stored, each alert with everything that was done to it. */
  ghost predicate IsSuffix(items: seq<Alert>, stored: seq<Stored>)
  {
    |items| <= |stored| && forall i :: 0 <= i < |items| ==> Evolved(items[i], stored[|stored| - |items| + i])
  }

  predicate Evolved(a: Alert, st: Stored)
  {
    a == Life(st.silenced, st.touches) && a.episode == st.silenced.episode
  }

  lemma {:induction false} LifeAppend(a: Alert, touches: seq<Touch>, t: Touch)
    ensures Life(a, touches + [t]) == Touched(Life(a, touches), t)
    decreases |touches|
  {
    if touches == [] {
      assert [] + [t] == [t] && [t][1..] == [];
      assert Life(a, [t]) == Life(Touched(a, t), []);
    } else {
      assert (touches + [t])[1..] == touches[1..] + [t];
      LifeAppend(Touched(a, touches[0]), touches[1..], t);
    }
  }

  lemma EvolvedNext(a: Alert, st: Stored, t: Touch)
    requires Evolved(a, st)
    ensures Evolved(Touched(a, t), st.(touches := st.touches + [t]))
  {
    LifeAppend(st.silenced, st.touches, t);
  }

  /** Being stored is being recognised, with whatever verdict the ring had for the episode. */
  lemma StoredIsTouched(items: seq<Alert>, a: Alert)
    ensures Evolved(Recognise(Inherit(items, a)), Stored(a, [Recognition(Inherited(items, a))]))
  {
    var t := Recognition(Inherited(items, a));
    assert [t][1..] == [];
    assert Life(a, [t]) == Life(Touched(a, t), []);
    assert a.confirmation.None? && a.episode == "" ==> a.(confirmation := None) == a;
  }

  lemma {:induction false} FreshIsSuffix(items: seq<Alert>, cutoff: int)
    ensures exists k :: 0 <= k <= |items| && Fresh(items, cutoff) == items[k..]
  {
    if items != [] && items[0].ts < cutoff {
      FreshIsSuffix(items[1..], cutoff);
      var k :| 0 <= k <= |items[1..]| && Fresh(items[1..], cutoff) == items[1..][k..];
      assert Fresh(items, cutoff) == items[k + 1..];
    } else {
      assert items == items[0..];
    }
  }

  lemma {:induction false} LastVerdictFinds(items: seq<Alert>, episode: string)
    ensures LastVerdict(items, episode).Some?
       <==> exists i :: 0 <= i < |items| && items[i].episode == episode && items[i].confirmation.Some?
  {
    if items != [] {
      LastVerdictFinds(items[..|items| - 1], episode);
      var n := |items| - 1;
      if items[n].episode == episode && items[n].confirmation.Some? {
      } else if LastVerdict(items, episode).Some? {
        var i :| 0 <= i < n && items[..n][i].episode == episode && items[..n][i].confirmation.Some?;
        assert items[i].episode == episode;
      } else {
        forall i | 0 <= i < n ensures !(items[i].episode == episode && items[i].confirmation.Some?) {
          assert items[..n][i] == items[i];
        }
      }
    }
  }

  lemma AppendSticks(items: seq<Alert>, stored: seq<Stored>, capacity: nat, alert: Alert)
    requires VerdictsStick(items) && IsSuffix(items, stored)
    ensures VerdictsStick(Push(items, capacity, Recognise(Inherit(items, alert))))
    ensures IsSuffix(Push(items, capacity, Recognise(Inherit(items, alert))),
      stored + [Stored(alert, [Recognition(Inherited(items, alert))])])
  {
    LastVerdictFinds(items, alert.episode);
    StoredIsTouched(items, alert);
  }

  lemma VerdictSticks(items: seq<Alert>, stored: seq<Stored>, episode: string, to: real, why: string, backend: string)
    requires VerdictsStick(items) && IsSuffix(items, stored)
    ensures VerdictsStick(ExplainAll(items, episode, to, why, backend))
    ensures IsSuffix(ExplainAll(items, episode, to, why, backend),
      TouchAll(stored, |items|, episode, Model(to, why, backend)))
  {
    var after, log := ExplainAll(items, episode, to, why, backend),
      TouchAll(stored, |items|, episode, Model(to, why, backend));
    var k := |stored| - |items|;
    forall i | 0 <= i < |items| ensures Evolved(after[i], log[k + i]) {
      assert Evolved(items[i], stored[k + i]);
      EvolvedNext(items[i], stored[k + i], Model(to, why, backend));
    }
  }

  lemma ReadSticks(items: seq<Alert>, stored: seq<Stored>, cutoff: int)
    requires VerdictsStick(items) && IsSuffix(items, stored)
    ensures VerdictsStick(Fresh(items, cutoff)) && IsSuffix(Fresh(items, cutoff), stored)
    ensures |Fresh(items, cutoff)| <= |items|
  {
    FreshIsSuffix(items, cutoff);
    var k :| 0 <= k <= |items| && Fresh(items, cutoff) == items[k..];
    SuffixSticks(items, stored, k);
  }

  lemma SuffixSticks(items: seq<Alert>, stored: seq<Stored>, k: nat)
    requires VerdictsStick(items) && IsSuffix(items, stored) && k <= |items|
    ensures VerdictsStick(items[k..]) && IsSuffix(items[k..], stored)
  {
    assert forall i :: 0 <= i < |items| - k ==> items[k..][i] == items[k + i];
  }

  /** In every reachable inbox: the ring is bounded and is a suffix of what was stored, and a verdict, once on an
      alert of an episode, is on every later one in the ring. */
  lemma {:induction false} VerdictsStickAlways(capacity: nat, threshold: real, ops: seq<Op>)
    ensures VerdictsStick(Run(capacity, threshold, ops).items)
    ensures IsSuffix(Run(capacity, threshold, ops).items, Run(capacity, threshold, ops).stored)
    ensures |Run(capacity, threshold, ops).items| <= Max(1, capacity)
  {
    if ops != [] {
      VerdictsStickAlways(capacity, threshold, ops[..|ops| - 1]);
      var s := Run(capacity, threshold, ops[..|ops| - 1]);
      match ops[|ops| - 1]
      case Append(alert, d) => AppendSticks(s.items, s.stored, capacity, Silenced(alert, d));
      case Verdict(episode, to, why, backend) => VerdictSticks(s.items, s.stored, episode, to, why, backend);
      case Read(cutoff) => ReadSticks(s.items, s.stored, cutoff);
    }
  }

  // ------------------------------------------------------------------------------------------
  // The score over an alert's whole life
  // ------------------------------------------------------------------------------------------

  /** The score after `n` full lowerings, each to 0.4 of what it found. */
  function Lowest(score: real, n: nat): real { if n == 0 then score else 0.4 * Lowest(score, n - 1) }

  /** Verdicts whose explanation is empty; the explanation being the marker, they leave no trace of having run. */
  function Unmarked(touches: seq<Touch>): nat
  {
    if touches == [] then 0 else (if touches[0].Model? && touches[0].why == "" then 1 else 0) + Unmarked(touches[1..])
  }

  /** Lowerings the alert still has ahead of it. */
  function Ahead(a: Alert): nat
  {
    (if a.explanation == "" then 1 else 0) + (if a.recognised || a.rule in TAMPER_RULES then 0 else 1)
  }

  lemma OneTouch(a: Alert, t: Touch)
    requires a.score >= 0.0
    ensures var b := Touched(a, t); var marked := if t.Model? && t.why == "" then 1 else 0;
      && a.score * 0.4 <= b.score <= a.score
      && Ahead(b) <= Ahead(a) && a.rule == b.rule
      && (b.score == a.score || Ahead(b) + 1 <= Ahead(a) + marked)
  {
    if t.Recognition? {
      var c := if a.confirmation.None? then t.verdict else a.confirmation;
      if c.Some? {
        DampsAlike(a.score, c.value);
      }
    }
  }

  /** The score never rises, and never falls below 0.4 per lowering still ahead and one more per unmarked verdict. */
  lemma {:induction false} ScoreFloor(a: Alert, touches: seq<Touch>)
    requires a.score >= 0.0
    ensures Lowest(a.score, Ahead(a) + Unmarked(touches)) <= Life(a, touches).score <= a.score
    decreases |touches|
  {
    if touches == [] {
      LowestOrder(a.score, a.score, 0, Ahead(a));
    } else {
      var b := Touched(a, touches[0]);
      OneTouch(a, touches[0]);
      ScoreFloor(b, touches[1..]);
      LowestOrder(a.score, b.score, Ahead(b) + Unmarked(touches[1..]), Ahead(a) + Unmarked(touches));
    }
  }

  /** From a fresh alert, and when every verdict explains itself: 0.16 of the silenced score, or 0.4 for a tamper
      rule. */
  lemma ExplainedVerdictsKeepTheFloor(a: Alert, touches: seq<Touch>)
    requires a.score >= 0.0 && Unmarked(touches) == 0
    ensures a.score * (if a.rule in TAMPER_RULES then 0.4 else 0.16) <= Life(a, touches).score <= a.score
  {
    ScoreFloor(a, touches);
    LowestOrder(a.score, a.score, Ahead(a), if a.rule in TAMPER_RULES then 1 else 2);
    assert Lowest(a.score, 1) == 0.4 * a.score && Lowest(a.score, 2) == 0.4 * Lowest(a.score, 1);
  }

  lemma {:induction false} LowestOrder(before: real, after: real, k: nat, m: nat)
    requires 0.0 <= before && before * 0.4 <= after && k <= m
    requires after >= before || k + 1 <= m
    ensures 0.0 <= Lowest(before, m) <= Lowest(after, k)
  {
    if k > 0 {
      LowestOrder(before, after, k - 1, m - 1);
    } else if m > 1 {
      LowestOrder(before, after, 0, m - 1);
    } else if m == 1 {
      assert Lowest(before, 1) == 0.4 * Lowest(before, 0);
    }
  }

  // -- Every alert of every run ------------------------------------------------------------------------

  predicate Scored(op: Op)
  {
    op.Append? ==> op.alert.score >= 0.0 && (op.decision.Damped? ==> op.decision.to >= 0.0)
  }

  predicate Explained(op: Op)
  {
    op.Verdict? ==> op.why != ""
  }

  lemma {:induction false} UnmarkedAppend(touches: seq<Touch>, t: Touch)
    ensures Unmarked(touches + [t]) == Unmarked(touches) + if t.Model? && t.why == "" then 1 else 0
    decreases |touches|
  {
    if touches == [] {
      assert [] + [t] == [t];
    } else {
      assert (touches + [t])[1..] == touches[1..] + [t];
      UnmarkedAppend(touches[1..], t);
    }
  }

  predicate AllScored(stored: seq<Stored>)
  {
    forall k :: 0 <= k < |stored| ==> stored[k].silenced.score >= 0.0
  }

  predicate AllMarked(stored: seq<Stored>)
  {
    forall k :: 0 <= k < |stored| ==> Unmarked(stored[k].touches) == 0
  }

  lemma StoredNext(capacity: nat, threshold: real, s: Ring, op: Op)
    ensures AllScored(s.stored) && Scored(op) ==> AllScored(Step(capacity, threshold, s, op).stored)
    ensures AllMarked(s.stored) && Explained(op) ==> AllMarked(Step(capacity, threshold, s, op).stored)
  {
    if op.Verdict? {
      var t := Model(op.to, op.why, op.backend);
      forall k | 0 <= k < |s.stored| ensures Unmarked(s.stored[k].touches + [t]) ==
        Unmarked(s.stored[k].touches) + if op.why == "" then 1 else 0 {
        UnmarkedAppend(s.stored[k].touches, t);
      }
    } else if op.Append? {
      var t := Recognition(Inherited(s.items, Silenced(op.alert, op.decision)));
      assert Unmarked([t]) == Unmarked([t][1..]) == 0;
    }
  }

  lemma {:induction false} StoredAlways(capacity: nat, threshold: real, ops: seq<Op>)
    ensures (forall i :: 0 <= i < |ops| ==> Scored(ops[i])) ==> AllScored(Run(capacity, threshold, ops).stored)
    ensures (forall i :: 0 <= i < |ops| ==> Explained(ops[i])) ==> AllMarked(Run(capacity, threshold, ops).stored)
  {
    if ops != [] {
      var n := |ops| - 1;
      StoredAlways(capacity, threshold, ops[..n]);
      StoredNext(capacity, threshold, Run(capacity, threshold, ops[..n]), ops[n]);
    }
  }

  /** In every run, whatever is appended, judged and swept: no alert of the ring scores more than the silences left it
      with, and none less than 0.4 of that per lowering it had ahead and one more per verdict without an explanation.
      When every verdict explains itself that is 0.16 of the silenced score, or 0.4 for a tamper rule. */
  lemma EveryScoreKeepsItsFloor(capacity: nat, threshold: real, ops: seq<Op>, i: nat)
    requires (forall k :: 0 <= k < |ops| ==> Scored(ops[k])) && i < |Run(capacity, threshold, ops).items|
    ensures var s := Run(capacity, threshold, ops);
      && |s.items| <= |s.stored|
      && var st := s.stored[|s.stored| - |s.items| + i];
         && s.items[i] == Life(st.silenced, st.touches)
         && Lowest(st.silenced.score,
           Ahead(st.silenced) + Unmarked(st.touches)) <= s.items[i].score <= st.silenced.score
         && ((forall k :: 0 <= k < |ops| ==> Explained(ops[k])) ==>
               st.silenced.score * (if st.silenced.rule in TAMPER_RULES then 0.4 else 0.16) <= s.items[i].score)
  {
    VerdictsStickAlways(capacity, threshold, ops);
    StoredAlways(capacity, threshold, ops);
    var s := Run(capacity, threshold, ops);
    var st := s.stored[|s.stored| - |s.items| + i];
    assert Evolved(s.items[i], st);
    ScoreFloor(st.silenced, st.touches);
    if Unmarked(st.touches) == 0 {
      ExplainedVerdictsKeepTheFloor(st.silenced, st.touches);
    }
  }

  /** An alert the whole neighbourhood recognises is stored, then `n` verdicts of zero come without an explanation. */
  function Worst(a: Alert, n: nat): seq<Op>
  {
    if n == 0 then [Append(a, Unaffected)] else Worst(a, n - 1) + [Verdict(a.episode, 0.0, "", "")]
  }

  /** Nothing is wrong with the alert, and everybody asked recognises its program. */
  predicate Plain(a: Alert)
  {
    && a.score > 0.0 && a.episode != "" && a.rule !in TAMPER_RULES && a.explanation == "" && !a.recognised
    && a.confirmation.Some? && !a.confirmation.value.confirmed &&
      0 < a.confirmation.value.familiar == a.confirmation.value.asked <= 65535
  }

  lemma RunAppend(capacity: nat, threshold: real, ops: seq<Op>, op: Op)
    ensures Run(capacity, threshold, ops + [op]) == Step(capacity, threshold, Run(capacity, threshold, ops), op)
  {
    assert (ops + [op])[..|ops|] == ops;
  }

  lemma FullRecognition(a: Alert)
    requires Plain(a)
    ensures Recognise(a) == a.(score := Lowest(a.score, 1), recognised := true)
  {
    var c := a.confirmation.value;
    var x := Saturate16(c.familiar) as real;
    assert x / x == 1.0;
    assert RecognitionDamp(a.score, c) == a.score * (1.0 - 0.6 * 1.0);
    assert Lowest(a.score, 1) == 0.4 * Lowest(a.score, 0);
  }

  lemma {:induction false} WorstLowers(capacity: nat, threshold: real, a: Alert, n: nat)
    requires Plain(a)
    ensures Run(capacity, threshold, Worst(a, n)).items == [a.(score := Lowest(a.score, n + 1), recognised := true)]
  {
    if n == 0 {
      RunAppend(capacity, threshold, [], Append(a, Unaffected));
      assert [] + [Append(a, Unaffected)] == Worst(a, 0);
      FullRecognition(a);
    } else {
      WorstLowers(capacity, threshold, a, n - 1);
      LowestPositive(a.score, n);
      var before := Run(capacity, threshold, Worst(a, n - 1));
      RunAppend(capacity, threshold, Worst(a, n - 1), Verdict(a.episode, 0.0, "", ""));
      assert Explain(before.items[0], 0.0, "", "") == before.items[0].(score := 0.4 * before.items[0].score);
    }
  }

  lemma {:induction false} LowestPositive(score: real, n: nat)
    requires score > 0.0
    ensures Lowest(score, n) > 0.0
  {
    if n > 0 {
      LowestPositive(score, n - 1);
    }
  }

  /** The floor is reached, and broken, in runs: after `n` verdicts without an explanation and one with, an alert that
      everybody recognises stands at exactly 0.4 to the power `n + 2` of its score, which is below 0.16 of it exactly
      when n > 0. */
  lemma UnmarkedVerdictsBreakTheFloor(capacity: nat, threshold: real, a: Alert, n: nat)
    requires Plain(a)
    ensures var items := Run(capacity, threshold, Worst(a, n) + [Verdict(a.episode, 0.0, "x", "")]).items;
      |items| == 1 && items[0].score == Lowest(a.score, n + 2) && (items[0].score < 0.16 * a.score <==> n > 0)
  {
    WorstLowers(capacity, threshold, a, n);
    LowestPositive(a.score, n + 1);
    RunAppend(capacity, threshold, Worst(a, n), Verdict(a.episode, 0.0, "x", ""));
    assert Lowest(a.score, 1) == 0.4 * a.score && Lowest(a.score, 2) == 0.4 * Lowest(a.score, 1);
    if n > 0 {
      LowestOrder(a.score, a.score, 3, n + 2);
      assert Lowest(a.score, 3) == 0.4 * Lowest(a.score, 2);
      LowestPositive(a.score, 2);
    }
  }

  /** The score a round announces for a recognised program is the one the inbox stores when no silence applied, unless
      the finding is about tampering: then the stored score is not lowered at all. */
  lemma AnnouncedIsStored(items: seq<Alert>, a: Alert, c: C.Confirmation)
    requires a.confirmation == Some(c) && !a.recognised && a.score > 0.0
    requires !c.confirmed && c.familiar > 0
    ensures Recognise(Inherit(items, Silenced(a, Unaffected))).score == C.ExplainedSuspicion(a.score, c)
       <==> a.rule !in TAMPER_RULES
  {
    DampsAlike(a.score, c);
  }

  // ------------------------------------------------------------------------------------------
  // Paging
  // ------------------------------------------------------------------------------------------

  lemma {:induction false} MatchingAre(items: seq<Alert>, since: nat)
    ensures forall a :: a in Matching(items, since) <==> a in items && a.ts >= since
    ensures |Matching(items, since)| <= |items|
  {
    if items != [] {
      MatchingAre(items[1..], since);
      assert items == [items[0]] + items[1..];
    }
  }

  /** The positions `at` are those of the alerts at or after `since`, in order. */
  predicate SelectedAt(items: seq<Alert>, since: nat, at: seq<nat>)
  {
    (forall j :: 0 <= j < |at| ==> at[j] < |items|) && Rises(at) && Elements(at) == Late(items, since)
  }

  predicate Rises(at: seq<nat>) { forall j, k :: 0 <= j < k < |at| ==> at[j] < at[k] }

  function Elements(at: seq<nat>): set<nat> { set j | 0 <= j < |at| :: at[j] }

  /** The positions of the alerts at or after `since`. */
  function Late(items: seq<Alert>, since: nat): set<nat>
  {
    set i: nat | i < |items| && items[i].ts >= since
  }

  function Pick(items: seq<Alert>, at: seq<nat>): seq<Alert>
    requires forall j :: 0 <= j < |at| ==> at[j] < |items|
  {
    seq(|at|, j requires 0 <= j < |at| => items[at[j]])
  }

  lemma {:induction false} MatchingAt(items: seq<Alert>, since: nat) returns (at: seq<nat>)
    ensures SelectedAt(items, since, at) && Matching(items, since) == Pick(items, at)
  {
    at := [];
    if items != [] {
      var n := |items| - 1;
      var before := MatchingAt(items[..n], since);
      SelectedNext(items, since, before);
      MatchingLast(items, since);
      PickNext(items, before);
      at := if items[n].ts >= since then before + [n] else before;
    }
  }

  lemma MatchingLast(items: seq<Alert>, since: nat)
    requires items != []
    ensures var n := |items| - 1;
      Matching(items, since) == Matching(items[..n], since) + if items[n].ts >= since then [items[n]] else []
  {
    var n := |items| - 1;
    assert items == items[..n] + [items[n]];
    MatchingConcat(items[..n], [items[n]], since);
    assert Matching([items[n]], since) == if items[n].ts >= since then [items[n]] else [];
  }

  lemma PickNext(items: seq<Alert>, at: seq<nat>)
    requires items != [] && forall j :: 0 <= j < |at| ==> at[j] < |items| - 1
    ensures var n := |items| - 1;
      Pick(items, at) == Pick(items[..n], at) && Pick(items, at + [n]) == Pick(items[..n], at) + [items[n]]
  {
  }

  lemma SelectedNext(items: seq<Alert>, since: nat, at: seq<nat>)
    requires items != [] && SelectedAt(items[..|items| - 1], since, at)
    ensures SelectedAt(items, since, if items[|items| - 1].ts >= since then at + [|items| - 1] else at)
  {
    var n := |items| - 1;
    assert Late(items, since) == Late(items[..n], since) + if items[n].ts >= since then {n} else {};
    OneBehind(at, n);
  }

  lemma OneBehind(at: seq<nat>, n: nat)
    requires Rises(at) && forall j :: 0 <= j < |at| ==> at[j] < n
    ensures Rises(at + [n]) && Elements(at + [n]) == Elements(at) + {n}
  {
    var more := at + [n];
    forall x ensures x in Elements(more) <==> x in Elements(at) || x == n {
      assert more[|at|] == n && forall j :: 0 <= j < |at| ==> more[j] == at[j];
    }
  }

  /** A page is the first so many alerts at or after `since`, in ring order: it leaves one out only when it is full, and
      then only later ones. */
  lemma PageIsTheFirst(items: seq<Alert>, since: nat, cap: nat) returns (at: seq<nat>)
    ensures forall j :: 0 <= j < |at| ==> at[j] < |items|
    ensures Page(items, since, cap) == Pick(items, at) && Rises(at) && Elements(at) <= Late(items, since)
    ensures forall i :: i in Late(items, since) && i !in Elements(at) ==>
      cap > 0 && |at| == cap && forall j :: 0 <= j < |at| ==> at[j] < i
  {
    var all := MatchingAt(items, since);
    at := if cap == 0 || |all| <= cap then all else all[..cap];
    forall i | i in Late(items, since) && i !in Elements(at)
      ensures cap > 0 && |at| == cap && forall j :: 0 <= j < |at| ==> at[j] < i
    {
      var k :| 0 <= k < |all| && all[k] == i;
      assert at != all && k >= cap;
    }
  }

  lemma {:induction false} LatestIs(page: seq<Alert>, since: nat)
    ensures forall a :: a in page ==> a.ts <= Latest(page, since)
    ensures Latest(page, since) == since || exists a :: a in page && a.ts == Latest(page, since)
    ensures since <= Latest(page, since)
  {
    if page != [] {
      var n := |page| - 1;
      LatestIs(page[..n], since);
      assert page == page[..n] + [page[n]];
      assert page[n] in page;
    }
  }

  /** Several reads, each on whatever the ring then holds and each reusing the cursor of the one before. */
  ghost predicate Session(rings: seq<seq<Alert>>, caps: seq<nat>, cursors: seq<nat>)
  {
    && |rings| == |caps| && |cursors| == |rings| + 1
    && forall i :: 0 <= i < |rings| ==> InRange(rings[i]) && Reads(rings[i], caps[i], cursors[i], cursors[i + 1])
  }

  predicate Reads(ring: seq<Alert>, cap: nat, since: nat,
      cursor: nat) { cursor == Cursor(Page(ring, since, cap), since) }

  lemma CursorPassesThePage(ring: seq<Alert>, at: nat, cap: nat)
    requires InRange(ring)
    ensures at <= Cursor(Page(ring, at, cap), at)
    ensures forall x :: x in Page(ring, at, cap) ==> at <= x.ts < Cursor(Page(ring, at, cap), at)
  {
    var page := Page(ring, at, cap);
    MatchingAre(ring, at);
    LatestIs(page, at);
    assert forall x :: x in page ==> x in Matching(ring, at);
  }

  /** Such reads never deliver an alert twice, whatever is appended or swept in between. */
  lemma NeverDeliveredTwice(
      rings: seq<seq<Alert>>, caps: seq<nat>, cursors: seq<nat>, k: nat, l: nat, a: Alert, b: Alert)
    requires Session(rings, caps, cursors) && k < l < |rings|
    requires a in Page(rings[k], cursors[k], caps[k]) && b in Page(rings[l], cursors[l], caps[l])
    ensures a.ts < b.ts
  {
    CursorPassesThePage(rings[k], cursors[k], caps[k]);
    CursorPassesThePage(rings[l], cursors[l], caps[l]);
    assert Reads(rings[k], caps[k], cursors[k], cursors[k + 1]);
    CursorsNeverFall(rings, caps, cursors);
    NeverFalls(cursors, k + 1, l);
  }

  lemma CursorsNeverFall(rings: seq<seq<Alert>>, caps: seq<nat>, cursors: seq<nat>)
    requires Session(rings, caps, cursors)
    ensures forall i :: 0 < i < |cursors| ==> cursors[i - 1] <= cursors[i]
  {
    forall i | 0 < i < |cursors| ensures cursors[i - 1] <= cursors[i] {
      assert Reads(rings[i - 1], caps[i - 1], cursors[i - 1], cursors[i - 1 + 1]);
      CursorPassesThePage(rings[i - 1], cursors[i - 1], caps[i - 1]);
    }
  }

  lemma {:induction false} NeverFalls(s: seq<nat>, k: nat, l: nat)
    requires k <= l < |s| && forall i :: 0 < i < |s| ==> s[i - 1] <= s[i]
    ensures s[k] <= s[l]
  {
    if k < l {
      NeverFalls(s, k, l - 1);
    }
  }

  /** The bound on timestamps is needed: the cursor cannot pass the largest one, and its alert comes again. */
  lemma SaturatedCursorRepeats(a: Alert)
    requires a.ts == U64_MAX
    ensures Cursor(Page([a], 0, 0), 0) == U64_MAX && Page([a], U64_MAX, 0) == [a]
  {
    assert Matching([a], 0) == [a] && Matching([a], U64_MAX) == [a];
    assert Latest([a], 0) == U64_MAX;
  }

  predicate InRange(items: seq<Alert>) { forall a :: a in items ==> a.ts < U64_MAX }

  predicate Increasing(items: seq<Alert>)
  {
    forall i, j :: 0 <= i < j < |items| ==> items[i].ts < items[j].ts
  }

  lemma {:induction false} LaterMatchesFewer(items: seq<Alert>, since: nat, later: nat)
    requires since <= later
    ensures |Matching(items, later)| <= |Matching(items, since)|
    ensures (exists a :: a in items && since <= a.ts < later) ==> |Matching(items, later)| < |Matching(items, since)|
  {
    if items != [] {
      LaterMatchesFewer(items[1..], since, later);
      assert items == [items[0]] + items[1..];
    }
  }

  lemma PageShrinks(items: seq<Alert>, since: nat, cap: nat)
    requires cap > 0 && InRange(items) && Page(items, since, cap) != []
    ensures var later := Cursor(Page(items, since, cap), since);
      since < later && |Matching(items, later)| < |Matching(items, since)|
  {
    var page := Page(items, since, cap);
    MatchingAre(items, since);
    LatestIs(page, since);
    assert page[0] in page && page[0] in items;
    LaterMatchesFewer(items, since, Cursor(page, since));
  }

  /** Read pages of `cap` from an unchanging ring until one comes back empty. */
  function Drain(items: seq<Alert>, since: nat, cap: nat): seq<Alert>
    requires cap > 0 && InRange(items)
    decreases |Matching(items, since)|
  {
    var page := Page(items, since, cap);
    if page == [] then []
    else
      PageShrinks(items, since, cap);
      page + Drain(items, Cursor(page, since), cap)
  }

  lemma {:induction false} MatchingTwice(items: seq<Alert>, since: nat, later: nat)
    requires since <= later
    ensures Matching(Matching(items, since), later) == Matching(items, later)
  {
    if items != [] {
      MatchingTwice(items[1..], since, later);
      MatchingConcat(if items[0].ts >= since then [items[0]] else [], Matching(items[1..], since), later);
    }
  }

  lemma {:induction false} MatchingConcat(a: seq<Alert>, b: seq<Alert>, since: nat)
    ensures Matching(a + b, since) == Matching(a, since) + Matching(b, since)
  {
    if a == [] {
      assert a + b == b;
    } else {
      var first, rest := (if a[0].ts >= since then [a[0]] else []), a[1..];
      MatchingConcat(rest, b, since);
      assert (a + b)[1..] == rest + b && (a + b)[0] == a[0];
      assert first + (Matching(rest, since) + Matching(b, since)) ==
        (first + Matching(rest, since)) + Matching(b, since);
    }
  }

  lemma {:induction false} MatchingAllOrNone(items: seq<Alert>, since: nat)
    ensures (forall i :: 0 <= i < |items| ==> items[i].ts >= since) ==> Matching(items, since) == items
    ensures (forall i :: 0 <= i < |items| ==> items[i].ts < since) ==> Matching(items, since) == []
  {
    if items != [] {
      MatchingAllOrNone(items[1..], since);
      assert items == [items[0]] + items[1..];
    }
  }

  /** Reading past the first `n` of an increasing selection leaves exactly the rest. */
  lemma MatchingSkips(items: seq<Alert>, since: nat, n: nat)
    requires 0 < n <= |Matching(items, since)| && Increasing(Matching(items, since))
    requires since <= Matching(items, since)[n - 1].ts
    ensures Matching(items, Matching(items, since)[n - 1].ts + 1) == Matching(items, since)[n..]
  {
    var all := Matching(items, since);
    var later := all[n - 1].ts + 1;
    MatchingTwice(items, since, later);
    IncreasingSplits(all, n);
  }

  lemma IncreasingSplits(all: seq<Alert>, n: nat)
    requires 0 < n <= |all| && Increasing(all)
    ensures Matching(all, all[n - 1].ts + 1) == all[n..]
  {
    SplitAround(all, n, all[n - 1].ts + 1);
    MatchingSplit(all, n, all[n - 1].ts + 1);
  }

  lemma MatchingSplit(all: seq<Alert>, n: nat, later: nat)
    requires n <= |all| && Matching(all[..n], later) == [] && Matching(all[n..], later) == all[n..]
    ensures Matching(all, later) == all[n..]
  {
    MatchingConcat(all[..n], all[n..], later);
    assert all[..n] + all[n..] == all;
  }

  lemma SplitAround(all: seq<Alert>, n: nat, later: nat)
    requires 0 < n <= |all| && Increasing(all) && later == all[n - 1].ts + 1
    ensures Matching(all[..n], later) == [] && Matching(all[n..], later) == all[n..]
  {
    forall i | 0 <= i < n ensures all[..n][i].ts < later {
      assert all[i].ts <= all[n - 1].ts;
    }
    forall i | 0 <= i < |all| - n ensures all[n..][i].ts >= later {
      assert all[n - 1].ts < all[n + i].ts;
    }
    MatchingAllOrNone(all[..n], later);
    MatchingAllOrNone(all[n..], later);
  }

  lemma IncreasingPage(items: seq<Alert>, since: nat, cap: nat)
    requires cap > 0 && InRange(items) && Increasing(Matching(items, since)) && Page(items, since, cap) != []
    ensures var page := Page(items, since, cap);
      && since <= page[|page| - 1].ts && Cursor(page, since) == page[|page| - 1].ts + 1
  {
    var page := Page(items, since, cap);
    var last := page[|page| - 1];
    MatchingAre(items, since);
    assert last in Matching(items, since) && page[0] in Matching(items, since);
    LatestIs(page, since);
    assert last in page;
    assert forall i :: 0 <= i < |page| ==> page[i].ts <= last.ts;
  }

  /** One page of an increasing selection leaves a shorter increasing selection. */
  lemma PageSplits(items: seq<Alert>, since: nat, cap: nat)
    requires cap > 0 && InRange(items) && Increasing(Matching(items, since)) && Page(items, since, cap) != []
    ensures var page := Page(items, since, cap); var rest := Matching(items, Cursor(page, since));
      Matching(items, since) == page + rest && Increasing(rest) && |rest| < |Matching(items, since)|
  {
    var all, page := Matching(items, since), Page(items, since, cap);
    var n := |page|;
    PageIsPrefix(all, page, cap);
    IncreasingPage(items, since, cap);
    RestOfPage(items, since, n, Cursor(page, since));
  }

  lemma PageIsPrefix(all: seq<Alert>, page: seq<Alert>, cap: nat)
    requires cap > 0 && page == (if |all| <= cap then all else all[..cap]) && page != []
    ensures 0 < |page| <= |all| && page == all[..|page|] && page[|page| - 1] == all[|page| - 1]
  {
  }

  lemma RestOfPage(items: seq<Alert>, since: nat, n: nat, later: nat)
    requires 0 < n <= |Matching(items, since)| && Increasing(Matching(items, since))
    requires since <= Matching(items, since)[n - 1].ts && later == Matching(items, since)[n - 1].ts + 1
    ensures var all := Matching(items, since); var rest := Matching(items, later);
      all == all[..n] + rest && Increasing(rest) && |rest| < |all|
  {
    var all := Matching(items, since);
    MatchingSkips(items, since, n);
    TailIncreases(all, n);
    assert all == all[..n] + all[n..];
  }

  lemma TailIncreases(all: seq<Alert>, n: nat)
    requires Increasing(all) && n <= |all|
    ensures Increasing(all[n..])
  {
  }

  lemma {:induction false} DrainIsComplete(items: seq<Alert>, since: nat, cap: nat)
    requires cap > 0 && InRange(items) && Increasing(Matching(items, since))
    ensures Drain(items, since, cap) == Matching(items, since)
    decreases |Matching(items, since)|
  {
    var page := Page(items, since, cap);
    if page != [] {
      PageSplits(items, since, cap);
      DrainIsComplete(items, Cursor(page, since), cap);
    }
  }

  lemma {:induction false} SinglesIncrease(items: seq<Alert>, since: nat)
    requires InRange(items)
    ensures Increasing(Drain(items, since, 1))
    ensures forall a :: a in Drain(items, since, 1) ==> a.ts >= since
    decreases |Matching(items, since)|
  {
    var page := Page(items, since, 1);
    MatchingAre(items, since);
    if page != [] {
      PageShrinks(items, since, 1);
      var later := Cursor(page, since);
      SinglesIncrease(items, later);
      var rest := Drain(items, later, 1);
      FirstOfOne(items, since, page[0]);
      OneInFront(page[0], rest);
      assert page == [page[0]] && Drain(items, since, 1) == [page[0]] + rest;
    }
  }

  lemma FirstOfOne(items: seq<Alert>, since: nat, a: Alert)
    requires InRange(items) && Page(items, since, 1) == [a]
    ensures since <= a.ts < Cursor([a], since)
  {
    MatchingAre(items, since);
    LatestIs([a], since);
    assert a in [a] && a in items;
  }

  lemma OneInFront(a: Alert, rest: seq<Alert>)
    requires Increasing(rest) && forall x :: x in rest ==> a.ts < x.ts
    ensures Increasing([a] + rest)
  {
    assert forall i :: 0 <= i < |rest| ==> rest[i] in rest;
  }

  /** Draining a quiet ring delivers every alert at or after the start exactly once and in order for every page size,
      if and only if the timestamps of those alerts strictly increase: two that share a millisecond can be split by a
      page boundary, and then the second is skipped. */
  lemma PagingIsCompleteExactlyWhenIncreasing(items: seq<Alert>, since: nat)
    requires InRange(items)
    ensures (forall cap: nat :: cap > 0 ==> Drain(items, since, cap) == Matching(items, since))
       <==> Increasing(Matching(items, since))
  {
    if Increasing(Matching(items, since)) {
      forall cap: nat | cap > 0 ensures Drain(items, since, cap) == Matching(items, since) {
        DrainIsComplete(items, since, cap);
      }
    } else {
      SinglesIncrease(items, since);
      assert Drain(items, since, 1) != Matching(items, since);
    }
  }
}
