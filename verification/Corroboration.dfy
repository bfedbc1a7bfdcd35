/**
 A whisper round end to end: what a responder can honestly say (`local_knowledge`, `program_knowledge`,
 `respond_to_question`), how the asker reads it (`run_round`), and the quorum verdict (`quorum_verdict`).

 Times are milliseconds since the epoch. A binary record carries the tier-1 fingerprint derived from its hash.
 */
module Corroboration {
  import opened Basics

  type Fp = nat

  const U64_MAX: int := 0xFFFF_FFFF_FFFF_FFFF
  const U32_MAX: int := 0xFFFF_FFFF
  const TIER1_LEN := 8
  const MAX_BUILDS := 64

  datatype BinaryRecord = BinaryRecord(sha: nat, tier1: seq<nat>, firstSeen: int, lastSeen: int, seenCount: nat)

  /** A binary was run at a time. */
  datatype Observation = Observation(sha: nat, tier1: seq<nat>, at: int)

  datatype CoverageBar = CoverageBar(minBinaries: nat, minAge: nat)

  datatype Sighting = Sighting(seenCount: nat, firstSeen: int, lastSeen: int)

  datatype Knowledge = Observed(sighting: Sighting) | Insufficient(binaries: nat, age: nat)

  datatype ProgramKnowledge = ProgramKnowledge(pkgMatch: bool, pkgBuilds: nat, pathMatch: bool)

  datatype Question = Question(tier1: seq<nat>, deadline: int, pkg: string, exePath: string)

  datatype Answer = Answer(
    seenCount: nat, firstSeen: int, lastSeen: int, refused: string, platform: string, program: ProgramKnowledge)

  /** A responder: what it observed, in order, and what its descriptor store and package database would return. */
  datatype Host = Host(
    observed: seq<Observation>, platform: string, pkgHashes: map<string, nat>, pathHashes: map<string, nat>,
    installed: set<string>, owned: set<string>)
  {
    function Baseline(): seq<BinaryRecord>
    {
      Remember(observed)
    }
  }

  // ------------------------------------------------------------------------------------------
  // The baseline
  // ------------------------------------------------------------------------------------------

  function Find(baseline: seq<BinaryRecord>, sha: nat): (i: Option<nat>)
    ensures i.Some? ==> i.value < |baseline| && baseline[i.value].sha == sha
  {
    if baseline == [] then None
    else if baseline[|baseline| - 1].sha == sha then Some(|baseline| - 1)
    else Find(baseline[..|baseline| - 1], sha)
  }

  /** One more sighting of a known binary, or a new record that starts at one. */
  function Upsert(baseline: seq<BinaryRecord>, o: Observation): seq<BinaryRecord>
  {
    match Find(baseline, o.sha)
    case Some(i) => baseline[i := baseline[i].(lastSeen := o.at, seenCount := baseline[i].seenCount + 1)]
    case None => baseline + [BinaryRecord(o.sha, o.tier1, o.at, o.at, 1)]
  }

  function Remember(observed: seq<Observation>): seq<BinaryRecord>
  {
    if observed == [] then [] else Upsert(Remember(observed[..|observed| - 1]), observed[|observed| - 1])
  }

  /** Every record has been seen, and starts with an observation of its binary. */
  predicate Recorded(baseline: seq<BinaryRecord>, observed: seq<Observation>)
  {
    forall i :: 0 <= i < |baseline| ==>
      baseline[i].seenCount > 0 && Observation(baseline[i].sha, baseline[i].tier1, baseline[i].firstSeen) in observed
  }

  /** No reachable baseline holds a record with a zero count. */
  lemma {:induction false} EveryRecordWasSeen(observed: seq<Observation>)
    ensures Recorded(Remember(observed), observed)
  {
    if observed != [] {
      var front, o := observed[..|observed| - 1], observed[|observed| - 1];
      EveryRecordWasSeen(front);
      RecordedNext(Remember(front), front, o);
      assert front + [o] == observed;
    }
  }

  lemma RecordedNext(baseline: seq<BinaryRecord>, observed: seq<Observation>, o: Observation)
    requires Recorded(baseline, observed)
    ensures Recorded(Upsert(baseline, o), observed + [o])
  {
    assert forall x :: x in observed ==> x in observed + [o];
    assert o in observed + [o];
  }

  /** When a binary was run, by position. */
  function RunsOf(observed: seq<Observation>, sha: nat): set<nat>
  {
    set i: nat | i < |observed| && observed[i].sha == sha
  }

  /** The record is the history of its binary: first run, last run, and how often. */
  predicate IsHistoryOf(b: BinaryRecord, observed: seq<Observation>)
  {
    && b.seenCount == |RunsOf(observed, b.sha)|
    && (exists f :: f in RunsOf(observed, b.sha) && (forall i :: i in RunsOf(observed, b.sha) ==> f <= i)
                    && b.firstSeen == observed[f].at && b.tier1 == observed[f].tier1)
    && (exists l :: l in RunsOf(observed, b.sha) && (forall i :: i in RunsOf(observed, b.sha) ==> i <= l)
                    && b.lastSeen == observed[l].at)
  }

  predicate OnePerBinary(baseline: seq<BinaryRecord>)
  {
    forall i, j :: 0 <= i < j < |baseline| ==> baseline[i].sha != baseline[j].sha
  }

  /** The baseline after any observations: one record per binary that was run, each with its first and last run and the
      number of its runs. */
  lemma {:induction false} BaselineIsHistory(observed: seq<Observation>)
    ensures var baseline := Remember(observed);
      && OnePerBinary(baseline)
      && (forall b :: b in baseline ==> IsHistoryOf(b, observed))
      && (forall o :: o in observed ==> Find(baseline, o.sha).Some?)
  {
    if observed != [] {
      var n := |observed| - 1;
      var front, o := observed[..n], observed[n];
      assert observed == front + [o];
      BaselineIsHistory(front);
      var before, after := Remember(front), Remember(observed);
      forall x | x in observed ensures Find(after, x.sha).Some? {
        UpsertFinds(before, o, x.sha);
      }
      FindIsOnly(before, o.sha);
      forall b | b in after ensures IsHistoryOf(b, observed) {
        HistoryNext(front, before, o, b);
      }
    }
  }

  lemma HistoryNext(front: seq<Observation>, before: seq<BinaryRecord>, o: Observation, b: BinaryRecord)
    requires OnePerBinary(before) && (forall x :: x in before ==> IsHistoryOf(x, front)) && b in Upsert(before, o)
    requires forall x :: x in front ==> Find(before, x.sha).Some?
    ensures IsHistoryOf(b, front + [o])
  {
    RunsGrow(front, o, b.sha);
    if b.sha != o.sha {
      assert b in before;
      OldHistory(b, front, o);
    } else if Find(before, o.sha).Some? {
      NextHistory(before[Find(before, o.sha).value], front, o);
    } else {
      FindIsOnly(before, o.sha);
      NoRunsYet(front, before, o.sha);
      assert |front| in RunsOf(front + [o], b.sha);
    }
  }

  lemma RunsGrow(front: seq<Observation>, o: Observation, sha: nat)
    ensures RunsOf(front + [o], sha) == RunsOf(front, sha) + if o.sha == sha then {|front|} else {}
    ensures |front| !in RunsOf(front, sha)
  {
  }

  lemma OldHistory(b: BinaryRecord, front: seq<Observation>, o: Observation)
    requires IsHistoryOf(b, front) && b.sha != o.sha
    ensures IsHistoryOf(b, front + [o])
  {
    RunsGrow(front, o, b.sha);
    assert RunsOf(front + [o], b.sha) == RunsOf(front, b.sha);
  }

  lemma NextHistory(b: BinaryRecord, front: seq<Observation>, o: Observation)
    requires IsHistoryOf(b, front) && b.sha == o.sha
    ensures IsHistoryOf(b.(lastSeen := o.at, seenCount := b.seenCount + 1), front + [o])
  {
    RunsGrow(front, o, b.sha);
    var f :| f in RunsOf(front, b.sha) && (forall i :: i in RunsOf(front, b.sha) ==> f <= i)
          && b.firstSeen == front[f].at && b.tier1 == front[f].tier1;
    assert f in RunsOf(front + [o], b.sha) && |front| in RunsOf(front + [o], b.sha);
  }

  lemma NoRunsYet(front: seq<Observation>, baseline: seq<BinaryRecord>, sha: nat)
    requires Find(baseline, sha).None? && forall o :: o in front ==> Find(baseline, o.sha).Some?
    ensures RunsOf(front, sha) == {}
  {
    forall i | 0 <= i < |front| ensures front[i].sha != sha {
      assert front[i] in front;
    }
  }

  lemma {:induction false} FindIsOnly(baseline: seq<BinaryRecord>, sha: nat)
    ensures Find(baseline, sha).None? <==> forall i :: 0 <= i < |baseline| ==> baseline[i].sha != sha
  {
    if baseline != [] {
      FindIsOnly(baseline[..|baseline| - 1], sha);
      assert forall i :: 0 <= i < |baseline| - 1 ==> baseline[..|baseline| - 1][i] == baseline[i];
    }
  }

  lemma UpsertFinds(baseline: seq<BinaryRecord>, o: Observation, sha: nat)
    ensures Find(Upsert(baseline, o), sha).Some? <==> Find(baseline, sha).Some? || sha == o.sha
  {
    FindIsOnly(baseline, sha);
    FindIsOnly(Upsert(baseline, o), sha);
    assert Find(baseline, o.sha).None? ==> Upsert(baseline, o)[|baseline|].sha == o.sha;
    assert forall i :: 0 <= i < |baseline| ==> Upsert(baseline, o)[i].sha == baseline[i].sha;
  }

  // ------------------------------------------------------------------------------------------
  // Responder
  // ------------------------------------------------------------------------------------------

  /** Positions of the records that match the fingerprint asked about. */
  function Hits(baseline: seq<BinaryRecord>, target: seq<nat>): set<nat>
  {
    set i: nat | i < |baseline| && baseline[i].tier1 == target
  }

  function Oldest(baseline: seq<BinaryRecord>): int
    requires baseline != []
  {
    var n := |baseline| - 1;
    if n == 0 then baseline[0].firstSeen else Min(Oldest(baseline[..n]), baseline[n].firstSeen)
  }

  lemma {:induction false} OldestIsFirst(baseline: seq<BinaryRecord>)
    requires baseline != []
    ensures exists i :: 0 <= i < |baseline| && baseline[i].firstSeen == Oldest(baseline)
    ensures forall i :: 0 <= i < |baseline| ==> Oldest(baseline) <= baseline[i].firstSeen
  {
    var n := |baseline| - 1;
    if n == 0 {
      assert baseline[0].firstSeen == Oldest(baseline);
    } else {
      OldestIsFirst(baseline[..n]);
      var k :| 0 <= k < n && baseline[..n][k].firstSeen == Oldest(baseline[..n]);
      assert baseline[k].firstSeen == Oldest(baseline[..n]);
    }
  }

  /** How long the baseline has been accumulating: since its oldest record, or not at all if that is in the future. */
  function Age(baseline: seq<BinaryRecord>, now: int): nat
  {
    if baseline == [] then 0 else Max(0, now - Oldest(baseline))
  }

  /** Too little observed for "never seen it" to mean anything. */
  predicate TooGreen(baseline: seq<BinaryRecord>, target: seq<nat>, bar: CoverageBar, now: int)
  {
    Hits(baseline, target) == {} && (|baseline| < bar.minBinaries || Age(baseline, now) < bar.minAge)
  }

  function Total(baseline: seq<BinaryRecord>, target: seq<nat>): nat
  {
    if baseline == [] then 0
    else
      var last := baseline[|baseline| - 1];
      Total(baseline[..|baseline| - 1], target) + if last.tier1 == target then last.seenCount else 0
  }

  /** The earliest and the latest sighting among the hits, or zeros when there is none; times before the epoch read as
      zero. */
  predicate Spans(baseline: seq<BinaryRecord>, target: seq<nat>, first: int, last: int)
  {
    var hits := Hits(baseline, target);
    if hits == {} then first == 0 && last == 0
    else
      && (forall i :: i in hits ==> first <= Max(0, baseline[i].firstSeen) && Max(0, baseline[i].lastSeen) <= last)
      && (exists i :: i in hits && first == Min(U64_MAX, Max(0, baseline[i].firstSeen)))
      && (exists i :: i in hits && last == Max(0, baseline[i].lastSeen))
  }

  /** One scan answers "how much have I observed?" and "have I seen this?". */
  method LocalKnowledge(baseline: seq<BinaryRecord>, target: seq<nat>, bar: CoverageBar, now: int)
    returns (k: Knowledge)
    ensures k.Insufficient? <==> TooGreen(baseline, target, bar, now)
    ensures k.Insufficient? ==> k.binaries == |baseline| && k.age == Age(baseline, now)
    ensures k.Observed? ==> k.sighting.seenCount == Min(Total(baseline, target), U64_MAX)
    ensures k.Observed? ==> Spans(baseline, target, k.sighting.firstSeen, k.sighting.lastSeen)
  {
    var seenCount, first, last, hits := 0, U64_MAX, 0, 0;
    var oldest: Option<int> := None;
    ghost var f, l := 0, 0;
    for n := 0 to |baseline|
      invariant oldest == if n == 0 then None else Some(Oldest(baseline[..n]))
      invariant seenCount == Min(Total(baseline[..n], target), U64_MAX)
      invariant hits >= 0 && (hits == 0 <==> forall j :: 0 <= j < n ==> baseline[j].tier1 != target)
      invariant hits == 0 ==> seenCount == 0
      invariant forall j :: 0 <= j < n && baseline[j].tier1 == target ==>
        first <= Max(0, baseline[j].firstSeen) && Max(0, baseline[j].lastSeen) <= last
      invariant first <= U64_MAX && 0 <= last
      invariant hits > 0 ==>
        0 <= f < n && baseline[f].tier1 == target && first == Min(U64_MAX, Max(0, baseline[f].firstSeen))
      invariant hits > 0 ==> 0 <= l < n && baseline[l].tier1 == target && last == Max(0, baseline[l].lastSeen)
      invariant hits == 0 ==> first == U64_MAX && last == 0
    {
      var rec := baseline[n];
      assert baseline[..n + 1][..n] == baseline[..n];
      oldest := if oldest.Some? && oldest.value <= rec.firstSeen then oldest else Some(rec.firstSeen);
      if rec.tier1 == target {
        if hits == 0 || Max(0, rec.firstSeen) < first {
          f := n;
        }
        if hits == 0 || Max(0, rec.lastSeen) > last {
          l := n;
        }
        hits := hits + 1;
        seenCount := Min(seenCount + rec.seenCount, U64_MAX);
        first := Min(first, Max(0, rec.firstSeen));
        last := Max(last, Max(0, rec.lastSeen));
      }
    }
    assert baseline[..|baseline|] == baseline;
    var age := if oldest.Some? then Max(0, now - oldest.value) else 0;
    assert hits == 0 <==> Hits(baseline, target) == {} by {
      if hits != 0 {
        var j :| 0 <= j < |baseline| && baseline[j].tier1 == target;
        assert j in Hits(baseline, target);
      }
    }
    if hits == 0 && (|baseline| < bar.minBinaries || age < bar.minAge) {
      k := Insufficient(|baseline|, age);
    } else if hits == 0 {
      k := Observed(Sighting(0, 0, 0));
    } else {
      k := Observed(Sighting(seenCount, first, last));
      assert f in Hits(baseline, target) && l in Hits(baseline, target);
    }
  }

  /** Package first, then path; an empty name asks nothing. Installed but never run counts, with no builds. */
  method LookUpProgram(h: Host, pkg: string, exePath: string) returns (k: ProgramKnowledge)
    ensures k.pkgMatch <==> pkg != "" && (HasRun(h.pkgHashes, pkg) || pkg in h.installed)
    ensures k.pkgBuilds == if pkg != "" && HasRun(h.pkgHashes, pkg) then Min(h.pkgHashes[pkg], MAX_BUILDS) else 0
    ensures k.pathMatch <==> exePath != "" && (HasRun(h.pathHashes, exePath) || exePath in h.owned)
  {
    k := ProgramKnowledge(false, 0, false);
    if pkg != "" {
      if pkg in h.pkgHashes && h.pkgHashes[pkg] > 0 {
        k := k.(pkgMatch := true, pkgBuilds := Min(h.pkgHashes[pkg], MAX_BUILDS));
      }
      if !k.pkgMatch && pkg in h.installed {
        k := k.(pkgMatch := true);
      }
    }
    if exePath != "" {
      k := k.(pathMatch := (exePath in h.pathHashes && h.pathHashes[exePath] > 0) || exePath in h.owned);
    }
  }

  /** The host has run some build under this name. */
  predicate HasRun(hashes: map<string, nat>, name: string)
  {
    name in hashes && hashes[name] > 0
  }

  /** The answer an honest responder sends, if any: malformed and expired questions get none. */
  predicate HonestAnswer(h: Host, q: Question, bar: CoverageBar, now: int, reply: Option<Answer>)
  {
    if |q.tier1| != TIER1_LEN || now > q.deadline then reply.None?
    else
      && reply.Some? && reply.value.platform == h.platform
      && if TooGreen(h.Baseline(), q.tier1, bar, now)
         then reply.value.refused != "" && reply.value.seenCount == 0
         else
           && reply.value.refused == ""
           && reply.value.seenCount == Min(Total(h.Baseline(), q.tier1), U64_MAX)
           && Spans(h.Baseline(), q.tier1, reply.value.firstSeen, reply.value.lastSeen)
           && HonestProgram(h, q, reply.value.program)
  }

  /** What the host knows of the program: the package when it ran a build of it or has it installed, with the builds it
      ran, and the path when it ran something there or a package owns it. */
  predicate HonestProgram(h: Host, q: Question, k: ProgramKnowledge)
  {
    && (k.pkgMatch <==> q.pkg != "" && (HasRun(h.pkgHashes, q.pkg) || q.pkg in h.installed))
    && k.pkgBuilds == (if q.pkg != "" && HasRun(h.pkgHashes, q.pkg) then Min(h.pkgHashes[q.pkg], MAX_BUILDS) else 0)
    && (k.pathMatch <==> q.exePath != "" && (HasRun(h.pathHashes, q.exePath) || q.exePath in h.owned))
  }

  method RespondToQuestion(h: Host, q: Question, bar: CoverageBar, now: int) returns (reply: Option<Answer>)
    ensures HonestAnswer(h, q, bar, now, reply)
  {
    if |q.tier1| != TIER1_LEN || now > q.deadline {
      return None;
    }
    var k := LocalKnowledge(h.Baseline(), q.tier1, bar, now);
    match k
    case Observed(s) =>
      var program := LookUpProgram(h, q.pkg, q.exePath);
      reply := Some(Answer(s.seenCount, s.firstSeen, s.lastSeen, "", h.platform, program));
    case Insufficient(_, _) =>
      reply := Some(Answer(0, 0, 0, "too little observed", h.platform, ProgramKnowledge(false, 0, false)));
  }

  // ------------------------------------------------------------------------------------------
  // Asker
  // ------------------------------------------------------------------------------------------

  datatype PeerReply =
    | Saw(sighting: Sighting)
    | Refused(reason: string)
    | Incomparable(platform: string)
    | Familiar(pkgBuilds: nat, byPathOnly: bool)
    | Silent

  datatype PeerSighting = PeerSighting(peer: Fp, reply: PeerReply)

  datatype Confirmation = Confirmation(
    asked: nat, unseen: nat, seen: nat, noReply: nat, refused: nat, incomparable: nat, familiar: nat,
    quorum: nat, confirmed: bool)

  /** Somebody answered, and nobody who answered could compare. */
  predicate NothingComparable(c: Confirmation)
  {
    c.unseen + c.seen + c.familiar == 0 && c.incomparable > 0
  }

  predicate Comparable(asker: string, peer: string) { asker != "" && peer != "" && asker == peer }

  function Classify(asker: string, outcome: Option<Answer>): PeerReply
  {
    match outcome
    case None => Silent
    case Some(a) =>
      if a.refused != "" then Refused(a.refused)
      else if a.seenCount > 0 then Saw(Sighting(a.seenCount, a.firstSeen, a.lastSeen))
      else if a.program.pkgMatch || a.program.pathMatch then Familiar(a.program.pkgBuilds, !a.program.pkgMatch)
      else if !Comparable(asker, a.platform) then Incomparable(if a.platform == "" then "unknown" else a.platform)
      else Saw(Sighting(0, a.firstSeen, a.lastSeen))
  }

  /** How often the peers that answered say they saw it, all together. */
  function Sightings(outcomes: seq<Option<Answer>>): nat
  {
    if outcomes == [] then 0
    else
      var last := outcomes[|outcomes| - 1];
      Sightings(outcomes[..|outcomes| - 1]) + if last.Some? && last.value.refused == "" then last.value.seenCount else 0
  }

  /** The classification loop of a round, with the two totals it keeps. */
  method ReadReplies(asker: string, asked: seq<Fp>, outcomes: seq<Option<Answer>>)
    returns (peers: seq<PeerSighting>, corroborating: nat, totalSeen: nat)
    requires |asked| == |outcomes|
    ensures |peers| == |asked|
    ensures forall i :: 0 <= i < |asked| ==> peers[i] == PeerSighting(asked[i], Classify(asker, outcomes[i]))
    ensures corroborating == |PositionsOf(peers, Seen)|
    ensures totalSeen == Min(Sightings(outcomes), U64_MAX) && (totalSeen == 0 <==> corroborating == 0)
  {
    peers, corroborating, totalSeen := [], 0, 0;
    for n := 0 to |asked|
      invariant |peers| == n
      invariant forall i :: 0 <= i < n ==> peers[i] == PeerSighting(asked[i], Classify(asker, outcomes[i]))
      invariant corroborating == |PositionsOf(peers, Seen)|
      invariant totalSeen == Min(Sightings(outcomes[..n]), U64_MAX) && (totalSeen == 0 <==> corroborating == 0)
    {
      var reply := Classify(asker, outcomes[n]);
      assert outcomes[..n + 1][..n] == outcomes[..n];
      if outcomes[n].Some? && outcomes[n].value.refused == "" && outcomes[n].value.seenCount > 0 {
        corroborating := corroborating + 1;
        totalSeen := Min(totalSeen + outcomes[n].value.seenCount, U64_MAX);
      }
      PositionsGrow(peers, PeerSighting(asked[n], reply), Seen);
      peers := peers + [PeerSighting(asked[n], reply)];
    }
    assert outcomes[..|asked|] == outcomes;
  }

  datatype Kind = Seen | Unseen | Declined | Foreign | Known | Mute

  function KindOf(r: PeerReply): Kind
  {
    match r
    case Saw(s) => if s.seenCount > 0 then Seen else Unseen
    case Refused(_) => Declined
    case Incomparable(_) => Foreign
    case Familiar(_, _) => Known
    case Silent => Mute
  }

  /** The peers of one kind, by position, so that no peer can be counted twice. */
  function PositionsOf(peers: seq<PeerSighting>, kind: Kind): set<nat>
  {
    set i: nat | i < |peers| && KindOf(peers[i].reply) == kind
  }

  lemma PositionsGrow(peers: seq<PeerSighting>, p: PeerSighting, kind: Kind)
    ensures |PositionsOf(peers + [p], kind)| == |PositionsOf(peers, kind)| + if KindOf(p.reply) == kind then 1 else 0
  {
    var extra := if KindOf(p.reply) == kind then {|peers|} else {};
    assert PositionsOf(peers + [p], kind) == PositionsOf(peers, kind) + extra;
    assert PositionsOf(peers, kind) !! extra;
  }

  /** Confirmation counts peers that looked, could compare, and have never seen the binary. The wire counters are 32
      bits wide, and one round asks far fewer peers than that. */
  method QuorumVerdict(peers: seq<PeerSighting>, quorum: nat) returns (c: Confirmation)
    requires |peers| < U32_MAX
    ensures c.asked == |peers| && c.quorum == Min(quorum, U32_MAX)
    ensures c.unseen == |PositionsOf(peers, Unseen)| && c.seen == |PositionsOf(peers, Seen)|
    ensures c.refused == |PositionsOf(peers, Declined)| && c.incomparable == |PositionsOf(peers, Foreign)|
    ensures c.familiar == |PositionsOf(peers, Known)| && c.noReply == |PositionsOf(peers, Mute)|
    ensures c.asked == c.unseen + c.seen + c.refused + c.incomparable + c.familiar + c.noReply
    ensures c.confirmed <==> 0 < quorum <= |PositionsOf(peers, Unseen)|
  {
    var unseen, seen, noReply, refused, incomparable, familiar := 0, 0, 0, 0, 0, 0;
    for n := 0 to |peers|
      invariant unseen == |PositionsOf(peers[..n], Unseen)| && seen == |PositionsOf(peers[..n], Seen)|
      invariant refused == |PositionsOf(peers[..n], Declined)| && incomparable == |PositionsOf(peers[..n], Foreign)|
      invariant familiar == |PositionsOf(peers[..n], Known)| && noReply == |PositionsOf(peers[..n], Mute)|
      invariant n == unseen + seen + refused + incomparable + familiar + noReply
    {
      assert peers[..n + 1] == peers[..n] + [peers[n]];
      AllPositionsGrow(peers[..n], peers[n]);
      match peers[n].reply
      case Saw(s) => if s.seenCount > 0 { seen := seen + 1; } else { unseen := unseen + 1; }
      case Refused(_) => refused := refused + 1;
      case Incomparable(_) => incomparable := incomparable + 1;
      case Familiar(_, _) => familiar := familiar + 1;
      case Silent => noReply := noReply + 1;
    }
    assert peers[..|peers|] == peers;
    c := Confirmation(Min(|peers|, U32_MAX), unseen, seen, noReply, refused, incomparable, familiar,
                      Min(quorum, U32_MAX), quorum > 0 && unseen >= Min(quorum, U32_MAX));
  }

  lemma AllPositionsGrow(peers: seq<PeerSighting>, p: PeerSighting)
    ensures forall kind ::
      |PositionsOf(peers + [p], kind)| == |PositionsOf(peers, kind)| + if KindOf(p.reply) == kind then 1 else 0
  {
    forall kind { PositionsGrow(peers, p, kind); }
  }

  // ------------------------------------------------------------------------------------------
  // End to end
  // ------------------------------------------------------------------------------------------

  /** The host knows the program in question by name, without having seen this build of it: it ran a build of the
      package or has it installed, or it ran something at the path or a package owns it. Empty names ask nothing. */
  predicate KnowsProgram(h: Host, q: Question)
  {
    || (q.pkg != "" && ((q.pkg in h.pkgHashes && h.pkgHashes[q.pkg] > 0) || q.pkg in h.installed))
    || (q.exePath != "" && ((q.exePath in h.pathHashes && h.pathHashes[q.exePath] > 0) || q.exePath in h.owned))
  }

  /** What "never seen it" has to mean: the host is on the asker's platform, has no record of the binary, does not know
      the program by package or path, and has watched enough, for long enough. */
  predicate HasStanding(h: Host, q: Question, bar: CoverageBar, asker: string, now: int)
  {
    && asker != "" && h.platform == asker
    && Hits(h.Baseline(), q.tier1) == {}
    && !KnowsProgram(h, q)
    && |h.Baseline()| >= bar.minBinaries
    && Age(h.Baseline(), now) >= bar.minAge
  }

  /** When something with the fingerprint was run, by position. */
  function RunsWith(observed: seq<Observation>, target: seq<nat>): set<nat>
  {
    set i: nat | i < |observed| && observed[i].tier1 == target
  }

  /** What a host has seen of a fingerprint is how often it ran something with it. */
  lemma {:induction false} TotalIsTheRuns(observed: seq<Observation>, target: seq<nat>)
    requires OneFingerprint(observed)
    ensures Total(Remember(observed), target) == |RunsWith(observed, target)|
  {
    if observed != [] {
      var n := |observed| - 1;
      var front, o := observed[..n], observed[n];
      OneFingerprintSoFar(observed);
      TotalIsTheRuns(front, target);
      assert RunsWith(observed, target) == RunsWith(front, target) + if o.tier1 == target then {n} else {};
      TotalNext(front, o, target);
    }
  }

  lemma OneFingerprintSoFar(observed: seq<Observation>)
    requires observed != [] && OneFingerprint(observed)
    ensures var front, o := observed[..|observed| - 1], observed[|observed| - 1];
      OneFingerprint(front) && forall x :: x in front && x.sha == o.sha ==> x.tier1 == o.tier1
  {
    assert forall x :: x in observed[..|observed| - 1] ==> x in observed;
  }

  lemma TotalNext(front: seq<Observation>, o: Observation, target: seq<nat>)
    requires forall x :: x in front && x.sha == o.sha ==> x.tier1 == o.tier1
    ensures Total(Upsert(Remember(front), o), target) ==
      Total(Remember(front), target) + if o.tier1 == target then 1 else 0
  {
    var before := Remember(front);
    var found := Find(before, o.sha);
    if found.Some? {
      EveryRecordWasSeen(front);
      var b := before[found.value];
      assert Observation(b.sha, b.tier1, b.firstSeen) in front;
      TotalUpdate(before, found.value, b.(lastSeen := o.at, seenCount := b.seenCount + 1), target);
    } else {
      assert Upsert(before, o)[..|before|] == before;
    }
  }

  lemma {:induction false} TotalUpdate(baseline: seq<BinaryRecord>, k: nat, b: BinaryRecord, target: seq<nat>)
    requires k < |baseline| && b.tier1 == baseline[k].tier1 && b.seenCount == baseline[k].seenCount + 1
    ensures Total(baseline[k := b], target) == Total(baseline, target) + if b.tier1 == target then 1 else 0
  {
    var n := |baseline| - 1;
    if k < n {
      TotalUpdate(baseline[..n], k, b, target);
      assert baseline[k := b][..n] == baseline[..n][k := b];
    } else {
      assert baseline[k := b][..n] == baseline[..n];
    }
  }

  lemma {:induction false} TotalZero(baseline: seq<BinaryRecord>, target: seq<nat>)
    ensures Total(baseline, target) == 0 <==> forall i :: 0 <= i < |baseline| && baseline[i].tier1 == target ==>
      baseline[i].seenCount == 0
  {
    if baseline != [] {
      var n := |baseline| - 1;
      TotalZero(baseline[..n], target);
      assert forall i :: 0 <= i < n ==> baseline[..n][i] == baseline[i];
    }
  }

  /** An honest answer is counted as "never seen it" exactly when the responder has standing. */
  lemma CountedMeansStanding(
      h: Host, q: Question, bar: CoverageBar, asker: string, now: int, reply: Option<Answer>)
    requires HonestAnswer(h, q, bar, now, reply) && reply.Some?
    ensures KindOf(Classify(asker, reply)) == Unseen <==> HasStanding(h, q, bar, asker, now)
  {
    SeenMeansHits(h, q, bar, now, reply);
  }

  lemma SeenMeansHits(h: Host, q: Question, bar: CoverageBar, now: int, reply: Option<Answer>)
    requires HonestAnswer(h, q, bar, now, reply) && reply.Some?
    ensures reply.value.seenCount > 0 <==> Hits(h.Baseline(), q.tier1) != {}
    ensures reply.value.refused != "" <==> TooGreen(h.Baseline(), q.tier1, bar, now)
  {
    TotalZero(h.Baseline(), q.tier1);
    EveryRecordWasSeen(h.observed);
    var hits := Hits(h.Baseline(), q.tier1);
    assert forall i :: 0 <= i < |h.Baseline()| && h.Baseline()[i].tier1 == q.tier1 ==> i in hits;
  }

  /** How a host should be counted, as facts about it: seen when it has the binary on record; declined when it has
      not, and watched too little; familiar when it watched enough and knows the program; unseen when it has standing;
      and incomparable when none of these holds and the platforms differ. */
  predicate CountsAs(h: Host, q: Question, bar: CoverageBar, asker: string, now: int, kind: Kind)
  {
    var hits := Hits(h.Baseline(), q.tier1);
    var green := |h.Baseline()| < bar.minBinaries || Age(h.Baseline(), now) < bar.minAge;
    match kind
    case Seen => hits != {}
    case Declined => hits == {} && green
    case Known => hits == {} && !green && KnowsProgram(h, q)
    case Foreign => hits == {} && !green && !KnowsProgram(h, q) && (asker == "" || h.platform != asker)
    case Unseen => HasStanding(h, q, bar, asker, now)
    case Mute => false
  }

  /** An honest answer is counted as it should be; and a familiar one says how: by package, with the number of builds
      the host ran, or by path only. */
  lemma CountedAsItShould(
      h: Host, q: Question, bar: CoverageBar, asker: string, now: int, reply: Option<Answer>, kind: Kind)
    requires HonestAnswer(h, q, bar, now, reply) && reply.Some?
    ensures KindOf(Classify(asker, reply)) == kind <==> CountsAs(h, q, bar, asker, now, kind)
    ensures KindOf(Classify(asker, reply)) == Known ==>
      var familiar := Classify(asker, reply);
      var run := q.pkg != "" && q.pkg in h.pkgHashes && h.pkgHashes[q.pkg] > 0;
      && (familiar.byPathOnly <==> !run && (q.pkg == "" || q.pkg !in h.installed))
      && familiar.pkgBuilds == (if run then Min(h.pkgHashes[q.pkg], 64) else 0)
  {
    SeenMeansHits(h, q, bar, now, reply);
  }

  /** Standing in terms of what the host observed: it never ran the binary, and with a positive age bar something it
      did run it ran at least that long ago. */
  lemma StandingMeans(h: Host, q: Question, bar: CoverageBar, asker: string, now: int)
    requires HasStanding(h, q, bar, asker, now) && OneFingerprint(h.observed)
    ensures forall o :: o in h.observed ==> o.tier1 != q.tier1
    ensures bar.minAge > 0 ==> exists o :: o in h.observed && o.at + bar.minAge <= now
  {
    var baseline := h.Baseline();
    EveryRecordWasSeen(h.observed);
    forall o | o in h.observed ensures o.tier1 != q.tier1 {
      var i := EveryRunIsRecorded(h.observed, o);
      assert i !in Hits(baseline, q.tier1);
    }
    if bar.minAge > 0 {
      OldestIsFirst(baseline);
      var i :| 0 <= i < |baseline| && baseline[i].firstSeen == Oldest(baseline);
      var o := Observation(baseline[i].sha, baseline[i].tier1, baseline[i].firstSeen);
      assert o in h.observed && o.at + bar.minAge <= now;
    }
  }

  /** The fingerprint is derived from the hash. */
  predicate OneFingerprint(observed: seq<Observation>)
  {
    forall a, b :: a in observed && b in observed && a.sha == b.sha ==> a.tier1 == b.tier1
  }

  predicate Knows(baseline: seq<BinaryRecord>, i: nat, sha: nat, tier1: seq<nat>)
  {
    i < |baseline| && baseline[i].sha == sha && baseline[i].tier1 == tier1
  }

  lemma UpsertKeeps(baseline: seq<BinaryRecord>, o: Observation, i: nat)
    requires i < |baseline|
    ensures Knows(Upsert(baseline, o), i, baseline[i].sha, baseline[i].tier1)
  {
  }

  lemma {:induction false} EveryRunIsRecorded(observed: seq<Observation>, o: Observation) returns (i: nat)
    requires o in observed && OneFingerprint(observed)
    ensures Knows(Remember(observed), i, o.sha, o.tier1)
    decreases |observed|
  {
    var n := |observed| - 1;
    var front, baseline := observed[..n], Remember(observed[..n]);
    assert forall x :: x in front ==> x in observed;
    if o in front {
      i := EveryRunIsRecorded(front, o);
      UpsertKeeps(baseline, observed[n], i);
    } else {
      assert observed[n] == o;
      i := UpsertKnows(front, baseline, o);
    }
  }

  lemma UpsertKnows(observed: seq<Observation>, baseline: seq<BinaryRecord>, o: Observation) returns (i: nat)
    requires baseline == Remember(observed) && forall x :: x in observed && x.sha == o.sha ==> x.tier1 == o.tier1
    ensures Knows(Upsert(baseline, o), i, o.sha, o.tier1)
  {
    EveryRecordWasSeen(observed);
    var found := Find(baseline, o.sha);
    if found.Some? {
      i := found.value;
      assert Observation(baseline[i].sha, baseline[i].tier1, baseline[i].firstSeen) in observed;
      UpsertKeeps(baseline, o, i);
    } else {
      i := |baseline|;
    }
  }

  /** One round: who was asked, the responder behind each peer, its clock, and what came back; an answer may be lost but
      not altered. The mesh lists a peer once per incarnation, so `asked` may name one twice. */
  datatype Round = Round(
    asker: string, quorum: nat, bar: CoverageBar, question: Question, asked: seq<Fp>,
    hosts: map<Fp, Host>, clocks: map<Fp, int>, outcomes: seq<Option<Answer>>)

  ghost predicate Honest(r: Round)
  {
    && |r.asked| == |r.outcomes| && |r.asked| < U32_MAX
    && forall i :: 0 <= i < |r.asked| ==>
      && r.asked[i] in r.hosts && r.asked[i] in r.clocks
      && (r.outcomes[i].None?
          || HonestAnswer(r.hosts[r.asked[i]], r.question, r.bar, r.clocks[r.asked[i]], r.outcomes[i]))
  }

  /** The positions of the round whose answer arrived, from a peer that has standing. */
  ghost function Standing(r: Round): set<nat>
    requires Honest(r)
  {
    set i: nat | i < |r.asked| && r.outcomes[i].Some?
                 && HasStanding(r.hosts[r.asked[i]], r.question, r.bar, r.asker, r.clocks[r.asked[i]])
  }

  /** The peers at those positions. */
  ghost function Witnesses(r: Round): set<Fp>
    requires Honest(r)
  {
    set i | i in Standing(r) :: r.asked[i]
  }

  /** No peer stands at two positions. */
  ghost predicate OneVoiceEach(r: Round)
    requires Honest(r)
  {
    forall i, j :: i in Standing(r) && j in Standing(r) && r.asked[i] == r.asked[j] ==> i == j
  }

  /** What a round counts as unseen are the positions with standing; they are as many distinct peers exactly when no
      peer stands at two of them. */
  lemma WitnessesAreTheUnseen(r: Round, peers: seq<PeerSighting>)
    requires Honest(r) && |peers| == |r.asked|
    requires forall i :: 0 <= i < |peers| ==> peers[i] == PeerSighting(r.asked[i], Classify(r.asker, r.outcomes[i]))
    ensures Standing(r) == PositionsOf(peers, Unseen)
    ensures |Witnesses(r)| <= |Standing(r)| && (|Witnesses(r)| == |Standing(r)| <==> OneVoiceEach(r))
  {
    forall i: nat ensures i in Standing(r) <==> i in PositionsOf(peers, Unseen) {
      if i < |peers| {
        StandsWhereUnseen(r, i);
        assert i in PositionsOf(peers, Unseen) <==> KindOf(Classify(r.asker, r.outcomes[i])) == Unseen;
      }
    }
    DistinctVoices(r);
  }

  lemma StandsWhereUnseen(r: Round, i: nat)
    requires Honest(r) && i < |r.asked|
    ensures i in Standing(r) <==> KindOf(Classify(r.asker, r.outcomes[i])) == Unseen
  {
    if r.outcomes[i].Some? {
      CountedMeansStanding(r.hosts[r.asked[i]], r.question, r.bar, r.asker, r.clocks[r.asked[i]], r.outcomes[i]);
    }
  }

  /** The positions that should be counted as `kind`. */
  ghost function Positions(r: Round, kind: Kind): set<nat>
    requires Honest(r)
  {
    set i: nat | i < |r.asked| && if r.outcomes[i].None? then kind == Mute
                 else CountsAs(r.hosts[r.asked[i]], r.question, r.bar, r.asker, r.clocks[r.asked[i]], kind)
  }

  lemma PositionsAreCounted(r: Round, peers: seq<PeerSighting>, kind: Kind)
    requires Honest(r) && |peers| == |r.asked|
    requires forall i :: 0 <= i < |peers| ==> peers[i] == PeerSighting(r.asked[i], Classify(r.asker, r.outcomes[i]))
    ensures Positions(r, kind) == PositionsOf(peers, kind)
    ensures Positions(r, Unseen) == Standing(r)
  {
    forall i: nat | i < |peers| ensures i in Positions(r, kind) <==> i in PositionsOf(peers, kind) {
      if r.outcomes[i].Some? {
        CountedAsItShould(r.hosts[r.asked[i]], r.question, r.bar, r.asker, r.clocks[r.asked[i]], r.outcomes[i], kind);
      }
    }
  }

  lemma DistinctVoices(r: Round)
    requires Honest(r)
    ensures |Witnesses(r)| <= |Standing(r)| && (|Witnesses(r)| == |Standing(r)| <==> OneVoiceEach(r))
  {
    ImageSize(Standing(r), r.asked);
    assert OneVoiceEach(r) <==> OneEach(Standing(r), r.asked);
  }

  function Named(positions: set<nat>, asked: seq<Fp>): set<Fp>
    requires forall i :: i in positions ==> i < |asked|
  {
    set i | i in positions :: asked[i]
  }

  predicate OneEach(positions: set<nat>, asked: seq<Fp>)
    requires forall i :: i in positions ==> i < |asked|
  {
    forall i, j :: i in positions && j in positions && asked[i] == asked[j] ==> i == j
  }

  /** Positions name at most as many peers as there are positions, and as many exactly when none is named twice. */
  lemma {:induction false} ImageSize(positions: set<nat>, asked: seq<Fp>)
    requires forall i :: i in positions ==> i < |asked|
    ensures |Named(positions, asked)| <= |positions|
    ensures |Named(positions, asked)| == |positions| <==> OneEach(positions, asked)
    decreases positions
  {
    if positions != {} {
      var i :| i in positions;
      var rest := positions - {i};
      ImageSize(rest, asked);
      assert Named(positions, asked) == Named(rest, asked) + {asked[i]};
      if asked[i] in Named(rest, asked) {
        var j :| j in rest && asked[j] == asked[i];
        assert j in positions && i != j;
      } else {
        assert OneEach(positions, asked) <==> OneEach(rest, asked);
      }
    }
  }

  ghost predicate Decides(r: Round, c: Confirmation)
    requires Honest(r)
  {
    && (c.confirmed <==> 0 < r.quorum <= |Standing(r)|)
    && c.asked == |r.asked| && c.unseen == |Standing(r)|
    && c.seen == |Positions(r, Seen)| && c.familiar == |Positions(r, Known)|
    && c.refused == |Positions(r, Declined)| && c.incomparable == |Positions(r, Foreign)|
    && c.noReply == |Positions(r, Mute)|
    && c.asked == c.unseen + c.seen + c.refused + c.incomparable + c.familiar + c.noReply
  }

  /** A round confirms exactly when the quorum is enabled and at least that many positions, whose answers arrived,
      have standing to say "never seen it"; those are that many distinct peers when no peer stands at two positions.
      Every position is counted once, as what its host should be counted as. */
  method RunRound(r: Round) returns (c: Confirmation)
    requires Honest(r)
    ensures Decides(r, c)
    ensures c.confirmed && OneVoiceEach(r) ==> 0 < r.quorum <= |Witnesses(r)|
  {
    var peers, _, _ := ReadReplies(r.asker, r.asked, r.outcomes);
    c := QuorumVerdict(peers, r.quorum);
    WitnessesAreTheUnseen(r, peers);
    forall kind {
      PositionsAreCounted(r, peers, kind);
    }
  }

  /** One new host, listed twice, asked with no bar to clear, and a quorum of two. */
  function TwiceAsked(): Round
  {
    var answer := Some(Answer(0, 0, 0, "", "p", ProgramKnowledge(false, 0, false)));
    Round("p", 2, CoverageBar(0, 0), Question([0, 0, 0, 0, 0, 0, 0, 0], 0, "", ""), [7, 7],
          map[7 := Host([], "p", map[], map[], {}, {})], map[7 := 0], [answer, answer])
  }

  /** A peer the mesh lists twice is asked twice and counted twice: one honest host is all there is behind a quorum of
      two. */
  lemma OnePeerFillsAQuorumOfTwo()
    ensures var r := TwiceAsked(); Honest(r) && r.quorum == |Standing(r)| == 2 && |Witnesses(r)| == 1
  {
    var r := TwiceAsked();
    var h := r.hosts[7];
    assert h.Baseline() == [] && Hits([], r.question.tier1) == {};
    assert HonestAnswer(h, r.question, r.bar, 0, r.outcomes[0]);
    assert HasStanding(h, r.question, r.bar, "p", 0);
    assert Standing(r) == {0, 1};
    assert Witnesses(r) == {7};
  }

  /** How far a recognised program's score is lowered; the damping fraction saturates at 16 bits. */
  function RecognisedFraction(c: Confirmation): (r: real)
    ensures 0.0 <= r <= 1.0 && (r > 0.0 <==> c.familiar > 0)
  {
    var f := Min(c.familiar, 65535) as real / Min(Max(c.asked, 1), 65535) as real;
    if f > 1.0 then 1.0 else f
  }

  function ExplainedSuspicion(pre: real, c: Confirmation): (r: real)
    ensures pre >= 0.0 ==> pre * 0.4 <= r <= pre
    ensures pre > 0.0 ==> (r < pre <==> c.familiar > 0)
  {
    var f := RecognisedFraction(c);
    assert pre >= 0.0 ==> 0.0 <= pre * f <= pre;
    assert pre > 0.0 ==> (pre * f > 0.0 <==> f > 0.0);
    pre * (1.0 - 0.6 * f)
  }

  /** The damping is proportional: of the score, three fifths of the recognised fraction go, when the peers that
      recognised the program are some of those asked. */
  lemma DampIsProportional(pre: real, c: Confirmation)
    requires c.familiar <= c.asked && 0 < c.asked <= 65535
    ensures 5.0 * c.asked as real * ExplainedSuspicion(pre, c) ==
      pre * (5.0 * c.asked as real - 3.0 * c.familiar as real)
  {
    var asked, familiar := c.asked as real, c.familiar as real;
    var f := RecognisedFraction(c);
    assert f * asked == familiar by {
      assert familiar / asked <= 1.0;
    }
    assert 5.0 * asked * (pre * (1.0 - 0.6 * f)) == pre * (5.0 * asked - 3.0 * (f * asked));
  }
}
