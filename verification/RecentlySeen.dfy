/** The bounded, expiring "have I already handled this?" set (`seen.rs`), with the clock as a parameter. */
module Seen {
  import opened Basics

  type Key = (string, string)

  type SeenAt = map<Key, int>

  /** One call; `victim` is the entry the map evicts if it is full, ties being the map's own business. */
  datatype Call = Call(key: Key, now: int, victim: Option<Key>)

  function Live(seen: SeenAt, now: int, ttl: nat): SeenAt
  {
    map k | k in seen && now - seen[k] < ttl :: seen[k]
  }

  predicate IsVictim(seen: SeenAt, max: nat, victim: Option<Key>)
  {
    if |seen| >= max && seen != map[]
    then victim.Some? && victim.value in seen && forall k :: k in seen ==> seen[victim.value] <= seen[k]
    else victim.None?
  }

  function Kept(seen: SeenAt, call: Call, ttl: nat): SeenAt
  {
    var live := Live(seen, call.now, ttl);
    if call.victim.Some? then live - {call.victim.value} else live
  }

  predicate Admissible(seen: SeenAt, call: Call, ttl: nat, max: nat)
  {
    IsVictim(Live(seen, call.now, ttl), max, call.victim)
  }

  predicate AnswersNew(seen: SeenAt, call: Call, ttl: nat) { call.key !in Kept(seen, call, ttl) }

  function After(seen: SeenAt, call: Call, ttl: nat): SeenAt { Kept(seen, call, ttl)[call.key := call.now] }

  class RecentlySeen {
    var seen: SeenAt
    const ttl: nat
    const maxEntries: nat

    constructor (ttl: nat, maxEntries: nat)
      ensures seen == map[] && this.ttl == ttl && this.maxEntries == maxEntries
    {
      seen := map[];
      this.ttl, this.maxEntries := ttl, maxEntries;
    }

    method CheckAndRecord(key: Key, now: int) returns (isNew: bool, ghost victim: Option<Key>)
      modifies this
      ensures Admissible(old(seen), Call(key, now, victim), ttl, maxEntries)
      ensures isNew == AnswersNew(old(seen), Call(key, now, victim), ttl)
      ensures seen == After(old(seen), Call(key, now, victim), ttl)
    {
      seen := map k | k in seen && now - seen[k] < ttl :: seen[k];
      assert seen == Live(old(seen), now, ttl);
      victim := None;
      if |seen| >= maxEntries && seen != map[] {
        var oldest := Oldest();
        victim := Some(oldest);
        seen := seen - {oldest};
      }
      isNew := key !in seen;
      seen := seen[key := now];
    }

    method Oldest() returns (oldest: Key)
      requires seen != map[]
      ensures oldest in seen && forall k :: k in seen ==> seen[oldest] <= seen[k]
    {
      var todo := seen.Keys;
      oldest :| oldest in todo;
      todo := todo - {oldest};
      while todo != {}
        invariant todo <= seen.Keys && oldest in seen
        invariant forall k :: k in seen && k !in todo ==> seen[oldest] <= seen[k]
        decreases todo
      {
        var k :| k in todo;
        if seen[k] < seen[oldest] {
          oldest := k;
        }
        todo := todo - {k};
      }
    }
  }

  // -- Runs ----------------------------------------------------------------------------------------

  function Run(calls: seq<Call>, ttl: nat): SeenAt
  {
    if calls == [] then map[] else After(Run(calls[..|calls| - 1], ttl), calls[|calls| - 1], ttl)
  }

  /** A run of the real structure: time does not go back, and evictions are the ones it would make. */
  ghost predicate IsRun(calls: seq<Call>, ttl: nat, max: nat)
  {
    && (forall i, j :: 0 <= i < j < |calls| ==> calls[i].now <= calls[j].now)
    && forall i :: 0 <= i < |calls| ==> AdmissibleAt(calls, i, ttl, max)
  }

  ghost predicate AdmissibleAt(calls: seq<Call>, i: nat, ttl: nat, max: nat)
    requires i < |calls|
  {
    Admissible(Run(calls[..i], ttl), calls[i], ttl, max)
  }

  /** The trace specification: the key was called less than `ttl` before `now`. */
  ghost predicate CalledSince(calls: seq<Call>, key: Key, now: int, ttl: nat)
  {
    exists i :: 0 <= i < |calls| && calls[i].key == key && now - calls[i].now < ttl
  }

  lemma {:induction false} NeverMoreThanTheCap(calls: seq<Call>, ttl: nat, max: nat)
    requires IsRun(calls, ttl, max)
    ensures |Run(calls, ttl)| <= Max(1, max)
  {
    if calls != [] {
      var n := |calls| - 1;
      PrefixRun(calls, ttl, max);
      NeverMoreThanTheCap(calls[..n], ttl, max);
      assert AdmissibleAt(calls, n, ttl, max);
      OneCallStaysBounded(Run(calls[..n], ttl), calls[n], ttl, max);
    }
  }

  lemma OneCallStaysBounded(seen: SeenAt, call: Call, ttl: nat, max: nat)
    requires Admissible(seen, call, ttl, max) && |seen| <= Max(1, max)
    ensures |After(seen, call, ttl)| <= Max(1, max)
  {
    var live, kept := Live(seen, call.now, ttl), Kept(seen, call, ttl);
    assert live.Keys <= seen.Keys;
    SubsetFits(live.Keys, seen.Keys);
    if call.victim.Some? {
      assert kept.Keys == live.Keys - {call.victim.value};
    }
    assert After(seen, call, ttl).Keys == kept.Keys + {call.key};
  }

  lemma PrefixRun(calls: seq<Call>, ttl: nat, max: nat)
    requires IsRun(calls, ttl, max) && calls != []
    ensures IsRun(calls[..|calls| - 1], ttl, max)
  {
    var front := calls[..|calls| - 1];
    forall i | 0 <= i < |front| ensures AdmissibleAt(front, i, ttl, max) {
      assert AdmissibleAt(calls, i, ttl, max) && front[..i] == calls[..i];
    }
  }

  /** What the map says about a key is the time of some call with that key, and at least as late as any other. */
  ghost predicate Tells(calls: seq<Call>, seen: SeenAt, key: Key)
  {
    key in seen ==>
      && (exists i :: 0 <= i < |calls| && calls[i].key == key && calls[i].now == seen[key])
      && (forall i :: 0 <= i < |calls| && calls[i].key == key ==> calls[i].now <= seen[key])
  }

  lemma TellsNext(calls: seq<Call>, seen: SeenAt, call: Call, ttl: nat, key: Key)
    requires Tells(calls, seen, key) && forall i :: 0 <= i < |calls| ==> calls[i].now <= call.now
    ensures Tells(calls + [call], After(seen, call, ttl), key)
  {
    var all, after := calls + [call], After(seen, call, ttl);
    if key == call.key {
      assert all[|calls|] == call && after[key] == call.now;
    } else if key in after {
      assert after[key] == seen[key];
      var i :| 0 <= i < |calls| && calls[i].key == key && calls[i].now == seen[key];
      assert all[i] == calls[i];
    }
  }

  lemma {:induction false} EntriesAreCalls(calls: seq<Call>, ttl: nat, max: nat, key: Key)
    requires IsRun(calls, ttl, max)
    ensures Tells(calls, Run(calls, ttl), key)
  {
    if calls != [] {
      var n := |calls| - 1;
      PrefixRun(calls, ttl, max);
      EntriesAreCalls(calls[..n], ttl, max, key);
      TellsNext(calls[..n], Run(calls[..n], ttl), calls[n], ttl, key);
      assert calls[..n] + [calls[n]] == calls;
    }
  }

  /** With or without eviction the only possible error is answering "new": a repeat is reported only for a key that was
      called less than `ttl` ago. */
  lemma RepeatsAreGenuine(calls: seq<Call>, ttl: nat, max: nat, call: Call)
    requires IsRun(calls + [call], ttl, max)
    ensures !AnswersNew(Run(calls, ttl), call, ttl) ==> CalledSince(calls, call.key, call.now, ttl)
  {
    assert (calls + [call])[..|calls|] == calls;
    PrefixRun(calls + [call], ttl, max);
    EntriesAreCalls(calls, ttl, max, call.key);
  }

  /** The keys of the trace that are still fresh at `now`. */
  ghost function FreshKeys(calls: seq<Call>, now: int, ttl: nat): set<Key>
  {
    set i | 0 <= i < |calls| && now - calls[i].now < ttl :: calls[i].key
  }

  /** At no call were as many keys fresh as the map may hold. */
  ghost predicate Roomy(calls: seq<Call>, ttl: nat, max: nat)
  {
    forall i :: 0 <= i < |calls| ==> |FreshKeys(calls[..i], calls[i].now, ttl)| < max
  }

  lemma {:induction false} RoomyKeepsEverything(calls: seq<Call>, ttl: nat, max: nat, key: Key, now: int)
    requires IsRun(calls, ttl, max) && Roomy(calls, ttl, max)
    requires calls == [] || calls[|calls| - 1].now <= now
    requires CalledSince(calls, key, now, ttl)
    ensures key in Run(calls, ttl) && now - Run(calls, ttl)[key] < ttl
  {
    var n := |calls| - 1;
    var front := calls[..n];
    NoVictim(calls, ttl, max);
    if calls[n].key != key {
      PrefixRun(calls, ttl, max);
      PrefixRoomy(calls, ttl, max);
      FrontCalled(calls, key, now, ttl);
      RoomyKeepsEverything(front, ttl, max, key, now);
      StaysIn(Run(front, ttl), calls[n], ttl, key, now);
    }
  }

  lemma FrontCalled(calls: seq<Call>, key: Key, now: int, ttl: nat)
    requires CalledSince(calls, key, now, ttl) && calls[|calls| - 1].key != key
    ensures CalledSince(calls[..|calls| - 1], key, now, ttl)
  {
    var i :| 0 <= i < |calls| && calls[i].key == key && now - calls[i].now < ttl;
    assert calls[..|calls| - 1][i] == calls[i];
  }

  lemma StaysIn(seen: SeenAt, call: Call, ttl: nat, key: Key, now: int)
    requires call.victim.None? && call.now <= now && call.key != key && key in seen && now - seen[key] < ttl
    ensures key in After(seen, call, ttl) && After(seen, call, ttl)[key] == seen[key]
  {
  }

  lemma PrefixRoomy(calls: seq<Call>, ttl: nat, max: nat)
    requires Roomy(calls, ttl, max) && calls != []
    ensures Roomy(calls[..|calls| - 1], ttl, max)
  {
    var front := calls[..|calls| - 1];
    forall j | 0 <= j < |front| ensures |FreshKeys(front[..j], front[j].now, ttl)| < max {
      assert front[..j] == calls[..j];
    }
  }

  lemma NoVictim(calls: seq<Call>, ttl: nat, max: nat)
    requires IsRun(calls, ttl, max) && Roomy(calls, ttl, max) && calls != []
    ensures calls[|calls| - 1].victim.None?
  {
    var n := |calls| - 1;
    var call := calls[n];
    var live := Live(Run(calls[..n], ttl), call.now, ttl);
    PrefixRun(calls, ttl, max);
    forall k | k in live.Keys ensures k in FreshKeys(calls[..n], call.now, ttl) {
      EntriesAreCalls(calls[..n], ttl, max, k);
    }
    SubsetFits(live.Keys, FreshKeys(calls[..n], call.now, ttl));
    assert AdmissibleAt(calls, n, ttl, max);
  }

  /** As long as the fresh keys stay below the cap the structure is exact: it answers "new" exactly when no call with
      that key came less than `ttl` before; each call refreshes its key. */
  lemma ExactWhileRoomy(calls: seq<Call>, ttl: nat, max: nat, call: Call)
    requires IsRun(calls + [call], ttl, max) && Roomy(calls + [call], ttl, max)
    ensures AnswersNew(Run(calls, ttl), call, ttl) <==> !CalledSince(calls, call.key, call.now, ttl)
  {
    var all := calls + [call];
    assert all[..|calls|] == calls;
    RepeatsAreGenuine(calls, ttl, max, call);
    PrefixRun(all, ttl, max);
    NoVictim(all, ttl, max);
    if CalledSince(calls, call.key, call.now, ttl) {
      PrefixRoomy(all, ttl, max);
      assert all[|calls| - 1] == calls[|calls| - 1];
      RoomyKeepsEverything(calls, ttl, max, call.key, call.now);
    }
  }

  /** While the fresh keys stay below the cap two "new" answers for one key are at least the ttl apart. */
  lemma NewAnswersAreSpaced(calls: seq<Call>, ttl: nat, max: nat, i: nat, j: nat)
    requires IsRun(calls, ttl, max) && Roomy(calls, ttl, max) && i < j < |calls| && calls[i].key == calls[j].key
    requires AnswersNew(Run(calls[..j], ttl), calls[j], ttl)
    ensures calls[j].now - calls[i].now >= ttl
  {
    UpTo(calls, ttl, max, j);
    ExactWhileRoomy(calls[..j], ttl, max, calls[j]);
    NotCalledSince(calls[..j], calls[j].key, calls[j].now, ttl, i);
  }

  lemma UpTo(calls: seq<Call>, ttl: nat, max: nat, j: nat)
    requires IsRun(calls, ttl, max) && Roomy(calls, ttl, max) && j < |calls|
    ensures IsRun(calls[..j] + [calls[j]], ttl, max) && Roomy(calls[..j] + [calls[j]], ttl, max)
  {
    PrefixesRun(calls, ttl, max, j + 1);
    assert calls[..j + 1] == calls[..j] + [calls[j]];
  }

  lemma NotCalledSince(calls: seq<Call>, key: Key, now: int, ttl: nat, i: nat)
    requires !CalledSince(calls, key, now, ttl) && i < |calls| && calls[i].key == key
    ensures now - calls[i].now >= ttl
  {
  }

  lemma PrefixesRun(calls: seq<Call>, ttl: nat, max: nat, n: nat)
    requires IsRun(calls, ttl, max) && Roomy(calls, ttl, max) && n <= |calls|
    ensures IsRun(calls[..n], ttl, max) && Roomy(calls[..n], ttl, max)
  {
    var front := calls[..n];
    forall i | 0 <= i < n ensures AdmissibleAt(front, i, ttl, max) && |FreshKeys(front[..i], front[i].now, ttl)| < max {
      assert AdmissibleAt(calls, i, ttl, max) && front[..i] == calls[..i];
    }
  }

  // -- What eviction costs -------------------------------------------------------------------------

  /** The keys called at `since` or later among the first `n` calls. */
  ghost function KeysSince(calls: seq<Call>, since: int, n: nat): set<Key>
    requires n <= |calls|
  {
    set i | 0 <= i < n && calls[i].now >= since :: calls[i].key
  }

  /** Between the `i`-th call and the `n`-th as many keys as the map may hold were called since the `i`-th. */
  ghost predicate CrowdedOut(calls: seq<Call>, i: nat, n: nat, max: nat)
    requires i < |calls| && n <= |calls|
  {
    exists j :: i < j < n && |KeysSince(calls, calls[i].now, j)| >= max
  }

  lemma EvictedMeansCrowded(calls: seq<Call>, ttl: nat, max: nat, i: nat, j: nat)
    requires IsRun(calls, ttl, max) && i < j < |calls|
    requires var seen := Run(calls[..j], ttl); var key := calls[i].key;
      calls[j].victim == Some(key) && key in seen && calls[i].now <= seen[key]
    ensures |KeysSince(calls, calls[i].now, j)| >= max
  {
    var seen := Run(calls[..j], ttl);
    var live := Live(seen, calls[j].now, ttl);
    assert AdmissibleAt(calls, j, ttl, max);
    PrefixesAreRuns(calls, ttl, max, j);
    forall k | k in live.Keys ensures k in KeysSince(calls, calls[i].now, j) {
      EntriesAreCalls(calls[..j], ttl, max, k);
      var m :| 0 <= m < j && calls[..j][m].key == k && calls[..j][m].now == seen[k];
      assert calls[m].key == k && calls[m].now >= calls[i].now;
    }
    SubsetFits(live.Keys, KeysSince(calls, calls[i].now, j));
  }

  lemma PrefixesAreRuns(calls: seq<Call>, ttl: nat, max: nat, n: nat)
    requires IsRun(calls, ttl, max) && n <= |calls|
    ensures IsRun(calls[..n], ttl, max)
  {
    forall i | 0 <= i < n ensures AdmissibleAt(calls[..n], i, ttl, max) {
      assert AdmissibleAt(calls, i, ttl, max) && calls[..n][..i] == calls[..i];
    }
  }

  /** A key stays, with the time of its call or a later one, until it is too old or crowded out. */
  lemma {:induction false} StaysUnlessCrowded(calls: seq<Call>, ttl: nat, max: nat, i: nat, n: nat)
    requires IsRun(calls, ttl, max) && i < n <= |calls| && calls[n - 1].now - calls[i].now < ttl
    requires !CrowdedOut(calls, i, n, max)
    ensures var seen := Run(calls[..n], ttl); calls[i].key in seen && calls[i].now <= seen[calls[i].key]
    decreases n
  {
    assert calls[..n][..n - 1] == calls[..n - 1];
    if i < n - 1 {
      assert calls[n - 2].now <= calls[n - 1].now;
      StaysUnlessCrowded(calls, ttl, max, i, n - 1);
      if calls[n - 1].victim == Some(calls[i].key) {
        EvictedMeansCrowded(calls, ttl, max, i, n - 1);
      }
    }
  }

  /** A repeat within the ttl is taken for new only when, since that call, as many distinct keys were called as the map
      may hold: the entry that goes first is always one nobody called longer ago. */
  lemma ForgottenOnlyWhenCrowded(calls: seq<Call>, ttl: nat, max: nat, i: nat, n: nat)
    requires IsRun(calls, ttl, max) && i < n < |calls| && calls[i].key == calls[n].key
    requires calls[n].now - calls[i].now < ttl && AnswersNew(Run(calls[..n], ttl), calls[n], ttl)
    ensures CrowdedOut(calls, i, n + 1, max)
  {
    if !CrowdedOut(calls, i, n, max) {
      assert calls[n - 1].now <= calls[n].now;
      StaysUnlessCrowded(calls, ttl, max, i, n);
      EvictedMeansCrowded(calls, ttl, max, i, n);
    }
  }
}
