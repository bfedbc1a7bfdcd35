/**
 One row per episode (`sql_tables.rs`): later alerts of an episode supersede the first, which keeps its place.
 */
module AlertView {
  import opened Basics
  import opened Inbox

  predicate IsFirst(alerts: seq<Alert>, i: nat)
    requires i < |alerts|
  {
    alerts[i].episode == "" || forall j :: 0 <= j < i ==> alerts[j].episode != alerts[i].episode
  }

  /** The positions that open a row. */
  function Firsts(alerts: seq<Alert>): seq<nat>
  {
    if alerts == [] then []
    else
      var n := |alerts| - 1;
      Firsts(alerts[..n]) + if IsFirst(alerts, n) then [n] else []
  }

  /** What a row finally shows: the last alert of the episode, or the alert itself when it names none. */
  function Newest(alerts: seq<Alert>, i: nat): Alert
    requires i < |alerts|
  {
    if alerts[i].episode == "" then alerts[i] else LastOf(alerts, alerts[i].episode, alerts[i])
  }

  function LastOf(alerts: seq<Alert>, episode: string, default: Alert): Alert
  {
    if alerts == [] then default
    else if alerts[|alerts| - 1].episode == episode then alerts[|alerts| - 1]
    else LastOf(alerts[..|alerts| - 1], episode, default)
  }

  lemma FirstInPrefix(alerts: seq<Alert>, n: nat, i: nat)
    requires i < n <= |alerts|
    ensures IsFirst(alerts[..n], i) == IsFirst(alerts, i)
  {
    assert forall j :: 0 <= j < n ==> alerts[..n][j] == alerts[j];
  }

  lemma {:induction false} FirstsAre(alerts: seq<Alert>)
    ensures forall k :: 0 <= k < |Firsts(alerts)| ==> Firsts(alerts)[k] < |alerts| && IsFirst(alerts, Firsts(alerts)[k])
    ensures forall k, l :: 0 <= k < l < |Firsts(alerts)| ==> Firsts(alerts)[k] < Firsts(alerts)[l]
    ensures forall i :: 0 <= i < |alerts| && IsFirst(alerts, i) ==> i in Firsts(alerts)
  {
    if alerts != [] {
      var n := |alerts| - 1;
      FirstsAre(alerts[..n]);
      forall i | 0 <= i < n ensures IsFirst(alerts[..n], i) == IsFirst(alerts, i) {
        FirstInPrefix(alerts, n, i);
      }
      forall i | 0 <= i < |alerts| && IsFirst(alerts, i) ensures i in Firsts(alerts) {
        if i < n {
          assert i in Firsts(alerts[..n]);
        }
      }
    }
  }

  ghost predicate IsCollapsed(alerts: seq<Alert>, out: seq<Alert>)
  {
    && |out| == |Firsts(alerts)|
    && forall k :: 0 <= k < |out| ==> Firsts(alerts)[k] < |alerts| && out[k] == Newest(alerts, Firsts(alerts)[k])
  }

  lemma {:induction false} LastOfKeepsEpisode(alerts: seq<Alert>, episode: string, default: Alert)
    requires default.episode == episode
    ensures LastOf(alerts, episode, default).episode == episode
  {
    if alerts != [] && alerts[|alerts| - 1].episode != episode {
      LastOfKeepsEpisode(alerts[..|alerts| - 1], episode, default);
    }
  }

  /** The row found by the collapsing loop for the next alert. */
  method FindRow(out: seq<Alert>, episode: string) returns (row: Option<nat>)
    ensures row.Some? ==> row.value < |out| && episode != "" && out[row.value].episode == episode
    ensures row.None? ==> episode == "" || forall k :: 0 <= k < |out| ==> out[k].episode != episode
  {
    for k := 0 to |out|
      invariant episode == "" || forall l :: 0 <= l < k ==> out[l].episode != episode
    {
      if episode != "" && out[k].episode == episode {
        return Some(k);
      }
    }
    return None;
  }

  /** Rows keep the position of the first alert of the episode and show its last one. */
  method CollapseSuperseded(alerts: seq<Alert>) returns (out: seq<Alert>)
    ensures IsCollapsed(alerts, out)
  {
    out := [];
    for n := 0 to |alerts|
      invariant IsCollapsed(alerts[..n], out)
    {
      assert alerts[..n + 1][..n] == alerts[..n];
      var row := FindRow(out, alerts[n].episode);
      CollapseStep(alerts[..n], alerts[n], out, row);
      assert alerts[..n] + [alerts[n]] == alerts[..n + 1];
      out := if row.Some? then out[row.value := alerts[n]] else out + [alerts[n]];
    }
    assert alerts[..|alerts|] == alerts;
  }

  lemma CollapseStep(alerts: seq<Alert>, a: Alert, out: seq<Alert>, row: Option<nat>)
    requires IsCollapsed(alerts, out)
    requires row.Some? ==> row.value < |out| && a.episode != "" && out[row.value].episode == a.episode
    requires row.None? ==> a.episode == "" || forall k :: 0 <= k < |out| ==> out[k].episode != a.episode
    ensures IsCollapsed(alerts + [a], if row.Some? then out[row.value := a] else out + [a])
  {
    var more := alerts + [a];
    var n := |alerts|;
    assert more[..n] == alerts;
    FirstsAre(alerts);
    forall k | 0 <= k < |out| ensures out[k].episode == alerts[Firsts(alerts)[k]].episode {
      RowEpisode(alerts, out, k);
    }
    if a.episode != "" {
      assert IsFirst(more, n) <==> row.None? by {
        if row.Some? {
          assert more[Firsts(alerts)[row.value]].episode == a.episode;
        } else {
          forall j | 0 <= j < n ensures more[j].episode != a.episode {
            if more[j].episode == a.episode {
              EpisodeHasRow(alerts, out, j);
            }
          }
        }
      }
    }
    assert Firsts(more) == Firsts(alerts) + if row.Some? then [] else [n];
    var now := if row.Some? then out[row.value := a] else out + [a];
    forall k | 0 <= k < |now| ensures Firsts(more)[k] < |more| && now[k] == Newest(more, Firsts(more)[k]) {
      if k < |out| {
        var i := Firsts(alerts)[k];
        assert more[i] == alerts[i];
        if alerts[i].episode == a.episode != "" {
          EpisodeHasOneRow(alerts, out, k, row.value);
        }
      }
    }
  }

  lemma RowEpisode(alerts: seq<Alert>, out: seq<Alert>, k: nat)
    requires IsCollapsed(alerts, out) && k < |out|
    ensures out[k].episode == alerts[Firsts(alerts)[k]].episode
  {
    var i := Firsts(alerts)[k];
    if alerts[i].episode != "" {
      LastOfKeepsEpisode(alerts, alerts[i].episode, alerts[i]);
    }
  }

  lemma {:induction false} EpisodeHasRow(alerts: seq<Alert>, out: seq<Alert>, j: nat)
    requires IsCollapsed(alerts, out) && j < |alerts| && alerts[j].episode != ""
    ensures exists k :: 0 <= k < |out| && out[k].episode == alerts[j].episode
  {
    FirstsAre(alerts);
    if IsFirst(alerts, j) {
      var k :| 0 <= k < |Firsts(alerts)| && Firsts(alerts)[k] == j;
      RowEpisode(alerts, out, k);
    } else {
      var i :| 0 <= i < j && alerts[i].episode == alerts[j].episode;
      EpisodeHasRow(alerts, out, i);
    }
  }

  lemma EpisodeHasOneRow(alerts: seq<Alert>, out: seq<Alert>, k: nat, l: nat)
    requires IsCollapsed(alerts, out) && k < |out| && l < |out| && out[k].episode == out[l].episode != ""
    ensures k == l
  {
    RowEpisode(alerts, out, k);
    RowEpisode(alerts, out, l);
    FirstsAre(alerts);
  }

  /** Collapsing twice changes nothing. */
  lemma CollapseIsIdempotent(alerts: seq<Alert>, out: seq<Alert>, again: seq<Alert>)
    requires IsCollapsed(alerts, out) && IsCollapsed(out, again)
    ensures again == out
  {
    forall i | 0 <= i < |out| ensures IsFirst(out, i) {
      if out[i].episode != "" {
        forall j | 0 <= j < i ensures out[j].episode != out[i].episode {
          if out[j].episode == out[i].episode {
            EpisodeHasOneRow(alerts, out, i, j);
          }
        }
      }
    }
    AllFirst(out);
    forall k | 0 <= k < |out| ensures again[k] == out[k] {
      if out[k].episode != "" {
        forall j | 0 <= j < |out| && j != k ensures out[j].episode != out[k].episode {
          if out[j].episode == out[k].episode {
            EpisodeHasOneRow(alerts, out, j, k);
          }
        }
        OnlyOne(out, k);
      }
    }
  }

  lemma {:induction false} AllFirst(alerts: seq<Alert>)
    requires forall i :: 0 <= i < |alerts| ==> IsFirst(alerts, i)
    ensures |Firsts(alerts)| == |alerts| && forall k :: 0 <= k < |alerts| ==> Firsts(alerts)[k] == k
  {
    if alerts != [] {
      var n := |alerts| - 1;
      forall i | 0 <= i < n ensures IsFirst(alerts[..n], i) {
        assert IsFirst(alerts, i);
      }
      AllFirst(alerts[..n]);
      assert IsFirst(alerts, n);
    }
  }

  lemma {:induction false} OnlyOne(alerts: seq<Alert>, k: nat)
    requires k < |alerts| && forall j :: 0 <= j < |alerts| && j != k ==> alerts[j].episode != alerts[k].episode
    ensures LastOf(alerts, alerts[k].episode, alerts[k]) == alerts[k]
  {
    var n := |alerts| - 1;
    if k < n {
      assert alerts[..n][k] == alerts[k];
      OnlyOne(alerts[..n], k);
    }
  }

  /** In every reachable inbox, an episode's row shows a mesh verdict exactly when some alert of it in the ring has
      one. */
  lemma RowShowsTheVerdict(capacity: nat, threshold: real, ops: seq<Op>, out: seq<Alert>, k: nat)
    requires IsCollapsed(Run(capacity, threshold, ops).items, out) && k < |out| && out[k].episode != ""
    ensures var items := Run(capacity, threshold, ops).items;
      out[k].confirmation.Some? <==>
      exists i :: 0 <= i < |items| && items[i].episode == out[k].episode && items[i].confirmation.Some?
  {
    var items := Run(capacity, threshold, ops).items;
    VerdictsStickAlways(capacity, threshold, ops);
    RowEpisode(items, out, k);
    var i := Firsts(items)[k];
    var last := LastOfIsLast(items, items[i].episode, items[i], i);
  }

  lemma {:induction false} LastOfIsLast(alerts: seq<Alert>, episode: string, default: Alert, i: nat)
    returns (last: nat)
    requires i < |alerts| && alerts[i].episode == episode
    ensures last < |alerts| && LastOf(alerts, episode, default) == alerts[last] && alerts[last].episode == episode
    ensures forall j :: last < j < |alerts| ==> alerts[j].episode != episode
  {
    var n := |alerts| - 1;
    if alerts[n].episode == episode {
      last := n;
    } else {
      last := LastOfIsLast(alerts[..n], episode, default, i);
      forall j | last < j < |alerts| ensures alerts[j].episode != episode {
        if j < n {
          assert alerts[..n][j] == alerts[j];
        }
      }
    }
  }

  /** Row `k` opens at `i` and shows alert `l`: the last one of the episode, or itself when it names none. */
  predicate Shows(alerts: seq<Alert>, i: nat, l: nat)
  {
    && i <= l < |alerts| && alerts[l].episode == alerts[i].episode
    && if alerts[i].episode == "" then l == i
       else forall j :: l < j < |alerts| ==> alerts[j].episode != alerts[i].episode
  }

  /** What the rows are, position by position: one for each alert without an episode and one for each episode, in the
      order in which they first appear, each showing its last alert. */
  lemma RowsAre(alerts: seq<Alert>, out: seq<Alert>) returns (first: seq<nat>, last: seq<nat>)
    requires IsCollapsed(alerts, out)
    ensures |first| == |last| == |out|
    ensures forall k, l :: 0 <= k < l < |first| ==> first[k] < first[l]
    ensures forall i :: 0 <= i < |alerts| ==>
      (i in first <==> alerts[i].episode == "" || forall j :: 0 <= j < i ==> alerts[j].episode != alerts[i].episode)
    ensures forall k :: 0 <= k < |out| ==> Shows(alerts, first[k], last[k]) && out[k] == alerts[last[k]]
  {
    first, last := Firsts(alerts), [];
    FirstsAre(alerts);
    for k := 0 to |out|
      invariant |last| == k && forall j :: 0 <= j < k ==> Shows(alerts, first[j], last[j]) && out[j] == alerts[last[j]]
    {
      var i := first[k];
      if alerts[i].episode == "" {
        last := last + [i];
      } else {
        var l := LastOfIsLast(alerts, alerts[i].episode, alerts[i], i);
        last := last + [l];
      }
    }
  }
}
