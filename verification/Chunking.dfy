/**
 Splitting an inbox page into envelopes under the frame budget, and the `end`/cursor framing around them (`agent.rs`).
 An item counts with its encoded length.
 */
module Chunking {
  import opened Basics

  datatype Item = Item(id: nat, bytes: nat)

  datatype Frame = Frame(items: seq<Item>, cursor: nat, end: bool)

  function Bytes(items: seq<Item>): nat
  {
    if items == [] then 0 else Bytes(items[..|items| - 1]) + items[|items| - 1].bytes
  }

  function Concat(batches: seq<seq<Item>>): seq<Item>
  {
    if batches == [] then [] else Concat(batches[..|batches| - 1]) + batches[|batches| - 1]
  }

  /** Sendable: within the budget, or a single item that cannot be split. */
  predicate Fits(batch: seq<Item>, budget: nat) { |batch| == 1 || (batch != [] && Bytes(batch) <= budget) }

  /** A contiguous split of `items` into sendable batches. */
  ghost predicate IsSplit(items: seq<Item>, batches: seq<seq<Item>>, budget: nat)
  {
    Concat(batches) == items && AllFit(batches, budget)
  }

  predicate AllFit(batches: seq<seq<Item>>, budget: nat)
  {
    forall k :: 0 <= k < |batches| ==> Fits(batches[k], budget)
  }

  /** Greedy: no batch could also have taken the first item of the next one. */
  ghost predicate IsGreedy(batches: seq<seq<Item>>, budget: nat)
  {
    forall k :: 0 < k < |batches| ==> TightAt(batches, k, budget)
  }

  predicate TightAt(batches: seq<seq<Item>>, k: nat, budget: nat)
    requires 0 < k < |batches|
  {
    CannotTake(batches[k - 1], batches[k], budget)
  }

  predicate CannotTake(batch: seq<Item>, next: seq<Item>, budget: nat)
  {
    next != [] ==> Bytes(batch) + next[0].bytes > budget
  }

  method ChunkAlerts(items: seq<Item>, budget: nat) returns (batches: seq<seq<Item>>)
    ensures items == [] ==> batches == [[]]
    ensures items != [] ==> IsSplit(items, batches, budget)
    ensures items != [] ==> forall other :: IsSplit(items, other, budget) ==> |batches| <= |other|
  {
    batches := [];
    var batch: seq<Item>, batchBytes := [], 0;
    for n := 0 to |items|
      invariant batchBytes == Bytes(batch) && Progress(items[..n], batches, batch, budget)
    {
      var item := items[n];
      Advance(items[..n], batches, batch, item, budget);
      assert items[..n + 1] == items[..n] + [item];
      if batch != [] && batchBytes + item.bytes > budget {
        batches := batches + [batch];
        batch, batchBytes := [], 0;
      }
      batchBytes := batchBytes + item.bytes;
      batch := batch + [item];
    }
    assert items[..|items|] == items;
    ConcatPush(batches, batch);
    batches := batches + [batch];
    if items != [] {
      GreedyBeatsAll(items, batches, budget);
    }
  }

  /** The scan so far: closed batches and an open one, sendable and greedy, that together are what was scanned. */
  ghost predicate Progress(scanned: seq<Item>, batches: seq<seq<Item>>, batch: seq<Item>, budget: nat)
  {
    && Concat(batches) + batch == scanned
    && AllFit(batches, budget) && IsGreedy(batches + [batch], budget)
    && if scanned == [] then batches == [] else Fits(batch, budget)
  }

  lemma Advance(scanned: seq<Item>, batches: seq<seq<Item>>, batch: seq<Item>, item: Item, budget: nat)
    requires Progress(scanned, batches, batch, budget)
    ensures Bytes(batch + [item]) == Bytes(batch) + item.bytes && Bytes([] + [item]) == item.bytes
    ensures if batch != [] && Bytes(batch) + item.bytes > budget
            then Progress(scanned + [item], batches + [batch], [] + [item], budget)
            else Progress(scanned + [item], batches, batch + [item], budget)
  {
    GreedyNext(batches, batch, item, budget);
    ConcatPush(batches, batch);
    BytesPush(batch, item);
    BytesPush([], item);
  }

  lemma ConcatPush(batches: seq<seq<Item>>, batch: seq<Item>)
    ensures Concat(batches + [batch]) == Concat(batches) + batch
  {
    assert (batches + [batch])[..|batches|] == batches;
  }

  lemma BytesPush(batch: seq<Item>, item: Item)
    ensures Bytes(batch + [item]) == Bytes(batch) + item.bytes
  {
    assert (batch + [item])[..|batch|] == batch;
  }

  // -- Optimality ---------------------------------------------------------------------------------

  lemma {:induction false} ConcatFront(batches: seq<seq<Item>>)
    requires batches != []
    ensures Concat(batches) == batches[0] + Concat(batches[1..])
  {
    var n := |batches| - 1;
    if n > 0 {
      ConcatFront(batches[..n]);
      assert batches[..n][1..] == batches[1..][..n - 1];
    } else {
      assert batches[..0] == [] && batches[1..] == [];
    }
  }

  lemma {:induction false} BytesConcat(a: seq<Item>, b: seq<Item>)
    ensures Bytes(a + b) == Bytes(a) + Bytes(b)
  {
    if b == [] {
      assert a + b == a;
    } else {
      assert (a + b)[..|a + b| - 1] == a + b[..|b| - 1];
      BytesConcat(a, b[..|b| - 1]);
    }
  }

  lemma {:induction false} BytesMonotone(items: seq<Item>, n: nat, m: nat)
    requires n <= m <= |items|
    ensures Bytes(items[..n]) <= Bytes(items[..m])
  {
    if n < m {
      BytesMonotone(items, n, m - 1);
      assert items[..m][..m - 1] == items[..m - 1];
    }
  }

  /** A greedy batch of `n` items reaches at least as far as any sendable batch of `m` from the same place. */
  lemma GreedyReaches(items: seq<Item>, n: nat, m: nat, budget: nat)
    requires 0 < n <= |items| && 0 < m <= |items|
    requires n < |items| ==> Bytes(items[..n]) + items[n].bytes > budget
    requires m == 1 || Bytes(items[..m]) <= budget
    ensures m <= n
  {
    if n < |items| {
      assert items[..n + 1][..n] == items[..n];
    }
    if n < m {
      BytesMonotone(items, n + 1, m);
    }
  }

  /** Taking an item into the open batch, or starting a new batch with it when it does not fit, stays greedy. */
  lemma GreedyNext(batches: seq<seq<Item>>, batch: seq<Item>, item: Item, budget: nat)
    requires IsGreedy(batches + [batch], budget)
    ensures batch != [] || batches == [] ==> IsGreedy(batches + [batch + [item]], budget)
    ensures Bytes(batch) + item.bytes > budget ==> IsGreedy(batches + [batch] + [[] + [item]], budget)
  {
    var before, grown, closed := batches + [batch], batches + [batch + [item]], batches + [batch] + [[] + [item]];
    forall k | 0 < k < |grown| && batch != [] ensures TightAt(grown, k, budget) {
      assert TightAt(before, k, budget);
    }
    forall k | 0 < k < |closed| && Bytes(batch) + item.bytes > budget ensures TightAt(closed, k, budget) {
      if k < |before| {
        assert TightAt(before, k, budget);
      }
    }
  }

  /** The greedy split stays ahead of any other: with the first `skip` items of the other side already sent, what is
      left needs no more greedy batches than the other side has. */
  lemma {:induction false} GreedyIsOptimal(mine: seq<seq<Item>>, other: seq<seq<Item>>, budget: nat, skip: nat)
    requires IsGreedy(mine, budget) && skip <= |Concat(other)| && Concat(mine) == Concat(other)[skip..]
    requires AllFit(mine, budget) && AllFit(other, budget)
    ensures |mine| <= |other|
    decreases |other|
  {
    if mine != [] {
      ConcatFront(mine);
      assert other != [];
      ConcatFront(other);
      var b, rest := other[0], Concat(other[1..]);
      if skip >= |b| {
        assert Concat(other)[skip..] == rest[skip - |b|..];
        GreedyIsOptimal(mine, other[1..], budget, skip - |b|);
      } else {
        GreedyTail(mine, budget);
        LeftFits(b, skip, budget);
        var left := b[skip..];
        assert Concat(other)[skip..] == left + rest;
        FirstBatchCovers(mine[0], Concat(mine[1..]), left, rest, budget);
        GreedyIsOptimal(mine[1..], other[1..], budget, |mine[0]| - |left|);
      }
    }
  }

  lemma LeftFits(b: seq<Item>, skip: nat, budget: nat)
    requires skip < |b| && Fits(b, budget)
    ensures |b[skip..]| == 1 || Bytes(b[skip..]) <= budget
  {
    assert b == b[..skip] + b[skip..];
    BytesConcat(b[..skip], b[skip..]);
  }

  lemma GreedyTail(mine: seq<seq<Item>>, budget: nat)
    requires mine != [] && IsGreedy(mine, budget) && AllFit(mine, budget)
    ensures IsGreedy(mine[1..], budget)
    ensures Concat(mine[1..]) != [] ==> Bytes(mine[0]) + Concat(mine[1..])[0].bytes > budget
  {
    forall k | 0 < k < |mine[1..]| ensures TightAt(mine[1..], k, budget) {
      assert TightAt(mine, k + 1, budget);
    }
    if |mine| > 1 {
      ConcatFront(mine[1..]);
      assert TightAt(mine, 1, budget);
    }
  }

  lemma GreedyBeatsAll(items: seq<Item>, batches: seq<seq<Item>>, budget: nat)
    requires IsSplit(items, batches, budget) && IsGreedy(batches, budget)
    ensures forall other :: IsSplit(items, other, budget) ==> |batches| <= |other|
  {
    forall other | IsSplit(items, other, budget) ensures |batches| <= |other| {
      assert Concat(other)[0..] == Concat(other);
      GreedyIsOptimal(batches, other, budget, 0);
    }
  }

  /** The first greedy batch takes at least what is `left` of the other side's, so the others start inside its rest. */
  lemma FirstBatchCovers(first: seq<Item>, tail: seq<Item>, left: seq<Item>, rest: seq<Item>, budget: nat)
    requires first != [] && left != [] && first + tail == left + rest
    requires tail != [] ==> Bytes(first) + tail[0].bytes > budget
    requires |left| == 1 || Bytes(left) <= budget
    ensures |left| <= |first| && |first| - |left| <= |rest| && tail == rest[|first| - |left|..]
  {
    var all, n := first + tail, |first|;
    assert |all| == |left| + |rest|;
    assert all[..n] == first && all[n..] == tail;
    assert all[..|left|] == left && all[|left|..] == rest;
    GreedyReaches(all, n, |left|, budget);
    assert all[n..] == all[|left|..][n - |left|..];
  }

  // -- Framing -------------------------------------------------------------------------------------

  /** What the operator does with the stream: collect items until `end`, and take the cursor from there. */
  function Reassemble(frames: seq<Frame>): (seq<Item>, Option<nat>)
  {
    if frames == [] then ([], None)
    else if frames[0].end then (frames[0].items, Some(frames[0].cursor))
    else
      var (items, cursor) := Reassemble(frames[1..]);
      (frames[0].items + items, cursor)
  }

  /** One page on the wire. Exactly the last frame is marked, it alone carries the cursor, and the operator gets back
      the page and the cursor whatever else follows on the connection. */
  method RespondToSubscribe(items: seq<Item>, cursor: nat, budget: nat) returns (frames: seq<Frame>)
    ensures frames != []
    ensures forall i :: 0 <= i < |frames| ==> (frames[i].end <==> i == |frames| - 1)
    ensures forall i :: 0 <= i < |frames| - 1 ==> frames[i].cursor == 0
    ensures forall i :: 0 <= i < |frames| ==> frames[i].items == [] || Fits(frames[i].items, budget)
    ensures forall more :: Reassemble(frames + more) == (items, Some(cursor))
  {
    var batches := ChunkAlerts(items, budget);
    var last := |batches| - 1;
    frames := [];
    assert batches[..0] == [];
    for i := 0 to |batches|
      invariant |frames| == i
      invariant forall j :: 0 <= j < i ==> frames[j] == Frame(batches[j], if j == last then cursor else 0, j == last)
    {
      var end := i == last;
      frames := frames + [Frame(batches[i], if end then cursor else 0, end)];
    }
    assert Concat(batches) == items by {
      if items == [] {
        assert batches[..0] == [] && Concat([]) == [];
      }
    }
    forall more ensures Reassemble(frames + more) == (items, Some(cursor)) {
      ReassembleFrames(frames, batches, cursor, more);
    }
  }

  lemma {:induction false} ReassembleFrames(frames: seq<Frame>, batches: seq<seq<Item>>, cursor: nat, more: seq<Frame>)
    requires |frames| == |batches| > 0
    requires forall j :: 0 <= j < |frames| ==> frames[j].items == batches[j] && (frames[j].end <==> j == |frames| - 1)
    requires frames[|frames| - 1].cursor == cursor
    ensures Reassemble(frames + more) == (Concat(batches), Some(cursor))
  {
    ConcatFront(batches);
    if |frames| == 1 {
      assert batches[1..] == [] && Concat(batches) == batches[0];
      assert (frames + more)[0] == frames[0];
    } else {
      assert (frames + more)[1..] == frames[1..] + more;
      ReassembleFrames(frames[1..], batches[1..], cursor, more);
    }
  }
}
