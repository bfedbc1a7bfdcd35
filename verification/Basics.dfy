/** Small shared vocabulary: optional values and facts about duplicate-free sequences. */
module Basics {

  datatype Option<+T> = None | Some(value: T)

  function Min(a: int, b: int): int { if a <= b then a else b }

  function Max(a: int, b: int): int { if a >= b then a else b }

  predicate NoDup<T(==)>(s: seq<T>)
  {
    forall i, j :: 0 <= i < j < |s| ==> s[i] != s[j]
  }

  /** The sequence without the element at position `i`. */
  function Remove<T>(s: seq<T>, i: nat): seq<T>
    requires i < |s|
  {
    s[..i] + s[i + 1..]
  }

  lemma RemoveKeeps<T>(s: seq<T>, i: nat, x: T)
    requires i < |s| && x in s
    ensures x in Remove(s, i) || x == s[i]
  {
    var k :| 0 <= k < |s| && s[k] == x;
    if k < i {
      assert Remove(s, i)[k] == x;
    } else if k > i {
      assert Remove(s, i)[k - 1] == x;
    }
  }

  lemma SubsetFits<T>(a: set<T>, b: set<T>)
    requires a <= b
    ensures |a| <= |b|
    ensures |a| == |b| ==> a == b
  {
    assert b == a + (b - a);
  }

  /** A duplicate-free sequence drawn from a set is no longer than the set is large. */
  lemma {:induction false} NoDupFits<T>(s: seq<T>, pool: set<T>)
    requires NoDup(s)
    requires forall x :: x in s ==> x in pool
    ensures |s| <= |pool|
  {
    if |s| > 0 {
      var last := s[|s| - 1];
      var front := s[..|s| - 1];
      assert last in s;
      forall x | x in front ensures x in pool - {last} {
        assert x in s;
      }
      NoDupFits(front, pool - {last});
    }
  }

  lemma NoDupAppend<T>(s: seq<T>, t: seq<T>)
    requires NoDup(s) && NoDup(t)
    requires forall x :: x in t ==> x !in s
    ensures NoDup(s + t)
  {
    forall i, j | 0 <= i < j < |s + t| ensures (s + t)[i] != (s + t)[j] {
      if i < |s| <= j {
        assert (s + t)[j] in t && (s + t)[i] in s;
      }
    }
  }

  /** Nothing counted twice means nothing listed twice. */
  lemma {:induction false} CountsMeanNoDup<T>(s: seq<T>)
    requires forall x :: multiset(s)[x] <= 1
    ensures NoDup(s)
  {
    if s != [] {
      var front, last := s[..|s| - 1], s[|s| - 1];
      assert s == front + [last];
      forall x ensures multiset(front)[x] <= 1 && multiset(front)[last] == 0 {
        assert multiset(s)[x] == multiset(front)[x] + multiset([last])[x];
        assert multiset(s)[last] == multiset(front)[last] + 1;
      }
      CountsMeanNoDup(front);
      assert last !in front;
    }
  }

  lemma {:induction false} NoDupMeansCounts<T>(s: seq<T>, x: T)
    requires NoDup(s)
    ensures multiset(s)[x] <= 1
  {
    if s != [] {
      var front, last := s[..|s| - 1], s[|s| - 1];
      assert s == front + [last];
      NoDupMeansCounts(front, x);
      assert last !in front;
    }
  }
}
