/** Leading parts of the sorted listing of a finite set, under any strict order. */
module Listings {
  ghost predicate StrictOrder<T(!new)>(before: (T, T) -> bool) {
    && (forall x :: !before(x, x))
    && (forall x, y, z :: before(x, y) && before(y, z) ==> before(x, z))
  }

  ghost predicate Sorted<T>(before: (T, T) -> bool, os: seq<T>) {
    forall i, j :: 0 <= i < j < |os| ==> before(os[i], os[j])
  }

  function Elements<T>(os: seq<T>): set<T> {
    set x | x in os
  }

  lemma ElementsSplitLast<T>(os: seq<T>)
    requires os != []
    ensures Elements(os) == Elements(os[..|os| - 1]) + {os[|os| - 1]}
  {
    assert os == os[..|os| - 1] + [os[|os| - 1]];
  }

  lemma PrefixSplitsLast<T>(os: seq<T>, n: nat)
    requires n < |os|
    ensures os[..n + 1][..n] == os[..n] && os[..n + 1][n] == os[n]
  {
  }

  lemma JoinedLonger<T>(a: seq<T>, b: seq<T>, n: nat)
    requires n < |b|
    ensures a + b[..n] + [b[n]] == a + b[..n + 1]
  {
    assert b[..n + 1] == b[..n] + [b[n]];
  }

  lemma JoinedEnds<T>(a: seq<T>, b: seq<T>)
    ensures a + b[..0] == a && b[..|b|] == b
  {}

  /** `os` lists the elements of `all` that come first, in order. */
  ghost predicate LeadingPart<T>(before: (T, T) -> bool, all: set<T>, os: seq<T>) {
    && Sorted(before, os)
    && Elements(os) <= all
    && (forall i, x :: 0 <= i < |os| && x in all && x !in os ==> before(os[i], x))
  }

  /** There is only one leading part of each length. */
  lemma {:induction false} LeadingPartUnique<T(!new)>(before: (T, T) -> bool, all: set<T>, a: seq<T>, b: seq<T>)
    requires StrictOrder(before) && LeadingPart(before, all, a) && LeadingPart(before, all, b) && |a| <= |b|
    ensures a == b[..|a|]
  {
    if a != [] {
      var n := |a| - 1;
      var front := a[..n];
      assert a == front + [a[n]];
      LeadingPartPrefix(before, all, a, n);
      LeadingPartUnique(before, all, front, b);
      assert forall i :: 0 <= i < n ==> a[i] == b[i] by {
        assert forall i :: 0 <= i < n ==> front[i] == a[i];
      }
      if a[n] != b[n] {
        NextIsBefore(before, all, a, b, n);
        NextIsBefore(before, all, b, a, n);
      }
    }
  }

  lemma NextIsBefore<T(!new)>(before: (T, T) -> bool, all: set<T>, a: seq<T>, b: seq<T>, n: nat)
    requires StrictOrder(before) && LeadingPart(before, all, a) && LeadingPart(before, all, b)
    requires n < |a| && n < |b| && a[..n] == b[..n] && a[n] != b[n]
    ensures before(a[n], b[n])
  {
    assert b[n] in Elements(b);
    assert forall k :: 0 <= k < n ==> a[k] == b[k] && before(b[k], b[n]) by {
      assert forall k :: 0 <= k < n ==> a[..n][k] == a[k] && b[..n][k] == b[k];
    }
    if b[n] in a {
      var k :| 0 <= k < |a| && a[k] == b[n];
    }
  }

  lemma LeadingPartPrefix<T>(before: (T, T) -> bool, all: set<T>, os: seq<T>, n: nat)
    requires LeadingPart(before, all, os) && n <= |os|
    ensures LeadingPart(before, all, os[..n])
  {
    var front := os[..n];
    assert forall k :: 0 <= k < n ==> os[k] in front by {
      assert forall k :: 0 <= k < n ==> front[k] == os[k];
    }
    forall i, x | 0 <= i < |front| && x in all && x !in front ensures before(front[i], x) {
      if x in os {
        var k :| 0 <= k < |os| && os[k] == x;
        assert n <= k;
      }
    }
  }

  /** Leading parts of what is left extend to leading parts of the whole. */
  lemma LeadingPartsJoin<T>(before: (T, T) -> bool, all: set<T>, a: seq<T>, b: seq<T>)
    requires LeadingPart(before, all, a) && LeadingPart(before, all - Elements(a), b)
    ensures LeadingPart(before, all, a + b)
    ensures Elements(a + b) == Elements(a) + Elements(b)
  {
    assert forall x :: x in a + b <==> x in a || x in b;
    assert Elements(a + b) == Elements(a) + Elements(b);
    forall i, j | 0 <= i < j < |a + b| ensures before((a + b)[i], (a + b)[j]) {
      if i < |a| <= j {
        assert b[j - |a|] in Elements(b);
      }
    }
    forall i, x | 0 <= i < |a + b| && x in all && x !in a + b ensures before((a + b)[i], x) {
    }
  }

  lemma {:induction false} SortedCount<T(!new)>(before: (T, T) -> bool, os: seq<T>)
    requires StrictOrder(before) && Sorted(before, os)
    ensures |Elements(os)| == |os|
  {
    if os != [] {
      var front, last := os[..|os| - 1], os[|os| - 1];
      SortedCount(before, front);
      assert os == front + [last];
      assert Elements(os) == Elements(front) + {last};
      assert last !in front;
    }
  }

  lemma SubsetCount<T>(a: set<T>, b: set<T>)
    requires a <= b
    ensures |a| <= |b|
  {
    assert b == a + (b - a);
  }

  /** No leading part is longer than one that lists everything. */
  lemma LeadingPartFits<T(!new)>(before: (T, T) -> bool, all: set<T>, whole: seq<T>, os: seq<T>)
    requires StrictOrder(before) && LeadingPart(before, all, whole) && LeadingPart(before, all, os)
    requires all <= Elements(whole)
    ensures |os| <= |whole|
  {
    SortedCount(before, whole);
    SortedCount(before, os);
    SubsetCount(Elements(os), Elements(whole));
  }

  /** Behind a first part, a leading part is a leading part of the rest. */
  lemma LeadingPartRest<T(!new)>(before: (T, T) -> bool, all: set<T>, os: seq<T>, n: nat)
    requires StrictOrder(before) && LeadingPart(before, all, os) && n <= |os|
    ensures LeadingPart(before, all - Elements(os[..n]), os[n..])
  {
    var a, b := os[..n], os[n..];
    assert os == a + b;
    forall x | x in Elements(b) ensures x in all - Elements(a) {
      var j :| 0 <= j < |b| && b[j] == x;
      assert os[n + j] == x && x in Elements(os);
      forall i | 0 <= i < n ensures a[i] != x {
        assert before(os[i], os[n + j]);
      }
    }
    forall i, x | 0 <= i < |b| && x in all - Elements(a) && x !in b ensures before(b[i], x) {
      assert x !in os && b[i] == os[n + i];
    }
  }
}
