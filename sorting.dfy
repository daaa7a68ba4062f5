/** The stable sort the source gets from Python's `list.sort`/`sorted` and from
    JavaScript's `Array.prototype.sort` (stable since ES2019), specified by an
    ordering `le` ("may come before"). Inserting each element before the elements
    it ties with, working from the back, keeps equal elements in their input order. */
module Sorting {
  import opened Common

  /** `le` is total and transitive: what a sort key or a consistent comparator induces. */
  ghost predicate TotalPreorder<T(!new)>(le: (T, T) -> bool) {
    && (forall x, y :: le(x, y) || le(y, x))
    && (forall x, y, z :: le(x, y) && le(y, z) ==> le(x, z))
  }

  predicate SortedBy<T>(s: seq<T>, le: (T, T) -> bool) {
    forall i, j :: 0 <= i < j < |s| ==> le(s[i], s[j])
  }

  function Insert<T>(x: T, s: seq<T>, le: (T, T) -> bool): (r: seq<T>)
    ensures multiset(r) == multiset(s) + multiset{x}
    ensures |r| == |s| + 1
  {
    if s == [] then [x]
    else if le(x, s[0]) then [x] + s
    else
      assert s == [s[0]] + s[1..];
      [s[0]] + Insert(x, s[1..], le)
  }

  lemma {:induction false} InsertSorted<T(!new)>(x: T, s: seq<T>, le: (T, T) -> bool)
    requires TotalPreorder(le)
    requires SortedBy(s, le)
    ensures SortedBy(Insert(x, s, le), le)
  {
    if s != [] && !le(x, s[0]) {
      var t := Insert(x, s[1..], le);
      InsertSorted(x, s[1..], le);
      assert le(s[0], x);
      forall k | 0 <= k < |t| ensures le(s[0], t[k]) {
        assert t[k] in multiset(t);
        assert t[k] == x || t[k] in multiset(s[1..]);
        if t[k] != x {
          var m :| 0 <= m < |s[1..]| && s[1..][m] == t[k];
          assert s[m + 1] == t[k];
        }
      }
    }
  }

  /** The stable sort of `s` by `le`. */
  function SortBy<T(!new)>(s: seq<T>, le: (T, T) -> bool): (r: seq<T>)
    requires TotalPreorder(le)
    ensures multiset(r) == multiset(s)
    ensures SortedBy(r, le)
  {
    if s == [] then []
    else
      var t := SortBy(s[1..], le);
      InsertSorted(s[0], t, le);
      HeadMultiset(s);
      Insert(s[0], t, le)
  }

  lemma HeadMultiset<T>(s: seq<T>)
    requires s != []
    ensures multiset(s) == multiset{s[0]} + multiset(s[1..])
  {
    assert s == [s[0]] + s[1..];
  }

  /** `a` stands before `b` somewhere in `s`. */
  ghost predicate Before<T>(s: seq<T>, a: T, b: T) {
    exists p, q :: 0 <= p < q < |s| && s[p] == a && s[q] == b
  }

  /** Every two tied elements of `r` stand in the same order in `s`: what a stable
      sort of `s` promises about its result `r`. */
  ghost predicate KeepsTies<T>(s: seq<T>, r: seq<T>, le: (T, T) -> bool) {
    forall i, j :: 0 <= i < j < |r| && le(r[j], r[i]) ==> Before(s, r[i], r[j])
  }

  lemma BeforeAt<T>(s: seq<T>, p: nat, q: nat)
    requires p < q < |s|
    ensures Before(s, s[p], s[q])
  {
  }

  lemma HeadBefore<T>(s: seq<T>, b: T)
    requires s != [] && b in multiset(s[1..])
    ensures Before(s, s[0], b)
  {
    var m :| 0 <= m < |s[1..]| && s[1..][m] == b;
    assert s[m + 1] == b;
    BeforeAt(s, 0, m + 1);
  }

  lemma TailBefore<T>(s: seq<T>, a: T, b: T)
    requires s != [] && Before(s[1..], a, b)
    ensures Before(s, a, b)
  {
    var p, q :| 0 <= p < q < |s[1..]| && s[1..][p] == a && s[1..][q] == b;
    assert s[p + 1] == a && s[q + 1] == b;
    BeforeAt(s, p + 1, q + 1);
  }

  /** One step of `Insert` past an element `x` may not come before. */
  lemma InsertStep<T>(x: T, t: seq<T>, le: (T, T) -> bool)
    requires t != [] && !le(x, t[0])
    ensures Insert(x, t, le)[0] == t[0]
    ensures forall m :: 0 < m <= |t| ==> Insert(x, t, le)[m] == Insert(x, t[1..], le)[m - 1]
  {
    assert Insert(x, t, le) == [t[0]] + Insert(x, t[1..], le);
  }

  /** `Insert` puts `x` first when it may come before the first element. */
  lemma InsertHere<T>(x: T, t: seq<T>, le: (T, T) -> bool)
    requires t == [] || le(x, t[0])
    ensures Insert(x, t, le)[0] == x
    ensures forall m :: 0 < m <= |t| ==> Insert(x, t, le)[m] == t[m - 1]
  {
    assert Insert(x, t, le) == [x] + t;
  }

  /** Where `Insert` puts `x`: after every element it may not come before, and the
      elements of `t` keep their order around it. */
  lemma {:induction false} InsertPosition<T>(x: T, t: seq<T>, le: (T, T) -> bool) returns (k: nat)
    ensures k <= |t| && Insert(x, t, le)[k] == x
    ensures forall m :: 0 <= m < k ==> Insert(x, t, le)[m] == t[m] && !le(x, t[m])
    ensures forall m :: k < m <= |t| ==> Insert(x, t, le)[m] == t[m - 1]
    decreases |t|
  {
    if t != [] && !le(x, t[0]) {
      var k' := InsertPosition(x, t[1..], le);
      k := k' + 1;
      InsertStep(x, t, le);
      forall m | 0 < m < k ensures Insert(x, t, le)[m] == t[m] && !le(x, t[m]) {
        assert t[m] == t[1..][m - 1];
      }
      forall m | k < m <= |t| ensures Insert(x, t, le)[m] == t[m - 1] {
        assert t[m - 1] == t[1..][m - 2];
      }
    } else {
      k := 0;
      InsertHere(x, t, le);
    }
  }

  /** Inserting the head of `s` into a stable sort of its tail gives a stable sort of `s`,
      one tied pair at a time. */
  lemma TieFromTail<T>(s: seq<T>, t: seq<T>, le: (T, T) -> bool, i: nat, j: nat)
    requires s != [] && multiset(t) == multiset(s[1..])
    requires KeepsTies(s[1..], t, le)
    requires i < j < |Insert(s[0], t, le)| && le(Insert(s[0], t, le)[j], Insert(s[0], t, le)[i])
    ensures Before(s, Insert(s[0], t, le)[i], Insert(s[0], t, le)[j])
  {
    var r := Insert(s[0], t, le);
    var k := InsertPosition(s[0], t, le);
    if i == k {
      assert r[j] == t[j - 1] && t[j - 1] in multiset(t);
      HeadBefore(s, r[j]);
    } else if j == k {
      assert false;
    } else {
      var i', j' := if i < k then i else i - 1, if j < k then j else j - 1;
      assert r[i] == t[i'] && r[j] == t[j'] && le(t[j'], t[i']);
      TailBefore(s, r[i], r[j]);
    }
  }

  /** `SortBy` is stable: two tied elements of the result stand in that order in the
      input. */
  lemma {:induction false} SortByStable<T(!new)>(s: seq<T>, le: (T, T) -> bool)
    requires TotalPreorder(le)
    ensures KeepsTies(s, SortBy(s, le), le)
  {
    if s != [] {
      var t := SortBy(s[1..], le);
      var r := SortBy(s, le);
      SortByStable(s[1..], le);
      assert r == Insert(s[0], t, le);
      forall i, j | 0 <= i < j < |r| && le(r[j], r[i])
        ensures Before(s, r[i], r[j])
      {
        TieFromTail(s, t, le, i, j);
      }
    }
  }
}
