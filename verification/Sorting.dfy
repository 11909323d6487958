/**
 * Sorting by a comparison, as the source uses sort.Slice and sort.Strings. What is
 * proved is independent of the algorithm: where ties are identical, there is only
 * one sorted arrangement.
 */
module Sorting {
  import opened Text

  /** A strict weak order: what sort.Slice asks of a comparison. */
  ghost predicate WeakOrder<T(!new)>(less: (T, T) -> bool) {
    && (forall a, b :: less(a, b) ==> !less(b, a))
    && (forall a, b, c :: !less(a, b) && !less(b, c) ==> !less(a, c))
  }

  predicate Sorted<T>(less: (T, T) -> bool, s: seq<T>) {
    forall i, j | 0 <= i < j < |s| :: !less(s[j], s[i])
  }

  /** Elements that compare as equal are equal. */
  predicate NoTies<T(==)>(less: (T, T) -> bool, s: seq<T>) {
    forall i, j | 0 <= i < |s| && 0 <= j < |s| && s[i] != s[j] :: less(s[i], s[j]) || less(s[j], s[i])
  }

  function Insert<T>(less: (T, T) -> bool, a: T, s: seq<T>): (r: seq<T>)
    ensures multiset(r) == multiset(s) + multiset{a}
  {
    if s == [] then [a]
    else if less(s[0], a) then
      assert s == [s[0]] + s[1..];
      [s[0]] + Insert(less, a, s[1..])
    else [a] + s
  }

  function Sort<T>(less: (T, T) -> bool, s: seq<T>): (r: seq<T>)
    ensures multiset(r) == multiset(s)
    ensures |r| == |s|
  {
    if s == [] then []
    else
      assert s == [s[0]] + s[1..];
      var r := Insert(less, s[0], Sort(less, s[1..]));
      assert |multiset(r)| == |r|;
      r
  }

  lemma {:induction false} InsertSorts<T(!new)>(less: (T, T) -> bool, a: T, s: seq<T>)
    requires WeakOrder(less) && Sorted(less, s)
    ensures Sorted(less, Insert(less, a, s))
  {
    var r := Insert(less, a, s);
    if s != [] {
      if less(s[0], a) {
        InsertSorts(less, a, s[1..]);
        assert s == [s[0]] + s[1..];
        forall j | 0 < j < |r| ensures !less(r[j], s[0]) {
          assert r[j] in multiset(r[1..]);
          assert r[j] == a || r[j] in s[1..];
        }
      } else {
        assert r == [a] + s;
      }
    }
  }

  lemma {:induction false} SortSorts<T(!new)>(less: (T, T) -> bool, s: seq<T>)
    requires WeakOrder(less)
    ensures Sorted(less, Sort(less, s))
  {
    if s != [] {
      SortSorts(less, s[1..]);
      InsertSorts(less, s[0], Sort(less, s[1..]));
    }
  }

  lemma SameFirst<T(!new)>(less: (T, T) -> bool, s: seq<T>, t: seq<T>)
    requires s != [] && t != [] && Sorted(less, s) && Sorted(less, t) && NoTies(less, s) && multiset(s) == multiset(t)
    ensures s[0] == t[0]
  {
    assert t[0] in multiset(s) && s[0] in multiset(t);
    var i :| 0 <= i < |s| && s[i] == t[0];
    var j :| 0 <= j < |t| && t[j] == s[0];
    if i > 0 && j > 0 {
      assert !less(s[i], s[0]) && !less(t[j], t[0]);
    }
  }

  lemma RestOf<T(!new)>(s: seq<T>)
    requires s != []
    ensures multiset(s[1..]) == multiset(s) - multiset{s[0]}
  {
    assert s == [s[0]] + s[1..];
  }

  /** Where the first of some elements stands in another arrangement of them. */
  lemma FindFirst<T(!new)>(s: seq<T>, t: seq<T>) returns (left: seq<T>, right: seq<T>)
    requires s != [] && multiset(s) == multiset(t)
    ensures t == left + [s[0]] + right && multiset(s[1..]) == multiset(left + right)
  {
    assert s[0] in multiset(t);
    var k :| 0 <= k < |t| && t[k] == s[0];
    left, right := t[..k], t[k + 1..];
    assert t == left + [s[0]] + right;
    RestOf(s);
  }

  /** Two sorted arrangements of the same elements without ties are the same. */
  lemma {:induction false} SortedIsUnique<T(!new)>(less: (T, T) -> bool, s: seq<T>, t: seq<T>)
    requires Sorted(less, s) && Sorted(less, t) && NoTies(less, s) && multiset(s) == multiset(t)
    ensures s == t
  {
    assert |multiset(s)| == |s| && |multiset(t)| == |t|;
    if s != [] {
      SameFirst(less, s, t);
      RestOf(s);
      RestOf(t);
      SortedIsUnique(less, s[1..], t[1..]);
      assert s == [s[0]] + s[1..] && t == [t[0]] + t[1..];
    }
  }

  lemma NoTiesOfMultiset<T(!new)>(less: (T, T) -> bool, s: seq<T>, t: seq<T>)
    requires NoTies(less, s) && multiset(s) == multiset(t)
    ensures NoTies(less, t)
  {
    forall i, j | 0 <= i < |t| && 0 <= j < |t| && t[i] != t[j] ensures less(t[i], t[j]) || less(t[j], t[i]) {
      assert t[i] in multiset(s) && t[j] in multiset(s);
      var k :| 0 <= k < |s| && s[k] == t[i];
      var l :| 0 <= l < |s| && s[l] == t[j];
    }
  }

  /** Without ties, sorting gives the same result exactly for the same elements. */
  lemma SortIdentifies<T(!new)>(less: (T, T) -> bool, s: seq<T>, t: seq<T>)
    requires WeakOrder(less) && NoTies(less, s)
    ensures Sort(less, s) == Sort(less, t) <==> multiset(s) == multiset(t)
  {
    if multiset(s) == multiset(t) {
      SortSorts(less, s);
      SortSorts(less, t);
      NoTiesOfMultiset(less, s, Sort(less, s));
      SortedIsUnique(less, Sort(less, s), Sort(less, t));
    } else {
      assert multiset(Sort(less, s)) != multiset(Sort(less, t));
    }
  }

  /** Sorting leaves what is sorted as it is, ties included, as sort.Slice does. */
  lemma {:induction false} SortKeepsSorted<T(!new)>(less: (T, T) -> bool, s: seq<T>)
    requires Sorted(less, s)
    ensures Sort(less, s) == s
  {
    if s != [] {
      SortKeepsSorted(less, s[1..]);
      assert s == [s[0]] + s[1..];
    }
  }

  /** Two tied elements can change places without leaving the order. */
  lemma SwapKeepsSorted<T(!new)>(less: (T, T) -> bool, s: seq<T>, i: nat, j: nat)
    requires WeakOrder(less) && Sorted(less, s) && i < j < |s| && !less(s[i], s[j])
    ensures Sorted(less, s[i := s[j]][j := s[i]])
    ensures multiset(s[i := s[j]][j := s[i]]) == multiset(s)
  {
    var t := s[i := s[j]][j := s[i]];
    forall k, l | 0 <= k < l < |t| ensures !less(t[l], t[k]) {
      assert k <= i ==> !less(s[i], s[k]);
      assert j <= l ==> !less(s[l], s[j]);
      assert i <= k ==> !less(s[k], s[i]);
      assert l <= j ==> !less(s[j], s[l]);
    }
  }

  /** Where two different elements tie, some other arrangement of the same elements sorts differently. */
  lemma TiesShow<T(!new)>(less: (T, T) -> bool, s: seq<T>) returns (t: seq<T>)
    requires WeakOrder(less) && !NoTies(less, s)
    ensures multiset(t) == multiset(s) && Sort(less, t) != Sort(less, s)
  {
    var r := Sort(less, s);
    SortSorts(less, s);
    if NoTies(less, r) {
      NoTiesOfMultiset(less, r, s);
    }
    var i, j :| 0 <= i < j < |r| && r[i] != r[j] && !less(r[i], r[j]);
    t := r[i := r[j]][j := r[i]];
    SwapKeepsSorted(less, r, i, j);
    SortKeepsSorted(less, t);
    assert t[i] != r[i];
  }

  /** Sorting tells exactly the elements, and never their order, if and only if there are no ties. */
  lemma SortIdentifiesIff<T(!new)>(less: (T, T) -> bool, s: seq<T>)
    requires WeakOrder(less)
    ensures (forall t :: Sort(less, s) == Sort(less, t) <==> multiset(s) == multiset(t)) <==> NoTies(less, s)
  {
    if NoTies(less, s) {
      forall t ensures Sort(less, s) == Sort(less, t) <==> multiset(s) == multiset(t) {
        SortIdentifies(less, s, t);
      }
    } else {
      var t := TiesShow(less, s);
    }
  }

  lemma TextLessIsWeakOrder()
    ensures WeakOrder(TextLess)
    ensures forall s, t :: s != t ==> TextLess(s, t) || TextLess(t, s)
  {
    forall s, t ensures (TextLess(s, t) ==> !TextLess(t, s)) && (s != t ==> TextLess(s, t) || TextLess(t, s)) {
      if s == t {
        TextLessIrreflexive(s);
      } else {
        TextLessTotal(s, t);
      }
    }
    forall s, t, u | !TextLess(s, t) && !TextLess(t, u) ensures !TextLess(s, u) {
      if TextLess(s, u) && s != t && t != u {
        TextLessTotal(s, t);
        TextLessTotal(t, u);
        TextLessTransitive(u, t, s);
        TextLessTotal(s, u);
      }
    }
  }
}
