/** Orders the policies rank by, and Go's sort.Slice. */
module Ordering {

  /** Go compares strings lexicographically. */
  predicate StringLess(a: string, b: string) {
    if b == [] then false
    else if a == [] then true
    else a[0] < b[0] || (a[0] == b[0] && StringLess(a[1..], b[1..]))
  }

  /** The shorter of two where one starts the other; else the one with the smaller first differing character. */
  lemma {:induction false} StringLessMeans(a: string, b: string)
    ensures StringLess(a, b) <==>
            (a <= b && a != b) || exists k :: 0 <= k < |a| && k < |b| && a[..k] == b[..k] && a[k] < b[k]
    decreases |a|
  {
    if a != [] && b != [] {
      var x, y := a[1..], b[1..];
      StringLessMeans(x, y);
      if a[0] == b[0] {
        assert a <= b <==> x <= y;
        assert a == b <==> x == y by {
          assert a == [a[0]] + x && b == [b[0]] + y;
        }
        forall k | 0 <= k < |x| && k < |y|
          ensures a[..k + 1] == b[..k + 1] <==> x[..k] == y[..k]
        {
          assert a[..k + 1] == [a[0]] + x[..k] && b[..k + 1] == [b[0]] + y[..k];
          assert x[..k] == a[..k + 1][1..] && y[..k] == b[..k + 1][1..];
        }
        if k :| 0 <= k < |x| && k < |y| && x[..k] == y[..k] && x[k] < y[k] {
          assert a[..k + 1] == b[..k + 1] && a[k + 1] < b[k + 1];
        }
        if k :| 0 <= k < |a| && k < |b| && a[..k] == b[..k] && a[k] < b[k] {
          assert k > 0 && x[k - 1] < y[k - 1] && a[..k - 1 + 1] == b[..k - 1 + 1];
        }
      } else {
        if a[0] < b[0] {
          assert a[..0] == b[..0];
        }
        forall k | 0 < k < |a| && k < |b|
          ensures a[..k] != b[..k]
        {
          assert a[..k][0] != b[..k][0];
        }
      }
    }
  }

  lemma {:induction false} StringLessIrreflexive(a: string)
    ensures !StringLess(a, a)
    decreases |a|
  {
    if a != [] {
      StringLessIrreflexive(a[1..]);
    }
  }

  lemma {:induction false} StringLessTotal(a: string, b: string)
    ensures a == b || StringLess(a, b) || StringLess(b, a)
    ensures !(StringLess(a, b) && StringLess(b, a))
    decreases |a|
  {
    if a != [] && b != [] {
      StringLessTotal(a[1..], b[1..]);
      assert a == [a[0]] + a[1..] && b == [b[0]] + b[1..];
    }
  }

  lemma {:induction false} StringLessTransitive(a: string, b: string, c: string)
    requires StringLess(a, b) && StringLess(b, c)
    ensures StringLess(a, c)
    decreases |a|
  {
    if a != [] && a[0] == b[0] == c[0] {
      StringLessTransitive(a[1..], b[1..], c[1..]);
    }
  }

  /** A strict weak order: what sort.Slice asks of its `less`, and what "first best" scans rely on. */
  ghost predicate StrictWeak<T(!new)>(less: (T, T) -> bool) {
    && (forall x :: !less(x, x))
    && (forall x, y, z :: less(x, y) && less(y, z) ==> less(x, z))
    && (forall x, y, z :: less(x, z) ==> less(x, y) || less(y, z))
  }

  ghost predicate SortedBy<T>(less: (T, T) -> bool, s: seq<T>) {
    forall i, j :: 0 <= i < j < |s| ==> !less(s[j], s[i])
  }

  /** The least element, the first one among equals: what a scan that replaces its best only by a
      strictly better one returns. */
  ghost predicate FirstBest<T>(better: (T, T) -> bool, s: seq<T>, b: int) {
    && 0 <= b < |s|
    && (forall j :: 0 <= j < |s| ==> !better(s[j], s[b]))
    && (forall j :: 0 <= j < b ==> better(s[b], s[j]))
  }

  lemma Asymmetric<T(!new)>(less: (T, T) -> bool, x: T, y: T)
    requires StrictWeak(less) && less(x, y)
    ensures !less(y, x)
  {
    assert less(y, x) ==> less(x, x);
  }

  lemma Between<T(!new)>(less: (T, T) -> bool, x: T, y: T, z: T)
    requires StrictWeak(less)
    ensures less(x, z) ==> less(x, y) || less(y, z)
  {
  }

  /** One more element looked at. */
  lemma FirstBestNext<T(!new)>(better: (T, T) -> bool, s: seq<T>, b: int, x: T)
    requires StrictWeak(better) && FirstBest(better, s, b)
    ensures FirstBest(better, s + [x], if better(x, s[b]) then |s| else b)
  {
    var t := s + [x];
    if better(x, s[b]) {
      forall j | 0 <= j < |s|
        ensures better(t[|s|], t[j]) && !better(t[j], t[|s|])
      {
        Between(better, x, s[j], s[b]);
        Asymmetric(better, x, s[j]);
      }
    }
  }

  /** Where to insert `x`: after everything it is not strictly less than. */
  method Position<T>(s: seq<T>, x: T, less: (T, T) -> bool) returns (k: nat)
    ensures k <= |s| && (k > 0 ==> !less(x, s[k - 1]))
    ensures forall j :: k <= j < |s| ==> less(x, s[j])
  {
    k := |s|;
    while k > 0 && less(x, s[k - 1])
      invariant 0 <= k <= |s|
      invariant forall j :: k <= j < |s| ==> less(x, s[j])
    {
      k := k - 1;
    }
  }

  method SortSlice<T(!new)>(s: seq<T>, less: (T, T) -> bool) returns (out: seq<T>)
    requires StrictWeak(less)
    ensures SortedBy(less, out) && multiset(out) == multiset(s)
  {
    out := [];
    var i := 0;
    while i < |s|
      invariant 0 <= i <= |s|
      invariant SortedBy(less, out) && multiset(out) == multiset(s[..i])
    {
      var k := Position(out, s[i], less);
      Inserted(less, out, k, s[i]);
      InsertedMembers(out, k, s[i]);
      assert s[..i + 1] == s[..i] + [s[i]];
      out := out[..k] + [s[i]] + out[k..];
      i := i + 1;
    }
    assert s[..i] == s;
  }

  lemma Inserted<T(!new)>(less: (T, T) -> bool, s: seq<T>, k: nat, x: T)
    requires StrictWeak(less) && SortedBy(less, s) && k <= |s|
    requires forall j :: k <= j < |s| ==> less(x, s[j])
    requires k > 0 ==> !less(x, s[k - 1])
    ensures SortedBy(less, s[..k] + [x] + s[k..])
  {
    var t := s[..k] + [x] + s[k..];
    forall i, j | 0 <= i < j < |t|
      ensures !less(t[j], t[i])
    {
      if j < k {
      } else if j == k {
        if i < k - 1 {
          Between(less, x, s[k - 1], s[i]);
        }
      } else if i == k {
        Asymmetric(less, x, s[j - 1]);
      } else {
        assert t[j] == s[j - 1] && t[i] == s[if i < k then i else i - 1];
      }
    }
  }

  lemma InsertedMembers<T>(s: seq<T>, k: nat, x: T)
    requires k <= |s|
    ensures multiset(s[..k] + [x] + s[k..]) == multiset(s) + multiset{x}
  {
    assert s == s[..k] + s[k..];
  }

  lemma SameMembers<T>(s: seq<T>, t: seq<T>)
    requires multiset(s) == multiset(t)
    ensures forall v :: v in s <==> v in t
  {
    forall v
      ensures v in s <==> v in t
    {
      assert (v in s <==> v in multiset(s)) && (v in t <==> v in multiset(t));
    }
  }

  /** The head of a sorted permutation is a least element of the original. */
  lemma HeadIsLeast<T>(less: (T, T) -> bool, s: seq<T>, out: seq<T>)
    requires SortedBy(less, out) && multiset(out) == multiset(s) && out != []
    ensures out[0] in s && forall x :: x in s ==> x == out[0] || !less(x, out[0])
  {
    assert out[0] in multiset(s);
    forall x | x in s
      ensures x == out[0] || !less(x, out[0])
    {
      assert x in multiset(out);
    }
  }
}
