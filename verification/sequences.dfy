/** Order-preserving selection and search over sequences: the in-memory
    stand-ins for the ORM's `filter`, `exclude` and `get`. */
module Sequences {
  import opened Results

  /** The elements of `s` that satisfy `p`, in their original order. */
  function Filter<T(!new)>(s: seq<T>, p: T -> bool): (r: seq<T>)
    ensures |r| <= |s|
    ensures forall x :: x in r <==> x in s && p(x)
    ensures multiset(r) <= multiset(s)
    decreases |s|
  {
    if |s| == 0 then []
    else
      assert s == [s[0]] + s[1..];
      if p(s[0]) then [s[0]] + Filter(s[1..], p) else Filter(s[1..], p)
  }

  /** Filtering twice by the same condition is filtering once. */
  lemma {:induction false} FilterIdempotent<T(!new)>(s: seq<T>, p: T -> bool)
    ensures Filter(Filter(s, p), p) == Filter(s, p)
    decreases |s|
  {
    if |s| > 0 {
      FilterIdempotent(s[1..], p);
      if p(s[0]) {
        var t := Filter(s[1..], p);
        assert ([s[0]] + t)[1..] == t;
      }
    }
  }

  /** A condition every element meets keeps the whole sequence. */
  lemma {:induction false} FilterKeepsAll<T(!new)>(s: seq<T>, p: T -> bool)
    requires forall i :: 0 <= i < |s| ==> p(s[i])
    ensures Filter(s, p) == s
    decreases |s|
  {
    if |s| > 0 {
      FilterKeepsAll(s[1..], p);
      assert s == [s[0]] + s[1..];
    }
  }

  /** When exactly the element at `i` fails `p`, filtering removes exactly it. */
  lemma {:induction false} FilterRemovesOne<T(!new)>(s: seq<T>, p: T -> bool, i: nat)
    requires i < |s|
    requires !p(s[i])
    requires forall j :: 0 <= j < |s| && j != i ==> p(s[j])
    ensures Filter(s, p) == s[..i] + s[i + 1..]
    decreases |s|
  {
    var t := s[1..];
    FilterStep(s, p);
    forall j | 0 <= j < |t| && j != i - 1
      ensures p(t[j])
    {
      assert t[j] == s[j + 1];
    }
    if i == 0 {
      FilterKeepsAll(t, p);
    } else {
      FilterRemovesOne(t, p, i - 1);
      SliceAround(s, i);
    }
  }

  /** One step of `Filter`. */
  lemma FilterStep<T(!new)>(s: seq<T>, p: T -> bool)
    requires |s| > 0
    ensures Filter(s, p) == if p(s[0]) then [s[0]] + Filter(s[1..], p) else Filter(s[1..], p)
  {
  }

  lemma SliceAround<T>(s: seq<T>, i: nat)
    requires 0 < i < |s|
    ensures [s[0]] + (s[1..][..i - 1] + s[1..][i..]) == s[..i] + s[i + 1..]
  {
    assert [s[0]] + s[1..][..i - 1] == s[..i];
  }

  /** A relation that holds between any two positions of `s` still holds
      between any two positions of a filtered `s`. */
  lemma {:induction false} FilterPairwise<T(!new)>(s: seq<T>, p: T -> bool, rel: (T, T) -> bool)
    requires forall i, j :: 0 <= i < |s| && 0 <= j < |s| && i != j ==> rel(s[i], s[j])
    ensures forall i, j :: 0 <= i < |Filter(s, p)| && 0 <= j < |Filter(s, p)| && i != j
              ==> rel(Filter(s, p)[i], Filter(s, p)[j])
    decreases |s|
  {
    if |s| > 0 {
      var t := s[1..];
      FilterPairwise(t, p, rel);
      var ft := Filter(t, p);
      if p(s[0]) {
        var r := Filter(s, p);
        assert r == [s[0]] + ft;
        forall i, j | 0 <= i < |r| && 0 <= j < |r| && i != j
          ensures rel(r[i], r[j])
        {
          if i == 0 {
            assert r[j] == ft[j - 1] && ft[j - 1] in t;
            var k :| 0 <= k < |t| && t[k] == r[j];
            assert s[k + 1] == r[j];
          } else if j == 0 {
            assert r[i] == ft[i - 1] && ft[i - 1] in t;
            var k :| 0 <= k < |t| && t[k] == r[i];
            assert s[k + 1] == r[i];
          } else {
            assert r[i] == ft[i - 1] && r[j] == ft[j - 1];
          }
        }
      }
    }
  }

  /** The position of the first element satisfying `p`, if any. */
  function IndexWhere<T>(s: seq<T>, p: T -> bool): (r: Option<nat>)
    ensures r.Some? ==> r.value < |s| && p(s[r.value])
    ensures r.Some? ==> forall j :: 0 <= j < r.value ==> !p(s[j])
    ensures r.None? <==> forall j :: 0 <= j < |s| ==> !p(s[j])
    decreases |s|
  {
    if |s| == 0 then None
    else if p(s[0]) then Some(0)
    else
      match IndexWhere(s[1..], p)
      case None => None
      case Some(k) => Some(k + 1)
  }
}
