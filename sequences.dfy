/** Generic sequence operations shared by the chunker, the ID mapper and the
    annotator: concatenation of pieces, order-preserving de-duplication
    (pandas `drop_duplicates` / `Series.unique`, both keeping the first
    occurrence) and order-preserving filtering (boolean-mask selection). */
module Sequences {

  /** The pieces of `ss` concatenated in order. */
  function Flatten<T>(ss: seq<seq<T>>): seq<T>
  {
    if |ss| == 0 then [] else ss[0] + Flatten(ss[1..])
  }

  lemma {:induction false} FlattenSnoc<T>(ss: seq<seq<T>>, s: seq<T>)
    ensures Flatten(ss + [s]) == Flatten(ss) + s
  {
    if |ss| == 0 {
      assert ss + [s] == [s];
    } else {
      assert (ss + [s])[1..] == ss[1..] + [s];
      FlattenSnoc(ss[1..], s);
    }
  }

  /** No element occurs twice. */
  ghost predicate NoDup<T>(s: seq<T>)
  {
    forall i, j :: 0 <= i < j < |s| ==> s[i] != s[j]
  }

  /** The position of the first occurrence of `x` in `s`. */
  function FirstIndex<T(==)>(s: seq<T>, x: T): (i: nat)
    requires x in s
    ensures i < |s| && s[i] == x && x !in s[..i]
  {
    if s[0] == x then 0 else 1 + FirstIndex(s[1..], x)
  }

  /** Any position holding `x` with no `x` before it is the first index. */
  lemma FirstIndexUnique<T>(s: seq<T>, x: T, i: nat)
    requires i < |s| && s[i] == x && x !in s[..i]
    ensures FirstIndex(s, x) == i
  {
  }

  /** Appending an element does not move the first occurrence of an element already present. */
  lemma FirstIndexSnoc<T>(s: seq<T>, y: T, x: T)
    requires x in s
    ensures FirstIndex(s + [y], x) == FirstIndex(s, x)
  {
    var i := FirstIndex(s, x);
    assert (s + [y])[..i] == s[..i];
    FirstIndexUnique(s + [y], x, i);
  }

  /** `s` with every element after its first occurrence removed, the kept elements in the order of `s`. */
  function Dedup<T(==)>(s: seq<T>): (r: seq<T>)
    ensures NoDup(r)
    ensures forall i :: 0 <= i < |r| ==> r[i] in s
    ensures forall i :: 0 <= i < |s| ==> s[i] in r
    ensures |r| <= |s|
  {
    if |s| == 0 then []
    else
      var d := Dedup(s[..|s| - 1]);
      if s[|s| - 1] in d then d else d + [s[|s| - 1]]
  }

  /** The kept elements appear in the order of their first occurrences in `s`. */
  lemma {:induction false} DedupOrder<T>(s: seq<T>)
    ensures forall i, j :: 0 <= i < j < |Dedup(s)| ==> FirstIndex(s, Dedup(s)[i]) < FirstIndex(s, Dedup(s)[j])
  {
    if |s| > 0 {
      var p, y := s[..|s| - 1], s[|s| - 1];
      assert s == p + [y];
      var d := Dedup(p);
      DedupOrder(p);
      forall x | x in p
        ensures FirstIndex(s, x) == FirstIndex(p, x) < |p|
      {
        FirstIndexSnoc(p, y, x);
      }
      if y !in d {
        assert y !in p;
        FirstIndexUnique(s, y, |p|);
        var r := Dedup(s);
        assert r == d + [y];
        forall i, j | 0 <= i < j < |r|
          ensures FirstIndex(s, r[i]) < FirstIndex(s, r[j])
        {
          assert r[i] == d[i] && r[i] in p;
          if j < |d| {
            assert r[j] == d[j] && r[j] in p;
          }
        }
      }
    }
  }

  /** `r` lists the elements of `s` once each, ordered by first occurrence in `s`. */
  ghost predicate FirstOccurrences<T>(s: seq<T>, r: seq<T>)
  {
    && NoDup(r)
    && (forall i :: 0 <= i < |r| ==> r[i] in s)
    && (forall i :: 0 <= i < |s| ==> s[i] in r)
    && (forall i, j :: 0 <= i < j < |r| ==> FirstIndex(s, r[i]) < FirstIndex(s, r[j]))
  }

  /** Dropping a last element that is already present keeps the first occurrences. */
  lemma FirstOccurrencesDropRepeat<T>(p: seq<T>, y: T, r: seq<T>)
    requires y in p
    requires FirstOccurrences(p + [y], r)
    ensures FirstOccurrences(p, r)
  {
    var s := p + [y];
    assert forall i :: 0 <= i < |p| ==> p[i] == s[i];
    forall i | 0 <= i < |r|
      ensures r[i] in p && FirstIndex(s, r[i]) == FirstIndex(p, r[i])
    {
      FirstIndexSnoc(p, y, r[i]);
    }
  }

  /** A new last element comes last in the first occurrences. */
  lemma FirstOccurrencesDropNew<T>(p: seq<T>, y: T, r: seq<T>)
    requires y !in p
    requires FirstOccurrences(p + [y], r)
    ensures |r| > 0 && r[|r| - 1] == y
    ensures FirstOccurrences(p, r[..|r| - 1])
  {
    var s := p + [y];
    assert s[|p|] == y && y in r;
    FirstIndexUnique(s, y, |p|);
    var m :| 0 <= m < |r| && r[m] == y;
    forall i | 0 <= i < |r| && i != m
      ensures r[i] in p && FirstIndex(s, r[i]) == FirstIndex(p, r[i]) < |p|
      ensures i < m
    {
      assert r[i] != y && r[i] in s;
      FirstIndexSnoc(p, y, r[i]);
    }
    assert r[|r| - 1] in s;
    assert m == |r| - 1;
    var r' := r[..m];
    assert forall i :: 0 <= i < |r'| ==> r'[i] == r[i];
    forall i | 0 <= i < |p|
      ensures p[i] in r'
    {
      assert p[i] == s[i] && p[i] != y;
    }
  }

  /** De-duplication is the only sequence that lists the elements of `s`
      once each, ordered by first occurrence in `s`. */
  lemma {:induction false} DedupUnique<T>(s: seq<T>, r: seq<T>)
    requires FirstOccurrences(s, r)
    ensures r == Dedup(s)
  {
    if |s| > 0 {
      var p, y := s[..|s| - 1], s[|s| - 1];
      assert s == p + [y];
      if y in p {
        FirstOccurrencesDropRepeat(p, y, r);
        DedupUnique(p, r);
      } else {
        FirstOccurrencesDropNew(p, y, r);
        DedupUnique(p, r[..|r| - 1]);
        assert r == r[..|r| - 1] + [y];
      }
    }
  }

  /** The elements of `s` that satisfy `keep`, in order. */
  function Filter<T>(s: seq<T>, keep: T -> bool): (r: seq<T>)
    ensures |r| <= |s|
    ensures forall i :: 0 <= i < |r| ==> r[i] in s && keep(r[i])
    ensures forall i :: 0 <= i < |s| && keep(s[i]) ==> s[i] in r
  {
    if |s| == 0 then []
    else
      var rest := Filter(s[..|s| - 1], keep);
      if keep(s[|s| - 1]) then rest + [s[|s| - 1]] else rest
  }

  /** `a` is obtained from `b` by deleting elements, without reordering. */
  ghost predicate SubsequenceOf<T>(a: seq<T>, b: seq<T>)
    decreases |b|
  {
    if |a| == 0 then true
    else if |b| == 0 then false
    else if a[|a| - 1] == b[|b| - 1] then SubsequenceOf(a[..|a| - 1], b[..|b| - 1])
    else SubsequenceOf(a, b[..|b| - 1])
  }

  lemma {:induction false} FilterIsSubsequence<T>(s: seq<T>, keep: T -> bool)
    ensures SubsequenceOf(Filter(s, keep), s)
  {
    if |s| > 0 {
      var p := s[..|s| - 1];
      FilterIsSubsequence(p, keep);
      var f := Filter(s, keep);
      if keep(s[|s| - 1]) {
        assert f[..|f| - 1] == Filter(p, keep);
      }
    }
  }
}
