/**
 * Boolean-mask row selection, `df[mask]` and `df.dropna(subset=...)`: the
 * rows that pass a predicate, in their original order, together with the
 * positions (pandas index labels) they came from.
 */
module Selection {

  /** The rows of `s` that satisfy `p`, in order. */
  function Filter<T>(s: seq<T>, p: T -> bool): (r: seq<T>)
    ensures |r| <= |s|
    ensures forall j :: 0 <= j < |r| ==> p(r[j])
    decreases |s|
  {
    if s == [] then []
    else Filter(s[..|s| - 1], p) + if p(s[|s| - 1]) then [s[|s| - 1]] else []
  }

  /** The positions of the rows of `s` that satisfy `p`, in increasing order. */
  function Kept<T>(s: seq<T>, p: T -> bool): (k: seq<nat>)
    ensures forall j :: 0 <= j < |k| ==> k[j] < |s| && p(s[k[j]])
    decreases |s|
  {
    if s == [] then []
    else Kept(s[..|s| - 1], p) + if p(s[|s| - 1]) then [|s| - 1] else []
  }

  /** Selection is by position: the j-th survivor is the row at the j-th kept position. */
  lemma {:induction false} FilterSelectsKept<T>(s: seq<T>, p: T -> bool)
    ensures |Kept(s, p)| == |Filter(s, p)|
    ensures forall j :: 0 <= j < |Kept(s, p)| ==> Filter(s, p)[j] == s[Kept(s, p)[j]]
    decreases |s|
  {
    if s != [] {
      var init, last := s[..|s| - 1], s[|s| - 1];
      FilterSelectsKept(init, p);
      var k, k0, f, f0 := Kept(s, p), Kept(init, p), Filter(s, p), Filter(init, p);
      assert k == k0 + if p(last) then [|s| - 1] else [];
      assert f == f0 + if p(last) then [last] else [];
      forall j | 0 <= j < |k|
        ensures f[j] == s[k[j]]
      {
        if j < |k0| {
          assert f[j] == f0[j] == init[k0[j]];
        }
      }
    }
  }

  /** Kept positions increase strictly, and every row that passes has its position kept. */
  lemma {:induction false} KeptOrderedAndComplete<T>(s: seq<T>, p: T -> bool)
    ensures forall j, l :: 0 <= j < l < |Kept(s, p)| ==> Kept(s, p)[j] < Kept(s, p)[l]
    ensures forall i :: 0 <= i < |s| && p(s[i]) ==> exists j :: 0 <= j < |Kept(s, p)| && Kept(s, p)[j] == i
    decreases |s|
  {
    if s != [] {
      var init, last := s[..|s| - 1], s[|s| - 1];
      KeptOrderedAndComplete(init, p);
      var k, k0 := Kept(s, p), Kept(init, p);
      assert k == k0 + if p(last) then [|s| - 1] else [];
      forall i | 0 <= i < |s| && p(s[i])
        ensures exists j :: 0 <= j < |k| && k[j] == i
      {
        if i == |s| - 1 {
          assert k[|k| - 1] == i;
        } else {
          assert init[i] == s[i];
          var j :| 0 <= j < |k0| && k0[j] == i;
          assert k[j] == i;
        }
      }
    }
  }

  /** Filtering distributes over concatenation. */
  lemma {:induction false} FilterConcat<T>(a: seq<T>, b: seq<T>, p: T -> bool)
    ensures Filter(a + b, p) == Filter(a, p) + Filter(b, p)
    decreases |b|
  {
    if b != [] {
      assert (a + b)[..|a + b| - 1] == a + b[..|b| - 1];
      FilterConcat(a, b[..|b| - 1], p);
    } else {
      assert a + b == a;
    }
  }

  /**
   * Two successive drops keep the same rows as one drop by the conjunction:
   * the order of the checks does not change the survivors.
   */
  lemma {:induction false} FilterFilter<T>(s: seq<T>, p: T -> bool, q: T -> bool, both: T -> bool)
    requires forall x :: both(x) == (p(x) && q(x))
    ensures Filter(Filter(s, p), q) == Filter(s, both)
    decreases |s|
  {
    if s != [] {
      var init, last := s[..|s| - 1], s[|s| - 1];
      FilterFilter(init, p, q, both);
      var tail := if p(last) then [last] else [];
      FilterConcat(Filter(init, p), tail, q);
      if p(last) {
        assert Filter(tail, q) == Filter([], q) + if q(last) then [last] else [];
      }
    }
  }

  /** Kept positions depend only on the mask, so two tables with the same mask keep the same positions. */
  lemma {:induction false} KeptSameMask<T, U>(s: seq<T>, p: T -> bool, t: seq<U>, q: U -> bool)
    requires |s| == |t|
    requires forall i :: 0 <= i < |s| ==> p(s[i]) == q(t[i])
    ensures Kept(s, p) == Kept(t, q)
    decreases |s|
  {
    if s != [] {
      KeptSameMask(s[..|s| - 1], p, t[..|t| - 1], q);
    }
  }

  /**
   * A row property that implies the filter's predicate is seen after the
   * filter exactly when it is seen before it.
   */
  lemma FilterKeepsWitnesses<T>(s: seq<T>, p: T -> bool, q: T -> bool)
    requires forall x :: q(x) ==> p(x)
    ensures (exists j :: 0 <= j < |Filter(s, p)| && q(Filter(s, p)[j])) <==> (exists i :: 0 <= i < |s| && q(s[i]))
  {
    var r, k := Filter(s, p), Kept(s, p);
    FilterSelectsKept(s, p);
    KeptOrderedAndComplete(s, p);
    if i :| 0 <= i < |s| && q(s[i]) {
      var j :| 0 <= j < |k| && k[j] == i;
      assert q(r[j]);
    }
    if j :| 0 <= j < |r| && q(r[j]) {
      assert q(s[k[j]]);
    }
  }
}
