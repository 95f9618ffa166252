/** Filtering-and-mapping over sequences, the shape of the `forEach ... push` loops in the
    servers and of the `for ... append` loops in the GTFS script. */
module Sequences {
  import opened Wrappers

  /** Keeps, in order, the images of the elements `f` maps to `Some`. Elements are
      consumed from the back so that the result grows by appending, like `push`. */
  function FilterMap<A, B>(f: A -> Option<B>, s: seq<A>): seq<B>
    decreases |s|
  {
    if |s| == 0 then []
    else
      var init := FilterMap(f, s[..|s| - 1]);
      match f(s[|s| - 1])
      case Some(b) => init + [b]
      case None => init
  }

  /** The positions of `s` that `f` keeps, in increasing order. */
  function KeptIndices<A, B>(f: A -> Option<B>, s: seq<A>): seq<nat>
    decreases |s|
  {
    if |s| == 0 then []
    else
      var init := KeptIndices(f, s[..|s| - 1]);
      if f(s[|s| - 1]).Some? then init + [|s| - 1] else init
  }

  /** `out` consists of exactly the images of the kept elements of `s`, taken at the
      strictly increasing positions `idx`, one per kept element. */
  ghost predicate Selects<A, B>(f: A -> Option<B>, s: seq<A>, out: seq<B>, idx: seq<nat>) {
    && |idx| == |out|
    && (forall k :: 0 <= k < |idx| ==> idx[k] < |s| && f(s[idx[k]]) == Some(out[k]))
    && (forall k, l :: 0 <= k < l < |idx| ==> idx[k] < idx[l])
    && (forall p :: 0 <= p < |s| && f(s[p]).Some? ==> p in idx)
  }

  /** The output of `FilterMap` holds one entry per kept element, in input order, and
      nothing else. */
  lemma {:induction false} FilterMapSelects<A, B>(f: A -> Option<B>, s: seq<A>)
    ensures Selects(f, s, FilterMap(f, s), KeptIndices(f, s))
    decreases |s|
  {
    if |s| > 0 {
      var n := |s| - 1;
      var init := s[..n];
      FilterMapSelects(f, init);
      var out0, idx0 := FilterMap(f, init), KeptIndices(f, init);
      forall k | 0 <= k < |idx0|
        ensures idx0[k] < n && s[idx0[k]] == init[idx0[k]]
      {
      }
      if f(s[n]).Some? {
        var out, idx := out0 + [f(s[n]).value], idx0 + [n];
        assert out == FilterMap(f, s) && idx == KeptIndices(f, s);
        forall k | 0 <= k < |idx|
          ensures idx[k] < |s| && f(s[idx[k]]) == Some(out[k])
        {
          if k < |idx0| {
            assert idx[k] == idx0[k] && out[k] == out0[k];
          }
        }
        forall p | 0 <= p < |s| && f(s[p]).Some?
          ensures p in idx
        {
          if p < n {
            assert s[p] == init[p];
            assert p in idx0;
          } else {
            assert idx[|idx0|] == p;
          }
        }
      } else {
        forall p | 0 <= p < |s| && f(s[p]).Some?
          ensures p in idx0
        {
          assert p != n;
          assert s[p] == init[p];
        }
      }
    }
  }

  /** Filtering never lengthens a sequence. */
  lemma {:induction false} FilterMapLength<A, B>(f: A -> Option<B>, s: seq<A>)
    ensures |FilterMap(f, s)| <= |s|
    ensures |FilterMap(f, s)| == |s| <==> forall i :: 0 <= i < |s| ==> f(s[i]).Some?
    decreases |s|
  {
    if |s| > 0 {
      var n := |s| - 1;
      FilterMapLength(f, s[..n]);
      if forall i :: 0 <= i < n ==> f(s[..n][i]).Some? {
        assert forall i :: 0 <= i < n ==> f(s[i]).Some? by {
          forall i | 0 <= i < n ensures f(s[i]).Some? {
            assert s[i] == s[..n][i];
          }
        }
      } else {
        var i :| 0 <= i < n && f(s[..n][i]).None?;
        assert f(s[i]).None?;
      }
    }
  }

  /** Processing a concatenation is processing each part in turn. */
  lemma {:induction false} FilterMapAppend<A, B>(f: A -> Option<B>, a: seq<A>, b: seq<A>)
    ensures FilterMap(f, a + b) == FilterMap(f, a) + FilterMap(f, b)
    decreases |b|
  {
    if |b| > 0 {
      var n := |b| - 1;
      assert (a + b)[..|a + b| - 1] == a + b[..n];
      assert (a + b)[|a + b| - 1] == b[n];
      FilterMapAppend(f, a, b[..n]);
    } else {
      assert a + b == a;
    }
  }
}
