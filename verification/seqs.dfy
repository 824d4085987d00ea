/**
 Filter-map over sequences: apply a partial conversion to every element,
 keep the results that exist, in order. The log parser is an instance.
 */
module Seqs {

  import opened Wrappers

  /** The defined results of `f` over `xs`, in the order of `xs`. */
  function FilterMap<A, B>(xs: seq<A>, f: A -> Option<B>): (ys: seq<B>)
    ensures |ys| <= |xs|
  {
    if xs == [] then []
    else
      var n := |xs| - 1;
      FilterMap(xs[..n], f) + (match f(xs[n]) case Some(y) => [y] case None => [])
  }

  /** Indices of the elements `f` keeps, in increasing order. */
  function KeptIndices<A, B>(xs: seq<A>, f: A -> Option<B>): (idx: seq<nat>)
    ensures |idx| <= |xs|
    ensures forall k :: 0 <= k < |idx| ==> idx[k] < |xs|
    ensures forall k, l :: 0 <= k < l < |idx| ==> idx[k] < idx[l]
  {
    if xs == [] then []
    else
      var n := |xs| - 1;
      KeptIndices(xs[..n], f) + (if f(xs[n]).Some? then [n] else [])
  }

  /** `ys` is what `f` keeps of `xs` through the indices `idx`: the k-th
      result is the conversion of element `idx[k]`, and an index is kept
      exactly when its element converts. */
  ghost predicate IsFilterMap<A, B>(xs: seq<A>, f: A -> Option<B>, idx: seq<nat>, ys: seq<B>)
  {
    && |idx| == |ys|
    && (forall k :: 0 <= k < |idx| ==> idx[k] < |xs| && f(xs[idx[k]]) == Some(ys[k]))
    && (forall i :: 0 <= i < |xs| ==> (i in idx <==> f(xs[i]).Some?))
  }

  lemma FilterMapLast<A, B>(xs: seq<A>, f: A -> Option<B>)
    requires xs != []
    ensures FilterMap(xs, f) == FilterMap(xs[..|xs| - 1], f)
      + (if f(xs[|xs| - 1]).Some? then [f(xs[|xs| - 1]).value] else [])
  {
  }

  /** FilterMap keeps, in order and once each, exactly the elements that
      convert: together with the strictly increasing `KeptIndices` this says
      nothing is reordered, duplicated or invented, and nothing convertible
      is lost. */
  lemma {:induction false} FilterMapSpec<A, B>(xs: seq<A>, f: A -> Option<B>)
    ensures IsFilterMap(xs, f, KeptIndices(xs, f), FilterMap(xs, f))
  {
    if xs != [] {
      var n := |xs| - 1;
      var front := xs[..n];
      FilterMapSpec(front, f);
      FilterMapLast(xs, f);
      var idx0, ys0 := KeptIndices(front, f), FilterMap(front, f);
      var idx, ys := KeptIndices(xs, f), FilterMap(xs, f);
      var tail := if f(xs[n]).Some? then [n] else [];
      assert idx == idx0 + tail;
      forall k | 0 <= k < |idx|
        ensures idx[k] < |xs| && f(xs[idx[k]]) == Some(ys[k])
      {
        if k < |idx0| {
          assert idx[k] == idx0[k] && ys[k] == ys0[k];
          assert front[idx0[k]] == xs[idx0[k]];
        } else {
          assert idx[k] == n;
        }
      }
      forall i | 0 <= i < |xs|
        ensures i in idx <==> f(xs[i]).Some?
      {
        if i < n {
          assert front[i] == xs[i];
          assert i !in tail;
        } else {
          assert i !in idx0;
        }
      }
    }
  }

  /** FilterMap distributes over concatenation. */
  lemma {:induction false} FilterMapAppend<A, B>(xs: seq<A>, zs: seq<A>, f: A -> Option<B>)
    ensures FilterMap(xs + zs, f) == FilterMap(xs, f) + FilterMap(zs, f)
  {
    if zs == [] {
      assert xs + zs == xs;
    } else {
      var n := |zs| - 1;
      var all := xs + zs;
      FilterMapLast(all, f);
      FilterMapLast(zs, f);
      assert all[..|all| - 1] == xs + zs[..n];
      assert all[|all| - 1] == zs[n];
      FilterMapAppend(xs, zs[..n], f);
    }
  }

  /** When every element converts, FilterMap is plain map: the k-th result
      is the conversion of the k-th element. */
  lemma {:induction false} FilterMapAllDefined<A, B>(xs: seq<A>, ys: seq<B>, f: A -> Option<B>)
    requires |xs| == |ys|
    requires forall k :: 0 <= k < |xs| ==> f(xs[k]) == Some(ys[k])
    ensures FilterMap(xs, f) == ys
  {
    if xs != [] {
      var n := |xs| - 1;
      FilterMapLast(xs, f);
      FilterMapAllDefined(xs[..n], ys[..n], f);
      assert ys[..n] + [ys[n]] == ys;
    }
  }
}
