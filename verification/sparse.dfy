/** A JavaScript array used with non-contiguous integer indices, as the garden
    assembler uses `plotsDB`: index `k` holds `Some(v)` once `v` was assigned
    there and `None` (a hole) otherwise; `|a|` is the array's `length`. */
module Sparse {
  import opened Wrappers
  import opened Ordering

  /** `a[k]`: a hole and an index at or past `length` both read as `undefined`. */
  function Get<T>(a: seq<Option<T>>, k: nat): Option<T>
  {
    if k < |a| then a[k] else None
  }

  function Holes<T>(n: nat): seq<Option<T>>
  {
    seq(n, _ => None)
  }

  /** `a[k] = v`: assigning past the end grows `length` to `k + 1` and leaves
      holes in between; no other index changes. */
  function Store<T>(a: seq<Option<T>>, k: nat, v: T): (r: seq<Option<T>>)
    ensures |r| == if k < |a| then |a| else k + 1
    ensures Get(r, k) == Some(v)
    ensures forall j: nat :: j != k ==> Get(r, j) == Get(a, j)
  {
    if k < |a| then a[k := Some(v)] else a + Holes(k - |a|) + [Some(v)]
  }

  /** `a.filter(item => item)` when every stored value is truthy: the stored
      values in index order, holes dropped. */
  function Compact<T>(a: seq<Option<T>>): (r: seq<T>)
    ensures |r| <= |a|
    ensures forall i :: 0 <= i < |r| ==> Some(r[i]) in a
    ensures forall k :: 0 <= k < |a| && a[k].Some? ==> a[k].value in r
  {
    if |a| == 0 then []
    else
      var last := a[|a| - 1];
      assert a == a[..|a| - 1] + [last];
      Compact(a[..|a| - 1]) + (if last.Some? then [last.value] else [])
  }

  /** The indices that hold a value, ascending. */
  function Indices<T>(a: seq<Option<T>>): (r: seq<nat>)
    ensures forall i :: 0 <= i < |r| ==> r[i] < |a|
    ensures StrictlyIncreasing(r)
    ensures forall k: nat :: k in r <==> Get(a, k).Some?
  {
    if |a| == 0 then []
    else
      var n := |a| - 1;
      var rest := Indices(a[..n]);
      assert forall k: nat :: k < n ==> Get(a, k) == Get(a[..n], k);
      rest + (if a[n].Some? then [n] else [])
  }

  /** Entry `i` of `Compact(a)` is the value stored at index `Indices(a)[i]`:
      the filter keeps exactly the stored values, in index order. */
  lemma {:induction false} CompactAtIndices<T>(a: seq<Option<T>>)
    ensures |Indices(a)| == |Compact(a)|
    ensures forall i :: 0 <= i < |Indices(a)| ==> a[Indices(a)[i]] == Some(Compact(a)[i])
  {
    if |a| > 0 {
      var n := |a| - 1;
      CompactAtIndices(a[..n]);
      var ids, vs := Indices(a[..n]), Compact(a[..n]);
      forall i | 0 <= i < |Indices(a)|
        ensures a[Indices(a)[i]] == Some(Compact(a)[i])
      {
        if i < |ids| {
          assert Indices(a)[i] == ids[i] && Compact(a)[i] == vs[i];
        }
      }
    }
  }

  /** Contribution of one slot to a weighted total; a hole weighs nothing. */
  function Weight<T>(o: Option<T>, w: T -> nat): nat
  {
    if o.Some? then w(o.value) else 0
  }

  /** Sum of the weights of the stored values. */
  function Total<T>(a: seq<Option<T>>, w: T -> nat): nat
  {
    if |a| == 0 then 0 else Total(a[..|a| - 1], w) + Weight(a[|a| - 1], w)
  }

  /** Sum of the weights of a plain sequence. */
  function Sum<T>(s: seq<T>, w: T -> nat): nat
  {
    if |s| == 0 then 0 else Sum(s[..|s| - 1], w) + w(s[|s| - 1])
  }

  lemma {:induction false} SumConcat<T>(x: seq<T>, y: seq<T>, w: T -> nat)
    ensures Sum(x + y, w) == Sum(x, w) + Sum(y, w)
    decreases |y|
  {
    if |y| > 0 {
      var y' := y[..|y| - 1];
      assert (x + y)[..|x + y| - 1] == x + y';
      SumConcat(x, y', w);
    } else {
      assert x + y == x;
    }
  }

  /** Compacting keeps the total weight. */
  lemma {:induction false} CompactSum<T>(a: seq<Option<T>>, w: T -> nat)
    ensures Sum(Compact(a), w) == Total(a, w)
  {
    if |a| > 0 {
      var last := a[|a| - 1];
      CompactSum(a[..|a| - 1], w);
      var tail := if last.Some? then [last.value] else [];
      SumConcat(Compact(a[..|a| - 1]), tail, w);
      if last.Some? {
        assert tail[..0] == [];
      }
    }
  }

  /** Holes appended at the end weigh nothing. */
  lemma {:induction false} HolesTotal<T>(a: seq<Option<T>>, n: nat, w: T -> nat)
    ensures Total(a + Holes(n), w) == Total(a, w)
  {
    if n > 0 {
      assert (a + Holes(n))[..|a| + n - 1] == a + Holes(n - 1);
      HolesTotal(a, n - 1, w);
    } else {
      assert a + Holes(n) == a;
    }
  }

  /** Overwriting one slot in range changes the total by the difference of
      the two slots' weights. */
  lemma {:induction false} UpdateTotal<T>(a: seq<Option<T>>, k: nat, o: Option<T>, w: T -> nat)
    requires k < |a|
    ensures Total(a[k := o], w) + Weight(a[k], w) == Total(a, w) + Weight(o, w)
  {
    var n := |a| - 1;
    if k == n {
      assert a[k := o][..n] == a[..n];
    } else {
      assert a[k := o][..n] == a[..n][k := o];
      UpdateTotal(a[..n], k, o, w);
    }
  }

  /** Storing `v` at `k` replaces whatever `k` held by `v` in the total. */
  lemma StoreTotal<T>(a: seq<Option<T>>, k: nat, v: T, w: T -> nat)
    ensures Total(Store(a, k, v), w) + Weight(Get(a, k), w) == Total(a, w) + w(v)
  {
    if k < |a| {
      UpdateTotal(a, k, Some(v), w);
    } else {
      var grown := a + Holes(k - |a|);
      assert (grown + [Some(v)])[..|grown|] == grown;
      HolesTotal(a, k - |a|, w);
    }
  }
}
