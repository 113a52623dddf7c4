/**
 * The index sort that the jet orientation relies on (numpy's `argsort`).
 * Keys are ordered ascending; equal keys are assumed to keep their original
 * index order, as a stable sort would.
 */
module ArgSort {

  /** Index `i` sorts strictly before index `j`: smaller key, or equal key and smaller index. */
  predicate Before(d: seq<real>, i: nat, j: nat)
    requires i < |d| && j < |d|
  {
    d[i] < d[j] || (d[i] == d[j] && i < j)
  }

  predicate IndicesOf(d: seq<real>, s: seq<nat>)
  {
    forall k :: 0 <= k < |s| ==> s[k] < |d|
  }

  /** `s` lists indices of `d` in strictly increasing `Before` order (so without repeats). */
  predicate Ordered(d: seq<real>, s: seq<nat>)
    requires IndicesOf(d, s)
  {
    forall a, b :: 0 <= a < b < |s| ==> Before(d, s[a], s[b])
  }

  /** Inserts index `i` into an ordered index list at its place. */
  function Insert(d: seq<real>, i: nat, s: seq<nat>): (r: seq<nat>)
    requires i < |d| && IndicesOf(d, s) && Ordered(d, s) && i !in s
    ensures |r| == |s| + 1 && IndicesOf(d, r) && Ordered(d, r)
    ensures forall j :: j in r <==> j == i || j in s
  {
    if s == [] then [i]
    else if Before(d, i, s[0]) then [i] + s
    else
      var t := Insert(d, i, s[1..]);
      assert forall b :: 0 <= b < |t| ==> Before(d, s[0], t[b]) by {
        forall b | 0 <= b < |t| ensures Before(d, s[0], t[b]) {
          assert t[b] in t;
          if t[b] != i {
            var q :| 0 <= q < |s[1..]| && s[1..][q] == t[b];
            assert s[q + 1] == t[b];
          }
        }
      }
      [s[0]] + t
  }

  /** The indices `0 .. k-1` of `d`, sorted. */
  function ArgsortPrefix(d: seq<real>, k: nat): (r: seq<nat>)
    requires k <= |d|
    ensures |r| == k && IndicesOf(d, r) && Ordered(d, r)
    ensures forall j :: j in r <==> 0 <= j < k
  {
    if k == 0 then [] else Insert(d, k - 1, ArgsortPrefix(d, k - 1))
  }

  /** numpy's `argsort`: a permutation of the indices of `d` that lists them by ascending key. */
  function Argsort(d: seq<real>): (r: seq<nat>)
    ensures |r| == |d| && IndicesOf(d, r) && Ordered(d, r)
    ensures forall j :: j in r <==> 0 <= j < |d|
  {
    ArgsortPrefix(d, |d|)
  }

  /**
   * What the first two entries of an argsort mean: the first is a smallest key
   * (lowest index among equals), the second is a smallest key among the rest.
   */
  lemma ArgsortFirstTwo(d: seq<real>)
    requires |d| >= 2
    ensures var r := Argsort(d);
      r[0] != r[1] &&
      (forall i :: 0 <= i < |d| ==> d[r[0]] <= d[i] && (d[i] == d[r[0]] ==> r[0] <= i)) &&
      (forall i :: 0 <= i < |d| && i != r[0] ==> d[r[1]] <= d[i] && (d[i] == d[r[1]] ==> r[1] <= i))
  {
    var r := Argsort(d);
    forall i | 0 <= i < |d|
      ensures d[r[0]] <= d[i] && (d[i] == d[r[0]] ==> r[0] <= i)
      ensures i != r[0] ==> d[r[1]] <= d[i] && (d[i] == d[r[1]] ==> r[1] <= i)
    {
      assert i in r;
      var p :| 0 <= p < |r| && r[p] == i;
      if p > 0 { assert Before(d, r[0], r[p]); }
      if p > 1 { assert Before(d, r[1], r[p]); }
    }
  }
}
