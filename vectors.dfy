/** The small vector operations the agent and the trainer take from numpy and torch:
    0/1 flags, one-hot encoding, arg-max and max. */
module Vectors {

  /** A boolean as the 0/1 integer that `np.array(..., dtype=int)` stores. */
  function Flag(b: bool): (n: int)
    ensures n == 0 || n == 1
    ensures n == 1 <==> b
  {
    if b then 1 else 0
  }

  /** An integer vector read as a vector of reals (`torch.tensor(v, dtype=float)`). */
  function AsReals(v: seq<int>): (r: seq<real>)
    ensures |r| == |v|
    ensures forall i | 0 <= i < |v| :: r[i] == v[i] as real
  {
    seq(|v|, i requires 0 <= i < |v| => v[i] as real)
  }

  /** Index of the first maximal entry, as `torch.argmax` returns it. */
  function ArgMax(s: seq<real>): (k: nat)
    requires |s| > 0
    ensures k < |s|
    ensures forall j | 0 <= j < |s| :: s[j] <= s[k]
    ensures forall j | 0 <= j < k :: s[j] < s[k]
  {
    if |s| == 1 then 0
    else
      var k := ArgMax(s[..|s| - 1]);
      if s[k] < s[|s| - 1] then |s| - 1 else k
  }

  /** The largest entry (`torch.max`). */
  function Max(s: seq<real>): (m: real)
    requires |s| > 0
    ensures m in s
    ensures forall j | 0 <= j < |s| :: s[j] <= m
  {
    s[ArgMax(s)]
  }

  /** The length-`n` vector that is 1 at `k` and 0 elsewhere. */
  function OneHot(n: nat, k: nat): (v: seq<int>)
    requires k < n
    ensures |v| == n
    ensures forall i | 0 <= i < n :: v[i] == 0 || v[i] == 1
    ensures forall i | 0 <= i < n :: v[i] == 1 <==> i == k
  {
    seq(n, i requires 0 <= i < n => if i == k then 1 else 0)
  }

  /** Arg-max recovers the hot index of a one-hot vector. */
  lemma OneHotArgMax(n: nat, k: nat)
    requires k < n
    ensures ArgMax(AsReals(OneHot(n, k))) == k
  {
    var s := AsReals(OneHot(n, k));
    var m := ArgMax(s);
    assert s[k] == 1.0;
    assert s[m] >= s[k];
    assert m == k;
  }
}
