/** The replay memory: a deque with a maximum length, and the random batch
    drawn from it (`deque(maxlen=...)`, `random.sample`). */
module Replay {

  /** One recorded step: observation, one-hot move, reward, next observation, end of game. */
  datatype Transition = Transition(state: seq<int>, action: seq<int>, reward: real, nextState: seq<int>, gameOver: bool)

  /** Appending to a deque bounded by `cap`: once full, the oldest entry is dropped. */
  function Append<T>(m: seq<T>, t: T, cap: nat): (r: seq<T>)
    requires 0 < cap && |m| <= cap
    ensures |r| == if |m| < cap then |m| + 1 else cap
    ensures r[|r| - 1] == t
    // what remains is the newest part of the old contents followed by `t`, in order
    ensures |m| + 1 - |r| <= 1 && r == (m + [t])[|m| + 1 - |r|..]
  {
    if |m| < cap then m + [t] else m[1..] + [t]
  }

  /** Appending the items of `ts` one after another. */
  function AppendAll<T>(m: seq<T>, ts: seq<T>, cap: nat): (r: seq<T>)
    requires 0 < cap && |m| <= cap
    ensures |r| <= cap
    decreases |ts|
  {
    if ts == [] then m else AppendAll(Append(m, ts[0], cap), ts[1..], cap)
  }

  /** The newest `cap` items of a history, in their original order. */
  function Newest<T>(s: seq<T>, cap: nat): (r: seq<T>)
    ensures |r| == if |s| <= cap then |s| else cap
  {
    if |s| <= cap then s else s[|s| - cap..]
  }

  /** Keeping the newest `cap` items of a suffix that is at least that long
      is the same as keeping them of the whole sequence. */
  lemma NewestOfSuffix<T>(s: seq<T>, d: nat, rest: seq<T>, cap: nat)
    requires d <= |s| && (d == 0 || |s| - d >= cap)
    ensures Newest(s[d..] + rest, cap) == Newest(s + rest, cap)
  {
  }

  /** A bounded deque holds exactly the newest `cap` items ever appended. */
  lemma {:induction false} AppendAllKeepsNewest<T>(m: seq<T>, ts: seq<T>, cap: nat)
    requires 0 < cap && |m| <= cap
    ensures AppendAll(m, ts, cap) == Newest(m + ts, cap)
    decreases |ts|
  {
    if ts == [] {
      assert m + ts == m;
    } else {
      var t, rest := ts[0], ts[1..];
      var m' := Append(m, t, cap);
      var d := |m| + 1 - |m'|;
      assert m' == (m + [t])[d..];
      calc {
        AppendAll(m, ts, cap);
        AppendAll(m', rest, cap);
        { AppendAllKeepsNewest(m', rest, cap); }
        Newest(m' + rest, cap);
        { NewestOfSuffix(m + [t], d, rest, cap); }
        Newest((m + [t]) + rest, cap);
        { assert (m + [t]) + rest == m + ts; }
        Newest(m + ts, cap);
      }
    }
  }

  /** Filling an empty deque with `cap + 1` items loses exactly the first one. */
  lemma OverflowDropsOldest<T>(ts: seq<T>, cap: nat)
    requires 0 < cap && |ts| == cap + 1
    ensures AppendAll([], ts, cap) == ts[1..]
  {
    AppendAllKeepsNewest([], ts, cap);
    assert [] + ts == ts;
  }

  /** `ps` is a draw of `k` distinct positions below `n` (what `random.sample` picks). */
  predicate IsSample(ps: seq<nat>, n: nat, k: nat)
  {
    |ps| == k && InRange(ps, n) && Distinct(ps)
  }

  predicate InRange(ps: seq<nat>, n: nat)
  {
    forall i | 0 <= i < |ps| :: ps[i] < n
  }

  predicate Distinct(ps: seq<nat>)
  {
    forall i, j | 0 <= i < j < |ps| :: ps[i] != ps[j]
  }

  /** The entries of `s` at positions `ps`, in the order drawn. */
  function Pick<T>(s: seq<T>, ps: seq<nat>): (r: seq<T>)
    requires InRange(ps, |s|)
    ensures |r| == |ps|
    ensures forall i | 0 <= i < |ps| :: r[i] == s[ps[i]]
  {
    seq(|ps|, i requires 0 <= i < |ps| => s[ps[i]])
  }

  lemma PickConcat<T>(s: seq<T>, a: seq<nat>, b: seq<nat>)
    requires InRange(a, |s|) && InRange(b, |s|)
    ensures InRange(a + b, |s|) && Pick(s, a + b) == Pick(s, a) + Pick(s, b)
  {
  }

  lemma PickPrefix<T>(s: seq<T>, ps: seq<nat>, n: nat)
    requires n <= |s| && InRange(ps, n)
    ensures Pick(s, ps) == Pick(s[..n], ps)
  {
  }

  /** Removing the entry at `j` from a draw of distinct positions below `n + 1`
      whose entry at `j` is `n` leaves a draw of distinct positions below `n`. */
  lemma RemoveTop(ps: seq<nat>, j: nat, n: nat)
    requires j < |ps| && ps[j] == n && InRange(ps, n + 1) && Distinct(ps)
    ensures InRange(ps[..j] + ps[j + 1..], n) && Distinct(ps[..j] + ps[j + 1..])
  {
  }

  /** Drawing the last position of `s` contributes the last entry once; the
      other positions draw from the rest of `s`. */
  lemma PickWithoutTop<T>(s: seq<T>, ps: seq<nat>, j: nat)
    requires 0 < |s| && j < |ps| && ps[j] == |s| - 1 && InRange(ps, |s|) && Distinct(ps)
    ensures InRange(ps[..j] + ps[j + 1..], |s| - 1) && Distinct(ps[..j] + ps[j + 1..])
    ensures multiset(Pick(s, ps)) == multiset(Pick(s[..|s| - 1], ps[..j] + ps[j + 1..])) + multiset{s[|s| - 1]}
  {
    var n := |s| - 1;
    var init := s[..n];
    var before, after := ps[..j], ps[j + 1..];
    RemoveTop(ps, j, n);
    assert ps == before + [n] + after;
    PickConcat(s, before + [n], after);
    PickConcat(s, before, [n]);
    PickConcat(init, before, after);
    PickPrefix(s, before, n);
    PickPrefix(s, after, n);
    assert Pick(s, ps) == Pick(init, before) + [s[n]] + Pick(init, after);
  }

  /** Entries drawn from distinct positions form a sub-multiset: nothing is drawn twice. */
  lemma {:induction false} PickSubMultiset<T>(s: seq<T>, ps: seq<nat>)
    requires InRange(ps, |s|) && Distinct(ps)
    ensures multiset(Pick(s, ps)) <= multiset(s)
    decreases |s|
  {
    if |s| == 0 {
      assert forall i | 0 <= i < |ps| :: ps[i] < 0;
    } else {
      var n := |s| - 1;
      var init := s[..n];
      assert s == init + [s[n]];
      if j :| 0 <= j < |ps| && ps[j] == n {
        PickWithoutTop(s, ps, j);
        PickSubMultiset(init, ps[..j] + ps[j + 1..]);
      } else {
        assert InRange(ps, n);
        PickSubMultiset(init, ps);
        PickPrefix(s, ps, n);
      }
    }
  }

  /** The batch `train_long_memory` trains on: the whole memory when it holds
      at most `batchSize` entries, otherwise `batchSize` entries at the drawn
      distinct positions. */
  function MiniSample<T>(memory: seq<T>, positions: seq<nat>, batchSize: nat): (batch: seq<T>)
    requires |memory| > batchSize ==> IsSample(positions, |memory|, batchSize)
    ensures |memory| <= batchSize ==> batch == memory
    ensures |memory| > batchSize ==> |batch| == batchSize
    ensures |memory| > batchSize ==> forall i | 0 <= i < batchSize :: batch[i] == memory[positions[i]]
    ensures multiset(batch) <= multiset(memory)
  {
    if |memory| > batchSize then
      PickSubMultiset(memory, positions);
      Pick(memory, positions)
    else
      memory
  }
}
