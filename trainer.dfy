/** The Bellman target that QTrainer.train_step regresses the network toward.
    The network, the loss and the optimizer are not modelled: `pred` is the
    network's output on the batch's states and `q` gives its output on a
    next state. Values are reals, an idealisation of float32 tensors. */
module QTraining {
  import opened Vectors
  import opened Replay

  /** A batch in column form, as `zip(*mini_sample)` hands it to the trainer. */
  datatype Batch = Batch(states: seq<seq<int>>, actions: seq<seq<int>>, rewards: seq<real>,
                         nextStates: seq<seq<int>>, gameOvers: seq<bool>)

  /** What train_step is given: one transition (the short-memory path) or a batch. */
  datatype StepInput = Single(t: Transition) | Batched(b: Batch)

  /** Row `i` of a batch, read back as a transition. */
  function At(b: Batch, i: nat): Transition
    requires i < |b.states| && i < |b.actions| && i < |b.rewards| && i < |b.nextStates| && i < |b.gameOvers|
  {
    Transition(b.states[i], b.actions[i], b.rewards[i], b.nextStates[i], b.gameOvers[i])
  }

  /** Every column of `b` has one entry per row. */
  predicate Rows(b: Batch, n: nat)
  {
    |b.states| == n && |b.actions| == n && |b.rewards| == n && |b.nextStates| == n && |b.gameOvers| == n
  }

  /** A single transition as a batch of one (the `unsqueeze` of every column). */
  function Lift(t: Transition): (b: Batch)
    ensures Rows(b, 1) && At(b, 0) == t
  {
    Batch([t.state], [t.action], [t.reward], [t.nextState], [t.gameOver])
  }

  /** The batch train_step works on. */
  function AsBatch(input: StepInput): Batch
  {
    match input
    case Single(t) => Lift(t)
    case Batched(b) => b
  }

  /** What train_step needs to index every row: one prediction row per
      transition, an action as wide as its prediction row, and a non-empty
      value vector for every next state that is not terminal. */
  predicate Shaped(b: Batch, pred: seq<seq<real>>, q: seq<int> -> seq<real>)
  {
    Rows(b, |pred|) &&
    (forall i | 0 <= i < |pred| :: |b.actions[i]| == |pred[i]| > 0) &&
    (forall i | 0 <= i < |pred| :: !b.gameOvers[i] ==> |q(b.nextStates[i])| > 0)
  }

  /** The target row for one transition: the prediction, with the slot of the
      move taken overwritten by the new value estimate. */
  function TargetRow(row: seq<real>, t: Transition, gamma: real, q: seq<int> -> seq<real>): (r: seq<real>)
    requires |t.action| == |row| > 0
    requires !t.gameOver ==> |q(t.nextState)| > 0
    ensures |r| == |row|
  {
    row[ArgMax(AsReals(t.action)) := if t.gameOver then t.reward else t.reward + gamma * Max(q(t.nextState))]
  }

  /** Only the slot of the move taken (the arg-max of the action) changes; it
      becomes the reward when the game ended, and otherwise the reward plus
      `gamma` times the best value the network gives the next state. */
  lemma TargetRowSlots(row: seq<real>, t: Transition, gamma: real, q: seq<int> -> seq<real>)
    requires |t.action| == |row| > 0
    requires !t.gameOver ==> |q(t.nextState)| > 0
    ensures var r, a := TargetRow(row, t, gamma, q), ArgMax(AsReals(t.action));
      (forall k | 0 <= k < |row| && k != a :: r[k] == row[k]) &&
      (t.gameOver ==> r[a] == t.reward) &&
      (!t.gameOver ==> r[a] == t.reward + gamma * Max(q(t.nextState)) &&
                       exists k | 0 <= k < |q(t.nextState)| :: r[a] == t.reward + gamma * q(t.nextState)[k])
  {
  }

  /** Overwriting the arg-max slot with the new estimate yields the target row. */
  lemma OverwriteIsTargetRow(row: seq<real>, t: Transition, gamma: real, q: seq<int> -> seq<real>, qNew: real)
    requires |t.action| == |row| > 0
    requires !t.gameOver ==> |q(t.nextState)| > 0
    requires qNew == if t.gameOver then t.reward else t.reward + gamma * Max(q(t.nextState))
    ensures row[ArgMax(AsReals(t.action)) := qNew] == TargetRow(row, t, gamma, q)
  {
    TargetRowSlots(row, t, gamma, q);
  }

  /** The whole target matrix: each row built from its own transition and prediction row. */
  function Targets(pred: seq<seq<real>>, b: Batch, gamma: real, q: seq<int> -> seq<real>): (target: seq<seq<real>>)
    requires Shaped(b, pred, q)
    ensures |target| == |pred|
    ensures forall i | 0 <= i < |pred| :: |target[i]| == |pred[i]|
  {
    seq(|pred|, i requires 0 <= i < |pred| => TargetRow(pred[i], At(b, i), gamma, q))
  }

  /** train_step's target construction: clone `pred`, then overwrite one slot per row. */
  method TrainStep(input: StepInput, pred: seq<seq<real>>, gamma: real, q: seq<int> -> seq<real>)
    returns (target: seq<seq<real>>)
    requires Shaped(AsBatch(input), pred, q)
    ensures target == Targets(pred, AsBatch(input), gamma, q)
  {
    var b := AsBatch(input);
    ghost var rows := Targets(pred, b, gamma, q);
    target := pred;
    for idx := 0 to |b.gameOvers|
      invariant |target| == |pred|
      invariant forall i | 0 <= i < idx :: target[i] == rows[i]
      invariant forall i | idx <= i < |pred| :: target[i] == pred[i]
    {
      var qNew := b.rewards[idx];
      if !b.gameOvers[idx] {
        qNew := b.rewards[idx] + gamma * Max(q(b.nextStates[idx]));
      }
      var slot := ArgMax(AsReals(b.actions[idx]));
      OverwriteIsTargetRow(pred[idx], At(b, idx), gamma, q, qNew);
      assert target[idx][slot := qNew] == rows[idx];
      target := target[idx := target[idx][slot := qNew]];
    }
  }

  /** Row `i` of the target depends only on transition `i` and prediction row
      `i`, so it is the same wherever that transition sits in a batch. */
  lemma RowIsLocal(pred1: seq<seq<real>>, b1: Batch, i: nat, pred2: seq<seq<real>>, b2: Batch, j: nat,
                   gamma: real, q: seq<int> -> seq<real>)
    requires Shaped(b1, pred1, q) && Shaped(b2, pred2, q)
    requires i < |pred1| && j < |pred2|
    requires At(b1, i) == At(b2, j) && pred1[i] == pred2[j]
    ensures Targets(pred1, b1, gamma, q)[i] == Targets(pred2, b2, gamma, q)[j]
  {
  }

  /** The single-transition path lifts to a batch of one, and its target row
      is the row that transition gets inside any larger batch. */
  lemma SingleMatchesBatch(t: Transition, row: seq<real>, pred: seq<seq<real>>, b: Batch, idx: nat,
                           gamma: real, q: seq<int> -> seq<real>)
    requires Shaped(b, pred, q) && idx < |pred|
    requires At(b, idx) == t && pred[idx] == row
    ensures Shaped(AsBatch(Single(t)), [row], q)
    ensures Targets([row], AsBatch(Single(t)), gamma, q) == [Targets(pred, b, gamma, q)[idx]]
  {
  }

  /** For a one-hot move the overwritten slot is the hot index: every other
      slot keeps its prediction. */
  lemma OneHotTarget(row: seq<real>, t: Transition, k: nat, gamma: real, q: seq<int> -> seq<real>)
    requires k < |row| && t.action == OneHot(|row|, k)
    requires !t.gameOver ==> |q(t.nextState)| > 0
    ensures forall m | 0 <= m < |row| && m != k :: TargetRow(row, t, gamma, q)[m] == row[m]
    ensures TargetRow(row, t, gamma, q)[k] ==
      if t.gameOver then t.reward else t.reward + gamma * Max(q(t.nextState))
  {
    OneHotArgMax(|row|, k);
    TargetRowSlots(row, t, gamma, q);
  }
}
