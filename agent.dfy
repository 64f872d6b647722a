/** The learning agent: epsilon-greedy move choice, the bounded replay memory,
    the choice of the long-memory batch, and the per-game bookkeeping of the
    training loop. The game itself, the network and the random generator are
    not modelled: their results are parameters. */
module AgentModel {
  import opened Vectors
  import opened Replay
  import opened QTraining

  /** Capacity of the replay memory (MAX_MEMORY). */
  const MaxMemory: nat := 100_000
  /** Size of a long-memory batch (BATCH_SIZE). */
  const BatchSize: nat := 1000
  /** Exploration starts at this epsilon and falls by one per finished game. */
  const EpsilonStart: int := 80
  /** Upper end, inclusive, of the exploration draw `random.randint(0, 200)`. */
  const DrawMax: int := 200
  /** Number of moves the network scores. */
  const Moves: nat := 3

  datatype Option<T> = None | Some(value: T)

  /** Whether the draw `draw` sends the agent exploring after `nGames` games. */
  predicate Explores(nGames: int, draw: int)
    ensures Explores(nGames, draw) && 0 <= draw ==> nGames < EpsilonStart
  {
    draw < EpsilonStart - nGames
  }

  /** The move index get_action sets: the random move when exploring,
      otherwise the first move of highest predicted value. */
  function ChosenMove(nGames: int, draw: int, randomMove: nat, prediction: seq<real>): (k: nat)
    requires randomMove < Moves && |prediction| == Moves
    ensures k < Moves
    ensures Explores(nGames, draw) ==> k == randomMove
    ensures !Explores(nGames, draw) ==>
      (forall j | 0 <= j < Moves :: prediction[j] <= prediction[k]) &&
      (forall j | 0 <= j < k :: prediction[j] < prediction[k])
  {
    if Explores(nGames, draw) then randomMove else ArgMax(prediction)
  }

  /** Some draw in [0, DrawMax] explores exactly while fewer than 80 games are
      finished; from game 80 on the agent always follows the network. */
  lemma ExplorationEnds(nGames: int)
    ensures (exists draw | 0 <= draw <= DrawMax :: Explores(nGames, draw)) <==> nGames < EpsilonStart
  {
    if nGames < EpsilonStart {
      assert Explores(nGames, 0);
    }
  }

  /** The batch columns `zip(*mini_sample)` produces; unpacking an empty
      sample into five names fails, which is `None` here. */
  function Unzip(ts: seq<Transition>): (b: Option<Batch>)
    ensures b.None? <==> ts == []
    ensures b.Some? ==> Rows(b.value, |ts|) && forall i | 0 <= i < |ts| :: At(b.value, i) == ts[i]
  {
    if ts == [] then None
    else Some(Batch(seq(|ts|, i requires 0 <= i < |ts| => ts[i].state),
                    seq(|ts|, i requires 0 <= i < |ts| => ts[i].action),
                    seq(|ts|, i requires 0 <= i < |ts| => ts[i].reward),
                    seq(|ts|, i requires 0 <= i < |ts| => ts[i].nextState),
                    seq(|ts|, i requires 0 <= i < |ts| => ts[i].gameOver)))
  }

  /** The running record: the best score so far, starting from 0. */
  function Best(scores: seq<int>): (r: int)
    ensures r >= 0
    ensures forall i | 0 <= i < |scores| :: scores[i] <= r
    ensures r == 0 || r in scores
  {
    if scores == [] then 0
    else
      var prev, last := Best(scores[..|scores| - 1]), scores[|scores| - 1];
      if last > prev then last else prev
  }

  /** Total of all scores (`total_score`); with no negative score it is at
      least the record. */
  function Sum(scores: seq<int>): (r: int)
    ensures (forall i | 0 <= i < |scores| :: scores[i] >= 0) ==> r >= Best(scores)
  {
    if scores == [] then 0 else Sum(scores[..|scores| - 1]) + scores[|scores| - 1]
  }

  /** One more score updates the record and the total as the loop does. */
  lemma BestSnoc(scores: seq<int>, score: int)
    ensures Best(scores + [score]) == if score > Best(scores) then score else Best(scores)
    ensures Sum(scores + [score]) == Sum(scores) + score
  {
    assert (scores + [score])[..|scores|] == scores;
  }

  /** A score beats the record exactly when it is positive and beats every
      earlier score. */
  lemma NewRecordIff(scores: seq<int>, score: int)
    ensures score > Best(scores) <==> score > 0 && forall i | 0 <= i < |scores| :: scores[i] < score
  {
  }

  class Agent {
    var nGames: int
    var epsilon: int
    const gamma: real
    var memory: seq<Transition>

    ghost predicate Valid()
      reads this
    {
      0 <= nGames && |memory| <= MaxMemory
    }

    constructor ()
      ensures Valid()
      ensures nGames == 0 && epsilon == 0 && gamma == 0.9 && memory == []
    {
      nGames := 0;
      epsilon := 0;
      gamma := 0.9;
      memory := [];
    }

    /** Records a transition; a full memory drops its oldest entry. */
    method Remember(state: seq<int>, action: seq<int>, reward: real, nextState: seq<int>, gameOver: bool)
      requires Valid()
      modifies this`memory
      ensures Valid()
      ensures memory == Append(old(memory), Transition(state, action, reward, nextState, gameOver), MaxMemory)
    {
      memory := Append(memory, Transition(state, action, reward, nextState, gameOver), MaxMemory);
    }

    /** The batch train_long_memory hands to the trainer; `positions` is the
        draw of `random.sample`, used only when the memory is larger than a batch. */
    method LongMemoryBatch(positions: seq<nat>) returns (batch: Option<Batch>)
      requires |memory| > BatchSize ==> IsSample(positions, |memory|, BatchSize)
      ensures batch == Unzip(MiniSample(memory, positions, BatchSize))
      ensures batch.None? <==> memory == []
    {
      batch := Unzip(MiniSample(memory, positions, BatchSize));
    }

    /** Epsilon-greedy choice of a one-hot move. `draw` is `random.randint(0, 200)`,
        `randomMove` is `random.randint(0, 2)` and `prediction` is the network's
        output on the current observation. */
    method GetAction(draw: int, randomMove: nat, prediction: seq<real>) returns (finalMove: seq<int>)
      requires 0 <= draw <= DrawMax && randomMove < Moves && |prediction| == Moves
      modifies this`epsilon
      ensures epsilon == EpsilonStart - nGames
      ensures finalMove == OneHot(Moves, ChosenMove(nGames, draw, randomMove, prediction))
    {
      epsilon := EpsilonStart - nGames;
      finalMove := [0, 0, 0];
      if draw < epsilon {
        finalMove := finalMove[randomMove := 1];
      } else {
        var move := ArgMax(prediction);
        finalMove := finalMove[move := 1];
      }
    }
  }

  /** Memory length after one more transition. */
  function NextMemoryLength(n: nat): nat
  {
    if n < MaxMemory then n + 1 else MaxMemory
  }

  /** The state the training loop keeps between games: the agent, the record
      and the scores it plots. */
  class Session {
    const agent: Agent
    var record: int
    var totalScore: int
    var scores: seq<int>

    ghost predicate Valid()
      reads this, agent
    {
      agent.Valid() &&
      agent.nGames == |scores| &&
      record == Best(scores) &&
      totalScore == Sum(scores)
    }

    constructor ()
      ensures Valid() && fresh(agent)
      ensures scores == [] && record == 0 && agent.memory == []
    {
      agent := new Agent();
      record := 0;
      totalScore := 0;
      scores := [];
    }

    /** One pass of the training loop. The game supplies the observations
        and the step result; the draws and the prediction are given too.
        When the game is over the finished game is counted, the long-memory
        batch is drawn and a new record asks for the network to be saved. */
    method Step(stateOld: seq<int>, draw: int, randomMove: nat, prediction: seq<real>,
                reward: real, gameOver: bool, score: int, stateNew: seq<int>, positions: seq<nat>)
      returns (finalMove: seq<int>, batch: Option<Batch>, save: bool)
      requires Valid()
      requires 0 <= draw <= DrawMax && randomMove < Moves && |prediction| == Moves
      requires gameOver && NextMemoryLength(|agent.memory|) > BatchSize ==>
        IsSample(positions, NextMemoryLength(|agent.memory|), BatchSize)
      modifies this, agent
      ensures Valid()
      ensures finalMove == OneHot(Moves, ChosenMove(old(agent.nGames), draw, randomMove, prediction))
      ensures agent.epsilon == EpsilonStart - old(agent.nGames)
      ensures agent.memory ==
        Append(old(agent.memory), Transition(stateOld, finalMove, reward, stateNew, gameOver), MaxMemory)
      ensures gameOver ==> agent.nGames == old(agent.nGames) + 1 && scores == old(scores) + [score]
      ensures gameOver ==> batch == Unzip(MiniSample(agent.memory, positions, BatchSize)) && batch.Some?
      ensures save <==> gameOver && score > old(record)
      ensures save <==> gameOver && score > 0 && forall i | 0 <= i < |old(scores)| :: old(scores)[i] < score
      ensures record == if save then score else old(record)
      ensures !gameOver ==> agent.nGames == old(agent.nGames) && scores == old(scores) && batch.None?
    {
      finalMove := agent.GetAction(draw, randomMove, prediction);
      agent.Remember(stateOld, finalMove, reward, stateNew, gameOver);
      batch := None;
      save := false;
      NewRecordIff(scores, score);
      if gameOver {
        agent.nGames := agent.nGames + 1;
        batch := agent.LongMemoryBatch(positions);
        if score > record {
          record := score;
          save := true;
        }
        BestSnoc(scores, score);
        scores := scores + [score];
        totalScore := totalScore + score;
      }
    }
  }
}
