# SnakeAI agent and Q-learning target, in Dafny

This project models the learning side of a Snake-playing reinforcement-learning agent:

- the observation the agent builds from the game (`Agent.get_state`): three danger flags
  relative to the heading, four heading flags, four food-position flags;
- the replay memory, a deque bounded by `MAX_MEMORY = 100_000` that drops its oldest entry when full;
- the batch `train_long_memory` trains on: the whole memory, or `BATCH_SIZE = 1000` entries drawn
  at distinct positions;
- the epsilon-greedy `get_action`, with `epsilon = 80 - n_games` and a draw in `[0, 200]`;
- the per-game bookkeeping of the training loop (`n_games`, `record`, the save request, the scores);
- the Bellman target of `QTrainer.train_step`: a copy of the prediction in which, row by row, only
  the slot of the move taken is overwritten by the reward, plus `gamma` times the best value of the
  next state when the game went on.

Modules: `Geometry` (cells, headings, turns), `Vectors` (0/1 flags, one-hot, arg-max, max),
`Features` (`get_state`), `Replay` (bounded deque, sampling without replacement),
`QTraining` (the target construction), `AgentModel` (the `Agent` class and a `Session` class
holding the training loop's variables).

The game, the network and the random generator are not part of this model. The collision test
is a parameter `isCollision: Point -> bool`. The network's prediction on the current state and
the matrix `pred` are inputs. The network's output on a next state is a function
`q: seq<int> -> seq<real>`. The draws of `random.randint` and `random.sample` are parameters,
constrained to the ranges those calls produce. Values are Dafny `real`s, an idealisation of float32.

The model follows the code: the exploration draw `random.randint(0, 200)` includes 200, and
`epsilon = 80 - n_games` is not clamped at 0, so it goes negative after 80 games.

## Model

| member | source | states |
|---|---|---|
| `Geometry.Neighbour` | agent.py:30-33 | the neighbouring cell differs from the head in one coordinate only, by one block |
| `Features.GetState` | agent.py:23-74 | the observation has 11 entries, each 0 or 1 |
| `Features.DangerFlags` | agent.py:29-59 | danger ahead, right and left are the collision test at the cell one block ahead in the heading, one clockwise turn from it, and one counter-clockwise turn from it |
| `Features.HeadingFlags` | agent.py:35-39 | exactly one of the four heading flags is 1, the one for the current heading |
| `Features.FoodFlags` | agent.py:67-71 | "left" and "right" are never both set, nor "above" and "below"; all four are clear exactly when the food is on the head |
| `Features.HeadingRecoverable` | agent.py:61-65 | two headings give the same heading flags exactly when they are equal |
| `Vectors.ArgMax` | model.py:56 | the index returned is in range, its entry is maximal, and every earlier entry is strictly smaller (first maximum, as torch.argmax) |
| `Vectors.Max` | model.py:54 | the value returned is an entry and is at least every entry |
| `Vectors.OneHot` | agent.py:102-111 | the move has the given length, every entry is 0 or 1, and exactly the chosen index is 1 |
| `Vectors.OneHotArgMax` | model.py:56 | the arg-max of a one-hot action is the index of its single 1 |
| `Replay.Append` | agent.py:76-78 | the new length is the old length plus one, capped at the capacity; the new transition is last; the rest is the old contents with at most the oldest entry dropped, in order |
| `Replay.AppendAllKeepsNewest` | agent.py:19 | after any sequence of appends the deque holds exactly the newest `cap` items of the whole history, in their original order |
| `Replay.OverflowDropsOldest` | agent.py:19 | appending `cap + 1` items to an empty deque leaves all but the first |
| `Replay.Pick` | agent.py:83 | the draw has one entry per chosen position, and entry `i` is the memory entry at position `i` of the draw |
| `Replay.PickSubMultiset` | agent.py:83 | entries drawn at distinct positions form a sub-multiset of the memory: nothing is drawn twice |
| `Replay.MiniSample` | agent.py:82-85 | a memory of at most `BATCH_SIZE` entries is the batch itself, in order; a larger one gives exactly `BATCH_SIZE` entries taken at the drawn distinct positions; in both cases the batch is a sub-multiset of the memory |
| `QTraining.Lift` | model.py:40-46 | a single transition becomes a batch of one whose only row is that transition |
| `QTraining.TargetRow` | model.py:52-56 | the target row for one transition has the width of its prediction row; the slots it changes are stated by `TargetRowSlots` |
| `QTraining.TargetRowSlots` | model.py:51-56 | in a target row only the arg-max slot of the action differs from the prediction; it is the reward when the game ended, and otherwise the reward plus gamma times the maximum next-state value, which is one of the next-state values |
| `QTraining.OverwriteIsTargetRow` | model.py:52-56 | overwriting the arg-max slot of a prediction row with the new estimate gives the target row |
| `QTraining.Targets` | model.py:50 | the target has the shape of the prediction, row for row |
| `QTraining.TrainStep` | model.py:33-56 | the loop's result is the target matrix: each row is the target row of its own transition and prediction row, whichever of the single or batched inputs is given |
| `QTraining.RowIsLocal` | model.py:51-56 | target row `i` depends only on transition `i` and prediction row `i`, wherever it sits in a batch |
| `QTraining.SingleMatchesBatch` | model.py:40-56 | the target computed for a single transition lifted to a batch of one equals the row that transition gets inside any larger batch |
| `QTraining.OneHotTarget` | model.py:56 | for a one-hot action only the hot slot changes, and it holds the Bellman value |
| `AgentModel.Explores` | agent.py:104 | a draw in range sends the agent exploring only while fewer than 80 games are finished |
| `AgentModel.ChosenMove` | agent.py:101-111 | the move is below 3; when the draw is below `80 - n_games` it is the random move; otherwise it is the first move of highest predicted value |
| `AgentModel.ExplorationEnds` | agent.py:101-104 | some draw in `[0, 200]` explores if and only if fewer than 80 games are finished |
| `AgentModel.Unzip` | agent.py:88 | an empty sample cannot be unpacked; otherwise row `i` of the columns is transition `i` |
| `AgentModel.Best` | agent.py:148-149 | the record is at least 0 and at least every score, and it is 0 or one of the scores |
| `AgentModel.Sum` | agent.py:157 | the total of scores that are never negative is at least the record |
| `AgentModel.BestSnoc` | agent.py:148-157 | one more score sets the record to the larger of the old record and the score, and adds the score to the total |
| `AgentModel.NewRecordIff` | agent.py:148-151 | a score beats the record exactly when it is positive and beats every earlier score |
| `AgentModel.Agent.constructor` | agent.py:15-19 | a new agent has played no games, has epsilon 0, gamma 0.9 and an empty memory |
| `AgentModel.Agent.Remember` | agent.py:76-78 | the memory becomes the bounded append of the new transition and stays within `MAX_MEMORY` |
| `AgentModel.Agent.LongMemoryBatch` | agent.py:80-88 | the batch is the columns of the mini-sample, and is missing exactly when the memory is empty; the memory is not changed |
| `AgentModel.Agent.GetAction` | agent.py:97-113 | epsilon becomes `80 - n_games` and the move is the one-hot encoding of the epsilon-greedy choice |
| `AgentModel.Session.constructor` | agent.py:116-121 | the loop starts with record 0, no scores and a fresh agent with an empty memory |
| `AgentModel.Session.Step` | agent.py:124-157 | one loop pass records the transition of the chosen move; at the end of a game `n_games` grows by exactly 1, the score is added, the batch is drawn, the record stays the best score so far, and saving is requested exactly when the score beats the previous record; otherwise nothing but epsilon and the memory changes |

## Left out

- `Linear_QNet.forward`, the Adam optimizer, `MSELoss` and `backward()`: tensor numerics in torch; the prediction and next-state values are inputs instead.
- `Linear_QNet.save`: file I/O; `Session.Step` returns the save request instead.
- `plot`, `print` and `mean_score`: plotting, console output and float division. `total_score` is kept as an integer.
- `train_short_memory`: it only passes one transition to `train_step`; its target is `QTraining.TrainStep` on a `Single` input, and its gradient step is not modelled.
- `game.py` (`play_step`, `is_collision`, `reset`, food placement) is not part of this model: the collision test is a parameter, and the step result and both observations are inputs of `Session.Step`.
- The meaning of the three move indices is decided by the game, so the model gives them none.
- `random.randint` and `random.sample`: the draws are parameters whose preconditions state the ranges those calls produce. Uniformity is not modelled.
- The endless `while True` loop: `Session.Step` models one pass of its body.
- `Features.GetState`: the game keeps `head == snake[0]`, so the separate reads of `game.snake[0]` and `game.head` are one `head` parameter. Coordinates are integers, while the game stores the centre as a float.
- `QTraining.TrainStep`: float32 rounding is not modelled; the targets are exact reals.
- `QTraining.TrainStep`: it requires one entry per prediction row in every column, every action as wide as its prediction row, and a non-empty value vector for every non-terminal next state. Both callers meet these shapes: the long-memory batch built by `zip` (agent.py:88-91) and the single transition (agent.py:95). What torch does with other shapes is not modelled.
