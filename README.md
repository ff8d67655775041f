# Hierarchical dialogue agent: control logic

This project models the deterministic control logic of `AgentWithGoal`, the
hierarchical reinforcement-learning agent of a medical dialogue system. A
master policy picks a goal (a candidate disease), a lower agent picks the
dialogue actions under that goal, and an internal critic scores how close the
dialogue state is to the goal. Around those networks the agent keeps:

- the **intrinsic-critic gate**, which turns a similarity score and the number
  of turns spent on the current goal into "sub-task over", "declare the
  disease" and an intrinsic reward (two strict thresholds, 0.98 and 0.001,
  and a turn cap of 4);
- the **per-session state machine** (`initialize`, `next`,
  `record_training_sample`): when a new goal is chosen, whether a turn
  declares the goal's disease or delegates to the lower agent, how the master
  reward accumulates and when a master transition is stored;
- the **two bounded replay pools** (FIFO deques with a maximum length) and the
  goal-by-action **visitation-count matrix** kept in step with the lower pool,
  including the eviction of the oldest lower transition when the pool is full;
- the **training pass** of the master, one step per whole batch in its pool.

Modules:

- `Wrappers` (`wrappers.dfy`): `Option`, for Python's `None`.
- `Critic` (`critic.dfy`): the gate as a pure function, `IntrinsicCritic`.
- `Replay` (`replay.dfy`): master and lower transitions, the deque append
  with a maximum length, the one-hot goal vector, the number of stored lower
  transitions per (goal, action) cell, and the fact that these counts add up
  to the pool's length.
- `Agent` (`agent.dfy`): the class `AgentWithGoal`, whose fields are the
  session state, the two pools (sequences) and the count matrix (a
  two-dimensional array). Its invariant `Valid()` includes that every count
  equals the number of lower transitions with that goal and action, and that
  neither pool is longer than its capacity.
- `Scenarios` (`scenarios.dfy`): two sessions driven through the methods, one
  cut off by the turn cap, one that shows which rewards reach the master pool.

The networks are inputs: the critic's similarity for every goal is a
`seq<real>` indexed by the active goal, the master's goal choice and the lower
agent's action choice are method parameters, and training losses are a
function from step number to loss. A dialogue state of type `S` stands for its
own feature vector; a goal-conditioned feature vector is the state paired with
the goal's one-hot vector.

Two points where the code does something other than one would expect; the model follows the code:

- A master transition is stored on the first recorded turn of each goal, not
  when the goal ends. `next` resets `master_reward` when it picks a goal, and
  `next` never clears `sub_task_terminal`, so the entry written by
  `record_training_sample` carries only that first turn's reward. The rewards
  of later turns under the same goal are added to `master_reward` and then
  reset by the next goal choice without being stored.
  `Scenarios.MasterRewardScenario` exhibits this. The hierarchical scheme
  would store one master transition per finished sub-task, carrying the sum
  of the rewards earned under that goal; the code does not do that.
- The count of the new (goal, action) pair is incremented before the evicted
  pair's count is decremented, not after. Either order ends in the same
  matrix.

## Model

| member | source | states |
|---|---|---|
| Critic.IntrinsicCritic | src/dialogue_system/agent/agent_with_goal.py:239-262 | The gate as a decision table: declare exactly when similarity > 0.98; sub-task over exactly when similarity > 0.98, similarity < 0.001 or turn > 4; past turn 4 the reward is -1 whatever the similarity; otherwise the reward is the similarity on the high branch, 1 - similarity on the low branch, and the defaults (false, false, 0) between the thresholds. The high and low branches are exclusive because declaring implies similarity > 0.98. |
| Critic.GateBoundaries | src/dialogue_system/agent/agent_with_goal.py:248-260 | Neither threshold fires on equality (0.98 and 0.001 give the defaults under the cap); at turn 5 a neutral similarity is cut off with reward -1, and a high one is cut off with reward -1 but still declares. |
| Replay.OneHot | src/dialogue_system/agent/agent_with_goal.py:129-131 | The goal vector has the goal count as length, a 1 at the goal's index and 0 everywhere else. |
| Replay.HotIndexOneHot | src/dialogue_system/agent/agent_with_goal.py:221-222 | Decoding a goal vector (position of its first 1) gives back the goal it was built from, so the vector identifies the goal. |
| Replay.BoundedAppend | src/dialogue_system/agent/agent_with_goal.py:215 | Appending to a deque with a maximum length: the result never exceeds that length, ends with the new entry, loses nothing while there is room, and when full loses exactly its oldest entry. |
| Replay.Count | src/dialogue_system/agent/agent_with_goal.py:82 | The number of stored lower transitions pairing a goal with an action never exceeds the pool's length. |
| Replay.CountAppend | src/dialogue_system/agent/agent_with_goal.py:227 | Appending a lower transition raises exactly its own (goal, action) count by one and leaves every other count alone. |
| Replay.CountBoundedAppend | src/dialogue_system/agent/agent_with_goal.py:226-231 | After a bounded append each count is its old value plus the new transition's hit minus, when the pool was full, the evicted oldest transition's hit. |
| Replay.GridTotalIsPoolSize | src/dialogue_system/agent/agent_with_goal.py:82 | When every stored transition's goal and action lie inside the matrix, the matrix entries add up to the pool's length. |
| Agent.AgentWithGoal.constructor | src/dialogue_system/agent/agent_with_goal.py:41-82 | Both pools start empty and every count starts at zero, so the count invariant holds from the start. |
| Agent.AgentWithGoal.Initialize | src/dialogue_system/agent/agent_with_goal.py:84-99 | A session starts with master reward 0, the sub-task terminal (so the next turn picks a goal), no goal, intrinsic reward 0, turn counter 0 and the inform action naming "UNK"; pools, counts and the snapshotted master state are untouched. |
| Agent.AgentWithGoal.Next | src/dialogue_system/agent/agent_with_goal.py:101-135 | If the sub-task was terminal, the master reward and turn counter restart at 0, the state is snapshotted and the chosen goal becomes active; otherwise all three are kept. The termination flag is never cleared here. Then exactly one path runs: the gate declares, and the inform action names the goal's disease with the turn counter unchanged (or the lookup fails when the goal has no disease name); or the gate does not declare, the turn counter goes up by one and the lower agent acts under the goal's one-hot vector. Pools and counts are unchanged. |
| Agent.AgentWithGoal.RecordTrainingSample | src/dialogue_system/agent/agent_with_goal.py:196-232 | The master reward grows by exactly the (unshaped) reward. The master pool gains one entry (snapshotted state, goal, updated master reward, next state, episode flag) exactly when the sub-task was terminal on entry. On an episode-over turn the lower pool, the counts, the termination flag and the intrinsic reward are unchanged; otherwise the flag and the intrinsic reward are the gate's result on the next state, and the lower pool drops its oldest entry when full and gains the new goal-tagged transition at the back. The count invariant is kept. |
| Agent.AgentWithGoal.StoreLowerTransition | src/dialogue_system/agent/agent_with_goal.py:226-231 | Eviction and count update as one step: the pool drops its oldest entry only when full and gains the new one at the back; the new pair's count goes up by one and the evicted pair's count down by one, so the counts still match the pool. |
| Agent.AgentWithGoal.FlushPool | src/dialogue_system/agent/agent_with_goal.py:234-237 | Both pools become empty and a new all-zero count matrix replaces the old one, which re-establishes the count invariant; the session state is untouched. |
| Agent.AgentWithGoal.TrainDqn | src/dialogue_system/agent/agent_with_goal.py:186-191 | The master trains once per whole batch in its pool: steps × batch size ≤ pool length < (steps + 1) × batch size. There are no steps exactly when the pool is smaller than a batch, and the accumulated error (`cur_bellman_err`) is the sum of the step losses. |
| Scenarios.TurnCapScenario | src/dialogue_system/agent/agent_with_goal.py:258-260 | With three goals, one goal kept and similarity 0.5 on every turn, the sub-task is still open after four turns and is ended by the turn cap when the fifth turn is recorded, with intrinsic reward -1. |
| Scenarios.MasterRewardScenario | src/dialogue_system/agent/agent_with_goal.py:109-113 | Over three recorded turns with rewards r1, r2, r3 under goal 0, goal 0, then goal 1, the master pool holds entries for goals 0 and 1 carrying r1 and r3; the lower pool and the (goal 0, action) count both stand at 2. |

## Left out

- The value networks of the master and the lower agent (`DQN`): prediction, the training step `train`, `update_target_network`, `save_model` and model restoring. Training losses are an input of `TrainDqn`.
- The internal-critic network and its construction from the per-disease symptom distribution (floating-point division by totals that can be zero). Its similarity scores are an input.
- The master's goal choice (`__master_next__`): epsilon-greedy with `random` or the network's best goal. It is any goal index in range, passed to `Next`.
- Randomness: the module-level seed and the batches drawn by `random.sample` in `train_dqn`. Only the number of training steps and the sum of their losses are modelled.
- State vectorisation (`state_to_representation_last`) and the concatenation of features with the goal vector: a state stands for its own features, and the goal vector is stored beside it.
- Reward shaping (`reward_shaping`, with `np.log` and float ratios): it is never called, and the shaping term is always 0. Only that zero term and its weight are modelled.
- The lower agent's own code lives in another file: its `initialize`, `next`, `train_dqn` and `flush_pool`. Its replay pool is a sequence owned by the model, its `next` is the `lowerAction` argument, and its `flush_pool` is modelled as emptying that pool.
- Logging and `print`, and the working-directory lookups.
- Agent.AgentWithGoal.constructor: the source's `__init__` does not create the session fields; `initialize` does, and the model's constructor gives them `initialize`'s values. The constructor also requires a positive goal count, batch size and pool capacity. With a capacity of 0, `popleft` would fail on an empty deque. With a batch size of 0, `train_dqn` divides by zero. A missing capacity (an unbounded deque) is not modelled. Both pools take their capacity from the same parameter, so the model has one capacity.
- Agent.AgentWithGoal.RecordTrainingSample: requires that `next` has chosen a goal in this session. Otherwise the source reads a missing or stale `master_state` and indexes with `None`. On a turn where the episode is not over, it also requires a valid lower action index. The `None` index of a declaring turn would make numpy update a whole row instead of a cell.
- Agent.AgentWithGoal.TrainDqn: `train_dqn` returns nothing; it prints the accumulated error divided by the pool length (plus 1e-10). That printed per-entry mean is not modelled: the model returns the undivided sum `cur_bellman_err`. The lower agent's own training pass, called at the end, is not modelled either.
- Agent.AgentWithGoal.TrainDqn: the source computes the step count as `int(len / batch_size)` in floating point. The model uses exact integer division, which agrees for pool lengths below 2^52.
- Agent.AgentWithGoal.Next: on a declaring turn the source returns the agent's own `self.action` dict, the same object that later declaring turns update in place (its turn, disease and speaker), so an action the caller kept changes under it. The model's `Inform` result is a value, a copy of the action at that moment, and does not capture this aliasing.
- Agent.AgentWithGoal.RecordTrainingSample: the shaping weight is read with `parameter.get`, so a missing `weight_for_reward_shaping` gives `None`, and `reward + alpha * shaping` then raises TypeError on every call, before any state changes. The model's weight is always a real, so this failure is not modelled.
- Agent.AgentWithGoal.Next: the inform action's constant keys (`action`, the empty slot maps) and the `action_index` key, always set to `None`, are not fields of the model.
- Similarity scores and rewards are exact reals rather than Python floats.
