/**
 * The hierarchical dialogue agent: a master policy picks a goal (a candidate
 * disease), a lower agent picks dialogue actions under that goal, and the
 * internal-critic gate decides when a goal is finished. This module holds
 * the agent's per-session state, its two replay pools and the goal-by-action
 * visitation counts kept in step with the lower pool.
 *
 * The networks are not modelled. The master's goal choice, the lower
 * agent's action choice, the critic's similarity scores and the training
 * losses are inputs of the methods that use them.
 */
module Agent {
  import opened Wrappers
  import opened Critic
  import opened Replay

  /** Disease named by the inform action before any goal has been declared. */
  const UnknownDisease: string := "UNK"

  /**
   * The reusable inform action of the agent. Its other keys (`action` is
   * always "inform", the request and inform slot maps stay empty) never
   * change; `turn` and `speaker` are absent until the first declaration.
   */
  datatype InformAction = InformAction(disease: string, turn: Option<int>, speaker: Option<string>)

  /** What one turn of `Next` produces. */
  datatype Dispatch =
    | Inform(action: InformAction)            // declare the goal's disease; no action index
    | Delegate(goal: seq<int>, actionIndex: nat) // the lower agent acts under this goal vector
    | MissingDisease(unnamedGoal: nat)         // the goal has no disease name: the lookup fails

  /** Sum of the first `n` training losses. */
  function TotalLoss(loss: nat -> real, n: nat): real
  {
    if n == 0 then 0.0 else TotalLoss(loss, n - 1) + loss(n - 1)
  }

  class AgentWithGoal<S> {
    /** Number of goals, the master's output size. */
    const goalDim: nat
    /** Size of the lower agent's action space. */
    const numActions: nat
    /** Capacity of each replay pool. */
    const poolSize: nat
    /** Number of transitions per training batch. */
    const batchSize: nat
    /** Weight of the reward-shaping term, whose value is always 0. */
    const shapingWeight: real
    /** Disease name of each goal index. */
    const id2disease: map<nat, string>

    // per-session state
    var masterReward: real
    var subTaskTerminal: bool
    var masterActionIndex: Option<nat>
    var intrinsicReward: real
    var subTaskTurn: nat
    var informDisease: bool
    var masterState: Option<S>
    var action: InformAction

    // replay pools and visitation counts
    var masterPool: seq<MasterTransition<S>>
    var lowerPool: seq<LowerTransition<S>>
    var visitationCount: array2<int>

    /** The counts agree with the lower pool cell by cell. */
    ghost predicate CountsMatchPool()
      reads this, visitationCount
    {
      forall g, a :: 0 <= g < visitationCount.Length0 && 0 <= a < visitationCount.Length1 ==>
        visitationCount[g, a] == Count(lowerPool, g, a)
    }

    ghost predicate Valid()
      reads this, visitationCount
    {
      && 0 < goalDim && 0 < poolSize && 0 < batchSize
      && visitationCount.Length0 == goalDim && visitationCount.Length1 == numActions
      && |masterPool| <= poolSize && |lowerPool| <= poolSize
      && (masterActionIndex.Some? ==> masterActionIndex.value < goalDim && masterState.Some?)
      && (masterActionIndex.None? ==> subTaskTerminal)
      && InGrid(lowerPool, goalDim, numActions)
      && CountsMatchPool()
    }

    /**
     * A new agent with empty pools and zero counts. Its session state is what
     * `Initialize` sets.
     */
    constructor (goalDim: nat, numActions: nat, poolSize: nat, batchSize: nat,
                 shapingWeight: real, id2disease: map<nat, string>)
      requires 0 < goalDim && 0 < poolSize && 0 < batchSize
      ensures Valid() && fresh(visitationCount)
      ensures this.goalDim == goalDim && this.numActions == numActions && this.poolSize == poolSize
      ensures this.batchSize == batchSize && this.shapingWeight == shapingWeight && this.id2disease == id2disease
      ensures masterPool == [] && lowerPool == []
      ensures masterReward == 0.0 && subTaskTerminal && masterActionIndex == None
      ensures intrinsicReward == 0.0 && subTaskTurn == 0
      ensures action == InformAction(UnknownDisease, None, None)
    {
      this.goalDim := goalDim;
      this.numActions := numActions;
      this.poolSize := poolSize;
      this.batchSize := batchSize;
      this.shapingWeight := shapingWeight;
      this.id2disease := id2disease;
      masterReward := 0.0;
      subTaskTerminal := true;
      masterActionIndex := None;
      intrinsicReward := 0.0;
      subTaskTurn := 0;
      informDisease := false;
      masterState := None;
      action := InformAction(UnknownDisease, None, None);
      masterPool := [];
      lowerPool := [];
      visitationCount := new int[goalDim, numActions]((g, a) => 0);
    }

    /** Starts a dialogue session: the next turn must choose a goal. */
    method Initialize()
      requires Valid()
      modifies this
      ensures Valid()
      ensures masterReward == 0.0 && subTaskTerminal && masterActionIndex == None
      ensures intrinsicReward == 0.0 && subTaskTurn == 0
      ensures action == InformAction(UnknownDisease, None, None)
      ensures masterState == old(masterState) && informDisease == old(informDisease)
      ensures masterPool == old(masterPool) && lowerPool == old(lowerPool)
      ensures visitationCount == old(visitationCount)
    {
      masterReward := 0.0;
      subTaskTerminal := true;
      masterActionIndex := None;
      intrinsicReward := 0.0;
      subTaskTurn := 0;
      action := InformAction(UnknownDisease, None, None);
    }

    /**
     * One turn of the agent. If the last sub-task ended, the master's
     * `chosenGoal` becomes the goal and the sub-task counters restart. Then
     * the gate, fed the critic's score for the goal, decides between
     * declaring the goal's disease and delegating to the lower agent, whose
     * choice is `lowerAction`. Exactly one of the two happens.
     */
    method Next(state: S, turn: int, scores: seq<real>, chosenGoal: nat, lowerAction: nat)
      returns (d: Dispatch)
      requires Valid()
      requires |scores| == goalDim && chosenGoal < goalDim
      modifies this
      ensures Valid()
      ensures masterActionIndex.Some?
      ensures if old(subTaskTerminal)
              then masterReward == 0.0 && masterState == Some(state) && masterActionIndex == Some(chosenGoal)
              else masterReward == old(masterReward) && masterState == old(masterState)
                   && masterActionIndex == old(masterActionIndex)
      // `Next` itself never clears the termination flag
      ensures subTaskTerminal == old(subTaskTerminal) && intrinsicReward == old(intrinsicReward)
      ensures masterPool == old(masterPool) && lowerPool == old(lowerPool)
      ensures visitationCount == old(visitationCount)
      ensures var goal := masterActionIndex.value;
              var startTurn := if old(subTaskTerminal) then 0 else old(subTaskTurn);
              && informDisease == IntrinsicCritic(scores[goal], startTurn).informDisease
              // delegation: one more sub-task turn, under the goal's one-hot vector
              && (d.Delegate? <==> !informDisease)
              && (d.Delegate? ==>
                    d.goal == OneHot(goalDim, goal) && d.actionIndex == lowerAction
                    && subTaskTurn == startTurn + 1 && action == old(action))
              // declaration: the turn counter stays, the inform action names the goal's disease
              && (d.Inform? <==> informDisease && goal in id2disease)
              && (d.MissingDisease? <==> informDisease && goal !in id2disease)
              && (!d.Delegate? ==> subTaskTurn == startTurn)
              && (d.Inform? ==>
                    d.action == action
                    && action == InformAction(id2disease[goal], Some(turn), Some("agent")))
              && (d.MissingDisease? ==> d.unnamedGoal == goal && action == old(action).(turn := Some(turn)))
    {
      if subTaskTerminal {
        masterReward := 0.0;
        masterState := Some(state);
        subTaskTurn := 0;
        masterActionIndex := Some(chosenGoal);
      }
      var goal := masterActionIndex.value;
      var verdict := IntrinsicCritic(scores[goal], subTaskTurn);
      informDisease := verdict.informDisease;
      if informDisease {
        action := action.(turn := Some(turn));
        if goal in id2disease {
          action := action.(disease := id2disease[goal], speaker := Some("agent"));
          d := Inform(action);
        } else {
          d := MissingDisease(goal);
        }
        return;
      }
      subTaskTurn := subTaskTurn + 1;
      d := Delegate(OneHot(goalDim, goal), lowerAction);
    }

    /**
     * Stores the samples of one executed turn. The reward is added to the
     * master reward, and a master transition is stored when the sub-task
     * was terminal on entry. Unless the episode is over, the gate is re-run
     * on the critic's scores for `nextState`, and a lower transition is
     * stored, evicting the oldest one when the lower pool is full, with the
     * visitation counts updated for both.
     */
    method RecordTrainingSample(state: S, agentAction: nat, reward: real, nextState: S,
                                episodeOver: bool, nextScores: seq<real>)
      requires Valid()
      requires masterActionIndex.Some?
      requires |nextScores| == goalDim
      requires !episodeOver ==> agentAction < numActions
      modifies this, visitationCount
      ensures Valid()
      ensures masterActionIndex == old(masterActionIndex) && masterState == old(masterState)
      ensures masterReward == old(masterReward) + reward
      ensures masterPool ==
                if old(subTaskTerminal)
                then BoundedAppend(old(masterPool), poolSize,
                                   MasterTransition(masterState.value, masterActionIndex.value, masterReward,
                                                    nextState, episodeOver))
                else old(masterPool)
      ensures subTaskTurn == old(subTaskTurn) && action == old(action) && informDisease == old(informDisease)
      ensures visitationCount == old(visitationCount)
      ensures episodeOver ==>
                && lowerPool == old(lowerPool)
                && subTaskTerminal == old(subTaskTerminal) && intrinsicReward == old(intrinsicReward)
                && unchanged(visitationCount)
      ensures !episodeOver ==>
                var goal := masterActionIndex.value;
                var verdict := IntrinsicCritic(nextScores[goal], subTaskTurn);
                var goalVector := OneHot(goalDim, goal);
                var t := LowerTransition(Conditioned(state, goalVector), agentAction, verdict.intrinsicReward,
                                         Conditioned(nextState, goalVector), verdict.subTaskTerminate, goal);
                && subTaskTerminal == verdict.subTaskTerminate
                && intrinsicReward == verdict.intrinsicReward
                // a full pool loses exactly its oldest entry before the new one goes to the back
                && lowerPool == (if |old(lowerPool)| == poolSize then old(lowerPool)[1..] else old(lowerPool)) + [t]
    {
      var shaping := 0.0;
      var shapedReward := reward + shapingWeight * shaping;
      var goal := masterActionIndex.value;
      masterReward := masterReward + shapedReward;
      if subTaskTerminal {
        var m := MasterTransition(masterState.value, goal, masterReward, nextState, episodeOver);
        masterPool := BoundedAppend(masterPool, poolSize, m);
      }
      if !episodeOver {
        var verdict := IntrinsicCritic(nextScores[goal], subTaskTurn);
        subTaskTerminal := verdict.subTaskTerminate;
        intrinsicReward := verdict.intrinsicReward;
        var goalVector := OneHot(goalDim, goal);
        var t := LowerTransition(Conditioned(state, goalVector), agentAction, intrinsicReward,
                                 Conditioned(nextState, goalVector), subTaskTerminal, goal);
        StoreLowerTransition(t);
      }
    }

    /**
     * Appends `t` to the lower pool, evicting the oldest transition when the
     * pool is full, and updates the visitation counts in the same step: the
     * new transition's cell goes up by one, the evicted one's down by one.
     */
    method StoreLowerTransition(t: LowerTransition<S>)
      requires Valid()
      requires t.goal < goalDim && t.action < numActions
      modifies this`lowerPool, visitationCount
      ensures Valid()
      ensures lowerPool == (if |old(lowerPool)| == poolSize then old(lowerPool)[1..] else old(lowerPool)) + [t]
      ensures forall g, a :: 0 <= g < goalDim && 0 <= a < numActions ==>
                visitationCount[g, a] == old(visitationCount[g, a]) + Hit(t, g, a)
                  - (if |old(lowerPool)| == poolSize then Hit(old(lowerPool)[0], g, a) else 0)
    {
      ghost var before := lowerPool;
      visitationCount[t.goal, t.action] := visitationCount[t.goal, t.action] + 1;
      if |lowerPool| == poolSize {
        var evicted := lowerPool[0];
        lowerPool := lowerPool[1..];
        visitationCount[evicted.goal, evicted.action] := visitationCount[evicted.goal, evicted.action] - 1;
      }
      lowerPool := lowerPool + [t];
      assert lowerPool == BoundedAppend(before, poolSize, t);
      forall g, a | 0 <= g < goalDim && 0 <= a < numActions
        ensures visitationCount[g, a] == Count(lowerPool, g, a)
      {
        CountBoundedAppend(before, poolSize, t, g, a);
      }
    }

    /** Empties both pools and resets every visitation count to zero. */
    method FlushPool()
      requires Valid()
      modifies this
      ensures Valid() && fresh(visitationCount)
      ensures masterPool == [] && lowerPool == []
      ensures forall g, a :: 0 <= g < goalDim && 0 <= a < numActions ==> visitationCount[g, a] == 0
      ensures masterReward == old(masterReward) && subTaskTerminal == old(subTaskTerminal)
      ensures masterActionIndex == old(masterActionIndex) && masterState == old(masterState)
      ensures intrinsicReward == old(intrinsicReward) && subTaskTurn == old(subTaskTurn)
      ensures action == old(action) && informDisease == old(informDisease)
    {
      masterPool := [];
      lowerPool := [];
      visitationCount := new int[goalDim, numActions]((g, a) => 0);
    }

    /**
     * The master's training pass: one step per full batch the master pool
     * holds, each step's loss (`loss(i)` for step `i`) added to the Bellman
     * error it reports.
     */
    method TrainDqn(loss: nat -> real) returns (steps: nat, bellmanErr: real)
      requires 0 < batchSize
      // as many whole batches as the pool holds, so none when the pool is smaller than a batch
      ensures steps * batchSize <= |masterPool| < (steps + 1) * batchSize
      ensures steps == 0 <==> |masterPool| < batchSize
      ensures bellmanErr == TotalLoss(loss, steps)
    {
      var iterations := |masterPool| / batchSize;
      steps, bellmanErr := 0, 0.0;
      while steps < iterations
        invariant steps <= iterations
        invariant bellmanErr == TotalLoss(loss, steps)
      {
        bellmanErr := bellmanErr + loss(steps);
        steps := steps + 1;
      }
    }
  }
}
