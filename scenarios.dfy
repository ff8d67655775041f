/**
 * Whole sessions driven through the agent's methods, with the critic's
 * scores, the goal choices and the rewards fixed in advance.
 */
module Scenarios {
  import opened Wrappers
  import opened Critic
  import opened Replay
  import opened Agent

  /**
   * Three goals, the same goal kept throughout, and a similarity of 0.5 on
   * every turn: no threshold is crossed, yet the turn cap ends the sub-task
   * when the fifth turn is recorded, with intrinsic reward -1.
   */
  method TurnCapScenario() returns (terminalBeforeCap: bool, terminal: bool, reward: real, turns: nat)
    ensures !terminalBeforeCap
    ensures terminal && reward == -1.0 && turns == 5
  {
    var agent := new AgentWithGoal<nat>(3, 2, 10, 16, 0.0, map[0 := "flu", 1 := "cold", 2 := "asthma"]);
    agent.Initialize();
    var scores := [0.5, 0.5, 0.5];
    var turn: nat := 0;
    while turn < 4
      invariant turn <= 4
      invariant agent.Valid() && agent.subTaskTerminal == (turn == 0) && agent.subTaskTurn == turn
      invariant turn > 0 ==> agent.masterActionIndex == Some(0)
      invariant agent.goalDim == 3 && agent.numActions == 2 && fresh(agent.visitationCount)
    {
      var d := agent.Next(turn, turn, scores, 0, 1);
      agent.RecordTrainingSample(turn, 1, 0.0, turn + 1, false, scores);
      turn := turn + 1;
    }
    terminalBeforeCap := agent.subTaskTerminal;
    var d := agent.Next(turn, turn, scores, 0, 1);
    agent.RecordTrainingSample(turn, 1, 0.0, turn + 1, false, scores);
    terminal, reward, turns := agent.subTaskTerminal, agent.intrinsicReward, agent.subTaskTurn;
  }

  /**
   * A session of three recorded turns with rewards `r1`, `r2`, `r3`: goal 0
   * for two turns, abandoned when its similarity drops to 0, then goal 1 for
   * a last turn that ends the episode. The master pool receives one entry
   * per goal, each written on the goal's first recorded turn, so the entries
   * carry `r1` and `r3`; the second turn's reward `r2` reaches no entry. The
   * lower pool holds the two turns before the episode ended, and the counts
   * show both under goal 0.
   */
  method MasterRewardScenario(r1: real, r2: real, r3: real)
    returns (masterRewards: seq<real>, masterGoals: seq<nat>, lowerSize: nat, goalZeroCount: int)
    ensures masterRewards == [r1, r3]
    ensures masterGoals == [0, 1]
    ensures lowerSize == 2
    ensures goalZeroCount == 2
  {
    var agent := new AgentWithGoal<nat>(3, 2, 10, 16, 0.0, map[0 := "flu", 1 := "cold", 2 := "asthma"]);
    agent.Initialize();
    var neutral := [0.5, 0.5, 0.5];
    var d := agent.Next(0, 0, neutral, 0, 1);
    agent.RecordTrainingSample(0, 1, r1, 1, false, neutral);
    assert agent.masterPool == [MasterTransition(0, 0, r1, 1, false)];
    assert !agent.subTaskTerminal;
    d := agent.Next(1, 1, neutral, 2, 1);
    agent.RecordTrainingSample(1, 1, r2, 2, false, [0.0, 0.5, 0.5]);
    assert agent.masterReward == r1 + r2 && agent.subTaskTerminal;
    d := agent.Next(2, 2, neutral, 1, 1);
    agent.RecordTrainingSample(2, 1, r3, 3, true, neutral);
    var pool := agent.masterPool;
    assert pool == [MasterTransition(0, 0, r1, 1, false), MasterTransition(2, 1, r3, 3, true)];
    masterRewards := [pool[0].reward, pool[1].reward];
    masterGoals := [pool[0].goal, pool[1].goal];
    var lower := agent.lowerPool;
    assert |lower| == 2 && lower[0].goal == 0 && lower[1].goal == 0 && lower[0].action == 1 && lower[1].action == 1;
    assert lower[1..][1..] == [];
    assert Count(lower[1..], 0, 1) == 1;
    assert Count(lower, 0, 1) == 2;
    lowerSize := |lower|;
    goalZeroCount := agent.visitationCount[0, 1];
  }
}
