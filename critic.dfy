/**
 * The internal-critic gate of the hierarchical agent. The critic network
 * itself is not modelled: its similarity score for the active goal is an
 * input. The gate turns that score and the number of turns spent on the
 * current goal into three values: whether the sub-task is over, whether the
 * agent should declare the goal's disease, and the intrinsic reward.
 */
module Critic {

  /** Similarity above which the goal's disease is declared (strict). */
  const InformThreshold: real := 0.98
  /** Similarity below which the goal is abandoned (strict). */
  const AbandonThreshold: real := 0.001
  /** Largest number of turns a sub-task may last before it is cut off. */
  const MaxSubTaskTurn: int := 4

  datatype Verdict = Verdict(subTaskTerminate: bool, informDisease: bool, intrinsicReward: real)

  /**
   * The gate, written as the source writes it: defaults, then two
   * similarity branches that each overwrite all three values, then a turn
   * cap that overwrites only the termination flag and the reward. The
   * contract gives the same behaviour as a decision table.
   */
  function IntrinsicCritic(similarity: real, subTaskTurn: int): (v: Verdict)
    // the disease is declared exactly when the similarity clears the high threshold
    ensures v.informDisease <==> similarity > InformThreshold
    // the sub-task ends on either threshold or on the turn cap, and only then
    ensures v.subTaskTerminate <==>
              similarity > InformThreshold || similarity < AbandonThreshold || subTaskTurn > MaxSubTaskTurn
    // the turn cap overrides the reward of every branch
    ensures subTaskTurn > MaxSubTaskTurn ==> v.intrinsicReward == -1.0
    ensures subTaskTurn <= MaxSubTaskTurn && similarity > InformThreshold ==> v.intrinsicReward == similarity
    ensures subTaskTurn <= MaxSubTaskTurn && similarity < AbandonThreshold ==> v.intrinsicReward == 1.0 - similarity
    // between the thresholds and under the cap the defaults survive
    ensures subTaskTurn <= MaxSubTaskTurn && AbandonThreshold <= similarity <= InformThreshold ==>
              v == Verdict(false, false, 0.0)
  {
    var defaults := Verdict(false, false, 0.0);
    var afterHigh := if similarity > InformThreshold then Verdict(true, true, similarity) else defaults;
    var afterLow := if similarity < AbandonThreshold then Verdict(true, false, 1.0 - similarity) else afterHigh;
    if subTaskTurn > MaxSubTaskTurn
    then afterLow.(subTaskTerminate := true, intrinsicReward := -1.0)
    else afterLow
  }

  /** The boundary values: neither threshold fires on equality, and turn five is cut off. */
  lemma GateBoundaries(subTaskTurn: int)
    ensures subTaskTurn <= MaxSubTaskTurn ==> IntrinsicCritic(0.98, subTaskTurn) == Verdict(false, false, 0.0)
    ensures subTaskTurn <= MaxSubTaskTurn ==> IntrinsicCritic(0.001, subTaskTurn) == Verdict(false, false, 0.0)
    ensures IntrinsicCritic(0.5, 5) == Verdict(true, false, -1.0)
    ensures IntrinsicCritic(0.99, 5) == Verdict(true, true, -1.0)
  {
  }
}
