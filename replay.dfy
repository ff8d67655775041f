/**
 * The replay pools of the hierarchical agent and the bookkeeping around
 * them: the transitions stored at each level, the bounded FIFO behaviour of
 * a `deque` with a `maxlen`, the one-hot goal vector, and the number of
 * stored lower transitions that pair a given goal with a given action.
 *
 * State feature vectors are opaque: a state of type `S` stands for its own
 * vectorisation, and a goal-conditioned feature vector is that state paired
 * with the goal's one-hot vector.
 */
module Replay {

  /** A state's features with the goal's one-hot vector appended. */
  datatype Conditioned<S> = Conditioned(features: S, goal: seq<int>)

  /** One master transition: the state when the goal was chosen, the goal, the master reward so far. */
  datatype MasterTransition<S> =
    MasterTransition(state: S, goal: nat, reward: real, nextState: S, episodeOver: bool)

  /** One lower transition, tagged with the goal it was taken under. */
  datatype LowerTransition<S> =
    LowerTransition(state: Conditioned<S>, action: nat, reward: real, nextState: Conditioned<S>,
                    subTaskTerminal: bool, goal: nat)

  /** The goal vector: zeros of length `n` with a single 1 at index `g`. */
  function OneHot(n: nat, g: nat): (v: seq<int>)
    requires g < n
    ensures |v| == n
    ensures v[g] == 1 && forall i :: 0 <= i < n && i != g ==> v[i] == 0
  {
    seq(n, i => if i == g then 1 else 0)
  }

  /** The position of the first 1 in `v`, if any: the goal a goal vector encodes. */
  function HotIndex(v: seq<int>): (r: nat)
    ensures r <= |v|
    ensures r < |v| ==> v[r] == 1
    ensures forall i :: 0 <= i < r ==> v[i] != 1
  {
    if v == [] then 0
    else if v[0] == 1 then 0
    else 1 + HotIndex(v[1..])
  }

  /** Decoding a goal vector gives back the goal it was built from. */
  lemma HotIndexOneHot(n: nat, g: nat)
    requires g < n
    ensures HotIndex(OneHot(n, g)) == g
  {
  }

  /**
   * Appending to a `deque` created with `maxlen`: once the deque is full the
   * oldest entry is dropped so that the length never exceeds `maxlen`.
   */
  function BoundedAppend<T>(q: seq<T>, maxlen: nat, x: T): (r: seq<T>)
    requires 0 < maxlen && |q| <= maxlen
    ensures 0 < |r| <= maxlen && r[|r| - 1] == x
    // while there is room nothing is lost
    ensures |q| < maxlen ==> r == q + [x]
    // a full deque loses exactly its oldest entry
    ensures |q| == maxlen ==> [q[0]] + r == q + [x]
  {
    if |q| == maxlen then q[1..] + [x] else q + [x]
  }

  /** 1 when transition `t` pairs goal `g` with action `a`, else 0. */
  function Hit<S>(t: LowerTransition<S>, g: nat, a: nat): nat
  {
    if t.goal == g && t.action == a then 1 else 0
  }

  /** How many transitions of `pool` pair goal `g` with action `a`. */
  function Count<S>(pool: seq<LowerTransition<S>>, g: nat, a: nat): (n: nat)
    ensures n <= |pool|
  {
    if pool == [] then 0 else Hit(pool[0], g, a) + Count(pool[1..], g, a)
  }

  /** A transition appended at the back adds its own hit to the count. */
  lemma {:induction false} CountAppend<S>(pool: seq<LowerTransition<S>>, t: LowerTransition<S>, g: nat, a: nat)
    ensures Count(pool + [t], g, a) == Count(pool, g, a) + Hit(t, g, a)
  {
    if pool == [] {
      assert pool + [t] == [t];
    } else {
      assert (pool + [t])[1..] == pool[1..] + [t];
      CountAppend(pool[1..], t, g, a);
    }
  }

  /**
   * The count after a bounded append: the new transition's hit is added and,
   * when the pool was full, the evicted oldest transition's hit is removed.
   */
  lemma CountBoundedAppend<S>(pool: seq<LowerTransition<S>>, maxlen: nat, t: LowerTransition<S>, g: nat, a: nat)
    requires 0 < maxlen && |pool| <= maxlen
    ensures Count(BoundedAppend(pool, maxlen, t), g, a)
            == Count(pool, g, a) + Hit(t, g, a) - (if |pool| == maxlen then Hit(pool[0], g, a) else 0)
  {
    if |pool| == maxlen {
      CountAppend(pool[1..], t, g, a);
    } else {
      CountAppend(pool, t, g, a);
    }
  }

  /** The counts of row `g` over actions `0 .. numActions - 1`, added up. */
  function RowTotal<S>(pool: seq<LowerTransition<S>>, g: nat, numActions: nat): nat
  {
    if numActions == 0 then 0 else RowTotal(pool, g, numActions - 1) + Count(pool, g, numActions - 1)
  }

  /** All counts of the `goalDim` by `numActions` grid, added up. */
  function GridTotal<S>(pool: seq<LowerTransition<S>>, goalDim: nat, numActions: nat): nat
  {
    if goalDim == 0 then 0 else GridTotal(pool, goalDim - 1, numActions) + RowTotal(pool, goalDim - 1, numActions)
  }

  /** Every transition of `pool` names a goal and an action inside the grid. */
  ghost predicate InGrid<S>(pool: seq<LowerTransition<S>>, goalDim: nat, numActions: nat)
  {
    forall i :: 0 <= i < |pool| ==> pool[i].goal < goalDim && pool[i].action < numActions
  }

  /** Removing the first transition lowers a row total by that transition's hits in the row. */
  lemma {:induction false} RowTotalDropFirst<S>(pool: seq<LowerTransition<S>>, g: nat, numActions: nat)
    requires pool != []
    ensures RowTotal(pool, g, numActions)
            == RowTotal(pool[1..], g, numActions)
               + (if pool[0].goal == g && pool[0].action < numActions then 1 else 0)
  {
    if numActions > 0 {
      RowTotalDropFirst(pool, g, numActions - 1);
    }
  }

  /** Removing the first transition lowers the grid total by one when it lies in the grid. */
  lemma {:induction false} GridTotalDropFirst<S>(pool: seq<LowerTransition<S>>, goalDim: nat, numActions: nat)
    requires pool != []
    ensures GridTotal(pool, goalDim, numActions)
            == GridTotal(pool[1..], goalDim, numActions)
               + (if pool[0].goal < goalDim && pool[0].action < numActions then 1 else 0)
  {
    if goalDim > 0 {
      GridTotalDropFirst(pool, goalDim - 1, numActions);
      RowTotalDropFirst(pool, goalDim - 1, numActions);
    }
  }

  /** An empty pool gives an all-zero grid. */
  lemma {:induction false} GridTotalEmpty<S>(pool: seq<LowerTransition<S>>, goalDim: nat, numActions: nat)
    requires pool == []
    ensures GridTotal(pool, goalDim, numActions) == 0
  {
    if goalDim > 0 {
      GridTotalEmpty(pool, goalDim - 1, numActions);
      RowTotalEmpty(pool, goalDim - 1, numActions);
    }
  }

  lemma {:induction false} RowTotalEmpty<S>(pool: seq<LowerTransition<S>>, g: nat, numActions: nat)
    requires pool == []
    ensures RowTotal(pool, g, numActions) == 0
  {
    if numActions > 0 {
      RowTotalEmpty(pool, g, numActions - 1);
    }
  }

  /**
   * When every stored transition lies in the grid, the counts add up to the
   * number of stored transitions: each one is counted in exactly one cell.
   */
  lemma {:induction false} GridTotalIsPoolSize<S>(pool: seq<LowerTransition<S>>, goalDim: nat, numActions: nat)
    requires InGrid(pool, goalDim, numActions)
    ensures GridTotal(pool, goalDim, numActions) == |pool|
  {
    if pool == [] {
      GridTotalEmpty(pool, goalDim, numActions);
    } else {
      GridTotalDropFirst(pool, goalDim, numActions);
      GridTotalIsPoolSize(pool[1..], goalDim, numActions);
    }
  }
}
