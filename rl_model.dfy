/** `TrafficRLAgent`: a second tabular agent with a fixed table of shape
    (5, 5, 5, 5, 2, 2), indexed by four binned counts, an emergency bit and
    the action. */
module RlModel {
  import opened Basics
  import opened Tables
  import QLearning

  /** The table shape: four count bins, the emergency bit, two actions. */
  const Shape: seq<nat> := [5, 5, 5, 5, 2, 2]
  /** The state part of the shape. */
  const StateShape: seq<nat> := [5, 5, 5, 5, 2]
  const ActionSize: nat := 2
  /** Vehicles per bin. */
  const BinSize: nat := 5
  const TopBin: nat := 4
  const LearningRate: real := 0.1
  const DiscountFactor: real := 0.95
  /** The exploration probability. */
  const Epsilon: real := 0.1

  /** One count component: `min(count // 5, 4)`. */
  function Bin(count: nat): nat
  {
    if count / BinSize < TopBin then count / BinSize else TopBin
  }

  /** `get_state`: four binned counts and the emergency bit, which is 1 exactly
      when the counts carry a truthy (non-zero) `emergency` entry. */
  function GetState(counts: Counts): (r: seq<int>)
    ensures |r| == 5
    ensures r[0] == Bin(Get(counts, KeyNorth)) && r[1] == Bin(Get(counts, KeySouth))
    ensures r[2] == Bin(Get(counts, KeyEast)) && r[3] == Bin(Get(counts, KeyWest))
    ensures r[4] == (if Get(counts, KeyEmergency) != 0 then 1 else 0)
    ensures InRange(StateShape, r) && InRange(Shape, r)
  {
    [Bin(Get(counts, KeyNorth)), Bin(Get(counts, KeySouth)), Bin(Get(counts, KeyEast)), Bin(Get(counts, KeyWest)),
     if Get(counts, KeyEmergency) != 0 then 1 else 0]
  }

  /** The new value of the updated cell, written as `update_model` writes it. */
  function Blend(current: real, reward: real, maxFuture: real, lr: real, gamma: real): real
  {
    (1.0 - lr) * current + lr * (reward + gamma * maxFuture)
  }

  /** The cell of `state + (action,)` in the flat table. */
  function Cell(state: seq<int>, action: nat): (r: nat)
    requires |state| == 5 && InRange(StateShape, state) && action < ActionSize
    ensures r < Product(Shape)
    ensures InRange(Shape, state + [action])
  {
    var idx := state + [action];
    assert InRange(Shape, idx);
    BlockFits(Shape, idx);
    assert Shape[|idx|..] == [];
    Offset(Shape, idx)
  }

  /** The action values of a state: the last axis of the table. */
  function Row(q: seq<real>, state: seq<int>): (r: seq<real>)
    requires |q| == Product(Shape) && |state| == 5 && InRange(StateShape, state)
    ensures |r| == ActionSize
  {
    assert InRange(Shape, state);
    assert Shape[|state|..] == [2];
    Block(q, Shape, state)
  }

  /** The table after `update_model`: one cell blended with the target. */
  function ModelUpdate(q: seq<real>, state: seq<int>, action: nat, reward: real, nextState: seq<int>,
                       lr: real, gamma: real): (r: seq<real>)
    requires |q| == Product(Shape)
    requires |state| == 5 && InRange(StateShape, state) && action < ActionSize
    requires |nextState| == 5 && InRange(StateShape, nextState)
    ensures |r| == |q|
    ensures r[Cell(state, action)] == Blend(q[Cell(state, action)], reward, Max(Row(q, nextState)), lr, gamma)
    ensures forall j :: 0 <= j < |q| && j != Cell(state, action) ==> r[j] == q[j]
  {
    var c := Cell(state, action);
    q[c := Blend(q[c], reward, Max(Row(q, nextState)), lr, gamma)]
  }

  // ---------------------------------------------------------------------
  // Properties

  /** A bin is in [0, 4], it is the `// 5` bucket below the top bin, and
      everything from 20 vehicles on lands in the top bin. */
  lemma BinSpec(count: nat)
    ensures 0 <= Bin(count) <= TopBin
    ensures Bin(count) < TopBin ==> BinSize * Bin(count) <= count < BinSize * Bin(count) + BinSize
    ensures Bin(count) == TopBin <==> count >= BinSize * TopBin
  {
  }

  /** Binning is monotone in the raw count. */
  lemma BinMonotone(a: nat, b: nat)
    requires a <= b
    ensures Bin(a) <= Bin(b)
  {
    assert a / BinSize <= b / BinSize;
  }

  /** A missing key reads as 0, so empty counts give the all-zero state. */
  lemma GetStateEmpty()
    ensures GetState(map[]) == [0, 0, 0, 0, 0]
  {
  }

  /** More vehicles in every direction never gives a lower bin. */
  lemma GetStateMonotone(c1: Counts, c2: Counts)
    requires forall k :: k in c1 ==> k in c2 && c1[k] <= c2[k]
    ensures forall i :: 0 <= i < 4 ==> GetState(c1)[i] <= GetState(c2)[i]
  {
    BinMonotone(Get(c1, KeyNorth), Get(c2, KeyNorth));
    BinMonotone(Get(c1, KeySouth), Get(c2, KeySouth));
    BinMonotone(Get(c1, KeyEast), Get(c2, KeyEast));
    BinMonotone(Get(c1, KeyWest), Get(c2, KeyWest));
  }

  /** `(1-α)·old + α·target` is `old + α·(target - old)`, the rule of the other
      agent with done=False. */
  lemma BlendIsTd(current: real, reward: real, maxFuture: real, lr: real, gamma: real)
    ensures Blend(current, reward, maxFuture, lr, gamma)
         == current + lr * ((reward + gamma * maxFuture) - current)
    ensures Blend(current, reward, maxFuture, lr, gamma)
         == QLearning.TdValue(current, reward, maxFuture, false, lr, gamma)
  {
  }

  /** Different (state, action) pairs are different cells, so an update leaves
      every other entry alone. */
  lemma UpdateLeavesOtherEntries(q: seq<real>, state: seq<int>, action: nat, reward: real, nextState: seq<int>,
                                 lr: real, gamma: real, other: seq<int>, otherAction: nat)
    requires |q| == Product(Shape)
    requires |state| == 5 && InRange(StateShape, state) && action < ActionSize
    requires |nextState| == 5 && InRange(StateShape, nextState)
    requires |other| == 5 && InRange(StateShape, other) && otherAction < ActionSize
    requires other + [otherAction] != state + [action]
    ensures ModelUpdate(q, state, action, reward, nextState, lr, gamma)[Cell(other, otherAction)]
         == q[Cell(other, otherAction)]
  {
    OffsetInjective(Shape, other + [otherAction], state + [action]);
  }

  // ---------------------------------------------------------------------
  // The agent object

  class TrafficRLAgent {
    var qTable: array<real>
    const learningRate: real
    const discountFactor: real
    const epsilon: real

    ghost predicate Valid()
      reads this
    {
      qTable.Length == Product(Shape)
    }

    /** The arguments are accepted and ignored: the table is always the zero
        table of the fixed shape. */
    constructor (stateSize: int := 5, actionSize: int := 2)
      ensures Valid() && fresh(qTable)
      ensures qTable[..] == Zeros(Product(Shape))
      ensures learningRate == LearningRate && discountFactor == DiscountFactor && epsilon == Epsilon
    {
      learningRate := LearningRate;
      discountFactor := DiscountFactor;
      epsilon := Epsilon;
      qTable := new real[Product(Shape)](_ => 0.0);
    }

    /** `choose_action`: `draw` is `np.random.rand()`, `randomChoice` what
        `np.random.choice(2)` would return. Exploring when the draw is at most
        epsilon; otherwise the first maximal action of the row. */
    method ChooseAction(state: seq<int>, draw: real, randomChoice: nat) returns (action: nat)
      requires Valid() && |state| == 5 && InRange(StateShape, state)
      requires randomChoice < ActionSize
      ensures action < ActionSize
      ensures draw <= epsilon ==> action == randomChoice
      ensures draw > epsilon ==> action == Argmax(Row(qTable[..], state))
      ensures draw > epsilon ==> forall b :: 0 <= b < ActionSize ==> Row(qTable[..], state)[b] <= Row(qTable[..], state)[action]
      ensures draw > epsilon && action == 1 ==> Row(qTable[..], state)[0] < Row(qTable[..], state)[1]
    {
      if draw <= epsilon {
        return randomChoice;
      }
      action := Argmax(Row(qTable[..], state));
    }

    /** `update_model`, assigning the blended value into the table in place. */
    method UpdateModel(state: seq<int>, action: nat, reward: real, nextState: seq<int>)
      requires Valid()
      requires |state| == 5 && InRange(StateShape, state) && action < ActionSize
      requires |nextState| == 5 && InRange(StateShape, nextState)
      modifies qTable
      ensures qTable[..] == ModelUpdate(old(qTable[..]), state, action, reward, nextState, learningRate, discountFactor)
    {
      ghost var q0 := qTable[..];
      var c := Cell(state, action);
      var currentQ := qTable[c];
      var maxFutureQ := Max(Row(qTable[..], nextState));
      var newQ := Blend(currentQ, reward, maxFutureQ, learningRate, discountFactor);
      qTable[c] := newQ;
      assert qTable[..] == q0[c := newQ];
    }
  }
}
