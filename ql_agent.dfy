/** `QLearningAgent`: an epsilon-greedy tabular agent whose table has shape
    `state_size + (action_size,)`, stored row-major as numpy stores it. */
module QLearning {
  import opened Basics
  import opened Tables

  /** An array as `np.save` writes it and `np.load` reads it back. */
  datatype NpArray = NpArray(shape: seq<nat>, data: seq<real>)

  /** What looking for and loading the table file produced: no file, an
      exception while loading, or an array. */
  datatype Stored = Missing | Unreadable | Loaded(file: NpArray)

  predicate WellFormed(s: Stored)
  {
    s.Loaded? ==> |s.file.data| == Product(s.file.shape)
  }

  /** The table the constructor and `load_model` end up with: the stored
      array when its shape is the expected one, a fresh zero table otherwise. */
  function TableAfterLoad(expected: seq<nat>, s: Stored): (r: seq<real>)
    requires WellFormed(s)
    ensures |r| == Product(expected)
  {
    match s
    case Missing => Zeros(Product(expected))
    case Unreadable => Zeros(Product(expected))
    case Loaded(a) => if a.shape != expected then Zeros(Product(expected)) else a.data
  }

  /** One step of `_bound_state`: clamp into [0, size - 1]. */
  function Clamp(v: int, size: nat): int
  {
    var upper := if v < size - 1 then v else size - 1;
    if 0 > upper then 0 else upper
  }

  /** `_bound_state` as a value: `zip` stops at the shorter of the two. */
  function Bounded(state: seq<int>, dims: seq<nat>): (r: seq<int>)
    ensures |r| == if |state| < |dims| then |state| else |dims|
  {
    var n := if |state| < |dims| then |state| else |dims|;
    seq(n, i requires 0 <= i < n => Clamp(state[i], dims[i]))
  }

  /** The temporal-difference rule of `update_q_table` for one cell. */
  function TdValue(current: real, reward: real, nextMax: real, done: bool, lr: real, gamma: real): real
  {
    if done then reward else current + lr * (reward + gamma * nextMax - current)
  }

  /** `q_table[bounded_state]`, flattened: the row of action values for a
      full-length state, a larger block when the state is shorter. */
  function SelectedBlock(q: seq<real>, stateSize: seq<nat>, actionSize: nat, state: seq<int>): (r: seq<real>)
    requires AllPositive(stateSize) && actionSize > 0
    requires |q| == Product(stateSize + [actionSize])
    ensures |r| > 0
    ensures |state| >= |stateSize| ==> |r| == actionSize
  {
    var full := stateSize + [actionSize];
    BoundedInRange(state, stateSize, full);
    var s := Bounded(state, stateSize);
    assert AllPositive(full[|s|..]) by {
      forall i | 0 <= i < |full[|s|..]| ensures full[|s|..][i] > 0 {
        assert full[|s|..][i] == full[|s| + i];
      }
    }
    assert |state| >= |stateSize| ==> full[|s|..] == [actionSize];
    Block(q, full, s)
  }

  /** The greedy choice: the first maximal position of the selected block. */
  function Greedy(q: seq<real>, stateSize: seq<nat>, actionSize: nat, state: seq<int>): nat
    requires AllPositive(stateSize) && actionSize > 0
    requires |q| == Product(stateSize + [actionSize])
  {
    Argmax(SelectedBlock(q, stateSize, actionSize, state))
  }

  /** The whole table after `update_q_table`: the cells selected by the bounded
      state and the action get the TD value; an action outside its dimension
      is numpy's IndexError, which leaves the table as it was. */
  function TdUpdate(q: seq<real>, stateSize: seq<nat>, actionSize: nat, state: seq<int>, action: int,
                    reward: real, nextState: seq<int>, done: bool, lr: real, gamma: real): (r: seq<real>)
    requires AllPositive(stateSize) && actionSize > 0
    requires |q| == Product(stateSize + [actionSize])
    ensures |r| == |q|
  {
    var full := stateSize + [actionSize];
    var s := Bounded(state, stateSize);
    BoundedInRange(state, stateSize, full);
    var nextMax := Max(SelectedBlock(q, stateSize, actionSize, nextState));
    match NormalizeIndex(action, full[|s|])
    case None => q
    case Some(a) =>
      var idx := s + [a];
      assert InRange(full, idx);
      BlockFits(full, idx);
      UpdatedBlock(q, Offset(full, idx), BlockLen(full, idx), reward, nextMax, done, lr, gamma)
  }

  /** `q` with the TD rule applied to the `len` cells starting at `off`. */
  function UpdatedBlock(q: seq<real>, off: nat, len: nat, reward: real, nextMax: real, done: bool,
                        lr: real, gamma: real): (r: seq<real>)
    requires off + len <= |q|
    ensures |r| == |q|
    ensures forall j :: 0 <= j < |q| && !(off <= j < off + len) ==> r[j] == q[j]
    ensures forall j :: off <= j < off + len ==> r[j] == TdValue(q[j], reward, nextMax, done, lr, gamma)
  {
    q[..off] + seq(len, k requires 0 <= k < len => TdValue(q[off + k], reward, nextMax, done, lr, gamma))
      + q[off + len..]
  }

  /** `decay_exploration` as a value. */
  function Decayed(eps: real, decay: real, minEps: real): real
  {
    var next := eps * decay;
    if minEps >= next then minEps else next
  }

  /** The exploration rate after `n` episodes, each ending with one decay. */
  function DecayedN(eps: real, decay: real, minEps: real, n: nat): real
  {
    if n == 0 then eps else Decayed(DecayedN(eps, decay, minEps, n - 1), decay, minEps)
  }

  // ---------------------------------------------------------------------
  // Properties

  /** A bounded state indexes the table: a prefix of the state dimensions. */
  lemma BoundedInRange(state: seq<int>, stateSize: seq<nat>, full: seq<nat>)
    requires AllPositive(stateSize) && |full| > |stateSize| && full[..|stateSize|] == stateSize
    ensures InRange(full, Bounded(state, stateSize)) && |Bounded(state, stateSize)| < |full|
  {
    var r := Bounded(state, stateSize);
    forall i | 0 <= i < |r| ensures 0 <= r[i] < full[i] {
      assert full[i] == full[..|stateSize|][i];
    }
  }

  /** `_bound_state` keeps min(len(state), len(state_size)) components and puts
      each into [0, dim_size - 1]; in-range components are left alone. */
  lemma BoundedSpec(state: seq<int>, dims: seq<nat>)
    requires AllPositive(dims)
    ensures var r := Bounded(state, dims);
      InRange(dims, r) &&
      (forall i :: 0 <= i < |r| && 0 <= state[i] < dims[i] ==> r[i] == state[i]) &&
      (forall i :: 0 <= i < |r| && state[i] < 0 ==> r[i] == 0) &&
      (forall i :: 0 <= i < |r| && state[i] >= dims[i] ==> r[i] == dims[i] - 1)
  {
  }

  /** Bounding twice is bounding once. */
  lemma BoundedIdempotent(state: seq<int>, dims: seq<nat>)
    requires AllPositive(dims)
    ensures Bounded(Bounded(state, dims), dims) == Bounded(state, dims)
  {
    var r := Bounded(state, dims);
    assert forall i :: 0 <= i < |r| ==> Clamp(r[i], dims[i]) == r[i];
  }

  /** A load error, a missing file or a shape mismatch leaves an all-zero table
      of the expected shape; a matching array is taken as it is. */
  lemma LoadFallback(expected: seq<nat>, s: Stored)
    requires WellFormed(s)
    ensures var r := TableAfterLoad(expected, s);
      |r| == Product(expected) &&
      (s.Loaded? && s.file.shape == expected ==> r == s.file.data) &&
      (!(s.Loaded? && s.file.shape == expected) ==> forall j :: 0 <= j < |r| ==> r[j] == 0.0)
  {
  }

  /** Saving and loading the table gives back the same table. */
  lemma SaveLoadRoundTrip(shape: seq<nat>, q: seq<real>)
    requires |q| == Product(shape)
    ensures TableAfterLoad(shape, Loaded(NpArray(shape, q))) == q
  {
  }

  /** The greedy action is the first index of the maximum of the selected block;
      for a state at least as long as `state_size` that block is the row of
      `action_size` action values. */
  lemma GreedySpec(q: seq<real>, stateSize: seq<nat>, actionSize: nat, state: seq<int>)
    requires AllPositive(stateSize) && actionSize > 0
    requires |q| == Product(stateSize + [actionSize])
    ensures var row := SelectedBlock(q, stateSize, actionSize, state);
      var a := Greedy(q, stateSize, actionSize, state);
      a < |row| &&
      (forall j :: 0 <= j < |row| ==> row[j] <= row[a]) &&
      (forall j :: 0 <= j < a ==> row[j] < row[a]) &&
      (|state| >= |stateSize| ==> |row| == actionSize && a < actionSize)
  {
  }

  /** The TD target with done=True is exactly the reward, whatever the previous value. */
  lemma TerminalUpdateIsReward(current: real, other: real, reward: real, nextMax: real, lr: real, gamma: real)
    ensures TdValue(current, reward, nextMax, true, lr, gamma) == reward
    ensures TdValue(current, reward, nextMax, true, lr, gamma) == TdValue(other, reward, nextMax, true, lr, gamma)
  {
  }

  /** For a full-length state and an action in range (or a negative one that
      numpy wraps), exactly one cell changes: the one at (bounded state, action). */
  lemma {:induction false} UpdateChangesOneCell(q: seq<real>, stateSize: seq<nat>, actionSize: nat, state: seq<int>,
                                               action: int, reward: real, nextState: seq<int>, done: bool,
                                               lr: real, gamma: real)
    requires AllPositive(stateSize) && actionSize > 0
    requires |q| == Product(stateSize + [actionSize])
    requires |state| >= |stateSize|
    requires -(actionSize as int) <= action < actionSize
    ensures var full := stateSize + [actionSize];
      var a := if action < 0 then action + actionSize else action;
      var cell := Bounded(state, stateSize) + [a];
      var r := TdUpdate(q, stateSize, actionSize, state, action, reward, nextState, done, lr, gamma);
      InRange(full, cell) &&
      Offset(full, cell) < |q| &&
      (forall j :: 0 <= j < |q| && j != Offset(full, cell) ==> r[j] == q[j]) &&
      r[Offset(full, cell)] == TdValue(q[Offset(full, cell)], reward, Max(SelectedBlock(q, stateSize, actionSize, nextState)),
                                       done, lr, gamma)
  {
    var full := stateSize + [actionSize];
    var s := Bounded(state, stateSize);
    BoundedInRange(state, stateSize, full);
    BoundedInRange(nextState, stateSize, full);
    assert full[|s|] == actionSize;
    var a := if action < 0 then action + actionSize else action;
    var cell := s + [a];
    assert InRange(full, cell);
    assert full[|cell|..] == [];
    BlockFits(full, cell);
  }

  /** Distinct full indices address distinct cells, so the update leaves every
      other (state, action) entry unchanged. */
  lemma UpdateLeavesOtherEntries(q: seq<real>, stateSize: seq<nat>, actionSize: nat, state: seq<int>,
                                 action: int, reward: real, nextState: seq<int>, done: bool,
                                 lr: real, gamma: real, other: seq<int>)
    requires AllPositive(stateSize) && actionSize > 0
    requires |q| == Product(stateSize + [actionSize])
    requires |state| >= |stateSize| && 0 <= action < actionSize
    requires |other| == |stateSize| + 1 && InRange(stateSize + [actionSize], other)
    requires other != Bounded(state, stateSize) + [action]
    ensures var full := stateSize + [actionSize];
      Offset(full, other) < |q| &&
      TdUpdate(q, stateSize, actionSize, state, action, reward, nextState, done, lr, gamma)[Offset(full, other)]
        == q[Offset(full, other)]
  {
    var full := stateSize + [actionSize];
    BlockFits(full, other);
    assert full[|other|..] == [];
    UpdateChangesOneCell(q, stateSize, actionSize, state, action, reward, nextState, done, lr, gamma);
    var cell := Bounded(state, stateSize) + [action];
    OffsetInjective(full, other, cell);
  }

  /** An action numpy cannot index with raises IndexError, which
      `update_q_table` catches: the table is unchanged. */
  lemma BadActionLeavesTable(q: seq<real>, stateSize: seq<nat>, actionSize: nat, state: seq<int>,
                             action: int, reward: real, nextState: seq<int>, done: bool, lr: real, gamma: real)
    requires AllPositive(stateSize) && actionSize > 0
    requires |q| == Product(stateSize + [actionSize])
    requires |state| >= |stateSize|
    requires action >= actionSize || action < -(actionSize as int)
    ensures TdUpdate(q, stateSize, actionSize, state, action, reward, nextState, done, lr, gamma) == q
  {
    var full := stateSize + [actionSize];
    assert |Bounded(state, stateSize)| == |stateSize|;
    assert full[|stateSize|] == actionSize;
  }

  /** Zero table, learning rate 0.1, discount 0.95, reward 10, not done:
      the updated entry is 1.0. */
  lemma ZeroTableScenario(stateSize: seq<nat>, actionSize: nat, state: seq<int>, nextState: seq<int>)
    requires AllPositive(stateSize) && actionSize > 0
    requires |state| >= |stateSize|
    ensures var full := stateSize + [actionSize];
      var q := Zeros(Product(full));
      var cell := Bounded(state, stateSize) + [0];
      var r := TdUpdate(q, stateSize, actionSize, state, 0, 10.0, nextState, false, 0.1, 0.95);
      InRange(full, cell) && Offset(full, cell) < |r| && r[Offset(full, cell)] == 1.0
  {
    var full := stateSize + [actionSize];
    var q := Zeros(Product(full));
    UpdateChangesOneCell(q, stateSize, actionSize, state, 0, 10.0, nextState, false, 0.1, 0.95);
    BoundedInRange(nextState, stateSize, full);
    var row := Block(q, full, Bounded(nextState, stateSize));
    assert row == SelectedBlock(q, stateSize, actionSize, nextState);
    assert forall j :: 0 <= j < |row| ==> row[j] == 0.0;
    assert Max(row) == 0.0;
  }

  /** One decay never goes below the minimum, and for a decay factor in
      [0, 1] it never raises a rate that is already at or above the minimum. */
  lemma DecaySpec(eps: real, decay: real, minEps: real)
    ensures Decayed(eps, decay, minEps) >= minEps
    ensures Decayed(eps, decay, minEps) == minEps || Decayed(eps, decay, minEps) == eps * decay
    ensures 0.0 <= decay <= 1.0 && eps >= 0.0 && eps >= minEps ==> Decayed(eps, decay, minEps) <= eps
  {
    if 0.0 <= decay <= 1.0 && eps >= 0.0 {
      assert eps * decay <= eps * 1.0;
    }
  }

  /** Over any number of episodes the exploration rate is non-increasing and
      stays at or above the minimum. */
  lemma {:induction false} DecayedNSpec(eps: real, decay: real, minEps: real, n: nat)
    requires 0.0 <= decay <= 1.0 && eps >= 0.0 && eps >= minEps
    ensures DecayedN(eps, decay, minEps, n) >= minEps && DecayedN(eps, decay, minEps, n) >= 0.0
    ensures DecayedN(eps, decay, minEps, n + 1) <= DecayedN(eps, decay, minEps, n)
  {
    if n > 0 {
      DecayedNSpec(eps, decay, minEps, n - 1);
      var y := DecayedN(eps, decay, minEps, n - 1);
      MulNonNegative(y, decay);
    }
    var x := DecayedN(eps, decay, minEps, n);
    DecaySpec(x, decay, minEps);
  }

  lemma MulNonNegative(a: real, b: real)
    requires a >= 0.0 && b >= 0.0
    ensures a * b >= 0.0
  {
  }

  // ---------------------------------------------------------------------
  // The agent object

  class QLearningAgent {
    const stateSize: seq<nat>
    const actionSize: nat
    const learningRate: real
    const discountFactor: real
    var explorationRate: real
    const explorationDecay: real
    const minExplorationRate: real
    var qTable: array<real>

    function FullShape(): seq<nat>
    {
      stateSize + [actionSize]
    }

    ghost predicate Valid()
      reads this
    {
      AllPositive(stateSize) && actionSize > 0 && qTable.Length == Product(FullShape())
    }

    /** Builds the zero table, or adopts the stored one when it is there,
        loads, and has the expected shape. */
    constructor (stateSize: seq<nat>, actionSize: nat, stored: Stored,
                 learningRate: real := 0.1, discountFactor: real := 0.95, explorationRate: real := 0.5,
                 explorationDecay: real := 0.99, minExplorationRate: real := 0.01)
      requires AllPositive(stateSize) && actionSize > 0 && WellFormed(stored)
      ensures Valid() && fresh(qTable)
      ensures this.stateSize == stateSize && this.actionSize == actionSize
      ensures this.learningRate == learningRate && this.discountFactor == discountFactor
      ensures this.explorationRate == explorationRate && this.explorationDecay == explorationDecay
      ensures this.minExplorationRate == minExplorationRate
      ensures qTable[..] == TableAfterLoad(stateSize + [actionSize], stored)
    {
      this.stateSize := stateSize;
      this.actionSize := actionSize;
      this.learningRate := learningRate;
      this.discountFactor := discountFactor;
      this.explorationRate := explorationRate;
      this.explorationDecay := explorationDecay;
      this.minExplorationRate := minExplorationRate;
      var t := TableAfterLoad(stateSize + [actionSize], stored);
      qTable := new real[|t|](i requires 0 <= i < |t| => t[i]);
    }

    /** `_bound_state`. */
    method BoundState(state: seq<int>) returns (bounded: seq<int>)
      ensures bounded == Bounded(state, stateSize)
    {
      bounded := [];
      var i := 0;
      while i < |state| && i < |stateSize|
        invariant 0 <= i <= |state| && i <= |stateSize|
        invariant |bounded| == i
        invariant forall k :: 0 <= k < i ==> bounded[k] == Clamp(state[k], stateSize[k])
      {
        var dimVal: int, dimSize: int := state[i], stateSize[i];
        var upper := if dimVal < dimSize - 1 then dimVal else dimSize - 1;
        bounded := bounded + [if 0 > upper then 0 else upper];
        i := i + 1;
      }
    }

    /** `choose_action`: `explore` is the uniform draw compared with the
        exploration rate and `randomAction` the value `randint` would return. */
    method ChooseAction(state: seq<int>, explore: real, randomAction: int) returns (action: int)
      requires Valid()
      requires 0 <= randomAction < actionSize
      ensures explore < explorationRate ==> action == randomAction
      ensures explore >= explorationRate ==> action == Greedy(qTable[..], stateSize, actionSize, state)
      ensures 0 <= action && (|state| >= |stateSize| ==> action < actionSize)
    {
      if explore < explorationRate {
        return randomAction;
      }
      var bounded := BoundState(state);
      BoundedInRange(state, stateSize, FullShape());
      action := Argmax(Block(qTable[..], FullShape(), bounded));
      assert Block(qTable[..], FullShape(), bounded) == SelectedBlock(qTable[..], stateSize, actionSize, state);
      GreedySpec(qTable[..], stateSize, actionSize, state);
    }

    /** `update_q_table`, writing the selected cells of the table in place. */
    method UpdateQTable(state: seq<int>, action: int, reward: real, nextState: seq<int>, done: bool)
      requires Valid()
      modifies qTable
      ensures qTable[..] == TdUpdate(old(qTable[..]), stateSize, actionSize, state, action, reward, nextState,
                                     done, learningRate, discountFactor)
    {
      var full := FullShape();
      var s := BoundState(state);
      var ns := BoundState(nextState);
      BoundedInRange(state, stateSize, full);
      BoundedInRange(nextState, stateSize, full);
      var nextMax := Max(Block(qTable[..], full, ns));
      assert Block(qTable[..], full, ns) == SelectedBlock(qTable[..], stateSize, actionSize, nextState);
      var a := NormalizeIndex(action, full[|s|]);
      if a.None? {
        return;
      }
      var idx := s + [a.value];
      assert InRange(full, idx);
      var off, len := Offset(full, idx), BlockLen(full, idx);
      BlockFits(full, idx);
      ghost var q0 := qTable[..];
      WriteBlock(off, len, reward, nextMax, done);
      assert TdUpdate(q0, stateSize, actionSize, state, action, reward, nextState, done, learningRate, discountFactor)
        == UpdatedBlock(q0, off, len, reward, nextMax, done, learningRate, discountFactor);
    }

    /** The assignment through `state + (action,)`: every selected cell gets the TD value. */
    method WriteBlock(off: nat, len: nat, reward: real, nextMax: real, done: bool)
      requires off + len <= qTable.Length
      modifies qTable
      ensures qTable[..] == UpdatedBlock(old(qTable[..]), off, len, reward, nextMax, done, learningRate, discountFactor)
    {
      ghost var q0 := qTable[..];
      var j := off;
      while j < off + len
        invariant off <= j <= off + len
        invariant forall k :: 0 <= k < qTable.Length && !(off <= k < j) ==> qTable[k] == q0[k]
        invariant forall k :: off <= k < j ==> qTable[k] == TdValue(q0[k], reward, nextMax, done, learningRate, discountFactor)
      {
        var currentQ := qTable[j];
        if done {
          qTable[j] := reward;
        } else {
          qTable[j] := currentQ + learningRate * (reward + discountFactor * nextMax - currentQ);
        }
        j := j + 1;
      }
      assert qTable[..] == UpdatedBlock(q0, off, len, reward, nextMax, done, learningRate, discountFactor);
    }

    method DecayExploration()
      modifies this
      ensures explorationRate == Decayed(old(explorationRate), explorationDecay, minExplorationRate)
      ensures qTable == old(qTable)
    {
      var next := explorationRate * explorationDecay;
      explorationRate := if minExplorationRate >= next then minExplorationRate else next;
    }

    /** `save_model`: the array written to the table file. */
    method SaveModel() returns (saved: NpArray)
      requires Valid()
      ensures saved.shape == FullShape() && saved.data == qTable[..]
      ensures TableAfterLoad(FullShape(), Loaded(saved)) == qTable[..]
    {
      saved := NpArray(FullShape(), qTable[..]);
      SaveLoadRoundTrip(FullShape(), qTable[..]);
    }

    /** `load_model`: a missing or unreadable file, or an array of the wrong
        shape, gives a zero table. */
    method LoadModel(stored: Stored)
      requires Valid() && WellFormed(stored)
      modifies this
      ensures Valid() && fresh(qTable)
      ensures qTable[..] == TableAfterLoad(FullShape(), stored)
      ensures explorationRate == old(explorationRate)
    {
      var t := TableAfterLoad(FullShape(), stored);
      qTable := new real[|t|](i requires 0 <= i < |t| => t[i]);
    }
  }
}
