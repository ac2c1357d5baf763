/** `train_agent`: the Q-learning agent driven through episodes of the
    simulated intersection. The random draws, the arrivals and the running
    flag (cleared by the interrupt handler) are inputs indexed by
    (episode, step). */
module Training {
  import opened Basics
  import opened Tables
  import opened QLearning
  import opened Intersection
  import Schedule

  /** The table's state dimensions and the number of actions. */
  const StateSize: seq<nat> := [5, 5, 5, 5, 2, 5, 5, 5, 5]
  const ActionSize: nat := 2
  const LearningRate: real := 0.1
  const Discount: real := 0.95
  const InitialExploration: real := 0.5
  const ExplorationDecay: real := 0.99
  const MinExploration: real := 0.01

  /** The observation keys read into the state tuple, in tuple order; the
      fifth is the light bit. */
  const TupleKeys: seq<Key> := [KeyNorth, KeySouth, KeyEast, KeyWest, KeyLightNs, KeyEmergencyNs, KeyEmergencyEw,
                                   KeyNorthWait, KeySouthWait, KeyEastWait, KeyWestWait]
  const LightBit: nat := 4

  /** `min(4, v)`. */
  function Cap(v: nat): nat
  {
    if v < 4 then v else 4
  }

  /** The state tuple built from an observation dictionary: each count
      capped at 4, the light bit 1 exactly when `light_ns` is 1. */
  function Encode(obs: Counts): (r: seq<int>)
  {
    seq(|TupleKeys|, i requires 0 <= i < |TupleKeys| =>
      if i == LightBit then (if Get(obs, KeyLightNs) == 1 then 1 else 0) else Cap(Get(obs, TupleKeys[i])))
  }

  /** `max(0, min(1, action))`. */
  function ClampAction(a: int): (r: int)
    ensures r == 0 || r == 1
    ensures a == 0 || a == 1 ==> r == a
    ensures a < 0 ==> r == 0
    ensures a > 1 ==> r == 1
  {
    var upper := if 1 < a then 1 else a;
    if 0 > upper then 0 else upper
  }

  /** The random inputs of one step: the exploration draw, the exploring
      action `randint(0, 1)` and the spawn draws of the environment. */
  datatype Draws = Draws(explore: real, randomAction: bool, arrivals: Arrivals)

  /** Everything one step reads and writes: the environment's vehicles and
      lights, the agent's table (for state dimensions `dims`) and the
      current observation. */
  datatype World = World(vehicles: seq<Vehicle>, lights: Lights, dims: seq<nat>, q: seq<real>, obs: Counts)

  /** What one step produced. */
  datatype StepLog = StepLog(action: int, reward: real)

  /** When the model file is written. */
  datatype SaveEvent = AfterEpisode(episode: nat) | Final

  predicate TableOk(w: World)
  {
    AllPositive(w.dims) && |w.q| == Product(w.dims + [ActionSize])
  }

  /** The action the agent picks, clamped. */
  function StepAction(w: World, eps: real, d: Draws): int
    requires TableOk(w)
  {
    var chosen := if d.explore < eps then (if d.randomAction then 1 else 0)
                  else Greedy(w.q, w.dims, ActionSize, Encode(w.obs));
    ClampAction(chosen)
  }

  /** One iteration of the inner loop, as values. */
  function StepWorld(w: World, eps: real, d: Draws): (r: (World, StepLog))
    requires TableOk(w)
    ensures TableOk(r.0) && r.0.dims == w.dims
  {
    var st := Encode(w.obs);
    var action := StepAction(w, eps, d);
    var lights := LightsAfter(w.lights, action);
    var vs := Survivors(AdvanceAll(w.vehicles + Spawned(d.arrivals), lights));
    var obs := GetState(vs);
    var reward := Reward(vs, []);
    var q := TdUpdate(w.q, w.dims, ActionSize, st, action, reward, Encode(obs), false, LearningRate, Discount);
    (World(vs, lights, w.dims, q, obs), StepLog(action, reward))
  }

  /** Step `t` of episode `e` as a value: the step function of the episode's
      loop. A world whose table does not fit its dimensions never arises
      (`StepWorld` keeps the table's size); the function leaves one alone. */
  function StepFn(eps: real, e: nat, draws: (nat, nat) -> Draws): (World, nat) -> (World, StepLog)
  {
    (w: World, t: nat) => if TableOk(w) then StepWorld(w, eps, draws(e, t)) else (w, StepLog(0, 0.0))
  }

  /** The running flag as episode `e`'s step loop sees it. */
  function RunningIn(running: (nat, nat) -> bool, e: nat): nat -> bool
  {
    (t: nat) => running(e, t)
  }

  /** Steps `s`, `s + 1`, ... of episode `e`, stopping at `maxSteps` or at the
      first step that finds the running flag cleared. */
  function RunEpisode(w: World, eps: real, e: nat, s: nat, maxSteps: int,
                      running: (nat, nat) -> bool, draws: (nat, nat) -> Draws): (World, seq<StepLog>)
  {
    Schedule.Run(StepFn(eps, e, draws), w, s, maxSteps, RunningIn(running, e))
  }

  /** The environment after `reset`: no vehicles, the same lights. */
  function ResetWorld(w: World): World
  {
    w.(vehicles := [], obs := GetState([]))
  }

  /** Episode `e` as a value: reset, then the step loop exploring at the rate
      decayed `e` times. */
  function EpisodeFn(maxSteps: int, running: (nat, nat) -> bool, draws: (nat, nat) -> Draws)
    : (World, nat) -> (World, seq<StepLog>)
  {
    (w: World, e: nat) =>
      RunEpisode(ResetWorld(w), DecayedN(InitialExploration, ExplorationDecay, MinExploration, e), e, 0,
                 maxSteps, running, draws)
  }

  /** `for episode in range(episodes)` never leaves early. */
  function AlwaysRunning(): nat -> bool
  {
    _ => true
  }

  /** Episodes `e`, `e + 1`, ... up to `episodes`. */
  function TrainingRun(w: World, e: nat, episodes: nat, maxSteps: int,
                       running: (nat, nat) -> bool, draws: (nat, nat) -> Draws): (World, seq<seq<StepLog>>)
  {
    Schedule.Run(EpisodeFn(maxSteps, running, draws), w, e, episodes, AlwaysRunning())
  }

  /** The state before the first episode: a fresh environment and the table
      the constructor (or `load_model`) ends up with. */
  function InitialWorld(dims: seq<nat>, table: seq<real>): World
  {
    World([], Lights(Green, Red), dims, table, GetState([]))
  }

  /** Left-to-right sum of the step rewards, as `total_reward +=` adds them. */
  function Total(logs: seq<StepLog>): real
  {
    if logs == [] then 0.0 else Total(logs[..|logs| - 1]) + logs[|logs| - 1].reward
  }

  function Totals(episodes: seq<seq<StepLog>>): (r: seq<real>)
    ensures |r| == |episodes|
    ensures forall i :: 0 <= i < |episodes| ==> r[i] == Total(episodes[i])
  {
    seq(|episodes|, i requires 0 <= i < |episodes| => Total(episodes[i]))
  }

  /** The saves after episodes 0 .. n-1: after episode e when save_interval
      divides e + 1. */
  function IntervalSaves(n: nat, saveInterval: int): seq<SaveEvent>
    requires n == 0 || saveInterval != 0
  {
    if n == 0 then []
    else IntervalSaves(n - 1, saveInterval) + (if n % saveInterval == 0 then [AfterEpisode(n - 1)] else [])
  }

  function Count(n: int): nat
  {
    if n < 0 then 0 else n
  }

  // ---------------------------------------------------------------------
  // Properties

  /** Component i of the tuple is the entry for the i-th key, a missing key
      reading as 0: counts above 4 become 4, and the light bit is 0 or 1. */
  lemma EncodeSpec(obs: Counts)
    ensures var r := Encode(obs);
      |r| == |TupleKeys| &&
      (forall i :: 0 <= i < |r| && i != LightBit ==>
        0 <= r[i] <= 4 && (Get(obs, TupleKeys[i]) <= 4 ==> r[i] == Get(obs, TupleKeys[i]))
                       && (Get(obs, TupleKeys[i]) > 4 ==> r[i] == 4)) &&
      (r[LightBit] == 1 <==> Get(obs, KeyLightNs) == 1) &&
      (r[LightBit] == 0 || r[LightBit] == 1)
  {
  }

  /** The two observations the environment produces (after `reset` and after
      `step`) carry only the four direction counts: the light bit and the
      emergency and wait components are always 0. */
  lemma {:induction false} EncodeEnvironmentObservation(vs: seq<Vehicle>)
    ensures var r := Encode(GetState(vs));
      r[0] == Cap(CountDir(vs, North)) && r[1] == Cap(CountDir(vs, South)) &&
      r[2] == Cap(CountDir(vs, East)) && r[3] == Cap(CountDir(vs, West)) &&
      forall i :: LightBit <= i < |r| ==> r[i] == 0
  {
    var obs := GetState(vs);
    var r := Encode(obs);
    forall i | LightBit <= i < |r| ensures r[i] == 0 {
      assert TupleKeys[i] !in obs;
    }
  }

  /** The tuple has 11 components and the table 9 state dimensions: `zip`
      keeps the first nine, all of which are already in range, so the east and
      west wait components never reach the table. */
  lemma TableSeesFirstNine(obs: Counts)
    ensures Bounded(Encode(obs), StateSize) == Encode(obs)[..|StateSize|]
  {
    var r := Encode(obs);
    forall i | 0 <= i < |StateSize| ensures Clamp(r[i], StateSize[i]) == r[i] {
    }
  }

  /** The greedy choice on an 11-component tuple is already 0 or 1, so the
      clamp never changes the agent's choice. */
  lemma ClampKeepsChoice(w: World, eps: real, d: Draws)
    requires TableOk(w) && |w.dims| <= |TupleKeys|
    ensures var chosen := if d.explore < eps then (if d.randomAction then 1 else 0)
                          else Greedy(w.q, w.dims, ActionSize, Encode(w.obs));
      StepAction(w, eps, d) == chosen
  {
    GreedySpec(w.q, w.dims, ActionSize, Encode(w.obs));
  }

  /** Every step passes an action in {0, 1} to the environment and is
      rewarded at most 0. */
  lemma StepSpec(w: World, eps: real, d: Draws)
    requires TableOk(w)
    ensures var log := StepWorld(w, eps, d).1;
      (log.action == 0 || log.action == 1) && log.reward <= 0.0
  {
    RewardNonPositive(StepWorld(w, eps, d).0.vehicles);
  }

  /** A step the environment accepts (action 0 or 1) with a reward of at most 0. */
  predicate ValidStep(log: StepLog)
  {
    (log.action == 0 || log.action == 1) && log.reward <= 0.0
  }

  predicate ValidSteps(logs: seq<StepLog>)
  {
    forall i :: 0 <= i < |logs| ==> ValidStep(logs[i])
  }

  /** Every step of an episode passes an action in {0, 1} to the environment
      and is rewarded at most 0. */
  lemma EpisodeStepsValid(w: World, eps: real, e: nat, s: nat, maxSteps: int,
                          running: (nat, nat) -> bool, draws: (nat, nat) -> Draws)
    ensures ValidSteps(RunEpisode(w, eps, e, s, maxSteps, running, draws).1)
  {
    forall y: World, t: nat
      ensures ValidStep(StepFn(eps, e, draws)(y, t).1)
    {
      if TableOk(y) {
        StepSpec(y, eps, draws(e, t));
      }
    }
    Schedule.RunAll(StepFn(eps, e, draws), w, s, maxSteps, RunningIn(running, e), ValidStep);
  }

  /** An episode started at step `s` takes at most `maxSteps - s` steps, none
      when `s` is already at the bound, and exactly `maxSteps - s` when the
      running flag is never cleared. */
  lemma EpisodeLength(w: World, eps: real, e: nat, s: nat, maxSteps: int,
                      running: (nat, nat) -> bool, draws: (nat, nat) -> Draws)
    ensures var n := |RunEpisode(w, eps, e, s, maxSteps, running, draws).1|;
      (s < maxSteps ==> n <= maxSteps - s) && (s >= maxSteps ==> n == 0) &&
      ((forall t :: running(e, t)) && s <= maxSteps ==> n == maxSteps - s)
  {
    if forall t :: running(e, t) {
      assert forall t :: RunningIn(running, e)(t);
    }
    Schedule.RunLength(StepFn(eps, e, draws), w, s, maxSteps, RunningIn(running, e));
  }

  /** Every step taken found the running flag set, and unless the step bound
      ended the episode, the check after the last step found it cleared. */
  lemma EpisodeStopsAtFlag(w: World, eps: real, e: nat, s: nat, maxSteps: int,
                           running: (nat, nat) -> bool, draws: (nat, nat) -> Draws)
    ensures var n := |RunEpisode(w, eps, e, s, maxSteps, running, draws).1|;
      (forall t :: s <= t < s + n ==> running(e, t)) && (s + n < maxSteps ==> !running(e, s + n))
  {
    Schedule.RunStopsAtFlag(StepFn(eps, e, draws), w, s, maxSteps, RunningIn(running, e));
    var n := |RunEpisode(w, eps, e, s, maxSteps, running, draws).1|;
    forall t | s <= t < s + n
      ensures running(e, t)
    {
      assert RunningIn(running, e)(t);
    }
    assert s + n < maxSteps ==> !RunningIn(running, e)(s + n);
  }

  /** Rewards sum to at most 0 over an episode. */
  lemma {:induction false} TotalNonPositive(logs: seq<StepLog>)
    requires forall i :: 0 <= i < |logs| ==> logs[i].reward <= 0.0
    ensures Total(logs) <= 0.0
  {
    if logs != [] {
      TotalNonPositive(logs[..|logs| - 1]);
    }
  }

  /** Adding one more step adds its reward to the running total. */
  lemma TotalSnoc(logs: seq<StepLog>, log: StepLog)
    ensures Total(logs + [log]) == Total(logs) + log.reward
  {
    assert (logs + [log])[..|logs|] == logs;
  }

  /** One list of step logs per episode. */
  lemma TrainingRunLength(w: World, e: nat, episodes: nat, maxSteps: int,
                          running: (nat, nat) -> bool, draws: (nat, nat) -> Draws)
    requires e <= episodes
    ensures |TrainingRun(w, e, episodes, maxSteps, running, draws).1| == episodes - e
  {
    assert forall t :: AlwaysRunning()(t);
    Schedule.RunLength(EpisodeFn(maxSteps, running, draws), w, e, episodes, AlwaysRunning());
  }

  /** A finished episode whose steps were all valid and whose rewards sum to
      at most 0. */
  predicate ValidEpisode(logs: seq<StepLog>)
  {
    ValidSteps(logs) && Total(logs) <= 0.0
  }

  /** Over the whole training run every step is valid and every episode's
      total reward is at most 0. */
  lemma TrainingEpisodesValid(w: World, e: nat, episodes: nat, maxSteps: int,
                              running: (nat, nat) -> bool, draws: (nat, nat) -> Draws)
    ensures var run := TrainingRun(w, e, episodes, maxSteps, running, draws).1;
      forall i :: 0 <= i < |run| ==> ValidEpisode(run[i])
  {
    forall y: World, t: nat
      ensures ValidEpisode(EpisodeFn(maxSteps, running, draws)(y, t).1)
    {
      var eps := DecayedN(InitialExploration, ExplorationDecay, MinExploration, t);
      var logs := RunEpisode(ResetWorld(y), eps, t, 0, maxSteps, running, draws).1;
      EpisodeStepsValid(ResetWorld(y), eps, t, 0, maxSteps, running, draws);
      TotalNonPositive(logs);
    }
    Schedule.RunAll(EpisodeFn(maxSteps, running, draws), w, e, episodes, AlwaysRunning(), ValidEpisode);
  }

  /** The model is written after episode e exactly when save_interval
      divides e + 1. */
  lemma {:induction false} IntervalSavesSpec(n: nat, saveInterval: int, e: nat)
    requires saveInterval != 0
    ensures AfterEpisode(e) in IntervalSaves(n, saveInterval) <==> e < n && (e + 1) % saveInterval == 0
    ensures Final !in IntervalSaves(n, saveInterval)
  {
    if n > 0 {
      IntervalSavesSpec(n - 1, saveInterval, e);
    }
  }

  /** With save_interval 1 every episode is saved, in order. */
  lemma {:induction false} SaveEveryEpisode(n: nat)
    ensures |IntervalSaves(n, 1)| == n
    ensures forall i :: 0 <= i < n ==> IntervalSaves(n, 1)[i] == AfterEpisode(i)
  {
    if n > 0 {
      SaveEveryEpisode(n - 1);
    }
  }

  /** The running flag cleared before an episode's first step: the episode
      takes no step and records reward 0, yet the training run goes on with
      the next episode. */
  lemma InterruptedEpisode(w: World, e: nat, episodes: nat, maxSteps: int,
                           running: (nat, nat) -> bool, draws: (nat, nat) -> Draws)
    requires e < episodes && !running(e, 0)
    ensures var r := TrainingRun(w, e, episodes, maxSteps, running, draws);
      var rest := TrainingRun(ResetWorld(w), e + 1, episodes, maxSteps, running, draws);
      r.1 == [[]] + rest.1 && r.0 == rest.0 && Total(r.1[0]) == 0.0
  {
    var eps := DecayedN(InitialExploration, ExplorationDecay, MinExploration, e);
    assert !RunningIn(running, e)(0);
    Schedule.RunStopped(StepFn(eps, e, draws), ResetWorld(w), 0, maxSteps, RunningIn(running, e));
    assert AlwaysRunning()(e);
  }

  // ---------------------------------------------------------------------
  // The training loop

  /** The agent `train_agent` builds, whatever its state dimensions. */
  ghost predicate Configured(agent: QLearningAgent)
    reads agent
  {
    agent.Valid() && agent.actionSize == ActionSize &&
    agent.learningRate == LearningRate && agent.discountFactor == Discount &&
    agent.explorationDecay == ExplorationDecay && agent.minExplorationRate == MinExploration
  }

  /** Environment and agent hold the state `w` describes. */
  ghost predicate Holds(env: VirtualIntersection, agent: QLearningAgent, w: World)
    reads env, agent, agent.qTable
  {
    TableOk(w) && env.vehicles == w.vehicles && env.lights == w.lights &&
    agent.stateSize == w.dims && agent.qTable[..] == w.q
  }

  /** One iteration of the step loop: encode, choose, clamp, step, encode,
      update. */
  method TrainStep(env: VirtualIntersection, agent: QLearningAgent, state: Counts, d: Draws,
                   ghost w: World, ghost next: (World, StepLog))
    returns (nextState: Counts, reward: real, done: bool)
    requires env.Valid() && Configured(agent)
    requires Holds(env, agent, w) && state == w.obs
    requires next == StepWorld(w, agent.explorationRate, d)
    modifies env, agent.qTable
    ensures env.Valid()
    ensures Holds(env, agent, next.0) && nextState == next.0.obs && reward == next.1.reward && !done
  {
    var stateTuple := Encode(state);
    var action := agent.ChooseAction(stateTuple, d.explore, if d.randomAction then 1 else 0);
    action := ClampAction(action);
    nextState, reward, done := env.Step(action, d.arrivals);
    var nextStateTuple := Encode(nextState);
    agent.UpdateQTable(stateTuple, action, reward, nextStateTuple, done);
  }

  /** One pass of the step loop: the step, and its reward added to the
      episode's total. */
  method EpisodeIteration(env: VirtualIntersection, agent: QLearningAgent, episode: nat, step: nat, maxSteps: int,
                          running: (nat, nat) -> bool, draws: (nat, nat) -> Draws,
                          ghost run: (World, seq<StepLog>), ghost logs: seq<StepLog>, ghost w: World,
                          state: Counts, totalReward: real)
    returns (ghost logs': seq<StepLog>, ghost w': World, state': Counts, totalReward': real, done: bool)
    requires step < maxSteps && running(episode, step)
    requires env.Valid() && Configured(agent) && Holds(env, agent, w) && state == w.obs
    requires Schedule.Progress(StepFn(agent.explorationRate, episode, draws), run, logs, w, step, maxSteps,
                               RunningIn(running, episode))
    requires totalReward == Total(logs)
    modifies env, agent.qTable
    ensures env.Valid() && Holds(env, agent, w') && state' == w'.obs && !done
    ensures Schedule.Progress(StepFn(agent.explorationRate, episode, draws), run, logs', w', step + 1, maxSteps,
                              RunningIn(running, episode))
    ensures totalReward' == Total(logs')
  {
    ghost var f := StepFn(agent.explorationRate, episode, draws);
    ghost var next := StepWorld(w, agent.explorationRate, draws(episode, step));
    assert f(w, step) == next;
    assert RunningIn(running, episode)(step);
    Schedule.ProgressAdvance(f, run, logs, w, step, maxSteps, RunningIn(running, episode));
    TotalSnoc(logs, next.1);
    var reward;
    state', reward, done := TrainStep(env, agent, state, draws(episode, step), w, next);
    totalReward' := totalReward + reward;
    logs' := logs + [next.1];
    w' := next.0;
  }

  /** One episode: `reset`, then steps until `maxSteps`, a cleared running
      flag or `done`; `logs` are the steps taken. */
  method TrainEpisode(env: VirtualIntersection, agent: QLearningAgent, episode: nat, maxSteps: int,
                      running: (nat, nat) -> bool, draws: (nat, nat) -> Draws,
                      ghost w: World, ghost run: (World, seq<StepLog>))
    returns (totalReward: real, ghost logs: seq<StepLog>)
    requires env.Valid() && Configured(agent) && Holds(env, agent, w)
    requires run == RunEpisode(ResetWorld(w), agent.explorationRate, episode, 0, maxSteps, running, draws)
    modifies env, agent.qTable
    ensures env.Valid()
    ensures Holds(env, agent, run.0) && logs == run.1 && totalReward == Total(run.1)
  {
    var eps := agent.explorationRate;
    var state := env.Reset();
    ghost var ws := ResetWorld(w);
    ghost var f := StepFn(eps, episode, draws);
    Schedule.ProgressStart(f, ws, 0, maxSteps, RunningIn(running, episode));
    logs := [];
    totalReward := 0.0;
    var step := 0;
    var done := false;
    while step < maxSteps && running(episode, step) && !done
      invariant 0 <= step && !done
      invariant env.Valid() && Holds(env, agent, ws) && state == ws.obs
      invariant Schedule.Progress(f, run, logs, ws, step, maxSteps, RunningIn(running, episode))
      invariant totalReward == Total(logs)
      decreases maxSteps - step
    {
      logs, ws, state, totalReward, done :=
        EpisodeIteration(env, agent, episode, step, maxSteps, running, draws, run, logs, ws, state, totalReward);
      step := step + 1;
    }
    assert step < maxSteps ==> !RunningIn(running, episode)(step);
    Schedule.ProgressFinished(f, run, logs, ws, step, maxSteps, RunningIn(running, episode));
  }

  /** A finished episode appends its total to the list of totals. */
  lemma TotalsSnoc(finished: seq<seq<StepLog>>, logs: seq<StepLog>)
    ensures Totals(finished + [logs]) == Totals(finished) + [Total(logs)]
  {
  }

  /** The save after episode `episode`: the model is written when
      `saveInterval` divides `episode + 1`. */
  method SaveIfDue(agent: QLearningAgent, episode: nat, saveInterval: int, saves: seq<SaveEvent>)
    returns (after: seq<SaveEvent>)
    requires agent.Valid() && saveInterval != 0 && saves == IntervalSaves(episode, saveInterval)
    ensures after == IntervalSaves(episode + 1, saveInterval)
  {
    after := saves;
    if (episode + 1) % saveInterval == 0 {
      var saved := agent.SaveModel();
      after := after + [AfterEpisode(episode)];
    }
  }

  /** The episode loop before episode `episode`: environment and agent hold
      `ws`, the rate has decayed `episode` times, and `finished`, the totals
      and the saves cover the episodes done so far of the run `full`. */
  ghost predicate TrainingState(env: VirtualIntersection, agent: QLearningAgent, episode: nat, episodes: nat,
                                maxSteps: int, saveInterval: int, running: (nat, nat) -> bool,
                                draws: (nat, nat) -> Draws, full: (World, seq<seq<StepLog>>),
                                finished: seq<seq<StepLog>>, ws: World,
                                totalRewards: seq<real>, saves: seq<SaveEvent>)
    reads env, agent, agent.qTable
  {
    env.Valid() && Configured(agent) && Holds(env, agent, ws) &&
    agent.explorationRate == DecayedN(InitialExploration, ExplorationDecay, MinExploration, episode) &&
    Schedule.Progress(EpisodeFn(maxSteps, running, draws), full, finished, ws, episode, episodes, AlwaysRunning()) &&
    totalRewards == Totals(finished) &&
    (episode == 0 || saveInterval != 0) && saves == IntervalSaves(episode, saveInterval)
  }

  /** One pass of the episode loop: the episode, the decay of the
      exploration rate, the episode's total and the save when it is due. */
  method TrainIteration(env: VirtualIntersection, agent: QLearningAgent, episode: nat, episodes: nat, maxSteps: int,
                        saveInterval: int, running: (nat, nat) -> bool, draws: (nat, nat) -> Draws,
                        ghost full: (World, seq<seq<StepLog>>), ghost finished: seq<seq<StepLog>>,
                        ghost w: World, totalRewards: seq<real>, saves: seq<SaveEvent>)
    returns (ghost finished': seq<seq<StepLog>>, ghost w': World, totalRewards': seq<real>, saves': seq<SaveEvent>)
    requires episode < episodes && saveInterval != 0
    requires TrainingState(env, agent, episode, episodes, maxSteps, saveInterval, running, draws,
                           full, finished, w, totalRewards, saves)
    modifies env, agent, agent.qTable
    ensures agent.qTable == old(agent.qTable)
    ensures TrainingState(env, agent, episode + 1, episodes, maxSteps, saveInterval, running, draws,
                          full, finished', w', totalRewards', saves')
  {
    ghost var g := EpisodeFn(maxSteps, running, draws);
    ghost var run := RunEpisode(ResetWorld(w), agent.explorationRate, episode, 0, maxSteps, running, draws);
    assert g(w, episode) == run;
    assert AlwaysRunning()(episode);
    Schedule.ProgressAdvance(g, full, finished, w, episode, episodes, AlwaysRunning());
    var totalReward, logs := TrainEpisode(env, agent, episode, maxSteps, running, draws, w, run);
    agent.DecayExploration();
    TotalsSnoc(finished, logs);
    totalRewards' := totalRewards + [totalReward];
    saves' := SaveIfDue(agent, episode, saveInterval, saves);
    finished' := finished + [logs];
    w' := run.0;
  }

  /** The episode loop of `train_agent`: `episodes` episodes, decaying the
      exploration rate after each and saving when `saveInterval` divides the
      episode number plus one. It carries the loop state from before the
      first episode to after the last. */
  method TrainEpisodes(env: VirtualIntersection, agent: QLearningAgent, episodes: int, maxSteps: int, saveInterval: int,
                       running: (nat, nat) -> bool, draws: (nat, nat) -> Draws,
                       ghost full: (World, seq<seq<StepLog>>), ghost w: World)
    returns (totalRewards: seq<real>, saves: seq<SaveEvent>, ghost finished: seq<seq<StepLog>>, ghost ws: World)
    requires episodes <= 0 || saveInterval != 0
    requires TrainingState(env, agent, 0, Count(episodes), maxSteps, saveInterval, running, draws, full, [], w, [], [])
    modifies env, agent, agent.qTable
    ensures agent.qTable == old(agent.qTable)
    ensures TrainingState(env, agent, Count(episodes), Count(episodes), maxSteps, saveInterval, running, draws,
                          full, finished, ws, totalRewards, saves)
  {
    var n := Count(episodes);
    finished := [];
    ws := w;
    totalRewards := [];
    saves := [];
    var episode := 0;
    while episode < episodes
      invariant 0 <= episode <= n
      invariant agent.qTable == old(agent.qTable)
      invariant TrainingState(env, agent, episode, n, maxSteps, saveInterval, running, draws,
                              full, finished, ws, totalRewards, saves)
    {
      finished, ws, totalRewards, saves :=
        TrainIteration(env, agent, episode, n, maxSteps, saveInterval, running, draws,
                       full, finished, ws, totalRewards, saves);
      episode := episode + 1;
    }
  }

  /** `train_agent`. `atStart` is what the agent's constructor finds at the
      table path, `atLoad` what `load_model` finds when `loadModel` is set. */
  method TrainAgent(episodes: int, maxSteps: int, saveInterval: int, loadModel: bool, atStart: Stored, atLoad: Stored,
                    running: (nat, nat) -> bool, draws: (nat, nat) -> Draws)
    returns (agent: QLearningAgent, totalRewards: seq<real>, saves: seq<SaveEvent>)
    requires WellFormed(atStart) && WellFormed(atLoad)
    requires episodes <= 0 || saveInterval != 0
    ensures Configured(agent) && agent.stateSize == StateSize
    ensures agent.explorationRate == DecayedN(InitialExploration, ExplorationDecay, MinExploration, Count(episodes))
    ensures saves == IntervalSaves(Count(episodes), saveInterval) + [Final]
    ensures var table := TableAfterLoad(agent.stateSize + [ActionSize], if loadModel then atLoad else atStart);
      var run := TrainingRun(InitialWorld(agent.stateSize, table), 0, Count(episodes), maxSteps, running, draws);
      totalRewards == Totals(run.1) && agent.qTable[..] == run.0.q
  {
    var env := new VirtualIntersection();
    agent := new QLearningAgent(StateSize, ActionSize, atStart, explorationRate := InitialExploration,
                                explorationDecay := ExplorationDecay);
    if loadModel {
      agent.LoadModel(atLoad);
    }
    ghost var w := InitialWorld(agent.stateSize, TableAfterLoad(agent.stateSize + [ActionSize], if loadModel then atLoad else atStart));
    ghost var g := EpisodeFn(maxSteps, running, draws);
    ghost var full := TrainingRun(w, 0, Count(episodes), maxSteps, running, draws);
    Schedule.ProgressStart(g, w, 0, Count(episodes), AlwaysRunning());
    ghost var finished, ws;
    totalRewards, saves, finished, ws := TrainEpisodes(env, agent, episodes, maxSteps, saveInterval, running, draws, full, w);
    Schedule.ProgressFinished(g, full, finished, ws, Count(episodes), Count(episodes), AlwaysRunning());
    var saved := agent.SaveModel();
    saves := saves + [Final];
  }
}
