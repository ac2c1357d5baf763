/** `run_simulation`: five episodes of at most 200 steps on the simulated
    intersection. The binned-count agent chooses each action when it could
    be imported; otherwise a fixed traffic rule does. The random draws, the
    interrupt handler's running flag (read before each episode and before
    each step) and whether the plotting call raises at a given step are
    inputs. */
module Simulation {
  import opened Basics
  import opened Tables
  import opened Intersection
  import RlModel

  const Episodes: nat := 5
  const MaxSteps: nat := 200
  /** Without a dominant axis the rule switches the lights every 50 steps. */
  const SwitchPeriod: nat := 50

  /** The vehicles on the north-south axis. */
  function NsWaiting(obs: Counts): nat
  {
    Get(obs, KeyNorth) + Get(obs, KeySouth)
  }

  /** The vehicles on the east-west axis. */
  function EwWaiting(obs: Counts): nat
  {
    Get(obs, KeyEast) + Get(obs, KeyWest)
  }

  /** The rule-based action: green for an axis carrying more than one and a
      half times the other's traffic, when the observation says that axis is
      in the matching light state; otherwise a switch on every 50th step and
      else the current light state. */
  function RuleAction(obs: Counts, stepCount: nat): int
  {
    var ns := NsWaiting(obs);
    var ew := EwWaiting(obs);
    var lightNs := Get(obs, KeyLightNs);
    if ns as real > ew as real * 1.5 && lightNs == 0 then 0
    else if ew as real > ns as real * 1.5 && lightNs == 1 then 1
    else if stepCount % SwitchPeriod == 0 then 1 - lightNs
    else lightNs
  }

  /** The random inputs of one step: `np.random.rand()`, what
      `np.random.choice(2)` would return, and the spawn draws. */
  datatype SimDraws = SimDraws(explore: real, randomAction: bool, arrivals: Arrivals)

  /** The environment's vehicles and lights, the agent's table and the
      current observation `state`. */
  datatype SimWorld = SimWorld(vehicles: seq<Vehicle>, lights: Lights, q: seq<real>, obs: Counts)

  /** What the end-of-episode message reports. */
  datatype Report = Report(steps: nat, total: real)

  /** How an episode's step loop ended: the world, `step_count`,
      `total_reward`, whether the exception propagated, and the reward of
      every environment step taken. */
  datatype EpisodeEnd = EpisodeEnd(w: SimWorld, steps: nat, total: real, raised: bool, rewards: seq<real>)

  /** How the run ended: the world, the episode reports, and whether an
      exception ended it. */
  datatype SimEnd = SimEnd(w: SimWorld, reports: seq<Report>, raised: bool)

  predicate TableOk(w: SimWorld)
  {
    |w.q| == Product(RlModel.Shape)
  }

  /** The agent's `choose_action` on `get_state` of the observation. */
  function AgentAction(q: seq<real>, obs: Counts, d: SimDraws): (r: nat)
    requires |q| == Product(RlModel.Shape)
    ensures r < RlModel.ActionSize
  {
    if d.explore <= RlModel.Epsilon then (if d.randomAction then 1 else 0)
    else Argmax(RlModel.Row(q, RlModel.GetState(obs)))
  }

  /** The try block up to the plotting call, as values: choose an action,
      step the environment and, with an agent, update its table. */
  function SimStep(w: SimWorld, hasAgent: bool, stepCount: nat, d: SimDraws): (r: (SimWorld, real))
    requires TableOk(w)
    ensures TableOk(r.0)
  {
    var agentChoice := AgentAction(w.q, w.obs, d);
    var action := if hasAgent then agentChoice else RuleAction(w.obs, stepCount);
    var lights := LightsAfter(w.lights, action);
    var vs := Survivors(AdvanceAll(w.vehicles + Spawned(d.arrivals), lights));
    var obs := GetState(vs);
    var reward := Reward(vs, []);
    var q := if hasAgent then RlModel.ModelUpdate(w.q, RlModel.GetState(w.obs), agentChoice, reward,
                                                  RlModel.GetState(obs), RlModel.LearningRate,
                                                  RlModel.DiscountFactor)
             else w.q;
    (SimWorld(vs, lights, q, obs), reward)
  }

  /** One pass of the step loop of episode `e` at `step_count == t`, as a
      value. A world whose table does not have the fixed shape never arises
      (`SimStep` keeps the shape); the function leaves one alone. */
  type StepFunction = (SimWorld, nat, nat) -> (SimWorld, real)

  function StepFn(hasAgent: bool, draws: (nat, nat) -> SimDraws): StepFunction
  {
    (w: SimWorld, e: nat, t: nat) => if TableOk(w) then SimStep(w, hasAgent, t, draws(e, t)) else (w, 0.0)
  }

  /** `step` is the step of `StepFn` wherever the table has its shape. */
  ghost predicate StepAgrees(step: StepFunction, hasAgent: bool, draws: (nat, nat) -> SimDraws)
  {
    forall y, e, t {:trigger SimStep(y, hasAgent, t, draws(e, t))} ::
      TableOk(y) ==> step(y, e, t) == SimStep(y, hasAgent, t, draws(e, t))
  }

  lemma StepFnAgrees(hasAgent: bool, draws: (nat, nat) -> SimDraws)
    ensures StepAgrees(StepFn(hasAgent, draws), hasAgent, draws)
  {
  }

  /** The episode's step loop from `step_count == s`. A plotting failure
      after the first step counts the step and keeps the old observation; one
      at the first step propagates. */
  function EpisodeFrom(step: StepFunction, w: SimWorld, e: nat, s: nat, total: real, rewards: seq<real>,
                       running: (nat, nat) -> bool, plotRaises: (nat, nat) -> bool): EpisodeEnd
    decreases MaxSteps - s
  {
    if s >= MaxSteps || !running(e, s) then EpisodeEnd(w, s, total, false, rewards)
    else
      var st := step(w, e, s);
      if !plotRaises(e, s) then
        EpisodeFrom(step, st.0, e, s + 1, total + st.1, rewards + [st.1], running, plotRaises)
      else if s > 0 then
        EpisodeFrom(step, st.0.(obs := w.obs), e, s + 1, total + st.1, rewards + [st.1], running, plotRaises)
      else EpisodeEnd(st.0, s, total + st.1, true, rewards + [st.1])
  }

  /** The environment after `reset`: no vehicles, the same lights. */
  function ResetWorld(w: SimWorld): (r: SimWorld)
    ensures TableOk(r) == TableOk(w)
  {
    w.(vehicles := [], obs := GetState([]))
  }

  /** Episode `e` of the run as a value: `reset`, then the step loop. */
  type EpisodeFunction = (SimWorld, nat) -> EpisodeEnd

  function EpisodeFn(step: StepFunction, running: (nat, nat) -> bool, plotRaises: (nat, nat) -> bool)
    : EpisodeFunction
  {
    (w: SimWorld, e: nat) => EpisodeFrom(step, ResetWorld(w), e, 0, 0.0, [], running, plotRaises)
  }

  /** Episodes `e`, `e + 1`, ... of the run; `reports` are the messages of
      the episodes before `e`. An episode whose exception propagates ends
      the run without a message. */
  function RunFrom(episode: EpisodeFunction, w: SimWorld, e: nat, reports: seq<Report>, startRunning: nat -> bool)
    : SimEnd
    decreases Episodes - e
  {
    if e >= Episodes || !startRunning(e) then SimEnd(w, reports, false)
    else
      var r := episode(w, e);
      if r.raised then SimEnd(r.w, reports, true)
      else RunFrom(episode, r.w, e + 1, reports + [Report(r.steps, r.total)], startRunning)
  }

  /** `run_simulation` as a value. */
  function Simulate(hasAgent: bool, startRunning: nat -> bool, running: (nat, nat) -> bool,
                    plotRaises: (nat, nat) -> bool, draws: (nat, nat) -> SimDraws): SimEnd
  {
    RunFrom(EpisodeFn(StepFn(hasAgent, draws), running, plotRaises), InitialWorld(), 0, [], startRunning)
  }

  /** A fresh environment and a zero table; the observation is set by the
      first `reset`. */
  function InitialWorld(): (r: SimWorld)
    ensures TableOk(r)
  {
    SimWorld([], Lights(Green, Red), Zeros(Product(RlModel.Shape)), map[])
  }

  function Sum(s: seq<real>): real
  {
    if s == [] then 0.0 else s[0] + Sum(s[1..])
  }

  // ---------------------------------------------------------------------
  // Properties

  /** Over whole vehicle counts `x > y * 1.5` is `2x > 3y`; the branches are
      tried in order. */
  lemma RuleActionSpec(obs: Counts, stepCount: nat)
    ensures var ns, ew, l, r := NsWaiting(obs), EwWaiting(obs), Get(obs, KeyLightNs), RuleAction(obs, stepCount);
      (2 * ns > 3 * ew && l == 0 ==> r == 0) &&
      (!(2 * ns > 3 * ew && l == 0) && 2 * ew > 3 * ns && l == 1 ==> r == 1) &&
      (!(2 * ns > 3 * ew && l == 0) && !(2 * ew > 3 * ns && l == 1) ==>
         r == if stepCount % SwitchPeriod == 0 then 1 - l else l)
  {
    var ns, ew := NsWaiting(obs), EwWaiting(obs);
    ThresholdExact(ns, ew);
    ThresholdExact(ew, ns);
  }

  lemma ThresholdExact(x: nat, y: nat)
    ensures x as real > y as real * 1.5 <==> 2 * x > 3 * y
  {
    assert (2 * x) as real == 2.0 * x as real;
    assert (3 * y) as real == 3.0 * y as real;
  }

  /** With the light state 0 or 1, the rule picks action 0 or 1. */
  lemma RuleActionBinary(obs: Counts, stepCount: nat)
    requires Get(obs, KeyLightNs) <= 1
    ensures RuleAction(obs, stepCount) == 0 || RuleAction(obs, stepCount) == 1
  {
  }

  /** The environment's observation has no `light_ns` entry, so the rule reads
      the light state as 0: it picks north-south green when that axis
      dominates, a switch to east-west green on every 50th step, and
      north-south green otherwise; the east-west volume branch never fires. */
  lemma RuleOnEnvironment(vs: seq<Vehicle>, stepCount: nat)
    ensures var obs := GetState(vs);
      RuleAction(obs, stepCount) ==
        if 2 * NsWaiting(obs) > 3 * EwWaiting(obs) then 0
        else if stepCount % SwitchPeriod == 0 then 1 else 0
  {
    var obs := GetState(vs);
    assert KeyLightNs !in obs;
    RuleActionSpec(obs, stepCount);
  }

  /** With the agent, a step changes only the table cell of the state and
      the chosen action; under the rule the table is untouched. */
  lemma SimStepTable(w: SimWorld, hasAgent: bool, stepCount: nat, d: SimDraws)
    requires TableOk(w)
    ensures var r := SimStep(w, hasAgent, stepCount, d).0;
      !hasAgent ==> r.q == w.q
    ensures var r := SimStep(w, hasAgent, stepCount, d).0;
      hasAgent ==> forall j :: 0 <= j < |w.q| && j != RlModel.Cell(RlModel.GetState(w.obs), AgentAction(w.q, w.obs, d))
                           ==> r.q[j] == w.q[j]
  {
  }

  /** Sum of a sequence with one more element at its head. */
  lemma SumTail(s: seq<real>, k: nat)
    requires k < |s|
    ensures Sum(s[k..]) == s[k] + Sum(s[k + 1..])
  {
    assert s[k..][1..] == s[k + 1..];
  }

  /** `step_count` rises by one on every pass, a failure after the first step
      included; `total_reward` adds up the reward of every environment step
      taken; an exception propagates only from the very first step. */
  lemma {:induction false} EpisodeAccounting(step: StepFunction, w: SimWorld, e: nat, s: nat, total: real,
                                             rewards: seq<real>, running: (nat, nat) -> bool,
                                             plotRaises: (nat, nat) -> bool)
    ensures var r := EpisodeFrom(step, w, e, s, total, rewards, running, plotRaises);
      |rewards| <= |r.rewards| && r.rewards[..|rewards|] == rewards &&
      r.total == total + Sum(r.rewards[|rewards|..]) &&
      (!r.raised ==> |r.rewards| - |rewards| == r.steps - s) &&
      (r.raised ==> s == 0 && r.steps == 0 && |r.rewards| == |rewards| + 1 && running(e, 0) && plotRaises(e, 0))
    decreases MaxSteps - s
  {
    if s < MaxSteps && running(e, s) {
      var st := step(w, e, s);
      var next := if !plotRaises(e, s) then st.0 else st.0.(obs := w.obs);
      if !plotRaises(e, s) || s > 0 {
        var rs := rewards + [st.1];
        EpisodeAccounting(step, next, e, s + 1, total + st.1, rs, running, plotRaises);
        var r := EpisodeFrom(step, next, e, s + 1, total + st.1, rs, running, plotRaises);
        assert r.rewards[..|rewards|] == r.rewards[..|rs|][..|rewards|];
        SumTail(r.rewards, |rewards|);
        assert r.rewards[|rewards|] == rs[|rewards|];
      } else {
        assert (rewards + [st.1])[|rewards|..] == [st.1];
      }
    } else {
      assert rewards[|rewards|..] == [];
    }
  }

  /** Only a plotting failure at the first step propagates. */
  lemma {:induction false} EpisodeRaised(step: StepFunction, w: SimWorld, e: nat, s: nat, total: real,
                                         rewards: seq<real>, running: (nat, nat) -> bool,
                                         plotRaises: (nat, nat) -> bool)
    ensures var r := EpisodeFrom(step, w, e, s, total, rewards, running, plotRaises);
      r.raised ==> s == 0 && r.steps == 0 && running(e, 0) && plotRaises(e, 0)
    decreases MaxSteps - s
  {
    if s < MaxSteps && running(e, s) {
      var st := step(w, e, s);
      var next := if !plotRaises(e, s) then st.0 else st.0.(obs := w.obs);
      if !plotRaises(e, s) || s > 0 {
        EpisodeRaised(step, next, e, s + 1, total + st.1, rewards + [st.1], running, plotRaises);
      }
    }
  }

  /** An episode's step loop ends within 200 steps, found the running flag set
      before every step it took, and unless it ran to the bound or raised,
      found it cleared before the next. */
  lemma {:induction false} EpisodeBounds(step: StepFunction, w: SimWorld, e: nat, s: nat, total: real,
                                         rewards: seq<real>, running: (nat, nat) -> bool,
                                         plotRaises: (nat, nat) -> bool)
    requires s <= MaxSteps
    ensures var r := EpisodeFrom(step, w, e, s, total, rewards, running, plotRaises);
      s <= r.steps <= MaxSteps &&
      (forall t :: s <= t < r.steps ==> running(e, t)) &&
      (!r.raised && r.steps < MaxSteps ==> !running(e, r.steps))
    decreases MaxSteps - s
  {
    if s < MaxSteps && running(e, s) {
      var st := step(w, e, s);
      var next := if !plotRaises(e, s) then st.0 else st.0.(obs := w.obs);
      if !plotRaises(e, s) || s > 0 {
        EpisodeBounds(step, next, e, s + 1, total + st.1, rewards + [st.1], running, plotRaises);
      }
    }
  }

  /** At most five episodes run; every reported episode found the flag set
      at its start; the run stops at the first episode that finds it
      cleared, and otherwise only an exception ends it early. */
  lemma {:induction false} RunBounds(episode: EpisodeFunction, w: SimWorld, e: nat, reports: seq<Report>,
                                     startRunning: nat -> bool)
    requires e <= Episodes && |reports| == e
    ensures var r := RunFrom(episode, w, e, reports, startRunning);
      e <= |r.reports| <= Episodes && r.reports[..e] == reports &&
      (forall i :: e <= i < |r.reports| ==> startRunning(i)) &&
      (!r.raised && |r.reports| < Episodes ==> !startRunning(|r.reports|)) &&
      (r.raised ==> |r.reports| < Episodes && startRunning(|r.reports|))
    decreases Episodes - e
  {
    if e < Episodes && startRunning(e) {
      var ep := episode(w, e);
      if !ep.raised {
        var rs := reports + [Report(ep.steps, ep.total)];
        RunBounds(episode, ep.w, e + 1, rs, startRunning);
        var r := RunFrom(episode, ep.w, e + 1, rs, startRunning);
        assert r.reports[..e] == r.reports[..e + 1][..e];
      }
    }
  }

  /** A property every episode's message has, in terms of the episode's
      number, holds of every message of the run. */
  lemma {:induction false} RunReportsAll(episode: EpisodeFunction, w: SimWorld, e: nat, reports: seq<Report>,
                                         startRunning: nat -> bool, p: (nat, Report) -> bool)
    requires e <= Episodes && |reports| == e
    requires forall y, t :: !episode(y, t).raised ==> p(t, Report(episode(y, t).steps, episode(y, t).total))
    ensures var r := RunFrom(episode, w, e, reports, startRunning);
      forall i :: e <= i < |r.reports| ==> p(i, r.reports[i])
    decreases Episodes - e
  {
    if e < Episodes && startRunning(e) {
      var ep := episode(w, e);
      if !ep.raised {
        var rs := reports + [Report(ep.steps, ep.total)];
        RunBounds(episode, ep.w, e + 1, rs, startRunning);
        RunReportsAll(episode, ep.w, e + 1, rs, startRunning, p);
        var r := RunFrom(episode, ep.w, e + 1, rs, startRunning);
        assert r.reports[e] == rs[e];
      }
    }
  }

  /** A run that ended by an exception ended in an episode whose own step
      loop raised. */
  lemma {:induction false} RunRaised(episode: EpisodeFunction, w: SimWorld, e: nat, reports: seq<Report>,
                                     startRunning: nat -> bool, q: nat -> bool)
    requires e <= Episodes && |reports| == e
    requires forall y, t :: episode(y, t).raised ==> q(t)
    ensures var r := RunFrom(episode, w, e, reports, startRunning);
      r.raised ==> q(|r.reports|)
    decreases Episodes - e
  {
    if e < Episodes && startRunning(e) {
      var ep := episode(w, e);
      if !ep.raised {
        RunRaised(episode, ep.w, e + 1, reports + [Report(ep.steps, ep.total)], startRunning, q);
      }
    }
  }

  /** Every message of the run reports at most 200 steps, and reports either
      200 steps or a step count at which the flag was found cleared. */
  lemma ReportedSteps(step: StepFunction, w: SimWorld, startRunning: nat -> bool, running: (nat, nat) -> bool,
                      plotRaises: (nat, nat) -> bool)
    ensures var r := RunFrom(EpisodeFn(step, running, plotRaises), w, 0, [], startRunning);
      forall i :: 0 <= i < |r.reports| ==>
        r.reports[i].steps <= MaxSteps && (r.reports[i].steps == MaxSteps || !running(i, r.reports[i].steps))
  {
    var episode := EpisodeFn(step, running, plotRaises);
    var p := (i: nat, rep: Report) => rep.steps <= MaxSteps && (rep.steps == MaxSteps || !running(i, rep.steps));
    forall y, t ensures !episode(y, t).raised ==> p(t, Report(episode(y, t).steps, episode(y, t).total)) {
      EpisodeBounds(step, ResetWorld(y), t, 0, 0.0, [], running, plotRaises);
    }
    RunReportsAll(episode, w, 0, [], startRunning, p);
  }

  /** An exception ends the run only from an episode that found the flag set
      and whose first plotting call raised. */
  lemma RaisedAtFirstStep(step: StepFunction, w: SimWorld, startRunning: nat -> bool, running: (nat, nat) -> bool,
                          plotRaises: (nat, nat) -> bool)
    ensures var r := RunFrom(EpisodeFn(step, running, plotRaises), w, 0, [], startRunning);
      r.raised ==> |r.reports| < Episodes && startRunning(|r.reports|) && running(|r.reports|, 0) &&
                   plotRaises(|r.reports|, 0)
  {
    var episode := EpisodeFn(step, running, plotRaises);
    forall y, t ensures episode(y, t).raised ==> running(t, 0) && plotRaises(t, 0) {
      EpisodeRaised(step, ResetWorld(y), t, 0, 0.0, [], running, plotRaises);
    }
    RunBounds(episode, w, 0, [], startRunning);
    RunRaised(episode, w, 0, [], startRunning, (t: nat) => running(t, 0) && plotRaises(t, 0));
  }

  /** As written the loop calls `env.update_plot()`, which the intersection
      does not define, so every call raises: the run ends inside the first
      step of the first episode, after one environment step (and, with the
      agent, one table update), with no episode reported. */
  lemma PlotAlwaysRaises(hasAgent: bool, startRunning: nat -> bool, running: (nat, nat) -> bool,
                         plotRaises: (nat, nat) -> bool, draws: (nat, nat) -> SimDraws)
    requires forall e, t :: plotRaises(e, t)
    requires startRunning(0) && running(0, 0)
    ensures var r := Simulate(hasAgent, startRunning, running, plotRaises, draws);
      r.raised && r.reports == [] &&
      r.w == SimStep(ResetWorld(InitialWorld()), hasAgent, 0, draws(0, 0)).0
  {
    var ws := ResetWorld(InitialWorld());
    var step := StepFn(hasAgent, draws);
    assert plotRaises(0, 0);
    assert step(ws, 0, 0) == SimStep(ws, hasAgent, 0, draws(0, 0));
    assert EpisodeFn(step, running, plotRaises)(InitialWorld(), 0) == EpisodeFrom(step, ws, 0, 0, 0.0, [], running, plotRaises);
  }

  /** With a plotting call that never raises and the flag never cleared, the
      run is the intended one: five episodes of 200 steps each. */
  lemma PlotNeverRaises(step: StepFunction, w: SimWorld, startRunning: nat -> bool, running: (nat, nat) -> bool,
                        plotRaises: (nat, nat) -> bool)
    requires forall e, t :: !plotRaises(e, t)
    requires forall e :: startRunning(e)
    requires forall e, t :: running(e, t)
    ensures var r := RunFrom(EpisodeFn(step, running, plotRaises), w, 0, [], startRunning);
      !r.raised && |r.reports| == Episodes && forall i :: 0 <= i < Episodes ==> r.reports[i].steps == MaxSteps
  {
    RunBounds(EpisodeFn(step, running, plotRaises), w, 0, [], startRunning);
    RaisedAtFirstStep(step, w, startRunning, running, plotRaises);
    ReportedSteps(step, w, startRunning, running, plotRaises);
  }

  // ---------------------------------------------------------------------
  // The driver

  /** The table the agent owns, if there is an agent. */
  function AgentFrame(agent: RlModel.TrafficRLAgent?): set<object>
    reads agent
  {
    if agent == null then {} else {agent.qTable}
  }

  /** The objects agree with the world value; the agent exists exactly in
      agent mode and has its fixed parameters. */
  ghost predicate Holds(env: VirtualIntersection, agent: RlModel.TrafficRLAgent?, hasAgent: bool, state: Counts,
                        w: SimWorld)
    reads env, agent, AgentFrame(agent)
  {
    env.Valid() && TableOk(w) && env.vehicles == w.vehicles && env.lights == w.lights && state == w.obs &&
    (hasAgent <==> agent != null) &&
    (agent != null ==>
       agent.Valid() && agent.qTable[..] == w.q && agent.epsilon == RlModel.Epsilon &&
       agent.learningRate == RlModel.LearningRate && agent.discountFactor == RlModel.DiscountFactor)
  }

  /** One pass through the try block up to the plotting call. */
  method SimulateStep(env: VirtualIntersection, agent: RlModel.TrafficRLAgent?, hasAgent: bool, state: Counts,
                      stepCount: nat, d: SimDraws, ghost w: SimWorld)
    returns (nextState: Counts, reward: real, done: bool)
    requires Holds(env, agent, hasAgent, state, w)
    modifies env, AgentFrame(agent)
    ensures Holds(env, agent, hasAgent, nextState, SimStep(w, hasAgent, stepCount, d).0)
    ensures reward == SimStep(w, hasAgent, stepCount, d).1 && !done
  {
    var stateTuple := RlModel.GetState(state);
    var action: int;
    if hasAgent {
      action := agent.ChooseAction(stateTuple, d.explore, if d.randomAction then 1 else 0);
    } else {
      action := RuleAction(state, stepCount);
    }
    nextState, reward, done := env.Step(action, d.arrivals);
    if hasAgent {
      var nextStateTuple := RlModel.GetState(nextState);
      agent.UpdateModel(stateTuple, action, reward, nextStateTuple);
    }
  }

  /** One pass of the step loop: the try block, then the plotting call and
      the `except` clause. `raised` says the exception propagates. */
  method StepIteration(env: VirtualIntersection, agent: RlModel.TrafficRLAgent?, hasAgent: bool, episode: nat,
                       stepCount: nat, state: Counts, totalReward: real,
                       running: (nat, nat) -> bool, plotRaises: (nat, nat) -> bool, draws: (nat, nat) -> SimDraws,
                       ghost step: StepFunction, ghost ws: SimWorld, ghost rewards: seq<real>, ghost whole: EpisodeEnd)
    returns (stepCount': nat, state': Counts, totalReward': real, raised: bool, stop: bool,
             ghost ws': SimWorld, ghost rewards': seq<real>)
    requires stepCount < MaxSteps && running(episode, stepCount)
    requires Holds(env, agent, hasAgent, state, ws) && StepAgrees(step, hasAgent, draws)
    requires EpisodeFrom(step, ws, episode, stepCount, totalReward, rewards, running, plotRaises) == whole
    modifies env, AgentFrame(agent)
    ensures Holds(env, agent, hasAgent, state', ws') && !stop
    ensures !raised ==> (stepCount' == stepCount + 1 &&
                         EpisodeFrom(step, ws', episode, stepCount', totalReward', rewards', running, plotRaises) == whole)
    ensures raised ==> stepCount' == stepCount && whole == EpisodeEnd(ws', stepCount, totalReward', true, rewards')
  {
    ghost var st := SimStep(ws, hasAgent, stepCount, draws(episode, stepCount));
    assert step(ws, episode, stepCount) == st;
    EpisodeUnfold(step, ws, episode, stepCount, totalReward, rewards, running, plotRaises);
    var nextState, reward, done := SimulateStep(env, agent, hasAgent, state, stepCount, draws(episode, stepCount), ws);
    totalReward' := totalReward + reward;
    rewards' := rewards + [reward];
    raised := false;
    stop := false;
    if plotRaises(episode, stepCount) {
      // the plotting call raised: count the step and go on, unless it was the first
      if stepCount > 0 {
        stepCount' := stepCount + 1;
        state' := state;
        ws' := st.0.(obs := ws.obs);
      } else {
        stepCount' := stepCount;
        state' := nextState;
        ws' := st.0;
        raised := true;
      }
    } else {
      state' := nextState;
      ws' := st.0;
      stepCount' := stepCount + 1;
      stop := done;
    }
  }

  /** One episode: `reset`, then the step loop. */
  method PlayEpisode(env: VirtualIntersection, agent: RlModel.TrafficRLAgent?, hasAgent: bool, episode: nat,
                     running: (nat, nat) -> bool, plotRaises: (nat, nat) -> bool, draws: (nat, nat) -> SimDraws,
                     ghost step: StepFunction, ghost w: SimWorld)
    returns (stepCount: nat, totalReward: real, raised: bool, ghost w': SimWorld)
    requires Holds(env, agent, hasAgent, w.obs, w) && StepAgrees(step, hasAgent, draws)
    modifies env, AgentFrame(agent)
    ensures var r := EpisodeFrom(step, ResetWorld(w), episode, 0, 0.0, [], running, plotRaises);
      stepCount == r.steps && totalReward == r.total && raised == r.raised && w' == r.w
    ensures Holds(env, agent, hasAgent, w'.obs, w')
  {
    ghost var whole := EpisodeFrom(step, ResetWorld(w), episode, 0, 0.0, [], running, plotRaises);
    var state := env.Reset();
    ghost var ws := ResetWorld(w);
    ghost var rewards: seq<real> := [];
    stepCount := 0;
    totalReward := 0.0;
    var stop := false;
    while stepCount < MaxSteps && running(episode, stepCount) && !stop
      invariant !stop && Holds(env, agent, hasAgent, state, ws)
      invariant EpisodeFrom(step, ws, episode, stepCount, totalReward, rewards, running, plotRaises) == whole
      decreases MaxSteps - stepCount
    {
      stepCount, state, totalReward, raised, stop, ws, rewards :=
        StepIteration(env, agent, hasAgent, episode, stepCount, state, totalReward, running, plotRaises, draws,
                      step, ws, rewards, whole);
      if raised {
        w' := ws;
        return;
      }
    }
    EpisodeStopped(step, ws, episode, stepCount, totalReward, rewards, running, plotRaises);
    raised := false;
    w' := ws;
  }

  /** The step loop's definition, one pass unfolded. */
  lemma EpisodeUnfold(step: StepFunction, w: SimWorld, e: nat, s: nat, total: real, rewards: seq<real>,
                      running: (nat, nat) -> bool, plotRaises: (nat, nat) -> bool)
    requires s < MaxSteps && running(e, s)
    ensures var st := step(w, e, s);
      EpisodeFrom(step, w, e, s, total, rewards, running, plotRaises) ==
        if !plotRaises(e, s) then
          EpisodeFrom(step, st.0, e, s + 1, total + st.1, rewards + [st.1], running, plotRaises)
        else if s > 0 then
          EpisodeFrom(step, st.0.(obs := w.obs), e, s + 1, total + st.1, rewards + [st.1], running, plotRaises)
        else EpisodeEnd(st.0, s, total + st.1, true, rewards + [st.1])
  {
  }

  /** The step loop once its condition fails. */
  lemma EpisodeStopped(step: StepFunction, w: SimWorld, e: nat, s: nat, total: real, rewards: seq<real>,
                       running: (nat, nat) -> bool, plotRaises: (nat, nat) -> bool)
    requires s >= MaxSteps || !running(e, s)
    ensures EpisodeFrom(step, w, e, s, total, rewards, running, plotRaises) == EpisodeEnd(w, s, total, false, rewards)
  {
  }

  /** The loop over episodes, from the initial world value `w`. */
  method PlayEpisodes(env: VirtualIntersection, agent: RlModel.TrafficRLAgent?, hasAgent: bool,
                      startRunning: nat -> bool, running: (nat, nat) -> bool, plotRaises: (nat, nat) -> bool,
                      draws: (nat, nat) -> SimDraws, ghost step: StepFunction, ghost w: SimWorld)
    returns (reports: seq<Report>, raised: bool, ghost w': SimWorld)
    requires Holds(env, agent, hasAgent, w.obs, w) && StepAgrees(step, hasAgent, draws)
    modifies env, AgentFrame(agent)
    ensures var r := RunFrom(EpisodeFn(step, running, plotRaises), w, 0, [], startRunning);
      reports == r.reports && raised == r.raised && w' == r.w
    ensures Holds(env, agent, hasAgent, w'.obs, w')
  {
    ghost var ep := EpisodeFn(step, running, plotRaises);
    ghost var whole := RunFrom(ep, w, 0, [], startRunning);
    w' := w;
    reports := [];
    raised := false;
    var episode := 0;
    var stop := false;
    while episode < Episodes && !stop
      invariant Holds(env, agent, hasAgent, w'.obs, w')
      invariant !stop ==> !raised && RunFrom(ep, w', episode, reports, startRunning) == whole
      invariant stop ==> whole == SimEnd(w', reports, raised)
      decreases Episodes - episode, if stop then 0 else 1
    {
      if !startRunning(episode) {
        stop := true;
      } else {
        var steps, total, episodeRaised;
        assert ep(w', episode) == EpisodeFrom(step, ResetWorld(w'), episode, 0, 0.0, [], running, plotRaises);
        steps, total, episodeRaised, w' := PlayEpisode(env, agent, hasAgent, episode, running, plotRaises, draws,
                                                       step, w');
        if episodeRaised {
          raised := true;
          stop := true;
        } else {
          reports := reports + [Report(steps, total)];
          episode := episode + 1;
        }
      }
    }
  }

  /** `run_simulation`: the reports printed at the end of each episode,
      whether an exception ended the run, and the table saved in the
      `finally` block (only in agent mode). */
  method RunSimulation(hasAgent: bool, startRunning: nat -> bool, running: (nat, nat) -> bool,
                       plotRaises: (nat, nat) -> bool, draws: (nat, nat) -> SimDraws)
    returns (reports: seq<Report>, raised: bool, saved: Option<seq<real>>)
    ensures var r := Simulate(hasAgent, startRunning, running, plotRaises, draws);
      reports == r.reports && raised == r.raised && saved == (if hasAgent then Some(r.w.q) else None)
  {
    var env := new VirtualIntersection();
    var agent: RlModel.TrafficRLAgent? := null;
    if hasAgent {
      agent := new RlModel.TrafficRLAgent();
    }
    StepFnAgrees(hasAgent, draws);
    ghost var w;
    reports, raised, w := PlayEpisodes(env, agent, hasAgent, startRunning, running, plotRaises, draws,
                                       StepFn(hasAgent, draws), InitialWorld());
    saved := if agent != null then Some(agent.qTable[..]) else None;
  }
}
