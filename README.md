# DEKHO traffic core in Dafny

DEKHO is a traffic-analysis system. This project models its decision
and counting core and proves properties about it:

- **`VirtualIntersection`** is a discrete-tick simulator of a four-way
  junction on an 800x600 canvas.
  - Vehicles spawn at the lane edges. Each direction spawns at most one per
    tick, with a per-direction probability.
  - A vehicle moves 2 pixels per tick while its axis is green and waits
    otherwise. It is removed once it leaves the canvas.
  - The reward is minus a tenth of the total waiting time.
- **`QLearningAgent`** is an epsilon-greedy tabular agent.
  - Its table has shape `state_size + (action_size,)`. It is loaded from
    a file when one with the right shape exists, and is otherwise all
    zero.
  - It clamps states into the table, applies the temporal-difference
    rule, and decays its exploration rate towards a floor.
- **`TrafficRLAgent`** is a second tabular agent with a fixed
  (5, 5, 5, 5, 2, 2) table. Its states are the four direction counts
  binned by 5 and capped at bin 4, plus an emergency bit.
- **`train_agent`** runs the `QLearningAgent` through episodes of the
  simulator.
  - The observation dictionary becomes an 11-component state tuple, and
    the action is clamped to {0, 1}.
  - The exploration rate decays once per episode and the per-episode
    rewards are collected.
  - The table is saved when `save_interval` divides the episode number
    plus one, and once more at the end.
  - The interrupt handler's running flag ends an episode's step loop.
- **`run_simulation`** runs five episodes of at most 200 steps each.
  - It uses the `TrafficRLAgent` when that can be imported, and otherwise a
    fixed traffic rule.
  - A failing step after the first is counted and skipped. A failure at
    the very first step ends the run.
- **`VirtualLineCounter`** counts tracked vehicles whose box centre crosses
  a horizontal image line southbound or northbound. It keeps a short
  history of each track's positions.
- **`AreaVehicleCounter`** counts the distinct tracked vehicles whose box
  centre lies in a region of interest. It turns the count into a density
  percentage and keeps a history of counts.

How the model is built:

- **Objects whose fields the code updates in place are Dafny classes.**
  Each method is proved against a specification function of the old
  state: the simulator, both agents and both counters. The Q-tables are
  `array<real>` in numpy's row-major order.
- **The drivers are methods with loops.** They are proved equal to
  recursive functions that describe the whole run as a value.
  - The randomness (spawn draws, exploration draws, random actions) is an
    input indexed by episode and step.
  - So is the interrupt handler's running flag.
  - So is the outcome of `run_simulation`'s plotting call
    `env.update_plot()`. As the code stands it always raises, because
    `VirtualIntersection` defines no such method
    (`Simulation.PlotAlwaysRaises`).
- **Python semantics are written out.**
  - `int(x)` truncates toward zero and `//` floors.
  - `dict.get(key, 0)` is modelled, and `list.remove` drops the first
    equal element.
  - numpy's negative-index wrapping and the caught `IndexError` are
    modelled too.
  - Q-values, rewards, exploration rates and densities are `real`.
- **Where the two differ, the model follows the code, not the
  repository's prose design description.**
  - There are no minimum green times, no starvation guard and no
    emergency override.
  - An action other than 0 or 1 leaves the lights as they are.
  - `update_q_table` with `done` set stores the reward itself.
  - The simulator's `step` never reports `done`.

Modules:

| module | file | models |
|---|---|---|
| `Basics` | basics.dfy | Python `int(...)` on numbers, `//`, and the dictionary keys |
| `Tables` | tables.dfy | numpy row-major indexing, `argmax`, `max`, `zeros` and index normalisation |
| `Schedule` | schedule.dfy | a bounded loop that a running flag can stop, as a value |
| `Intersection` | intersection_sim.dfy | `VirtualIntersection` |
| `QLearning` | ql_agent.dfy | `QLearningAgent` |
| `RlModel` | rl_model.dfy | `TrafficRLAgent` |
| `Training` | train_agent.dfy | `train_agent` |
| `Simulation` | run_sim.dfy | `run_simulation` |
| `LineCounter` | homography.dfy | `VirtualLineCounter` |
| `AreaCounter` | area_counter.dfy | `AreaVehicleCounter` |

## Model

| member | source | states |
|---|---|---|
| `Basics.Truncate` | backend/models/homography.py:84 | `int(x)` truncates toward zero: it rounds a positive float down and a negative one up, by less than 1 |
| `Basics.HalfFloor` | backend/models/homography.py:85 | `a // 2` is the floor of a/2 for negative sums as well |
| `Tables.Argmax` | backend/traffic_analysis/ql_agent.py:62 | `np.argmax` gives an index whose value is maximal and is the first such index |
| `Tables.Max` | backend/traffic_analysis/ql_agent.py:83 | `np.max` bounds every entry of the block and is one of them |
| `Tables.Zeros` | backend/traffic_analysis/ql_agent.py:48 | `np.zeros` gives a table of the requested size with every entry 0 |
| `Tables.NormalizeIndex` | backend/traffic_analysis/ql_agent.py:84 | numpy accepts an index exactly in [-n, n), wraps a negative one by n, and keeps an in-range one |
| `Tables.Block` | backend/traffic_analysis/ql_agent.py:62 | `q_table[idx]` for an index prefix is the contiguous run of cells from the prefix's offset, inside the buffer |
| `Intersection.ChangeLightsSpec` | backend/traffic_analysis/intersection_sim.py:15-20 | action 0 gives NS green and EW red, action 1 the opposite, and any other action changes nothing; exactly one green axis is preserved |
| `Intersection.CanMoveAxis` | backend/traffic_analysis/intersection_sim.py:63-67 | with one green axis, north and south move together, east and west move together, and exactly one axis moves |
| `Intersection.AdvanceSpec` | backend/traffic_analysis/intersection_sim.py:39-53 | a vehicle allowed to move shifts 2 pixels in its direction and its wait resets; a blocked one stays put and waits one tick more |
| `Intersection.SpawnPositionsInBounds` | backend/traffic_analysis/intersection_sim.py:78-92 | every lane's spawn point lies on the canvas |
| `Intersection.SurvivorsSpec` | backend/traffic_analysis/intersection_sim.py:55-61 | the vehicles kept are exactly those still in bounds, and no more than there were |
| `Intersection.SurvivorsAppend` | backend/traffic_analysis/intersection_sim.py:55-61 | removal keeps the survivors in their original order: it distributes over concatenation |
| `Intersection.RemoveFirst` | backend/traffic_analysis/intersection_sim.py:57-58 | `list.remove` of a listed vehicle shortens the list by one; of an unlisted one it changes nothing |
| `Intersection.RemoveLeavingEmpty` | backend/traffic_analysis/intersection_sim.py:55-58 | nothing is ever added to the emergency list, so it stays empty whatever leaves the canvas |
| `Intersection.SpawnedForSpec` | backend/traffic_analysis/intersection_sim.py:22-33 | each spawned vehicle starts at its lane's spawn point, not waiting, on the canvas, and is an emergency vehicle iff its draw is below 0.1; a direction spawns iff its draw is below its rate |
| `Intersection.SpawnedAtMostOnePerDirection` | backend/traffic_analysis/intersection_sim.py:23-33 | visiting distinct directions gives each at most one new vehicle, and none to an unvisited one |
| `Intersection.SpawnedBound` | backend/traffic_analysis/intersection_sim.py:22-33 | one tick spawns at most four vehicles and at most one per direction |
| `Intersection.StateSumsToCount` | backend/traffic_analysis/intersection_sim.py:111-118 | the four direction counts of the observation add up to the number of vehicles |
| `Intersection.RewardNonPositive` | backend/traffic_analysis/intersection_sim.py:69-76 | with the emergency list empty, the reward is -0.1 times the total waiting time, never positive |
| `Intersection.EmptyStep` | backend/traffic_analysis/intersection_sim.py:98-109 | an empty junction where no draw spawns stays empty, with zero counts and zero reward |
| `Intersection.CollectStep` | backend/traffic_analysis/intersection_sim.py:55-56 | visiting vehicle i records its index exactly when it left the canvas, keeping the list increasing |
| `Intersection.DeleteStep` | backend/traffic_analysis/intersection_sim.py:60-61 | deleting the collected indices from the largest down never shifts an index still to be deleted |
| `Intersection.VirtualIntersection.constructor` | backend/traffic_analysis/intersection_sim.py:6-13 | no vehicles, an empty emergency list, NS green and EW red |
| `Intersection.VirtualIntersection.ChangeLights` | backend/traffic_analysis/intersection_sim.py:15-20 | the lights become the action's lights and nothing else changes |
| `Intersection.VirtualIntersection.SpawnVehicles` | backend/traffic_analysis/intersection_sim.py:22-33 | the new vehicles are appended in north, south, east, west order; lights and emergency list are unchanged |
| `Intersection.VirtualIntersection.MoveVehicles` | backend/traffic_analysis/intersection_sim.py:36-61 | every vehicle advances, those off the canvas are deleted in order, and leaving vehicles are removed from the emergency list |
| `Intersection.VirtualIntersection.DeleteInReverse` | backend/traffic_analysis/intersection_sim.py:60-61 | deleting the collected indices in reverse leaves exactly the survivors, in order |
| `Intersection.VirtualIntersection.Reset` | backend/traffic_analysis/intersection_sim.py:94-96 | no vehicles, the lights kept, and the all-zero observation returned |
| `Intersection.VirtualIntersection.Step` | backend/traffic_analysis/intersection_sim.py:98-109 | lights, then spawning, then moving; returns the counts of the new vehicles and a non-positive reward, never done, and keeps one green axis and every vehicle on the canvas |
| `QLearning.TableAfterLoad` | backend/traffic_analysis/ql_agent.py:32-48 | whatever the file held, the table has the size of `state_size + (action_size,)` |
| `QLearning.LoadFallback` | backend/traffic_analysis/ql_agent.py:32-48 | a stored array of exactly the expected shape is adopted; a missing file, a load error or a shape mismatch gives an all-zero table |
| `QLearning.SaveLoadRoundTrip` | backend/traffic_analysis/ql_agent.py:101-118 | loading what `save_model` wrote gives back the same table |
| `QLearning.Bounded` | backend/traffic_analysis/ql_agent.py:67-73 | `zip` keeps min(len(state), len(state_size)) components |
| `QLearning.BoundedSpec` | backend/traffic_analysis/ql_agent.py:67-73 | every component lands in [0, dim-1]: in-range values kept, negatives to 0, too-large ones to dim-1 |
| `QLearning.BoundedIdempotent` | backend/traffic_analysis/ql_agent.py:67-73 | bounding an already bounded state changes nothing |
| `QLearning.SelectedBlock` | backend/traffic_analysis/ql_agent.py:62 | `q_table[bounded_state]` is never empty and is the row of `action_size` values for a full-length state |
| `QLearning.GreedySpec` | backend/traffic_analysis/ql_agent.py:59-62 | the greedy action is the first maximal position of that block, and is a valid action for a full-length state |
| `QLearning.UpdatedBlock` | backend/traffic_analysis/ql_agent.py:87-91 | the selected cells get the TD value of their old values; every other cell is unchanged |
| `QLearning.UpdateChangesOneCell` | backend/traffic_analysis/ql_agent.py:79-91 | a full-length state with an accepted action (a negative one wrapped) changes exactly the cell (bounded state, action), to its TD value with the next state's maximum |
| `QLearning.UpdateLeavesOtherEntries` | backend/traffic_analysis/ql_agent.py:84-91 | any other (state, action) entry keeps its value |
| `QLearning.BadActionLeavesTable` | backend/traffic_analysis/ql_agent.py:84-94 | an action numpy rejects raises the caught IndexError and leaves the table as it was |
| `QLearning.TerminalUpdateIsReward` | backend/traffic_analysis/ql_agent.py:87-88 | with `done` set, the new value is the reward, whatever the old value |
| `QLearning.ZeroTableScenario` | backend/traffic_analysis/ql_agent.py:89-91 | on a zero table with rate 0.1 and reward 10, the updated entry becomes 1.0 |
| `QLearning.DecaySpec` | backend/traffic_analysis/ql_agent.py:96-99 | one decay gives the floor or rate·decay, never below the floor, and never raises a rate at or above the floor |
| `QLearning.DecayedNSpec` | backend/traffic_analysis/ql_agent.py:96-99 | over any number of decays the rate never increases and stays at or above the floor |
| `QLearning.QLearningAgent.constructor` | backend/traffic_analysis/ql_agent.py:8-49 | keeps every parameter and starts with the table the file lookup gives |
| `QLearning.QLearningAgent.BoundState` | backend/traffic_analysis/ql_agent.py:67-73 | the loop builds the clamped tuple, component by component |
| `QLearning.QLearningAgent.ChooseAction` | backend/traffic_analysis/ql_agent.py:54-65 | a draw below the rate returns the random action, otherwise the greedy one, which is a valid action for a full-length state |
| `QLearning.QLearningAgent.UpdateQTable` | backend/traffic_analysis/ql_agent.py:75-94 | the new table is the TD update of the old one, or the old one when the action index fails |
| `QLearning.QLearningAgent.WriteBlock` | backend/traffic_analysis/ql_agent.py:87-91 | writes the TD value into every selected cell and touches no other cell |
| `QLearning.QLearningAgent.DecayExploration` | backend/traffic_analysis/ql_agent.py:96-99 | the rate becomes max(minimum, rate·decay) and the table is untouched |
| `QLearning.QLearningAgent.SaveModel` | backend/traffic_analysis/ql_agent.py:101-104 | writes the table with its full shape, which loads back unchanged |
| `QLearning.QLearningAgent.LoadModel` | backend/traffic_analysis/ql_agent.py:106-118 | the table becomes the stored one if its shape matches, else zeros; the exploration rate is kept |
| `RlModel.GetState` | backend/traffic_analysis/rl_model.py:19-27 | five components: the binned north, south, east and west counts, and 1 exactly when the emergency entry is non-zero; all within the table |
| `RlModel.BinSpec` | backend/traffic_analysis/rl_model.py:22-25 | a bin is in [0, 4], is the count's `// 5` bucket below the top, and is 4 exactly from 20 vehicles on |
| `RlModel.BinMonotone` | backend/traffic_analysis/rl_model.py:22-25 | more vehicles never give a lower bin |
| `RlModel.GetStateEmpty` | backend/traffic_analysis/rl_model.py:19-27 | missing keys read as 0, so empty counts give the all-zero state |
| `RlModel.GetStateMonotone` | backend/traffic_analysis/rl_model.py:19-27 | larger counts in every direction never lower a count component |
| `RlModel.Cell` | backend/traffic_analysis/rl_model.py:35 | `state + (action,)` addresses one cell inside the table |
| `RlModel.Row` | backend/traffic_analysis/rl_model.py:32 | `q_table[state]` is the row of the two action values |
| `RlModel.ModelUpdate` | backend/traffic_analysis/rl_model.py:34-40 | only the chosen cell changes, to the blend of its old value and reward plus discounted best next value |
| `RlModel.BlendIsTd` | backend/traffic_analysis/rl_model.py:38-39 | `(1-α)·old + α·target` is `old + α·(target - old)`, the other agent's rule with done false |
| `RlModel.UpdateLeavesOtherEntries` | backend/traffic_analysis/rl_model.py:34-40 | a different (state, action) pair keeps its value |
| `RlModel.TrafficRLAgent.constructor` | backend/traffic_analysis/rl_model.py:6-17 | the arguments are ignored: the zero (5,5,5,5,2,2) table, rate 0.1, discount 0.95, epsilon 0.1 |
| `RlModel.TrafficRLAgent.ChooseAction` | backend/traffic_analysis/rl_model.py:29-32 | a draw at most epsilon returns the random choice; otherwise the first action of maximal value |
| `RlModel.TrafficRLAgent.UpdateModel` | backend/traffic_analysis/rl_model.py:34-40 | the table after the call is the one-cell blended update of the table before |
| `Training.ClampAction` | backend/simulations/train_agent.py:69 | the result is 0 or 1: 0 and 1 are kept, negatives become 0, larger values become 1 |
| `Training.EncodeSpec` | backend/simulations/train_agent.py:53-65 | 11 components, each the dictionary entry (missing reads 0) capped at 4; the light bit is 1 exactly when `light_ns` is 1 |
| `Training.EncodeEnvironmentObservation` | backend/simulations/train_agent.py:53-65 | on the simulator's observations only the four direction counts can be non-zero |
| `Training.TableSeesFirstNine` | backend/simulations/train_agent.py:29-65 | bounding the 11-tuple by the 9 table dimensions keeps the first nine components unchanged |
| `Training.ClampKeepsChoice` | backend/simulations/train_agent.py:67-69 | the agent's choice is already 0 or 1, so the clamp never alters it |
| `Training.StepSpec` | backend/simulations/train_agent.py:67-72 | every step hands the simulator action 0 or 1 and is rewarded at most 0 |
| `Training.EpisodeStepsValid` | backend/simulations/train_agent.py:47-94 | the same holds of every step of an episode |
| `Training.EpisodeLength` | backend/simulations/train_agent.py:47-49 | an episode takes at most `max_steps` steps, exactly that many when the flag is never cleared |
| `Training.EpisodeStopsAtFlag` | backend/simulations/train_agent.py:47-49 | every step found the flag set, and an episode cut short found it cleared at the next step |
| `Training.TotalNonPositive` | backend/simulations/train_agent.py:93-94 | an episode's total reward is at most 0 when every step's is |
| `Training.TotalSnoc` | backend/simulations/train_agent.py:94 | one more step adds its reward to the running total |
| `Training.Totals` | backend/simulations/train_agent.py:121 | one total per episode, each the sum of that episode's rewards |
| `Training.TotalsSnoc` | backend/simulations/train_agent.py:121 | a finished episode appends its total to the list |
| `Training.TrainingRunLength` | backend/simulations/train_agent.py:43 | the run has exactly one episode per `range(episodes)` element |
| `Training.TrainingEpisodesValid` | backend/simulations/train_agent.py:43-121 | over the whole run every step is valid and every episode's total is at most 0 |
| `Training.IntervalSavesSpec` | backend/simulations/train_agent.py:125-126 | the model is saved after episode e exactly when `save_interval` divides e + 1 |
| `Training.SaveEveryEpisode` | backend/simulations/train_agent.py:125-126 | with `save_interval` 1 every episode is saved, in order |
| `Training.InterruptedEpisode` | backend/simulations/train_agent.py:43-49 | a flag cleared before an episode's first step records reward 0 for it, and training goes on with the next episode |
| `Training.TrainStep` | backend/simulations/train_agent.py:53-90 | one step of the objects is the step function on the world value |
| `Training.EpisodeIteration` | backend/simulations/train_agent.py:47-94 | a pass moves one step from the rest of the episode to the steps done, and the total is their sum |
| `Training.TrainEpisode` | backend/simulations/train_agent.py:44-117 | reset and the step loop produce exactly the episode's value and its total |
| `Training.SaveIfDue` | backend/simulations/train_agent.py:125-126 | saves after this episode exactly when it is due |
| `Training.TrainIteration` | backend/simulations/train_agent.py:43-126 | an episode, one decay, its total appended, and the save if due |
| `Training.TrainEpisodes` | backend/simulations/train_agent.py:43-127 | the loop carries the training state from before the first episode to after the last |
| `Training.TrainAgent` | backend/simulations/train_agent.py:22-145 | the agent over the 9 state dimensions, with its rate decayed once per episode; saves at due episodes plus one final save; totals and final table as in the run from the loaded table |
| `Simulation.RuleActionSpec` | backend/simulations/run_sim.py:68-80 | branches in order: NS when 2·ns > 3·ew and `light_ns` is 0, else EW when 2·ew > 3·ns and `light_ns` is 1, else a switch on every 50th step, else keep |
| `Simulation.ThresholdExact` | backend/simulations/run_sim.py:73-75 | for whole counts, `x > y * 1.5` is exactly `2x > 3y` |
| `Simulation.RuleActionBinary` | backend/simulations/run_sim.py:68-80 | with `light_ns` 0 or 1 the rule yields action 0 or 1 |
| `Simulation.RuleOnEnvironment` | backend/simulations/run_sim.py:68-80 | the simulator's observation has no `light_ns`, so the rule picks NS when NS dominates, switches to EW every 50th step, and is NS otherwise |
| `Simulation.AgentAction` | backend/simulations/run_sim.py:63-65 | the agent's action is always 0 or 1 |
| `Simulation.SimStepTable` | backend/simulations/run_sim.py:86-89 | with the agent a step changes only the (state, action) cell; under the rule the table is untouched |
| `Simulation.EpisodeAccounting` | backend/simulations/run_sim.py:60-110 | `step_count` counts every step taken, a failing one after the first included; `total_reward` sums every reward; a propagating failure comes only from step 0 |
| `Simulation.EpisodeRaised` | backend/simulations/run_sim.py:104-110 | only a failure at step 0 is re-raised |
| `Simulation.EpisodeBounds` | backend/simulations/run_sim.py:60 | an episode ends within 200 steps, found the flag set before each step, and otherwise stopped on a cleared flag |
| `Simulation.RunBounds` | backend/simulations/run_sim.py:49-51 | at most five episodes, each begun with the flag set; the run stops at the first episode that finds it cleared or that raises |
| `Simulation.RunReportsAll` | backend/simulations/run_sim.py:49-112 | a property of every episode's message holds of all messages of the run |
| `Simulation.RunRaised` | backend/simulations/run_sim.py:104-117 | a run ended by an exception ended in an episode whose own loop raised |
| `Simulation.ReportedSteps` | backend/simulations/run_sim.py:60-112 | every message reports at most 200 steps, and either 200 or a step where the flag was cleared |
| `Simulation.RaisedAtFirstStep` | backend/simulations/run_sim.py:104-117 | an exception ends the run only from an episode that began running and whose first step failed |
| `Simulation.PlotAlwaysRaises` | backend/simulations/run_sim.py:92 | as written, the first step of the first episode fails, so the run ends with no episode reported after one environment step |
| `Simulation.PlotNeverRaises` | backend/simulations/run_sim.py:92 | with a plotting call that works and no interrupt, the run is five episodes of 200 steps |
| `Simulation.SimulateStep` | backend/simulations/run_sim.py:61-89 | one try block of the objects is the step function on the world value, and `done` is false |
| `Simulation.StepIteration` | backend/simulations/run_sim.py:60-110 | one pass continues the episode's value, or ends it with the exception at step 0 |
| `Simulation.PlayEpisode` | backend/simulations/run_sim.py:53-110 | `reset` and the step loop give exactly the episode's step count, total reward and outcome |
| `Simulation.PlayEpisodes` | backend/simulations/run_sim.py:49-112 | the episode loop gives exactly the run's messages and outcome |
| `Simulation.RunSimulation` | backend/simulations/run_sim.py:34-130 | the messages and outcome of the whole run, and with the agent the table saved in `finally` |
| `LineCounter.ParseTrack` | backend/models/homography.py:66-85 | a record is read iff it has six fields and the first five are numbers; then it gives the truncated id and the floored centre of the truncated y values |
| `LineCounter.Cap` | backend/models/homography.py:110-112 | at most 20 positions, newest last: a short history is kept whole, a long one keeps its last 20 |
| `LineCounter.TrackStepSpec` | backend/models/homography.py:63-112 | a skipped record changes nothing; a first sighting stores [y] and counts nothing; otherwise south +1 iff prev ≤ line < y, north +1 iff prev ≥ line > y, never both, and the history gains y, capped; other ids are untouched |
| `LineCounter.CountsNeverDecrease` | backend/models/homography.py:99-108 | over a batch the counters never go down |
| `LineCounter.HistoriesAfterBatch` | backend/models/homography.py:87-112 | an id in the batch ends its history with its last centre; an id absent from it keeps its history exactly; none exceeds 20 |
| `LineCounter.VirtualLineCounter.constructor` | backend/models/homography.py:56-61 | both counts 0 and no history |
| `LineCounter.VirtualLineCounter.Update` | backend/models/homography.py:63-112 | the state after the call is the records applied in order |
| `LineCounter.VirtualLineCounter.ProcessTrack` | backend/models/homography.py:64-112 | one loop body is one record's step |
| `AreaCounter.ParseDetection` | backend/models/area_counter.py:72-90 | a detection is read iff it has five fields that are numbers; then the id and the floored centre of the truncated coordinates |
| `AreaCounter.InRoi` | backend/models/area_counter.py:29-37 | without an ROI every point is inside; otherwise inside or on the boundary |
| `AreaCounter.RoiArea` | backend/models/area_counter.py:39-45 | 0 without an ROI, the polygon's area otherwise |
| `AreaCounter.FullFrame` | backend/models/area_counter.py:63-65 | the frame rectangle, corner by corner from the origin |
| `AreaCounter.WithDefault` | backend/models/area_counter.py:62-65 | a missing ROI becomes the full frame when a shape is given; a set ROI is kept |
| `AreaCounter.IdsInRoiSpec` | backend/models/area_counter.py:70-93 | an id is counted exactly when some readable detection carries it with its centre in the ROI |
| `AreaCounter.CountAtMostDetections` | backend/models/area_counter.py:70-93 | the count never exceeds the number of detections |
| `AreaCounter.DensitySpec` | backend/models/area_counter.py:95-101 | the density is in [0, 100], 0 without vehicles or area, 100 exactly when the vehicles' area fills the ROI, and otherwise their percentage share |
| `AreaCounter.DensityMonotone` | backend/models/area_counter.py:95-101 | more vehicles in the same area never lower the density |
| `AreaCounter.RecentSpec` | backend/models/area_counter.py:103-106 | appending keeps at most 50 entries, the newest last, the latest ones in order |
| `AreaCounter.NoRoi` | backend/models/area_counter.py:29-45 | without an ROI every readable detection counts and the density is 0 |
| `AreaCounter.AreaVehicleCounter.constructor` | backend/models/area_counter.py:10-23 | no vehicles, an empty history, density 0 |
| `AreaCounter.AreaVehicleCounter.SetRoi` | backend/models/area_counter.py:25-27 | replaces the ROI and nothing else |
| `AreaCounter.AreaVehicleCounter.Update` | backend/models/area_counter.py:47-108 | the ROI defaulted; the set is this frame's counted ids and the count its size; the density is stored and returned; the history gains the count, capped |
| `AreaCounter.AreaVehicleCounter.CollectVehicles` | backend/models/area_counter.py:70-90 | the loop from an empty set gives exactly the counted ids |

## Left out

- `render`, `draw_visualization`, the reward plot, `plt.pause`, `time.sleep` and every `print` are not modelled: they only draw, wait or log.
- Randomness is not drawn here. Each `random.random()`, `np.random.rand()`, `randint` and `np.random.choice` draw is an input, indexed by episode and step.
- The vehicle colour is not modelled: it is cosmetic.
- `VirtualIntersection.wait_times` is not modelled. It is only ever printed, and it is never updated.
- SIGINT is not modelled: `signal_handler`, the module-level `running` flag and `KeyboardInterrupt`. `running` is an input read before each step. In `run_simulation` it is also read before each episode.
- The running flag is not constrained to stay cleared. The interrupt handler only ever clears `running`, but the model's flag is an arbitrary function of (episode, step) and may come back on, so the model admits more runs than the source can produce. Every property is proved for all of them.
- The `has_rl_agent` import probe is not modelled. It becomes the `hasAgent` parameter.
- File contents are not modelled. A table file is an abstract `Stored` value: missing, unreadable, or an array with a shape. The file name and an error while saving are left out.
- `TrafficRLAgent.save_model` and `load_model` are not modelled, because they only call `np.save` and `np.load`. `RunSimulation` returns the saved table instead.
- OpenCV is not modelled. `cv2.pointPolygonTest` and `cv2.contourArea` are function parameters. The conversion of ROI points to `int32` is left out.
- `float(...)` of strings, NaN and infinity are not modelled. A detector field is either a real number or unparsable.
- `train_agent`'s `update_visuals` path is not modelled. It runs inside a `try` that catches everything and only renders or saves a picture.
- Q-table entries, rewards and rates are exact `real`s. 64-bit float rounding is not modelled.
- `train_agent`'s `done` break and `run_simulation`'s are modelled by the loop guard. The simulator never reports `done`, so neither break fires.
- `run_simulation`'s outer `except Exception` is not modelled as printing anything. A propagated failure only sets `raised` and ends the run. The plotting call is the only failure modelled; any other exception inside the step is left out.
- `Training.TrainAgent`: requires a non-zero `save_interval` when `episodes > 0`. With 0, the source's `(episode + 1) % 0` raises ZeroDivisionError, which is not modelled.
- `QLearning.QLearningAgent.constructor`: requires every state dimension and the action count to be positive, so a zero-sized axis is not modelled. In the source, a zero state dimension reached by a full-length state makes `_bound_state` give index 0 on an axis of size 0. `self.q_table[...]` then raises IndexError, which `choose_action` catches by returning a random action and `update_q_table` catches by leaving the table as it was. The uncaught ValueError of `np.max`/`np.argmax` on an empty block arises only with `action_size == 0`, or with a zero dimension beyond a state shorter than `state_size`. `train_agent` always passes the sizes (5, 5, 5, 5, 2, 5, 5, 5, 5) and 2.
- `Simulation.StepFn` and `Training.StepFn`: on a table of the wrong size they leave the world unchanged. No run ever produces such a table, because each step keeps the table's size.
- The files outside the seven core files are not part of this model: the web and client code, the YOLO wrapper, `utils/homography.py` and the other utilities.

## Findings

| source | as written | input that shows it | evidently intended | confidence | as-written member | corrected member |
|---|---|---|---|---|---|---|
| backend/simulations/run_sim.py:92 | every step calls `env.update_plot()`, which `VirtualIntersection` does not define, so each call raises AttributeError; at step 0 the `except` re-raises, and the run ends after one environment step with no episode reported | any run: flag set, first episode, step 0 | a plotting call that returns, so the run plays five episodes of 200 steps | not executed | `Simulation.PlotAlwaysRaises` | `Simulation.PlotNeverRaises` |
