/** The discrete-tick four-way intersection of `VirtualIntersection`:
    vehicles spawn at the edges of an 800x600 canvas, move 2 pixels per tick
    while their axis is green, wait otherwise, and disappear once they leave
    the canvas. */
module Intersection {
  import opened Basics

  const Width: int := 800
  const Height: int := 600
  /** Pixels a vehicle advances per tick. */
  const Speed: int := 2
  /** Probability that a spawned vehicle is an emergency vehicle. */
  const EmergencyChance: real := 0.1

  datatype Direction = North | South | East | West

  /** The order in which `_spawn_vehicles` visits the directions. */
  const Directions: seq<Direction> := [North, South, East, West]

  datatype Light = Green | Red
  datatype Lights = Lights(ns: Light, ew: Light)

  predicate ExactlyOneGreen(l: Lights)
  {
    (l.ns == Green) != (l.ew == Green)
  }

  /** A vehicle record (its cosmetic colour is not modelled). */
  datatype Vehicle = Vehicle(x: int, y: int, dir: Direction, waiting: nat, emergency: bool)

  /** The per-tick random draws for one direction: the spawn coin flip and the
      emergency coin flip, both uniform in [0, 1). */
  datatype Draw = Draw(arrival: real, emergency: real)
  datatype Arrivals = Arrivals(north: Draw, south: Draw, east: Draw, west: Draw)

  /** The dictionary `_get_state` returns, keyed by direction name. */
  type Observation = Counts

  function DrawFor(a: Arrivals, d: Direction): Draw
  {
    match d
    case North => a.north
    case South => a.south
    case East => a.east
    case West => a.west
  }

  function SpawnRate(d: Direction): real
  {
    match d
    case North => 0.05
    case South => 0.05
    case East => 0.03
    case West => 0.03
  }

  // ---------------------------------------------------------------------
  // Pure queries of the simulator

  /** `_change_lights`: action 0 gives NS green, action 1 gives EW green,
      any other action leaves the lights as they are. */
  function LightsAfter(l: Lights, action: int): Lights
  {
    if action == 0 then Lights(Green, Red)
    else if action == 1 then Lights(Red, Green)
    else l
  }

  /** `_can_move`: a vehicle may move iff the light of its axis is green. */
  predicate CanMove(l: Lights, d: Direction)
  {
    if d == North || d == South then l.ns == Green else l.ew == Green
  }

  /** `_in_bounds`: inside the canvas, edges included. */
  predicate InBounds(x: int, y: int)
  {
    0 <= x <= Width && 0 <= y <= Height
  }

  predicate VehicleInBounds(v: Vehicle)
  {
    InBounds(v.x, v.y)
  }

  /** `_get_spawn_position`: the fixed edge point of each lane. */
  function SpawnPosition(d: Direction): (int, int)
  {
    match d
    case North => (Width / 2, Height - 50)
    case South => (Width / 2, 50)
    case East => (50, Height / 2)
    case West => (Width - 50, Height / 2)
  }

  /** What one tick of `_move_vehicles` does to one vehicle. */
  function Advance(v: Vehicle, l: Lights): Vehicle
  {
    if CanMove(l, v.dir) then
      match v.dir
      case North => v.(y := v.y - Speed, waiting := 0)
      case South => v.(y := v.y + Speed, waiting := 0)
      case East => v.(x := v.x + Speed, waiting := 0)
      case West => v.(x := v.x - Speed, waiting := 0)
    else
      v.(waiting := v.waiting + 1)
  }

  function AdvanceAll(vs: seq<Vehicle>, l: Lights): (r: seq<Vehicle>)
    ensures |r| == |vs| && forall k :: 0 <= k < |vs| ==> r[k] == Advance(vs[k], l)
  {
    seq(|vs|, k requires 0 <= k < |vs| => Advance(vs[k], l))
  }

  /** The vehicles `_move_vehicles` keeps, in their original order. */
  function Survivors(vs: seq<Vehicle>): seq<Vehicle>
  {
    if vs == [] then []
    else if VehicleInBounds(vs[0]) then [vs[0]] + Survivors(vs[1..])
    else Survivors(vs[1..])
  }

  /** Python `list.remove`: drop the first element equal to `v`. */
  function RemoveFirst(s: seq<Vehicle>, v: Vehicle): (r: seq<Vehicle>)
    ensures v !in s ==> r == s
    ensures v in s ==> |r| == |s| - 1
  {
    if s == [] then []
    else if s[0] == v then s[1..]
    else [s[0]] + RemoveFirst(s[1..], v)
  }

  /** The emergency list after `_move_vehicles` has visited the (already
      moved) vehicles `ms` in order, removing each one that left the canvas. */
  function RemoveLeaving(ev: seq<Vehicle>, ms: seq<Vehicle>): seq<Vehicle>
  {
    if ms == [] then ev
    else
      var r := RemoveLeaving(ev, ms[..|ms| - 1]);
      var v := ms[|ms| - 1];
      if !VehicleInBounds(v) && v in r then RemoveFirst(r, v) else r
  }

  /** The vehicle `_spawn_vehicles` adds for direction `d`, if any. */
  function NewVehicle(a: Arrivals, d: Direction): seq<Vehicle>
  {
    var draw := DrawFor(a, d);
    if draw.arrival < SpawnRate(d) then
      [Vehicle(SpawnPosition(d).0, SpawnPosition(d).1, d, 0, draw.emergency < EmergencyChance)]
    else []
  }

  /** The vehicles spawned for the directions `ds`, in that order. */
  function SpawnedFor(a: Arrivals, ds: seq<Direction>): seq<Vehicle>
  {
    if ds == [] then []
    else SpawnedFor(a, ds[..|ds| - 1]) + NewVehicle(a, ds[|ds| - 1])
  }

  function Spawned(a: Arrivals): seq<Vehicle>
  {
    SpawnedFor(a, Directions)
  }

  function CountDir(vs: seq<Vehicle>, d: Direction): nat
  {
    if vs == [] then 0
    else (if vs[0].dir == d then 1 else 0) + CountDir(vs[1..], d)
  }

  /** `_get_state`: the number of vehicles per direction. */
  function GetState(vs: seq<Vehicle>): Observation
  {
    map[KeyNorth := CountDir(vs, North), KeySouth := CountDir(vs, South),
        KeyEast := CountDir(vs, East), KeyWest := CountDir(vs, West)]
  }

  function TotalWaiting(vs: seq<Vehicle>): nat
  {
    if vs == [] then 0 else vs[0].waiting + TotalWaiting(vs[1..])
  }

  /** `_calculate_reward`: -0.1 per waiting tick plus 10 per listed emergency vehicle. */
  function Reward(vs: seq<Vehicle>, ev: seq<Vehicle>): real
  {
    0.0 - (TotalWaiting(vs) as real) * 0.1 + (|ev| as real) * 10.0
  }

  // ---------------------------------------------------------------------
  // Properties of the pure parts

  /** `_change_lights` sets the lights the action asks for and ignores other actions;
      exactly one green axis is preserved. */
  lemma ChangeLightsSpec(l: Lights, action: int)
    ensures action == 0 ==> LightsAfter(l, action).ns == Green && LightsAfter(l, action).ew == Red
    ensures action == 1 ==> LightsAfter(l, action).ns == Red && LightsAfter(l, action).ew == Green
    ensures action != 0 && action != 1 ==> LightsAfter(l, action) == l
    ensures ExactlyOneGreen(l) ==> ExactlyOneGreen(LightsAfter(l, action))
  {
  }

  /** With exactly one green axis, the two directions of an axis move together
      and exactly one axis moves. */
  lemma CanMoveAxis(l: Lights)
    requires ExactlyOneGreen(l)
    ensures CanMove(l, North) == CanMove(l, South) == (l.ns == Green)
    ensures CanMove(l, East) == CanMove(l, West) == (l.ew == Green)
    ensures CanMove(l, North) != CanMove(l, East)
  {
  }

  /** A movable vehicle shifts by exactly 2 pixels along its direction and stops
      waiting; a blocked one stays put and waits one tick longer. */
  lemma AdvanceSpec(v: Vehicle, l: Lights)
    ensures var w := Advance(v, l);
      w.dir == v.dir && w.emergency == v.emergency &&
      (CanMove(l, v.dir) ==>
         w.waiting == 0 &&
         (v.dir == North ==> w.x == v.x && w.y == v.y - 2) &&
         (v.dir == South ==> w.x == v.x && w.y == v.y + 2) &&
         (v.dir == East ==> w.x == v.x + 2 && w.y == v.y) &&
         (v.dir == West ==> w.x == v.x - 2 && w.y == v.y)) &&
      (!CanMove(l, v.dir) ==> w.x == v.x && w.y == v.y && w.waiting == v.waiting + 1)
  {
  }

  /** Every spawn position is on the canvas. */
  lemma SpawnPositionsInBounds(d: Direction)
    ensures InBounds(SpawnPosition(d).0, SpawnPosition(d).1)
  {
  }

  /** Survivors are exactly the in-bounds vehicles. */
  lemma {:induction false} SurvivorsSpec(vs: seq<Vehicle>)
    ensures |Survivors(vs)| <= |vs|
    ensures forall v :: v in Survivors(vs) <==> v in vs && VehicleInBounds(v)
  {
    if vs != [] {
      SurvivorsSpec(vs[1..]);
      assert vs == [vs[0]] + vs[1..];
    }
  }

  /** Removal commutes with concatenation, so survivors keep their relative order. */
  lemma {:induction false} SurvivorsAppend(a: seq<Vehicle>, b: seq<Vehicle>)
    ensures Survivors(a + b) == Survivors(a) + Survivors(b)
  {
    if a != [] {
      assert (a + b)[1..] == a[1..] + b;
      SurvivorsAppend(a[1..], b);
    } else {
      assert a + b == b;
    }
  }

  lemma {:induction false} SurvivorsAllIn(a: seq<Vehicle>)
    requires forall k :: 0 <= k < |a| ==> VehicleInBounds(a[k])
    ensures Survivors(a) == a
  {
    if a != [] {
      SurvivorsAllIn(a[1..]);
    }
  }

  lemma {:induction false} SurvivorsAllOut(a: seq<Vehicle>)
    requires forall k :: 0 <= k < |a| ==> !VehicleInBounds(a[k])
    ensures Survivors(a) == []
  {
    if a != [] {
      SurvivorsAllOut(a[1..]);
    }
  }

  /** Visiting the next moved vehicle removes it from the emergency list
      exactly when it left the canvas and is listed. */
  lemma RemoveLeavingNext(ev: seq<Vehicle>, ms: seq<Vehicle>, i: nat)
    requires i < |ms|
    ensures var r := RemoveLeaving(ev, ms[..i]);
      RemoveLeaving(ev, ms[..i + 1]) == if !VehicleInBounds(ms[i]) && ms[i] in r then RemoveFirst(r, ms[i]) else r
  {
    assert ms[..i + 1][..i] == ms[..i];
  }

  /** Nothing is ever appended to the emergency list, and removing from an
      empty list leaves it empty. */
  lemma {:induction false} RemoveLeavingEmpty(ms: seq<Vehicle>)
    ensures RemoveLeaving([], ms) == []
  {
    if ms != [] {
      RemoveLeavingEmpty(ms[..|ms| - 1]);
    }
  }

  /** `_spawn_vehicles` adds at most one vehicle per direction, each at its
      lane's spawn point, not waiting, and on the canvas; a direction gets a
      vehicle iff its arrival draw is below its spawn rate. */
  lemma {:induction false} SpawnedForSpec(a: Arrivals, ds: seq<Direction>)
    ensures |SpawnedFor(a, ds)| <= |ds|
    ensures forall v :: v in SpawnedFor(a, ds) ==>
      v.dir in ds && v.waiting == 0 && (v.x, v.y) == SpawnPosition(v.dir) &&
      VehicleInBounds(v) && DrawFor(a, v.dir).arrival < SpawnRate(v.dir) &&
      v.emergency == (DrawFor(a, v.dir).emergency < EmergencyChance)
    ensures forall d :: d in ds && DrawFor(a, d).arrival < SpawnRate(d) ==>
      exists v :: v in SpawnedFor(a, ds) && v.dir == d
  {
    if ds != [] {
      var init := ds[..|ds| - 1];
      var d := ds[|ds| - 1];
      SpawnedForSpec(a, init);
      SpawnPositionsInBounds(d);
      assert ds == init + [d];
      forall e | e in ds && DrawFor(a, e).arrival < SpawnRate(e)
        ensures exists v :: v in SpawnedFor(a, ds) && v.dir == e
      {
        if e == d {
          var w := NewVehicle(a, d)[0];
          assert w in SpawnedFor(a, ds);
        } else {
          assert e in init;
          var v :| v in SpawnedFor(a, init) && v.dir == e;
          assert v in SpawnedFor(a, ds);
        }
      }
    }
  }

  lemma {:induction false} CountDirAppend(a: seq<Vehicle>, b: seq<Vehicle>, d: Direction)
    ensures CountDir(a + b, d) == CountDir(a, d) + CountDir(b, d)
  {
    if a != [] {
      assert (a + b)[1..] == a[1..] + b;
      CountDirAppend(a[1..], b, d);
    } else {
      assert a + b == b;
    }
  }

  /** With distinct directions, each direction receives at most one new vehicle. */
  lemma {:induction false} SpawnedAtMostOnePerDirection(a: Arrivals, ds: seq<Direction>, d: Direction)
    requires forall i, j :: 0 <= i < j < |ds| ==> ds[i] != ds[j]
    ensures CountDir(SpawnedFor(a, ds), d) <= 1
    ensures d !in ds ==> CountDir(SpawnedFor(a, ds), d) == 0
  {
    if ds != [] {
      var init := ds[..|ds| - 1];
      var last := ds[|ds| - 1];
      SpawnedAtMostOnePerDirection(a, init, d);
      CountDirAppend(SpawnedFor(a, init), NewVehicle(a, last), d);
      if d == last {
        assert d !in init;
      } else {
        assert d in ds ==> d in init;
      }
    }
  }

  /** One tick spawns at most four vehicles, at most one per direction. */
  lemma SpawnedBound(a: Arrivals, d: Direction)
    ensures |Spawned(a)| <= 4
    ensures CountDir(Spawned(a), d) <= 1
  {
    SpawnedForSpec(a, Directions);
    SpawnedAtMostOnePerDirection(a, Directions, d);
  }

  /** The four counts of `_get_state` add up to the number of vehicles. */
  lemma {:induction false} StateSumsToCount(vs: seq<Vehicle>)
    ensures var obs := GetState(vs);
      obs[KeyNorth] + obs[KeySouth] + obs[KeyEast] + obs[KeyWest] == |vs|
  {
    if vs != [] {
      StateSumsToCount(vs[1..]);
    }
  }

  /** With the emergency list empty, as it always is, the reward is minus a
      tenth of the total waiting time, so it is never positive. */
  lemma RewardNonPositive(vs: seq<Vehicle>)
    ensures Reward(vs, []) == -0.1 * TotalWaiting(vs) as real
    ensures Reward(vs, []) <= 0.0
  {
  }

  /** A step from an empty intersection in which no draw spawns a vehicle
      leaves it empty, with all counts and the reward zero. */
  lemma EmptyStep(a: Arrivals, l: Lights)
    requires forall d :: DrawFor(a, d).arrival >= SpawnRate(d)
    ensures Survivors(AdvanceAll([] + Spawned(a), l)) == []
    ensures GetState([]) == map[KeyNorth := 0, KeySouth := 0, KeyEast := 0, KeyWest := 0]
    ensures Reward([], []) == 0.0
  {
    NothingSpawned(a, Directions);
  }

  lemma {:induction false} NothingSpawned(a: Arrivals, ds: seq<Direction>)
    requires forall d :: d in ds ==> DrawFor(a, d).arrival >= SpawnRate(d)
    ensures SpawnedFor(a, ds) == []
  {
    if ds != [] {
      NothingSpawned(a, ds[..|ds| - 1]);
    }
  }

  // ---------------------------------------------------------------------
  // The simulator object

  class VirtualIntersection {
    var vehicles: seq<Vehicle>
    var emergencyVehicles: seq<Vehicle>
    var lights: Lights

    /** The invariant every public operation keeps: one green axis, the
        emergency list empty (nothing ever appends to it) and every vehicle on
        the canvas. */
    ghost predicate Valid()
      reads this
    {
      ExactlyOneGreen(lights) && emergencyVehicles == [] &&
      forall k :: 0 <= k < |vehicles| ==> VehicleInBounds(vehicles[k])
    }

    constructor ()
      ensures Valid()
      ensures vehicles == [] && emergencyVehicles == [] && lights == Lights(Green, Red)
    {
      vehicles := [];
      emergencyVehicles := [];
      lights := Lights(Green, Red);
    }

    method ChangeLights(action: int)
      modifies this
      ensures lights == LightsAfter(old(lights), action)
      ensures vehicles == old(vehicles) && emergencyVehicles == old(emergencyVehicles)
    {
      if action == 0 {
        lights := Lights(Green, Red);
      } else if action == 1 {
        lights := Lights(Red, Green);
      }
    }

    method SpawnVehicles(a: Arrivals)
      modifies this
      ensures vehicles == old(vehicles) + Spawned(a)
      ensures lights == old(lights) && emergencyVehicles == old(emergencyVehicles)
    {
      var k := 0;
      while k < |Directions|
        invariant 0 <= k <= |Directions|
        invariant vehicles == old(vehicles) + SpawnedFor(a, Directions[..k])
        invariant lights == old(lights) && emergencyVehicles == old(emergencyVehicles)
      {
        var d := Directions[k];
        var draw := DrawFor(a, d);
        if draw.arrival < SpawnRate(d) {
          var isEmergency := draw.emergency < EmergencyChance;
          var (x, y) := SpawnPosition(d);
          vehicles := vehicles + [Vehicle(x, y, d, 0, isEmergency)];
        }
        assert Directions[..k + 1][..k] == Directions[..k];
        k := k + 1;
      }
      assert Directions[..4] == Directions;
    }

    method MoveVehicles()
      modifies this
      ensures vehicles == Survivors(AdvanceAll(old(vehicles), lights))
      ensures emergencyVehicles == RemoveLeaving(old(emergencyVehicles), AdvanceAll(old(vehicles), lights))
      ensures lights == old(lights)
    {
      ghost var moved := AdvanceAll(vehicles, lights);
      var toRemove: seq<nat> := [];
      var i := 0;
      while i < |vehicles|
        invariant 0 <= i <= |vehicles| == |moved|
        invariant forall k :: 0 <= k < i ==> vehicles[k] == moved[k]
        invariant forall k :: i <= k < |vehicles| ==> vehicles[k] == old(vehicles)[k]
        invariant lights == old(lights)
        invariant Collected(toRemove, moved, i)
        invariant emergencyVehicles == RemoveLeaving(old(emergencyVehicles), moved[..i])
      {
        // move it two pixels if its light is green, else count a tick of waiting
        var v := Advance(vehicles[i], lights);
        CollectStep(toRemove, moved, i);
        RemoveLeavingNext(old(emergencyVehicles), moved, i);
        vehicles := vehicles[i := v];
        if !VehicleInBounds(v) {
          toRemove := toRemove + [i];
          if v in emergencyVehicles {
            emergencyVehicles := RemoveFirst(emergencyVehicles, v);
          }
        }
        i := i + 1;
      }
      assert vehicles == moved;
      assert moved[..|moved|] == moved;
      DeleteInReverse(toRemove, moved);
    }

    /** The second half of `_move_vehicles`: delete the collected indices,
        largest first, so that earlier indices stay valid. */
    method DeleteInReverse(toRemove: seq<nat>, ghost moved: seq<Vehicle>)
      requires vehicles == moved && Collected(toRemove, moved, |moved|)
      modifies this`vehicles
      ensures vehicles == Survivors(moved)
    {
      var j := |toRemove|;
      ghost var b := |moved|;
      while j > 0
        invariant 0 <= j <= |toRemove|
        invariant b == if j == |toRemove| then |moved| else toRemove[j]
        invariant b <= |moved| && vehicles == moved[..b] + Survivors(moved[b..])
      {
        j := j - 1;
        var t := toRemove[j];
        DeleteStep(toRemove, moved, j, b);
        DeleteAt(moved[..b], Survivors(moved[b..]), t);
        assert moved[..b][..t] == moved[..t] && moved[..b][t + 1..] == moved[t + 1..b];
        vehicles := vehicles[..t] + vehicles[t + 1..];
        b := t;
      }
      DeleteFinish(toRemove, moved);
    }

    method Reset() returns (obs: Observation)
      modifies this
      ensures vehicles == [] && lights == old(lights) && emergencyVehicles == old(emergencyVehicles)
      ensures obs == GetState([])
    {
      vehicles := [];
      obs := GetState(vehicles);
    }

    method Step(action: int, a: Arrivals) returns (obs: Observation, reward: real, done: bool)
      requires Valid()
      modifies this
      ensures Valid()
      ensures lights == LightsAfter(old(lights), action)
      ensures vehicles == Survivors(AdvanceAll(old(vehicles) + Spawned(a), lights))
      ensures obs == GetState(vehicles)
      ensures reward == Reward(vehicles, []) && reward <= 0.0
      ensures !done
    {
      ChangeLights(action);
      SpawnVehicles(a);
      MoveVehicles();
      RemoveLeavingEmpty(AdvanceAll(old(vehicles) + Spawned(a), lights));
      reward := Reward(vehicles, emergencyVehicles);
      SurvivorsSpec(AdvanceAll(old(vehicles) + Spawned(a), lights));
      RewardNonPositive(vehicles);
      obs := GetState(vehicles);
      done := false;
    }
  }

  /** `toRemove` holds, in increasing order, exactly the indices below `i` of
      the vehicles that left the canvas. */
  ghost predicate Collected(toRemove: seq<nat>, moved: seq<Vehicle>, i: nat)
  {
    i <= |moved| &&
    (forall k :: 0 <= k < |toRemove| ==> toRemove[k] < i && !VehicleInBounds(moved[toRemove[k]])) &&
    (forall k, m :: 0 <= k < m < |toRemove| ==> toRemove[k] < toRemove[m]) &&
    (forall k :: 0 <= k < i && !VehicleInBounds(moved[k]) ==> k in toRemove)
  }

  /** Visiting vehicle `i` collects its index exactly when it left the canvas. */
  lemma CollectStep(toRemove: seq<nat>, moved: seq<Vehicle>, i: nat)
    requires Collected(toRemove, moved, i) && i < |moved|
    ensures Collected(toRemove + (if VehicleInBounds(moved[i]) then [] else [i]), moved, i + 1)
  {
  }

  /** Once every collected index is deleted, what remains are the survivors:
      everything before the first collected index is on the canvas. */
  lemma DeleteFinish(toRemove: seq<nat>, moved: seq<Vehicle>)
    requires forall k :: 0 <= k < |toRemove| ==> toRemove[k] < |moved|
    requires forall k, m :: 0 <= k < m < |toRemove| ==> toRemove[k] < toRemove[m]
    requires forall k :: 0 <= k < |moved| && !VehicleInBounds(moved[k]) ==> k in toRemove
    ensures var b := if |toRemove| == 0 then |moved| else toRemove[0];
      moved[..b] + Survivors(moved[b..]) == Survivors(moved)
  {
    var b := if |toRemove| == 0 then |moved| else toRemove[0];
    PrefixInBounds(toRemove, moved, b);
    SurvivorsPrefix(moved, b);
  }

  /** No index below the first collected one was collected, so those
      vehicles are on the canvas. */
  lemma PrefixInBounds(toRemove: seq<nat>, moved: seq<Vehicle>, b: nat)
    requires forall k, m :: 0 <= k < m < |toRemove| ==> toRemove[k] < toRemove[m]
    requires forall k :: 0 <= k < |moved| && !VehicleInBounds(moved[k]) ==> k in toRemove
    requires b <= |moved| && (|toRemove| > 0 ==> b <= toRemove[0])
    ensures forall k :: 0 <= k < b ==> VehicleInBounds(moved[k])
  {
    forall k | 0 <= k < b ensures VehicleInBounds(moved[k]) {
      FirstIndexBelow(toRemove, k);
    }
  }

  /** A prefix of vehicles on the canvas survives as it is. */
  lemma SurvivorsPrefix(s: seq<Vehicle>, b: nat)
    requires b <= |s|
    requires forall k :: 0 <= k < b ==> VehicleInBounds(s[k])
    ensures s[..b] + Survivors(s[b..]) == Survivors(s)
  {
    var pre := s[..b];
    assert forall k :: 0 <= k < |pre| ==> pre[k] == s[k];
    SurvivorsAllIn(pre);
    SurvivorsAppend(pre, s[b..]);
    SplitAt(s, b);
  }

  lemma SplitAt(s: seq<Vehicle>, b: nat)
    requires b <= |s|
    ensures s[..b] + s[b..] == s
  {
  }

  lemma FirstIndexBelow(toRemove: seq<nat>, k: nat)
    requires forall i, m :: 0 <= i < m < |toRemove| ==> toRemove[i] < toRemove[m]
    requires |toRemove| > 0 ==> k < toRemove[0]
    ensures k !in toRemove
  {
    if |toRemove| > 0 {
      forall m | 0 < m < |toRemove| ensures toRemove[m] != k {
        assert toRemove[0] < toRemove[m];
      }
    }
  }

  lemma DeleteAt(prefix: seq<Vehicle>, rest: seq<Vehicle>, t: nat)
    requires t < |prefix|
    ensures (prefix + rest)[..t] + (prefix + rest)[t + 1..] == prefix[..t] + (prefix[t + 1..] + rest)
  {
    assert (prefix + rest)[..t] == prefix[..t];
    assert (prefix + rest)[t + 1..] == prefix[t + 1..] + rest;
  }

  /** The loop step of `DeleteInReverse`: deleting index `t` from the current
      list extends the cleaned suffix down to `t`. */
  lemma DeleteStep(toRemove: seq<nat>, moved: seq<Vehicle>, j: nat, b: nat)
    requires j < |toRemove|
    requires b == if j + 1 == |toRemove| then |moved| else toRemove[j + 1]
    requires b <= |moved|
    requires forall k :: 0 <= k < |toRemove| ==> toRemove[k] < |moved| && !VehicleInBounds(moved[toRemove[k]])
    requires forall k, m :: 0 <= k < m < |toRemove| ==> toRemove[k] < toRemove[m]
    requires forall k :: 0 <= k < |moved| && !VehicleInBounds(moved[k]) ==> k in toRemove
    ensures toRemove[j] < b
    ensures moved[..toRemove[j]] + (moved[toRemove[j] + 1..b] + Survivors(moved[b..]))
         == moved[..toRemove[j]] + Survivors(moved[toRemove[j]..])
  {
    GapInBounds(toRemove, moved, j, b);
    DropLeaving(moved, toRemove[j], b);
  }

  /** Between two consecutive collected indices every vehicle is on the canvas. */
  lemma GapInBounds(toRemove: seq<nat>, moved: seq<Vehicle>, j: nat, b: nat)
    requires j < |toRemove|
    requires b == if j + 1 == |toRemove| then |moved| else toRemove[j + 1]
    requires forall k :: 0 <= k < |toRemove| ==> toRemove[k] < |moved|
    requires forall k, m :: 0 <= k < m < |toRemove| ==> toRemove[k] < toRemove[m]
    requires forall k :: 0 <= k < |moved| && !VehicleInBounds(moved[k]) ==> k in toRemove
    ensures toRemove[j] < b
    ensures forall p :: toRemove[j] < p < b ==> VehicleInBounds(moved[p])
  {
    var t := toRemove[j];
    forall p | t < p < b ensures VehicleInBounds(moved[p]) {
      forall m | 0 <= m < |toRemove| ensures toRemove[m] != p {
        if m <= j {
          assert toRemove[m] <= t;
        } else {
          assert b <= toRemove[m];
        }
      }
    }
  }

  /** Dropping a vehicle that left the canvas, followed by vehicles on it,
      is what `Survivors` does to that stretch. */
  lemma DropLeaving(s: seq<Vehicle>, t: nat, b: nat)
    requires t < b <= |s| && !VehicleInBounds(s[t])
    requires forall p :: t < p < b ==> VehicleInBounds(s[p])
    ensures s[..t] + (s[t + 1..b] + Survivors(s[b..])) == s[..t] + Survivors(s[t..])
  {
    var mid := s[t + 1..b];
    assert forall k :: 0 <= k < |mid| ==> mid[k] == s[t + 1 + k];
    SurvivorsAllIn(mid);
    assert s[t..] == [s[t]] + mid + s[b..];
    SurvivorsAppend([s[t]] + mid, s[b..]);
    SurvivorsAppend([s[t]], mid);
    SurvivorsAllOut([s[t]]);
  }
}
