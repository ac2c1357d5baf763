/** `AreaVehicleCounter`: counts the tracked vehicles whose box centre lies
    in a polygonal region of interest (ROI) and turns the count into a
    traffic density percentage. The point-in-polygon test and the polygon
    area come from OpenCV; here they are parameters. */
module AreaCounter {
  import opened Basics

  /** `max_history`: the density history keeps this many entries. */
  const MaxHistory: nat := 50
  /** `avg_vehicle_area`: pixels taken by one vehicle. */
  const AvgVehicleArea: nat := 5000

  type Point = (int, int)

  /** `cv2.pointPolygonTest(roi, point, False)`: positive inside, zero on
      the boundary, negative outside. */
  type PolygonTest = (seq<Point>, Point) -> real

  /** `cv2.contourArea(roi)`. */
  type ContourArea = seq<Point> -> real

  /** A detection row that was read: its track id and its box centre. */
  datatype Detection = Detection(id: int, centre: Point)

  /** Reading `[x1, y1, x2, y2, id, ...]`: None when the row has fewer than
      five fields or one of them fails `int(...)`; otherwise the id and the
      centre `((x1 + x2) // 2, (y1 + y2) // 2)`. */
  function ParseDetection(det: seq<Field>): (r: Option<Detection>)
    ensures r.Some? <==> |det| >= 5 && forall k :: 0 <= k < 5 ==> det[k].Number?
    ensures r.Some? ==> r.value.id == Truncate(det[4].value)
    ensures r.Some? ==>
      2 * r.value.centre.0 <= Truncate(det[0].value) + Truncate(det[2].value) < 2 * r.value.centre.0 + 2 &&
      2 * r.value.centre.1 <= Truncate(det[1].value) + Truncate(det[3].value) < 2 * r.value.centre.1 + 2
  {
    if |det| < 5 then None
    else if !(det[0].Number? && det[1].Number? && det[2].Number? && det[3].Number? && det[4].Number?) then None
    else
      var x1, y1, x2, y2 := Truncate(det[0].value), Truncate(det[1].value), Truncate(det[2].value), Truncate(det[3].value);
      Some(Detection(Truncate(det[4].value), (HalfFloor(x1 + x2), HalfFloor(y1 + y2))))
  }

  /** `is_in_roi`: without an ROI every point is inside; otherwise the
      point lies inside or on the boundary. */
  function InRoi(roi: Option<seq<Point>>, point: Point, test: PolygonTest): (r: bool)
    ensures roi.None? ==> r
    ensures roi.Some? ==> (r <==> test(roi.value, point) >= 0.0)
  {
    roi.None? || test(roi.value, point) >= 0.0
  }

  /** `calculate_roi_area`: 0 without an ROI. */
  function RoiArea(roi: Option<seq<Point>>, area: ContourArea): (r: real)
    ensures roi.None? ==> r == 0.0
    ensures roi.Some? ==> r == area(roi.value)
  {
    if roi.None? then 0.0 else area(roi.value)
  }

  /** The full-frame rectangle of a `(height, width)` frame shape, corner
      by corner from the origin. */
  function FullFrame(height: int, width: int): (r: seq<Point>)
    ensures |r| == 4 && r[0] == (0, 0) && r[1] == (width, 0) && r[2] == (width, height) && r[3] == (0, height)
  {
    [(0, 0), (width, 0), (width, height), (0, height)]
  }

  /** The ROI `update` works with: a missing ROI becomes the full frame
      when a frame shape is given, and stays missing otherwise. */
  function WithDefault(roi: Option<seq<Point>>, frameShape: Option<(int, int)>): (r: Option<seq<Point>>)
    ensures roi.Some? ==> r == roi
    ensures roi.None? && frameShape.Some? ==> r == Some(FullFrame(frameShape.value.0, frameShape.value.1))
    ensures roi.None? && frameShape.None? ==> r.None?
  {
    if roi.None? && frameShape.Some? then Some(FullFrame(frameShape.value.0, frameShape.value.1)) else roi
  }

  /** The ids of the readable detections whose centre is in the ROI. */
  function IdsInRoi(dets: seq<seq<Field>>, roi: Option<seq<Point>>, test: PolygonTest): set<int>
    decreases |dets|
  {
    if dets == [] then {}
    else
      var d := ParseDetection(dets[|dets| - 1]);
      var rest := IdsInRoi(dets[..|dets| - 1], roi, test);
      if d.Some? && InRoi(roi, d.value.centre, test) then rest + {d.value.id} else rest
  }

  /** Detection `i` is readable and its centre is in the ROI. */
  predicate Counted(dets: seq<seq<Field>>, i: int, roi: Option<seq<Point>>, test: PolygonTest)
    requires 0 <= i < |dets|
  {
    ParseDetection(dets[i]).Some? && InRoi(roi, ParseDetection(dets[i]).value.centre, test)
  }

  /** `min(100, count * avg_vehicle_area / roi_area * 100)` when there are
      vehicles and the area is positive, 0 otherwise. */
  function Density(count: nat, roiArea: real): real
  {
    if count > 0 && roiArea > 0.0 then
      var percentage := (count * AvgVehicleArea) as real / roiArea * 100.0;
      if percentage < 100.0 then percentage else 100.0
    else 0.0
  }

  /** The last `MaxHistory` entries of `h`. */
  function Recent(h: seq<nat>): seq<nat>
  {
    if |h| > MaxHistory then h[|h| - MaxHistory..] else h
  }

  // ---------------------------------------------------------------------
  // Properties

  /** An id is counted exactly when some readable detection carries it with
      its centre in the ROI; nothing else is in the set. */
  lemma {:induction false} IdsInRoiSpec(dets: seq<seq<Field>>, roi: Option<seq<Point>>, test: PolygonTest, id: int)
    ensures id in IdsInRoi(dets, roi, test) <==>
            exists i :: 0 <= i < |dets| && Counted(dets, i, roi, test) && ParseDetection(dets[i]).value.id == id
    decreases |dets|
  {
    if dets != [] {
      var prefix := dets[..|dets| - 1];
      IdsInRoiSpec(prefix, roi, test, id);
      assert forall i :: 0 <= i < |prefix| ==> prefix[i] == dets[i];
      if id in IdsInRoi(prefix, roi, test) {
        var i :| 0 <= i < |prefix| && Counted(prefix, i, roi, test) && ParseDetection(prefix[i]).value.id == id;
        assert Counted(dets, i, roi, test);
      }
      if exists i :: 0 <= i < |dets| && Counted(dets, i, roi, test) && ParseDetection(dets[i]).value.id == id {
        var i :| 0 <= i < |dets| && Counted(dets, i, roi, test) && ParseDetection(dets[i]).value.id == id;
        if i < |prefix| {
          assert Counted(prefix, i, roi, test);
        }
      }
    }
  }

  /** The count never exceeds the number of detections: each adds at most
      one id. */
  lemma {:induction false} CountAtMostDetections(dets: seq<seq<Field>>, roi: Option<seq<Point>>, test: PolygonTest)
    ensures |IdsInRoi(dets, roi, test)| <= |dets|
    decreases |dets|
  {
    if dets != [] {
      var prefix := dets[..|dets| - 1];
      CountAtMostDetections(prefix, roi, test);
      var rest := IdsInRoi(prefix, roi, test);
      var d := ParseDetection(dets[|dets| - 1]);
      if d.Some? && InRoi(roi, d.value.centre, test) {
        assert |rest + {d.value.id}| <= |rest| + 1;
      }
    }
  }

  /** Density is a percentage, is 0 without vehicles or without a positive
      area, is capped at 100 exactly when the vehicles' area fills the ROI,
      and otherwise is the vehicles' share of the area. */
  lemma DensitySpec(count: nat, roiArea: real)
    ensures 0.0 <= Density(count, roiArea) <= 100.0
    ensures count == 0 || roiArea <= 0.0 ==> Density(count, roiArea) == 0.0
    ensures count > 0 && roiArea > 0.0 ==>
      (Density(count, roiArea) == 100.0 <==> (count * AvgVehicleArea) as real >= roiArea) &&
      ((count * AvgVehicleArea) as real < roiArea ==>
         Density(count, roiArea) * roiArea == (count * AvgVehicleArea) as real * 100.0)
  {
    if count > 0 && roiArea > 0.0 {
      var occupied := (count * AvgVehicleArea) as real;
      var percentage := occupied / roiArea * 100.0;
      assert percentage * roiArea == occupied * 100.0;
      assert occupied >= roiArea <==> percentage >= 100.0 by {
        RatioAtLeast(occupied, roiArea);
      }
    }
  }

  /** `a / b * 100 >= 100` exactly when `a >= b`, for positive `a` and `b`. */
  lemma RatioAtLeast(a: real, b: real)
    requires a > 0.0 && b > 0.0
    ensures a / b * 100.0 >= 100.0 <==> a >= b
  {
    assert a / b * b == a;
    if a >= b {
      assert a / b >= 1.0;
    } else {
      assert a / b < 1.0;
    }
  }

  /** More vehicles in the same area never lower the density. */
  lemma DensityMonotone(c1: nat, c2: nat, roiArea: real)
    requires c1 <= c2
    ensures Density(c1, roiArea) <= Density(c2, roiArea)
  {
    if c1 > 0 && roiArea > 0.0 {
      assert (c1 * AvgVehicleArea) as real <= (c2 * AvgVehicleArea) as real;
      var p1 := (c1 * AvgVehicleArea) as real / roiArea * 100.0;
      var p2 := (c2 * AvgVehicleArea) as real / roiArea * 100.0;
      assert p1 * roiArea <= p2 * roiArea;
    }
    DensitySpec(c2, roiArea);
  }

  /** Appending one entry and keeping the recent ones: at most `MaxHistory`
      entries, the newest last, all of them the latest entries in order, and
      nothing dropped while the history was short. */
  lemma RecentSpec(h: seq<nat>, c: nat)
    ensures var r := Recent(h + [c]);
      0 < |r| <= MaxHistory && r[|r| - 1] == c && r == (h + [c])[|h| + 1 - |r|..] &&
      (|h| < MaxHistory ==> r == h + [c]) && (|h| >= MaxHistory ==> |r| == MaxHistory)
  {
  }

  /** Without an ROI and a frame shape every readable detection counts and
      the density is 0. */
  lemma NoRoi(dets: seq<seq<Field>>, test: PolygonTest, area: ContourArea, id: int)
    ensures id in IdsInRoi(dets, None, test) <==>
            exists i :: 0 <= i < |dets| && ParseDetection(dets[i]).Some? && ParseDetection(dets[i]).value.id == id
    ensures Density(|IdsInRoi(dets, None, test)|, RoiArea(None, area)) == 0.0
  {
    IdsInRoiSpec(dets, None, test, id);
  }

  // ---------------------------------------------------------------------
  // The counter object

  class AreaVehicleCounter {
    var roiPoints: Option<seq<Point>>
    var vehiclesInRoi: set<int>
    var densityHistory: seq<nat>
    var densityPercentage: real

    ghost predicate Valid()
      reads this
    {
      |densityHistory| <= MaxHistory
    }

    /** `__init__`: no vehicles, an empty history, density 0. */
    constructor (roiPoints: Option<seq<Point>>)
      ensures Valid() && this.roiPoints == roiPoints
      ensures vehiclesInRoi == {} && densityHistory == [] && densityPercentage == 0.0
    {
      this.roiPoints := roiPoints;
      vehiclesInRoi := {};
      densityHistory := [];
      densityPercentage := 0.0;
    }

    /** `set_roi`. */
    method SetRoi(roiPoints: Option<seq<Point>>)
      modifies this
      ensures this.roiPoints == roiPoints
      ensures vehiclesInRoi == old(vehiclesInRoi) && densityHistory == old(densityHistory)
      ensures densityPercentage == old(densityPercentage)
    {
      this.roiPoints := roiPoints;
    }

    /** `update`: the vehicles of this frame, the density, and one more
        history entry; returns the count and the density. */
    method Update(detections: seq<seq<Field>>, frameShape: Option<(int, int)>, test: PolygonTest, area: ContourArea)
      returns (count: nat, percentage: real)
      requires Valid()
      modifies this
      ensures Valid()
      ensures roiPoints == WithDefault(old(roiPoints), frameShape)
      ensures vehiclesInRoi == IdsInRoi(detections, roiPoints, test) && count == |vehiclesInRoi|
      ensures percentage == densityPercentage == Density(count, RoiArea(roiPoints, area))
      ensures densityHistory == Recent(old(densityHistory) + [count])
    {
      vehiclesInRoi := {};
      if roiPoints.None? && frameShape.Some? {
        var height, width := frameShape.value.0, frameShape.value.1;
        roiPoints := Some([(0, 0), (width, 0), (width, height), (0, height)]);
      }
      var roiArea := if roiPoints.None? then 0.0 else area(roiPoints.value);
      CollectVehicles(detections, test);
      count := |vehiclesInRoi|;
      if count > 0 && roiArea > 0.0 {
        var occupiedArea := count * AvgVehicleArea;
        var share := occupiedArea as real / roiArea * 100.0;
        densityPercentage := if share < 100.0 then share else 100.0;
      } else {
        densityPercentage := 0.0;
      }
      densityHistory := densityHistory + [count];
      if |densityHistory| > MaxHistory {
        densityHistory := densityHistory[|densityHistory| - MaxHistory..];
      }
      percentage := densityPercentage;
    }

    /** The loop of `update` over the detections, from an empty set. */
    method CollectVehicles(detections: seq<seq<Field>>, test: PolygonTest)
      requires vehiclesInRoi == {}
      modifies this
      ensures vehiclesInRoi == IdsInRoi(detections, roiPoints, test)
      ensures roiPoints == old(roiPoints) && densityHistory == old(densityHistory)
      ensures densityPercentage == old(densityPercentage)
    {
      for i := 0 to |detections|
        invariant roiPoints == old(roiPoints) && densityHistory == old(densityHistory)
        invariant densityPercentage == old(densityPercentage)
        invariant vehiclesInRoi == IdsInRoi(detections[..i], roiPoints, test)
      {
        assert detections[..i + 1][..i] == detections[..i];
        var det := ParseDetection(detections[i]);
        if det.Some? {
          var inRoi := if roiPoints.None? then true else test(roiPoints.value, det.value.centre) >= 0.0;
          if inRoi {
            vehiclesInRoi := vehiclesInRoi + {det.value.id};
          }
        }
      }
      assert detections[..|detections|] == detections;
    }
  }
}
