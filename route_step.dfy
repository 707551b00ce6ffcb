/**
 * The itinerary step record delivered by the routing service. The live-map overlay (App.tsx) and the
 * route review surface (RouteDisplay.tsx) declare the same `RouteStep` shape; it is modelled once here.
 */
module RouteStep {
  import opened Wrappers

  /** A geographic coordinate. The route code only copies coordinates and never computes with them. */
  datatype Point = LatLng(lat: real, lng: real)

  /**
   * One leg of an itinerary. `kind` is the payload's `type` field. The fields `to`, `stops`,
   * `duration` and `distance` are only displayed as text and are not part of the model.
   */
  datatype Step = Step(
    action: string,
    kind: Option<string>,
    line: Option<string>,
    at: Option<string>,
    from: Option<string>,
    polyline: Option<seq<Point>>,
    color: Option<string>,
    stopsBetween: Option<seq<string>>,
    location: Option<Point>)

  /** JavaScript truthiness of an optional string: present and not the empty string. */
  predicate Truthy(o: Option<string>) {
    o.Some? && o.value != ""
  }

  /** `value || fallback` on an optional string. */
  function OrElse(o: Option<string>, fallback: string): (r: string)
    ensures Truthy(o) ==> r == o.value
    ensures !Truthy(o) ==> r == fallback
  {
    if Truthy(o) then o.value else fallback
  }

  /** `step.polyline && step.polyline.length > 0` */
  predicate HasPath(s: Step) {
    s.polyline.Some? && |s.polyline.value| > 0
  }

  /** `isWalkStep` (App.tsx): the action or the secondary `type` says "walk". */
  predicate IsWalkStep(s: Step) {
    s.action == "walk" || s.kind == Some("walk")
  }

  /** `polyline[i]`, undefined outside the array. */
  function PointAt(poly: seq<Point>, i: int): (r: Option<Point>)
    ensures r.Some? <==> 0 <= i < |poly|
    ensures r.Some? ==> r.value == poly[i]
  {
    if 0 <= i < |poly| then Some(poly[i]) else None
  }

  /** What one step adds to the viewport bounds: its path, then its explicit location. */
  function StepPoints(s: Step): seq<Point> {
    (if HasPath(s) then s.polyline.value else []) + (if s.location.Some? then [s.location.value] else [])
  }

  /** The coordinate list the viewport is fitted to, step by step. */
  function RouteCoordinates(steps: seq<Step>): seq<Point> {
    if steps == [] then [] else RouteCoordinates(steps[..|steps| - 1]) + StepPoints(steps[|steps| - 1])
  }

  /** The list of a concatenation is the concatenation of the lists: the steps contribute in order. */
  lemma {:induction false} RouteCoordinatesAppend(a: seq<Step>, b: seq<Step>)
    ensures RouteCoordinates(a + b) == RouteCoordinates(a) + RouteCoordinates(b)
    decreases |b|
  {
    if b == [] {
      assert a + b == a;
    } else {
      var n := |b| - 1;
      RouteCoordinatesAppend(a, b[..n]);
      assert (a + b)[..|a + b| - 1] == a + b[..n];
      assert (a + b)[|a + b| - 1] == b[n];
    }
  }

  /** Every point of the bounds list is a path point or the explicit location of some step. */
  lemma {:induction false} RouteCoordinatesFrom(steps: seq<Step>, p: Point)
    requires p in RouteCoordinates(steps)
    ensures exists k :: 0 <= k < |steps| && p in StepPoints(steps[k])
    decreases |steps|
  {
    var n := |steps| - 1;
    var pre := steps[..n];
    if p in RouteCoordinates(pre) {
      RouteCoordinatesFrom(pre, p);
      var k :| 0 <= k < n && p in StepPoints(pre[k]);
      assert pre[k] == steps[k];
    } else {
      assert p in StepPoints(steps[n]);
    }
  }

  /** The bounds list holds every path point and every explicit location of every step. */
  lemma {:induction false} RouteCoordinatesCover(steps: seq<Step>, k: int, p: Point)
    requires 0 <= k < |steps| && p in StepPoints(steps[k])
    ensures p in RouteCoordinates(steps)
    decreases |steps|
  {
    var n := |steps| - 1;
    if k < n {
      RouteCoordinatesCover(steps[..n], k, p);
    }
  }

  /** The list is empty exactly when no step has a path or a location. */
  lemma {:induction false} RouteCoordinatesEmpty(steps: seq<Step>)
    ensures RouteCoordinates(steps) == [] <==>
      forall k :: 0 <= k < |steps| ==> !HasPath(steps[k]) && steps[k].location.None?
    decreases |steps|
  {
    if steps != [] {
      var n := |steps| - 1;
      RouteCoordinatesEmpty(steps[..n]);
      assert forall k :: 0 <= k < n ==> steps[..n][k] == steps[k];
      if HasPath(steps[n]) {
        assert StepPoints(steps[n])[0] == steps[n].polyline.value[0];
      }
    }
  }
}
