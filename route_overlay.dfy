/**
 * The route overlay drawn on the live map (App.tsx): one label per bus leg, the styled polyline of
 * every step that has a path, and the coordinate list the viewport is fitted to.
 */
module RouteOverlay {
  import opened Wrappers
  import opened RouteStep
  import Seqs

  // ---------------------------------------------------------------------------------------------
  // Line labels (`getLineLabels`)
  // ---------------------------------------------------------------------------------------------

  /** The label colour of a leg that has no colour of its own. */
  const DefaultLabelColor := "#FBBC04"

  /** A line-name badge placed on a travel leg. */
  datatype LineLabel = LineLabel(location: Point, line: string, color: string)

  /**
   * The polyline index of the label of a leg with `length` points: `Math.floor(length * 0.15)`,
   * computed on integers.
   */
  function LabelIndex(length: nat): (i: nat)
    ensures length > 0 ==> i < length
    ensures i <= length
  {
    (15 * length) / 100
  }

  /** A travel leg with a line name and a non-empty path gets a label. */
  predicate Labelled(s: Step) {
    s.action == "travel" && Truthy(s.line) && HasPath(s)
  }

  /** The label of one leg; the `|| polyline[0]` fallback of the source never applies. */
  function StepLabel(s: Step): (r: LineLabel)
    requires Labelled(s)
    ensures r.location == s.polyline.value[LabelIndex(|s.polyline.value|)]
    ensures r.line == s.line.value
    ensures Truthy(s.color) ==> r.color == s.color.value
    ensures !Truthy(s.color) ==> r.color == DefaultLabelColor
  {
    var poly := s.polyline.value;
    LineLabel(PointAt(poly, LabelIndex(|poly|)).GetOr(poly[0]), s.line.value, OrElse(s.color, DefaultLabelColor))
  }

  /** The labels of the first steps, in step order. */
  function LineLabels(steps: seq<Step>): seq<LineLabel> {
    if steps == [] then []
    else
      var last := steps[|steps| - 1];
      LineLabels(steps[..|steps| - 1]) + (if Labelled(last) then [StepLabel(last)] else [])
  }

  /** `getLineLabels`: the `forEach` that pushes one label per labelled leg. */
  method GetLineLabels(steps: seq<Step>) returns (labels: seq<LineLabel>)
    ensures labels == LineLabels(steps)
  {
    labels := [];
    for i := 0 to |steps|
      invariant labels == LineLabels(steps[..i])
    {
      assert steps[..i + 1][..i] == steps[..i];
      var step := steps[i];
      if step.action == "travel" && Truthy(step.line) && step.polyline.Some? && |step.polyline.value| > 0 {
        var labelIndex := (15 * |step.polyline.value|) / 100;
        labels := labels + [LineLabel(step.polyline.value[labelIndex], step.line.value,
                                      if Truthy(step.color) then step.color.value else DefaultLabelColor)];
      }
    }
    assert steps[..|steps|] == steps;
  }

  /**
   * There is exactly one label per labelled leg, in step order, and the i-th label is the label of
   * the i-th labelled leg. Labels are not merged by line name.
   */
  lemma {:induction false} LineLabelsPerLeg(steps: seq<Step>)
    ensures var legs := Seqs.Filter(steps, Labelled);
      |LineLabels(steps)| == |legs| &&
      forall i :: 0 <= i < |legs| ==> LineLabels(steps)[i] == StepLabel(legs[i])
    decreases |steps|
  {
    if steps != [] {
      var n := |steps| - 1;
      var last := steps[n];
      LineLabelsPerLeg(steps[..n]);
      assert steps == steps[..n] + [last];
      Seqs.FilterAppend(steps[..n], [last], Labelled);
      assert Seqs.Filter([last], Labelled) == if Labelled(last) then [last] else [];
    }
  }

  /** Two legs of the same line each get their own label. */
  lemma SameLineTwice(a: Step, b: Step)
    requires Labelled(a) && Labelled(b) && a.line == b.line
    ensures LineLabels([a, b]) == [StepLabel(a), StepLabel(b)]
    ensures LineLabels([a, b])[0].line == LineLabels([a, b])[1].line
  {
    assert [a, b][..1] == [a];
    assert [a][..0] == [];
    assert LineLabels([a]) == [StepLabel(a)];
  }

  // ---------------------------------------------------------------------------------------------
  // Polyline styling (the `routeData.steps.map` that draws every path)
  // ---------------------------------------------------------------------------------------------

  /** The Leaflet path options of a drawn step. */
  datatype PathStyle = PathStyle(color: string, weight: nat, opacity: real, dashArray: Option<string>)

  /** A drawn polyline. */
  datatype Segment = Segment(positions: seq<Point>, style: PathStyle)

  const WalkColor := "#6B7280"
  const DefaultLegColor := "#0c4a6e"

  /**
   * What the `map` callback returns for one step: nothing without a path; a grey, thinner, dashed
   * line for a walk; otherwise a solid line in the step's colour or the default blue.
   */
  function StepSegment(s: Step): (r: Option<Segment>)
    ensures r.Some? <==> HasPath(s)
    ensures r.Some? ==> r.value.positions == s.polyline.value && r.value.style.opacity == 0.9
    ensures r.Some? ==> (r.value.style.dashArray.Some? <==> IsWalkStep(s))
    ensures r.Some? && IsWalkStep(s) ==> r.value.style == PathStyle(WalkColor, 4, 0.9, Some("10, 10"))
    ensures r.Some? && !IsWalkStep(s) ==>
      r.value.style.weight == 6 && r.value.style.color == OrElse(s.color, DefaultLegColor)
  {
    if HasPath(s) then
      var isWalk := IsWalkStep(s);
      Some(Segment(s.polyline.value,
                   PathStyle(if isWalk then WalkColor else OrElse(s.color, DefaultLegColor),
                             if isWalk then 4 else 6, 0.9,
                             if isWalk then Some("10, 10") else None)))
    else None
  }

  /** The drawn polylines, one entry per step (a `null` entry draws nothing). */
  function RoutePolylines(steps: seq<Step>): (r: seq<Option<Segment>>)
    ensures |r| == |steps|
    ensures forall i :: 0 <= i < |steps| ==> (r[i].Some? <==> HasPath(steps[i]))
    ensures forall i :: 0 <= i < |steps| && HasPath(steps[i]) ==>
      r[i].Some? && r[i].value.positions == steps[i].polyline.value
  {
    seq(|steps|, i requires 0 <= i < |steps| => StepSegment(steps[i]))
  }

  // ---------------------------------------------------------------------------------------------
  // Viewport fit (`FitRouteBounds`)
  // ---------------------------------------------------------------------------------------------

  /**
   * The effect of `FitRouteBounds`: with no route it does nothing; otherwise it collects every path
   * point and every explicit location, step by step, and requests a fit to that list only when it
   * is not empty. The timer and the map call are left out: the result is the requested list.
   */
  method FitRouteBounds(route: Option<seq<Step>>) returns (fit: Option<seq<Point>>)
    ensures route.None? ==> fit.None?
    ensures route.Some? && RouteCoordinates(route.value) == [] ==> fit.None?
    ensures route.Some? && RouteCoordinates(route.value) != [] ==> fit == Some(RouteCoordinates(route.value))
  {
    if route.None? {
      return None;
    }
    var steps := route.value;
    var allCoordinates: seq<Point> := [];
    for i := 0 to |steps|
      invariant allCoordinates == RouteCoordinates(steps[..i])
    {
      assert steps[..i + 1][..i] == steps[..i];
      var step := steps[i];
      if step.polyline.Some? && |step.polyline.value| > 0 {
        allCoordinates := allCoordinates + step.polyline.value;
      }
      if step.location.Some? {
        allCoordinates := allCoordinates + [step.location.value];
      }
    }
    assert steps[..|steps|] == steps;
    fit := if |allCoordinates| > 0 then Some(allCoordinates) else None;
  }
}
