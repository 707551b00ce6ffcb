/**
 * The route review surface (RouteDisplay.tsx): the full-screen route map with its own, older stop
 * deriver (`getAllStops`, one pass, no special-stop precedence and no walk origin), its coordinate
 * list, the per-step drawing rule, the step colours of the details panel, the collapsible list of
 * intermediate stops and the initial map centre.
 */
module RouteReview {
  import opened Wrappers
  import opened RouteStep
  import opened RouteStops
  import RouteOverlay

  // ---------------------------------------------------------------------------------------------
  // The single-pass deriver (`getAllStops`)
  // ---------------------------------------------------------------------------------------------

  /** The stops `getAllStops` returns: pass two with no special names and no walk origin. */
  function ReviewStops(steps: seq<Step>): seq<DerivedStop> {
    Pass2(steps, {}, false, |steps|).stops
  }

  /** `getAllStops`: one loop that pushes board, transfer, intermediate and arrive stops. */
  method GetAllStops(steps: seq<Step>) returns (stops: seq<DerivedStop>)
    ensures stops == ReviewStops(steps)
  {
    var isFirstBoarding := true;
    var processedStopNames: set<string> := {};
    stops := [];
    ghost var origins: seq<Origin> := [];
    for k := 0 to |steps|
      invariant Derivation(stops, origins, processedStopNames, isFirstBoarding) == Pass2(steps, {}, false, k)
    {
      var step := steps[k];
      ghost var d := Derivation(stops, origins, processedStopNames, isFirstBoarding);

      if step.action == "board" && isFirstBoarding && Truthy(step.at) {
        var location := FindBoardLocation(steps, k);
        if location.Some? {
          stops := stops + [DerivedStop(location.value, Board, step.at.value, step.line)];
          origins := origins + [Origin(k, 1, 0)];
          processedStopNames := processedStopNames + {step.at.value};
          isFirstBoarding := false;
        }
      }
      ghost var d1 := Derivation(stops, origins, processedStopNames, isFirstBoarding);
      assert d1 == BoardBranch(steps, k, d);

      if step.action == "transfer" && step.location.Some? && Truthy(step.at) {
        if step.at.value !in processedStopNames {
          stops := stops + [DerivedStop(step.location.value, Transfer, step.at.value, None)];
          origins := origins + [Origin(k, 2, 0)];
          processedStopNames := processedStopNames + {step.at.value};
        }
      }
      ghost var d2 := Derivation(stops, origins, processedStopNames, isFirstBoarding);
      assert d2 == TransferBranch(k, step, d1);

      if step.action == "travel" && step.stopsBetween.Some? && step.polyline.Some? {
        stops, origins, processedStopNames :=
          PushStopsBetween(k, step, {}, stops, origins, processedStopNames, isFirstBoarding);
      }
      ghost var d3 := Derivation(stops, origins, processedStopNames, isFirstBoarding);
      assert d3 == TravelBranch(k, step, {}, d2);

      if step.action == "arrive" && step.location.Some? && Truthy(step.at) {
        if step.at.value !in processedStopNames {
          stops := stops + [DerivedStop(step.location.value, Arrive, step.at.value, None)];
          origins := origins + [Origin(k, 4, 0)];
          processedStopNames := processedStopNames + {step.at.value};
        }
      }
    }
  }

  /**
   * The review deriver never draws a walk stop, draws at most one board stop, and never repeats a
   * name with a transfer, intermediate or arrive stop.
   */
  lemma ReviewStopsShape(steps: seq<Step>)
    ensures var r := ReviewStops(steps);
      (forall i :: 0 <= i < |r| ==> r[i].role != Walk) &&
      (forall i, j :: 0 <= i < j < |r| && r[j].role == Board ==> r[i].role != Board) &&
      (forall i, j :: 0 <= i < j < |r| && Checked(r[j].role) ==> r[i].name != r[j].name)
  {
    var d := Pass2(steps, {}, false, |steps|);
    Pass2Inv(steps, {}, false, |steps|);
    forall i | 0 <= i < |d.stops| ensures d.stops[i].role != Walk {
      assert Justified(steps, {}, false, d.origins[i], d.stops[i]);
    }
  }

  /** The step and branch each stop of `getAllStops` comes from. */
  function ReviewOrigins(steps: seq<Step>): seq<Origin> {
    Pass2(steps, {}, false, |steps|).origins
  }

  /**
   * Every stop of the modal is what one branch of one step pushes: a board stop at the first point
   * of the first later travel path, a transfer or arrive stop at its step's location, an
   * intermediate stop at its interpolated point; and the stops appear in step and branch order.
   */
  lemma ReviewStopsProvenance(steps: seq<Step>)
    ensures var r, o := ReviewStops(steps), ReviewOrigins(steps);
      |o| == |r| &&
      (forall i :: 0 <= i < |r| ==> Justified(steps, {}, false, o[i], r[i])) &&
      (forall i, j :: 0 <= i < j < |r| ==> Before(o[i], o[j]))
  {
    Pass2Inv(steps, {}, false, |steps|);
  }

  /**
   * The modal's board stop comes from the first named board step whose forward search succeeds,
   * carries its name and line, and sits at the first point of the first travel path after it.
   */
  lemma ReviewStopsBoardPlaced(steps: seq<Step>)
    ensures var r := ReviewStops(steps);
      forall i :: 0 <= i < |r| && r[i].role == Board ==>
        exists k, t :: 0 <= k < t < |steps| && NamedBoard(steps[k]) && steps[k].at == Some(r[i].name) &&
          r[i].line == steps[k].line && TravelWithPath(steps[t]) && r[i].location == steps[t].polyline.value[0] &&
          (forall u :: k < u < t ==> !TravelWithPath(steps[u])) &&
          (forall j :: 0 <= j < k ==> !BoardCandidate(steps, j))
  {
    var d := Pass2(steps, {}, false, |steps|);
    Pass2Inv(steps, {}, false, |steps|);
    forall i | 0 <= i < |d.stops| && d.stops[i].role == Board
      ensures exists k, t ::
        0 <= k < t < |steps| && NamedBoard(steps[k]) && steps[k].at == Some(d.stops[i].name) &&
        d.stops[i].line == steps[k].line && TravelWithPath(steps[t]) &&
        d.stops[i].location == steps[t].polyline.value[0] &&
        (forall u :: k < u < t ==> !TravelWithPath(steps[u])) &&
        (forall j :: 0 <= j < k ==> !BoardCandidate(steps, j))
    {
      BoardStopPlaced(steps, {}, false, d.origins[i], d.stops[i]);
    }
  }

  /**
   * Every transfer or arrive step with a location and a name, and every intermediate name whose
   * interpolated point lies on the polyline, has a stop of that name in the modal's list.
   */
  lemma ReviewStopsComplete(steps: seq<Step>)
    ensures forall k ::
      (0 <= k < |steps| && (steps[k].action == "transfer" || steps[k].action == "arrive") &&
       steps[k].location.Some? && Truthy(steps[k].at)) ==>
      steps[k].at.value in Names(ReviewStops(steps))
    ensures forall k, j ::
      (0 <= k < |steps| && steps[k].action == "travel" && steps[k].stopsBetween.Some? && steps[k].polyline.Some? &&
       0 <= j < |steps[k].stopsBetween.value| &&
       0 <= InterpolationIndex(j, |steps[k].stopsBetween.value|, |steps[k].polyline.value|) < |steps[k].polyline.value|) ==>
      steps[k].stopsBetween.value[j] in Names(ReviewStops(steps))
  {
    forall k | 0 <= k < |steps| && (steps[k].action == "transfer" || steps[k].action == "arrive") &&
      steps[k].location.Some? && Truthy(steps[k].at)
      ensures steps[k].at.value in Names(ReviewStops(steps))
    {
      if steps[k].action == "transfer" {
        TransferNamed(steps, {}, false, k, |steps|);
      } else {
        ArriveNamed(steps, {}, false, k, |steps|);
      }
    }
    forall k, j |
      0 <= k < |steps| && steps[k].action == "travel" && steps[k].stopsBetween.Some? && steps[k].polyline.Some? &&
      0 <= j < |steps[k].stopsBetween.value| &&
      0 <= InterpolationIndex(j, |steps[k].stopsBetween.value|, |steps[k].polyline.value|) < |steps[k].polyline.value|
      ensures steps[k].stopsBetween.value[j] in Names(ReviewStops(steps))
    {
      IntermediateNamed(steps, {}, false, k, |steps|, j);
    }
  }

  /** No `stops_between` name of any step is a special name of pass one. */
  predicate NoSpecialBetween(steps: seq<Step>) {
    forall k, i :: 0 <= k < |steps| && steps[k].stopsBetween.Some? && 0 <= i < |steps[k].stopsBetween.value| ==>
      steps[k].stopsBetween.value[i] !in Classify(steps).specials
  }

  lemma {:induction false} BetweenIgnoresSpecials(k: nat, names: seq<string>, poly: seq<Point>, line: Option<string>,
                                                  specials: set<string>, j: nat, d: Derivation)
    requires j <= |names|
    requires forall i :: 0 <= i < |names| ==> names[i] !in specials
    ensures Between(k, names, poly, line, specials, j, d) == Between(k, names, poly, line, {}, j, d)
  {
    if j > 0 {
      BetweenIgnoresSpecials(k, names, poly, line, specials, j - 1, d);
    }
  }

  lemma {:induction false} Pass2Agrees(steps: seq<Step>, n: nat)
    requires n <= |steps|
    requires NoSpecialBetween(steps) && !WalkOrigin(steps)
    ensures Pass2(steps, Classify(steps).specials.Keys, true, n) == Pass2(steps, {}, false, n)
  {
    if n > 0 {
      var sp := Classify(steps).specials.Keys;
      var k := n - 1;
      Pass2Agrees(steps, k);
      var d := Pass2(steps, {}, false, k);
      assert WalkBranch(steps, k, d) == d;
      var s := steps[k];
      var d2 := TransferBranch(k, s, BoardBranch(steps, k, d));
      if s.action == "travel" && s.stopsBetween.Some? && s.polyline.Some? {
        BetweenIgnoresSpecials(k, s.stopsBetween.value, s.polyline.value, s.line, sp, |s.stopsBetween.value|, d2);
      }
      assert TravelBranch(k, s, sp, d2) == TravelBranch(k, s, {}, d2);
    }
  }

  /**
   * When no intermediate name is special and step 0 is no walk origin, the overlay's two-pass
   * deriver and the review's single-pass deriver return the same stops.
   */
  lemma DeriversAgree(steps: seq<Step>)
    requires NoSpecialBetween(steps) && !WalkOrigin(steps)
    ensures DeriveStops(steps) == ReviewStops(steps)
  {
    Pass2Agrees(steps, |steps|);
  }

  /**
   * Without precedence, an intermediate stop that is later a transfer is drawn as `travel` by the
   * review deriver and the transfer itself is suppressed; the overlay deriver draws the transfer.
   */
  lemma NoPrecedenceExample(p: Point, q: Point, t: Point, u: Point)
    ensures var steps := [
        Step("travel", None, Some("7"), None, None, Some([p, q, t]), None, Some(["X"]), None),
        Step("transfer", None, None, Some("X"), None, None, None, None, Some(u))];
      ReviewStops(steps) == [DerivedStop(q, Travel, "X", Some("7"))] &&
      DeriveStops(steps) == [DerivedStop(u, Transfer, "X", None)]
  {
    var travel := Step("travel", None, Some("7"), None, None, Some([p, q, t]), None, Some(["X"]), None);
    var transfer := Step("transfer", None, None, Some("X"), None, None, None, None, Some(u));
    var steps := [travel, transfer];
    assert steps[..1] == [travel];
    assert [travel][..0] == [];
    assert InterpolationIndex(0, 1, 3) == 1;
    var sp := Classify(steps).specials;
    assert Classify([travel]).specials == map[];
    assert sp == map["X" := Transfer];
    assert Pass2(steps, {}, false, 0) == Initial && Pass2(steps, sp.Keys, true, 0) == Initial;
    assert PointAt([p, q, t], 1) == Some(q);
    var poly, names := [p, q, t], ["X"];
    assert Between(0, names, poly, Some("7"), {}, 0, Initial) == Initial;
    assert Between(0, names, poly, Some("7"), {}, 1, Initial).stops == [DerivedStop(q, Travel, "X", Some("7"))];
    assert Between(0, names, poly, Some("7"), sp.Keys, 1, Initial) == Initial;
    var r1 := Pass2(steps, {}, false, 1);
    assert r1.stops == [DerivedStop(q, Travel, "X", Some("7"))];
    assert "X" in r1.processed;
    var o1 := Pass2(steps, sp.Keys, true, 1);
    assert o1.stops == [];
    assert "X" !in o1.processed;
  }

  // ---------------------------------------------------------------------------------------------
  // Coordinates (`getAllCoordinates`)
  // ---------------------------------------------------------------------------------------------

  /** `getAllCoordinates`: every path point, then the explicit location, step by step. */
  method GetAllCoordinates(steps: seq<Step>) returns (allCoordinates: seq<Point>)
    ensures allCoordinates == RouteCoordinates(steps)
  {
    allCoordinates := [];
    for i := 0 to |steps|
      invariant allCoordinates == RouteCoordinates(steps[..i])
    {
      assert steps[..i + 1][..i] == steps[..i];
      var step := steps[i];
      if step.polyline.Some? && |step.polyline.value| > 0 {
        allCoordinates := allCoordinates + step.polyline.value;
      }
      if step.location.Some? {
        allCoordinates := allCoordinates + [step.location.value];
      }
    }
    assert steps[..|steps|] == steps;
  }

  // ---------------------------------------------------------------------------------------------
  // What a step draws (`RouteStepVisual`)
  // ---------------------------------------------------------------------------------------------

  /** The map element `RouteStepVisual` renders for one step. */
  datatype Visual = PathVisual(positions: seq<Point>, style: RouteOverlay.PathStyle)
                  | MarkerVisual(position: Point)
                  | NoVisual

  const ReviewPathColor := "#0c4a6e"

  /**
   * A non-empty path wins and is drawn in the step's colour (default blue), dashed only when the
   * secondary `type` says walk; otherwise a transfer or arrive step with a location draws a stop
   * marker there; any other step draws nothing.
   */
  function StepVisual(s: Step): (r: Visual)
    ensures r.PathVisual? <==> HasPath(s)
    ensures r.PathVisual? ==>
      (r.positions == s.polyline.value &&
       r.style == RouteOverlay.PathStyle(OrElse(s.color, ReviewPathColor), 5, 0.8,
                                         if s.kind == Some("walk") then Some("10, 10") else None))
    ensures r.MarkerVisual? <==>
      !HasPath(s) && s.location.Some? && (s.action == "transfer" || s.action == "arrive")
    ensures r.MarkerVisual? ==> r.position == s.location.value
  {
    if HasPath(s) then
      PathVisual(s.polyline.value,
                 RouteOverlay.PathStyle(OrElse(s.color, ReviewPathColor), 5, 0.8,
                                        if s.kind == Some("walk") then Some("10, 10") else None))
    else if s.location.Some? && (s.action == "transfer" || s.action == "arrive") then
      MarkerVisual(s.location.value)
    else NoVisual
  }

  /**
   * The review surface and the live overlay draw a path for the same steps and along the same
   * points; they differ only in style, and a step whose action is "walk" without a walk `type` is
   * dashed on the overlay but solid here.
   */
  lemma SamePathsAsOverlay(s: Step)
    ensures StepVisual(s).PathVisual? <==> RouteOverlay.StepSegment(s).Some?
    ensures StepVisual(s).PathVisual? ==> StepVisual(s).positions == RouteOverlay.StepSegment(s).value.positions
    ensures HasPath(s) && s.action == "walk" && s.kind == None ==>
      RouteOverlay.StepSegment(s).value.style.dashArray.Some? && StepVisual(s).style.dashArray.None?
  {
  }

  // ---------------------------------------------------------------------------------------------
  // Step colour of the details panel (`getStepColor`)
  // ---------------------------------------------------------------------------------------------

  const WalkStepColor := "#6b7280"
  const BusStepColor := "#0c4a6e"
  const TransferStepColor := "#f59e0b"
  const ArriveStepColor := "#10b981"

  /** An explicit colour wins; otherwise each action has its fixed colour and unknown actions grey. */
  function StepColor(s: Step): (r: string)
    ensures r != ""
    ensures Truthy(s.color) ==> r == s.color.value
    ensures !Truthy(s.color) ==>
      r == (if s.action == "board" || s.action == "travel" then BusStepColor
            else if s.action == "transfer" then TransferStepColor
            else if s.action == "arrive" then ArriveStepColor
            else WalkStepColor)
  {
    if Truthy(s.color) then s.color.value
    else match s.action
      case "walk" => WalkStepColor
      case "board" => BusStepColor
      case "travel" => BusStepColor
      case "transfer" => TransferStepColor
      case "arrive" => ArriveStepColor
      case _ => WalkStepColor
  }

  // ---------------------------------------------------------------------------------------------
  // The collapsible list of intermediate stops (`StopsList`)
  // ---------------------------------------------------------------------------------------------

  /** Lists longer than this start collapsed and can be toggled. */
  const CollapseThreshold := 5
  /** How many stops a collapsed list shows. */
  const CollapsedCount := 3

  /** The `StopsList` component: a fixed list of stop names and its `isExpanded` state. */
  class StopsList {
    const stops: seq<string>
    var isExpanded: bool

    /** A list can only be collapsed when it is long enough to toggle. */
    ghost predicate Valid()
      reads this
    {
      !isExpanded ==> |stops| > CollapseThreshold
    }

    /** The list starts expanded exactly when it has at most five stops. */
    constructor (stops: seq<string>)
      ensures this.stops == stops && Valid()
      ensures isExpanded <==> |stops| <= CollapseThreshold
    {
      this.stops := stops;
      isExpanded := |stops| <= CollapseThreshold;
    }

    /** `hasMore`: the header can be clicked. */
    predicate HasMore()
      reads this
    {
      |stops| > CollapseThreshold
    }

    /** The shown stops: all of them when expanded, otherwise the first three. */
    function DisplayStops(): (r: seq<string>)
      reads this
      requires Valid()
      ensures isExpanded ==> r == stops
      ensures !isExpanded ==> r == stops[..CollapsedCount] && |r| == CollapsedCount
    {
      if isExpanded then stops else stops[..if |stops| < CollapsedCount then |stops| else CollapsedCount]
    }

    /** The count on the "show more" button, which is shown only when collapsed. */
    function MoreCount(): (n: int)
      reads this
      requires Valid()
      ensures !isExpanded ==> n == |stops| - CollapsedCount && n > CollapseThreshold - CollapsedCount
      ensures isExpanded ==> n == 0
    {
      |stops| - |DisplayStops()|
    }

    /** A click on the header toggles the list when it has more than five stops. */
    method Click()
      requires Valid()
      modifies this
      ensures Valid()
      ensures isExpanded == if HasMore() then !old(isExpanded) else old(isExpanded)
    {
      if HasMore() {
        isExpanded := !isExpanded;
      }
    }

    /** The "show more" button, rendered only while a long list is collapsed, expands it. */
    method ShowMore()
      requires Valid() && HasMore() && !isExpanded
      modifies this
      ensures Valid() && isExpanded
    {
      isExpanded := true;
    }
  }

  // ---------------------------------------------------------------------------------------------
  // The initial centre of the review map
  // ---------------------------------------------------------------------------------------------

  /** The centre used when the route has nowhere better to start (Algiers). */
  const FallbackCenter := LatLng(36.7538, 3.0588)

  /** The first point of the first step's path, else the first step's location, else Algiers. */
  function ModalCenter(steps: seq<Step>): (c: Point)
    ensures steps != [] && HasPath(steps[0]) ==> c == steps[0].polyline.value[0]
    ensures steps != [] && !HasPath(steps[0]) && steps[0].location.Some? ==> c == steps[0].location.value
    ensures (steps == [] || (!HasPath(steps[0]) && steps[0].location.None?)) ==> c == FallbackCenter
    ensures c == FallbackCenter || c in RouteCoordinates(steps)
  {
    if steps != [] && HasPath(steps[0]) then
      RouteCoordinatesCover(steps, 0, steps[0].polyline.value[0]);
      steps[0].polyline.value[0]
    else if steps != [] && steps[0].location.Some? then
      RouteCoordinatesCover(steps, 0, steps[0].location.value);
      steps[0].location.value
    else FallbackCenter
  }
}
