/**
 * The stop deriver of the live-map route overlay (`getAllStopsFromRoute`, App.tsx).
 *
 * Pass one classifies the names of "special" stops (the first boarding stop, every transfer and
 * every arrival). Pass two walks the steps in order and emits derived stops: the walk origin of
 * step 0, the first boarding stop (placed at the start of the next travel polyline), transfer
 * stops, intermediate stops estimated along the travel polyline, and arrival stops.
 *
 * The specification is a fold over the steps (`Classify`, `Pass2`). `Pass2` is parametrised by
 * the set of special names and by whether the walk origin is emitted, so that the older review
 * deriver (RouteDisplay.tsx) is the same fold with no special names and no walk origin.
 */
module RouteStops {
  import opened Wrappers
  import opened RouteStep

  /** The role a derived stop is drawn with. */
  datatype Role = Walk | Board | Transfer | Travel | Arrive

  /** A map-renderable stop computed from the steps. */
  datatype DerivedStop = DerivedStop(location: Point, role: Role, name: string, line: Option<string>)

  // ---------------------------------------------------------------------------------------------
  // Pass one: special stops
  // ---------------------------------------------------------------------------------------------

  /** The state of pass one: the `specialStops` map and the `isFirstBoarding` flag. */
  datatype Classification = Classification(specials: map<string, Role>, firstBoarding: bool)

  /** A board step that names its stop. */
  predicate NamedBoard(s: Step) {
    s.action == "board" && Truthy(s.at)
  }

  /** The body of the first `forEach` over the steps. */
  function ClassifyStep(c: Classification, s: Step): Classification {
    var c1 := if s.action == "board" && Truthy(s.at) && c.firstBoarding
              then Classification(c.specials[s.at.value := Board], false) else c;
    var c2 := if s.action == "transfer" && Truthy(s.at)
              then c1.(specials := c1.specials[s.at.value := Transfer]) else c1;
    if s.action == "arrive" && Truthy(s.at)
    then c2.(specials := c2.specials[s.at.value := Arrive]) else c2
  }

  /** Pass one over a prefix of the steps. */
  function Classify(steps: seq<Step>): Classification {
    if steps == [] then Classification(map[], true)
    else ClassifyStep(Classify(steps[..|steps| - 1]), steps[|steps| - 1])
  }

  /** Name `x` is recorded by pass one because of step `k`. */
  ghost predicate SpecialBecause(steps: seq<Step>, k: int, x: string) {
    0 <= k < |steps| && steps[k].at == Some(x) && x != "" &&
    (steps[k].action == "transfer" || steps[k].action == "arrive" ||
     (steps[k].action == "board" && forall j :: 0 <= j < k ==> !NamedBoard(steps[j])))
  }

  /**
   * Pass one records exactly the names of transfer and arrive steps and the name of the first board
   * step that has one, and its flag is still set exactly when no board step names a stop.
   */
  lemma {:induction false} ClassifyRecords(steps: seq<Step>, x: string)
    ensures x in Classify(steps).specials <==> exists k :: SpecialBecause(steps, k, x)
    ensures Classify(steps).firstBoarding <==> forall j :: 0 <= j < |steps| ==> !NamedBoard(steps[j])
    decreases |steps|
  {
    if steps != [] {
      var n := |steps| - 1;
      var pre := steps[..n];
      ClassifyRecords(pre, x);
      assert forall k :: 0 <= k < n ==> pre[k] == steps[k];
      assert forall k :: SpecialBecause(pre, k, x) <==> (SpecialBecause(steps, k, x) && k < n);
      if x in Classify(steps).specials && x !in Classify(pre).specials {
        assert SpecialBecause(steps, n, x);
      }
      if SpecialBecause(steps, n, x) {
        assert x in Classify(steps).specials;
      }
    }
  }

  // ---------------------------------------------------------------------------------------------
  // Pass two: emitted stops
  // ---------------------------------------------------------------------------------------------

  /**
   * Where a derived stop comes from: the step index, the branch of the step body that pushed it
   * (0 walk, 1 board, 2 transfer, 3 intermediate, 4 arrive) and, for an intermediate stop, its
   * index in `stops_between`.
   */
  datatype Origin = Origin(step: int, branch: int, sub: int)

  /** The state of pass two: the `stops` array, the `processedStopNames` set and the
      `isFirstBoarding` flag, together with the origin of every stop pushed so far. */
  datatype Derivation = Derivation(stops: seq<DerivedStop>, origins: seq<Origin>,
                                   processed: set<string>, firstBoarding: bool)

  const Initial := Derivation([], [], {}, true)

  /** `stops.push(s); processedStopNames.add(s.name)` */
  function Emit(d: Derivation, s: DerivedStop, o: Origin): Derivation {
    d.(stops := d.stops + [s], origins := d.origins + [o], processed := d.processed + {s.name})
  }

  /** Step 0 is a walk leg with a path and a `from` name: its origin marker is emitted. */
  predicate WalkOrigin(steps: seq<Step>) {
    |steps| > 0 && IsWalkStep(steps[0]) && HasPath(steps[0]) && Truthy(steps[0].from)
  }

  function WalkBranch(steps: seq<Step>, k: nat, d: Derivation): Derivation
    requires k < |steps|
  {
    var s := steps[k];
    if IsWalkStep(s) && HasPath(s) && k == 0 && Truthy(s.from)
    then Emit(d, DerivedStop(s.polyline.value[0], Walk, s.from.value, None), Origin(k, 0, 0))
    else d
  }

  /** The forward search of the board branch: the first point of the first travel step at index
      `i` or later that has a non-empty polyline. */
  function NextTravelStart(steps: seq<Step>, i: nat): Option<Point>
    decreases |steps| - i
  {
    if i >= |steps| then None
    else if steps[i].action == "travel" && HasPath(steps[i]) then Some(steps[i].polyline.value[0])
    else NextTravelStart(steps, i + 1)
  }

  /** A travel step with a non-empty polyline. */
  predicate TravelWithPath(s: Step) {
    s.action == "travel" && HasPath(s)
  }

  /** A board step whose forward search succeeds: the only steps that can place the origin. */
  predicate BoardCandidate(steps: seq<Step>, k: int) {
    0 <= k < |steps| && NamedBoard(steps[k]) && NextTravelStart(steps, k + 1).Some?
  }

  function BoardBranch(steps: seq<Step>, k: nat, d: Derivation): Derivation
    requires k < |steps|
  {
    var s := steps[k];
    if s.action == "board" && d.firstBoarding && Truthy(s.at) then
      match NextTravelStart(steps, k + 1)
      case None => d
      case Some(p) => Emit(d, DerivedStop(p, Board, s.at.value, s.line), Origin(k, 1, 0)).(firstBoarding := false)
    else d
  }

  function TransferBranch(k: nat, s: Step, d: Derivation): Derivation {
    if s.action == "transfer" && s.location.Some? && Truthy(s.at) && s.at.value !in d.processed
    then Emit(d, DerivedStop(s.location.value, Transfer, s.at.value, None), Origin(k, 2, 0))
    else d
  }

  /**
   * The polyline index of the idx-th of `count` intermediate stops on a polyline of `length`
   * points: `floor((idx + 1) / (count + 1) * (length - 1))`, computed on integers. Dafny's `/`
   * rounds towards negative infinity for a positive divisor, as `Math.floor` does.
   */
  function InterpolationIndex(idx: int, count: nat, length: nat): int {
    ((idx + 1) * (length - 1)) / (count + 1)
  }

  /** The `stops_between.forEach` of one travel step, over its first `j` names. */
  function Between(k: nat, names: seq<string>, poly: seq<Point>, line: Option<string>,
                   specials: set<string>, j: nat, d: Derivation): Derivation
    requires j <= |names|
  {
    if j == 0 then d
    else
      var d' := Between(k, names, poly, line, specials, j - 1, d);
      var name := names[j - 1];
      if name in d'.processed || name in specials then d'
      else match PointAt(poly, InterpolationIndex(j - 1, |names|, |poly|))
        case None => d'
        case Some(p) => Emit(d', DerivedStop(p, Travel, name, line), Origin(k, 3, j - 1))
  }

  function TravelBranch(k: nat, s: Step, specials: set<string>, d: Derivation): Derivation {
    if s.action == "travel" && s.stopsBetween.Some? && s.polyline.Some?
    then Between(k, s.stopsBetween.value, s.polyline.value, s.line, specials, |s.stopsBetween.value|, d)
    else d
  }

  function ArriveBranch(k: nat, s: Step, d: Derivation): Derivation {
    if s.action == "arrive" && s.location.Some? && Truthy(s.at) && s.at.value !in d.processed
    then Emit(d, DerivedStop(s.location.value, Arrive, s.at.value, None), Origin(k, 4, 0))
    else d
  }

  /** The body of the second `forEach`, for step `k`. */
  function StepBody(steps: seq<Step>, specials: set<string>, walk: bool, k: nat, d: Derivation): Derivation
    requires k < |steps|
  {
    var d0 := if walk then WalkBranch(steps, k, d) else d;
    var d1 := BoardBranch(steps, k, d0);
    var d2 := TransferBranch(k, steps[k], d1);
    var d3 := TravelBranch(k, steps[k], specials, d2);
    ArriveBranch(k, steps[k], d3)
  }

  /** Pass two over the first `n` steps. */
  function Pass2(steps: seq<Step>, specials: set<string>, walk: bool, n: nat): Derivation
    requires n <= |steps|
  {
    if n == 0 then Initial
    else StepBody(steps, specials, walk, n - 1, Pass2(steps, specials, walk, n - 1))
  }

  /** The stops `getAllStopsFromRoute` returns. */
  function DeriveStops(steps: seq<Step>): seq<DerivedStop> {
    Pass2(steps, Classify(steps).specials.Keys, true, |steps|).stops
  }

  /** The origins of the stops `getAllStopsFromRoute` returns. */
  function DeriveOrigins(steps: seq<Step>): seq<Origin> {
    Pass2(steps, Classify(steps).specials.Keys, true, |steps|).origins
  }

  // ---------------------------------------------------------------------------------------------
  // What every emitted stop satisfies
  // ---------------------------------------------------------------------------------------------

  /** Transfer, intermediate and arrive stops are pushed only under a name not yet processed. */
  predicate Checked(r: Role) {
    r == Transfer || r == Travel || r == Arrive
  }

  /** Stop `s` with origin `o` is what the branch `o.branch` of step `o.step` pushes. */
  ghost predicate Justified(steps: seq<Step>, specials: set<string>, walk: bool, o: Origin, s: DerivedStop) {
    0 <= o.step < |steps| &&
    var st := steps[o.step];
    match s.role
    case Walk =>
      walk && o == Origin(0, 0, 0) && IsWalkStep(st) && HasPath(st) && st.from == Some(s.name) && s.name != "" &&
      s.location == st.polyline.value[0] && s.line == None
    case Board =>
      o.branch == 1 && o.sub == 0 && st.action == "board" && st.at == Some(s.name) && s.name != "" && s.line == st.line &&
      NextTravelStart(steps, o.step + 1) == Some(s.location) &&
      forall j :: 0 <= j < o.step ==> !BoardCandidate(steps, j)
    case Transfer =>
      o.branch == 2 && o.sub == 0 && st.action == "transfer" && st.at == Some(s.name) && s.name != "" &&
      st.location == Some(s.location) && s.line == None
    case Travel =>
      o.branch == 3 && st.action == "travel" && st.stopsBetween.Some? && st.polyline.Some? &&
      0 <= o.sub < |st.stopsBetween.value| && st.stopsBetween.value[o.sub] == s.name &&
      s.name !in specials && s.line == st.line &&
      PointAt(st.polyline.value, InterpolationIndex(o.sub, |st.stopsBetween.value|, |st.polyline.value|)) == Some(s.location)
    case Arrive =>
      o.branch == 4 && o.sub == 0 && st.action == "arrive" && st.at == Some(s.name) && s.name != "" &&
      st.location == Some(s.location) && s.line == None
  }

  /** Lexicographic order of origins: step, then branch, then index in `stops_between`. */
  predicate Before(a: Origin, b: Origin) {
    a.step < b.step || (a.step == b.step && (a.branch < b.branch || (a.branch == b.branch && a.sub < b.sub)))
  }

  function Names(stops: seq<DerivedStop>): set<string> {
    set i | 0 <= i < |stops| :: stops[i].name
  }

  ghost predicate Sound(steps: seq<Step>, specials: set<string>, walk: bool, d: Derivation) {
    |d.origins| == |d.stops| &&
    forall i :: 0 <= i < |d.stops| ==> Justified(steps, specials, walk, d.origins[i], d.stops[i])
  }

  ghost predicate Ordered(origins: seq<Origin>) {
    forall i, j :: 0 <= i < j < |origins| ==> Before(origins[i], origins[j])
  }

  ghost predicate Below(origins: seq<Origin>, bound: Origin) {
    forall i :: 0 <= i < |origins| ==> Before(origins[i], bound)
  }

  /** No transfer, intermediate or arrive stop repeats the name of an earlier stop. */
  ghost predicate FreshNames(stops: seq<DerivedStop>) {
    forall i, j :: 0 <= i < j < |stops| && Checked(stops[j].role) ==> stops[i].name != stops[j].name
  }

  ghost predicate AtMostOneBoard(stops: seq<DerivedStop>) {
    forall i, j :: 0 <= i < j < |stops| && stops[j].role == Board ==> stops[i].role != Board
  }

  ghost predicate NoBoard(stops: seq<DerivedStop>) {
    forall i :: 0 <= i < |stops| ==> stops[i].role != Board
  }

  /** Step `j` has been fully processed by the board branch when the next push has origin `bound`. */
  predicate Visited(bound: Origin, j: int) {
    j < bound.step || (j == bound.step && bound.branch >= 2)
  }

  /** The invariant of pass two, with every origin so far strictly before `bound`. */
  ghost predicate Inv(steps: seq<Step>, specials: set<string>, walk: bool, d: Derivation, bound: Origin) {
    Sound(steps, specials, walk, d) && Ordered(d.origins) && Below(d.origins, bound) &&
    d.processed == Names(d.stops) && FreshNames(d.stops) && AtMostOneBoard(d.stops) &&
    (d.firstBoarding <==> NoBoard(d.stops)) &&
    (d.firstBoarding ==> forall j :: 0 <= j < |steps| && Visited(bound, j) ==> !BoardCandidate(steps, j))
  }

  lemma NamesEmit(stops: seq<DerivedStop>, s: DerivedStop)
    ensures Names(stops + [s]) == Names(stops) + {s.name}
  {
    var e := stops + [s];
    forall x | x in Names(e) ensures x in Names(stops) + {s.name} {
      var i :| 0 <= i < |e| && e[i].name == x;
      if i < |stops| { assert stops[i] == e[i]; }
    }
    forall x | x in Names(stops) ensures x in Names(e) {
      var i :| 0 <= i < |stops| && stops[i].name == x;
      assert e[i] == stops[i];
    }
    assert e[|stops|] == s;
  }

  /** The parts of the invariant that a push keeps whatever its role. */
  lemma EmitStructure(steps: seq<Step>, specials: set<string>, walk: bool, d: Derivation, s: DerivedStop,
                      o: Origin, bound: Origin)
    requires Sound(steps, specials, walk, d) && Ordered(d.origins) && Below(d.origins, o)
    requires d.processed == Names(d.stops) && FreshNames(d.stops)
    requires Justified(steps, specials, walk, o, s)
    requires Checked(s.role) ==> s.name !in d.processed
    requires Before(o, bound)
    ensures var e := Emit(d, s, o);
      Sound(steps, specials, walk, e) && Ordered(e.origins) && Below(e.origins, bound) &&
      e.processed == Names(e.stops) && FreshNames(e.stops)
  {
    var e := Emit(d, s, o);
    var n := |d.stops|;
    NamesEmit(d.stops, s);
    assert e.stops[n] == s && e.origins[n] == o;
    forall i | 0 <= i < |e.stops| ensures Justified(steps, specials, walk, e.origins[i], e.stops[i]) {
      if i < n { assert e.stops[i] == d.stops[i] && e.origins[i] == d.origins[i]; }
    }
    forall i, j | 0 <= i < j < |e.origins| ensures Before(e.origins[i], e.origins[j]) {
      assert e.origins[i] == d.origins[i];
      if j < n { assert e.origins[j] == d.origins[j]; }
    }
    forall i | 0 <= i < |e.origins| ensures Before(e.origins[i], bound) {
      if i < n { assert e.origins[i] == d.origins[i]; }
    }
    forall i, j | 0 <= i < j < |e.stops| && Checked(e.stops[j].role) ensures e.stops[i].name != e.stops[j].name {
      assert e.stops[i] == d.stops[i];
      if j < n { assert e.stops[j] == d.stops[j]; }
      else { assert d.stops[i].name in Names(d.stops); }
    }
  }

  lemma EmitKeeps(steps: seq<Step>, specials: set<string>, walk: bool, d: Derivation, s: DerivedStop,
                  o: Origin, bound: Origin)
    requires Inv(steps, specials, walk, d, o)
    requires Justified(steps, specials, walk, o, s)
    requires Checked(s.role) ==> s.name !in d.processed
    requires s.role != Board
    requires Before(o, bound)
    requires forall j :: Visited(bound, j) ==> Visited(o, j)
    ensures Inv(steps, specials, walk, Emit(d, s, o), bound)
  {
    var e := Emit(d, s, o);
    EmitStructure(steps, specials, walk, d, s, o, bound);
    var n := |d.stops|;
    assert e.stops[n] == s;
    assert forall i :: 0 <= i < n ==> e.stops[i] == d.stops[i];
    assert NoBoard(e.stops) <==> NoBoard(d.stops);
  }

  lemma EmitBoardKeeps(steps: seq<Step>, specials: set<string>, walk: bool, d: Derivation, s: DerivedStop,
                       o: Origin, bound: Origin)
    requires Inv(steps, specials, walk, d, o)
    requires Justified(steps, specials, walk, o, s)
    requires s.role == Board && d.firstBoarding
    requires Before(o, bound)
    ensures Inv(steps, specials, walk, Emit(d, s, o).(firstBoarding := false), bound)
  {
    var e := Emit(d, s, o);
    EmitStructure(steps, specials, walk, d, s, o, bound);
    var n := |d.stops|;
    assert e.stops[n] == s;
    assert forall i :: 0 <= i < n ==> e.stops[i] == d.stops[i];
  }

  lemma Weaken(steps: seq<Step>, specials: set<string>, walk: bool, d: Derivation, b: Origin, b': Origin)
    requires Inv(steps, specials, walk, d, b)
    requires b == b' || Before(b, b')
    requires forall j :: Visited(b', j) ==> Visited(b, j)
    ensures Inv(steps, specials, walk, d, b')
  {
  }

  lemma WalkBranchInv(steps: seq<Step>, specials: set<string>, k: nat, d: Derivation)
    requires k < |steps|
    requires Inv(steps, specials, true, d, Origin(k, 0, 0))
    ensures Inv(steps, specials, true, WalkBranch(steps, k, d), Origin(k, 1, 0))
  {
    var s := steps[k];
    if IsWalkStep(s) && HasPath(s) && k == 0 && Truthy(s.from) {
      var w := DerivedStop(s.polyline.value[0], Walk, s.from.value, None);
      EmitKeeps(steps, specials, true, d, w, Origin(k, 0, 0), Origin(k, 1, 0));
    } else {
      Weaken(steps, specials, true, d, Origin(k, 0, 0), Origin(k, 1, 0));
    }
  }

  lemma BoardBranchInv(steps: seq<Step>, specials: set<string>, walk: bool, k: nat, d: Derivation)
    requires k < |steps|
    requires Inv(steps, specials, walk, d, Origin(k, 1, 0))
    ensures Inv(steps, specials, walk, BoardBranch(steps, k, d), Origin(k, 2, 0))
  {
    var s := steps[k];
    if s.action == "board" && d.firstBoarding && Truthy(s.at) && NextTravelStart(steps, k + 1).Some? {
      var b := DerivedStop(NextTravelStart(steps, k + 1).value, Board, s.at.value, s.line);
      assert forall j :: 0 <= j < k ==> Visited(Origin(k, 1, 0), j);
      EmitBoardKeeps(steps, specials, walk, d, b, Origin(k, 1, 0), Origin(k, 2, 0));
    } else {
      assert d.firstBoarding ==> !BoardCandidate(steps, k);
    }
  }

  lemma TransferBranchInv(steps: seq<Step>, specials: set<string>, walk: bool, k: nat, d: Derivation)
    requires k < |steps|
    requires Inv(steps, specials, walk, d, Origin(k, 2, 0))
    ensures Inv(steps, specials, walk, TransferBranch(k, steps[k], d), Origin(k, 3, 0))
  {
    var s := steps[k];
    if s.action == "transfer" && s.location.Some? && Truthy(s.at) && s.at.value !in d.processed {
      var t := DerivedStop(s.location.value, Transfer, s.at.value, None);
      EmitKeeps(steps, specials, walk, d, t, Origin(k, 2, 0), Origin(k, 3, 0));
    }
  }

  lemma {:induction false} BetweenInv(steps: seq<Step>, specials: set<string>, walk: bool, k: nat, j: nat, d: Derivation)
    requires k < |steps|
    requires steps[k].action == "travel" && steps[k].stopsBetween.Some? && steps[k].polyline.Some?
    requires j <= |steps[k].stopsBetween.value|
    requires Inv(steps, specials, walk, d, Origin(k, 3, 0))
    ensures Inv(steps, specials, walk,
                Between(k, steps[k].stopsBetween.value, steps[k].polyline.value, steps[k].line, specials, j, d),
                Origin(k, 3, j))
  {
    var names, poly := steps[k].stopsBetween.value, steps[k].polyline.value;
    if j > 0 {
      BetweenInv(steps, specials, walk, k, j - 1, d);
      var d' := Between(k, names, poly, steps[k].line, specials, j - 1, d);
      var name := names[j - 1];
      if name in d'.processed || name in specials {
        Weaken(steps, specials, walk, d', Origin(k, 3, j - 1), Origin(k, 3, j));
      } else if PointAt(poly, InterpolationIndex(j - 1, |names|, |poly|)).Some? {
        var p := PointAt(poly, InterpolationIndex(j - 1, |names|, |poly|)).value;
        EmitKeeps(steps, specials, walk, d', DerivedStop(p, Travel, name, steps[k].line),
                  Origin(k, 3, j - 1), Origin(k, 3, j));
      } else {
        Weaken(steps, specials, walk, d', Origin(k, 3, j - 1), Origin(k, 3, j));
      }
    }
  }

  lemma TravelBranchInv(steps: seq<Step>, specials: set<string>, walk: bool, k: nat, d: Derivation)
    requires k < |steps|
    requires Inv(steps, specials, walk, d, Origin(k, 3, 0))
    ensures Inv(steps, specials, walk, TravelBranch(k, steps[k], specials, d), Origin(k, 4, 0))
  {
    var s := steps[k];
    if s.action == "travel" && s.stopsBetween.Some? && s.polyline.Some? {
      var j := |s.stopsBetween.value|;
      BetweenInv(steps, specials, walk, k, j, d);
      Weaken(steps, specials, walk, TravelBranch(k, s, specials, d), Origin(k, 3, j), Origin(k, 4, 0));
    } else {
      Weaken(steps, specials, walk, d, Origin(k, 3, 0), Origin(k, 4, 0));
    }
  }

  lemma ArriveBranchInv(steps: seq<Step>, specials: set<string>, walk: bool, k: nat, d: Derivation)
    requires k < |steps|
    requires Inv(steps, specials, walk, d, Origin(k, 4, 0))
    ensures Inv(steps, specials, walk, ArriveBranch(k, steps[k], d), Origin(k + 1, 0, 0))
  {
    var s := steps[k];
    if s.action == "arrive" && s.location.Some? && Truthy(s.at) && s.at.value !in d.processed {
      var a := DerivedStop(s.location.value, Arrive, s.at.value, None);
      EmitKeeps(steps, specials, walk, d, a, Origin(k, 4, 0), Origin(k + 1, 0, 0));
    } else {
      Weaken(steps, specials, walk, d, Origin(k, 4, 0), Origin(k + 1, 0, 0));
    }
  }

  lemma StepBodyInv(steps: seq<Step>, specials: set<string>, walk: bool, k: nat, d: Derivation)
    requires k < |steps|
    requires Inv(steps, specials, walk, d, Origin(k, 0, 0))
    ensures Inv(steps, specials, walk, StepBody(steps, specials, walk, k, d), Origin(k + 1, 0, 0))
  {
    var d0 := if walk then WalkBranch(steps, k, d) else d;
    if walk { WalkBranchInv(steps, specials, k, d); } else { Weaken(steps, specials, walk, d, Origin(k, 0, 0), Origin(k, 1, 0)); }
    BoardBranchInv(steps, specials, walk, k, d0);
    var d1 := BoardBranch(steps, k, d0);
    TransferBranchInv(steps, specials, walk, k, d1);
    var d2 := TransferBranch(k, steps[k], d1);
    TravelBranchInv(steps, specials, walk, k, d2);
    ArriveBranchInv(steps, specials, walk, k, TravelBranch(k, steps[k], specials, d2));
  }

  /** Pass two keeps its invariant over every prefix of the steps. */
  lemma {:induction false} Pass2Inv(steps: seq<Step>, specials: set<string>, walk: bool, n: nat)
    requires n <= |steps|
    ensures Inv(steps, specials, walk, Pass2(steps, specials, walk, n), Origin(n, 0, 0))
  {
    if n > 0 {
      Pass2Inv(steps, specials, walk, n - 1);
      StepBodyInv(steps, specials, walk, n - 1, Pass2(steps, specials, walk, n - 1));
    }
  }

  // ---------------------------------------------------------------------------------------------
  // Properties of the forward search and of the interpolation
  // ---------------------------------------------------------------------------------------------

  /** The forward search returns the first point of the first travel step with a path at index
      `i` or later, and finds nothing exactly when there is no such step. */
  lemma {:induction false} NextTravelStartFinds(steps: seq<Step>, i: nat)
    ensures NextTravelStart(steps, i).None? <==> forall t :: i <= t < |steps| ==> !TravelWithPath(steps[t])
    ensures NextTravelStart(steps, i).Some? ==>
      exists t :: i <= t < |steps| && TravelWithPath(steps[t]) &&
        NextTravelStart(steps, i) == Some(steps[t].polyline.value[0]) &&
        forall u :: i <= u < t ==> !TravelWithPath(steps[u])
    decreases |steps| - i
  {
    if i < |steps| && !TravelWithPath(steps[i]) {
      NextTravelStartFinds(steps, i + 1);
    }
  }

  /** Once the forward search fails, it fails from every later index too: a later board step can
      never place the origin that an earlier named board step could not. */
  lemma {:induction false} BoardRetryFutile(steps: seq<Step>, i: nat, j: nat)
    requires i <= j
    requires NextTravelStart(steps, i).None?
    ensures NextTravelStart(steps, j).None?
    decreases j - i
  {
    if i < j {
      assert i < |steps| ==> !TravelWithPath(steps[i]);
      BoardRetryFutile(steps, i + 1, j);
    }
  }

  lemma MulMonotone(a: int, b: int, c: int)
    requires 0 <= a <= b && 0 <= c
    ensures a * c <= b * c
  {
  }

  /** The estimated index of an intermediate stop lies inside a non-empty polyline, and is -1
      (an undefined point, so no stop) on an empty one. */
  lemma InterpolationInBounds(idx: int, count: nat, length: nat)
    requires 0 <= idx < count
    ensures length >= 1 ==> 0 <= InterpolationIndex(idx, count, length) < length
    ensures length == 0 ==> InterpolationIndex(idx, count, length) == -1
  {
    if length >= 1 {
      MulMonotone(idx + 1, count + 1, length - 1);
      DivAtMost((idx + 1) * (length - 1), count + 1, length - 1);
    } else {
      assert (idx + 1) * (length - 1) == -(idx + 1);
      DivSmallNegative(-(idx + 1), count + 1);
    }
  }

  /** A quotient of a value between 0 and `d * m` lies between 0 and `m`. */
  lemma DivAtMost(a: int, d: int, m: int)
    requires 0 < d && 0 <= m && 0 <= a <= m * d
    ensures 0 <= a / d <= m
  {
    var q := a / d;
    assert a == d * q + a % d;
    if q > m {
      MulMonotone(m + 1, q, d);
      assert false;
    }
    if q < 0 {
      MulMonotone(1, -q, d);
      assert false;
    }
  }

  /** A negative value above `-d` divides to -1. */
  lemma DivSmallNegative(a: int, d: int)
    requires 0 < d && -d <= a < 0
    ensures a / d == -1
  {
    var q := a / d;
    assert a == d * q + a % d;
    if q >= 0 {
      MulMonotone(0, q, d);
      assert false;
    }
    if q < -1 {
      MulMonotone(2, -q, d);
      assert false;
    }
  }

  /** Later intermediate stops of one travel step never sit earlier on its polyline. */
  lemma InterpolationMonotone(i: int, j: int, count: nat, length: nat)
    requires 0 <= i <= j && length >= 1
    ensures InterpolationIndex(i, count, length) <= InterpolationIndex(j, count, length)
  {
    MulMonotone(i + 1, j + 1, length - 1);
    DivMonotone((i + 1) * (length - 1), (j + 1) * (length - 1), count + 1);
  }

  /** Division by a positive number is monotone on non-negative values. */
  lemma DivMonotone(a: int, b: int, d: int)
    requires 0 < d && 0 <= a <= b
    ensures a / d <= b / d
  {
    var p, q := a / d, b / d;
    assert d * p <= a;
    assert b < d * q + d;
    if q < p {
      MulMonotone(0, q + 1, d);
      MulMonotone(q + 1, p, d);
      assert false;
    }
  }

  // ---------------------------------------------------------------------------------------------
  // Properties of pass two
  // ---------------------------------------------------------------------------------------------

  predicate IsPrefix(a: seq<DerivedStop>, b: seq<DerivedStop>) {
    |a| <= |b| && b[..|a|] == a
  }

  lemma EmitExtends(d: Derivation, s: DerivedStop, o: Origin)
    ensures IsPrefix(d.stops, Emit(d, s, o).stops)
  {
    assert (d.stops + [s])[..|d.stops|] == d.stops;
  }

  lemma PrefixTrans(a: seq<DerivedStop>, b: seq<DerivedStop>, c: seq<DerivedStop>)
    requires IsPrefix(a, b) && IsPrefix(b, c)
    ensures IsPrefix(a, c)
  {
    assert c[..|a|] == c[..|b|][..|a|];
  }

  lemma {:induction false} BetweenExtends(k: nat, names: seq<string>, poly: seq<Point>, line: Option<string>,
                                          specials: set<string>, j: nat, d: Derivation)
    requires j <= |names|
    ensures IsPrefix(d.stops, Between(k, names, poly, line, specials, j, d).stops)
  {
    if j > 0 {
      BetweenExtends(k, names, poly, line, specials, j - 1, d);
      var d' := Between(k, names, poly, line, specials, j - 1, d);
      var p := PointAt(poly, InterpolationIndex(j - 1, |names|, |poly|));
      if p.Some? {
        EmitExtends(d', DerivedStop(p.value, Travel, names[j - 1], line), Origin(k, 3, j - 1));
        PrefixTrans(d.stops, d'.stops, Emit(d', DerivedStop(p.value, Travel, names[j - 1], line), Origin(k, 3, j - 1)).stops);
      }
    }
  }

  lemma WalkBranchExtends(steps: seq<Step>, k: nat, d: Derivation)
    requires k < |steps|
    ensures IsPrefix(d.stops, WalkBranch(steps, k, d).stops)
  {
    var s := steps[k];
    if IsWalkStep(s) && HasPath(s) && k == 0 && Truthy(s.from) {
      EmitExtends(d, DerivedStop(s.polyline.value[0], Walk, s.from.value, None), Origin(k, 0, 0));
    }
  }

  lemma BoardBranchExtends(steps: seq<Step>, k: nat, d: Derivation)
    requires k < |steps|
    ensures IsPrefix(d.stops, BoardBranch(steps, k, d).stops)
  {
    var s := steps[k];
    if s.action == "board" && d.firstBoarding && Truthy(s.at) && NextTravelStart(steps, k + 1).Some? {
      EmitExtends(d, DerivedStop(NextTravelStart(steps, k + 1).value, Board, s.at.value, s.line), Origin(k, 1, 0));
    }
  }

  lemma TransferBranchExtends(k: nat, s: Step, d: Derivation)
    ensures IsPrefix(d.stops, TransferBranch(k, s, d).stops)
  {
    if s.action == "transfer" && s.location.Some? && Truthy(s.at) && s.at.value !in d.processed {
      EmitExtends(d, DerivedStop(s.location.value, Transfer, s.at.value, None), Origin(k, 2, 0));
    }
  }

  lemma TravelBranchExtends(k: nat, s: Step, specials: set<string>, d: Derivation)
    ensures IsPrefix(d.stops, TravelBranch(k, s, specials, d).stops)
  {
    if s.action == "travel" && s.stopsBetween.Some? && s.polyline.Some? {
      BetweenExtends(k, s.stopsBetween.value, s.polyline.value, s.line, specials, |s.stopsBetween.value|, d);
    }
  }

  lemma ArriveBranchExtends(k: nat, s: Step, d: Derivation)
    ensures IsPrefix(d.stops, ArriveBranch(k, s, d).stops)
  {
    if s.action == "arrive" && s.location.Some? && Truthy(s.at) && s.at.value !in d.processed {
      EmitExtends(d, DerivedStop(s.location.value, Arrive, s.at.value, None), Origin(k, 4, 0));
    }
  }

  /** The branches after the walk branch only append. */
  lemma AfterWalkExtends(steps: seq<Step>, specials: set<string>, k: nat, d0: Derivation)
    requires k < |steps|
    ensures IsPrefix(d0.stops, ArriveBranch(k, steps[k], TravelBranch(k, steps[k], specials,
                                 TransferBranch(k, steps[k], BoardBranch(steps, k, d0)))).stops)
  {
    var s := steps[k];
    var d1 := BoardBranch(steps, k, d0);
    var d2 := TransferBranch(k, s, d1);
    var d3 := TravelBranch(k, s, specials, d2);
    BoardBranchExtends(steps, k, d0);
    TransferBranchExtends(k, s, d1);
    PrefixTrans(d0.stops, d1.stops, d2.stops);
    TravelBranchExtends(k, s, specials, d2);
    PrefixTrans(d0.stops, d2.stops, d3.stops);
    ArriveBranchExtends(k, s, d3);
    PrefixTrans(d0.stops, d3.stops, ArriveBranch(k, s, d3).stops);
  }

  lemma StepBodyExtends(steps: seq<Step>, specials: set<string>, walk: bool, k: nat, d: Derivation)
    requires k < |steps|
    ensures IsPrefix(d.stops, StepBody(steps, specials, walk, k, d).stops)
  {
    var d0 := if walk then WalkBranch(steps, k, d) else d;
    if walk { WalkBranchExtends(steps, k, d); }
    AfterWalkExtends(steps, specials, k, d0);
    PrefixTrans(d.stops, d0.stops, StepBody(steps, specials, walk, k, d).stops);
  }

  /** Stops derived from earlier steps come first: pass two only appends. */
  lemma {:induction false} EarlierStepsFirst(steps: seq<Step>, specials: set<string>, walk: bool, m: nat, n: nat)
    requires m <= n <= |steps|
    ensures IsPrefix(Pass2(steps, specials, walk, m).stops, Pass2(steps, specials, walk, n).stops)
    decreases n - m
  {
    if m < n {
      EarlierStepsFirst(steps, specials, walk, m, n - 1);
      StepBodyExtends(steps, specials, walk, n - 1, Pass2(steps, specials, walk, n - 1));
      PrefixTrans(Pass2(steps, specials, walk, m).stops, Pass2(steps, specials, walk, n - 1).stops,
                  Pass2(steps, specials, walk, n).stops);
    } else {
      assert Pass2(steps, specials, walk, n).stops[..|Pass2(steps, specials, walk, m).stops|] == Pass2(steps, specials, walk, m).stops;
    }
  }

  /**
   * Every derived stop is what one branch of one step pushes (role, name, location and line as
   * `Justified` spells out), and the stops appear in step order, and within one step in the order
   * of the branches and of `stops_between`.
   */
  lemma DeriveStopsProvenance(steps: seq<Step>)
    ensures var r, o := DeriveStops(steps), DeriveOrigins(steps);
      |o| == |r| &&
      (forall i :: 0 <= i < |r| ==> Justified(steps, Classify(steps).specials.Keys, true, o[i], r[i])) &&
      (forall i, j :: 0 <= i < j < |r| ==> Before(o[i], o[j]))
  {
    Pass2Inv(steps, Classify(steps).specials.Keys, true, |steps|);
  }

  /** Transfer, intermediate and arrive stops never repeat the name of an earlier stop. */
  lemma DeriveStopsFreshNames(steps: seq<Step>)
    ensures var r := DeriveStops(steps);
      forall i, j :: 0 <= i < j < |r| && Checked(r[j].role) ==> r[i].name != r[j].name
  {
    Pass2Inv(steps, Classify(steps).specials.Keys, true, |steps|);
  }

  /** A name that pass one records is never emitted as an intermediate stop. */
  lemma SpecialNeverTravel(steps: seq<Step>)
    ensures var r := DeriveStops(steps);
      forall i :: 0 <= i < |r| && r[i].role == Travel ==> r[i].name !in Classify(steps).specials
    ensures var r := DeriveStops(steps);
      forall i, k ::
        (0 <= i < |r| && r[i].role == Travel && 0 <= k < |steps| &&
         (steps[k].action == "transfer" || steps[k].action == "arrive") && Truthy(steps[k].at)) ==>
        steps[k].at.value != r[i].name
  {
    var r := DeriveStops(steps);
    Pass2Inv(steps, Classify(steps).specials.Keys, true, |steps|);
    forall i, k | 0 <= i < |r| && r[i].role == Travel && 0 <= k < |steps| &&
        (steps[k].action == "transfer" || steps[k].action == "arrive") && Truthy(steps[k].at)
      ensures steps[k].at.value != r[i].name
    {
      ClassifyRecords(steps, steps[k].at.value);
      assert SpecialBecause(steps, k, steps[k].at.value);
    }
  }

  /** At most one board stop is emitted. */
  lemma DeriveStopsOneBoard(steps: seq<Step>)
    ensures var r := DeriveStops(steps);
      forall i, j :: 0 <= i < |r| && 0 <= j < |r| && r[i].role == Board && r[j].role == Board ==> i == j
  {
    var sp := Classify(steps).specials.Keys;
    var r := Pass2(steps, sp, true, |steps|).stops;
    Pass2Inv(steps, sp, true, |steps|);
    forall i, j | 0 <= i < |r| && 0 <= j < |r| && r[i].role == Board && r[j].role == Board ensures i == j {
      if i != j { assert false; }
    }
  }

  /** A board stop is emitted exactly when some named board step has a later travel step with a
      path: a board step whose search fails emits nothing and leaves the origin to a later one. */
  lemma DeriveStopsBoardExists(steps: seq<Step>)
    ensures var r := DeriveStops(steps);
      (exists i :: 0 <= i < |r| && r[i].role == Board) <==> (exists k :: BoardCandidate(steps, k))
  {
    var sp := Classify(steps).specials.Keys;
    var d := Pass2(steps, sp, true, |steps|);
    assert DeriveStops(steps) == d.stops;
    Pass2Inv(steps, sp, true, |steps|);
    if exists k :: BoardCandidate(steps, k) {
      var k :| BoardCandidate(steps, k);
      assert Visited(Origin(|steps|, 0, 0), k);
      assert !d.firstBoarding;
      assert !NoBoard(d.stops);
      var i :| 0 <= i < |d.stops| && d.stops[i].role == Board;
    }
    if exists i :: 0 <= i < |d.stops| && d.stops[i].role == Board {
      var i :| 0 <= i < |d.stops| && d.stops[i].role == Board;
      assert Justified(steps, sp, true, d.origins[i], d.stops[i]);
      assert BoardCandidate(steps, d.origins[i].step);
    }
  }

  /** A justified board stop sits where `DeriveStopsBoardPlaced` says. */
  lemma BoardStopPlaced(steps: seq<Step>, sp: set<string>, walk: bool, o: Origin, s: DerivedStop)
    requires s.role == Board && Justified(steps, sp, walk, o, s)
    ensures exists k, t ::
      (0 <= k < t < |steps| && NamedBoard(steps[k]) && steps[k].at == Some(s.name) &&
       s.line == steps[k].line && TravelWithPath(steps[t]) && s.location == steps[t].polyline.value[0] &&
       (forall u :: k < u < t ==> !TravelWithPath(steps[u])) &&
       (forall j :: 0 <= j < k ==> !BoardCandidate(steps, j)))
  {
    var k := o.step;
    NextTravelStartFinds(steps, k + 1);
    var t :| k + 1 <= t < |steps| && TravelWithPath(steps[t]) &&
      NextTravelStart(steps, k + 1) == Some(steps[t].polyline.value[0]) &&
      forall u :: k + 1 <= u < t ==> !TravelWithPath(steps[u]);
    assert NamedBoard(steps[k]) && steps[k].at == Some(s.name) && s.location == steps[t].polyline.value[0];
  }

  /**
   * The board stop comes from the first named board step whose forward search succeeds, carries
   * that step's name and line, and sits at the first point of the first travel path after it.
   */
  lemma DeriveStopsBoardPlaced(steps: seq<Step>)
    ensures var r := DeriveStops(steps);
      forall i :: 0 <= i < |r| && r[i].role == Board ==>
        exists k, t :: 0 <= k < t < |steps| && NamedBoard(steps[k]) && steps[k].at == Some(r[i].name) &&
          r[i].line == steps[k].line && TravelWithPath(steps[t]) && r[i].location == steps[t].polyline.value[0] &&
          (forall u :: k < u < t ==> !TravelWithPath(steps[u])) &&
          (forall j :: 0 <= j < k ==> !BoardCandidate(steps, j))
  {
    var sp := Classify(steps).specials.Keys;
    var d := Pass2(steps, sp, true, |steps|);
    Pass2Inv(steps, sp, true, |steps|);
    forall i | 0 <= i < |d.stops| && d.stops[i].role == Board
      ensures exists k, t ::
        0 <= k < t < |steps| && NamedBoard(steps[k]) && steps[k].at == Some(d.stops[i].name) &&
        d.stops[i].line == steps[k].line && TravelWithPath(steps[t]) &&
        d.stops[i].location == steps[t].polyline.value[0] &&
        (forall u :: k < u < t ==> !TravelWithPath(steps[u])) &&
        (forall j :: 0 <= j < k ==> !BoardCandidate(steps, j))
    {
      BoardStopPlaced(steps, sp, true, d.origins[i], d.stops[i]);
    }
  }

  /** In an ordered list of origins that starts at a real step, only the first can be the walk
      branch of step 0. */
  lemma OnlyFirstAtStart(origins: seq<Origin>, i: int)
    requires Ordered(origins) && 0 <= i < |origins|
    ensures origins[i] == Origin(0, 0, 0) && origins[0].step >= 0 && origins[0].branch >= 0 && origins[0].sub >= 0 ==> i == 0
  {
    if 0 < i {
      assert Before(origins[0], origins[i]);
    }
  }

  /** In a sound, ordered derivation a walk stop can only come first. */
  lemma WalkOnlyFirst(steps: seq<Step>, sp: set<string>, d: Derivation)
    requires Sound(steps, sp, true, d) && Ordered(d.origins)
    ensures forall i :: 0 <= i < |d.stops| && d.stops[i].role == Walk ==> i == 0
  {
    forall i | 0 <= i < |d.stops| && d.stops[i].role == Walk ensures i == 0 {
      assert Justified(steps, sp, true, d.origins[i], d.stops[i]);
      assert Justified(steps, sp, true, d.origins[0], d.stops[0]);
      OnlyFirstAtStart(d.origins, i);
    }
  }

  /** When step 0 is a walk leg with a path and a name, its origin marker is the first stop. */
  lemma WalkOriginFirst(steps: seq<Step>, sp: set<string>)
    requires WalkOrigin(steps)
    ensures var r := Pass2(steps, sp, true, |steps|).stops;
      |r| > 0 && r[0] == DerivedStop(steps[0].polyline.value[0], Walk, steps[0].from.value, None)
  {
    var w := DerivedStop(steps[0].polyline.value[0], Walk, steps[0].from.value, None);
    var d0 := WalkBranch(steps, 0, Initial);
    assert d0.stops == [w];
    AfterWalkExtends(steps, sp, 0, d0);
    var d1 := Pass2(steps, sp, true, 1);
    assert Pass2(steps, sp, true, 0) == Initial;
    assert d1 == StepBody(steps, sp, true, 0, Initial);
    assert IsPrefix([w], d1.stops);
    EarlierStepsFirst(steps, sp, true, 1, |steps|);
  }

  /** The walk origin marker can only be the first stop, and it is there exactly when step 0 is a
      walk leg with a path and a `from` name, at the first point of that path. */
  lemma DeriveStopsWalk(steps: seq<Step>)
    ensures var r := DeriveStops(steps);
      forall i :: 0 <= i < |r| && r[i].role == Walk ==> i == 0
    ensures var r := DeriveStops(steps);
      WalkOrigin(steps) <==> (|r| > 0 && r[0].role == Walk)
    ensures var r := DeriveStops(steps);
      WalkOrigin(steps) ==> r[0] == DerivedStop(steps[0].polyline.value[0], Walk, steps[0].from.value, None)
  {
    var sp := Classify(steps).specials.Keys;
    var d := Pass2(steps, sp, true, |steps|);
    Pass2Inv(steps, sp, true, |steps|);
    WalkOnlyFirst(steps, sp, d);
    if |d.stops| > 0 && d.stops[0].role == Walk {
      assert Justified(steps, sp, true, d.origins[0], d.stops[0]);
    }
    if WalkOrigin(steps) {
      WalkOriginFirst(steps, sp);
    }
  }

  // ---------------------------------------------------------------------------------------------
  // Completeness: what the transfer, arrive and intermediate branches are bound to contribute
  // ---------------------------------------------------------------------------------------------

  /** A name among the stops stays among them once more stops are appended. */
  lemma NamePersists(a: seq<DerivedStop>, b: seq<DerivedStop>, x: string)
    requires IsPrefix(a, b) && x in Names(a)
    ensures x in Names(b)
  {
    var i :| 0 <= i < |a| && a[i].name == x;
    assert b[i] == a[i];
  }

  /** Later rounds of `stops_between` only append to the earlier ones. */
  lemma {:induction false} BetweenGrows(k: nat, names: seq<string>, poly: seq<Point>, line: Option<string>,
                                        specials: set<string>, i: nat, j: nat, d: Derivation)
    requires i <= j <= |names|
    ensures IsPrefix(Between(k, names, poly, line, specials, i, d).stops,
                     Between(k, names, poly, line, specials, j, d).stops)
    decreases j - i
  {
    var di := Between(k, names, poly, line, specials, i, d);
    if i < j {
      BetweenGrows(k, names, poly, line, specials, i, j - 1, d);
      var d' := Between(k, names, poly, line, specials, j - 1, d);
      var p := PointAt(poly, InterpolationIndex(j - 1, |names|, |poly|));
      if names[j - 1] !in d'.processed && names[j - 1] !in specials && p.Some? {
        EmitExtends(d', DerivedStop(p.value, Travel, names[j - 1], line), Origin(k, 3, j - 1));
      }
      PrefixTrans(di.stops, d'.stops, Between(k, names, poly, line, specials, j, d).stops);
    } else {
      assert di.stops[..|di.stops|] == di.stops;
    }
  }

  /** The stops after the travel branch of step `k` begin every later state of pass two. */
  lemma AfterTravelReaches(steps: seq<Step>, specials: set<string>, walk: bool, k: nat, n: nat, d2: Derivation)
    requires k < n <= |steps|
    requires d2 == TransferBranch(k, steps[k], BoardBranch(steps, k,
                   if walk then WalkBranch(steps, k, Pass2(steps, specials, walk, k)) else Pass2(steps, specials, walk, k)))
    ensures IsPrefix(TravelBranch(k, steps[k], specials, d2).stops, Pass2(steps, specials, walk, n).stops)
  {
    var d3 := TravelBranch(k, steps[k], specials, d2);
    ArriveBranchExtends(k, steps[k], d3);
    assert Pass2(steps, specials, walk, k + 1).stops == ArriveBranch(k, steps[k], d3).stops;
    EarlierStepsFirst(steps, specials, walk, k + 1, n);
    PrefixTrans(d3.stops, Pass2(steps, specials, walk, k + 1).stops, Pass2(steps, specials, walk, n).stops);
  }

  /** The stops after the transfer branch of step `k` begin every later state of pass two. */
  lemma AfterTransferReaches(steps: seq<Step>, specials: set<string>, walk: bool, k: nat, n: nat, d1: Derivation)
    requires k < n <= |steps|
    requires d1 == BoardBranch(steps, k, if walk then WalkBranch(steps, k, Pass2(steps, specials, walk, k))
                                         else Pass2(steps, specials, walk, k))
    ensures IsPrefix(TransferBranch(k, steps[k], d1).stops, Pass2(steps, specials, walk, n).stops)
  {
    var d2 := TransferBranch(k, steps[k], d1);
    TravelBranchExtends(k, steps[k], specials, d2);
    AfterTravelReaches(steps, specials, walk, k, n, d2);
    PrefixTrans(d2.stops, TravelBranch(k, steps[k], specials, d2).stops, Pass2(steps, specials, walk, n).stops);
  }

  /** Pass two right before the transfer branch of step `k`, with its invariant. */
  lemma BeforeTransferInv(steps: seq<Step>, specials: set<string>, walk: bool, k: nat)
    requires k < |steps|
    ensures var d := Pass2(steps, specials, walk, k);
      Inv(steps, specials, walk, BoardBranch(steps, k, if walk then WalkBranch(steps, k, d) else d), Origin(k, 2, 0))
  {
    var d := Pass2(steps, specials, walk, k);
    Pass2Inv(steps, specials, walk, k);
    if walk {
      WalkBranchInv(steps, specials, k, d);
      BoardBranchInv(steps, specials, walk, k, WalkBranch(steps, k, d));
    } else {
      Weaken(steps, specials, walk, d, Origin(k, 0, 0), Origin(k, 1, 0));
      BoardBranchInv(steps, specials, walk, k, d);
    }
  }

  /** Pass two right before the arrive branch of step `k`: its processed names are its stop names. */
  lemma BeforeArriveInv(steps: seq<Step>, specials: set<string>, walk: bool, k: nat)
    requires k < |steps|
    ensures var d := Pass2(steps, specials, walk, k);
      var d2 := TransferBranch(k, steps[k], BoardBranch(steps, k, if walk then WalkBranch(steps, k, d) else d));
      var d3 := TravelBranch(k, steps[k], specials, d2);
      d3.processed == Names(d3.stops)
  {
    var d := Pass2(steps, specials, walk, k);
    var d1 := BoardBranch(steps, k, if walk then WalkBranch(steps, k, d) else d);
    BeforeTransferInv(steps, specials, walk, k);
    TransferBranchInv(steps, specials, walk, k, d1);
    TravelBranchInv(steps, specials, walk, k, TransferBranch(k, steps[k], d1));
  }

  /** A transfer step with a location and a name leaves a stop of that name in every later state. */
  lemma TransferNamed(steps: seq<Step>, specials: set<string>, walk: bool, k: nat, n: nat)
    requires k < n <= |steps|
    requires steps[k].action == "transfer" && steps[k].location.Some? && Truthy(steps[k].at)
    ensures steps[k].at.value in Names(Pass2(steps, specials, walk, n).stops)
  {
    var d := Pass2(steps, specials, walk, k);
    var d1 := BoardBranch(steps, k, if walk then WalkBranch(steps, k, d) else d);
    var d2 := TransferBranch(k, steps[k], d1);
    var x := steps[k].at.value;
    BeforeTransferInv(steps, specials, walk, k);
    if x in d1.processed {
      TransferBranchExtends(k, steps[k], d1);
      NamePersists(d1.stops, d2.stops, x);
    } else {
      assert d2.stops[|d1.stops|].name == x;
    }
    AfterTransferReaches(steps, specials, walk, k, n, d1);
    NamePersists(d2.stops, Pass2(steps, specials, walk, n).stops, x);
  }

  /** An arrive step with a location and a name leaves a stop of that name in every later state. */
  lemma ArriveNamed(steps: seq<Step>, specials: set<string>, walk: bool, k: nat, n: nat)
    requires k < n <= |steps|
    requires steps[k].action == "arrive" && steps[k].location.Some? && Truthy(steps[k].at)
    ensures steps[k].at.value in Names(Pass2(steps, specials, walk, n).stops)
  {
    var d := Pass2(steps, specials, walk, k);
    var d1 := BoardBranch(steps, k, if walk then WalkBranch(steps, k, d) else d);
    var d2 := TransferBranch(k, steps[k], d1);
    var d3 := TravelBranch(k, steps[k], specials, d2);
    var d4 := ArriveBranch(k, steps[k], d3);
    var x := steps[k].at.value;
    BeforeArriveInv(steps, specials, walk, k);
    if x in d3.processed {
      ArriveBranchExtends(k, steps[k], d3);
      NamePersists(d3.stops, d4.stops, x);
    } else {
      assert d4.stops[|d3.stops|].name == x;
    }
    assert Pass2(steps, specials, walk, k + 1) == d4;
    EarlierStepsFirst(steps, specials, walk, k + 1, n);
    NamePersists(d4.stops, Pass2(steps, specials, walk, n).stops, x);
  }

  /** Within one travel step, a placeable intermediate name that is not special ends up named. */
  lemma BetweenNamed(steps: seq<Step>, specials: set<string>, walk: bool, k: nat, j: nat, d2: Derivation)
    requires k < |steps|
    requires steps[k].action == "travel" && steps[k].stopsBetween.Some? && steps[k].polyline.Some?
    requires j < |steps[k].stopsBetween.value| && steps[k].stopsBetween.value[j] !in specials
    requires PointAt(steps[k].polyline.value,
                     InterpolationIndex(j, |steps[k].stopsBetween.value|, |steps[k].polyline.value|)).Some?
    requires Inv(steps, specials, walk, d2, Origin(k, 3, 0))
    ensures steps[k].stopsBetween.value[j] in Names(TravelBranch(k, steps[k], specials, d2).stops)
  {
    var names, poly, line := steps[k].stopsBetween.value, steps[k].polyline.value, steps[k].line;
    var x := names[j];
    BetweenInv(steps, specials, walk, k, j, d2);
    var dj := Between(k, names, poly, line, specials, j, d2);
    var dj1 := Between(k, names, poly, line, specials, j + 1, d2);
    BetweenGrows(k, names, poly, line, specials, j, j + 1, d2);
    if x in dj.processed {
      NamePersists(dj.stops, dj1.stops, x);
    } else {
      assert dj1.stops[|dj.stops|].name == x;
    }
    BetweenGrows(k, names, poly, line, specials, j + 1, |names|, d2);
    NamePersists(dj1.stops, Between(k, names, poly, line, specials, |names|, d2).stops, x);
  }

  /**
   * An intermediate name of a travel step that is not special and whose interpolated point exists
   * leaves a stop of that name in every later state.
   */
  lemma IntermediateNamed(steps: seq<Step>, specials: set<string>, walk: bool, k: nat, n: nat, j: nat)
    requires k < n <= |steps|
    requires steps[k].action == "travel" && steps[k].stopsBetween.Some? && steps[k].polyline.Some?
    requires j < |steps[k].stopsBetween.value| && steps[k].stopsBetween.value[j] !in specials
    requires PointAt(steps[k].polyline.value,
                     InterpolationIndex(j, |steps[k].stopsBetween.value|, |steps[k].polyline.value|)).Some?
    ensures steps[k].stopsBetween.value[j] in Names(Pass2(steps, specials, walk, n).stops)
  {
    var d := Pass2(steps, specials, walk, k);
    var d1 := BoardBranch(steps, k, if walk then WalkBranch(steps, k, d) else d);
    var d2 := TransferBranch(k, steps[k], d1);
    BeforeTransferInv(steps, specials, walk, k);
    TransferBranchInv(steps, specials, walk, k, d1);
    BetweenNamed(steps, specials, walk, k, j, d2);
    AfterTravelReaches(steps, specials, walk, k, n, d2);
    NamePersists(TravelBranch(k, steps[k], specials, d2).stops, Pass2(steps, specials, walk, n).stops,
                 steps[k].stopsBetween.value[j]);
  }

  /** A name among the stops is the name of one of them. */
  lemma NamedStop(stops: seq<DerivedStop>, x: string)
    requires x in Names(stops)
    ensures exists i :: 0 <= i < |stops| && stops[i].name == x
  {
  }

  /** Every transfer step with a location and a name has a stop of that name. */
  lemma TransferStopPresent(steps: seq<Step>, k: nat)
    requires k < |steps| && steps[k].action == "transfer" && steps[k].location.Some? && Truthy(steps[k].at)
    ensures exists i :: 0 <= i < |DeriveStops(steps)| && DeriveStops(steps)[i].name == steps[k].at.value
  {
    TransferNamed(steps, Classify(steps).specials.Keys, true, k, |steps|);
    NamedStop(DeriveStops(steps), steps[k].at.value);
  }

  /** Every arrive step with a location and a name has a stop of that name. */
  lemma ArriveStopPresent(steps: seq<Step>, k: nat)
    requires k < |steps| && steps[k].action == "arrive" && steps[k].location.Some? && Truthy(steps[k].at)
    ensures exists i :: 0 <= i < |DeriveStops(steps)| && DeriveStops(steps)[i].name == steps[k].at.value
  {
    ArriveNamed(steps, Classify(steps).specials.Keys, true, k, |steps|);
    NamedStop(DeriveStops(steps), steps[k].at.value);
  }

  /**
   * Every intermediate name that pass one did not record, and whose interpolated point lies on the
   * polyline, has a stop of that name.
   */
  lemma IntermediateStopPresent(steps: seq<Step>, k: nat, j: nat)
    requires k < |steps| && steps[k].action == "travel" && steps[k].stopsBetween.Some? && steps[k].polyline.Some?
    requires j < |steps[k].stopsBetween.value| && steps[k].stopsBetween.value[j] !in Classify(steps).specials
    requires 0 <= InterpolationIndex(j, |steps[k].stopsBetween.value|, |steps[k].polyline.value|) < |steps[k].polyline.value|
    ensures exists i :: 0 <= i < |DeriveStops(steps)| && DeriveStops(steps)[i].name == steps[k].stopsBetween.value[j]
  {
    IntermediateNamed(steps, Classify(steps).specials.Keys, true, k, |steps|, j);
    NamedStop(DeriveStops(steps), steps[k].stopsBetween.value[j]);
  }

  // ---------------------------------------------------------------------------------------------
  // The deriver as the overlay runs it
  // ---------------------------------------------------------------------------------------------

  /**
   * The walk and board branches do not consult the processed names: a walk from "X" followed by a
   * board step at "X" yields two stops named "X".
   */
  lemma BoardRepeatsWalkName(p: Point, q: Point)
    ensures var steps := [Step("walk", None, None, None, Some("X"), Some([p]), None, None, None),
                          Step("board", None, Some("7"), Some("X"), None, None, None, None, None),
                          Step("travel", None, Some("7"), None, None, Some([q]), None, None, None)];
      DeriveStops(steps) == [DerivedStop(p, Walk, "X", None), DerivedStop(q, Board, "X", Some("7"))]
  {
    var steps := [Step("walk", None, None, None, Some("X"), Some([p]), None, None, None),
                  Step("board", None, Some("7"), Some("X"), None, None, None, None, None),
                  Step("travel", None, Some("7"), None, None, Some([q]), None, None, None)];
    var sp := Classify(steps).specials.Keys;
    var w := DerivedStop(p, Walk, "X", None);
    assert Pass2(steps, sp, true, 0) == Initial;
    var d0 := WalkBranch(steps, 0, Initial);
    assert d0.stops == [w] && d0.firstBoarding;
    var d1 := Pass2(steps, sp, true, 1);
    assert d1 == StepBody(steps, sp, true, 0, Initial);
    assert d1 == d0;
    assert NextTravelStart(steps, 2) == Some(q);
    var d2 := Pass2(steps, sp, true, 2);
    assert d2 == StepBody(steps, sp, true, 1, d1);
    assert d2.stops == [w, DerivedStop(q, Board, "X", Some("7"))];
    assert Pass2(steps, sp, true, 3).stops == d2.stops;
  }

  /**
   * The board push does not consult the processed names either: a transfer at "X" followed by a
   * board step at "X" yields a transfer stop and a board stop, both named "X".
   */
  lemma BoardRepeatsTransferName(p: Point, q: Point)
    ensures var steps := [Step("transfer", None, None, Some("X"), None, None, None, None, Some(p)),
                          Step("board", None, Some("7"), Some("X"), None, None, None, None, None),
                          Step("travel", None, Some("7"), None, None, Some([q]), None, None, None)];
      DeriveStops(steps) == [DerivedStop(p, Transfer, "X", None), DerivedStop(q, Board, "X", Some("7"))]
  {
    var steps := [Step("transfer", None, None, Some("X"), None, None, None, None, Some(p)),
                  Step("board", None, Some("7"), Some("X"), None, None, None, None, None),
                  Step("travel", None, Some("7"), None, None, Some([q]), None, None, None)];
    var sp := Classify(steps).specials.Keys;
    var t := DerivedStop(p, Transfer, "X", None);
    assert Pass2(steps, sp, true, 0) == Initial;
    var d1 := Pass2(steps, sp, true, 1);
    assert d1 == StepBody(steps, sp, true, 0, Initial);
    assert d1.stops == [t] && d1.firstBoarding;
    assert NextTravelStart(steps, 2) == Some(q);
    var d2 := Pass2(steps, sp, true, 2);
    assert d2 == StepBody(steps, sp, true, 1, d1);
    assert d2.stops == [t, DerivedStop(q, Board, "X", Some("7"))];
    assert Pass2(steps, sp, true, 3).stops == d2.stops;
  }

  /** The first loop of `getAllStopsFromRoute`: the `specialStops` map of pass one. */
  method CollectSpecialStops(steps: seq<Step>) returns (specialStops: map<string, Role>)
    ensures specialStops == Classify(steps).specials
  {
    var isFirstBoarding := true;
    specialStops := map[];
    for i := 0 to |steps|
      invariant Classification(specialStops, isFirstBoarding) == Classify(steps[..i])
    {
      assert steps[..i + 1][..i] == steps[..i];
      var step := steps[i];
      if step.action == "board" && Truthy(step.at) && isFirstBoarding {
        specialStops := specialStops[step.at.value := Board];
        isFirstBoarding := false;
      }
      if step.action == "transfer" && Truthy(step.at) {
        specialStops := specialStops[step.at.value := Transfer];
      }
      if step.action == "arrive" && Truthy(step.at) {
        specialStops := specialStops[step.at.value := Arrive];
      }
    }
    assert steps[..|steps|] == steps;
  }

  /** The forward `for` loop of the board branch: the first point of the first travel step with a
      path after step `k`, if there is one. */
  method FindBoardLocation(steps: seq<Step>, k: nat) returns (location: Option<Point>)
    ensures location == NextTravelStart(steps, k + 1)
  {
    location := None;
    var i := k + 1;
    while i < |steps|
      invariant k + 1 <= i
      invariant NextTravelStart(steps, k + 1) == NextTravelStart(steps, i)
    {
      var nextStep := steps[i];
      if nextStep.action == "travel" && nextStep.polyline.Some? && |nextStep.polyline.value| > 0 {
        location := Some(nextStep.polyline.value[0]);
        return;
      }
      i := i + 1;
    }
  }

  /**
   * The `stops_between.forEach` of a travel step: each name that is neither processed nor special
   * is pushed at its interpolated point of the polyline, when that point exists.
   */
  method PushStopsBetween(k: nat, step: Step, specials: set<string>, stops0: seq<DerivedStop>,
                          ghost origins0: seq<Origin>, processed0: set<string>, firstBoarding: bool)
    returns (stops: seq<DerivedStop>, ghost origins: seq<Origin>, processedStopNames: set<string>)
    requires step.action == "travel" && step.stopsBetween.Some? && step.polyline.Some?
    ensures Derivation(stops, origins, processedStopNames, firstBoarding)
            == TravelBranch(k, step, specials, Derivation(stops0, origins0, processed0, firstBoarding))
  {
    ghost var d := Derivation(stops0, origins0, processed0, firstBoarding);
    stops, origins, processedStopNames := stops0, origins0, processed0;
    var names, polyline := step.stopsBetween.value, step.polyline.value;
    var stopsCount, polylineLength := |names|, |polyline|;
    for idx := 0 to stopsCount
      invariant Derivation(stops, origins, processedStopNames, firstBoarding)
                == Between(k, names, polyline, step.line, specials, idx, d)
    {
      var stopName := names[idx];
      if stopName in processedStopNames || stopName in specials {
        continue;
      }
      var polylineIndex := ((idx + 1) * (polylineLength - 1)) / (stopsCount + 1);
      assert polylineIndex == InterpolationIndex(idx, stopsCount, polylineLength);
      if 0 <= polylineIndex < polylineLength {
        stops := stops + [DerivedStop(polyline[polylineIndex], Travel, stopName, step.line)];
        origins := origins + [Origin(k, 3, idx)];
        processedStopNames := processedStopNames + {stopName};
      }
    }
  }

  /**
   * `getAllStopsFromRoute`: pass two pushes the derived stops while it maintains the
   * `processedStopNames` set and the `isFirstBoarding` flag.
   */
  method GetAllStopsFromRoute(steps: seq<Step>) returns (stops: seq<DerivedStop>)
    ensures stops == DeriveStops(steps)
  {
    var specialStops := CollectSpecialStops(steps);
    ghost var specials := specialStops.Keys;

    var isFirstBoarding := true;
    var processedStopNames: set<string> := {};
    stops := [];
    ghost var origins: seq<Origin> := [];
    for k := 0 to |steps|
      invariant Derivation(stops, origins, processedStopNames, isFirstBoarding) == Pass2(steps, specials, true, k)
    {
      var step := steps[k];
      ghost var d := Derivation(stops, origins, processedStopNames, isFirstBoarding);

      if IsWalkStep(step) && step.polyline.Some? && |step.polyline.value| > 0 {
        if k == 0 && Truthy(step.from) {
          stops := stops + [DerivedStop(step.polyline.value[0], Walk, step.from.value, None)];
          origins := origins + [Origin(k, 0, 0)];
          processedStopNames := processedStopNames + {step.from.value};
        }
      }
      ghost var d0 := Derivation(stops, origins, processedStopNames, isFirstBoarding);
      assert d0 == WalkBranch(steps, k, d);

      if step.action == "board" && isFirstBoarding && Truthy(step.at) {
        var location := FindBoardLocation(steps, k);
        if location.Some? {
          stops := stops + [DerivedStop(location.value, Board, step.at.value, step.line)];
          origins := origins + [Origin(k, 1, 0)];
          processedStopNames := processedStopNames + {step.at.value};
          isFirstBoarding := false;
        }
      }
      ghost var d1 := Derivation(stops, origins, processedStopNames, isFirstBoarding);
      assert d1 == BoardBranch(steps, k, d0);

      if step.action == "transfer" && step.location.Some? && Truthy(step.at) {
        if step.at.value !in processedStopNames {
          stops := stops + [DerivedStop(step.location.value, Transfer, step.at.value, None)];
          origins := origins + [Origin(k, 2, 0)];
          processedStopNames := processedStopNames + {step.at.value};
        }
      }
      ghost var d2 := Derivation(stops, origins, processedStopNames, isFirstBoarding);
      assert d2 == TransferBranch(k, step, d1);

      if step.action == "travel" && step.stopsBetween.Some? && step.polyline.Some? {
        stops, origins, processedStopNames :=
          PushStopsBetween(k, step, specialStops.Keys, stops, origins, processedStopNames, isFirstBoarding);
      }
      ghost var d3 := Derivation(stops, origins, processedStopNames, isFirstBoarding);
      assert d3 == TravelBranch(k, step, specials, d2);

      if step.action == "arrive" && step.location.Some? && Truthy(step.at) {
        if step.at.value !in processedStopNames {
          stops := stops + [DerivedStop(step.location.value, Arrive, step.at.value, None)];
          origins := origins + [Origin(k, 4, 0)];
          processedStopNames := processedStopNames + {step.at.value};
        }
      }
    }
  }
}
