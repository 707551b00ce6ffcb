/**
 * The line layer of the map (LineMarkers.tsx): the projection of the lines query into line
 * markers, the line filter, and the polylines that are drawn.
 */
module LineMarkers {
  import opened Wrappers
  import opened RouteStep
  import opened MapFilters
  import Seqs

  /** One waypoint of a line: a coordinate pair, or a missing or malformed entry. */
  datatype Waypoint = Pair(point: Point) | NotAPair

  /** A line as the lines query returns it; `waypoints` may be missing. */
  datatype ApiLine = ApiLine(name: string, color: string, waypoints: Option<seq<Waypoint>>)

  /** `LineMarker` */
  datatype LineMarker = LineMarker(id: string, name: string, color: string, coordinate: seq<Waypoint>)

  /** A drawn polyline of the line layer. */
  datatype LinePolyline = LinePolyline(key: string, positions: seq<Waypoint>, color: string)

  /** `selectLines`: one marker per line, keyed by the line's name, with no waypoints when missing. */
  function SelectLines(lines: seq<ApiLine>): (r: seq<LineMarker>)
    ensures |r| == |lines|
    ensures forall i :: 0 <= i < |lines| ==>
      r[i].id == lines[i].name && r[i].name == lines[i].name && r[i].color == lines[i].color
    ensures forall i :: 0 <= i < |lines| ==>
      r[i].coordinate == (if lines[i].waypoints.Some? then lines[i].waypoints.value else [])
  {
    seq(|lines|, i requires 0 <= i < |lines| =>
      LineMarker(lines[i].name, lines[i].name, lines[i].color, lines[i].waypoints.GetOr([])))
  }

  /** The line's name is one of `names`. */
  function NamedIn(names: seq<string>): LineMarker -> bool {
    (l: LineMarker) => l.name in names
  }

  /** `filteredLines`: every line for "all", the lines whose name is listed for a list. */
  function FilteredLines(lines: seq<LineMarker>, filter: LineFilter): (r: seq<LineMarker>)
    requires filter != NoLines
    ensures filter == AllLines ==> r == lines
    ensures filter.Lines? ==> r == Seqs.Filter(lines, NamedIn(filter.names))
  {
    if filter == AllLines then lines else Seqs.Filter(lines, NamedIn(filter.names))
  }

  /**
   * With a list, a line is kept exactly when it is in the data and its name is listed, and the
   * kept lines stay in their order.
   */
  lemma FilteredLinesSelected(lines: seq<LineMarker>, names: seq<string>)
    ensures forall l :: l in FilteredLines(lines, Lines(names)) <==> l in lines && l.name in names
    ensures Seqs.IsSubsequence(FilteredLines(lines, Lines(names)), lines)
  {
    forall l
      ensures l in FilteredLines(lines, Lines(names)) <==> l in lines && l.name in names
    {
      Seqs.FilterMembership(lines, NamedIn(names), l);
    }
    Seqs.FilterIsSubsequence(lines, NamedIn(names));
  }

  /** Every waypoint of the line is a coordinate pair. */
  predicate AllPairs(coordinate: seq<Waypoint>) {
    forall k :: 0 <= k < |coordinate| ==> coordinate[k].Pair?
  }

  /** What one filtered line draws: nothing when any waypoint is not a pair, else its polyline. */
  function LineShape(l: LineMarker): (r: Option<LinePolyline>)
    ensures r.Some? <==> AllPairs(l.coordinate)
    ensures r.Some? ==> r.value == LinePolyline(l.id, l.coordinate, l.color)
  {
    if exists k :: 0 <= k < |l.coordinate| && l.coordinate[k].NotAPair? then None
    else Some(LinePolyline(l.id, l.coordinate, l.color))
  }

  /**
   * `LineMarkers`: nothing for the "none" filter or while there are no lines; otherwise one entry
   * per filtered line, in order, empty for a line with a malformed waypoint.
   */
  function DrawnLines(filter: LineFilter, data: Option<seq<LineMarker>>): (r: seq<Option<LinePolyline>>)
    ensures filter == NoLines || data.None? || data.value == [] ==> r == []
    ensures filter != NoLines && data.Some? ==>
      |r| == |FilteredLines(data.value, filter)| &&
      forall i :: 0 <= i < |r| ==> r[i] == LineShape(FilteredLines(data.value, filter)[i])
  {
    if filter == NoLines then []
    else if data.None? || |data.value| == 0 then []
    else
      var filtered := FilteredLines(data.value, filter);
      seq(|filtered|, i requires 0 <= i < |filtered| => LineShape(filtered[i]))
  }

  /**
   * Every polyline drawn for a list filter belongs to a loaded line whose name is listed, and
   * only well-formed waypoints are ever drawn.
   */
  lemma DrawnLinesSelected(names: seq<string>, data: seq<LineMarker>)
    ensures forall d :: d in DrawnLines(Lines(names), Some(data)) && d.Some? ==>
      exists l :: l in data && l.name in names && d.value == LinePolyline(l.id, l.coordinate, l.color) &&
                  AllPairs(l.coordinate)
  {
    var r := DrawnLines(Lines(names), Some(data));
    var filtered := FilteredLines(data, Lines(names));
    FilteredLinesSelected(data, names);
    forall d | d in r && d.Some?
      ensures exists l :: l in data && l.name in names && d.value == LinePolyline(l.id, l.coordinate, l.color) &&
                          AllPairs(l.coordinate)
    {
      var i :| 0 <= i < |r| && r[i] == d;
      var l := filtered[i];
      assert l in filtered;
    }
  }
}
