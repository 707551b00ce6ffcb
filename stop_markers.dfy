/**
 * The bus-stop layer of the map (BusStopsMarkers.tsx): the projection of the stops query into
 * markers and the filter that decides which stop markers are shown.
 */
module StopMarkers {
  import opened Wrappers
  import opened RouteStep
  import opened MapFilters
  import Seqs

  /** A line serving a stop, as the stops query returns it; its colour may be missing. */
  datatype ApiStopLine = ApiStopLine(name: string, color: Option<string>)

  /** A stop as the stops query returns it, with its coordinates already numbers. */
  datatype ApiStop = ApiStop(id: int, name: string, latitude: real, longitude: real, lines: seq<ApiStopLine>)

  /** A line badge of a stop marker. */
  datatype StopLine = StopLine(name: string, color: string)

  /** `StopMarker` */
  datatype StopMarker = StopMarker(id: int, title: string, coordinate: Point, lines: seq<StopLine>)

  // ---------------------------------------------------------------------------------------------
  // The `select` projection
  // ---------------------------------------------------------------------------------------------

  /** A CSS colour written as `#` followed by six hexadecimal digits. */
  predicate IsHexColor(s: string) {
    |s| == 7 && s[0] == '#' &&
    forall i :: 1 <= i < 7 ==> ('0' <= s[i] <= '9' || 'a' <= s[i] <= 'f' || 'A' <= s[i] <= 'F')
  }

  /** The colour a stop's line badge falls back to. */
  const StopLineFallbackColor := "#0c4a6e"

  /** The fallback colour as the stop projection writes it, with a doubled `#`. */
  const StopLineFallbackAsWritten := "##0c4a6e"

  /** One line badge: the line's own colour when it is a non-empty string, else `fallback`. */
  function BadgeWith(l: ApiStopLine, fallback: string): (b: StopLine)
    ensures b.name == l.name
    ensures Truthy(l.color) ==> b.color == l.color.value
    ensures !Truthy(l.color) ==> b.color == fallback
  {
    StopLine(l.name, OrElse(l.color, fallback))
  }

  /** The marker of one stop: id kept, name as title, coordinates as a point, one badge per line. */
  function MarkerWith(s: ApiStop, fallback: string): (m: StopMarker)
    ensures m.id == s.id && m.title == s.name && m.coordinate == LatLng(s.latitude, s.longitude)
    ensures |m.lines| == |s.lines|
    ensures forall j :: 0 <= j < |s.lines| ==> m.lines[j] == BadgeWith(s.lines[j], fallback)
  {
    StopMarker(s.id, s.name, LatLng(s.latitude, s.longitude),
               seq(|s.lines|, j requires 0 <= j < |s.lines| => BadgeWith(s.lines[j], fallback)))
  }

  /** The `select` mapping of the stops query as written, with the fallback colour "##0c4a6e". */
  function SelectStopsAsWritten(data: seq<ApiStop>): (r: seq<StopMarker>)
    ensures |r| == |data|
    ensures forall i :: 0 <= i < |data| ==> r[i] == MarkerWith(data[i], StopLineFallbackAsWritten)
  {
    seq(|data|, i requires 0 <= i < |data| => MarkerWith(data[i], StopLineFallbackAsWritten))
  }

  /** The `select` mapping with the fallback colour the projection evidently means, "#0c4a6e". */
  function SelectStops(data: seq<ApiStop>): (r: seq<StopMarker>)
    ensures |r| == |data|
    ensures forall i :: 0 <= i < |data| ==>
      r[i].id == data[i].id && r[i].title == data[i].name && |r[i].lines| == |data[i].lines|
    ensures forall i, j :: 0 <= i < |data| && 0 <= j < |data[i].lines| ==>
      r[i].lines[j].name == data[i].lines[j].name &&
      r[i].lines[j].color == (if Truthy(data[i].lines[j].color) then data[i].lines[j].color.value
                              else StopLineFallbackColor)
  {
    seq(|data|, i requires 0 <= i < |data| => MarkerWith(data[i], StopLineFallbackColor))
  }

  /** Every line colour the query supplies is missing, empty or a hex colour. */
  predicate ColorsWellFormed(data: seq<ApiStop>) {
    forall i, j :: 0 <= i < |data| && 0 <= j < |data[i].lines| && Truthy(data[i].lines[j].color) ==>
      IsHexColor(data[i].lines[j].color.value)
  }

  /** With the corrected fallback every badge colour is a hex colour when the query's are. */
  lemma SelectStopsColorsValid(data: seq<ApiStop>)
    requires ColorsWellFormed(data)
    ensures forall i, j :: 0 <= i < |data| && 0 <= j < |data[i].lines| ==>
      IsHexColor(SelectStops(data)[i].lines[j].color)
  {
    assert IsHexColor(StopLineFallbackColor) by {
      assert StopLineFallbackColor[1] == '0' && StopLineFallbackColor[2] == 'c';
    }
  }

  /**
   * As written, a stop whose line has no colour gets the badge colour "##0c4a6e", which is not a
   * colour: the doubled `#` makes it eight characters long.
   */
  lemma SelectStopsAsWrittenBadColor(id: int, name: string, latitude: real, longitude: real, line: string)
    ensures var data := [ApiStop(id, name, latitude, longitude, [ApiStopLine(line, None)])];
      ColorsWellFormed(data) &&
      SelectStopsAsWritten(data)[0].lines[0].color == "##0c4a6e" &&
      !IsHexColor(SelectStopsAsWritten(data)[0].lines[0].color)
  {
    var data := [ApiStop(id, name, latitude, longitude, [ApiStopLine(line, None)])];
    assert SelectStopsAsWritten(data)[0] == MarkerWith(data[0], StopLineFallbackAsWritten);
    assert |StopLineFallbackAsWritten| == 8;
  }

  // ---------------------------------------------------------------------------------------------
  // `filteredStopsData` and the rendering guard
  // ---------------------------------------------------------------------------------------------

  /** The stop is served by at least one of the named lines. */
  predicate ServesAny(s: StopMarker, names: seq<string>) {
    exists j :: 0 <= j < |s.lines| && s.lines[j].name in names
  }

  /** `ServesAny` as the filter's callback. */
  function ServesAnyOf(names: seq<string>): StopMarker -> bool {
    s => ServesAny(s, names)
  }

  /**
   * `filteredStopsData`: everything when stops or lines are "all"; nothing for line-only with no
   * lines; for line-only with a list, the stops served by a listed line; otherwise everything.
   */
  function FilteredStops(stops: seq<StopMarker>, filters: SavedFilters): (r: seq<StopMarker>)
    ensures filters.stop == ShowAll || filters.line == AllLines ==> r == stops
    ensures filters.line == NoLines && filters.stop == LineOnly ==> r == []
    ensures filters.line.Lines? && filters.stop == LineOnly ==> r == Seqs.Filter(stops, ServesAnyOf(filters.line.names))
    ensures filters.stop == ShowNone ==> r == stops
  {
    if filters.stop == ShowAll || filters.line == AllLines then stops
    else if filters.line == NoLines && filters.stop == LineOnly then []
    else if filters.line.Lines? && filters.stop == LineOnly then Seqs.Filter(stops, ServesAnyOf(filters.line.names))
    else stops
  }

  /** The filtered stops are always the input with some stops dropped, the rest in order. */
  lemma FilteredStopsSubsequence(stops: seq<StopMarker>, filters: SavedFilters)
    ensures Seqs.IsSubsequence(FilteredStops(stops, filters), stops)
  {
    if filters.line.Lines? && filters.stop == LineOnly {
      Seqs.FilterIsSubsequence(stops, ServesAnyOf(filters.line.names));
    } else {
      Seqs.SubsequenceRefl(stops);
    }
  }

  /**
   * With line-only stops and a list of lines, a stop is shown exactly when it is in the data and
   * at least one of its lines is listed.
   */
  lemma LineOnlyStopsMembership(stops: seq<StopMarker>, names: seq<string>, bus: Mode, s: StopMarker)
    ensures s in FilteredStops(stops, SavedFilters(Lines(names), LineOnly, bus)) <==>
      s in stops && exists j :: 0 <= j < |s.lines| && s.lines[j].name in names
  {
    Seqs.FilterMembership(stops, ServesAnyOf(names), s);
  }

  /**
   * The markers the layer renders: none while the stops are loading or when stops are hidden,
   * otherwise the filtered stops.
   */
  function VisibleStops(data: Option<seq<StopMarker>>, filters: SavedFilters): (r: seq<StopMarker>)
    ensures data.None? || filters.stop == ShowNone ==> r == []
    ensures data.Some? && filters.stop != ShowNone ==> r == FilteredStops(data.value, filters)
  {
    if data.None? || filters.stop == ShowNone then [] else FilteredStops(data.value, filters)
  }

  /** Hiding stops hides every marker, whatever the line filter; showing all shows every stop. */
  lemma VisibleStopsModes(data: seq<StopMarker>, line: LineFilter, bus: Mode)
    ensures VisibleStops(Some(data), SavedFilters(line, ShowNone, bus)) == []
    ensures VisibleStops(Some(data), SavedFilters(line, ShowAll, bus)) == data
    ensures forall s :: s in VisibleStops(Some(data), SavedFilters(line, LineOnly, bus)) ==> s in data
  {
    forall s | s in VisibleStops(Some(data), SavedFilters(line, LineOnly, bus))
      ensures s in data
    {
      if line.Lines? {
        Seqs.FilterMembership(data, ServesAnyOf(line.names), s);
      }
    }
  }
}
