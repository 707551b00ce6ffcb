/**
 * The map filters (types.ts, constants.ts) and the conversions between the saved filters and the
 * options of the filter form (helpers.ts).
 */
module MapFilters {

  /** A stop or bus filter: the `Filters` union "all" | "none" | "line-only". */
  datatype Mode = ShowAll | ShowNone | LineOnly

  /** The string a mode is stored and selected as. */
  function ModeValue(m: Mode): string {
    match m
    case ShowAll => "all"
    case ShowNone => "none"
    case LineOnly => "line-only"
  }

  /** The line filter: "all", "none" or the names of the selected lines. */
  datatype LineFilter = AllLines | NoLines | Lines(names: seq<string>)

  /** `MapFilters`: what is saved in storage and read by the map layers. */
  datatype SavedFilters = SavedFilters(line: LineFilter, stop: Mode, bus: Mode)

  /** One option of a multi-select. */
  datatype SelectOption = SelectOption(caption: string, value: string)

  /** One option of the stop or bus select. */
  datatype ModeOption = ModeOption(caption: string, value: Mode)

  /** `MapFilterOptions`: the state of the filter form. */
  datatype FilterOptions = FilterOptions(line: seq<SelectOption>, stop: ModeOption, bus: ModeOption)

  const AllOption := SelectOption("All", "all")
  const NoneOption := SelectOption("None", "none")

  /** `DEFAULT_SAVED_FILTERS` */
  const DefaultSavedFilters := SavedFilters(AllLines, ShowAll, ShowAll)

  /** `DEFAULT_FILTER_OPTIONS` */
  const DefaultFilterOptions := FilterOptions([AllOption], ModeOption("All", ShowAll), ModeOption("All", ShowAll))

  // ---------------------------------------------------------------------------------------------
  // `capitalize`
  // ---------------------------------------------------------------------------------------------

  /** Upper-case of an ASCII letter; every other character is left as it is. */
  function UpperChar(c: char): (u: char)
    ensures 'a' <= c <= 'z' ==> 'A' <= u <= 'Z' && u as int == c as int - 32
    ensures !('a' <= c <= 'z') ==> u == c
  {
    if 'a' <= c <= 'z' then (c as int - 32) as char else c
  }

  /** `capitalize`: the first character upper-cased, the rest unchanged. */
  function Capitalize(s: string): (r: string)
    ensures |r| == |s|
    ensures s != "" ==> r[0] == UpperChar(s[0])
    ensures forall i :: 1 <= i < |s| ==> r[i] == s[i]
  {
    if s == "" then "" else [UpperChar(s[0])] + s[1..]
  }

  /** Capitalising twice is capitalising once. */
  lemma CapitalizeIdempotent(s: string)
    ensures Capitalize(Capitalize(s)) == Capitalize(s)
  {
    if s != "" {
      assert UpperChar(UpperChar(s[0])) == UpperChar(s[0]);
    }
  }

  // ---------------------------------------------------------------------------------------------
  // Saved filters <-> form options
  // ---------------------------------------------------------------------------------------------

  /** The values of a list of options, in order (`options.line.map((o) => o.value)`). */
  function OptionValues(options: seq<SelectOption>): (values: seq<string>)
    ensures |values| == |options|
    ensures forall i :: 0 <= i < |options| ==> values[i] == options[i].value
  {
    seq(|options|, i requires 0 <= i < |options| => options[i].value)
  }

  /** The option of a selected line: its name as value, capitalised as label. */
  function LineOptions(names: seq<string>): (options: seq<SelectOption>)
    ensures |options| == |names|
    ensures forall i :: 0 <= i < |names| ==> options[i] == SelectOption(Capitalize(names[i]), names[i])
  {
    seq(|names|, i requires 0 <= i < |names| => SelectOption(Capitalize(names[i]), names[i]))
  }

  /** The stop or bus option of a saved mode. */
  function ModeToOption(m: Mode): (o: ModeOption)
    ensures o.value == m && o.caption == Capitalize(ModeValue(m))
  {
    ModeOption(Capitalize(ModeValue(m)), m)
  }

  /**
   * `mapSavedFiltersToSelectOptions`: "all" keeps the default `[All]`, "none" becomes `[None]`, a
   * list becomes one option per line in order, labelled with the capitalised name; the stop and bus
   * modes are copied, labelled with the capitalised mode.
   */
  function ToSelectOptions(saved: SavedFilters): (o: FilterOptions)
    ensures saved.line == AllLines ==> o.line == [AllOption]
    ensures saved.line == NoLines ==> o.line == [NoneOption]
    ensures saved.line.Lines? ==> OptionValues(o.line) == saved.line.names
    ensures saved.line.Lines? ==>
      |o.line| == |saved.line.names| &&
      forall i :: 0 <= i < |o.line| ==> o.line[i] == SelectOption(Capitalize(saved.line.names[i]), saved.line.names[i])
    ensures o.stop == ModeOption(Capitalize(ModeValue(saved.stop)), saved.stop)
    ensures o.bus == ModeOption(Capitalize(ModeValue(saved.bus)), saved.bus)
  {
    var line := match saved.line
      case NoLines => [NoneOption]
      case AllLines => DefaultFilterOptions.line
      case Lines(names) => LineOptions(names);
    DefaultFilterOptions.(line := line, stop := ModeToOption(saved.stop), bus := ModeToOption(saved.bus))
  }

  /** A single "all" or "none" option. */
  predicate IsSingleKeyword(line: seq<SelectOption>) {
    |line| == 1 && (line[0].value == "none" || line[0].value == "all")
  }

  /**
   * `mapSelectOptionsToSavedFilters`: a single "all" or "none" option becomes that keyword, any
   * other selection (the empty one too) becomes the list of its values; stop and bus are copied.
   */
  function ToSavedFilters(o: FilterOptions): (f: SavedFilters)
    ensures IsSingleKeyword(o.line) && o.line[0].value == "all" ==> f.line == AllLines
    ensures IsSingleKeyword(o.line) && o.line[0].value == "none" ==> f.line == NoLines
    ensures !IsSingleKeyword(o.line) ==> f.line == Lines(OptionValues(o.line))
    ensures f.stop == o.stop.value && f.bus == o.bus.value
  {
    var line := if IsSingleKeyword(o.line) then (if o.line[0].value == "none" then NoLines else AllLines)
                else Lines(OptionValues(o.line));
    DefaultSavedFilters.(line := line, stop := o.stop.value, bus := o.bus.value)
  }

  /** The saved filters the form state stands for, after a save and reload. */
  function Normalised(f: SavedFilters): SavedFilters {
    if f.line == Lines(["all"]) then f.(line := AllLines)
    else if f.line == Lines(["none"]) then f.(line := NoLines)
    else f
  }

  /**
   * Saved filters survive a trip through the form unchanged, except a list that is exactly
   * ["all"] or ["none"], which comes back as the keyword.
   */
  lemma SavedRoundTrip(f: SavedFilters)
    ensures ToSavedFilters(ToSelectOptions(f)) == Normalised(f)
  {
    var o := ToSelectOptions(f);
    if f.line.Lines? {
      var names := f.line.names;
      assert OptionValues(o.line) == names;
      if IsSingleKeyword(o.line) {
        assert names == [o.line[0].value];
      }
    }
  }

  /** A form state that has been saved once is stable: saving the reloaded form changes nothing. */
  lemma SaveIdempotent(o: FilterOptions)
    ensures ToSavedFilters(ToSelectOptions(ToSavedFilters(o))) == ToSavedFilters(o)
  {
    var f := ToSavedFilters(o);
    SavedRoundTrip(f);
    if f.line.Lines? {
      assert !IsSingleKeyword(o.line);
      assert f.line.names == OptionValues(o.line);
      assert |o.line| == 1 ==> o.line[0].value == f.line.names[0];
    }
  }

  // ---------------------------------------------------------------------------------------------
  // `mapLinesToSelectOptions`
  // ---------------------------------------------------------------------------------------------

  /** The options of the line select: "All", "None", then one option per line name, in order. */
  method LinesToSelectOptions(lines: seq<string>) returns (options: seq<SelectOption>)
    ensures |options| == |lines| + 2
    ensures options[0] == AllOption && options[1] == NoneOption
    ensures forall i :: 0 <= i < |lines| ==> options[i + 2] == SelectOption(lines[i], lines[i])
  {
    options := [AllOption, NoneOption];
    for i := 0 to |lines|
      invariant |options| == i + 2
      invariant options[0] == AllOption && options[1] == NoneOption
      invariant forall j :: 0 <= j < i ==> options[j + 2] == SelectOption(lines[j], lines[j])
    {
      options := options + [SelectOption(lines[i], lines[i])];
    }
  }
}
