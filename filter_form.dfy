/**
 * The filter form state (use-filters.ts): the options shown in the form, the rules that keep the
 * line multi-select consistent, and the apply step that saves the form as map filters.
 */
module FilterForm {
  import opened Wrappers
  import opened MapFilters
  import Seqs

  /** A line option that names a line rather than a keyword. */
  predicate IsLineName(o: SelectOption) {
    o.value != "all" && o.value != "none"
  }

  /**
   * `lineChangeHandler`: the new line selection after the multi-select reports `selected`, where
   * `lineOptionCount` is the number of options the select offers (the lines plus "All" and "None").
   * `None` stands for the handler's fall-through that updates nothing.
   */
  function NextLineSelection(selected: seq<SelectOption>, lineOptionCount: int): (r: Option<seq<SelectOption>>)
    ensures r.Some?
    ensures selected == [] ==> r == Some([NoneOption])
    ensures selected != [] && selected[|selected| - 1].value == "none" ==> r == Some([NoneOption])
    ensures (selected != [] && selected[|selected| - 1].value != "none" &&
             (|selected| == lineOptionCount - 2 || selected[|selected| - 1].value == "all")) ==>
      r == Some([AllOption])
    ensures selected != [] && IsLineName(selected[|selected| - 1]) && |selected| != lineOptionCount - 2 ==>
      r == Some(Seqs.Filter(selected, IsLineName))
  {
    if |selected| == 0 then Some([NoneOption])
    else
      var current := selected[|selected| - 1];
      var hasNone := exists i :: 0 <= i < |selected| && selected[i].value == "none";
      if hasNone && current.value == "none" then Some([NoneOption])
      else if |selected| == lineOptionCount - 2 || current.value == "all" then Some([AllOption])
      else if current.value != "all" && current.value != "none" then Some(Seqs.Filter(selected, IsLineName))
      else None
  }

  /**
   * The line selection the handler leaves is never empty, and it is either exactly "None", exactly
   * "All", or a list of line names without any keyword that keeps every line name that was
   * selected, including the one just picked.
   */
  lemma LineSelectionShape(selected: seq<SelectOption>, lineOptionCount: int)
    ensures var r := NextLineSelection(selected, lineOptionCount).value;
      r != [] &&
      (r == [NoneOption] || r == [AllOption] ||
       ((forall i :: 0 <= i < |r| ==> IsLineName(r[i])) &&
        (forall o :: o in r <==> o in selected && IsLineName(o))))
  {
    var r := NextLineSelection(selected, lineOptionCount).value;
    if selected != [] {
      var current := selected[|selected| - 1];
      if IsLineName(current) && |selected| != lineOptionCount - 2 {
        assert r == Seqs.Filter(selected, IsLineName);
        forall o
          ensures o in r <==> o in selected && IsLineName(o)
        {
          Seqs.FilterMembership(selected, IsLineName, o);
        }
        assert current in r;
      }
    }
  }

  /**
   * Whatever the line select reports, saving the resulting form gives "all", "none" or a
   * non-empty list of line names in which neither keyword occurs.
   */
  lemma SavedLinesAreNames(selected: seq<SelectOption>, lineOptionCount: int, stop: ModeOption, bus: ModeOption)
    ensures var f := ToSavedFilters(FilterOptions(NextLineSelection(selected, lineOptionCount).value, stop, bus));
      f.line.Lines? ==>
        (f.line.names != [] &&
         forall i :: 0 <= i < |f.line.names| ==> f.line.names[i] != "all" && f.line.names[i] != "none")
  {
    LineSelectionShape(selected, lineOptionCount);
  }

  /** The key of the form field that changed. */
  datatype Key = LineKey | StopKey | BusKey

  /** What a select reports: the options of the line multi-select, or the option of a single select. */
  datatype Selection = Multi(options: seq<SelectOption>) | Single(option: ModeOption)

  /**
   * The `useFilters` hook: the form state, initialised from the saved filters, and the saved
   * filters of the filter store that apply writes.
   */
  class FiltersForm {
    var selectedFilters: FilterOptions
    var savedFilters: SavedFilters

    constructor(saved: SavedFilters)
      ensures selectedFilters == ToSelectOptions(saved)
      ensures savedFilters == saved
    {
      selectedFilters := ToSelectOptions(saved);
      savedFilters := saved;
    }

    /**
     * `handleChange`: a line change goes through the line rules; a stop or bus change replaces
     * that field. The saved filters are not touched until apply.
     */
    method HandleChange(key: Key, selected: Selection, lineFilters: seq<SelectOption>)
      requires key == LineKey <==> selected.Multi?
      modifies this
      ensures savedFilters == old(savedFilters)
      ensures key == StopKey ==> selectedFilters == old(selectedFilters).(stop := selected.option)
      ensures key == BusKey ==> selectedFilters == old(selectedFilters).(bus := selected.option)
      ensures key == LineKey ==>
        selectedFilters == old(selectedFilters).(line := NextLineSelection(selected.options, |lineFilters|).value)
    {
      if key == LineKey {
        LineChangeHandler(selected.options, lineFilters);
        return;
      }
      if key == StopKey {
        selectedFilters := selectedFilters.(stop := selected.option);
      } else {
        selectedFilters := selectedFilters.(bus := selected.option);
      }
    }

    /** `lineChangeHandler`, as the sequence of early returns the hook writes. */
    method LineChangeHandler(selected: seq<SelectOption>, lineFilters: seq<SelectOption>)
      modifies this
      ensures savedFilters == old(savedFilters)
      ensures selectedFilters == old(selectedFilters).(line := NextLineSelection(selected, |lineFilters|).value)
    {
      if |selected| == 0 {
        selectedFilters := selectedFilters.(line := [NoneOption]);
        return;
      }
      var currentValue := selected[|selected| - 1].value;
      var hasNone := false;
      for i := 0 to |selected|
        invariant hasNone <==> exists j :: 0 <= j < i && selected[j].value == "none"
      {
        if selected[i].value == "none" {
          hasNone := true;
        }
      }
      if hasNone && currentValue == "none" {
        selectedFilters := selectedFilters.(line := [NoneOption]);
        return;
      }
      if |selected| == |lineFilters| - 2 || currentValue == "all" {
        selectedFilters := selectedFilters.(line := [AllOption]);
        return;
      }
      assert currentValue != "none";
      selectedFilters := selectedFilters.(line := Seqs.Filter(selected, IsLineName));
    }

    /** `handleApply`: the form is saved as map filters; the form itself stays as it is. */
    method HandleApply()
      modifies this
      ensures selectedFilters == old(selectedFilters)
      ensures savedFilters == ToSavedFilters(selectedFilters)
    {
      savedFilters := ToSavedFilters(selectedFilters);
    }
  }
}
