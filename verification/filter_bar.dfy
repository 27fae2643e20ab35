/** The filter bar (src/components/ui/FilterBar.tsx): the selected user ids, the
    selected contribution types and the date range it holds, how the checkboxes and
    the calendar change them, and the filter objects it emits through
    `onFilterChange` (kept here, in order, in `emitted`). */
module FilterBar {
  import opened Types
  import opened Sequences
  import MockData

  /** react-day-picker's `DateRange`: either end may be unset. */
  datatype DateRange = DateRange(from: Option<int>, to: Option<int>)

  /** `list.length > 0 ? list : undefined`. */
  function NonEmpty<T>(list: seq<T>): (r: Option<seq<T>>)
    ensures r.Some? <==> |list| > 0
    ensures r.Some? ==> r.value == list
  {
    if |list| > 0 then Some(list) else None
  }

  /** The filter object built from the selections and a range's ends. */
  function Selection(users: seq<string>, types: seq<ContributionType>, from: Option<int>, to: Option<int>): FilterOptions {
    FilterOptions(from, to, NonEmpty(users), NonEmpty(types), None)
  }

  /** `getContributionTypeLabel`: `undefined` for a type outside the three. */
  function TypeLabel(t: ContributionType): (name: Option<string>)
    ensures name.Some? <==> !t.Other?
  {
    match t
    case Commit => Some("Commits")
    case PullRequest => Some("Pull Requests")
    case Review => Some("Reviews")
    case Other(_) => None
  }

  /** The three known types get three different labels. */
  lemma TypeLabelsDistinct(s: ContributionType, t: ContributionType)
    requires !s.Other? && !t.Other? && s != t
    ensures TypeLabel(s) != TypeLabel(t)
  {
  }

  class FilterBarState {
    var selectedUsers: seq<string>
    var selectedTypes: seq<ContributionType>
    var dateRange: Option<DateRange>
    var emitted: seq<FilterOptions>

    /** Nothing selected; the range starts with both ends unset. */
    constructor ()
      ensures selectedUsers == [] && selectedTypes == []
      ensures dateRange == Some(DateRange(None, None))
      ensures emitted == []
    {
      selectedUsers := [];
      selectedTypes := [];
      dateRange := Some(DateRange(None, None));
      emitted := [];
    }

    /** `handleUserChange`: checking appends the id (a repeat is kept); unchecking
        removes every occurrence and keeps the rest in order. */
    method HandleUserChange(userId: string, checked: bool)
      modifies this
      ensures selectedUsers == if checked then old(selectedUsers) + [userId] else Without(old(selectedUsers), userId)
      ensures !checked ==> userId !in selectedUsers
      ensures selectedTypes == old(selectedTypes) && dateRange == old(dateRange) && emitted == old(emitted)
    {
      if checked {
        selectedUsers := selectedUsers + [userId];
      } else {
        selectedUsers := Without(selectedUsers, userId);
      }
    }

    /** `handleTypeChange`, the same for the type selection. */
    method HandleTypeChange(kind: ContributionType, checked: bool)
      modifies this
      ensures selectedTypes == if checked then old(selectedTypes) + [kind] else Without(old(selectedTypes), kind)
      ensures !checked ==> kind !in selectedTypes
      ensures selectedUsers == old(selectedUsers) && dateRange == old(dateRange) && emitted == old(emitted)
    {
      if checked {
        selectedTypes := selectedTypes + [kind];
      } else {
        selectedTypes := Without(selectedTypes, kind);
      }
    }

    /** `applyFilters`: emits the selections, an empty one as absent, and the range's
        ends (both absent when there is no range). */
    method ApplyFilters()
      modifies this
      ensures emitted == old(emitted) + [Selection(selectedUsers, selectedTypes,
                                                   if dateRange.Some? then dateRange.value.from else None,
                                                   if dateRange.Some? then dateRange.value.to else None)]
      ensures selectedUsers == old(selectedUsers) && selectedTypes == old(selectedTypes) && dateRange == old(dateRange)
    {
      var from := if dateRange.Some? then dateRange.value.from else None;
      var to := if dateRange.Some? then dateRange.value.to else None;
      emitted := emitted + [Selection(selectedUsers, selectedTypes, from, to)];
    }

    /** `resetFilters`: clears everything and emits `{}`. */
    method ResetFilters()
      modifies this
      ensures selectedUsers == [] && selectedTypes == [] && dateRange == None
      ensures emitted == old(emitted) + [NoFilters]
    {
      selectedUsers := [];
      selectedTypes := [];
      dateRange := None;
      emitted := emitted + [NoFilters];
    }

    /** The calendar's `onSelect`: the range is stored, and filters are emitted iff the
        new range has a start (the test on its end is always true). */
    method OnSelect(range: Option<DateRange>)
      modifies this
      ensures dateRange == range
      ensures selectedUsers == old(selectedUsers) && selectedTypes == old(selectedTypes)
      ensures emitted == if range.Some? && range.value.from.Some?
                         then old(emitted) + [Selection(selectedUsers, selectedTypes, range.value.from, range.value.to)]
                         else old(emitted)
    {
      dateRange := range;
      if range.Some? && range.value.from.Some? && (range.value.to.Some? || !range.value.to.Some?) {
        emitted := emitted + [Selection(selectedUsers, selectedTypes, range.value.from, range.value.to)];
      }
    }
  }

  // ------------------------------------------------------------------ properties

  /** Checking an item that was not selected and then unchecking it gives back the
      selection it started from. */
  lemma UncheckUndoesCheck<T(!new)>(selection: seq<T>, item: T)
    requires item !in selection
    ensures Without(selection + [item], item) == selection
  {
    WithoutAppended(selection, item);
    WithoutAbsent(selection, item);
  }

  /** Emitting an empty selection as absent changes nothing downstream: the filter
      keeps exactly the contributions it would keep with the empty list itself,
      since an empty list switches its stage off either way. */
  lemma EmptySelectionIsNoCondition(users: seq<string>, types: seq<ContributionType>,
                                    from: Option<int>, to: Option<int>, c: Contribution)
    ensures MockData.Matches(Selection(users, types, from, to), c)
        <==> MockData.Matches(FilterOptions(from, to, Some(users), Some(types), None), c)
    ensures Selection(users, types, from, to).users.Some? ==> |Selection(users, types, from, to).users.value| > 0
    ensures Selection(users, types, from, to).types.Some? ==> |Selection(users, types, from, to).types.value| > 0
  {
  }

  /** The object `resetFilters` emits makes the contribution filter return its input. */
  lemma ResetShowsEverything(cs: seq<Contribution>)
    ensures MockData.OnePass(cs, NoFilters) == cs
  {
    MockData.FilterNothingSet(cs, NoFilters);
  }
}
