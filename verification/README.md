# GitHub contribution tracker: the aggregation core in Dafny

This project models the part of the GithubTracker front end that turns a list of
contribution events into per-user figures, and it proves properties of that model.
A contribution event is a commit, a pull request or a review by some user, with
optional counts of lines added and removed.

The modelled parts are:

- **Repository-data hook** (`src/hooks/use-repository-data.tsx`). It folds the
  contributions response into a `Map` with one tally record per user id. It sorts the
  records by total, highest first. It replaces the leaderboard only when the result is
  non-empty. It stores the stats response as it is, and falls back to the mock stats
  when a request fails.
- **Team page** (`src/pages/Team.tsx`). It counts commits, pull requests and reviews
  per user id, and looks a user up with an all-zero default.
- **Analytics page** (`src/pages/Analytics.tsx`). It counts events per user id,
  labelled with the username of the id's first event. It sorts the counts, highest
  first, and keeps the top ten.
- **Mock data** (`src/lib/mockData.ts`). It builds a leaderboard over a fixed user
  roster and a repository-wide stats summary. It also filters contributions by users,
  types, a date window and a case-insensitive search text.
- **Filter bar** (`src/components/ui/FilterBar.tsx`). It holds the selected users,
  types and date range, and emits the filter objects.
- **Activity feed** (`src/components/dashboard/ActivityFeed.tsx`). It pages through
  the feed ten contributions at a time.

One reference definition, `Aggregation.Tally` (the sum of a measure over one user's
events), gives every per-user figure its meaning. Each of the three `Map` folds and
the roster-based mock leaderboard is proved equal to it. On top of that the model
proves:

- one leaderboard entry per author, and only for authors;
- the entries' column sums equal the repository-wide totals;
- the sort gives descending totals, is a permutation, and is stable (equal totals
  keep first-appearance order);
- the chart keeps the top ten rows;
- the staged filter equals a one-pass filter, keeps input order and is idempotent.

`Array.prototype.sort` is modelled as a stable sort because the ECMAScript
specification requires stability.

The model follows the code in three places a reader might not expect:

- `activeUsers` in the mock stats is the size of the user roster, not the number of
  distinct authors.
- The mock leaderboard has an entry for every roster user, including users with no
  contributions.
- A contribution of an unknown type raises only its author's total, never a type
  counter, so the three type counters can add up to less than the total
  (`Aggregation.TypeCountsSplitTotal`).

Module layout: `types.dfy` holds the records; `text.dfy` has lower-casing and substring
search; `sequences.dfy` has generic sequence facts; `stable_sort.dfy` has the sort;
`aggregation.dfy` has the reference tallies. Then there is one file per source file:
`repository_data.dfy`, `team.dfy`, `analytics.dfy`, `mock_data.dfy`, `filter_bar.dfy`,
`activity_feed.dfy`.

## Model

| member | source | states |
|---|---|---|
| Text.LowerChar | src/lib/mockData.ts:182-185 | an upper-case ASCII letter maps to its lower-case letter, every other character is kept, and no upper-case letter remains |
| Text.Lower | src/lib/mockData.ts:182-185 | lower-casing keeps the length and lower-cases each character in place |
| Text.Contains | src/lib/mockData.ts:184-185 | `includes` finds an occurrence at the start, always finds the empty string, and never finds a needle longer than the text |
| Text.ContainsIffOccurs | src/lib/mockData.ts:184-185 | `includes` holds exactly when the needle occurs at some position of the text |
| Sequences.Without | src/components/ui/FilterBar.tsx:28 | unchecking removes every occurrence of the item, keeps the count of every other item, and keeps the order of what remains |
| Sequences.WithoutAbsent | src/components/ui/FilterBar.tsx:28 | removing an item that is not selected leaves the selection unchanged |
| Sequences.WithoutAppended | src/components/ui/FilterBar.tsx:27-28 | removing an item after appending it is the same as removing it before |
| StableSort.SortInPlace | src/hooks/use-repository-data.tsx:65-66 | the in-place sort leaves the array equal to the stable descending sort of its old contents |
| StableSort.InsertIntoPrefix | src/hooks/use-repository-data.tsx:65-66 | one insertion step places the next element into the sorted prefix and leaves the rest of the array alone |
| StableSort.ShiftRight | src/hooks/use-repository-data.tsx:65-66 | the elements with a smaller key than the inserted one move right by one; the gap follows the last element whose key is at least as large |
| StableSort.SortedCopy | src/hooks/use-repository-data.tsx:65-66 | `Array.from(...).sort(...)` returns the stable descending sort of the values |
| StableSort.SortDescSorted | src/hooks/use-repository-data.tsx:66 | the sort's result has non-increasing keys |
| StableSort.SortDescPermutation | src/hooks/use-repository-data.tsx:66 | the sort's result is a permutation of its input |
| StableSort.SortDescStable | src/hooks/use-repository-data.tsx:66 | for every key value, the elements with that key appear in the same order as in the input |
| StableSort.SortDescDistinctBy | src/hooks/use-repository-data.tsx:66 | sorting preserves "no two elements share a projection", such as a user id |
| StableSort.SortDescSum | src/hooks/use-repository-data.tsx:66 | sorting preserves the sum of any column |
| StableSort.SortedTake | src/pages/Analytics.tsx:72-73 | a prefix of a sorted list is sorted, and its keys are at least those of every element cut off |
| Aggregation.ByUser | src/lib/mockData.ts:133 | every kept event has the user's id, every event with that id is kept, and the result keeps input order |
| Aggregation.ByUserCopies | src/lib/mockData.ts:133 | each of the user's events occurs in the result as often as in the input, repeats included, and no other event occurs |
| Aggregation.DistinctIds | src/hooks/use-repository-data.tsx:35-48 | the Map's key order lists each author's id once, and only authors' ids |
| Aggregation.FirstProfile | src/hooks/use-repository-data.tsx:38-40 | the stored profile carries the requested id and is the profile of one of the input events |
| Aggregation.RollupsOf | src/hooks/use-repository-data.tsx:65 | one leaderboard row per listed id, in the listed order, each the id's rollup |
| Aggregation.SumEvents | src/hooks/use-repository-data.tsx:51 | counting every event gives the list's length |
| Aggregation.TallyStep | src/hooks/use-repository-data.tsx:50-62 | one more event raises its author's tally by the event's weight and leaves every other user's tally unchanged |
| Aggregation.TallyAbsent | src/pages/Team.tsx:91-97 | a user with no events has no events to count and every tally at 0 |
| Aggregation.AppearsStep | src/hooks/use-repository-data.tsx:38 | after one more event, the authors are the previous authors plus that event's author |
| Aggregation.AppearsListed | src/hooks/use-repository-data.tsx:38-48 | every author is a key of the Map |
| Aggregation.DistinctIdsStep | src/hooks/use-repository-data.tsx:38-48 | one more event appends its author's id to the key order exactly when the id is new |
| Aggregation.FirstProfileStep | src/hooks/use-repository-data.tsx:38-48 | a later event never changes a known author's stored profile; a new author's profile comes from the new event |
| Aggregation.TypeCountsSplitTotal | src/hooks/use-repository-data.tsx:51-59 | the three type counts never exceed the total, and equal it exactly when no event has an unknown type |
| Aggregation.RollupTypeCounts | src/hooks/use-repository-data.tsx:51-59 | within one user's rollup, the three type counts never exceed the total, and equal it exactly when none of the user's events has an unknown type |
| Aggregation.TallyOverEmpty | src/hooks/use-repository-data.tsx:25-33 | before any event, the sum of the tallies over any ids is 0 |
| Aggregation.TallyOverStep | src/hooks/use-repository-data.tsx:50-62 | one more event raises the sum of distinct ids' tallies by its weight exactly when its author is listed |
| Aggregation.PartitionSum | src/hooks/use-repository-data.tsx:35-63 | when every author is listed once, the per-user tallies add up to the repository total |
| Aggregation.RollupsColumn | src/hooks/use-repository-data.tsx:65 | a column of the per-id rows adds up to the sum of those ids' tallies |
| Aggregation.AllAuthorsCounted | src/hooks/use-repository-data.tsx:35-63 | the tallies of the Map's keys add up to the repository total |
| RepositoryData.Leaderboard | src/hooks/use-repository-data.tsx:25-66 | the computed leaderboard has one entry per distinct author, and its totals never increase |
| RepositoryData.NewRecord | src/hooks/use-repository-data.tsx:39-47 | the record a new author starts from is the rollup of no events under that author's profile |
| RepositoryData.BuildLeaderboard | src/hooks/use-repository-data.tsx:25-66 | the leaderboard is the stable descending sort of the per-author rollups, and it is empty exactly when there are no contributions |
| RepositoryData.GroupContributors | src/hooks/use-repository-data.tsx:25-65 | `Array.from(contributorMap.values())` lists each author's rollup in order of first appearance |
| RepositoryData.ValuesAreContributors | src/hooks/use-repository-data.tsx:65 | reading the folded Map's values in key order gives the per-author rollups |
| RepositoryData.TalliedKeys | src/hooks/use-repository-data.tsx:38-48 | after the fold, the Map's keys are exactly the ids of its insertion order |
| RepositoryData.FoldContributors | src/hooks/use-repository-data.tsx:35-63 | after the forEach, each author's id is a key (in first-appearance order), and each record is that author's rollup with the profile of their first event |
| RepositoryData.AddContribution | src/hooks/use-repository-data.tsx:36-62 | one callback keeps the Map equal to the fold of the events seen so far |
| RepositoryData.CountContribution | src/hooks/use-repository-data.tsx:50-62 | the record's total goes up by one, the matching type counter by one (none for an unknown type), and the line sums by the event's counts, with a missing count adding 0 |
| RepositoryData.TalliedKnown | src/hooks/use-repository-data.tsx:50-62 | an event of a known author updates that author's record, keeps the key order, and keeps the Map equal to the fold |
| RepositoryData.TalliedNew | src/hooks/use-repository-data.tsx:38-48 | an event of a new author appends the id to the key order, creates the record from the event's profile, and keeps the Map equal to the fold |
| RepositoryData.HoldsStep | src/hooks/use-repository-data.tsx:36-62 | the callback keeps the Map equal to the fold at every single id |
| RepositoryData.ContributorStep | src/hooks/use-repository-data.tsx:38-62 | one event changes only its author's rollup: it counts the event into the existing record, or into an all-zero record with this event's profile |
| RepositoryData.LeaderboardOnePerUser | src/hooks/use-repository-data.tsx:38-48 | no two leaderboard entries share a user id |
| RepositoryData.ContributorsDistinct | src/hooks/use-repository-data.tsx:38-48 | no two Map values share a user id |
| RepositoryData.LeaderboardUsers | src/hooks/use-repository-data.tsx:35-66 | a user id has an entry exactly when some contribution carries it |
| RepositoryData.EveryAuthorListed | src/hooks/use-repository-data.tsx:35-66 | every author has an entry |
| RepositoryData.LeaderboardSize | src/hooks/use-repository-data.tsx:65-70 | there are as many entries as distinct authors, so the leaderboard is empty exactly when the response is |
| RepositoryData.LeaderboardEntries | src/hooks/use-repository-data.tsx:38-62 | every entry is its user's rollup: first profile, number of events, per-type counts and line sums |
| RepositoryData.ContributorAt | src/hooks/use-repository-data.tsx:38-62 | the i-th Map value is the rollup of the i-th distinct author, and its total is that author's number of events |
| RepositoryData.LeaderboardOrder | src/hooks/use-repository-data.tsx:65-66 | totals never increase down the leaderboard, it is a permutation of the Map values, and equal totals keep first-appearance order |
| RepositoryData.LeaderboardColumnSums | src/hooks/use-repository-data.tsx:35-66 | the totals add up to the number of contributions; each type column adds up to that type's count, and each line column to the repository's line sum |
| RepositoryData.ColumnSum | src/hooks/use-repository-data.tsx:35-66 | any leaderboard column that reads a per-user tally adds up to the repository total of that measure |
| RepositoryData.ContributorsColumn | src/hooks/use-repository-data.tsx:35-65 | the same, before the sort |
| RepositoryData.EntryTypeCounts | src/hooks/use-repository-data.tsx:51-59 | within an entry, the type counters never exceed the total, and equal it exactly when none of the user's events has an unknown type |
| RepositoryData.RepositoryDataHook.constructor | src/hooks/use-repository-data.tsx:12-14 | the hook starts with no contributions, the mock stats and the mock leaderboard |
| RepositoryData.RepositoryDataHook.FetchRepositoryData | src/hooks/use-repository-data.tsx:17-88 | a present contributions field is stored; the leaderboard is replaced only by a non-empty computed one; present stats are stored as they are; a failed request resets the stats to the mock stats, and a failed contributions request prevents the stats request |
| RepositoryData.RepositoryDataHook.ReceiveContributions | src/hooks/use-repository-data.tsx:21-70 | the fetched list is stored, and the leaderboard is replaced by the computed one unless the list is empty |
| Team.ContributorStatsMap | src/pages/Team.tsx:49-74 | a non-array response gives the empty Map; otherwise the keys are exactly the authors, and each value holds that author's commit, pull-request and review counts under the author's own id |
| Team.CountTypes | src/pages/Team.tsx:52-73 | one callback keeps the Map equal to the per-type counts of the events seen so far |
| Team.RaiseTypeCounter | src/pages/Team.tsx:66-72 | exactly the counter of the event's type goes up by one; an unknown type raises none |
| Team.StatsStep | src/pages/Team.tsx:52-73 | the callback keeps the Map equal to the fold at every id |
| Team.StatsAt | src/pages/Team.tsx:52-73 | at each id, after one event, the Map has a record exactly for the authors, and the record is the author's type counts |
| Team.TypeStatsStep | src/pages/Team.tsx:55-72 | one event raises only its author's counter of its type; a user's first event starts from the all-zero record |
| Team.UnknownTypeCountsNothing | src/pages/Team.tsx:55-72 | an event of an unknown type gives its author a record, all zeros if it is their first event, and raises no counter |
| Team.GetContributorStats | src/pages/Team.tsx:85-98 | a missing id gets an all-zero record; the result carries the requested id whenever every stored record carries its own key |
| Team.LookupIsTypeStats | src/pages/Team.tsx:85-98 | on the folded Map, the lookup gives every id its type counts (zero for a user with no contributions), under the requested id |
| Team.TeamPage.constructor | src/pages/Team.tsx:20-21 | the page starts with no contributors and an empty Map |
| Team.TeamPage.FetchContributors | src/pages/Team.tsx:38-82 | the contributors payload is stored; the Map is replaced only when both requests answer: empty for a non-array response, the per-type fold otherwise; a failure leaves the Map as it was |
| Analytics.ChartRowsOf | src/pages/Analytics.tsx:70-71 | one chart row per listed id, in the listed order, with the username of the id's first event and its event count |
| Analytics.CountsKeys | src/pages/Analytics.tsx:55-67 | after the fold, the Map's keys are exactly the ids of its insertion order |
| Analytics.Chart | src/pages/Analytics.tsx:55-73 | the computed chart has ten rows, or one per author when there are fewer authors, and its counts never increase |
| Analytics.BuildChartData | src/pages/Analytics.tsx:55-73 | the chart is the first ten rows of the stable descending sort of the per-author rows |
| Analytics.GroupCounts | src/pages/Analytics.tsx:55-71 | the mapped Map values are the per-author rows in first-appearance order |
| Analytics.FoldCounts | src/pages/Analytics.tsx:55-67 | after the forEach, each author's id is a key, in first-appearance order, and holds the author's first username and event count |
| Analytics.CountOne | src/pages/Analytics.tsx:57-66 | one callback keeps the Map equal to the fold of the events seen so far |
| Analytics.ValuesAreChartRows | src/pages/Analytics.tsx:70-71 | mapping the folded Map's values in key order gives the chart rows |
| Analytics.CountsKnown | src/pages/Analytics.tsx:65-66 | an event of a known id raises that id's count, keeps the key order, and keeps the Map equal to the fold |
| Analytics.CountsNew | src/pages/Analytics.tsx:61-66 | an event of a new id appends it to the key order with the event's username and count 1 |
| Analytics.CountAt | src/pages/Analytics.tsx:57-66 | the callback keeps the Map equal to the fold at every single id |
| Analytics.CountOfStep | src/pages/Analytics.tsx:57-66 | one event changes only its author's value: the count goes up, from 0 with this event's username for a new author |
| Analytics.ChartTopRows | src/pages/Analytics.tsx:72-73 | counts never increase down the chart, and every kept row's count is at least that of every row cut off |
| Analytics.ChartOrder | src/pages/Analytics.tsx:72 | sorting keeps every author's row, and equal counts stay in first-appearance order |
| Analytics.ChartRowsMeaning | src/pages/Analytics.tsx:55-73 | every chart row belongs to an author: the username of that id's first event, and that id's number of events |
| Analytics.ChartRowsColumn | src/pages/Analytics.tsx:70-71 | the counts of the rows of some ids add up to the sum of those ids' event counts |
| Analytics.ChartCountsSum | src/pages/Analytics.tsx:55-72 | before the cut to ten, the counts add up to the number of contributions |
| Analytics.AnalyticsPage.constructor | src/pages/Analytics.tsx:22-23 | the page starts with no stats and no chart rows |
| Analytics.AnalyticsPage.FetchData | src/pages/Analytics.tsx:40-81 | the stats payload is stored; a present contributions field, an empty list included, replaces the chart with the top-ten chart; a missing field or a failure leaves the chart; a failed stats request prevents the contributions request |
| MockData.OfKind | src/lib/mockData.ts:134-136 | the filter by type keeps exactly the events of that type, and its length is that type's count |
| MockData.ReduceLines | src/lib/mockData.ts:144-145 | the left-to-right `reduce` from a start value is that value plus the sum of the line counts; the stats totals reuse it over all contributions |
| MockData.RosterEntries | src/lib/mockData.ts:132-147 | one entry per roster user, in roster order, each the user's rollup |
| MockData.RosterRollups | src/lib/mockData.ts:132 | one rollup per roster position |
| MockData.RosterEntry | src/lib/mockData.ts:133-146 | the `map` callback's entry is the user's rollup: the filter lengths are the counts and the reductions are the line sums |
| MockData.RosterEntriesAreRollups | src/lib/mockData.ts:132-147 | the mapped roster is the list of the roster users' rollups |
| MockData.RosterRollupsAt | src/lib/mockData.ts:132-147 | the i-th unsorted entry is the i-th roster user's rollup |
| MockData.MockLeaderboard | src/lib/mockData.ts:132-150 | the mock leaderboard is the stable descending sort, by total, of the roster users' rollups |
| MockData.MockLeaderboardRoster | src/lib/mockData.ts:132-150 | one entry per roster user, including users with no contributions, and the board is a permutation of the roster rollups |
| MockData.MockLeaderboardEntries | src/lib/mockData.ts:132-150 | every entry belongs to a roster user and is that user's rollup |
| MockData.MockLeaderboardOrder | src/lib/mockData.ts:150 | totals never increase down the board, and equal totals keep roster order |
| MockData.RosterIds | src/lib/mockData.ts:133 | the roster's ids, position by position |
| MockData.RosterColumn | src/lib/mockData.ts:132-147 | a column of the roster rollups adds up to the sum of the roster ids' tallies |
| MockData.MockLeaderboardColumn | src/lib/mockData.ts:132-150 | when the roster lists each author once, every column adds up to the repository total of its measure |
| MockData.MockLeaderboardTotals | src/lib/mockData.ts:132-150 | under the same condition, the entries' totals add up to the number of contributions |
| MockData.MockStats | src/lib/mockData.ts:152-160 | each total is the repository-wide count or line sum of its kind, and `activeUsers` is the roster size |
| MockData.MockStatsTypes | src/lib/mockData.ts:153-156 | the per-type totals never exceed the total, and add up to it exactly when every event has a known type |
| MockData.MockStatsMatchLeaderboard | src/lib/mockData.ts:132-160 | when the roster lists each author once, every stats total equals the sum of the matching leaderboard column |
| MockData.FilterContributions | src/lib/mockData.ts:162-190 | the five guarded stages keep exactly the contributions that meet every set condition, in input order |
| MockData.Keep | src/lib/mockData.ts:166-186 | one `filter` stage keeps only contributions that meet its condition, and never lengthens the list |
| MockData.KeepMembers | src/lib/mockData.ts:166-186 | one stage keeps a contribution exactly when it is in the input and meets the stage's condition |
| MockData.KeepAllGuarded | src/lib/mockData.ts:165-187 | running one more stage narrows the kept list by that stage's condition when the stage's guard holds, and changes nothing otherwise |
| MockData.KeepAllNone | src/lib/mockData.ts:163 | with no stage run, the copy is the input |
| MockData.KeepAllThen | src/lib/mockData.ts:165-187 | one more filter after a single pass is a single pass with one more condition |
| MockData.KeepConcat | src/lib/mockData.ts:166 | a filter distributes over concatenation |
| MockData.AllHoldConcat | src/lib/mockData.ts:165-187 | meeting a concatenation of conditions is meeting both parts |
| MockData.MatchesStages | src/lib/mockData.ts:165-187 | the stages whose guards hold demand exactly what the filter object asks for, field by field; an empty list or empty search imposes nothing |
| MockData.GuardedHolds | src/lib/mockData.ts:165-187 | a guarded stage demands its condition only when its guard holds |
| MockData.FilterIsOnePass | src/lib/mockData.ts:162-190 | running the stages one after another equals one pass of the combined condition |
| MockData.FilterSubsequence | src/lib/mockData.ts:162-190 | the result keeps the input's order |
| MockData.FilterMembers | src/lib/mockData.ts:162-190 | a contribution is kept exactly when it is in the input and meets every set field |
| MockData.FilterIdempotent | src/lib/mockData.ts:162-190 | filtering the result again with the same filters changes nothing |
| MockData.FilterNothingSet | src/lib/mockData.ts:162-190 | a filter object with no field set, or only empty lists and an empty search, returns the input unchanged |
| FilterBar.NonEmpty | src/components/ui/FilterBar.tsx:42-43 | a selection is emitted exactly when it is non-empty, and then unchanged |
| FilterBar.TypeLabel | src/components/ui/FilterBar.tsx:58-67 | a label exists exactly for the three known types |
| FilterBar.TypeLabelsDistinct | src/components/ui/FilterBar.tsx:58-67 | the three known types have three different labels |
| FilterBar.FilterBarState.constructor | src/components/ui/FilterBar.tsx:17-22 | nothing is selected, and the date range has both ends unset |
| FilterBar.FilterBarState.HandleUserChange | src/components/ui/FilterBar.tsx:24-30 | checking appends the id, a repeat included; unchecking removes every occurrence; nothing else changes |
| FilterBar.FilterBarState.HandleTypeChange | src/components/ui/FilterBar.tsx:32-38 | the same for the type selection |
| FilterBar.FilterBarState.ApplyFilters | src/components/ui/FilterBar.tsx:40-47 | emits the non-empty selections and the range's ends (both absent without a range), and changes no selection |
| FilterBar.FilterBarState.ResetFilters | src/components/ui/FilterBar.tsx:49-54 | clears both selections and the range, and emits the empty filter object |
| FilterBar.FilterBarState.OnSelect | src/components/ui/FilterBar.tsx:161-172 | stores the range; it emits filters exactly when the range has a start (the test on the end is always true), keeping the current selections |
| FilterBar.UncheckUndoesCheck | src/components/ui/FilterBar.tsx:24-38 | checking an unselected item and then unchecking it restores the selection |
| FilterBar.EmptySelectionIsNoCondition | src/components/ui/FilterBar.tsx:42-43 | emitting an empty selection as absent keeps the same contributions through the filter as emitting the empty list |
| FilterBar.ResetShowsEverything | src/components/ui/FilterBar.tsx:53 | the object the reset emits makes the contribution filter return its input |
| ActivityFeed.FirstN | src/components/dashboard/ActivityFeed.tsx:39 | `slice(0, count)` returns the first `min(count, length)` contributions |
| ActivityFeed.FirstNGrows | src/components/dashboard/ActivityFeed.tsx:13-15 | showing more never changes what was already shown, and adds at most the extra count |
| ActivityFeed.Feed.constructor | src/components/dashboard/ActivityFeed.tsx:11 | the feed starts by showing ten |
| ActivityFeed.Feed.LoadMore | src/components/dashboard/ActivityFeed.tsx:13-15 | "Load More" shows ten more, and the count stays a positive multiple of ten |
| ActivityFeed.Feed.Visible | src/components/dashboard/ActivityFeed.tsx:39 | the visible contributions are the first `min(count, length)` ones |
| ActivityFeed.Feed.ShowsLoadMore | src/components/dashboard/ActivityFeed.tsx:51 | the button is shown exactly when some contribution is still hidden |
| ActivityFeed.Feed.ShowsEmptyState | src/components/dashboard/ActivityFeed.tsx:43 | the empty state is shown exactly when there are no contributions |

## Left out

- Network requests (axios), `async`/`await` and the response shapes are not modelled. Each request is a `Reply` parameter: it either failed, or answered with a payload that may be missing.
- `src/pages/Team.tsx:8` and `src/pages/Analytics.tsx:5` import `getContributions` and `getRepositoryStats`, but `src/lib/api.ts` defines only `api`, `getUsers` and `getUserById`. The model therefore takes the results of those two helpers as parameters.
- Loading and refreshing flags, toasts, `console.error`, loading skeletons and all rendering (cards, tables, recharts charts, popovers) are left out. They do not affect the data.
- `localStorage`, the owner and repository state, and the effects that start a fetch are left out. They only choose when a fetch runs.
- Mock data generation (`Math.random`, the generated users and contributions, the timestamp sort of the mock list) is left out. The roster and the contribution list are parameters of the mock leaderboard, the mock stats and the filter.
- Timestamps are integers on one time line. `Date` parsing and time zones are not modelled.
- `toLowerCase` lower-cases ASCII letters only. Unicode case mapping is not modelled.
- Numbers are unbounded integers. JavaScript's floating-point limits are not modelled.
- Each `Map` of mutable records is a `map` value plus a sequence for its insertion order, reassigned at every step. Aliasing between a record and the Map is not modelled.
- Callbacks passed by the parent (`onFilterChange`) are a list of emitted filter objects on the filter bar.
- MockData.MockLeaderboard: requires every contribution to carry both line counts. A missing count would make the JavaScript `reduce` produce `NaN`, which is not modelled.
- MockData.MockStats: requires both line counts on every contribution, for the same reason.
- The Analytics page's stats payload is stored as it is; the stats component that shows it is not modelled.
- The Team page's contributors payload is stored as it is; the member table that shows it is not modelled.
