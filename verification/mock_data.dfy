/** The mock data layer (src/lib/mockData.ts): the leaderboard built over the fixed
    user roster, the repository-wide stats, and the contribution filter. The roster
    and the contribution list are parameters; how the mock list is generated is not
    part of this model. */
module MockData {
  import opened Types
  import opened Sequences
  import opened StableSort
  import opened Aggregation
  import opened Text

  // ------------------------------------------------------------------ leaderboard

  /** Mock contributions always carry both line counts. */
  predicate HasLines(c: Contribution) {
    c.linesAdded.Some? && c.linesRemoved.Some?
  }

  predicate LinesPresent(cs: seq<Contribution>) {
    forall c :: c in cs ==> HasLines(c)
  }

  /** `list.filter(c => c.type === t)`. */
  function OfKind(s: seq<Contribution>, t: ContributionType): (r: seq<Contribution>)
    ensures |r| == Sum(s, OfType(t))
    ensures forall c :: c in r <==> c in s && c.kind == t
  {
    if s == [] then []
    else
      var init, last := s[..|s| - 1], s[|s| - 1];
      assert s == init + [last];
      OfKind(init, t) + (if last.kind == t then [last] else [])
  }

  /** The raw line count, `c.linesAdded` when `added` and `c.linesRemoved` otherwise. */
  function RawLines(c: Contribution, added: bool): int
    requires HasLines(c)
  {
    if added then c.linesAdded.value else c.linesRemoved.value
  }

  function LineMeasure(added: bool): Measure {
    if added then Added else Removed
  }

  /** `list.reduce((sum, c) => sum + c.linesAdded, 0)` (or `linesRemoved`), left to
      right: the start value plus the line sum of the list. */
  function ReduceLines(s: seq<Contribution>, added: bool, sum: int): (r: int)
    requires LinesPresent(s)
    ensures r == sum + Sum(s, LineMeasure(added))
  {
    if s == [] then sum
    else
      SumFront(s, LineMeasure(added));
      ReduceLines(s[1..], added, sum + RawLines(s[0], added))
  }

  /** `mockUsers.map(user => ...)`: one entry for user `u`, built from the filters and
      reductions over `u`'s contributions. It is `u`'s rollup: the filter lengths are
      the counts and the reductions are the line sums. */
  function RosterEntry(cs: seq<Contribution>, u: User): (e: LeaderboardEntry)
    requires LinesPresent(cs)
    ensures e == Rollup(cs, u)
  {
    var mine := ByUser(cs, u.id);
    SubsequenceElements(mine, cs);
    SumEvents(mine);
    LeaderboardEntry(
      u,
      |mine|,
      |OfKind(mine, Commit)|,
      |OfKind(mine, PullRequest)|,
      |OfKind(mine, Review)|,
      ReduceLines(mine, true, 0),
      ReduceLines(mine, false, 0))
  }

  /** The unsorted mock leaderboard, one entry per roster position. */
  function RosterEntries(roster: seq<User>, cs: seq<Contribution>): (rows: seq<LeaderboardEntry>)
    requires LinesPresent(cs)
    ensures |rows| == |roster|
    ensures forall i :: 0 <= i < |roster| ==> rows[i] == Rollup(cs, roster[i])
  {
    if roster == [] then []
    else
      [RosterEntry(cs, roster[0])] + RosterEntries(roster[1..], cs)
  }

  /** The rollups of the roster users, in roster order. */
  function RosterRollups(roster: seq<User>, cs: seq<Contribution>): (rows: seq<LeaderboardEntry>)
    ensures |rows| == |roster|
  {
    if roster == [] then [] else [Rollup(cs, roster[0])] + RosterRollups(roster[1..], cs)
  }

  /** `mockLeaderboard`: the roster entries, then `sort` by total, highest first. */
  method MockLeaderboard(roster: seq<User>, contributions: seq<Contribution>)
    returns (leaderboard: seq<LeaderboardEntry>)
    requires LinesPresent(contributions)
    ensures leaderboard == SortDesc(RosterRollups(roster, contributions), TotalOf)
  {
    var entries := RosterEntries(roster, contributions);
    RosterEntriesAreRollups(roster, contributions);
    leaderboard := SortedCopy(entries, TotalOf);
  }

  lemma {:induction false} SumFront(s: seq<Contribution>, m: Measure)
    requires s != []
    ensures Sum(s, m) == Weight(m, s[0]) + Sum(s[1..], m)
  {
    if |s| > 1 {
      SumFront(s[..|s| - 1], m);
      assert s[..|s| - 1][1..] == s[1..][..|s[1..]| - 1];
    }
  }

  lemma {:induction false} RosterEntriesAreRollups(roster: seq<User>, cs: seq<Contribution>)
    requires LinesPresent(cs)
    ensures RosterEntries(roster, cs) == RosterRollups(roster, cs)
  {
    if roster != [] {
      RosterEntriesAreRollups(roster[1..], cs);
    }
  }

  lemma {:induction false} RosterRollupsAt(roster: seq<User>, cs: seq<Contribution>, i: int)
    requires 0 <= i < |roster|
    ensures RosterRollups(roster, cs)[i] == Rollup(cs, roster[i])
  {
    if i > 0 {
      RosterRollupsAt(roster[1..], cs, i - 1);
    }
  }

  /** One entry per roster user, users without contributions included: the board is a
      permutation of the roster users' rollups. */
  lemma MockLeaderboardRoster(roster: seq<User>, cs: seq<Contribution>, u: User)
    ensures |SortDesc(RosterRollups(roster, cs), TotalOf)| == |roster|
    ensures multiset(SortDesc(RosterRollups(roster, cs), TotalOf)) == multiset(RosterRollups(roster, cs))
    ensures u in roster ==> Rollup(cs, u) in SortDesc(RosterRollups(roster, cs), TotalOf)
  {
    var rows := RosterRollups(roster, cs);
    SortDescPermutation(rows, TotalOf);
    if u in roster {
      var i :| 0 <= i < |roster| && roster[i] == u;
      RosterRollupsAt(roster, cs, i);
      assert rows[i] in multiset(SortDesc(rows, TotalOf));
    }
  }

  /** Every entry belongs to a roster user and is that user's rollup. */
  lemma MockLeaderboardEntries(roster: seq<User>, cs: seq<Contribution>, e: LeaderboardEntry)
    requires e in SortDesc(RosterRollups(roster, cs), TotalOf)
    ensures e.user in roster && e == Rollup(cs, e.user)
  {
    var rows := RosterRollups(roster, cs);
    SortDescPermutation(rows, TotalOf);
    assert e in multiset(rows);
    var i :| 0 <= i < |rows| && rows[i] == e;
    RosterRollupsAt(roster, cs, i);
  }

  /** Totals never increase down the board, and equal totals keep roster order. */
  lemma MockLeaderboardOrder(roster: seq<User>, cs: seq<Contribution>, k: int)
    ensures SortedDesc(SortDesc(RosterRollups(roster, cs), TotalOf), TotalOf)
    ensures WithKey(SortDesc(RosterRollups(roster, cs), TotalOf), TotalOf, k)
         == WithKey(RosterRollups(roster, cs), TotalOf, k)
  {
    SortDescSorted(RosterRollups(roster, cs), TotalOf);
    SortDescStable(RosterRollups(roster, cs), TotalOf, k);
  }

  /** The ids of the roster users, in roster order. */
  function RosterIds(roster: seq<User>): (ids: seq<string>)
    ensures |ids| == |roster|
    ensures forall i :: 0 <= i < |roster| ==> ids[i] == roster[i].id
  {
    if roster == [] then [] else [roster[0].id] + RosterIds(roster[1..])
  }

  lemma {:induction false} RosterColumn(roster: seq<User>, cs: seq<Contribution>, m: Measure, f: LeaderboardEntry -> int)
    requires forall u: User :: f(Rollup(cs, u)) == Tally(cs, u.id, m)
    ensures SumBy(RosterRollups(roster, cs), f) == TallyOver(cs, RosterIds(roster), m)
  {
    if roster != [] {
      RosterColumn(roster[1..], cs, m, f);
      assert RosterIds(roster)[1..] == RosterIds(roster[1..]);
    }
  }

  /** When the roster lists each author exactly once (and nobody else shares an id),
      the entries' totals add up to the number of contributions and each column to
      the matching sum over all contributions. */
  lemma MockLeaderboardColumn(roster: seq<User>, cs: seq<Contribution>, m: Measure, f: LeaderboardEntry -> int)
    requires Distinct(RosterIds(roster))
    requires forall c :: c in cs ==> c.user.id in RosterIds(roster)
    requires forall u: User :: f(Rollup(cs, u)) == Tally(cs, u.id, m)
    ensures SumBy(SortDesc(RosterRollups(roster, cs), TotalOf), f) == Sum(cs, m)
  {
    SortDescSum(RosterRollups(roster, cs), TotalOf, f);
    RosterColumn(roster, cs, m, f);
    PartitionSum(cs, RosterIds(roster), m);
  }

  lemma MockLeaderboardTotals(roster: seq<User>, cs: seq<Contribution>)
    requires Distinct(RosterIds(roster))
    requires forall c :: c in cs ==> c.user.id in RosterIds(roster)
    ensures SumBy(SortDesc(RosterRollups(roster, cs), TotalOf), TotalOf) == |cs|
  {
    MockLeaderboardColumn(roster, cs, Events, TotalOf);
    SumEvents(cs);
  }

  // ------------------------------------------------------------------ stats

  /** `mockStats`: counts and line sums over all contributions; `activeUsers` is the
      roster size, whether or not every roster user has contributed. */
  function MockStats(roster: seq<User>, cs: seq<Contribution>): (stats: StatsOverview)
    requires LinesPresent(cs)
    ensures stats.totalContributions == Sum(cs, Events)
    ensures stats.totalCommits == Sum(cs, OfType(Commit))
    ensures stats.totalPullRequests == Sum(cs, OfType(PullRequest))
    ensures stats.totalReviews == Sum(cs, OfType(Review))
    ensures stats.totalLinesAdded == Sum(cs, Added)
    ensures stats.totalLinesRemoved == Sum(cs, Removed)
    ensures stats.activeUsers == |roster|
  {
    SumEvents(cs);
    StatsOverview(
      |cs|,
      |OfKind(cs, Commit)|,
      |OfKind(cs, PullRequest)|,
      |OfKind(cs, Review)|,
      ReduceLines(cs, true, 0),
      ReduceLines(cs, false, 0),
      |roster|)
  }

  /** The per-type totals add up to the number of contributions exactly when every
      contribution has one of the three known types. */
  lemma MockStatsTypes(roster: seq<User>, cs: seq<Contribution>)
    requires LinesPresent(cs)
    ensures var st := MockStats(roster, cs);
            st.totalCommits + st.totalPullRequests + st.totalReviews <= st.totalContributions &&
            (st.totalCommits + st.totalPullRequests + st.totalReviews == st.totalContributions
             <==> forall c :: c in cs ==> !c.kind.Other?)
  {
    TypeCountsSplitTotal(cs);
  }

  /** The stats agree with the mock leaderboard's column sums when the roster lists
      each author once. */
  lemma MockStatsMatchLeaderboard(roster: seq<User>, cs: seq<Contribution>)
    requires LinesPresent(cs)
    requires Distinct(RosterIds(roster))
    requires forall c :: c in cs ==> c.user.id in RosterIds(roster)
    ensures var st, board := MockStats(roster, cs), SortDesc(RosterRollups(roster, cs), TotalOf);
            st.totalContributions == SumBy(board, TotalOf) &&
            st.totalCommits == SumBy(board, CommitsOf) &&
            st.totalPullRequests == SumBy(board, PullRequestsOf) &&
            st.totalReviews == SumBy(board, ReviewsOf) &&
            st.totalLinesAdded == SumBy(board, LinesAddedOf) &&
            st.totalLinesRemoved == SumBy(board, LinesRemovedOf)
  {
    MockLeaderboardColumn(roster, cs, Events, TotalOf);
    MockLeaderboardColumn(roster, cs, OfType(Commit), CommitsOf);
    MockLeaderboardColumn(roster, cs, OfType(PullRequest), PullRequestsOf);
    MockLeaderboardColumn(roster, cs, OfType(Review), ReviewsOf);
    MockLeaderboardColumn(roster, cs, Added, LinesAddedOf);
    MockLeaderboardColumn(roster, cs, Removed, LinesRemovedOf);
  }

  // ------------------------------------------------------------------ filter

  /** One stage of the filter: the condition a contribution must meet to stay. */
  datatype Criterion =
    | InUsers(ids: seq<string>)
    | InTypes(kinds: seq<ContributionType>)
    | NotBefore(start: int)
    | NotAfter(end: int)
    | Mentions(query: string)

  predicate Holds(k: Criterion, c: Contribution) {
    match k
    case InUsers(ids) => c.user.id in ids
    case InTypes(kinds) => c.kind in kinds
    case NotBefore(start) => c.timestamp >= start
    case NotAfter(end) => c.timestamp <= end
    case Mentions(query) =>
      Contains(Lower(c.description), Lower(query)) || Contains(Lower(c.user.username), Lower(query))
  }

  /** `filtered.filter(c => ...)` for one stage. */
  function Keep(s: seq<Contribution>, k: Criterion): (r: seq<Contribution>)
    ensures forall i :: 0 <= i < |r| ==> Holds(k, r[i])
    ensures |r| <= |s|
  {
    if s == [] then []
    else
      var init, last := s[..|s| - 1], s[|s| - 1];
      assert s == init + [last];
      Keep(init, k) + (if Holds(k, last) then [last] else [])
  }

  /** One stage keeps a contribution exactly when it is in the input and meets the
      stage's condition. */
  lemma {:induction false} KeepMembers(s: seq<Contribution>, k: Criterion, c: Contribution)
    ensures c in Keep(s, k) <==> c in s && Holds(k, c)
  {
    if s != [] {
      var init, last := s[..|s| - 1], s[|s| - 1];
      KeepMembers(init, k, c);
      assert s == init + [last];
    }
  }

  /** `[k]` when the stage's guard is true, nothing otherwise. */
  function Guarded(guard: bool, k: Criterion): seq<Criterion> {
    if guard then [k] else []
  }

  /** The stages whose guard is true, in the order they run: a list only when it is
      present and non-empty, a date when present, the query when non-empty. */
  function Stages(f: FilterOptions): seq<Criterion> {
    Guarded(f.users.Some? && |f.users.value| > 0, InUsers(f.users.GetOr([])))
    + Guarded(f.types.Some? && |f.types.value| > 0, InTypes(f.types.GetOr([])))
    + Guarded(f.startDate.Some?, NotBefore(f.startDate.GetOr(0)))
    + Guarded(f.endDate.Some?, NotAfter(f.endDate.GetOr(0)))
    + Guarded(f.search.Some? && f.search.value != [], Mentions(f.search.GetOr([])))
  }

  predicate AllHold(ks: seq<Criterion>, c: Contribution) {
    forall i :: 0 <= i < |ks| ==> Holds(ks[i], c)
  }

  /** A single pass keeping exactly the contributions that meet every stage. */
  function KeepAll(s: seq<Contribution>, ks: seq<Criterion>): seq<Contribution> {
    if s == [] then []
    else
      var init, last := s[..|s| - 1], s[|s| - 1];
      KeepAll(init, ks) + (if AllHold(ks, last) then [last] else [])
  }

  /** `mockFilteredContributions`: five guarded stages, each narrowing `filtered`. */
  method FilterContributions(contributions: seq<Contribution>, filters: FilterOptions)
    returns (filtered: seq<Contribution>)
    ensures filtered == KeepAll(contributions, Stages(filters))
    ensures filtered == OnePass(contributions, filters)
  {
    FilterIsOnePass(contributions, filters);
    filtered := contributions;
    KeepAllNone(contributions);
    ghost var done: seq<Criterion> := [];

    var byUsers := filters.users.Some? && |filters.users.value| > 0;
    if byUsers {
      filtered := Keep(filtered, InUsers(filters.users.value));
    }
    KeepAllGuarded(contributions, done, byUsers, InUsers(filters.users.GetOr([])));
    done := done + Guarded(byUsers, InUsers(filters.users.GetOr([])));
    assert done == Guarded(byUsers, InUsers(filters.users.GetOr([])));

    var byTypes := filters.types.Some? && |filters.types.value| > 0;
    if byTypes {
      filtered := Keep(filtered, InTypes(filters.types.value));
    }
    KeepAllGuarded(contributions, done, byTypes, InTypes(filters.types.GetOr([])));
    done := done + Guarded(byTypes, InTypes(filters.types.GetOr([])));

    if filters.startDate.Some? {
      filtered := Keep(filtered, NotBefore(filters.startDate.value));
    }
    KeepAllGuarded(contributions, done, filters.startDate.Some?, NotBefore(filters.startDate.GetOr(0)));
    done := done + Guarded(filters.startDate.Some?, NotBefore(filters.startDate.GetOr(0)));

    if filters.endDate.Some? {
      filtered := Keep(filtered, NotAfter(filters.endDate.value));
    }
    KeepAllGuarded(contributions, done, filters.endDate.Some?, NotAfter(filters.endDate.GetOr(0)));
    done := done + Guarded(filters.endDate.Some?, NotAfter(filters.endDate.GetOr(0)));

    var bySearch := filters.search.Some? && filters.search.value != [];
    if bySearch {
      filtered := Keep(filtered, Mentions(filters.search.value));
    }
    KeepAllGuarded(contributions, done, bySearch, Mentions(filters.search.GetOr([])));
    done := done + Guarded(bySearch, Mentions(filters.search.GetOr([])));
  }

  lemma KeepAllGuarded(s: seq<Contribution>, ks: seq<Criterion>, guard: bool, k: Criterion)
    ensures KeepAll(s, ks + Guarded(guard, k)) == if guard then Keep(KeepAll(s, ks), k) else KeepAll(s, ks)
  {
    if guard {
      KeepAllThen(s, ks, k);
    } else {
      assert ks + Guarded(guard, k) == ks;
    }
  }

  lemma {:induction false} KeepAllNone(s: seq<Contribution>)
    ensures KeepAll(s, []) == s
  {
    if s != [] {
      KeepAllNone(s[..|s| - 1]);
    }
  }

  /** Running one more stage over the result of the earlier ones. */
  lemma {:induction false} KeepAllThen(s: seq<Contribution>, ks: seq<Criterion>, k: Criterion)
    ensures Keep(KeepAll(s, ks), k) == KeepAll(s, ks + [k])
  {
    if s != [] {
      var init, last := s[..|s| - 1], s[|s| - 1];
      KeepAllThen(init, ks, k);
      assert AllHold(ks + [k], last) <==> AllHold(ks, last) && Holds(k, last) by {
        assert forall i :: 0 <= i < |ks| ==> (ks + [k])[i] == ks[i];
        assert (ks + [k])[|ks|] == k;
      }
      var kept := KeepAll(init, ks);
      var tail := if AllHold(ks, last) then [last] else [];
      KeepConcat(kept, tail, k);
    }
  }

  lemma {:induction false} KeepConcat(a: seq<Contribution>, b: seq<Contribution>, k: Criterion)
    ensures Keep(a + b, k) == Keep(a, k) + Keep(b, k)
    decreases |b|
  {
    if b == [] {
      assert a + b == a;
    } else {
      var init, last := b[..|b| - 1], b[|b| - 1];
      var tail := if Holds(k, last) then [last] else [];
      KeepConcat(a, init, k);
      assert (a + b)[..|a + b| - 1] == a + init;
      assert (a + b)[|a + b| - 1] == last;
      assert Keep(a + b, k) == Keep(a + init, k) + tail;
      assert Keep(b, k) == Keep(init, k) + tail;
      assert Keep(a, k) + Keep(init, k) + tail == Keep(a, k) + (Keep(init, k) + tail);
    }
  }

  // --- properties of the filter

  /** The contribution filter described field by field, with `includes` read as
      "occurs at some position". */
  ghost predicate Matches(f: FilterOptions, c: Contribution) {
    && (f.users.Some? && |f.users.value| > 0 ==> c.user.id in f.users.value)
    && (f.types.Some? && |f.types.value| > 0 ==> c.kind in f.types.value)
    && (f.startDate.Some? ==> f.startDate.value <= c.timestamp)
    && (f.endDate.Some? ==> c.timestamp <= f.endDate.value)
    && (f.search.Some? && f.search.value != [] ==>
          (exists i :: OccursAt(Lower(c.description), Lower(f.search.value), i))
          || (exists i :: OccursAt(Lower(c.user.username), Lower(f.search.value), i)))
  }

  lemma AllHoldConcat(a: seq<Criterion>, b: seq<Criterion>, c: Contribution)
    ensures AllHold(a + b, c) <==> AllHold(a, c) && AllHold(b, c)
  {
    if AllHold(a, c) && AllHold(b, c) {
      forall i | 0 <= i < |a + b| ensures Holds((a + b)[i], c) {
        if i >= |a| {
          assert (a + b)[i] == b[i - |a|];
        }
      }
    }
    if AllHold(a + b, c) {
      forall i | 0 <= i < |a| ensures Holds(a[i], c) {
        assert (a + b)[i] == a[i];
      }
      forall i | 0 <= i < |b| ensures Holds(b[i], c) {
        assert (a + b)[|a| + i] == b[i];
      }
    }
  }

  /** The five stages together demand exactly what the filter object asks for. */
  lemma MatchesStages(f: FilterOptions, c: Contribution)
    ensures AllHold(Stages(f), c) <==> Matches(f, c)
  {
    var q := f.search.GetOr([]);
    ContainsIffOccurs(Lower(c.description), Lower(q));
    ContainsIffOccurs(Lower(c.user.username), Lower(q));
    var users := Guarded(f.users.Some? && |f.users.value| > 0, InUsers(f.users.GetOr([])));
    var types := Guarded(f.types.Some? && |f.types.value| > 0, InTypes(f.types.GetOr([])));
    var start := Guarded(f.startDate.Some?, NotBefore(f.startDate.GetOr(0)));
    var end := Guarded(f.endDate.Some?, NotAfter(f.endDate.GetOr(0)));
    var search := Guarded(f.search.Some? && f.search.value != [], Mentions(q));
    assert Stages(f) == users + types + start + end + search;
    AllHoldConcat(users + types + start + end, search, c);
    AllHoldConcat(users + types + start, end, c);
    AllHoldConcat(users + types, start, c);
    AllHoldConcat(users, types, c);
    GuardedHolds(f.users.Some? && |f.users.value| > 0, InUsers(f.users.GetOr([])), c);
    GuardedHolds(f.types.Some? && |f.types.value| > 0, InTypes(f.types.GetOr([])), c);
    GuardedHolds(f.startDate.Some?, NotBefore(f.startDate.GetOr(0)), c);
    GuardedHolds(f.endDate.Some?, NotAfter(f.endDate.GetOr(0)), c);
    GuardedHolds(f.search.Some? && f.search.value != [], Mentions(q), c);
  }

  lemma GuardedHolds(guard: bool, k: Criterion, c: Contribution)
    ensures AllHold(Guarded(guard, k), c) <==> (guard ==> Holds(k, c))
  {
    if guard {
      assert Guarded(guard, k)[0] == k;
    }
  }

  /** Five stages run one after the other keep the same contributions, in the same
      order and with the same repetitions, as one pass of the combined condition. */
  lemma {:induction false} FilterIsOnePass(s: seq<Contribution>, f: FilterOptions)
    ensures KeepAll(s, Stages(f)) == OnePass(s, f)
  {
    if s != [] {
      FilterIsOnePass(s[..|s| - 1], f);
      MatchesStages(f, s[|s| - 1]);
    }
  }

  /** The reference filter: keep a contribution iff it meets every set field. */
  ghost function OnePass(s: seq<Contribution>, f: FilterOptions): seq<Contribution> {
    if s == [] then []
    else OnePass(s[..|s| - 1], f) + (if Matches(f, s[|s| - 1]) then [s[|s| - 1]] else [])
  }

  /** The result keeps the input's order: it is a subsequence of the input. */
  lemma {:induction false} FilterSubsequence(s: seq<Contribution>, f: FilterOptions)
    ensures IsSubsequence(OnePass(s, f), s)
  {
    if s != [] {
      var init, last := s[..|s| - 1], s[|s| - 1];
      var kept := OnePass(init, f);
      FilterSubsequence(init, f);
      assert s == init + [last];
      if Matches(f, last) {
        var r := kept + [last];
        assert OnePass(s, f) == r;
        assert r[..|r| - 1] == kept && r[|r| - 1] == last;
      } else {
        assert OnePass(s, f) == kept;
        SubsequenceExtend(kept, init, last);
      }
    }
  }

  /** A contribution is kept iff it is in the input and meets every set field: the
      filter is sound and drops nothing that qualifies. */
  lemma {:induction false} FilterMembers(s: seq<Contribution>, f: FilterOptions, c: Contribution)
    ensures c in OnePass(s, f) <==> c in s && Matches(f, c)
  {
    if s != [] {
      var init, last := s[..|s| - 1], s[|s| - 1];
      FilterMembers(init, f, c);
      assert s == init + [last];
    }
  }

  /** Applying the same filters to the result changes nothing. */
  lemma {:induction false} FilterIdempotent(s: seq<Contribution>, f: FilterOptions)
    ensures OnePass(OnePass(s, f), f) == OnePass(s, f)
  {
    if s != [] {
      var init, last := s[..|s| - 1], s[|s| - 1];
      FilterIdempotent(init, f);
      var r := OnePass(init, f);
      if Matches(f, last) {
        assert OnePass(s, f) == r + [last];
        assert (r + [last])[..|r + [last]| - 1] == r;
        assert (r + [last])[|r + [last]| - 1] == last;
      } else {
        assert OnePass(s, f) == r;
      }
    }
  }

  /** A filter object with nothing set (or only empty lists and an empty query)
      returns the input unchanged. */
  lemma {:induction false} FilterNothingSet(s: seq<Contribution>, f: FilterOptions)
    requires f.users.None? || f.users.value == []
    requires f.types.None? || f.types.value == []
    requires f.startDate.None? && f.endDate.None?
    requires f.search.None? || f.search.value == []
    ensures OnePass(s, f) == s
  {
    if s != [] {
      FilterNothingSet(s[..|s| - 1], f);
    }
  }
}
