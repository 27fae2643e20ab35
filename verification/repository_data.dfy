/** The repository-data hook (src/hooks/use-repository-data.tsx): it folds a
    contributions response into one tally record per user id, sorts the records
    by total, highest first, and replaces the leaderboard it holds only when the
    result is non-empty. */
module RepositoryData {
  import opened Types
  import opened Sequences
  import opened StableSort
  import opened Aggregation

  /** The records of the contributor map, in key order: one per distinct user id,
      in order of first appearance. */
  function Contributors(cs: seq<Contribution>): seq<LeaderboardEntry> {
    RollupsOf(cs, DistinctIds(cs))
  }

  /** The leaderboard the hook computes from `cs`: one entry per distinct author,
      totals never increasing. */
  function Leaderboard(cs: seq<Contribution>): (board: seq<LeaderboardEntry>)
    ensures |board| == |DistinctIds(cs)|
    ensures SortedDesc(board, TotalOf)
  {
    SortDescSorted(Contributors(cs), TotalOf);
    SortDesc(Contributors(cs), TotalOf)
  }

  /** The leaderboard built from the contributions response: the fold into the
      contributor map, then `Array.from(contributorMap.values()).sort(...)`. */
  method BuildLeaderboard(contributions: seq<Contribution>) returns (leaderboard: seq<LeaderboardEntry>)
    ensures leaderboard == Leaderboard(contributions)
    ensures leaderboard == [] <==> contributions == []
  {
    var values := GroupContributors(contributions);
    leaderboard := SortedCopy(values, TotalOf);
    LeaderboardSize(contributions);
  }

  /** The fold, then `Array.from(contributorMap.values())`. */
  method GroupContributors(contributions: seq<Contribution>) returns (values: seq<LeaderboardEntry>)
    ensures values == Contributors(contributions)
  {
    var contributorMap, keys := FoldContributors(contributions);
    TalliedKeys(contributorMap, keys, contributions);
    values := seq(|keys|, k requires 0 <= k < |keys| => contributorMap[keys[k]]);
    ValuesAreContributors(contributorMap, keys, contributions, values);
  }

  /** The Map's values, in key order, are the contributor records. */
  lemma ValuesAreContributors(m: map<string, LeaderboardEntry>, keys: seq<string>, cs: seq<Contribution>,
                              values: seq<LeaderboardEntry>)
    requires Tallied(m, keys, cs)
    requires |values| == |keys|
    requires forall k :: 0 <= k < |keys| ==> keys[k] in m && values[k] == m[keys[k]]
    ensures values == Contributors(cs)
  {
    forall k | 0 <= k < |keys| ensures values[k] == Contributors(cs)[k] {
      assert HoldsFor(m, keys, cs, keys[k]);
    }
  }

  /** The map's keys are exactly the ids its insertion order lists. */
  lemma TalliedKeys(m: map<string, LeaderboardEntry>, keys: seq<string>, cs: seq<Contribution>)
    requires Tallied(m, keys, cs)
    ensures forall id :: id in m <==> id in keys
  {
    forall id ensures id in m <==> id in keys {
      assert HoldsFor(m, keys, cs, id);
    }
  }

  /** `contributions.forEach(...)` filling the contributor map; `keys` is the map's
      insertion order, which `values()` follows. */
  method FoldContributors(contributions: seq<Contribution>)
    returns (contributorMap: map<string, LeaderboardEntry>, keys: seq<string>)
    ensures Tallied(contributorMap, keys, contributions)
  {
    contributorMap := map[];
    keys := [];
    var i := 0;
    while i < |contributions|
      invariant 0 <= i <= |contributions|
      invariant Tallied(contributorMap, keys, contributions[..i])
    {
      PrefixStep(contributions, i);
      contributorMap, keys := AddContribution(contributorMap, keys, contributions[..i], contributions[i]);
      i := i + 1;
    }
    assert contributions[..i] == contributions;
  }

  /** The forEach callback: create the author's record from this event's profile if
      the map has none, then count the event into it. `seen` are the events already
      folded. */
  method AddContribution(contributorMap: map<string, LeaderboardEntry>, keys: seq<string>,
                         ghost seen: seq<Contribution>, contribution: Contribution)
    returns (contributorMap': map<string, LeaderboardEntry>, keys': seq<string>)
    requires Tallied(contributorMap, keys, seen)
    ensures Tallied(contributorMap', keys', seen + [contribution])
  {
    var userId := contribution.user.id;
    var record;
    if userId in contributorMap {
      record := contributorMap[userId];
      keys' := keys;
      TalliedKnown(contributorMap, keys, seen, contribution);
    } else {
      record := NewRecord(contribution.user);
      keys' := keys + [userId];
      TalliedNew(contributorMap, keys, seen, contribution);
    }
    var contributor := CountContribution(record, contribution);
    contributorMap' := contributorMap[userId := contributor];
  }

  /** The body of the forEach callback once the record exists: the total goes up,
      then the counter of the event's type (none for an unknown type), then the line
      sums, a missing count adding 0. */
  method CountContribution(record: LeaderboardEntry, contribution: Contribution) returns (contributor: LeaderboardEntry)
    ensures contributor == Counted(record, contribution)
  {
    contributor := record;
    contributor := contributor.(totalContributions := contributor.totalContributions + 1);
    if contribution.kind == Commit {
      contributor := contributor.(commits := contributor.commits + 1);
    } else if contribution.kind == PullRequest {
      contributor := contributor.(pullRequests := contributor.pullRequests + 1);
    } else if contribution.kind == Review {
      contributor := contributor.(reviews := contributor.reviews + 1);
    }
    contributor := contributor.(linesAdded := contributor.linesAdded + contribution.linesAdded.GetOr(0));
    contributor := contributor.(linesRemoved := contributor.linesRemoved + contribution.linesRemoved.GetOr(0));
  }

  /** The record the contributor map holds for the user with id `uid` after folding
      `cs`. */
  ghost function Contributor(cs: seq<Contribution>, uid: string): LeaderboardEntry
    requires Appears(cs, uid)
  {
    Rollup(cs, FirstProfile(cs, uid))
  }

  /** The map agrees with the fold of `cs` at `id`: it has a record for `id` exactly
      when `keys` lists it, and that record is the user's rollup. */
  ghost predicate HoldsFor(m: map<string, LeaderboardEntry>, keys: seq<string>, cs: seq<Contribution>, id: string) {
    && (id in m <==> id in keys)
    && (id in keys ==> Appears(cs, id) && m[id] == Contributor(cs, id))
  }

  /** `m` with insertion order `keys` is the contributor map after folding `cs`. */
  ghost predicate Tallied(m: map<string, LeaderboardEntry>, keys: seq<string>, cs: seq<Contribution>) {
    && keys == DistinctIds(cs)
    && forall id :: HoldsFor(m, keys, cs, id)
  }

  /** The all-zero record a new author starts from. */
  function NewRecord(u: User): (e: LeaderboardEntry)
    ensures e == Rollup([], u)
  {
    LeaderboardEntry(u, 0, 0, 0, 0, 0, 0)
  }

  /** The forEach callback on an event of a known author keeps the contributor map
      equal to the fold of the events seen so far, and the key order as it was. */
  lemma TalliedKnown(m: map<string, LeaderboardEntry>, keys: seq<string>, cs: seq<Contribution>, c: Contribution)
    requires Tallied(m, keys, cs)
    requires c.user.id in m
    ensures Tallied(m[c.user.id := Counted(m[c.user.id], c)], keys, cs + [c])
  {
    DistinctIdsStep(cs, c);
    assert HoldsFor(m, keys, cs, c.user.id);
    var m', keys', cs' := m[c.user.id := Counted(m[c.user.id], c)], keys, cs + [c];
    forall id ensures HoldsFor(m', keys', cs', id) {
      HoldsStep(m, keys, cs, c, id);
    }
  }

  /** The forEach callback on a new author's event appends the id to the key order
      and keeps the contributor map equal to the fold of the events seen so far. */
  lemma TalliedNew(m: map<string, LeaderboardEntry>, keys: seq<string>, cs: seq<Contribution>, c: Contribution)
    requires Tallied(m, keys, cs)
    requires c.user.id !in m
    ensures Tallied(m[c.user.id := Counted(NewRecord(c.user), c)], keys + [c.user.id], cs + [c])
  {
    DistinctIdsStep(cs, c);
    assert HoldsFor(m, keys, cs, c.user.id);
    var m', keys', cs' := m[c.user.id := Counted(NewRecord(c.user), c)], keys + [c.user.id], cs + [c];
    forall id ensures HoldsFor(m', keys', cs', id) {
      HoldsStep(m, keys, cs, c, id);
    }
  }

  /** The step for one id: the author's record counts the event, starting from the
      all-zero record when the author is new; every other record stays. */
  lemma HoldsStep(m: map<string, LeaderboardEntry>, keys: seq<string>, cs: seq<Contribution>,
                  c: Contribution, id: string)
    requires Tallied(m, keys, cs)
    ensures HoldsFor(m[c.user.id := Counted(if c.user.id in m then m[c.user.id] else NewRecord(c.user), c)],
                     if c.user.id in m then keys else keys + [c.user.id], cs + [c], id)
  {
    assert HoldsFor(m, keys, cs, id);
    assert HoldsFor(m, keys, cs, c.user.id);
    AppearsStep(cs, c, id);
    if id in keys || id == c.user.id {
      ContributorStep(cs, c, id);
      if Appears(cs, id) {
        AppearsListed(cs, id);
      }
    }
  }

  /** A contributor record after counting one more of the user's contributions. */
  function Counted(e: LeaderboardEntry, c: Contribution): LeaderboardEntry {
    LeaderboardEntry(
      e.user,
      e.totalContributions + 1,
      e.commits + Weight(OfType(Commit), c),
      e.pullRequests + Weight(OfType(PullRequest), c),
      e.reviews + Weight(OfType(Review), c),
      e.linesAdded + Weight(Added, c),
      e.linesRemoved + Weight(Removed, c))
  }

  /** One step of the fold: the author's record is created from this event's profile
      if missing and then counts the event; every other record stays as it was. */
  lemma ContributorStep(cs: seq<Contribution>, c: Contribution, uid: string)
    requires Appears(cs + [c], uid)
    ensures Contributor(cs + [c], uid) ==
            if uid != c.user.id then Contributor(cs, uid)
            else if Appears(cs, uid) then Counted(Contributor(cs, uid), c)
            else Counted(NewRecord(c.user), c)
  {
    FirstProfileStep(cs, c, uid);
    if !Appears(cs, uid) {
      TallyAbsent(cs, uid, Events);
      TallyAbsent(cs, uid, OfType(Commit));
      TallyAbsent(cs, uid, OfType(PullRequest));
      TallyAbsent(cs, uid, OfType(Review));
      TallyAbsent(cs, uid, Added);
      TallyAbsent(cs, uid, Removed);
    }
    TallyStep(cs, c, uid, Events);
    TallyStep(cs, c, uid, OfType(Commit));
    TallyStep(cs, c, uid, OfType(PullRequest));
    TallyStep(cs, c, uid, OfType(Review));
    TallyStep(cs, c, uid, Added);
    TallyStep(cs, c, uid, Removed);
  }

  // ------------------------------------------------------------------ properties

  /** One entry per user id: no id appears on two entries. */
  lemma LeaderboardOnePerUser(cs: seq<Contribution>)
    ensures DistinctBy(Leaderboard(cs), UserIdOf)
  {
    ContributorsDistinct(cs);
    SortDescDistinctBy(Contributors(cs), TotalOf, UserIdOf);
  }

  lemma ContributorsDistinct(cs: seq<Contribution>)
    ensures DistinctBy(Contributors(cs), UserIdOf)
  {
    var ids := DistinctIds(cs);
    var rows := Contributors(cs);
    forall i, j | 0 <= i < j < |rows| ensures UserIdOf(rows[i]) != UserIdOf(rows[j]) {
      assert UserIdOf(rows[i]) == ids[i] && UserIdOf(rows[j]) == ids[j];
    }
  }

  /** An id has an entry exactly when some contribution carries it. */
  lemma LeaderboardUsers(cs: seq<Contribution>, id: string)
    ensures Appears(cs, id) <==> exists e :: e in Leaderboard(cs) && e.user.id == id
  {
    if Appears(cs, id) {
      EveryAuthorListed(cs, id);
    } else {
      LeaderboardEntries(cs);
    }
  }

  lemma EveryAuthorListed(cs: seq<Contribution>, id: string)
    requires Appears(cs, id)
    ensures exists e :: e in Leaderboard(cs) && e.user.id == id
  {
    var ids := DistinctIds(cs);
    var rows := Contributors(cs);
    var k :| 0 <= k < |ids| && ids[k] == id;
    assert rows[k].user.id == id;
    SortDescPermutation(rows, TotalOf);
    assert rows[k] in multiset(Leaderboard(cs));
  }

  /** There are as many entries as distinct user ids, so the leaderboard is empty
      exactly when there are no contributions. */
  lemma LeaderboardSize(cs: seq<Contribution>)
    ensures |Leaderboard(cs)| == |DistinctIds(cs)|
    ensures |Leaderboard(cs)| == 0 <==> cs == []
  {
    if cs != [] {
      assert cs[0].user.id in DistinctIds(cs);
    }
  }

  /** Each entry is its user's rollup: `user` is the profile of that id's first event,
      `totalContributions` the number of that id's events, each type counter the
      number of its events of that type, and the line fields the sums of its values
      with a missing value read as 0. */
  lemma LeaderboardEntries(cs: seq<Contribution>)
    ensures forall e :: e in Leaderboard(cs) ==>
              Appears(cs, e.user.id) &&
              e == Rollup(cs, FirstProfile(cs, e.user.id)) &&
              e.totalContributions == |ByUser(cs, e.user.id)|
  {
    var rows := Contributors(cs);
    SortDescPermutation(rows, TotalOf);
    forall e | e in Leaderboard(cs)
      ensures Appears(cs, e.user.id)
      ensures e == Rollup(cs, FirstProfile(cs, e.user.id))
      ensures e.totalContributions == |ByUser(cs, e.user.id)|
    {
      assert e in multiset(rows);
      var i :| 0 <= i < |rows| && rows[i] == e;
      ContributorAt(cs, i);
    }
  }

  /** The `i`-th record of the Map is the rollup of the `i`-th distinct id. */
  lemma ContributorAt(cs: seq<Contribution>, i: int)
    requires 0 <= i < |Contributors(cs)|
    ensures var e := Contributors(cs)[i];
            Appears(cs, e.user.id) &&
            e == Rollup(cs, FirstProfile(cs, e.user.id)) &&
            e.totalContributions == |ByUser(cs, e.user.id)|
  {
    var id := DistinctIds(cs)[i];
    assert Contributors(cs)[i] == Rollup(cs, FirstProfile(cs, id));
    SumEvents(ByUser(cs, id));
  }

  /** Totals never increase down the leaderboard, it is a permutation of the
      contributor records, and records with equal totals keep the Map's
      first-appearance order. */
  lemma LeaderboardOrder(cs: seq<Contribution>)
    ensures SortedDesc(Leaderboard(cs), TotalOf)
    ensures multiset(Leaderboard(cs)) == multiset(Contributors(cs))
    ensures forall k :: WithKey(Leaderboard(cs), TotalOf, k) == WithKey(Contributors(cs), TotalOf, k)
  {
    SortDescSorted(Contributors(cs), TotalOf);
    SortDescPermutation(Contributors(cs), TotalOf);
    forall k ensures WithKey(Leaderboard(cs), TotalOf, k) == WithKey(Contributors(cs), TotalOf, k) {
      SortDescStable(Contributors(cs), TotalOf, k);
    }
  }

  /** The entries' totals add up to the number of contributions; each type column
      adds up to the number of contributions of that type and each line column to
      the sum over all contributions. */
  lemma LeaderboardColumnSums(cs: seq<Contribution>)
    ensures SumBy(Leaderboard(cs), TotalOf) == |cs|
    ensures SumBy(Leaderboard(cs), CommitsOf) == Sum(cs, OfType(Commit))
    ensures SumBy(Leaderboard(cs), PullRequestsOf) == Sum(cs, OfType(PullRequest))
    ensures SumBy(Leaderboard(cs), ReviewsOf) == Sum(cs, OfType(Review))
    ensures SumBy(Leaderboard(cs), LinesAddedOf) == Sum(cs, Added)
    ensures SumBy(Leaderboard(cs), LinesRemovedOf) == Sum(cs, Removed)
  {
    ColumnSum(cs, Events, TotalOf);
    SumEvents(cs);
    ColumnSum(cs, OfType(Commit), CommitsOf);
    ColumnSum(cs, OfType(PullRequest), PullRequestsOf);
    ColumnSum(cs, OfType(Review), ReviewsOf);
    ColumnSum(cs, Added, LinesAddedOf);
    ColumnSum(cs, Removed, LinesRemovedOf);
  }

  lemma ColumnSum(cs: seq<Contribution>, m: Measure, f: LeaderboardEntry -> int)
    requires forall u: User :: f(Rollup(cs, u)) == Tally(cs, u.id, m)
    ensures SumBy(Leaderboard(cs), f) == Sum(cs, m)
  {
    SortDescSum(Contributors(cs), TotalOf, f);
    ContributorsColumn(cs, m, f);
  }

  lemma ContributorsColumn(cs: seq<Contribution>, m: Measure, f: LeaderboardEntry -> int)
    requires forall u: User :: f(Rollup(cs, u)) == Tally(cs, u.id, m)
    ensures SumBy(Contributors(cs), f) == Sum(cs, m)
  {
    RollupsColumn(cs, DistinctIds(cs), m, f);
    AllAuthorsCounted(cs, m);
  }

  /** Within an entry the three type counters add up to the total exactly when
      none of that user's contributions has an unknown type. */
  lemma EntryTypeCounts(cs: seq<Contribution>, e: LeaderboardEntry)
    requires e in Leaderboard(cs)
    ensures e.commits + e.pullRequests + e.reviews <= e.totalContributions
    ensures e.commits + e.pullRequests + e.reviews == e.totalContributions
        <==> forall c :: c in cs && c.user.id == e.user.id ==> !c.kind.Other?
  {
    LeaderboardEntries(cs);
    RollupTypeCounts(cs, FirstProfile(cs, e.user.id));
  }

  /** The state the hook holds. `mockStats` is both the initial stats and the stats
      shown after a failed fetch. */
  class RepositoryDataHook {
    const mockStats: StatsOverview
    var contributions: seq<Contribution>
    var stats: StatsOverview
    var leaderboardData: seq<LeaderboardEntry>

    /** The hook starts from the mock stats and leaderboard: `mockStats` stands for
        `MockData.MockStats` and `mockLeaderboard` for `MockData.MockLeaderboard`, each
        taken over the mock roster and contribution list. */
    constructor (mockStats: StatsOverview, mockLeaderboard: seq<LeaderboardEntry>)
      ensures this.mockStats == mockStats
      ensures contributions == [] && stats == mockStats && leaderboardData == mockLeaderboard
    {
      this.mockStats := mockStats;
      contributions := [];
      stats := mockStats;
      leaderboardData := mockLeaderboard;
    }

    /** `fetchRepositoryData`: the contributions request, then the stats request, which
        is not sent when the first one throws. A `contributions` field that is present
        is stored (an empty list too) and replaces the leaderboard unless the one built
        from it is empty; present stats are stored as they are; and when either request
        throws the stats fall back to the mock stats. */
    method FetchRepositoryData(contributionsReply: Reply<seq<Contribution>>, statsReply: Reply<StatsOverview>)
      modifies this
      ensures contributions == if contributionsReply.Answered? && contributionsReply.data.Some?
                               then contributionsReply.data.value else old(contributions)
      ensures leaderboardData == if contributionsReply.Answered? && contributionsReply.data.Some?
                                    && contributionsReply.data.value != []
                                 then Leaderboard(contributionsReply.data.value)
                                 else old(leaderboardData)
      ensures stats == if contributionsReply.Failed? || statsReply.Failed? then mockStats
                       else if statsReply.data.Some? then statsReply.data.value
                       else old(stats)
    {
      if contributionsReply.Failed? {
        stats := mockStats;
        return;
      }
      if contributionsReply.data.Some? {
        ReceiveContributions(contributionsReply.data.value);
      }
      if statsReply.Failed? {
        stats := mockStats;
      } else if statsReply.data.Some? {
        stats := statsReply.data.value;
      }
    }

    /** The contributions half of the fetch: the list is stored, and the leaderboard
        is replaced by the one built from it unless that one is empty. */
    method ReceiveContributions(fetched: seq<Contribution>)
      modifies this
      ensures contributions == fetched && stats == old(stats)
      ensures leaderboardData == if fetched != [] then Leaderboard(fetched) else old(leaderboardData)
    {
      var leaderboard := BuildLeaderboard(fetched);
      contributions := fetched;
      if leaderboard != [] {
        leaderboardData := leaderboard;
      }
    }
  }
}
