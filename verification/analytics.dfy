/** The analytics page (src/pages/Analytics.tsx): contributions per user, folded
    into a Map keyed by user id, then turned into chart rows, sorted by count,
    highest first, and cut to the top ten. */
module Analytics {
  import opened Types
  import opened Sequences
  import opened StableSort
  import opened Aggregation

  /** A Map value: the username first seen for an id and that id's event count. */
  datatype NamedCount = NamedCount(name: string, count: int)

  /** `ContributorData`, one bar of the chart. */
  datatype ContributorData = ContributorData(name: string, contributions: int)

  /** How many rows the chart keeps. */
  const TopCount := 10

  function ContributionsOf(d: ContributorData): int { d.contributions }

  /** The row the chart should show for the user with id `uid`. */
  function ChartRow(cs: seq<Contribution>, uid: string): ContributorData
    requires Appears(cs, uid)
  {
    ContributorData(FirstProfile(cs, uid).username, Tally(cs, uid, Events))
  }

  /** One row per id of `ids`, in that order. */
  function ChartRowsOf(cs: seq<Contribution>, ids: seq<string>): (rows: seq<ContributorData>)
    requires forall id :: id in ids ==> Appears(cs, id)
    ensures |rows| == |ids|
    ensures forall i :: 0 <= i < |ids| ==> rows[i] == ChartRow(cs, ids[i])
  {
    if ids == [] then [] else [ChartRow(cs, ids[0])] + ChartRowsOf(cs, ids[1..])
  }

  /** The rows in the Map's key order: first appearance of each user id. */
  function ChartRows(cs: seq<Contribution>): seq<ContributorData> {
    ChartRowsOf(cs, DistinctIds(cs))
  }

  /** The chart the page computes from `cs`: ten rows, or one per author when there
      are fewer authors, with counts never increasing. */
  function Chart(cs: seq<Contribution>): (chart: seq<ContributorData>)
    ensures |chart| == Min(TopCount, |DistinctIds(cs)|)
    ensures SortedDesc(chart, ContributionsOf)
  {
    var sorted := SortDesc(ChartRows(cs), ContributionsOf);
    SortDescSorted(ChartRows(cs), ContributionsOf);
    SortedTake(sorted, ContributionsOf, Min(TopCount, |sorted|));
    sorted[..Min(TopCount, |sorted|)]
  }

  /** `m` with key order `keys` is the Map after folding `cs`. */
  ghost predicate CountsTallied(m: map<string, NamedCount>, keys: seq<string>, cs: seq<Contribution>) {
    && keys == DistinctIds(cs)
    && forall id :: CountFor(m, keys, cs, id)
  }

  /** The Map agrees with the fold of `cs` at `id`: it has a value for `id` exactly
      when `keys` lists it, and that value is the id's name and count. */
  ghost predicate CountFor(m: map<string, NamedCount>, keys: seq<string>, cs: seq<Contribution>, id: string) {
    && (id in m <==> id in keys)
    && (id in keys ==> Appears(cs, id) && m[id] == CountOf(cs, id))
  }

  /** The Map's keys are exactly the ids its insertion order lists. */
  lemma CountsKeys(m: map<string, NamedCount>, keys: seq<string>, cs: seq<Contribution>)
    requires CountsTallied(m, keys, cs)
    ensures forall id :: id in m <==> id in keys
  {
    forall id ensures id in m <==> id in keys {
      assert CountFor(m, keys, cs, id);
    }
  }

  /** The fold and the `map`/`sort`/`slice` pipeline in `fetchData`. */
  method BuildChartData(contributions: seq<Contribution>) returns (chartData: seq<ContributorData>)
    ensures chartData == Chart(contributions)
  {
    var rows := GroupCounts(contributions);
    var sorted := SortedCopy(rows, ContributionsOf);
    chartData := sorted[..Min(TopCount, |sorted|)];
  }

  /** The fold, then `Array.from(contributorMap.values()).map(...)`. */
  method GroupCounts(contributions: seq<Contribution>) returns (rows: seq<ContributorData>)
    ensures rows == ChartRows(contributions)
  {
    var contributorMap, keys := FoldCounts(contributions);
    CountsKeys(contributorMap, keys, contributions);
    rows := seq(|keys|, k requires 0 <= k < |keys| =>
                  ContributorData(contributorMap[keys[k]].name, contributorMap[keys[k]].count));
    ValuesAreChartRows(contributorMap, keys, contributions, rows);
  }

  /** `contributions.forEach(...)` filling the Map; `keys` is its insertion order. */
  method FoldCounts(contributions: seq<Contribution>)
    returns (contributorMap: map<string, NamedCount>, keys: seq<string>)
    ensures CountsTallied(contributorMap, keys, contributions)
  {
    contributorMap := map[];
    keys := [];
    var i := 0;
    while i < |contributions|
      invariant 0 <= i <= |contributions|
      invariant CountsTallied(contributorMap, keys, contributions[..i])
    {
      PrefixStep(contributions, i);
      contributorMap, keys := CountOne(contributorMap, keys, contributions[..i], contributions[i]);
      i := i + 1;
    }
    assert contributions[..i] == contributions;
  }

  /** The forEach callback: a new id gets `{ name: username, count: 0 }`, then the
      id's count goes up by one. */
  method CountOne(contributorMap: map<string, NamedCount>, keys: seq<string>,
                  ghost seen: seq<Contribution>, contribution: Contribution)
    returns (contributorMap': map<string, NamedCount>, keys': seq<string>)
    requires CountsTallied(contributorMap, keys, seen)
    ensures CountsTallied(contributorMap', keys', seen + [contribution])
  {
    var userId := contribution.user.id;
    var contributor;
    if userId in contributorMap {
      contributor := contributorMap[userId];
      keys' := keys;
      CountsKnown(contributorMap, keys, seen, contribution);
    } else {
      contributor := NamedCount(contribution.user.username, 0);
      keys' := keys + [userId];
      CountsNew(contributorMap, keys, seen, contribution);
    }
    ghost var found := contributor;
    contributor := contributor.(count := contributor.count + 1);
    assert contributor == Bumped(found);
    contributorMap' := contributorMap[userId := contributor];
    assert contributorMap' == contributorMap[userId := Bumped(found)];
  }

  /** `.map(c => ({ name: c.name, contributions: c.count }))` over the Map's values
      gives the chart rows. */
  lemma ValuesAreChartRows(m: map<string, NamedCount>, keys: seq<string>, cs: seq<Contribution>,
                           rows: seq<ContributorData>)
    requires CountsTallied(m, keys, cs)
    requires |rows| == |keys|
    requires forall k :: 0 <= k < |keys| ==> keys[k] in m && rows[k] == ContributorData(m[keys[k]].name, m[keys[k]].count)
    ensures rows == ChartRows(cs)
  {
    forall k | 0 <= k < |keys| ensures rows[k] == ChartRows(cs)[k] {
      assert CountFor(m, keys, cs, keys[k]);
    }
  }

  function Bumped(n: NamedCount): NamedCount {
    n.(count := n.count + 1)
  }

  /** The Map value of the user with id `uid` after folding `cs`. */
  ghost function CountOf(cs: seq<Contribution>, uid: string): NamedCount
    requires Appears(cs, uid)
  {
    NamedCount(FirstProfile(cs, uid).username, Tally(cs, uid, Events))
  }

  /** The callback on an event of a known id keeps the Map equal to the fold of the
      events seen so far, and the key order as it was. */
  lemma CountsKnown(m: map<string, NamedCount>, keys: seq<string>, cs: seq<Contribution>, c: Contribution)
    requires CountsTallied(m, keys, cs)
    requires c.user.id in m
    ensures CountsTallied(m[c.user.id := Bumped(m[c.user.id])], keys, cs + [c])
  {
    DistinctIdsStep(cs, c);
    assert CountFor(m, keys, cs, c.user.id);
    var m', keys', cs' := m[c.user.id := Bumped(m[c.user.id])], keys, cs + [c];
    forall id ensures CountFor(m', keys', cs', id) {
      CountAt(m, keys, cs, c, id);
    }
  }

  /** The callback on a new id's event appends the id to the key order and keeps the
      Map equal to the fold of the events seen so far. */
  lemma CountsNew(m: map<string, NamedCount>, keys: seq<string>, cs: seq<Contribution>, c: Contribution)
    requires CountsTallied(m, keys, cs)
    requires c.user.id !in m
    ensures CountsTallied(m[c.user.id := Bumped(NamedCount(c.user.username, 0))], keys + [c.user.id], cs + [c])
  {
    DistinctIdsStep(cs, c);
    assert CountFor(m, keys, cs, c.user.id);
    var m', keys', cs' := m[c.user.id := Bumped(NamedCount(c.user.username, 0))], keys + [c.user.id], cs + [c];
    forall id ensures CountFor(m', keys', cs', id) {
      CountAt(m, keys, cs, c, id);
    }
  }

  /** The step for one id: the author's count goes up, from 0 for a new id, and
      every other value stays. */
  lemma CountAt(m: map<string, NamedCount>, keys: seq<string>, cs: seq<Contribution>, c: Contribution, id: string)
    requires CountsTallied(m, keys, cs)
    ensures CountFor(m[c.user.id := Bumped(if c.user.id in m then m[c.user.id] else NamedCount(c.user.username, 0))],
                     if c.user.id in m then keys else keys + [c.user.id], cs + [c], id)
  {
    assert CountFor(m, keys, cs, id);
    assert CountFor(m, keys, cs, c.user.id);
    AppearsStep(cs, c, id);
    if id in keys || id == c.user.id {
      CountOfStep(cs, c, id);
      if Appears(cs, id) {
        AppearsListed(cs, id);
      }
    }
  }

  /** One step of the fold: only the author's value changes, and a new author starts
      from this event's username. */
  lemma CountOfStep(cs: seq<Contribution>, c: Contribution, uid: string)
    requires Appears(cs + [c], uid)
    ensures CountOf(cs + [c], uid) ==
            if uid != c.user.id then CountOf(cs, uid)
            else if Appears(cs, uid) then Bumped(CountOf(cs, uid))
            else Bumped(NamedCount(c.user.username, 0))
  {
    FirstProfileStep(cs, c, uid);
    TallyStep(cs, c, uid, Events);
    if !Appears(cs, uid) {
      TallyAbsent(cs, uid, Events);
    }
  }

  // ------------------------------------------------------------------ properties

  /** Counts never increase down the chart, and every kept row has a count at least
      that of every row cut off. */
  lemma ChartTopRows(cs: seq<Contribution>)
    ensures SortedDesc(Chart(cs), ContributionsOf)
    ensures var sorted := SortDesc(ChartRows(cs), ContributionsOf);
            forall i, j :: 0 <= i < |Chart(cs)| <= j < |sorted| ==>
              Chart(cs)[i].contributions >= sorted[j].contributions
  {
    var sorted := SortDesc(ChartRows(cs), ContributionsOf);
    SortDescSorted(ChartRows(cs), ContributionsOf);
    SortedTake(sorted, ContributionsOf, Min(TopCount, |sorted|));
  }

  /** Sorting keeps every user's row, and rows with equal counts stay in order of
      first appearance. */
  lemma ChartOrder(cs: seq<Contribution>, k: int)
    ensures multiset(SortDesc(ChartRows(cs), ContributionsOf)) == multiset(ChartRows(cs))
    ensures WithKey(SortDesc(ChartRows(cs), ContributionsOf), ContributionsOf, k)
         == WithKey(ChartRows(cs), ContributionsOf, k)
  {
    SortDescPermutation(ChartRows(cs), ContributionsOf);
    SortDescStable(ChartRows(cs), ContributionsOf, k);
  }

  /** Each chart row belongs to a user who contributed: it carries the username of
      that id's first event and the number of that id's events. */
  lemma ChartRowsMeaning(cs: seq<Contribution>, r: ContributorData)
    requires r in Chart(cs)
    ensures exists uid :: Appears(cs, uid) && r.name == FirstProfile(cs, uid).username
                          && r.contributions == |ByUser(cs, uid)|
  {
    var rows := ChartRows(cs);
    var sorted := SortDesc(rows, ContributionsOf);
    SortDescPermutation(rows, ContributionsOf);
    assert r in sorted;
    assert r in multiset(rows);
    var i :| 0 <= i < |rows| && rows[i] == r;
    var uid := DistinctIds(cs)[i];
    SumEvents(ByUser(cs, uid));
  }

  lemma {:induction false} ChartRowsColumn(cs: seq<Contribution>, ids: seq<string>)
    requires forall id :: id in ids ==> Appears(cs, id)
    ensures SumBy(ChartRowsOf(cs, ids), ContributionsOf) == TallyOver(cs, ids, Events)
  {
    if ids != [] {
      ChartRowsColumn(cs, ids[1..]);
      assert ChartRowsOf(cs, ids)[1..] == ChartRowsOf(cs, ids[1..]);
    }
  }

  /** Before the cut, the counts add up to the number of contributions. */
  lemma ChartCountsSum(cs: seq<Contribution>)
    ensures SumBy(SortDesc(ChartRows(cs), ContributionsOf), ContributionsOf) == |cs|
  {
    SortDescSum(ChartRows(cs), ContributionsOf, ContributionsOf);
    ChartRowsColumn(cs, DistinctIds(cs));
    AllAuthorsCounted(cs, Events);
    SumEvents(cs);
  }

  /** The page state the fetch updates. */
  class AnalyticsPage {
    var stats: Option<StatsOverview>
    var contributorData: seq<ContributorData>

    constructor ()
      ensures stats == None && contributorData == []
    {
      stats := None;
      contributorData := [];
    }

    /** `fetchData`: the stats request, whose payload is stored as it is, then the
        contributions request, which is not sent when the first one throws. A
        `contributions` field that is present (an empty list too) replaces the chart;
        a missing field or a failed request leaves the chart as it was. */
    method FetchData(statsReply: Reply<StatsOverview>, contributionsReply: Reply<seq<Contribution>>)
      modifies this
      ensures stats == if statsReply.Answered? then statsReply.data else old(stats)
      ensures contributorData == if statsReply.Answered? && contributionsReply.Answered? && contributionsReply.data.Some?
                                 then Chart(contributionsReply.data.value)
                                 else old(contributorData)
    {
      if statsReply.Failed? {
        return;
      }
      stats := statsReply.data;
      if contributionsReply.Answered? && contributionsReply.data.Some? {
        contributorData := BuildChartData(contributionsReply.data.value);
      }
    }
  }
}
