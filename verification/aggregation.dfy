/** The reference meaning of every per-user tally the dashboard computes: the number
    of a user's events, of each type, and the sums of their line counts. The three
    folds (src/hooks/use-repository-data.tsx, src/pages/Team.tsx,
    src/pages/Analytics.tsx) and the roster-based mock leaderboard
    (src/lib/mockData.ts) are each proved equal to these definitions. */
module Aggregation {
  import opened Types
  import opened Sequences
  import opened StableSort

  /** What a single event adds to a tally. */
  datatype Measure = Events | OfType(kind: ContributionType) | Added | Removed

  /** A missing line count counts as 0 (`contribution.linesAdded || 0`). */
  function Weight(m: Measure, c: Contribution): int {
    match m
    case Events => 1
    case OfType(t) => if c.kind == t then 1 else 0
    case Added => c.linesAdded.GetOr(0)
    case Removed => c.linesRemoved.GetOr(0)
  }

  /** Total of a measure over a list of events. */
  function Sum(s: seq<Contribution>, m: Measure): int {
    if s == [] then 0 else Sum(s[..|s| - 1], m) + Weight(m, s[|s| - 1])
  }

  /** `contributions.filter(c => c.user.id === uid)`. */
  function ByUser(cs: seq<Contribution>, uid: string): (r: seq<Contribution>)
    ensures forall c :: c in r ==> c.user.id == uid
    ensures forall c :: c in cs && c.user.id == uid ==> c in r
    ensures IsSubsequence(r, cs)
  {
    if cs == [] then []
    else
      var init := ByUser(cs[..|cs| - 1], uid);
      var c := cs[|cs| - 1];
      assert cs == cs[..|cs| - 1] + [c];
      if c.user.id == uid then init + [c]
      else
        SubsequenceExtend(init, cs[..|cs| - 1], c);
        init
  }

  /** The filter keeps every copy: each event of the user occurs in the result as often
      as in the input, and no other event occurs at all. */
  lemma {:induction false} ByUserCopies(cs: seq<Contribution>, uid: string)
    ensures forall d :: multiset(ByUser(cs, uid))[d] == if d.user.id == uid then multiset(cs)[d] else 0
  {
    if cs != [] {
      var init, c := cs[..|cs| - 1], cs[|cs| - 1];
      ByUserCopies(init, uid);
      assert cs == init + [c];
    }
  }

  /** The tally of measure `m` for the user with id `uid`. */
  function Tally(cs: seq<Contribution>, uid: string, m: Measure): int {
    Sum(ByUser(cs, uid), m)
  }

  /** Some event in `cs` was made by the user with id `uid`. */
  predicate Appears(cs: seq<Contribution>, uid: string) {
    exists c :: c in cs && c.user.id == uid
  }

  /** The distinct user ids of `cs`, in order of first appearance (the key order
      of a JavaScript `Map` filled while walking `cs`). */
  function DistinctIds(cs: seq<Contribution>): (ids: seq<string>)
    ensures Distinct(ids)
    ensures forall id :: id in ids ==> Appears(cs, id)
    ensures forall i :: 0 <= i < |cs| ==> cs[i].user.id in ids
  {
    if cs == [] then []
    else
      var init := DistinctIds(cs[..|cs| - 1]);
      var c := cs[|cs| - 1];
      assert cs == cs[..|cs| - 1] + [c];
      if c.user.id in init then init else init + [c.user.id]
  }

  /** The profile carried by the first event of the user with id `uid`. */
  function FirstProfile(cs: seq<Contribution>, uid: string): (u: User)
    requires Appears(cs, uid)
    ensures u.id == uid
    ensures exists c :: c in cs && c.user == u
  {
    var c :| c in cs && c.user.id == uid;
    var mine := ByUser(cs, uid);
    assert c in mine;
    SubsequenceElements(mine, cs);
    mine[0].user
  }

  function TotalOf(e: LeaderboardEntry): int { e.totalContributions }
  function CommitsOf(e: LeaderboardEntry): int { e.commits }
  function PullRequestsOf(e: LeaderboardEntry): int { e.pullRequests }
  function ReviewsOf(e: LeaderboardEntry): int { e.reviews }
  function LinesAddedOf(e: LeaderboardEntry): int { e.linesAdded }
  function LinesRemovedOf(e: LeaderboardEntry): int { e.linesRemoved }
  function UserIdOf(e: LeaderboardEntry): string { e.user.id }

  /** The leaderboard entry of user `u`: every count and sum over `u`'s events. */
  function Rollup(cs: seq<Contribution>, u: User): LeaderboardEntry {
    LeaderboardEntry(
      u,
      Tally(cs, u.id, Events),
      Tally(cs, u.id, OfType(Commit)),
      Tally(cs, u.id, OfType(PullRequest)),
      Tally(cs, u.id, OfType(Review)),
      Tally(cs, u.id, Added),
      Tally(cs, u.id, Removed))
  }

  /** One entry per id of `ids`, in that order, each carrying the id's first profile. */
  function RollupsOf(cs: seq<Contribution>, ids: seq<string>): (rows: seq<LeaderboardEntry>)
    requires forall id :: id in ids ==> Appears(cs, id)
    ensures |rows| == |ids|
    ensures forall i :: 0 <= i < |ids| ==> rows[i] == Rollup(cs, FirstProfile(cs, ids[i]))
  {
    if ids == [] then [] else [Rollup(cs, FirstProfile(cs, ids[0]))] + RollupsOf(cs, ids[1..])
  }

  /** Sum of the tallies of measure `m` over the ids `ids`. */
  function TallyOver(cs: seq<Contribution>, ids: seq<string>, m: Measure): int {
    if ids == [] then 0 else Tally(cs, ids[0], m) + TallyOver(cs, ids[1..], m)
  }

  // ------------------------------------------------------------------ counting

  /** Counting all events of a list gives its length. */
  lemma {:induction false} SumEvents(s: seq<Contribution>)
    ensures Sum(s, Events) == |s|
  {
    if s != [] {
      SumEvents(s[..|s| - 1]);
    }
  }

  /** A user's tally grows by exactly the new event's weight when the event is theirs,
      and is untouched otherwise: the step each fold performs. */
  lemma TallyStep(cs: seq<Contribution>, c: Contribution, uid: string, m: Measure)
    ensures Tally(cs + [c], uid, m)
         == Tally(cs, uid, m) + (if c.user.id == uid then Weight(m, c) else 0)
  {
    assert (cs + [c])[..|cs|] == cs;
  }

  /** A user without events has every tally at 0. */
  lemma TallyAbsent(cs: seq<Contribution>, uid: string, m: Measure)
    requires !Appears(cs, uid)
    ensures ByUser(cs, uid) == []
    ensures Tally(cs, uid, m) == 0
  {
    var mine := ByUser(cs, uid);
    SubsequenceElements(mine, cs);
    assert forall k :: 0 <= k < |mine| ==> mine[k] in cs;
  }

  /** Every author's id is among the distinct ids. */
  lemma AppearsListed(cs: seq<Contribution>, uid: string)
    requires Appears(cs, uid)
    ensures uid in DistinctIds(cs)
  {
    var c :| c in cs && c.user.id == uid;
    var i :| 0 <= i < |cs| && cs[i] == c;
  }

  /** The authors of `cs + [c]` are those of `cs` and the author of `c`. */
  lemma AppearsStep(cs: seq<Contribution>, c: Contribution, uid: string)
    ensures Appears(cs + [c], uid) <==> Appears(cs, uid) || uid == c.user.id
  {
    if Appears(cs, uid) {
      var d :| d in cs && d.user.id == uid;
      assert d in cs + [c];
    }
    if uid == c.user.id {
      assert c in cs + [c];
    }
  }

  /** A new author's id joins the end of the key order; a known one changes nothing. */
  lemma DistinctIdsStep(cs: seq<Contribution>, c: Contribution)
    ensures DistinctIds(cs + [c]) ==
            if c.user.id in DistinctIds(cs) then DistinctIds(cs) else DistinctIds(cs) + [c.user.id]
  {
    assert (cs + [c])[..|cs|] == cs;
  }

  /** The first profile seen for a user never changes once the user has appeared;
      a new user's first profile is the one on their first event. */
  lemma FirstProfileStep(cs: seq<Contribution>, c: Contribution, uid: string)
    requires Appears(cs + [c], uid)
    ensures Appears(cs, uid) ==> FirstProfile(cs + [c], uid) == FirstProfile(cs, uid)
    ensures !Appears(cs, uid) ==> uid == c.user.id && FirstProfile(cs + [c], uid) == c.user
  {
    assert (cs + [c])[..|cs|] == cs;
    if Appears(cs, uid) {
      var d :| d in cs && d.user.id == uid;
      assert d in ByUser(cs, uid);
    } else {
      TallyAbsent(cs, uid, Events);
      var d :| d in cs + [c] && d.user.id == uid;
      assert d !in cs;
    }
  }

  /** The three type counters never exceed the total, and they add up to it exactly
      when no event has an unknown type; an unknown type raises only the total. */
  lemma {:induction false} TypeCountsSplitTotal(s: seq<Contribution>)
    ensures Sum(s, OfType(Commit)) + Sum(s, OfType(PullRequest)) + Sum(s, OfType(Review)) <= Sum(s, Events)
    ensures Sum(s, OfType(Commit)) + Sum(s, OfType(PullRequest)) + Sum(s, OfType(Review)) == Sum(s, Events)
        <==> forall c :: c in s ==> !c.kind.Other?
  {
    if s != [] {
      var init, c := s[..|s| - 1], s[|s| - 1];
      TypeCountsSplitTotal(init);
      assert s == init + [c];
      if forall c' :: c' in init ==> !c'.kind.Other? {
      } else {
        var d :| d in init && d.kind.Other?;
        assert d in s;
      }
    }
  }

  /** In a user's rollup the three type counters never exceed the total, and add up
      to it exactly when none of the user's events has an unknown type. */
  lemma RollupTypeCounts(cs: seq<Contribution>, u: User)
    ensures var e := Rollup(cs, u);
            e.commits + e.pullRequests + e.reviews <= e.totalContributions &&
            (e.commits + e.pullRequests + e.reviews == e.totalContributions
             <==> forall c :: c in cs && c.user.id == u.id ==> !c.kind.Other?)
  {
    var mine := ByUser(cs, u.id);
    TypeCountsSplitTotal(mine);
    SubsequenceElements(mine, cs);
  }

  // ------------------------------------------------------------------ partitions

  lemma {:induction false} TallyOverEmpty(ids: seq<string>, m: Measure)
    ensures TallyOver([], ids, m) == 0
  {
    if ids != [] {
      TallyOverEmpty(ids[1..], m);
    }
  }

  lemma {:induction false} TallyOverStep(cs: seq<Contribution>, c: Contribution, ids: seq<string>, m: Measure)
    requires Distinct(ids)
    ensures TallyOver(cs + [c], ids, m)
         == TallyOver(cs, ids, m) + (if c.user.id in ids then Weight(m, c) else 0)
  {
    if ids != [] {
      var rest := ids[1..];
      assert Distinct(rest) by {
        forall i, j | 0 <= i < j < |rest| ensures rest[i] != rest[j] {
          assert rest[i] == ids[i + 1] && rest[j] == ids[j + 1];
        }
      }
      TallyOverStep(cs, c, rest, m);
      TallyStep(cs, c, ids[0], m);
      assert ids == [ids[0]] + rest;
      if ids[0] == c.user.id {
        assert c.user.id !in rest by {
          forall k | 0 <= k < |rest| ensures rest[k] != c.user.id {
            assert rest[k] == ids[k + 1];
          }
        }
      }
    }
  }

  /** Splitting the events by user and adding up the per-user tallies gives the
      overall total, provided every author is listed exactly once. */
  lemma {:induction false} PartitionSum(cs: seq<Contribution>, ids: seq<string>, m: Measure)
    requires Distinct(ids)
    requires forall c :: c in cs ==> c.user.id in ids
    ensures TallyOver(cs, ids, m) == Sum(cs, m)
  {
    if cs == [] {
      TallyOverEmpty(ids, m);
    } else {
      var init, c := cs[..|cs| - 1], cs[|cs| - 1];
      assert cs == init + [c];
      PartitionSum(init, ids, m);
      TallyOverStep(init, c, ids, m);
    }
  }

  /** Adding up a leaderboard column over per-id rows is the sum of that id's tallies. */
  lemma {:induction false} RollupsColumn(cs: seq<Contribution>, ids: seq<string>, m: Measure, f: LeaderboardEntry -> int)
    requires forall id :: id in ids ==> Appears(cs, id)
    requires forall u: User :: f(Rollup(cs, u)) == Tally(cs, u.id, m)
    ensures SumBy(RollupsOf(cs, ids), f) == TallyOver(cs, ids, m)
  {
    if ids != [] {
      RollupsColumn(cs, ids[1..], m, f);
      assert RollupsOf(cs, ids)[1..] == RollupsOf(cs, ids[1..]);
    }
  }

  /** Every author is one of the distinct ids, so their tallies add up to the total. */
  lemma AllAuthorsCounted(cs: seq<Contribution>, m: Measure)
    ensures TallyOver(cs, DistinctIds(cs), m) == Sum(cs, m)
  {
    var ids := DistinctIds(cs);
    forall c | c in cs ensures c.user.id in ids {
      assert Appears(cs, c.user.id);
    }
    PartitionSum(cs, ids, m);
  }
}
