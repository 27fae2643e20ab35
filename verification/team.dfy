/** The team page (src/pages/Team.tsx): per-user counts of commits, pull requests
    and reviews, folded from the contributions response into a Map keyed by user id,
    and the lookup the member table uses. */
module Team {
  import opened Types
  import opened Aggregation

  /** `ContributorStats`: a user id and that user's three type counters. */
  datatype ContributorStats = ContributorStats(id: string, commits: int, pullRequests: int, reviews: int)

  /** The record the page should show for the user with id `uid`. */
  function TypeStats(cs: seq<Contribution>, uid: string): ContributorStats {
    ContributorStats(uid, Tally(cs, uid, OfType(Commit)), Tally(cs, uid, OfType(PullRequest)),
                     Tally(cs, uid, OfType(Review)))
  }

  /** `stats` is the Map after folding `cs`: a key for exactly the authors of `cs`,
      each holding that author's type counts under their own id. */
  ghost predicate StatsTallied(stats: map<string, ContributorStats>, cs: seq<Contribution>) {
    && (forall id :: id in stats <==> Appears(cs, id))
    && (forall id :: id in stats ==> stats[id] == TypeStats(cs, id))
  }

  /** The fold in `fetchContributors`. `contributions` is `None` when the response
      field is not an array, which leaves the Map empty. */
  method ContributorStatsMap(contributions: Option<seq<Contribution>>)
    returns (stats: map<string, ContributorStats>)
    ensures contributions.None? ==> stats == map[]
    ensures contributions.Some? ==> forall id :: id in stats <==> Appears(contributions.value, id)
    ensures contributions.Some? ==> forall id :: id in stats ==>
              stats[id].id == id && stats[id] == TypeStats(contributions.value, id)
  {
    stats := map[];
    if contributions.Some? {
      var cs := contributions.value;
      var i := 0;
      while i < |cs|
        invariant 0 <= i <= |cs|
        invariant StatsTallied(stats, cs[..i])
      {
        assert cs[..i + 1] == cs[..i] + [cs[i]];
        stats := CountTypes(stats, cs[..i], cs[i]);
        i := i + 1;
      }
      assert cs[..i] == cs;
    }
  }

  /** The forEach callback: create the author's all-zero record if missing, then raise
      the counter of the event's type. */
  method CountTypes(stats: map<string, ContributorStats>, ghost seen: seq<Contribution>, contribution: Contribution)
    returns (stats': map<string, ContributorStats>)
    requires StatsTallied(stats, seen)
    ensures StatsTallied(stats', seen + [contribution])
  {
    var userId := contribution.user.id;
    var userStats;
    if userId in stats {
      userStats := stats[userId];
    } else {
      userStats := ContributorStats(userId, 0, 0, 0);
    }
    userStats := RaiseTypeCounter(userStats, contribution.kind);
    stats' := stats[userId := userStats];
    StatsStep(stats, seen, contribution);
  }

  /** The `if`/`else if` chain on the type: exactly the matching counter goes up by
      one, and an unknown type raises none. */
  method RaiseTypeCounter(userStats: ContributorStats, kind: ContributionType) returns (r: ContributorStats)
    ensures r == Raised(userStats, kind)
  {
    r := userStats;
    if kind == Commit {
      r := r.(commits := r.commits + 1);
    } else if kind == PullRequest {
      r := r.(pullRequests := r.pullRequests + 1);
    } else if kind == Review {
      r := r.(reviews := r.reviews + 1);
    }
  }

  function Raised(s: ContributorStats, kind: ContributionType): ContributorStats {
    ContributorStats(s.id, s.commits + (if kind == Commit then 1 else 0),
                     s.pullRequests + (if kind == PullRequest then 1 else 0),
                     s.reviews + (if kind == Review then 1 else 0))
  }

  /** The record the callback raises: the stored one, or the all-zero one. */
  function StoredOrZero(m: map<string, ContributorStats>, uid: string): ContributorStats {
    if uid in m then m[uid] else ContributorStats(uid, 0, 0, 0)
  }

  /** The forEach callback keeps the Map equal to the fold of the events seen so far. */
  lemma StatsStep(m: map<string, ContributorStats>, cs: seq<Contribution>, c: Contribution)
    requires StatsTallied(m, cs)
    ensures StatsTallied(m[c.user.id := Raised(StoredOrZero(m, c.user.id), c.kind)], cs + [c])
  {
    forall id
      ensures id in m[c.user.id := Raised(StoredOrZero(m, c.user.id), c.kind)] <==> Appears(cs + [c], id)
      ensures id in m[c.user.id := Raised(StoredOrZero(m, c.user.id), c.kind)] ==>
                m[c.user.id := Raised(StoredOrZero(m, c.user.id), c.kind)][id] == TypeStats(cs + [c], id)
    {
      StatsAt(m, cs, c, id);
    }
  }

  /** The step for one id: the author's record is raised, every other record stays. */
  lemma StatsAt(m: map<string, ContributorStats>, cs: seq<Contribution>, c: Contribution, id: string)
    requires StatsTallied(m, cs)
    ensures id in m[c.user.id := Raised(StoredOrZero(m, c.user.id), c.kind)] <==> Appears(cs + [c], id)
    ensures id in m[c.user.id := Raised(StoredOrZero(m, c.user.id), c.kind)] ==>
              m[c.user.id := Raised(StoredOrZero(m, c.user.id), c.kind)][id] == TypeStats(cs + [c], id)
  {
    AppearsStep(cs, c, id);
    TypeStatsStep(cs, c, id);
  }

  /** The counts of the event's own type go up by one for its author; nothing else
      changes. A user's first event starts from the all-zero record. */
  lemma TypeStatsStep(cs: seq<Contribution>, c: Contribution, uid: string)
    ensures TypeStats(cs + [c], uid) ==
            if uid != c.user.id then TypeStats(cs, uid) else Raised(TypeStats(cs, uid), c.kind)
    ensures !Appears(cs, uid) ==> TypeStats(cs, uid) == ContributorStats(uid, 0, 0, 0)
  {
    TallyStep(cs, c, uid, OfType(Commit));
    TallyStep(cs, c, uid, OfType(PullRequest));
    TallyStep(cs, c, uid, OfType(Review));
    if !Appears(cs, uid) {
      TallyAbsent(cs, uid, OfType(Commit));
      TallyAbsent(cs, uid, OfType(PullRequest));
      TallyAbsent(cs, uid, OfType(Review));
    }
  }

  /** An event of an unknown type gives its author a record (all zeros if it is their
      first event) but raises no counter. */
  lemma UnknownTypeCountsNothing(cs: seq<Contribution>, c: Contribution)
    requires c.kind.Other?
    ensures Appears(cs + [c], c.user.id)
    ensures TypeStats(cs + [c], c.user.id) == TypeStats(cs, c.user.id)
    ensures !Appears(cs, c.user.id) ==> TypeStats(cs + [c], c.user.id) == ContributorStats(c.user.id, 0, 0, 0)
  {
    assert c in cs + [c];
    TypeStatsStep(cs, c, c.user.id);
  }

  /** `getContributorStats`: the stored record, or an all-zero record under the
      requested id. */
  function GetContributorStats(stats: map<string, ContributorStats>, contributorId: string): (r: ContributorStats)
    ensures (forall id :: id in stats ==> stats[id].id == id) ==> r.id == contributorId
    ensures contributorId !in stats ==> r.commits == r.pullRequests == r.reviews == 0
  {
    if contributorId in stats then stats[contributorId] else ContributorStats(contributorId, 0, 0, 0)
  }

  /** On the Map the fold builds, the lookup gives every id its type counts (zero for
      a user without contributions), always under the requested id. */
  lemma LookupIsTypeStats(stats: map<string, ContributorStats>, cs: seq<Contribution>, contributorId: string)
    requires forall id :: id in stats <==> Appears(cs, id)
    requires forall id :: id in stats ==> stats[id] == TypeStats(cs, id)
    ensures GetContributorStats(stats, contributorId) == TypeStats(cs, contributorId)
    ensures GetContributorStats(stats, contributorId).id == contributorId
  {
    if contributorId !in stats {
      TallyAbsent(cs, contributorId, OfType(Commit));
      TallyAbsent(cs, contributorId, OfType(PullRequest));
      TallyAbsent(cs, contributorId, OfType(Review));
    }
  }

  /** The page state `fetchContributors` updates. */
  class TeamPage {
    var contributors: Option<seq<User>>
    var contributorStats: map<string, ContributorStats>

    constructor ()
      ensures contributors == Some([]) && contributorStats == map[]
    {
      contributors := Some([]);
      contributorStats := map[];
    }

    /** `fetchContributors`: the contributors request, whose payload is stored as it
        is, then the contributions request, which is not sent when the first one
        throws. The Map is replaced only when both answer: empty when the
        contributions are not an array, the fold of them otherwise. */
    method FetchContributors(contributorsReply: Reply<seq<User>>, contributionsReply: Reply<seq<Contribution>>)
      modifies this
      ensures contributors == if contributorsReply.Answered? then contributorsReply.data else old(contributors)
      ensures contributorsReply.Failed? || contributionsReply.Failed? ==> contributorStats == old(contributorStats)
      ensures contributorsReply.Answered? && contributionsReply.Answered? && contributionsReply.data.None?
              ==> contributorStats == map[]
      ensures contributorsReply.Answered? && contributionsReply.Answered? && contributionsReply.data.Some?
              ==> StatsTallied(contributorStats, contributionsReply.data.value)
    {
      if contributorsReply.Failed? {
        return;
      }
      contributors := contributorsReply.data;
      if contributionsReply.Failed? {
        return;
      }
      contributorStats := ContributorStatsMap(contributionsReply.data);
    }
  }
}
