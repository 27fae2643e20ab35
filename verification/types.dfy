/** The records the dashboard passes around (src/lib/types.ts). */
module Types {

  datatype Option<+T> = None | Some(value: T) {
    /** The wrapped value, or `default` when absent (JavaScript's `x || default` on a number). */
    function GetOr(default: T): T {
      match this
      case Some(v) => v
      case None => default
    }
  }

  /** How a request ended: it threw (network error, error status), or it answered
      with a payload that may be missing. */
  datatype Reply<+T> = Failed | Answered(data: Option<T>)

  /** The three known kinds of activity. A record decoded from the network is untyped,
      so any other string can arrive as well; `Other` carries it. */
  datatype ContributionType = Commit | PullRequest | Review | Other(name: string)

  /** 'ADMIN' | 'USER' */
  datatype Role = Admin | Member

  /** Two users are the same person iff their `id`s are equal. */
  datatype User = User(id: string, username: string, avatarUrl: string, email: string, role: Role)

  /** One contribution event. Timestamps are instants on an integer time line; the
      line counts may be missing in a record read from the network. */
  datatype Contribution = Contribution(
    id: string,
    user: User,
    kind: ContributionType,
    timestamp: int,
    description: string,
    url: string,
    linesAdded: Option<int>,
    linesRemoved: Option<int>,
    filesChanged: int)

  /** Per-user rollup shown on the leaderboard. */
  datatype LeaderboardEntry = LeaderboardEntry(
    user: User,
    totalContributions: int,
    commits: int,
    pullRequests: int,
    reviews: int,
    linesAdded: int,
    linesRemoved: int)

  /** Repository-wide summary. */
  datatype StatsOverview = StatsOverview(
    totalContributions: int,
    totalCommits: int,
    totalPullRequests: int,
    totalReviews: int,
    totalLinesAdded: int,
    totalLinesRemoved: int,
    activeUsers: int)

  /** The filter object the filter bar emits and the contribution filter consumes;
      an absent field imposes no condition. */
  datatype FilterOptions = FilterOptions(
    startDate: Option<int>,
    endDate: Option<int>,
    users: Option<seq<string>>,
    types: Option<seq<ContributionType>>,
    search: Option<string>)

  /** The filter object with no field set (`{}`). */
  const NoFilters := FilterOptions(None, None, None, None, None)
}
