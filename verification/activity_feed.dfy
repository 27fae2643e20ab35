/** The activity feed (src/components/dashboard/ActivityFeed.tsx): it shows the
    first `visibleCount` contributions, ten more after each "Load More". */
module ActivityFeed {
  import opened Types
  import opened Sequences

  /** The page size: the initial count and the step of "Load More". */
  const PageSize := 10

  /** `contributions.slice(0, count)` for a non-negative count. */
  function FirstN(cs: seq<Contribution>, count: nat): (shown: seq<Contribution>)
    ensures |shown| == Min(count, |cs|)
    ensures shown == cs[..|shown|]
  {
    if count <= |cs| then cs[..count] else cs
  }

  /** Showing more never changes what was already shown: a smaller count gives a
      prefix of what a larger count gives. */
  lemma FirstNGrows(cs: seq<Contribution>, count: nat, more: nat)
    requires count <= more
    ensures FirstN(cs, count) == FirstN(cs, more)[..|FirstN(cs, count)|]
    ensures |FirstN(cs, more)| - |FirstN(cs, count)| <= more - count
  {
  }

  class Feed {
    var visibleCount: int

    /** The count is a positive multiple of the page size. */
    predicate Valid()
      reads this
    {
      visibleCount >= PageSize && visibleCount % PageSize == 0
    }

    constructor ()
      ensures Valid() && visibleCount == PageSize
    {
      visibleCount := PageSize;
    }

    /** `loadMore`. */
    method LoadMore()
      requires Valid()
      modifies this
      ensures Valid() && visibleCount == old(visibleCount) + PageSize
    {
      visibleCount := visibleCount + PageSize;
    }

    /** `visibleContributions`. */
    function Visible(contributions: seq<Contribution>): (shown: seq<Contribution>)
      requires Valid()
      reads this
      ensures |shown| == Min(visibleCount, |contributions|)
      ensures shown == contributions[..|shown|]
    {
      FirstN(contributions, visibleCount)
    }

    /** The "Load More" button is shown iff some contribution is still hidden. */
    function ShowsLoadMore(contributions: seq<Contribution>): (shown: bool)
      requires Valid()
      reads this
      ensures shown <==> |Visible(contributions)| < |contributions|
    {
      visibleCount < |contributions|
    }

    /** The "No contributions found" state is shown iff nothing is visible, which,
        the count being at least ten, is iff there are no contributions. */
    function ShowsEmptyState(contributions: seq<Contribution>): (empty: bool)
      requires Valid()
      reads this
      ensures empty <==> contributions == []
    {
      !(|Visible(contributions)| > 0)
    }
  }
}
