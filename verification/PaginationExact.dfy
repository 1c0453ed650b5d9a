/**
 How a provider cuts ties never matters: the next window and limit, and the page-budget error, are
 fixed by the games alone.
 */
module PaginationExact {
  import opened Common
  import opened Ranges
  import opened Pagination
  import opened PaginationProgress

  /** The games of the window created after t, and those created at t or after. */
  function Newer(games: set<Game>, p: Cursor, t: int): set<Game> {
    set g | g in games && p.Window().Contains(g.created) && g.created > t
  }

  function From(games: set<Game>, p: Cursor, t: int): set<Game> {
    set g | g in games && p.Window().Contains(g.created) && g.created >= t
  }

  /** The millisecond in which the newest `limit` games of the window end. */
  predicate Boundary(games: set<Game>, p: Cursor, t: int) {
    |Newer(games, p, t)| < p.limit <= |From(games, p, t)|
  }

  lemma BoundaryIsUnique(games: set<Game>, p: Cursor, t: int, u: int)
    requires Boundary(games, p, t) && Boundary(games, p, u)
    ensures t == u
  {
    if t < u { SubsetSize(From(games, p, u), Newer(games, p, t)); }
    if u < t { SubsetSize(From(games, p, t), Newer(games, p, u)); }
  }

  /** A full page ends in the boundary millisecond and holds, besides all newer games, just enough of it. */
  lemma FullPageEndsAtBoundary(games: set<Game>, p: Cursor, page: seq<Game>)
    requires Answers(games, p, page) && |page| == p.limit > 0
    ensures Boundary(games, p, Oldest(page))
    ensures |TiedAt(page, Oldest(page))| == p.limit - |Newer(games, p, Oldest(page))|
  {
    var t := Oldest(page);
    PageCount(page);
    TiedCount(page, t);
    PageSplits(games, p, page);
    PageIsNewest(games, p, page);
    assert page[p.limit - 1] in GamesTiedAt(page, t);
    hide Answers, Newer, From, Games, GamesTiedAt, TiedAt;
    SubsetSize(Games(page), From(games, p, t));
  }

  lemma PageIsNewest(games: set<Game>, p: Cursor, page: seq<Game>)
    requires Answers(games, p, page) && page != []
    ensures Games(page) <= From(games, p, Oldest(page))
  {
    forall g | g in Games(page) ensures g in From(games, p, Oldest(page)) {
      var i: nat :| i < |page| && page[i] == g;
      assert page[i].created >= page[|page| - 1].created;
    }
  }

  lemma PageSplits(games: set<Game>, p: Cursor, page: seq<Game>)
    requires Answers(games, p, page) && |page| == p.limit > 0
    ensures var newer, tied := Newer(games, p, Oldest(page)), GamesTiedAt(page, Oldest(page));
            Games(page) == newer + tied && newer !! tied
  {
    var t := Oldest(page);
    forall g | g in Newer(games, p, t) ensures g in Games(page) {
      assert g in page;
    }
    forall g | g in Games(page) ensures g in Newer(games, p, t) + GamesTiedAt(page, t) {
      var i: nat :| i < |page| && page[i] == g;
      assert page[i].created >= page[|page| - 1].created;
    }
  }

  /** A page short of its limit means that the window has no boundary. */
  lemma ShortPageHasNoBoundary(games: set<Game>, p: Cursor, page: seq<Game>, t: int)
    requires Answers(games, p, page) && |page| < p.limit
    ensures !Boundary(games, p, t)
  {
    PageCount(page);
    forall g | g in From(games, p, t) ensures g in Games(page) {
      assert g in page;
    }
    SubsetSize(From(games, p, t), Games(page));
  }

  /** The limit of the next page when this one ends in millisecond t. */
  function LimitAfter(games: set<Game>, req: Request, p: Cursor, t: int): int {
    var overlap := req.pageSize + p.limit - |Newer(games, p, t)|;
    if t + 1 >= p.until then Max(overlap, p.limit * 2) else overlap
  }

  /** The exact condition of the page-budget error, in terms of the provider's games. */
  ghost predicate Exceeds(games: set<Game>, req: Request, p: Cursor) {
    exists t :: Boundary(games, p, t) && LimitAfter(games, req, p, t) > req.maxPageSize
  }

  lemma NextLimitIsFixed(games: set<Game>, req: Request, p: Cursor, page: seq<Game>)
    requires Answers(games, p, page) && |page| == p.limit > 0
    ensures NextLimit(req, p, page) == LimitAfter(games, req, p, Oldest(page))
  {
    FullPageEndsAtBoundary(games, p, page);
  }

  /** Whatever the honest answer, the job cannot go on if and only if the boundary needs more than the page budget. */
  lemma OverBudgetExact(games: set<Game>, req: Request, p: Cursor, page: seq<Game>)
    requires Answers(games, p, page) && p.limit > 0
    ensures Advance(req, p, page).None? <==> Exceeds(games, req, p)
  {
    hide Answers;
    if RangeDone(p, page) {
      forall t ensures !Boundary(games, p, t) { ShortPageHasNoBoundary(games, p, page, t); }
    } else {
      PageIsFull(games, p, page);
      FullPageEndsAtBoundary(games, p, page);
      NextLimitIsFixed(games, req, p, page);
      forall t | Boundary(games, p, t) ensures t == Oldest(page) { BoundaryIsUnique(games, p, t, Oldest(page)); }
    }
  }

  lemma PageIsFull(games: set<Game>, p: Cursor, page: seq<Game>)
    requires Answers(games, p, page) && !RangeDone(p, page)
    ensures |page| == p.limit
  {
  }

  /** Two honest answers to one request lead to the same next cursor and prove the same range. */
  lemma TiesDoNotMatter(games: set<Game>, req: Request, p: Cursor, page: seq<Game>, other: seq<Game>)
    requires Answers(games, p, page) && Answers(games, p, other) && p.limit > 0
    ensures RangeDone(p, page) <==> RangeDone(p, other)
    ensures ProvenBy(p, page) == ProvenBy(p, other) && Advance(req, p, page) == Advance(req, p, other)
  {
    hide Answers;
    SameFullness(games, p, page, other);
    SameFullness(games, p, other, page);
    if !RangeDone(p, page) {
      PageIsFull(games, p, page);
      PageIsFull(games, p, other);
      FullPageEndsAtBoundary(games, p, page);
      FullPageEndsAtBoundary(games, p, other);
      BoundaryIsUnique(games, p, Oldest(page), Oldest(other));
      NextLimitIsFixed(games, req, p, page);
      NextLimitIsFixed(games, req, p, other);
    }
  }

  lemma SameFullness(games: set<Game>, p: Cursor, page: seq<Game>, other: seq<Game>)
    requires Answers(games, p, page) && Answers(games, p, other) && p.limit > 0
    ensures RangeDone(p, page) ==> RangeDone(p, other)
  {
    hide Answers;
    if RangeDone(p, page) && !RangeDone(p, other) {
      PageIsFull(games, p, other);
      FullPageEndsAtBoundary(games, p, other);
      ShortPageHasNoBoundary(games, p, page, Oldest(other));
    }
  }

  /** A turn of a working job is over budget exactly when the boundary of its planned window is. */
  lemma TurnOverBudgetExact(games: set<Game>, req: Request, store: Store, cursor: Cursor, page: seq<Game>)
    requires req.Valid() && Working(games, req, store, cursor) && forall g :: g in games ==> g.created >= 0
    requires !Plan(req, store, cursor).Finished() && Answers(games, Plan(req, store, cursor), page)
    ensures TakeTurn(req, store, cursor, page).outcome == OverBudget <==> Exceeds(games, req, Plan(req, store, cursor))
  {
    hide Exceeds, Missing, Sound;
    var p := Plan(req, store, cursor);
    assert PageFits(p, page);
    OverBudgetExact(games, req, p, page);
  }
}
