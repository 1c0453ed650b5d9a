/**
 A lone collection job makes real progress: page after page it shrinks what is missing, or raises its
 limit over a crowded millisecond, until it is done or reports that its page budget is too small.
 */
module PaginationProgress {
  import opened Common
  import opened Ranges
  import opened Pagination
  import opened PaginationRuns

  datatype Outcome = Complete | More | Invalid | OverBudget

  datatype Turn = Turn(store: Store, cursor: Cursor, outcome: Outcome)

  /** What one received page does to the tables and the checkpoint. */
  ghost function UsePage(req: Request, store: Store, cursor: Cursor, p: Cursor, page: seq<Game>): Turn {
    var kept := Keep(store, page);
    if !PageFits(p, page) || (page == [] && !RangeDone(p, page)) then Turn(kept, cursor, Invalid)
    else
      var recorded := RecordRange(kept, p, page);
      var next := Advance(req, p, page);
      if next.None? then Turn(recorded, cursor, OverBudget)
      else
        var done := IsDone(req, recorded, p, page);
        Turn(RecordWindows(RaiseHistory(recorded), req, p.Window(), RangeDone(p, page), done),
             next.value.(done := done), if done then Complete else More)
  }

  /** One call of the job in its page phase, given the provider's answer for the planned window. */
  ghost function TakeTurn(req: Request, store: Store, cursor: Cursor, page: seq<Game>): Turn {
    var p := Plan(req, store, cursor);
    if p.Finished() then
      Turn(RaiseHistory(RecordWindows(store, req, req.Window(), false, true)), p.(done := true), Complete)
    else UsePage(req, store, cursor, p, page)
  }

  /*
   * What a turn asks for and what it writes, field by field.
   */

  /** Millisecond m is requested and no row proves it. */
  ghost predicate Gap(req: Request, store: Store, m: int) {
    (req.since.Some? ==> req.since.value <= m) && m < req.upper && !In(store.Proven(), m)
  }

  /** A job that fills gaps asks for the newest maximal unproven stretch of its window. */
  lemma PlanIsNewestGap(req: Request, store: Store, cursor: Cursor)
    requires !req.backfill
    ensures var p := Plan(req, store, cursor);
            && (p.Finished() <==> forall m :: !Gap(req, store, m))
            && (p.Finished() ==> p.until == req.upper)
            && (!p.Finished() ==> Gap(req, store, p.until - 1) && forall m :: Gap(req, store, m) ==> m < p.until)
            && (forall m :: p.Window().Contains(m) ==> Gap(req, store, m))
            && (!p.Finished() && p.since.Some? ==> !Gap(req, store, p.since.value - 1))
            && (!p.Finished() && p.since.None? ==> req.since.None?)
            && p.done == cursor.done
            && p.limit == if p.since == cursor.since && p.until == cursor.until then cursor.limit else req.pageSize
  {
    var fs := Missing(store.Proven(), req.Window());
    MissingMeaning(store.Proven(), req.Window());
    hide Missing;
    assert forall m :: In(fs, m) <==> Gap(req, store, m);
    if fs != [] {
      FirstFragment(fs);
      assert fs[0].Nonempty();
      assert In(fs, fs[0].until - 1);
      if req.since.Some? && fs[0].since.None? {
        OpenFragment(fs, req.since.value);
      }
    }
  }

  lemma OpenFragment(fs: seq<Range>, low: int)
    requires fs != [] && fs[0].since.None?
    ensures exists m :: In(fs, m) && m < low
  {
    var m := Min(low, fs[0].until) - 1;
    assert fs[0].Contains(m);
    assert In(fs, m);
  }

  /** The conditions on a page, spelled out. */
  predicate InOrder(p: Cursor, page: seq<Game>) {
    && |page| <= p.limit
    && (forall i :: 0 <= i < |page| ==>
          page[i].created < p.until && page[i].created >= 0 && (p.since.Some? ==> page[i].created >= p.since.value))
    && (forall i :: 0 < i < |page| ==> page[i].created <= page[i - 1].created)
  }

  /** Neighbours in order are all in order. */
  lemma FitsIsInOrder(p: Cursor, page: seq<Game>)
    ensures PageFits(p, page) <==> InOrder(p, page)
  {
    if InOrder(p, page) {
      forall i, j | 0 <= i < j < |page| ensures page[i].created >= page[j].created {
        Descends(page, i, j);
      }
    }
    if PageFits(p, page) {
      forall i | 0 < i < |page| ensures page[i].created <= page[i - 1].created {
        assert page[i - 1].created >= page[i].created;
      }
      assert forall i :: 0 <= i < |page| ==> p.Window().Contains(page[i].created);
    }
  }

  lemma {:induction false} Descends(page: seq<Game>, i: nat, j: nat)
    requires i <= j < |page| && forall k :: 0 < k < |page| ==> page[k].created <= page[k - 1].created
    ensures page[i].created >= page[j].created
    decreases j
  {
    if i < j { Descends(page, i, j - 1); }
  }

  /** When a turn refuses the page, when it gives up on the budget, and when the job is complete. */
  lemma TurnOutcome(req: Request, store: Store, cursor: Cursor, page: seq<Game>)
    ensures var p, t := Plan(req, store, cursor), TakeTurn(req, store, cursor, page);
            && (p.Finished() ==> t.outcome == Complete)
            && (!p.Finished() ==>
                  && (t.outcome == Invalid <==> !InOrder(p, page) || (page == [] && p.limit == 0))
                  && (t.outcome == OverBudget <==> t.outcome != Invalid && |page| == p.limit
                                                   && FollowUpLimit(req, p, page) > req.maxPageSize)
                  && (t.outcome == Complete || t.outcome == More ==>
                        (t.outcome == Complete <==>
                         if req.backfill then |page| < p.limit else forall m :: !Gap(req, t.store, m))))
  {
    var p, t := Plan(req, store, cursor), TakeTurn(req, store, cursor, page);
    FitsIsInOrder(p, page);
    if !p.Finished() && t.outcome != Invalid {
      if page != [] { FollowUpIsNext(req, p, page); }
      var recorded := RecordRange(Keep(store, page), p, page);
      MissingMeaning(recorded.Proven(), req.Window());
      RaiseHistoryIsCurrent(recorded);
      if t.outcome != OverBudget { SameGaps(req, recorded, t.store); }
    }
  }

  lemma SameGaps(req: Request, store: Store, after: Store)
    requires forall m :: In(after.Proven(), m) <==> In(store.Proven(), m)
    ensures Missing(store.Proven(), req.Window()) == [] <==> forall m :: !Gap(req, after, m)
  {
    var fs := Missing(store.Proven(), req.Window());
    MissingMeaning(store.Proven(), req.Window());
    assert forall m :: In(fs, m) <==> Gap(req, after, m);
    if fs != [] { FirstFragment(fs); }
  }

  /** The limit for the rest of a fragment: page_size beyond the ties, and at least double on a lone millisecond. */
  function FollowUpLimit(req: Request, p: Cursor, page: seq<Game>): int {
    if page == [] then req.pageSize
    else
      var oldest := page[|page| - 1].created;
      var ties := |set i: nat | i < |page| && page[i].created == oldest|;
      if oldest == p.until - 1 && 2 * p.limit > req.pageSize + ties then 2 * p.limit else req.pageSize + ties
  }

  lemma FollowUpIsNext(req: Request, p: Cursor, page: seq<Game>)
    requires page != [] && PageFits(p, page)
    ensures NextLimit(req, p, page) == FollowUpLimit(req, p, page)
  {
    var oldest := page[|page| - 1].created;
    assert p.Window().Contains(oldest);
    assert (set i: nat | i < |page| && page[i].created == oldest) == TiedAt(page, oldest);
  }

  /** What a turn writes, for every outcome. */
  lemma TurnWrites(req: Request, store: Store, cursor: Cursor, page: seq<Game>)
    ensures var p, t := Plan(req, store, cursor), TakeTurn(req, store, cursor, page);
            var short, going := |page| < p.limit, t.outcome == Complete || t.outcome == More;
            && (going ==> HistoryIsCurrent(t.store))
            && (!going ==> t.store.history == store.history && t.cursor == cursor)
            && (p.Finished() ==>
                  && t.store == Store(store.captured, store.ranges, t.store.history,
                                      store.windows + {Range(req.since, req.upper)})
                  && t.cursor == Cursor(p.since, p.until, p.limit, true))
            && (!p.Finished() ==>
                  && t.store.captured == store.captured + (set i | 0 <= i < |page| :: page[i])
                  && (t.outcome == Invalid ==> t.store.ranges == store.ranges)
                  && (t.outcome != Invalid && short ==>
                        t.store.ranges == store.ranges + [Range(p.since, p.until)])
                  && (t.outcome != Invalid && !short ==>
                        && page != []
                        && t.store.ranges == store.ranges + [Range(Some(page[|page| - 1].created + 1), p.until)])
                  && t.store.windows == store.windows + (if going && short then {Range(p.since, p.until)} else {})
                                        + (if t.outcome == Complete then {Range(req.since, req.upper)} else {})
                  && (going ==>
                        && t.cursor.since == p.since && t.cursor.done == (t.outcome == Complete)
                        && (short ==> t.cursor.until == p.until && t.cursor.limit == p.limit)
                        && (!short ==> t.cursor.until == page[|page| - 1].created + 1
                                       && t.cursor.limit == FollowUpLimit(req, p, page))))
  {
    var p, t := Plan(req, store, cursor), TakeTurn(req, store, cursor, page);
    hide Missing, HighWater, RaiseHistory, Plan;
    if p.Finished() {
      RaiseHistoryIsCurrent(RecordWindows(store, req, req.Window(), false, true));
    } else {
      assert (set i | 0 <= i < |page| :: page[i]) == Games(page);
      if t.outcome != Invalid {
        if page != [] { FollowUpIsNext(req, p, page); }
        RaiseHistoryIsCurrent(RecordRange(Keep(store, page), p, page));
        hide FollowUpLimit, NextLimit;
      }
    }
  }

  /*
   * Counting games on a page.
   */

  ghost predicate Distinct(page: seq<Game>) {
    forall i, j :: 0 <= i < j < |page| ==> page[i] != page[j]
  }

  function GamesTiedAt(page: seq<Game>, t: int): set<Game> {
    set i: nat | i < |page| && page[i].created == t :: page[i]
  }

  lemma TiedAppend(front: seq<Game>, g: Game, t: int)
    ensures TiedAt(front + [g], t) == TiedAt(front, t) + (if g.created == t then {|front|} else {})
    ensures GamesTiedAt(front + [g], t) == GamesTiedAt(front, t) + (if g.created == t then {g} else {})
  {
    var page := front + [g];
    assert forall i: nat :: i < |front| ==> page[i] == front[i];
    assert page[|front|] == g;
    forall x | x in GamesTiedAt(front, t)
      ensures x in GamesTiedAt(page, t)
    {
      var i: nat :| i < |front| && front[i].created == t && front[i] == x;
      assert page[i] == x;
    }
  }

  lemma {:induction false} TiedCount(page: seq<Game>, t: int)
    requires Distinct(page)
    ensures |GamesTiedAt(page, t)| == |TiedAt(page, t)|
  {
    if page == [] {
      assert GamesTiedAt(page, t) == {} && TiedAt(page, t) == {};
    } else {
      var n := |page| - 1;
      TiedCount(page[..n], t);
      assert page == page[..n] + [page[n]];
      TiedAppend(page[..n], page[n], t);
      assert page[n] !in GamesTiedAt(page[..n], t);
    }
  }

  lemma {:induction false} PageCount(page: seq<Game>)
    requires Distinct(page)
    ensures |Games(page)| == |page|
  {
    if page == [] {
      assert Games(page) == {};
    } else {
      var n := |page| - 1;
      PageCount(page[..n]);
      assert Games(page) == Games(page[..n]) + {page[n]} by {
        forall g | g in Games(page[..n])
          ensures g in Games(page)
        {
          var i :| 0 <= i < n && page[..n][i] == g;
          assert page[i] == g;
        }
        assert page[n] in Games(page);
        assert forall i :: 0 <= i < n ==> page[i] == page[..n][i];
      }
      assert page[n] !in Games(page[..n]);
    }
  }

  /** A full page after a full page of the same fragment brings at least page_size games the first one lacked. */
  lemma FollowUpIsNew(games: set<Game>, req: Request, c: Cursor, page: seq<Game>, more: seq<Game>)
    requires Answers(games, c, page) && |page| == c.limit > 0
    requires Advance(req, c, page).Some? && Answers(games, Advance(req, c, page).value, more)
    requires |more| == Advance(req, c, page).value.limit
    ensures |Games(more) - Games(page)| >= req.pageSize
  {
    var oldest := Oldest(page);
    PageCount(more);
    TiedCount(page, oldest);
    var tied := GamesTiedAt(page, oldest);
    forall g | g in Games(more) && g in Games(page)
      ensures g in tied
    {
      var i: nat :| i < |page| && page[i] == g;
      assert page[i].created >= oldest;
    }
    assert Games(more) - tied <= Games(more) - Games(page);
    SubsetSize(Games(more) - tied, Games(more) - Games(page));
    SizeOfDifference(Games(more), tied);
  }

  lemma SizeOfDifference<T>(a: set<T>, b: set<T>)
    ensures |a - b| >= |a| - |b|
  {
    assert a <= (a - b) + b;
    SubsetSize(a, (a - b) + b);
  }

  /*
   * The measure.
   */

  ghost function Fragments(req: Request, store: Store): nat {
    if req.backfill then 1 else |Missing(store.Proven(), req.Window())|
  }

  /** The creation times still below the top millisecond of the window being read. */
  ghost function Stamps(games: set<Game>, p: Cursor): set<int> {
    set g | g in games && p.Window().Contains(g.created) && g.created < p.until - 1 :: g.created
  }

  ghost function Slack(req: Request, p: Cursor): int {
    req.maxPageSize - p.limit
  }

  ghost predicate Working(games: set<Game>, req: Request, store: Store, cursor: Cursor) {
    && Sound(games, store) && CursorOk(games, store, req, cursor)
    && !cursor.done && cursor.limit <= req.maxPageSize
  }

  /** Over any sound tables, a new job's first checkpoint is a working one. */
  lemma BeginWorks(games: set<Game>, req: Request, store: Store)
    requires req.Valid() && Sound(games, store)
    ensures Working(games, req, store, Begin(req, store))
  {}

  /** How a page changes the missing list: the first fragment goes, or only its part down to the oldest game. */
  lemma MissingAfterPage(req: Request, store: Store, games: set<Game>, p: Cursor, page: seq<Game>)
    requires !req.backfill && Sound(games, store) && p.limit > 0
    requires Missing(store.Proven(), req.Window()) != [] && p.Window() == Missing(store.Proven(), req.Window())[0]
    requires Answers(games, p, page) && Games(page) <= store.captured
    ensures var after := Missing(RaiseHistory(RecordRange(store, p, page)).Proven(), req.Window());
            var fs := Missing(store.Proven(), req.Window());
            after == if RangeDone(p, page) then fs[1..] else [Range(p.since, Oldest(page) + 1)] + fs[1..]
  {
    var fs := Missing(store.Proven(), req.Window());
    MissingMeaning(store.Proven(), req.Window());
    CutByPage(fs, games, p, page);
    ProvenAfterPage(store, games, p, page);
    hide Missing, Sound, Captured, HighWater, Cut, ProvenBy, RaiseHistory, RecordRange, Answers, Normal, In;
    MissingAfter(store.Proven(), RaiseHistory(RecordRange(store, p, page)).Proven(), req.Window(), ProvenBy(p, page));
  }

  lemma CutByPage(fs: seq<Range>, games: set<Game>, p: Cursor, page: seq<Game>)
    requires Normal(fs) && fs != [] && p.Window() == fs[0] && p.limit > 0 && Answers(games, p, page)
    ensures Cut(fs, ProvenBy(p, page)) ==
            if RangeDone(p, page) then fs[1..] else [Range(p.since, Oldest(page) + 1)] + fs[1..]
  {
    assert fs[0].Nonempty();
    hide Cut, Piece, Normal;
    if RangeDone(p, page) {
      CutFirst(fs, p.since);
      CutLeaves(fs[0], p.since);
      assert [] + fs[1..] == fs[1..];
    } else {
      assert p.Window().Contains(page[|page| - 1].created);
      CutFirst(fs, Some(Oldest(page) + 1));
      CutLeaves(fs[0], Some(Oldest(page) + 1));
    }
  }

  lemma CutLeaves(f: Range, low: Option<int>)
    ensures low.Some? ==> Piece(Range(f.since, low.value)) == if f.since.None? || f.since.value < low.value
                                                              then [Range(f.since, low.value)] else []
  {
  }

  lemma ProvenAfterPage(store: Store, games: set<Game>, p: Cursor, page: seq<Game>)
    requires Sound(games, store) && p.limit > 0 && Answers(games, p, page) && Games(page) <= store.captured
    ensures forall m :: In(RaiseHistory(RecordRange(store, p, page)).Proven(), m) <==>
                        In(store.Proven(), m) || ProvenBy(p, page).Contains(m)
  {
    hide Sound, Captured, HighWater, RaiseHistory;
    RecordedSound(games, store, p, page);
    RaiseHistoryKeeps(games, RecordRange(store, p, page));
    forall m
      ensures In(RecordRange(store, p, page).Proven(), m) <==> In(store.Proven(), m) || ProvenBy(p, page).Contains(m)
    {
      RecordedMembers(store, p, page, m);
    }
  }

  lemma RecordedMembers(store: Store, p: Cursor, page: seq<Game>, m: int)
    requires page != [] || RangeDone(p, page)
    ensures In(RecordRange(store, p, page).Proven(), m) <==> In(store.Proven(), m) || ProvenBy(p, page).Contains(m)
  {
    var r := ProvenBy(p, page);
    var history := if store.history.Some? then [Range(None, store.history.value)] else [];
    InConcat(store.ranges + [r], history, m);
    InConcat(store.ranges, [r], m);
    InConcat(store.ranges, history, m);
    InSingle(r, m);
  }

  lemma FewerStamps(games: set<Game>, p: Cursor, page: seq<Game>, next: Cursor)
    requires Answers(games, p, page) && page != [] && Oldest(page) + 1 < p.until
    requires next.since == p.since && next.until == Oldest(page) + 1
    ensures |Stamps(games, next)| < |Stamps(games, p)|
  {
    var last := page[|page| - 1];
    assert last in games && p.Window().Contains(last.created);
    assert last.created in Stamps(games, p);
    assert Stamps(games, next) <= Stamps(games, p) - {last.created};
    SubsetSize(Stamps(games, next), Stamps(games, p) - {last.created});
  }

  ghost predicate Decreases(a: nat, b: nat, c: int, x: nat, y: nat, z: int) {
    x < a || (x == a && (y < b || (y == b && 0 <= z < c)))
  }

  lemma AdvancedCursor(games: set<Game>, req: Request, p: Cursor, page: seq<Game>)
    requires Answers(games, p, page) && p.limit > 0 && !RangeDone(p, page) && Advance(req, p, page).Some?
    requires req.Valid()
    ensures var next := Advance(req, p, page).value;
            && next.since == p.since && next.until == Oldest(page) + 1 <= p.until
            && 0 < next.limit <= req.maxPageSize
            && (next.until == p.until ==> p.limit < next.limit)
  {
    assert p.Window().Contains(page[|page| - 1].created);
  }

  /**
   Unless it ends, a turn strictly reduces: fragments, then timestamps below the window's top, then
   room in the limit.
   */
  lemma TurnProgress(games: set<Game>, req: Request, store: Store, cursor: Cursor, page: seq<Game>)
    requires req.Valid() && Working(games, req, store, cursor)
    requires !Plan(req, store, cursor).Finished() && Answers(games, Plan(req, store, cursor), page)
    requires TakeTurn(req, store, cursor, page).outcome == More
    ensures var t := TakeTurn(req, store, cursor, page);
            var p, q := Plan(req, store, cursor), Plan(req, t.store, t.cursor);
            Decreases(Fragments(req, store), |Stamps(games, p)|, Slack(req, p),
                      Fragments(req, t.store), |Stamps(games, q)|, Slack(req, q))
  {
    var p := Plan(req, store, cursor);
    var t := TakeTurn(req, store, cursor, page);
    var q := Plan(req, t.store, t.cursor);
    var kept := Keep(store, page);
    if !RangeDone(p, page) {
      AdvancedCursor(games, req, p, page);
      if Oldest(page) + 1 < p.until {
        FewerStamps(games, p, page, t.cursor);
      }
    }
    if !req.backfill {
      PlannedFirst(req, store, cursor);
      KeepSound(games, store, page);
      MissingAfterPage(req, kept, games, p, page);
      assert t.store.Proven() == RaiseHistory(RecordRange(kept, p, page)).Proven();
      if !RangeDone(p, page) {
        assert First(req, t.store) == Range(p.since, Oldest(page) + 1);
        assert q.Window() == t.cursor.Window() && q.limit == t.cursor.limit;
      }
    }
  }

  lemma PlannedFirst(req: Request, store: Store, cursor: Cursor)
    requires !req.backfill && !Plan(req, store, cursor).Finished()
    ensures Missing(store.Proven(), req.Window()) != []
    ensures Plan(req, store, cursor).Window() == Missing(store.Proven(), req.Window())[0]
  {}

  /** A turn leaves a working job, a job that is truly done, or a millisecond too crowded for the budget. */
  lemma TurnKeeps(games: set<Game>, req: Request, store: Store, cursor: Cursor, page: seq<Game>)
    requires req.Valid() && Working(games, req, store, cursor)
    requires forall g :: g in games ==> g.created >= 0
    requires !Plan(req, store, cursor).Finished() ==> Answers(games, Plan(req, store, cursor), page)
    ensures var t := TakeTurn(req, store, cursor, page);
            && Sound(games, t.store)
            && t.outcome != Invalid
            && (t.outcome == More ==> Working(games, req, t.store, t.cursor))
            && (t.outcome == Complete ==> t.cursor.done && Captured(games, t.store, req.Window()))
            && (t.outcome == OverBudget ==> Crowded(games, req))
  {
    var p := Plan(req, store, cursor);
    var t := TakeTurn(req, store, cursor, page);
    PlannedOk(games, store, req, cursor);
    if p.Finished() {
      WindowsSound(games, store, req, req.Window(), false, true);
      RaiseHistoryKeeps(games, RecordWindows(store, req, req.Window(), false, true));
    } else {
      assert PageFits(p, page);
      PageTurnKeeps(games, req, store, cursor, page);
    }
  }

  lemma PageTurnKeeps(games: set<Game>, req: Request, store: Store, cursor: Cursor, page: seq<Game>)
    requires req.Valid() && Working(games, req, store, cursor)
    requires !Plan(req, store, cursor).Finished() && Answers(games, Plan(req, store, cursor), page)
    requires PageFits(Plan(req, store, cursor), page) && FlightOk(games, store, req, Planned(Plan(req, store, cursor)))
    ensures var t := TakeTurn(req, store, cursor, page);
            && Sound(games, t.store)
            && t.outcome != Invalid
            && (t.outcome == More ==> Working(games, req, t.store, t.cursor))
            && (t.outcome == Complete ==> t.cursor.done && Captured(games, t.store, req.Window()))
            && (t.outcome == OverBudget ==> Crowded(games, req))
  {
    var p := Plan(req, store, cursor);
    var t := TakeTurn(req, store, cursor, page);
    var kept := Keep(store, page);
    var recorded := RecordRange(kept, p, page);
    KeepSound(games, store, page);
    RecordedSound(games, kept, p, page);
    if t.outcome == OverBudget {
      OverBudgetIsCrowded(games, req, p, page);
    } else {
      JudgedOk(games, recorded, req, p, page);
      RaiseHistoryKeeps(games, recorded);
      WindowsSound(games, RaiseHistory(recorded), req, p.Window(), RangeDone(p, page), IsDone(req, recorded, p, page));
      if !RangeDone(p, page) {
        AdvancedCursor(games, req, p, page);
      }
    }
  }

  function GamesAt(games: set<Game>, t: int): set<Game> {
    set g | g in games && g.created == t
  }

  /** Some millisecond holds more games than the configured page budget allows for. */
  ghost predicate Crowded(games: set<Game>, req: Request) {
    exists t :: req.pageSize + |GamesAt(games, t)| > req.maxPageSize || 2 * |GamesAt(games, t)| > req.maxPageSize
  }

  lemma OverBudgetIsCrowded(games: set<Game>, req: Request, p: Cursor, page: seq<Game>)
    requires Answers(games, p, page) && p.limit > 0 && !RangeDone(p, page) && Advance(req, p, page).None?
    ensures Crowded(games, req)
  {
    var t := Oldest(page);
    TiedCount(page, t);
    assert GamesTiedAt(page, t) <= GamesAt(games, t);
    SubsetSize(GamesTiedAt(page, t), GamesAt(games, t));
    if t + 1 >= p.until {
      forall i: nat | i < |page|
        ensures page[i].created == t
      {
        assert page[i].created >= page[|page| - 1].created;
        assert p.Window().Contains(page[i].created);
      }
      assert Games(page) == GamesTiedAt(page, t);
      PageCount(page);
    }
    assert req.pageSize + |GamesAt(games, t)| > req.maxPageSize || 2 * |GamesAt(games, t)| > req.maxPageSize;
  }

  /*
   * Too many games at once: the budget error cannot be avoided.
   */

  /** Millisecond t is requested and the job has yet to prove it. */
  ghost predicate Unproven(req: Request, store: Store, cursor: Cursor, t: int) {
    if req.backfill then req.Window().Contains(t) && t < cursor.until else Gap(req, store, t)
  }

  /** A page within the budget never proves a millisecond that holds as many games as the budget. */
  lemma FullMillisecondStaysUnproven(games: set<Game>, req: Request, p: Cursor, page: seq<Game>, t: int)
    requires Answers(games, p, page) && 0 < p.limit <= req.maxPageSize && |GamesAt(games, t)| >= req.maxPageSize
    ensures !ProvenBy(p, page).Contains(t)
  {
    if ProvenBy(p, page).Contains(t) {
      PageCount(page);
      var others := if RangeDone(p, page) then Games(page) else Games(page) - {page[|page| - 1]};
      forall g | g in GamesAt(games, t) ensures g in others {
        assert g in page;
      }
      SubsetSize(GamesAt(games, t), others);
    }
  }

  /** No turn proves such a millisecond, so none completes the job. */
  lemma TurnLeavesUnproven(games: set<Game>, req: Request, store: Store, cursor: Cursor, page: seq<Game>, t: int)
    requires req.Valid() && Working(games, req, store, cursor)
    requires Unproven(req, store, cursor, t) && |GamesAt(games, t)| >= req.maxPageSize
    requires !Plan(req, store, cursor).Finished() ==> Answers(games, Plan(req, store, cursor), page)
    ensures var r := TakeTurn(req, store, cursor, page);
            r.outcome != Complete && (r.outcome == More ==> Unproven(req, r.store, r.cursor, t))
  {
    var p := Plan(req, store, cursor);
    UnprovenIsPlanned(req, store, cursor, t);
    FullMillisecondStaysUnproven(games, req, p, page, t);
    KeepSound(games, store, page);
    if page != [] || RangeDone(p, page) { PageLeavesUnproven(games, req, store, p, page, t); }
    hide Missing, Sound, In, HighWater, RaiseHistory, Answers;
  }

  /** A page that does not prove t leaves it missing and unproven. */
  lemma PageLeavesUnproven(games: set<Game>, req: Request, store: Store, p: Cursor, page: seq<Game>, t: int)
    requires Sound(games, Keep(store, page)) && p.limit > 0 && Answers(games, p, page)
    requires req.Window().Contains(t) && !ProvenBy(p, page).Contains(t)
    ensures var recorded := RecordRange(Keep(store, page), p, page);
            !In(store.Proven(), t) ==>
              Missing(recorded.Proven(), req.Window()) != [] && !In(RaiseHistory(recorded).Proven(), t)
  {
    var kept := Keep(store, page);
    var recorded := RecordRange(kept, p, page);
    assert kept.Proven() == store.Proven();
    RecordedMembers(kept, p, page, t);
    ProvenAfterPage(kept, games, p, page);
    MissingMeaning(recorded.Proven(), req.Window());
    hide Missing, Sound, HighWater, RaiseHistory, Answers;
    assert !In(store.Proven(), t) ==> In(Missing(recorded.Proven(), req.Window()), t);
  }

  lemma UnprovenIsPlanned(req: Request, store: Store, cursor: Cursor, t: int)
    requires Unproven(req, store, cursor, t) && (req.backfill ==> cursor.since == req.since)
    ensures !Plan(req, store, cursor).Finished()
  {
    MissingMeaning(store.Proven(), req.Window());
    if !req.backfill {
      assert In(Missing(store.Proven(), req.Window()), t);
      assert Missing(store.Proven(), req.Window())[0].Nonempty();
    }
  }

  /*
   * A call of the job is its steps, taken one after the other.
   */

  /** When the turn comes to its checkpoint, the five steps of the job end where the turn does. */
  lemma TurnIsItsSteps(games: set<Game>, reqs: map<nat, Request>, w: World, j: nat, page: seq<Game>)
    requires Enabled(games, reqs, w, Choose(j))
    requires var p := Plan(reqs[j], w.store, w.cursors[j]); !p.Finished() && Answers(games, p, page)
    requires TakeTurn(reqs[j], w.store, w.cursors[j], page).outcome in {More, Complete}
    ensures var t, a := TakeTurn(reqs[j], w.store, w.cursors[j], page), Apply(games, reqs, w, Choose(j));
            && Enabled(games, reqs, a, Fetch(j, page))
            && var b := Apply(games, reqs, a, Fetch(j, page));
               && Enabled(games, reqs, b, Record(j))
               && var c := Apply(games, reqs, b, Record(j));
                  && Enabled(games, reqs, c, Judge(j))
                  && var d := Apply(games, reqs, c, Judge(j));
                     && Enabled(games, reqs, d, Commit(j))
                     && Apply(games, reqs, d, Commit(j)) == World(t.store, w.cursors[j := t.cursor], w.flights)
  {
    hide Plan, Missing, HighWater, RaiseHistory, Answers, PageFits, Advance, ProvenBy, IsDone, RecordWindows, Keep;
    var c := Recorded(Plan(reqs[j], w.store, w.cursors[j]), page);
    assert w.flights[j := c] - {j} == w.flights;
  }

  /** When there is nothing left to ask for, two steps do what the turn does. */
  lemma CoveredTurnIsItsSteps(games: set<Game>, reqs: map<nat, Request>, w: World, j: nat, page: seq<Game>)
    requires Enabled(games, reqs, w, Choose(j)) && Plan(reqs[j], w.store, w.cursors[j]).Finished()
    ensures var t, a := TakeTurn(reqs[j], w.store, w.cursors[j], page), Apply(games, reqs, w, Choose(j));
            && Enabled(games, reqs, a, CommitCovered(j))
            && Apply(games, reqs, a, CommitCovered(j)) == World(t.store, w.cursors[j := t.cursor], w.flights)
  {
    hide Plan, Missing, HighWater, RaiseHistory;
    assert w.flights[j := Planned(Plan(reqs[j], w.store, w.cursors[j]))] - {j} == w.flights;
  }

  /** A job with its tables: one call per page, and the loop that a lone job amounts to. */
  class Collector {
    var store: Store
    var cursor: Cursor

    /** A new job over tables that earlier jobs may have filled; it can work whenever they are sound. */
    constructor (req: Request, tables: Store)
      ensures store == tables && cursor == Begin(req, tables)
      ensures cursor.limit == req.pageSize && !cursor.done
      ensures req.backfill ==> cursor.since == req.since && cursor.until == req.upper
      ensures forall games :: req.Valid() && Sound(games, tables) ==> Working(games, req, store, cursor)
    {
      store := tables;
      cursor := Begin(req, tables);
      forall games | req.Valid() && Sound(games, tables) ensures Working(games, req, tables, Begin(req, tables)) {
        BeginWorks(games, req, tables);
      }
    }

    method Check(p: Cursor, page: seq<Game>) returns (ok: bool)
      ensures ok == PageFits(p, page)
    {
      if |page| > p.limit {
        return false;
      }
      for i := 0 to |page|
        invariant forall k :: 0 <= k < i ==> p.Window().Contains(page[k].created) && page[k].created >= 0
        invariant forall k, l :: 0 <= k < l < i ==> page[k].created >= page[l].created
      {
        if page[i].created >= p.until || (p.since.Some? && page[i].created < p.since.value) || page[i].created < 0 {
          return false;
        }
        if i > 0 && page[i - 1].created < page[i].created {
          assert !(page[i - 1].created >= page[i].created);
          return false;
        }
      }
      return true;
    }

    method CountTies(page: seq<Game>, t: int) returns (n: nat)
      ensures n == |TiedAt(page, t)|
    {
      n := 0;
      assert TiedAt(page[..0], t) == {};
      for i := 0 to |page|
        invariant n == |TiedAt(page[..i], t)|
      {
        if page[i].created == t {
          n := n + 1;
          assert TiedAt(page[..i + 1], t) == TiedAt(page[..i], t) + {i};
        } else {
          assert TiedAt(page[..i + 1], t) == TiedAt(page[..i], t);
        }
      }
      assert page[..|page|] == page;
    }

    method RecordHistory()
      modifies this
      ensures store == RaiseHistory(old(store)) && cursor == old(cursor)
    {
      var mark := HistoryHighWater(store.Proven());
      if mark.Some? && (store.history.None? || mark.value >= store.history.value) {
        store := store.(history := mark);
      }
    }

    /** Check the page, record its range, judge, and checkpoint. */
    method ProcessPage(req: Request, p: Cursor, page: seq<Game>) returns (outcome: Outcome)
      modifies this
      ensures Turn(store, cursor, outcome) == UsePage(req, old(store), old(cursor), p, page)
    {
      hide Missing, HighWater;
      store := Keep(store, page);
      var ok := Check(p, page);
      var rangeDone := |page| < p.limit;
      if !ok || (page == [] && !rangeDone) {
        return Invalid;
      }
      store := store.(ranges := store.ranges + [Range(if rangeDone then p.since else Some(Oldest(page) + 1), p.until)]);
      var done := if req.backfill then rangeDone else Missing(store.Proven(), req.Window()) == [];
      var next := p;
      if !rangeDone {
        var limit := ChooseLimit(req, p, page);
        if limit > req.maxPageSize {
          return OverBudget;
        }
        next := p.(until := Oldest(page) + 1, limit := limit);
      }
      RecordHistory();
      store := RecordWindows(store, req, p.Window(), rangeDone, done);
      cursor := next.(done := done);
      outcome := if done then Complete else More;
    }

    method ChooseLimit(req: Request, p: Cursor, page: seq<Game>) returns (limit: nat)
      requires page != []
      ensures limit == NextLimit(req, p, page)
    {
      var ties := CountTies(page, Oldest(page));
      limit := req.pageSize + ties;
      if Oldest(page) + 1 >= p.until {
        limit := Max(limit, p.limit * 2);
      }
    }

    method CollectPage(req: Request, answer: Cursor -> seq<Game>) returns (outcome: Outcome)
      modifies this
      ensures Turn(store, cursor, outcome) ==
              TakeTurn(req, old(store), old(cursor), answer(Plan(req, old(store), old(cursor))))
      ensures outcome == Complete || outcome == More ==> HistoryIsCurrent(store)
      ensures outcome == Invalid || outcome == OverBudget ==> store.history == old(store.history)
    {
      TurnWrites(req, store, cursor, answer(Plan(req, store, cursor)));
      hide Missing, HighWater, UsePage;
      var p := Plan(req, store, cursor);
      if p.Finished() {
        store := RecordWindows(store, req, req.Window(), false, true);
        RecordHistory();
        cursor := p.(done := true);
        return Complete;
      }
      outcome := ProcessPage(req, p, answer(p));
    }

    /**
     A lone job ends after finitely many pages for every finite set of games and every honest provider:
     complete, with the whole requested window stored, or over budget on a crowded millisecond.
     */
    method CollectAll(req: Request, answer: Cursor -> seq<Game>, ghost games: set<Game>) returns (outcome: Outcome)
      requires req.Valid() && Working(games, req, store, cursor)
      requires forall g :: g in games ==> g.created >= 0
      requires forall c: Cursor :: Answers(games, c, answer(c))
      modifies this
      ensures outcome == Complete || outcome == OverBudget
      ensures outcome == Complete ==> cursor.done && Captured(games, store, req.Window())
      ensures outcome == OverBudget ==> Crowded(games, req)
      ensures (exists t :: Unproven(req, old(store), old(cursor), t) && |GamesAt(games, t)| >= req.maxPageSize)
              ==> outcome == OverBudget
      ensures Sound(games, store)
    {
      ghost var full: iset<int> :=
        iset t | Unproven(req, store, cursor, t) && |GamesAt(games, t)| >= req.maxPageSize;
      outcome := More;
      while outcome == More
        invariant outcome != Invalid && Sound(games, store)
        invariant outcome == More ==> Working(games, req, store, cursor)
        invariant outcome == Complete ==> cursor.done && Captured(games, store, req.Window())
        invariant outcome == OverBudget ==> Crowded(games, req)
        invariant forall t :: t in full ==> |GamesAt(games, t)| >= req.maxPageSize && outcome != Complete
        invariant forall t :: t in full && outcome == More ==> Unproven(req, store, cursor, t)
        decreases outcome == More, Fragments(req, store), |Stamps(games, Plan(req, store, cursor))|,
                  Slack(req, Plan(req, store, cursor))
      {
        ghost var s, c := store, cursor;
        ghost var p := Plan(req, s, c);
        outcome := CollectPage(req, answer);
        TurnKeeps(games, req, s, c, answer(p));
        forall t | t in full ensures outcome != Complete && (outcome == More ==> Unproven(req, store, cursor, t)) {
          TurnLeavesUnproven(games, req, s, c, answer(p), t);
        }
        if outcome == More {
          TurnProgress(games, req, s, c, answer(p));
        }
      }
    }
  }
}
