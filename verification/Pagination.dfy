/**
 Gap-driven collection of one user's game history in newest-first pages of bounded size.
 Many games may share a millisecond, so a full page proves only what is strictly newer than
 its oldest game; the next window is whatever the proven ranges leave missing.
 */
module Pagination {
  import opened Common
  import opened Ranges

  datatype Game = Game(id: nat, created: int)

  /** The immutable parameters of a collection job. */
  datatype Request = Request(since: Option<int>, upper: int, backfill: bool, pageSize: nat, maxPageSize: nat) {
    function Window(): Range {
      Range(since, upper)
    }

    predicate Valid() {
      1 <= pageSize <= maxPageSize && (since.Some? ==> since.value <= upper)
    }
  }

  datatype Cursor = Cursor(since: Option<int>, until: int, limit: nat, done: bool) {
    function Window(): Range {
      Range(since, until)
    }

    predicate Finished() {
      since == Some(until)
    }
  }

  /** Stored pages, proven source ranges, the history row and the completed window rows of a user. */
  datatype Store = Store(captured: set<Game>, ranges: seq<Range>, history: Option<int>, windows: set<Range>) {
    function Proven(): seq<Range> {
      ranges + (if history.Some? then [Range(None, history.value)] else [])
    }
  }

  function First(req: Request, store: Store): Range {
    var missing := Missing(store.Proven(), req.Window());
    if missing != [] then missing[0] else Range(Some(req.upper), req.upper)
  }

  function Begin(req: Request, store: Store): Cursor {
    if req.backfill then Cursor(req.since, req.upper, req.pageSize, false)
    else
      var first := First(req, store);
      Cursor(first.since, first.until, req.pageSize, false)
  }

  /** The window and limit of the next page; the raised limit survives only while the fragment is unchanged. */
  function Plan(req: Request, store: Store, c: Cursor): Cursor {
    if req.backfill then c
    else
      var first := First(req, store);
      Cursor(first.since, first.until, if first == c.Window() then c.limit else req.pageSize, c.done)
  }

  /** The checks made on every answer before any of it is trusted. */
  predicate PageFits(c: Cursor, page: seq<Game>) {
    && |page| <= c.limit
    && (forall i :: 0 <= i < |page| ==> c.Window().Contains(page[i].created) && page[i].created >= 0)
    && (forall i, j :: 0 <= i < j < |page| ==> page[i].created >= page[j].created)
  }

  predicate RangeDone(c: Cursor, page: seq<Game>) {
    |page| < c.limit
  }

  function Oldest(page: seq<Game>): int
    requires page != []
  {
    page[|page| - 1].created
  }

  /** What a page proves: its whole window, or only what is newer than its oldest millisecond. */
  function ProvenBy(c: Cursor, page: seq<Game>): Range
    requires page != [] || RangeDone(c, page)
  {
    Range(if RangeDone(c, page) then c.since else Some(Oldest(page) + 1), c.until)
  }

  function Games(page: seq<Game>): set<Game> {
    set i | 0 <= i < |page| :: page[i]
  }

  function TiedAt(page: seq<Game>, t: int): set<nat> {
    set i: nat | i < |page| && page[i].created == t
  }

  function NextLimit(req: Request, c: Cursor, page: seq<Game>): int
    requires page != []
  {
    var overlap := req.pageSize + |TiedAt(page, Oldest(page))|;
    if Oldest(page) + 1 >= c.until then Max(overlap, c.limit * 2) else overlap
  }

  /** The cursor after a page, unless the boundary needs more than the page budget. */
  function Advance(req: Request, c: Cursor, page: seq<Game>): Option<Cursor>
    requires page != [] || RangeDone(c, page)
  {
    if RangeDone(c, page) then Some(c)
    else if NextLimit(req, c, page) > req.maxPageSize then None
    else Some(c.(until := Oldest(page) + 1, limit := NextLimit(req, c, page)))
  }

  function Keep(store: Store, page: seq<Game>): Store {
    store.(captured := store.captured + Games(page))
  }

  function RecordRange(store: Store, c: Cursor, page: seq<Game>): Store
    requires page != [] || RangeDone(c, page)
  {
    store.(ranges := store.ranges + [ProvenBy(c, page)])
  }

  predicate IsDone(req: Request, store: Store, c: Cursor, page: seq<Game>) {
    if req.backfill then RangeDone(c, page) else Missing(store.Proven(), req.Window()) == []
  }

  ghost function RaiseHistory(store: Store): Store {
    var mark := HighWater(store.Proven());
    if mark.None? || (store.history.Some? && mark.value < store.history.value) then store
    else store.(history := mark)
  }

  function RecordWindows(store: Store, req: Request, window: Range, rangeDone: bool, done: bool): Store {
    store.(windows := store.windows + (if rangeDone then {window} else {}) + (if done then {req.Window()} else {}))
  }

  /*
   * The provider: for a fixed finite set of games it answers with the newest `limit` of the window.
   */

  /** Distinct games of the window, newest first; all of them, or else the newest ones, ties cut anywhere. */
  ghost predicate Answers(games: set<Game>, c: Cursor, page: seq<Game>) {
    && |page| <= c.limit
    && (forall i :: 0 <= i < |page| ==> page[i] in games && c.Window().Contains(page[i].created))
    && (forall i, j :: 0 <= i < j < |page| ==> page[i].created >= page[j].created && page[i] != page[j])
    && (|page| < c.limit ==> forall g :: g in games && c.Window().Contains(g.created) ==> g in page)
    && (|page| == c.limit > 0 ==>
          forall g :: g in games && c.Window().Contains(g.created) && g !in page ==> g.created <= Oldest(page))
  }

  /** Every game of the range is in a stored page. */
  ghost predicate Captured(games: set<Game>, store: Store, r: Range) {
    forall g :: g in games && r.Contains(g.created) ==> g in store.captured
  }

  ghost predicate Sound(games: set<Game>, store: Store) {
    && (forall i :: 0 <= i < |store.ranges| ==> Captured(games, store, store.ranges[i]))
    && (store.history.Some? ==> Captured(games, store, Range(None, store.history.value)))
    && (forall w :: w in store.windows ==> Captured(games, store, w))
  }

  /** The heart of soundness: an honest page, once stored, captures the range recorded for it. */
  lemma PageProves(games: set<Game>, store: Store, c: Cursor, page: seq<Game>)
    requires Answers(games, c, page) && c.limit > 0 && Games(page) <= store.captured
    ensures Captured(games, store, ProvenBy(c, page))
  {
    forall g | g in games && ProvenBy(c, page).Contains(g.created)
      ensures g in store.captured
    {
      assert g in page;
      assert g in Games(page);
    }
  }

  lemma ProvenIsCaptured(games: set<Game>, store: Store, g: Game)
    requires Sound(games, store) && g in games && In(store.Proven(), g.created)
    ensures g in store.captured
  {
    var i :| 0 <= i < |store.Proven()| && store.Proven()[i].Contains(g.created);
    assert i < |store.ranges| ==> Captured(games, store, store.ranges[i]);
  }

  lemma NothingMissing(games: set<Game>, store: Store, w: Range)
    requires Sound(games, store) && Missing(store.Proven(), w) == []
    ensures Captured(games, store, w)
  {
    MissingMeaning(store.Proven(), w);
    forall g | g in games && w.Contains(g.created)
      ensures g in store.captured
    {
      assert !In(Missing(store.Proven(), w), g.created);
      ProvenIsCaptured(games, store, g);
    }
  }

  lemma RaiseHistoryKeeps(games: set<Game>, store: Store)
    requires Sound(games, store)
    ensures Sound(games, RaiseHistory(store))
    ensures forall m :: In(RaiseHistory(store).Proven(), m) <==> In(store.Proven(), m)
  {
    var after := RaiseHistory(store);
    if after != store {
      var h := after.history.value;
      assert IsHighWater(store.Proven(), h);
      forall g | g in games && Range(None, h).Contains(g.created)
        ensures g in after.captured
      {
        ProvenIsCaptured(games, store, g);
      }
      assert forall i :: 0 <= i < |store.ranges| ==> Captured(games, store, store.ranges[i]);
      assert forall w :: w in after.windows ==> Captured(games, store, w);
      HistoryRowAddsNothing(store, h);
    }
  }

  /** The high-water mark of the tables, whenever there is one, is what the history row holds. */
  ghost predicate HistoryIsCurrent(store: Store) {
    forall h :: IsHighWater(store.Proven(), h) ==> store.history == Some(h)
  }

  lemma HistoryIsProven(store: Store, m: int)
    requires store.history.Some? && m < store.history.value
    ensures In(store.Proven(), m)
  {
    var proven := store.Proven();
    assert proven[|proven| - 1].Contains(m);
  }

  lemma RaiseHistoryIsCurrent(store: Store)
    ensures HistoryIsCurrent(RaiseHistory(store))
    ensures RaiseHistory(store) == store.(history := RaiseHistory(store).history)
    ensures forall m :: In(RaiseHistory(store).Proven(), m) <==> In(store.Proven(), m)
  {
    if RaiseHistory(store) != store { HistoryRowAddsNothing(store, RaiseHistory(store).history.value); }
    var after := RaiseHistory(store);
    var mark := HighWater(store.Proven());
    forall h | IsHighWater(after.Proven(), h)
      ensures after.history == Some(h)
    {
      if mark.Some? {
        assert IsHighWater(store.Proven(), mark.value);
        if store.history.Some? && mark.value < store.history.value { HistoryIsProven(store, mark.value); }
        HistoryRowAddsNothing(store, mark.value);
        HighWaterUnique(store.Proven(), mark.value, h);
      }
    }
  }

  lemma HistoryRowAddsNothing(store: Store, h: int)
    requires IsHighWater(store.Proven(), h) && (store.history.Some? ==> store.history.value <= h)
    ensures forall m :: In(store.(history := Some(h)).Proven(), m) <==> In(store.Proven(), m)
  {
    var after := store.(history := Some(h));
    forall m
      ensures In(after.Proven(), m) <==> In(store.Proven(), m)
    {
      InConcat(store.ranges, [Range(None, h)], m);
      InSingle(Range(None, h), m);
      if store.history.Some? {
        InConcat(store.ranges, [Range(None, store.history.value)], m);
        InSingle(Range(None, store.history.value), m);
      } else {
        assert store.ranges + [] == store.ranges;
      }
    }
  }
}
