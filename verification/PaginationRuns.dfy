/**
 Collection jobs of one user sharing the coverage tables, stopping anywhere: between storing a page
 and recording its range, and between recording the range and saving the checkpoint.
 */
module PaginationRuns {
  import opened Common
  import opened Ranges
  import opened Pagination

  /** Where a job's attempt is, with what it holds only in memory. */
  datatype Flight =
    | Planned(c: Cursor)
    | Fetched(c: Cursor, page: seq<Game>)
    | Recorded(c: Cursor, page: seq<Game>)
    | Judged(next: Cursor, window: Range, rangeDone: bool, done: bool)

  /** Committed rows, saved checkpoints, and attempts in flight. */
  datatype World = World(store: Store, cursors: map<nat, Cursor>, flights: map<nat, Flight>)

  datatype Step =
    | Start(j: nat)
    | Choose(j: nat)
    | Fetch(j: nat, page: seq<Game>)
    | Record(j: nat)
    | Judge(j: nat)
    | Commit(j: nat)
    | CommitCovered(j: nat)
    | Stop(j: nat)

  ghost predicate Enabled(games: set<Game>, reqs: map<nat, Request>, w: World, step: Step) {
    && step.j in reqs
    && match step
       case Start(j) => j !in w.cursors && j !in w.flights
       case Choose(j) => j in w.cursors && j !in w.flights && !w.cursors[j].done
       case Fetch(j, page) => j in w.flights && w.flights[j].Planned? && !w.flights[j].c.Finished()
                              && Answers(games, w.flights[j].c, page)
       case Record(j) => j in w.flights && w.flights[j].Fetched? && PageFits(w.flights[j].c, w.flights[j].page)
                        && (w.flights[j].page != [] || RangeDone(w.flights[j].c, w.flights[j].page))
       case Judge(j) => j in w.flights && w.flights[j].Recorded?
                        && CanAdvance(reqs[j], w.flights[j].c, w.flights[j].page)
       case Commit(j) => j in w.flights && w.flights[j].Judged?
       case CommitCovered(j) => j in w.flights && w.flights[j].Planned? && w.flights[j].c.Finished()
       case Stop(j) => j in w.flights
  }

  predicate CanAdvance(req: Request, c: Cursor, page: seq<Game>) {
    (page != [] || RangeDone(c, page)) && Advance(req, c, page).Some?
  }

  ghost function Apply(games: set<Game>, reqs: map<nat, Request>, w: World, step: Step): World
    requires Enabled(games, reqs, w, step)
  {
    var j := step.j;
    var req := reqs[j];
    match step
    case Start(_) => w.(cursors := w.cursors[j := Begin(req, w.store)])
    case Choose(_) => w.(flights := w.flights[j := Planned(Plan(req, w.store, w.cursors[j]))])
    case Fetch(_, page) =>
      w.(store := Keep(w.store, page), flights := w.flights[j := Fetched(w.flights[j].c, page)])
    case Record(_) =>
      var f := w.flights[j];
      w.(store := RecordRange(w.store, f.c, f.page), flights := w.flights[j := Recorded(f.c, f.page)])
    case Judge(_) =>
      var f := w.flights[j];
      var done := IsDone(req, w.store, f.c, f.page);
      var next := Advance(req, f.c, f.page).value;
      w.(flights := w.flights[j := Judged(next.(done := done), f.c.Window(), RangeDone(f.c, f.page), done)])
    case Commit(_) =>
      var f := w.flights[j];
      World(RecordWindows(RaiseHistory(w.store), req, f.window, f.rangeDone, f.done),
            w.cursors[j := f.next], w.flights - {j})
    case CommitCovered(_) =>
      World(RaiseHistory(RecordWindows(w.store, req, req.Window(), false, true)),
            w.cursors[j := w.flights[j].c.(done := true)], w.flights - {j})
    case Stop(_) => w.(flights := w.flights - {j})
  }

  /** A checkpoint never claims more than is captured; a backfill's cursor also marks how far down it has come. */
  ghost predicate CursorOk(games: set<Game>, store: Store, req: Request, c: Cursor) {
    && c.limit > 0
    && (req.backfill ==> c.since == req.since && Captured(games, store, Range(Some(c.until), req.upper)))
    && (c.done ==> Captured(games, store, req.Window()))
  }

  ghost predicate FlightOk(games: set<Game>, store: Store, req: Request, f: Flight) {
    match f
    case Planned(c) => CursorOk(games, store, req, c) && (c.Finished() ==> Captured(games, store, req.Window()))
    case Fetched(c, page) => CursorOk(games, store, req, c) && Answers(games, c, page) && Games(page) <= store.captured
    case Recorded(c, page) => CursorOk(games, store, req, c) && Answers(games, c, page) && Games(page) <= store.captured
    case Judged(next, window, rangeDone, done) =>
      && CursorOk(games, store, req, next)
      && (rangeDone ==> Captured(games, store, window))
      && (done ==> Captured(games, store, req.Window()))
  }

  ghost predicate Inv(games: set<Game>, reqs: map<nat, Request>, w: World) {
    && Sound(games, w.store)
    && w.cursors.Keys <= reqs.Keys && w.flights.Keys <= reqs.Keys
    && (forall j :: j in w.cursors ==> CursorOk(games, w.store, reqs[j], w.cursors[j]))
    && (forall j :: j in w.flights ==> FlightOk(games, w.store, reqs[j], w.flights[j]))
  }

  ghost predicate ValidRequests(reqs: map<nat, Request>) {
    forall j :: j in reqs ==> reqs[j].Valid()
  }

  lemma Grow(games: set<Game>, reqs: map<nat, Request>, w: World, store: Store)
    requires Inv(games, reqs, w) && w.store.captured <= store.captured && Sound(games, store)
    ensures Inv(games, reqs, w.(store := store))
  {
    forall j | j in w.cursors
      ensures CursorOk(games, store, reqs[j], w.cursors[j])
    {
      assert CursorOk(games, w.store, reqs[j], w.cursors[j]);
    }
    forall j | j in w.flights
      ensures FlightOk(games, store, reqs[j], w.flights[j])
    {
      assert FlightOk(games, w.store, reqs[j], w.flights[j]);
    }
  }

  lemma FirstCaptured(games: set<Game>, store: Store, req: Request)
    requires Sound(games, store) && First(req, store).since == Some(First(req, store).until)
    ensures Captured(games, store, req.Window())
  {
    var missing := Missing(store.Proven(), req.Window());
    MissingMeaning(store.Proven(), req.Window());
    assert missing != [] ==> missing[0].Nonempty();
    NothingMissing(games, store, req.Window());
  }

  lemma PlannedOk(games: set<Game>, store: Store, req: Request, c: Cursor)
    requires Sound(games, store) && req.Valid() && CursorOk(games, store, req, c) && !c.done
    ensures FlightOk(games, store, req, Planned(Plan(req, store, c)))
  {
    var p := Plan(req, store, c);
    if p.Finished() && !req.backfill {
      FirstCaptured(games, store, req);
    }
  }

  lemma RecordedSound(games: set<Game>, store: Store, c: Cursor, page: seq<Game>)
    requires Sound(games, store) && Answers(games, c, page) && c.limit > 0 && Games(page) <= store.captured
    ensures Sound(games, RecordRange(store, c, page))
  {
    PageProves(games, store, c, page);
    var after := RecordRange(store, c, page);
    assert forall i :: 0 <= i < |store.ranges| ==> Captured(games, store, store.ranges[i]);
    assert forall w :: w in store.windows ==> Captured(games, store, w);
  }

  lemma JudgedOk(games: set<Game>, store: Store, req: Request, c: Cursor, page: seq<Game>)
    requires Sound(games, store) && req.Valid() && CursorOk(games, store, req, c)
    requires Answers(games, c, page) && Games(page) <= store.captured && CanAdvance(req, c, page)
    ensures var done := IsDone(req, store, c, page);
            FlightOk(games, store, req,
                     Judged(Advance(req, c, page).value.(done := done), c.Window(), RangeDone(c, page), done))
  {
    PageProves(games, store, c, page);
    var done := IsDone(req, store, c, page);
    if done && !req.backfill {
      NothingMissing(games, store, req.Window());
    }
    var next := Advance(req, c, page).value;
    if req.backfill {
      forall g | g in games && Range(Some(next.until), req.upper).Contains(g.created)
        ensures g in store.captured
      {
        assert g.created >= c.until || ProvenBy(c, page).Contains(g.created);
      }
    }
  }

  lemma SetFlight(games: set<Game>, reqs: map<nat, Request>, w: World, j: nat, f: Flight)
    requires Inv(games, reqs, w) && j in reqs && FlightOk(games, w.store, reqs[j], f)
    ensures Inv(games, reqs, w.(flights := w.flights[j := f]))
  {
    hide FlightOk, CursorOk, Sound;
  }

  lemma SetCursor(games: set<Game>, reqs: map<nat, Request>, w: World, j: nat, c: Cursor)
    requires Inv(games, reqs, w) && j in reqs && CursorOk(games, w.store, reqs[j], c)
    ensures Inv(games, reqs, w.(cursors := w.cursors[j := c]))
    ensures Inv(games, reqs, w.(cursors := w.cursors[j := c], flights := w.flights - {j}))
  {
    hide FlightOk, CursorOk, Sound;
  }

  lemma DropFlight(games: set<Game>, reqs: map<nat, Request>, w: World, j: nat)
    requires Inv(games, reqs, w)
    ensures Inv(games, reqs, w.(flights := w.flights - {j}))
  {
    hide FlightOk, CursorOk, Sound;
  }

  lemma Ongoing(games: set<Game>, reqs: map<nat, Request>, w: World, j: nat)
    requires Inv(games, reqs, w)
    ensures Sound(games, w.store)
    ensures j in w.flights ==> j in reqs && FlightOk(games, w.store, reqs[j], w.flights[j])
    ensures j in w.cursors ==> j in reqs && CursorOk(games, w.store, reqs[j], w.cursors[j])
  {
  }

  lemma FetchKeeps(games: set<Game>, reqs: map<nat, Request>, w: World, j: nat, page: seq<Game>)
    requires Inv(games, reqs, w) && Enabled(games, reqs, w, Fetch(j, page))
    ensures Inv(games, reqs, Apply(games, reqs, w, Fetch(j, page)))
  {
    var store := Keep(w.store, page);
    Ongoing(games, reqs, w, j);
    KeepSound(games, w.store, page);
    Grow(games, reqs, w, store);
    Ongoing(games, reqs, w.(store := store), j);
    SetFlight(games, reqs, w.(store := store), j, Fetched(w.flights[j].c, page));
    hide Inv;
  }

  lemma RecordKeeps(games: set<Game>, reqs: map<nat, Request>, w: World, j: nat)
    requires Inv(games, reqs, w) && Enabled(games, reqs, w, Record(j))
    ensures Inv(games, reqs, Apply(games, reqs, w, Record(j)))
  {
    var f := w.flights[j];
    var store := RecordRange(w.store, f.c, f.page);
    Ongoing(games, reqs, w, j);
    RecordedSound(games, w.store, f.c, f.page);
    Grow(games, reqs, w, store);
    Ongoing(games, reqs, w.(store := store), j);
    SetFlight(games, reqs, w.(store := store), j, Recorded(f.c, f.page));
    hide Inv;
  }

  lemma CommitKeeps(games: set<Game>, reqs: map<nat, Request>, w: World, j: nat)
    requires Inv(games, reqs, w) && Enabled(games, reqs, w, Commit(j))
    ensures Inv(games, reqs, Apply(games, reqs, w, Commit(j)))
  {
    var f := w.flights[j];
    var store := RecordWindows(RaiseHistory(w.store), reqs[j], f.window, f.rangeDone, f.done);
    Ongoing(games, reqs, w, j);
    RaiseHistoryKeeps(games, w.store);
    WindowsSound(games, RaiseHistory(w.store), reqs[j], f.window, f.rangeDone, f.done);
    Grow(games, reqs, w, store);
    Ongoing(games, reqs, w.(store := store), j);
    SetCursor(games, reqs, w.(store := store), j, f.next);
    hide Inv;
  }

  lemma CommitCoveredKeeps(games: set<Game>, reqs: map<nat, Request>, w: World, j: nat)
    requires Inv(games, reqs, w) && Enabled(games, reqs, w, CommitCovered(j))
    ensures Inv(games, reqs, Apply(games, reqs, w, CommitCovered(j)))
  {
    var recorded := RecordWindows(w.store, reqs[j], reqs[j].Window(), false, true);
    Ongoing(games, reqs, w, j);
    WindowsSound(games, w.store, reqs[j], reqs[j].Window(), false, true);
    RaiseHistoryKeeps(games, recorded);
    Grow(games, reqs, w, RaiseHistory(recorded));
    Ongoing(games, reqs, w.(store := RaiseHistory(recorded)), j);
    SetCursor(games, reqs, w.(store := RaiseHistory(recorded)), j, w.flights[j].c.(done := true));
    hide Inv;
  }

  lemma BeginOk(games: set<Game>, store: Store, req: Request)
    requires req.Valid()
    ensures CursorOk(games, store, req, Begin(req, store))
  {
  }

  /** Each step of each job, and a stop at any point, keeps every coverage claim true. */
  lemma StepKeeps(games: set<Game>, reqs: map<nat, Request>, w: World, step: Step)
    requires ValidRequests(reqs) && Inv(games, reqs, w) && Enabled(games, reqs, w, step)
    ensures Inv(games, reqs, Apply(games, reqs, w, step))
  {
    var j := step.j;
    Ongoing(games, reqs, w, j);
    match step {
      case Start(_) =>
        BeginOk(games, w.store, reqs[j]);
        SetCursor(games, reqs, w, j, Begin(reqs[j], w.store));
      case Choose(_) =>
        PlannedOk(games, w.store, reqs[j], w.cursors[j]);
        SetFlight(games, reqs, w, j, Planned(Plan(reqs[j], w.store, w.cursors[j])));
      case Fetch(_, page) => FetchKeeps(games, reqs, w, j, page);
      case Record(_) => RecordKeeps(games, reqs, w, j);
      case Judge(_) =>
        var f := w.flights[j];
        JudgedOk(games, w.store, reqs[j], f.c, f.page);
        SetFlight(games, reqs, w, j, Apply(games, reqs, w, step).flights[j]);
      case Commit(_) => CommitKeeps(games, reqs, w, j);
      case CommitCovered(_) => CommitCoveredKeeps(games, reqs, w, j);
      case Stop(_) => DropFlight(games, reqs, w, j);
    }
    hide Inv, FlightOk, CursorOk, Sound;
  }

  lemma KeepSound(games: set<Game>, store: Store, page: seq<Game>)
    requires Sound(games, store)
    ensures Sound(games, Keep(store, page))
  {
    assert forall i :: 0 <= i < |store.ranges| ==> Captured(games, store, store.ranges[i]);
    assert forall w :: w in store.windows ==> Captured(games, store, w);
  }

  lemma WindowsSound(games: set<Game>, store: Store, req: Request, window: Range, rangeDone: bool, done: bool)
    requires Sound(games, store)
    requires rangeDone ==> Captured(games, store, window)
    requires done ==> Captured(games, store, req.Window())
    ensures Sound(games, RecordWindows(store, req, window, rangeDone, done))
  {
    assert forall i :: 0 <= i < |store.ranges| ==> Captured(games, store, store.ranges[i]);
    assert forall w :: w in store.windows ==> Captured(games, store, w);
  }

  const EMPTY := World(Store({}, [], None, {}), map[], map[])

  ghost predicate IsRun(games: set<Game>, reqs: map<nat, Request>, worlds: seq<World>, steps: seq<Step>) {
    && |worlds| == |steps| + 1
    && worlds[0] == EMPTY
    && forall k :: 0 <= k < |steps| ==>
         && Enabled(games, reqs, worlds[k], steps[k])
         && worlds[k + 1] == Apply(games, reqs, worlds[k], steps[k])
  }

  lemma {:induction false} RunKeepsInv(
      games: set<Game>, reqs: map<nat, Request>, worlds: seq<World>, steps: seq<Step>, k: nat)
    requires ValidRequests(reqs) && IsRun(games, reqs, worlds, steps) && k < |worlds|
    ensures Inv(games, reqs, worlds[k])
  {
    hide Apply, Enabled;
    if k > 0 {
      RunKeepsInv(games, reqs, worlds, steps, k - 1);
      StepKeeps(games, reqs, worlds[k - 1], steps[k - 1]);
    }
  }

  /**
   In every run of every set of jobs: each recorded range, the history row and each completed window cover only
   milliseconds whose games are all stored, and a job marked done has its whole requested window stored.
   */
  lemma CoverageIsTrue(games: set<Game>, reqs: map<nat, Request>, worlds: seq<World>, steps: seq<Step>, k: nat)
    requires ValidRequests(reqs) && IsRun(games, reqs, worlds, steps) && k < |worlds|
    ensures forall i :: 0 <= i < |worlds[k].store.ranges| ==>
              Captured(games, worlds[k].store, worlds[k].store.ranges[i])
    ensures worlds[k].store.history.Some? ==>
              Captured(games, worlds[k].store, Range(None, worlds[k].store.history.value))
    ensures forall w :: w in worlds[k].store.windows ==> Captured(games, worlds[k].store, w)
    ensures forall j :: j in worlds[k].cursors && worlds[k].cursors[j].done ==>
              j in reqs && Captured(games, worlds[k].store, reqs[j].Window())
  {
    RunKeepsInv(games, reqs, worlds, steps, k);
    assert forall j :: j in worlds[k].cursors ==> CursorOk(games, worlds[k].store, reqs[j], worlds[k].cursors[j]);
  }
}
