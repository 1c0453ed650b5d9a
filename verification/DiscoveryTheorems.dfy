/**
 What a crawl's workers achieve together: bounds in every reachable table, exact shortest-path
 depths when no work is left, and an end to the work.
 */
module DiscoveryTheorems {
  import opened Common
  import opened Discovery
  import opened DiscoveryRuns

  /*
   * Safety over whole runs.
   */

  lemma InitialCaps(run: Run)
    requires run.maxUsers > 0 && run.maxJobs > 0
    ensures CapsOk(run, [NewCrawl(run.seed, 0)])
  {
    CrawlsOfAppend([], NewCrawl(run.seed, 0));
    assert [] + [NewCrawl(run.seed, 0)] == [NewCrawl(run.seed, 0)];
    assert CrawlRows([]) == {} && CrawlUsers([]) == {};
  }

  lemma InitialInv(run: Run)
    requires run.maxUsers > 0 && run.maxJobs > 0
    ensures Inv(run, [NewCrawl(run.seed, 0)])
  {
    hide CapsOk, Queued, Relaxed, Walk, Lower;
    var jobs := [NewCrawl(run.seed, 0)];
    InitialCaps(run);
    WalkStart(run, DoneUsers(jobs));
  }

  lemma {:induction false} RunKeepsInv(run: Run, tables: seq<seq<Job>>, steps: seq<Step>, k: nat)
    requires run.maxUsers > 0 && run.maxJobs > 0 && IsRun(run, tables, steps) && k < |tables|
    ensures Inv(run, tables[k])
  {
    hide Inv, Apply, Enabled;
    if k == 0 {
      InitialInv(run);
    } else {
      RunKeepsInv(run, tables, steps, k - 1);
      StepKeeps(run, tables[k - 1], steps[k - 1]);
    }
  }

  lemma {:induction false} RunGrows(run: Run, tables: seq<seq<Job>>, steps: seq<Step>, j: nat, k: nat)
    requires run.maxUsers > 0 && run.maxJobs > 0 && IsRun(run, tables, steps) && j <= k < |tables|
    ensures Grows(tables[j], tables[k])
    decreases k
  {
    hide Inv, Apply, Enabled;
    if j < k {
      RunGrows(run, tables, steps, j, k - 1);
      RunKeepsInv(run, tables, steps, k - 1);
      StepKeeps(run, tables[k - 1], steps[k - 1]);
      GrowsTrans(tables[j], tables[k - 1], tables[k]);
    }
  }

  /** Along every run a user once known stays known, at a depth that never rises. */
  lemma KnownDepthNeverRises(run: Run, tables: seq<seq<Job>>, steps: seq<Step>, j: nat, k: nat, user: string)
    requires run.maxUsers > 0 && run.maxJobs > 0 && IsRun(run, tables, steps) && j <= k < |tables|
    requires Known(tables[j], user).Some?
    ensures Known(tables[k], user).Some? && Known(tables[k], user).value <= Known(tables[j], user).value
  {
    hide Inv, Grows;
    RunGrows(run, tables, steps, j, k);
    RunKeepsInv(run, tables, steps, j);
    InvRows(run, tables[j]);
    KnownMeaning(tables[j], user);
    KnownMeaning(tables[k], user);
    var d := Known(tables[j], user).value;
    assert AtMost(tables[j], user, d);
    AtMostGrows(tables[j], tables[k], user, d);
  }

  /**
   In every reachable table: one acquisition per user, both caps, the depth bound, and no depth below
   the distance.
   */
  lemma CapsHoldInEveryRun(run: Run, tables: seq<seq<Job>>, steps: seq<Step>, k: nat)
    requires run.maxUsers > 0 && run.maxJobs > 0 && IsRun(run, tables, steps) && k < |tables|
    ensures UniqueCrawl(tables[k])
    ensures |CrawlUsers(tables[k])| <= run.maxUsers && |CrawlRows(tables[k])| <= run.maxJobs
    ensures forall i: nat, u: string :: i < |tables[k]| && Owns(tables[k], i, u) ==>
              && tables[k][i].depth <= run.maxDepth
              && Walk(run, NotFailed(tables[k]), u, tables[k][i].depth)
  {
    RunKeepsInv(run, tables, steps, k);
    forall i: nat, u: string | i < |tables[k]| && Owns(tables[k], i, u)
      ensures tables[k][i].depth <= run.maxDepth && Walk(run, NotFailed(tables[k]), u, tables[k][i].depth)
    {
      DepthIsWalk(run, tables[k], i, u);
    }
  }

  /*
   * Tables with no work left.
   */

  /** The user's acquisition ended in error or was skipped, so it is never expanded. */
  ghost predicate IsFailed(jobs: seq<Job>, u: string) {
    exists i: nat :: i < |jobs| && IsCrawlOf(jobs[i], u) && (jobs[i].state == Error || jobs[i].state == Skipped)
  }

  ghost function NotFailed(jobs: seq<Job>): iset<string> {
    iset u | !IsFailed(jobs, u)
  }

  ghost predicate Quiescent(jobs: seq<Job>) {
    forall i: nat :: i < |jobs| ==> jobs[i].state.Terminal()
  }

  /** The user was acquired, but the expansion at its least depth ended in error and is never run again. */
  ghost predicate CutOff(jobs: seq<Job>, u: string) {
    exists c: nat, e: nat ::
      c < |jobs| && IsCrawlOf(jobs[c], u) && jobs[c].state == Done
      && e < |jobs| && jobs[e].kind == Expand(c) && jobs[e].state == Error && AtLeast(jobs, u, jobs[e].depth)
  }

  /** The user's opponents are known one deeper all the same, by way of other users or an earlier expansion. */
  ghost predicate OpponentsKnown(run: Run, jobs: seq<Job>, u: string) {
    forall v: string, d: nat :: AtMost(jobs, u, d) && Edge(run, u, v) && d + 1 <= run.maxDepth ==>
      AtMost(jobs, v, d + 1)
  }

  /** Users that pass the crawl on: acquired, and not cut off without harm being made good. */
  ghost function PassingOn(run: Run, jobs: seq<Job>): iset<string> {
    iset u | !IsFailed(jobs, u) && (CutOff(jobs, u) ==> OpponentsKnown(run, jobs, u))
  }

  ghost predicate Fits(run: Run, jobs: seq<Job>) {
    |Within(run, NotFailed(jobs))| <= run.maxUsers && |Within(run, NotFailed(jobs))| <= run.maxJobs
  }

  lemma DepthIsWalk(run: Run, jobs: seq<Job>, i: nat, u: string)
    requires Inv(run, jobs) && i < |jobs| && Owns(jobs, i, u)
    ensures jobs[i].depth <= run.maxDepth && Walk(run, NotFailed(jobs), u, jobs[i].depth)
  {
    hide HeldOk, CapsOk, QueuedOk, RelaxedOk, Walk;
    assert DepthOk(run, jobs, u, jobs[i].depth);
    forall v | v in DoneUsers(jobs)
      ensures v in NotFailed(jobs)
    {
      DoneNotFailed(jobs, v);
    }
    WalkMono(run, DoneUsers(jobs), NotFailed(jobs), u, jobs[i].depth);
  }

  lemma DoneNotFailed(jobs: seq<Job>, v: string)
    requires UniqueCrawl(jobs) && IsDone(jobs, v)
    ensures !IsFailed(jobs, v)
  {
    var d: nat :| d < |jobs| && IsCrawlOf(jobs[d], v) && jobs[d].state == Done;
    forall i: nat | i < |jobs| && IsCrawlOf(jobs[i], v)
      ensures i == d
    {
      UniqueRow(jobs, v, d, i);
    }
  }

  /** With nothing left to do, the expansion at the least depth of an acquired user has run: well, or into an error. */
  lemma LeastExpansion(run: Run, jobs: seq<Job>, u: string, d: nat) returns (e: nat)
    requires Inv(run, jobs) && Quiescent(jobs) && AtMost(jobs, u, d) && !IsFailed(jobs, u)
    ensures e < |jobs| && jobs[e].depth <= d
    ensures Relaxed(run, jobs, u, jobs[e].depth) || CutOff(jobs, u)
  {
    hide DepthsOk, HeldOk, CapsOk, Covered;
    var low: nat :| low < |jobs| && Owns(jobs, low, u) && jobs[low].depth <= d;
    var c := OwnerHasCrawl(jobs, u);
    assert jobs[c].state == Done;
    e :| e < |jobs| && jobs[e].kind == Expand(c) && AtLeast(jobs, u, jobs[e].depth);
    assert ParentOk(jobs, e) && Owns(jobs, e, u);
  }

  /** With nothing left to do, a user that passes on has covered its opponents one deeper. */
  lemma SettledEdge(run: Run, jobs: seq<Job>, u: string, v: string, d: nat)
    requires Inv(run, jobs) && Quiescent(jobs)
    requires AtMost(jobs, u, d) && u in PassingOn(run, jobs) && Edge(run, u, v) && d + 1 <= run.maxDepth
    ensures Covered(run, jobs, v, d + 1)
  {
    hide Inv, Quiescent, AtMost, Full, Absent, IsFailed, CutOff, Edge;
    var e := LeastExpansion(run, jobs, u, d);
    if !CutOff(jobs, u) { RelaxedWeaken(run, jobs, u, jobs[e].depth, d); }
  }

  /** All names a crawl can meet. */
  ghost function Universe(run: Run): set<string> {
    {Lower(run.seed)} + (set u, k: nat | u in run.opponents && k < |run.opponents[u]| :: Lower(run.opponents[u][k]))
  }

  /** The users within reach: a walk of at most maxDepth edges through users of `via`. */
  ghost function Within(run: Run, via: iset<string>): set<string> {
    set u | u in Universe(run) && Near(run, via, u)
  }

  ghost predicate Near(run: Run, via: iset<string>, u: string) {
    exists n: nat :: n <= run.maxDepth && Walk(run, via, u, n)
  }

  lemma WalkInUniverse(run: Run, via: iset<string>, u: string, n: nat)
    requires Walk(run, via, u, n)
    ensures u in Universe(run)
  {
    var walk :| IsWalk(run, via, walk) && |walk| == n + 1 && walk[n] == u;
    if n > 0 {
      assert walk[n - 1] in via && Edge(run, walk[n - 1], walk[n - 1 + 1]);
      var k: nat :| k < |run.Opponents(walk[n - 1])| && Lower(run.Opponents(walk[n - 1])[k]) == u;
    }
  }

  lemma UsersWithin(run: Run, jobs: seq<Job>)
    requires Inv(run, jobs)
    ensures CrawlUsers(jobs) <= Within(run, NotFailed(jobs))
  {
    hide Inv, Walk, Universe;
    forall u | u in CrawlUsers(jobs)
      ensures u in Within(run, NotFailed(jobs))
    {
      var i: nat :| i < |jobs| && jobs[i].kind.Crawl? && Lower(jobs[i].kind.target) == u;
      DepthIsWalk(run, jobs, i, u);
      WalkInUniverse(run, NotFailed(jobs), u, jobs[i].depth);
    }
  }

  lemma CrawlsOfAppend(front: seq<Job>, row: Job)
    ensures CrawlRows(front + [row]) == CrawlRows(front) + (if row.kind.Crawl? then {|front|} else {})
    ensures CrawlUsers(front + [row]) == CrawlUsers(front) + (if row.kind.Crawl? then {Lower(row.kind.target)} else {})
  {
    var jobs := front + [row];
    assert jobs[|front|] == row;
    forall u | u in CrawlUsers(front)
      ensures u in CrawlUsers(jobs)
    {
      var i: nat :| i < |front| && front[i].kind.Crawl? && Lower(front[i].kind.target) == u;
      assert jobs[i] == front[i];
    }
    assert forall i: nat :: i < |front| ==> jobs[i] == front[i];
  }

  lemma {:induction false} OneRowPerUser(jobs: seq<Job>)
    requires UniqueCrawl(jobs)
    ensures |CrawlRows(jobs)| == |CrawlUsers(jobs)|
  {
    if jobs == [] {
      assert CrawlRows(jobs) == {} && CrawlUsers(jobs) == {};
    } else {
      var n := |jobs| - 1;
      var front := jobs[..n];
      assert jobs == front + [jobs[n]];
      LastUserIsNew(jobs);
      OneRowPerUser(front);
      CrawlsOfAppend(front, jobs[n]);
      hide CrawlRows, CrawlUsers, UniqueCrawl, Lower;
      assert |front| !in CrawlRows(front) by { RowsAreBelow(front); }
    }
  }

  lemma RowsAreBelow(jobs: seq<Job>)
    ensures |jobs| !in CrawlRows(jobs)
  {
  }

  lemma LastUserIsNew(jobs: seq<Job>)
    requires UniqueCrawl(jobs) && jobs != []
    ensures var n := |jobs| - 1;
            UniqueCrawl(jobs[..n]) && (jobs[n].kind.Crawl? ==> Lower(jobs[n].kind.target) !in CrawlUsers(jobs[..n]))
  {
  }

  lemma AbsentNotCrawled(jobs: seq<Job>, v: string)
    requires Absent(jobs, v)
    ensures v !in CrawlUsers(jobs)
  {
    forall i: nat | i < |jobs| && jobs[i].kind.Crawl?
      ensures Lower(jobs[i].kind.target) != v
    {
      assert !Owns(jobs, i, v);
    }
  }

  /** While a user within reach is missing and all within reach fit the caps, no cap is reached. */
  lemma MissingMeansRoom(run: Run, jobs: seq<Job>, v: string)
    requires Inv(run, jobs) && v in Within(run, NotFailed(jobs)) && Absent(jobs, v)
    requires |Within(run, NotFailed(jobs))| <= run.maxUsers && |Within(run, NotFailed(jobs))| <= run.maxJobs
    ensures !Full(run, jobs)
  {
    hide Inv, Within;
    InvRows(run, jobs);
    UsersWithin(run, jobs);
    OneRowPerUser(jobs);
    AbsentNotCrawled(jobs, v);
    var within := Within(run, NotFailed(jobs));
    SubsetSize(CrawlUsers(jobs), within - {v});
  }

  /** Chaotic relaxation is complete: the k-th user of any walk through users that pass on is known no deeper than k. */
  lemma {:induction false} WalkReached(run: Run, jobs: seq<Job>, walk: seq<string>, k: nat)
    requires Inv(run, jobs) && Quiescent(jobs) && Fits(run, jobs)
    requires IsWalk(run, PassingOn(run, jobs), walk) && k < |walk| && k <= run.maxDepth
    ensures AtMost(jobs, walk[k], k)
  {
    hide Inv, Quiescent, Within, IsFailed, CutOff, OpponentsKnown;
    if k == 0 {
      SeedReached(run, jobs);
    } else {
      WalkReached(run, jobs, walk, k - 1);
      assert walk[k - 1] in PassingOn(run, jobs) && Edge(run, walk[k - 1], walk[k - 1 + 1]);
      SettledEdge(run, jobs, walk[k - 1], walk[k], k - 1);
      if !AtMost(jobs, walk[k], k) {
        var prefix := walk[..k + 1];
        assert IsWalk(run, NotFailed(jobs), prefix) && |prefix| == k + 1 && prefix[k] == walk[k];
        WithinByWalk(run, NotFailed(jobs), walk[k], k);
        MissingMeansRoom(run, jobs, walk[k]);
      }
    }
  }

  lemma SeedReached(run: Run, jobs: seq<Job>)
    requires Inv(run, jobs)
    ensures AtMost(jobs, Lower(run.seed), 0)
  {
    assert Owns(jobs, 0, Lower(run.seed));
  }

  lemma WithinByWalk(run: Run, via: iset<string>, u: string, n: nat)
    requires Walk(run, via, u, n) && n <= run.maxDepth
    ensures u in Within(run, via)
  {
    WalkInUniverse(run, via, u, n);
  }

  /** Every user has exactly its shortest-path depth in the graph whose failed users lead nowhere. */
  ghost predicate Exact(run: Run, jobs: seq<Job>) {
    forall u, n: nat :: n <= run.maxDepth ==>
      (Known(jobs, u) == Some(n) <==> Distance(run, NotFailed(jobs), u, n))
  }

  lemma KnownIsWalk(run: Run, jobs: seq<Job>, u: string)
    requires Inv(run, jobs) && Known(jobs, u).Some?
    ensures Known(jobs, u).value <= run.maxDepth && Walk(run, NotFailed(jobs), u, Known(jobs, u).value)
  {
    hide Inv;
    KnownMeaning(jobs, u);
    var d := Known(jobs, u).value;
    assert AtMost(jobs, u, d) && AtLeast(jobs, u, d);
    var w: nat :| w < |jobs| && Owns(jobs, w, u) && jobs[w].depth <= d;
    DepthIsWalk(run, jobs, w, u);
  }

  /** Errors far away do no harm: a user one of whose shortest walks passes on all the way holds its distance. */
  lemma DistancesAwayFromErrors(run: Run, jobs: seq<Job>, u: string, n: nat)
    requires Inv(run, jobs) && Quiescent(jobs) && Fits(run, jobs) && n <= run.maxDepth
    requires Distance(run, NotFailed(jobs), u, n) && Walk(run, PassingOn(run, jobs), u, n)
    ensures Known(jobs, u) == Some(n)
  {
    hide Inv, Quiescent, Fits, NotFailed, PassingOn;
    var walk :| IsWalk(run, PassingOn(run, jobs), walk) && |walk| == n + 1 && walk[n] == u;
    WalkReached(run, jobs, walk, n);
    KnownMeaning(jobs, u);
    KnownIsWalk(run, jobs, u);
    var d := Known(jobs, u).value;
    assert AtLeast(jobs, u, d);
  }

  /** Nobody is cut off to any harm. */
  ghost predicate Mended(run: Run, jobs: seq<Job>) {
    forall u :: CutOff(jobs, u) ==> OpponentsKnown(run, jobs, u)
  }

  lemma FitsImpliesExact(run: Run, jobs: seq<Job>, u: string, n: nat)
    requires Inv(run, jobs) && Quiescent(jobs) && Fits(run, jobs) && Mended(run, jobs) && n <= run.maxDepth
    ensures Known(jobs, u) == Some(n) <==> Distance(run, NotFailed(jobs), u, n)
  {
    assert PassingOn(run, jobs) == NotFailed(jobs);
    hide Inv, Quiescent, Fits, Within, NotFailed, PassingOn, Mended;
    var via := NotFailed(jobs);
    KnownMeaning(jobs, u);
    forall m: nat | m <= run.maxDepth && Walk(run, via, u, m)
      ensures AtMost(jobs, u, m)
    {
      var walk :| IsWalk(run, via, walk) && |walk| == m + 1 && walk[m] == u;
      WalkReached(run, jobs, walk, m);
    }
    if Known(jobs, u).Some? {
      KnownIsWalk(run, jobs, u);
      var d := Known(jobs, u).value;
      assert AtLeast(jobs, u, d);
      assert forall m: nat :: m < d ==> !AtMost(jobs, u, m);
      assert Distance(run, via, u, d);
      assert d < n ==> !Distance(run, via, u, n);
    } else {
      assert !AtMost(jobs, u, n);
    }
  }

  lemma {:induction false} NearHasDistance(run: Run, via: iset<string>, u: string, n: nat) returns (d: nat)
    requires Walk(run, via, u, n)
    ensures d <= n && Distance(run, via, u, d)
  {
    if m: nat :| m < n && Walk(run, via, u, m) {
      d := NearHasDistance(run, via, u, m);
    } else {
      d := n;
    }
  }

  /**
   The crawl's promise and its exact limit. When all work is finished, every user within max_depth holds its
   shortest-path depth (and nobody else is in the table) if and only if the users within reach fit both caps and
   whoever was cut off by a failed expansion has its opponents known one deeper all the same.
   */
  lemma SettledDepthsAreDistances(run: Run, jobs: seq<Job>)
    requires Inv(run, jobs) && Quiescent(jobs)
    ensures Exact(run, jobs) <==> Fits(run, jobs) && Mended(run, jobs)
  {
    hide Inv, Quiescent, Within, NotFailed, Fits, Mended;
    if Fits(run, jobs) && Mended(run, jobs) {
      forall u, n: nat | n <= run.maxDepth
        ensures Known(jobs, u) == Some(n) <==> Distance(run, NotFailed(jobs), u, n)
      {
        FitsImpliesExact(run, jobs, u, n);
      }
    }
    if Exact(run, jobs) {
      ExactImpliesFits(run, jobs);
      ExactImpliesMended(run, jobs);
    }
  }

  /** The same of every run: any interleaving that reaches a table with no work left, setbacks included. */
  lemma RunsSettleAtDistances(run: Run, tables: seq<seq<Job>>, steps: seq<Step>)
    requires run.maxUsers > 0 && run.maxJobs > 0 && IsRun(run, tables, steps)
    requires Quiescent(tables[|steps|])
    ensures Exact(run, tables[|steps|]) <==> Fits(run, tables[|steps|]) && Mended(run, tables[|steps|])
  {
    hide Inv, Exact, Fits, Mended;
    RunKeepsInv(run, tables, steps, |steps|);
    SettledDepthsAreDistances(run, tables[|steps|]);
  }

  lemma ExactImpliesMended(run: Run, jobs: seq<Job>)
    requires Inv(run, jobs) && Exact(run, jobs)
    ensures Mended(run, jobs)
  {
    hide Inv, Walk, Distance, IsFailed, Exact;
    InvRows(run, jobs);
    forall u, v, d: nat | CutOff(jobs, u) && AtMost(jobs, u, d) && Edge(run, u, v) && d + 1 <= run.maxDepth
      ensures AtMost(jobs, v, d + 1)
    {
      DoneNotFailed(jobs, u);
      OpponentIsExact(run, jobs, u, v, d);
    }
  }

  /** Exact depths pass from a user that did not fail to its opponents. */
  lemma OpponentIsExact(run: Run, jobs: seq<Job>, u: string, v: string, d: nat)
    requires Inv(run, jobs) && Exact(run, jobs) && !IsFailed(jobs, u)
    requires AtMost(jobs, u, d) && Edge(run, u, v) && d + 1 <= run.maxDepth
    ensures AtMost(jobs, v, d + 1)
  {
    hide Inv, Walk, Distance, IsFailed, Edge;
    KnownMeaning(jobs, u);
    KnownIsWalk(run, jobs, u);
    var k := Known(jobs, u).value;
    assert AtLeast(jobs, u, k) && k <= d;
    WalkExtend(run, NotFailed(jobs), u, k, v);
    var n := NearHasDistance(run, NotFailed(jobs), v, k + 1);
    assert Known(jobs, v) == Some(n);
    KnownMeaning(jobs, v);
    hide Exact, AtLeast, Known, KnownUpTo, Absent;
    AtMostWeaken(jobs, v, n, d + 1);
  }

  lemma ExactImpliesFits(run: Run, jobs: seq<Job>)
    requires Inv(run, jobs) && Exact(run, jobs)
    ensures Fits(run, jobs)
  {
    hide DepthsOk, HeldOk, QueuedOk, RelaxedOk, Known, Walk, NotFailed;
    var within := Within(run, NotFailed(jobs));
    forall u | u in within
      ensures u in CrawlUsers(jobs)
    {
      var n: nat :| n <= run.maxDepth && Walk(run, NotFailed(jobs), u, n);
      var d := NearHasDistance(run, NotFailed(jobs), u, n);
      assert Known(jobs, u) == Some(d);
      KnownMeaning(jobs, u);
      var c := OwnerHasCrawl(jobs, u);
    }
    SubsetSize(within, CrawlUsers(jobs));
    OneRowPerUser(jobs);
  }

  // A failed expansion: the seed is acquired, its only expansion ends in error, its opponent stays unknown.

  const LONE := Run("a", map["a" := ["b"]], 1, 5, 5, 0)

  function SeedAt(state: JobState, phase: Phase): Job { Job(Crawl("a"), 0, state, phase, 0) }

  function ExpansionAt(state: JobState, phase: Phase): Job { Job(Expand(0), 0, state, phase, 0) }

  const FAILING: seq<Step> := [Claim(0), ReadDepth(0), Publish(0), Finish(0, Done), Claim(1), Finish(1, Error)]

  const FAILED: seq<seq<Job>> := [
    [NewCrawl("a", 0)], [SeedAt(InProgress, Claimed(0))], [SeedAt(InProgress, DepthRead(0))],
    [SeedAt(InProgress, Published), NewExpansion(0, 0)], [SeedAt(Done, Idle), NewExpansion(0, 0)],
    [SeedAt(Done, Idle), ExpansionAt(InProgress, Claimed(0))], [SeedAt(Done, Idle), ExpansionAt(Error, Idle)]]

  lemma FailingIsARun()
    ensures IsRun(LONE, FAILED, FAILING)
  {
    SeedIsAcquired();
    ExpansionFails();
    hide Enabled, Apply;
  }

  lemma SeedIsAcquired()
    ensures Enabled(FAILED[0], Claim(0)) && Apply(LONE, FAILED[0], Claim(0)) == FAILED[1]
    ensures Enabled(FAILED[1], ReadDepth(0)) && Apply(LONE, FAILED[1], ReadDepth(0)) == FAILED[2]
    ensures Enabled(FAILED[2], Publish(0)) && Apply(LONE, FAILED[2], Publish(0)) == FAILED[3]
  {
    hide Known, ExpandFrontier;
    assert !HasExpansion(FAILED[2], 0, 0);
  }

  lemma ExpansionFails()
    ensures Enabled(FAILED[3], Finish(0, Done)) && Apply(LONE, FAILED[3], Finish(0, Done)) == FAILED[4]
    ensures Enabled(FAILED[4], Claim(1)) && Apply(LONE, FAILED[4], Claim(1)) == FAILED[5]
    ensures Enabled(FAILED[5], Finish(1, Error)) && Apply(LONE, FAILED[5], Finish(1, Error)) == FAILED[6]
  {
    hide Known, ExpandFrontier;
  }

  lemma OnlyTheSeedIsKnown()
    ensures CutOff(FAILED[6], "a") && Known(FAILED[6], "b").None? && "a" in NotFailed(FAILED[6])
  {
    var jobs := FAILED[6];
    assert Lower("a") == "a";
    assert Owns(jobs, 0, "a") && !Owns(jobs, 0, "b") && !Owns(jobs, 1, "b");
    KnownMeaning(jobs, "b");
    assert IsCrawlOf(jobs[0], "a") && jobs[1].kind == Expand(0) && AtLeast(jobs, "a", 0);
  }

  lemma OpponentIsNear(via: iset<string>)
    requires "a" in via
    ensures Distance(LONE, via, "b", 1)
  {
    assert Lower("a") == "a" && Lower("b") == "b";
    assert LONE.Opponents("a")[0] == "b";
    assert Edge(LONE, "a", "b");
    WalkStart(LONE, via);
    WalkExtend(LONE, via, "a", 0, "b");
    assert !Walk(LONE, via, "b", 0);
  }

  /** The run ends with no work left, caps to spare, and an opponent at distance 1 that is not in the table. */
  lemma FailedExpansionLosesOpponents()
    ensures IsRun(LONE, FAILED, FAILING) && Quiescent(FAILED[6])
    ensures CutOff(FAILED[6], "a") && Known(FAILED[6], "b").None? && Distance(LONE, NotFailed(FAILED[6]), "b", 1)
  {
    FailingIsARun();
    hide IsRun, CutOff, Known, NotFailed, Distance;
    OnlyTheSeedIsKnown();
    OpponentIsNear(NotFailed(FAILED[6]));
  }

  /*
   * The work ends.
   */

  /** Steps a row still needs if nothing sets it back. */
  function Remaining(job: Job): nat {
    if job.state.Terminal() then 0
    else if job.state == Paused then 5
    else match job.phase
         case Idle => 4
         case Claimed(_) => 3
         case DepthRead(_) => 2
         case Published => 1
  }

  /** What a row may still cost: its remaining steps, and five for each retry it has left. */
  function Cost(run: Run, job: Job): nat {
    Remaining(job) + 5 * if job.retries < run.maxRetries then run.maxRetries - job.retries else 0
  }

  function Work(run: Run, jobs: seq<Job>): nat {
    if jobs == [] then 0 else Work(run, jobs[..|jobs| - 1]) + Cost(run, jobs[|jobs| - 1])
  }

  lemma {:induction false} WorkOfUpdate(run: Run, jobs: seq<Job>, i: nat, job: Job)
    requires i < |jobs|
    ensures Work(run, jobs[i := job]) == Work(run, jobs) - Cost(run, jobs[i]) + Cost(run, job)
  {
    hide Cost;
    var n := |jobs| - 1;
    if i == n {
      assert jobs[i := job][..n] == jobs[..n];
    } else {
      WorkOfUpdate(run, jobs[..n], i, job);
      assert jobs[i := job][..n] == jobs[..n][i := job];
    }
  }

  /** What a new row may cost in all, and one more. */
  function RowBound(run: Run): nat { 5 + 5 * run.maxRetries }

  lemma {:induction false} WorkOfExtends(run: Run, a: seq<Job>, b: seq<Job>)
    requires Extends(a, b)
    ensures Work(run, b) == Work(run, a) + (RowBound(run) - 1) * (|b| - |a|)
  {
    if |b| > |a| {
      LastIsNew(run, a, b);
      hide Extends, Cost, RowBound;
      WorkOfExtends(run, a, b[..|b| - 1]);
      OneMoreTime(RowBound(run) - 1, |b| - |a|);
    } else if |a| > 0 {
      LastIsSame(run, a, b);
      hide Extends, Cost, RowBound;
      WorkOfExtends(run, a[..|a| - 1], b[..|b| - 1]);
    }
  }

  lemma LastIsNew(run: Run, a: seq<Job>, b: seq<Job>)
    requires Extends(a, b) && |b| > |a|
    ensures Extends(a, b[..|b| - 1]) && Cost(run, b[|b| - 1]) == RowBound(run) - 1
  {
  }

  lemma LastIsSame(run: Run, a: seq<Job>, b: seq<Job>)
    requires Extends(a, b) && |b| == |a| > 0
    ensures Extends(a[..|a| - 1], b[..|b| - 1]) && Cost(run, b[|b| - 1]) == Cost(run, a[|a| - 1])
  {
  }

  lemma OneMoreTime(c: int, n: int)
    ensures c * n == c * (n - 1) + c
  {
  }

  /** Identities a row can have: an acquisition of a user, or an expansion of it at a depth. */
  ghost function KeySpace(run: Run): set<(string, int)> {
    set u, d: int | u in Universe(run) && -1 <= d <= run.maxDepth :: (u, d)
  }

  ghost function Key(jobs: seq<Job>, i: nat): (string, int)
    requires i < |jobs|
  {
    (Subject(jobs, i), if jobs[i].kind.Crawl? then -1 else jobs[i].depth)
  }

  ghost function Keys(jobs: seq<Job>, n: nat): set<(string, int)>
    requires n <= |jobs|
  {
    set i: nat | i < n :: Key(jobs, i)
  }

  lemma KeysDiffer(jobs: seq<Job>, i: nat, j: nat)
    requires Rows(jobs) && i < j < |jobs|
    ensures Key(jobs, i) != Key(jobs, j)
  {
    if Key(jobs, i) == Key(jobs, j) && jobs[i].kind.Expand? {
      UniqueRow(jobs, Subject(jobs, i), jobs[i].kind.parent, jobs[j].kind.parent);
    }
  }

  lemma {:induction false} KeysCount(jobs: seq<Job>, n: nat)
    requires Rows(jobs) && n <= |jobs|
    ensures |Keys(jobs, n)| == n
  {
    hide Rows, Key;
    if n == 0 {
      assert Keys(jobs, 0) == {};
    } else {
      KeysCount(jobs, n - 1);
      assert Keys(jobs, n) == Keys(jobs, n - 1) + {Key(jobs, n - 1)};
      forall i: nat | i < n - 1
        ensures Key(jobs, i) != Key(jobs, n - 1)
      {
        KeysDiffer(jobs, i, n - 1);
      }
    }
  }

  /** A table never has more rows than there are identities. */
  lemma TableBounded(run: Run, jobs: seq<Job>)
    requires Inv(run, jobs)
    ensures |jobs| <= |KeySpace(run)|
  {
    hide HeldOk, CapsOk, QueuedOk, RelaxedOk, Walk, Universe;
    KeysCount(jobs, |jobs|);
    forall i: nat | i < |jobs|
      ensures Key(jobs, i) in KeySpace(run)
    {
      var u := Subject(jobs, i);
      SubjectOwns(jobs, i, u);
      assert DepthOk(run, jobs, u, jobs[i].depth);
      WalkInUniverse(run, DoneUsers(jobs), u, jobs[i].depth);
    }
    SubsetSize(Keys(jobs, |jobs|), KeySpace(run));
  }

  ghost function Potential(run: Run, jobs: seq<Job>): int {
    RowBound(run) * (|KeySpace(run)| - |jobs|) + Work(run, jobs)
  }

  lemma CommittedExtends(run: Run, jobs: seq<Job>, i: nat)
    requires Inv(run, jobs) && Enabled(jobs, Publish(i))
    ensures Extends(jobs, Committed(run, jobs, i))
  {
    if jobs[i].kind.Crawl? {
    } else {
      hide Inv;
      PublishExpandCommit(run, jobs, i);
    }
  }

  /** A step that is not a setback, a limited retry included, uses up potential; a setback returns at most four. */
  lemma StepSpends(run: Run, jobs: seq<Job>, step: Step)
    requires Inv(run, jobs) && Enabled(jobs, step) && WithinRetries(run, jobs, step)
    ensures !step.Setback() ==> Potential(run, Apply(run, jobs, step)) < Potential(run, jobs)
    ensures step.Setback() ==> Potential(run, Apply(run, jobs, step)) <= Potential(run, jobs) + 4
  {
    hide Inv, KeySpace, Committed, Rows, Extends, Settle;
    var i := step.i;
    InvPhase(run, jobs, i);
    if step.Publish? {
      PublishSpends(run, jobs, i);
    } else {
      StepUpdatesOneRow(run, jobs, step);
      WorkOfUpdate(run, jobs, i, Apply(run, jobs, step)[i]);
    }
  }

  lemma PublishSpends(run: Run, jobs: seq<Job>, i: nat)
    requires Inv(run, jobs) && Enabled(jobs, Publish(i))
    ensures Potential(run, Apply(run, jobs, Publish(i))) < Potential(run, jobs)
  {
    hide KeySpace, Committed, Rows, Extends, Settle;
    InvPhase(run, jobs, i);
    hide Inv;
    var after := Committed(run, jobs, i);
    CommittedExtends(run, jobs, i);
    WorkOfExtends(run, jobs, after);
    ExtendsSameRow(jobs, after, i);
    WorkOfUpdate(run, after, i, Marked(after[i], InProgress, Published));
    Distributes(RowBound(run), |KeySpace(run)| - |jobs|, |after| - |jobs|);
  }

  lemma Distributes(c: int, x: int, n: int)
    ensures c * (x - n) == c * x - c * n && (c - 1) * n == c * n - n
  {
  }

  lemma InvPhase(run: Run, jobs: seq<Job>, i: nat)
    requires Inv(run, jobs) && i < |jobs|
    ensures PhaseOk(jobs[i])
  {}

  lemma ExtendsSameRow(a: seq<Job>, b: seq<Job>, i: nat)
    requires Extends(a, b) && i < |a|
    ensures i < |b| && b[i].state == a[i].state && b[i].phase == a[i].phase && b[i].retries == a[i].retries
  {}

  lemma StepUpdatesOneRow(run: Run, jobs: seq<Job>, step: Step)
    requires Enabled(jobs, step) && !step.Publish?
    ensures |Apply(run, jobs, step)| == |jobs|
    ensures Apply(run, jobs, step) == jobs[step.i := Apply(run, jobs, step)[step.i]]
    ensures step.Finish? ==> Apply(run, jobs, step)[step.i].state == step.outcome
    ensures step.SetBack? ==> Apply(run, jobs, step)[step.i].phase == Idle
    ensures step.SetBack? ==> Apply(run, jobs, step)[step.i].state == step.to
    ensures Apply(run, jobs, step)[step.i].retries == jobs[step.i].retries + if step.Retry() then 1 else 0
  {}

  function Setbacks(steps: seq<Step>): nat {
    if steps == [] then 0
    else Setbacks(steps[..|steps| - 1]) + if steps[|steps| - 1].Setback() then 1 else 0
  }

  lemma {:induction false} RunSpends(run: Run, tables: seq<seq<Job>>, steps: seq<Step>, k: nat)
    requires run.maxUsers > 0 && run.maxJobs > 0 && IsRun(run, tables, steps) && k <= |steps|
    ensures Potential(run, tables[k]) + k <= Potential(run, tables[0]) + 5 * Setbacks(steps[..k])
  {
    hide Inv, Potential, Apply, Enabled;
    if k > 0 {
      RunSpends(run, tables, steps, k - 1);
      RunKeepsInv(run, tables, steps, k - 1);
      StepSpends(run, tables[k - 1], steps[k - 1]);
      assert steps[..k][..k - 1] == steps[..k - 1];
    }
  }

  /**
   No run is longer than a bound fixed by the graph, max_depth and the retry limit, plus five steps per
   setback; transient failures are within the bound.
   */
  lemma RunsAreBounded(run: Run, tables: seq<seq<Job>>, steps: seq<Step>)
    requires run.maxUsers > 0 && run.maxJobs > 0 && IsRun(run, tables, steps)
    ensures |steps| <= (5 + 5 * run.maxRetries) * |KeySpace(run)| + 5 * Setbacks(steps)
  {
    FirstPotential(run);
    hide Inv, KeySpace, Potential, Enabled, Apply, WithinRetries;
    RunSpends(run, tables, steps, |steps|);
    assert steps[..|steps|] == steps;
    RunKeepsInv(run, tables, steps, |steps|);
    LastPotential(run, tables[|steps|]);
  }

  lemma FirstPotential(run: Run)
    ensures Potential(run, [NewCrawl(run.seed, 0)]) < RowBound(run) * |KeySpace(run)|
  {
    hide KeySpace;
    var jobs := [NewCrawl(run.seed, 0)];
    assert jobs[..0] == [] && Work(run, jobs) == RowBound(run) - 1;
    OneMoreTime(RowBound(run), |KeySpace(run)|);
  }

  lemma LastPotential(run: Run, jobs: seq<Job>)
    requires Inv(run, jobs)
    ensures Potential(run, jobs) >= 0
  {
    hide KeySpace, Inv;
    TableBounded(run, jobs);
    NonNegative(RowBound(run), |KeySpace(run)| - |jobs|);
  }

  lemma NonNegative(c: nat, n: nat)
    ensures c * n >= 0
  {
  }

  /** Work is never stuck: a worker can go on with an unfinished row or, if it is paused, it can be unblocked. */
  lemma WorkNeverStuck(run: Run, jobs: seq<Job>) returns (step: Step)
    requires Inv(run, jobs) && !Quiescent(jobs)
    ensures Enabled(jobs, step) && !step.Setback() && !step.Retry()
    ensures step.Unblock? ==> jobs[step.i].state == Paused
  {
    hide Inv;
    InvRows(run, jobs);
    var i: nat :| i < |jobs| && !jobs[i].state.Terminal();
    assert PhaseOk(jobs[i]) && ParentOk(jobs, i);
    if jobs[i].kind.Expand? && !jobs[jobs[i].kind.parent].state.Terminal() {
      i := jobs[i].kind.parent;
      assert PhaseOk(jobs[i]);
    }
    step := match jobs[i].phase
      case Idle => if jobs[i].state == Paused then Unblock(i) else Claim(i)
      case Claimed(_) => if ParentIn(jobs, i, {Done}) then ReadDepth(i) else Finish(i, Skipped)
      case DepthRead(_) => Publish(i)
      case Published => Finish(i, Done);
  }
}
