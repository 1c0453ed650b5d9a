/**
 Every interleaving of workers over one crawl's job table: claims, stale depth reads, committed
 expansions and promotions, finished attempts, and attempts that are set back and recovered.
 */
module DiscoveryRuns {
  import opened Common
  import opened Discovery

  /*
   * The reference: walks in the opponent graph.
   */

  ghost predicate Edge(run: Run, u: string, v: string) {
    exists k :: 0 <= k < |run.Opponents(u)| && Lower(run.Opponents(u)[k]) == v
  }

  /** A walk from the seed whose every user but the last lies in `via`. */
  ghost predicate IsWalk(run: Run, via: iset<string>, walk: seq<string>) {
    && |walk| > 0
    && walk[0] == Lower(run.seed)
    && forall k :: 0 <= k < |walk| - 1 ==> walk[k] in via && Edge(run, walk[k], walk[k + 1])
  }

  ghost predicate Walk(run: Run, via: iset<string>, u: string, n: nat) {
    exists walk :: IsWalk(run, via, walk) && |walk| == n + 1 && walk[n] == u
  }

  ghost predicate Distance(run: Run, via: iset<string>, u: string, n: nat) {
    Walk(run, via, u, n) && forall m: nat :: m < n ==> !Walk(run, via, u, m)
  }

  lemma WalkStart(run: Run, via: iset<string>)
    ensures Walk(run, via, Lower(run.seed), 0)
  {
    var walk := [Lower(run.seed)];
    assert IsWalk(run, via, walk) && walk[0] == Lower(run.seed);
  }

  lemma WalkExtend(run: Run, via: iset<string>, u: string, n: nat, v: string)
    requires Walk(run, via, u, n) && u in via && Edge(run, u, v)
    ensures Walk(run, via, v, n + 1)
  {
    var walk :| IsWalk(run, via, walk) && |walk| == n + 1 && walk[n] == u;
    var longer := walk + [v];
    assert IsWalk(run, via, longer) && |longer| == n + 2 && longer[n + 1] == v;
  }

  lemma WalkMono(run: Run, via: iset<string>, more: iset<string>, u: string, n: nat)
    requires Walk(run, via, u, n) && via <= more
    ensures Walk(run, more, u, n)
  {
    var walk :| IsWalk(run, via, walk) && |walk| == n + 1 && walk[n] == u;
    assert IsWalk(run, more, walk);
  }

  ghost predicate IsDone(jobs: seq<Job>, u: string) {
    exists i: nat :: i < |jobs| && IsCrawlOf(jobs[i], u) && jobs[i].state == Done
  }

  ghost function DoneUsers(jobs: seq<Job>): iset<string> {
    iset u | IsDone(jobs, u)
  }

  /*
   * What every reachable table satisfies.
   */

  ghost predicate Refs(jobs: seq<Job>) {
    forall i: nat :: i < |jobs| && jobs[i].kind.Expand? ==>
      jobs[i].kind.parent < |jobs| && jobs[jobs[i].kind.parent].kind.Crawl?
  }

  ghost predicate SeedRow(run: Run, jobs: seq<Job>) {
    |jobs| > 0 && IsCrawlOf(jobs[0], Lower(run.seed)) && jobs[0].depth == 0
  }

  /** At most one acquisition row per lower-cased user. */
  ghost predicate UniqueCrawl(jobs: seq<Job>) {
    forall i: nat, j: nat :: i < j < |jobs| && jobs[i].kind.Crawl? && jobs[j].kind.Crawl? ==>
      Lower(jobs[i].kind.target) != Lower(jobs[j].kind.target)
  }

  ghost predicate UniqueExpansion(jobs: seq<Job>) {
    forall i: nat, j: nat :: i < j < |jobs| && jobs[i].kind.Expand? && jobs[i].kind == jobs[j].kind ==>
      jobs[i].depth != jobs[j].depth
  }

  ghost predicate PhaseOk(job: Job) {
    (job.state == InProgress <==> job.phase != Idle)
  }

  /** Expansions run only under a finished acquisition, and are retired only under a failed one. */
  ghost predicate ParentOk(jobs: seq<Job>, e: nat)
    requires e < |jobs|
  {
    jobs[e].kind.Expand? && jobs[e].kind.parent < |jobs| ==>
      var parent := jobs[jobs[e].kind.parent];
      && (jobs[e].state == InProgress ==> parent.state.Terminal())
      && (jobs[e].phase.DepthRead? || jobs[e].phase.Published? || jobs[e].state == Done ==> parent.state == Done)
      && (jobs[e].state == Skipped ==> parent.state == Error || parent.state == Skipped)
  }

  ghost predicate Rows(jobs: seq<Job>) {
    && Refs(jobs) && UniqueCrawl(jobs) && UniqueExpansion(jobs)
    && (forall i: nat :: i < |jobs| ==> PhaseOk(jobs[i]) && ParentOk(jobs, i))
  }

  /** Every recorded depth is the length of a real walk through finished users, within the bound. */
  ghost predicate DepthOk(run: Run, jobs: seq<Job>, u: string, d: nat) {
    d <= run.maxDepth && Walk(run, DoneUsers(jobs), u, d)
  }

  ghost predicate DepthsOk(run: Run, jobs: seq<Job>) {
    forall i: nat, u: string :: i < |jobs| && Owns(jobs, i, u) ==> DepthOk(run, jobs, u, jobs[i].depth)
  }

  ghost predicate HeldOk(run: Run, jobs: seq<Job>) {
    forall i: nat, u: string :: i < |jobs| && Owns(jobs, i, u) ==>
      && (jobs[i].phase.Claimed? ==> jobs[i].phase.claimed == jobs[i].depth)
      && (jobs[i].phase.DepthRead? ==>
            && jobs[i].phase.held <= jobs[i].depth
            && DepthOk(run, jobs, u, jobs[i].phase.held)
            && AtMost(jobs, u, jobs[i].phase.held))
  }

  ghost predicate CapsOk(run: Run, jobs: seq<Job>) {
    |CrawlUsers(jobs)| <= run.maxUsers && |CrawlRows(jobs)| <= run.maxJobs
  }

  /** The row's own work is committed: it is done, or its worker has only the final mark left. */
  predicate WorkPublished(job: Job) {
    job.state == Done || job.phase.Published?
  }

  /** An expansion of row i at the least depth recorded for its user. */
  ghost predicate Queued(jobs: seq<Job>, i: nat)
    requires i < |jobs| && jobs[i].kind.Crawl?
  {
    exists e: nat :: e < |jobs| && jobs[e].kind == Expand(i) &&
      AtLeast(jobs, Lower(jobs[i].kind.target), jobs[e].depth)
  }

  ghost predicate QueuedOk(jobs: seq<Job>) {
    forall i: nat :: i < |jobs| && jobs[i].kind.Crawl? && WorkPublished(jobs[i]) ==> Queued(jobs, i)
  }

  /** An opponent has been reached no deeper than d, or was shut out by a cap that stays reached. */
  ghost predicate Covered(run: Run, jobs: seq<Job>, v: string, d: nat) {
    AtMost(jobs, v, d) || (Full(run, jobs) && Absent(jobs, v))
  }

  ghost predicate Relaxed(run: Run, jobs: seq<Job>, u: string, d: nat) {
    d + 1 <= run.maxDepth ==> forall v :: Edge(run, u, v) ==> Covered(run, jobs, v, d + 1)
  }

  ghost predicate RelaxedOk(run: Run, jobs: seq<Job>) {
    forall e: nat, u: string :: e < |jobs| && jobs[e].kind.Expand? && WorkPublished(jobs[e]) && Owns(jobs, e, u) ==>
      Relaxed(run, jobs, u, jobs[e].depth)
  }

  ghost predicate Inv(run: Run, jobs: seq<Job>) {
    && SeedRow(run, jobs) && Rows(jobs) && DepthsOk(run, jobs) && HeldOk(run, jobs)
    && CapsOk(run, jobs) && QueuedOk(jobs) && RelaxedOk(run, jobs)
  }

  /*
   * Growth: rows keep their identity, depths fall, finished acquisitions stay finished.
   */

  ghost predicate Grows(a: seq<Job>, b: seq<Job>) {
    && |a| <= |b|
    && (forall i: nat :: i < |a| ==> b[i].kind == a[i].kind && b[i].depth <= a[i].depth)
    && (forall i: nat :: i < |a| && a[i].state.Terminal() ==> b[i].state == a[i].state)
  }

  lemma OwnsGrows(a: seq<Job>, b: seq<Job>, i: nat, u: string)
    requires Refs(a) && Grows(a, b) && i < |a|
    ensures Owns(b, i, u) == Owns(a, i, u)
  {}

  lemma AtMostGrows(a: seq<Job>, b: seq<Job>, u: string, d: int)
    requires Refs(a) && Grows(a, b) && AtMost(a, u, d)
    ensures AtMost(b, u, d)
  {
    var i: nat :| i < |a| && Owns(a, i, u) && a[i].depth <= d;
    assert Owns(b, i, u) && b[i].depth <= d;
  }

  lemma DoneGrows(a: seq<Job>, b: seq<Job>)
    requires Grows(a, b)
    ensures DoneUsers(a) <= DoneUsers(b)
  {
    forall u | u in DoneUsers(a)
      ensures u in DoneUsers(b)
    {
      var i: nat :| i < |a| && IsCrawlOf(a[i], u) && a[i].state == Done;
      assert IsCrawlOf(b[i], u) && b[i].state == Done;
    }
  }

  lemma DepthOkGrows(run: Run, a: seq<Job>, b: seq<Job>, u: string, d: nat)
    requires Grows(a, b) && DepthOk(run, a, u, d)
    ensures DepthOk(run, b, u, d)
  {
    DoneGrows(a, b);
    WalkMono(run, DoneUsers(a), DoneUsers(b), u, d);
  }

  lemma CapsGrow(a: seq<Job>, b: seq<Job>)
    requires Grows(a, b)
    ensures CrawlUsers(a) <= CrawlUsers(b) && CrawlRows(a) <= CrawlRows(b)
    ensures |CrawlUsers(a)| <= |CrawlUsers(b)| && |CrawlRows(a)| <= |CrawlRows(b)|
  {
    forall u | u in CrawlUsers(a)
      ensures u in CrawlUsers(b)
    {
      var i: nat :| i < |a| && a[i].kind.Crawl? && Lower(a[i].kind.target) == u;
      assert b[i].kind.Crawl? && Lower(b[i].kind.target) == u;
    }
    SubsetSize(CrawlUsers(a), CrawlUsers(b));
    SubsetSize(CrawlRows(a), CrawlRows(b));
  }

  /** No new user: absent users stay absent, so covered opponents stay covered. */
  ghost predicate NoNewUser(a: seq<Job>, b: seq<Job>) {
    forall u :: Absent(a, u) ==> Absent(b, u)
  }

  lemma CoveredGrows(run: Run, a: seq<Job>, b: seq<Job>, v: string, d: nat)
    requires Refs(a) && Grows(a, b) && Covered(run, a, v, d)
    requires NoNewUser(a, b) || !Full(run, a)
    ensures Covered(run, b, v, d)
  {
    if AtMost(a, v, d) {
      AtMostGrows(a, b, v, d);
    } else {
      CapsGrow(a, b);
    }
  }

  lemma RelaxedGrows(run: Run, a: seq<Job>, b: seq<Job>, u: string, d: nat)
    requires Refs(a) && Grows(a, b) && Relaxed(run, a, u, d)
    requires NoNewUser(a, b) || !Full(run, a)
    ensures Relaxed(run, b, u, d)
  {
    if d + 1 <= run.maxDepth {
      forall v | Edge(run, u, v)
        ensures Covered(run, b, v, d + 1)
      {
        CoveredGrows(run, a, b, v, d + 1);
      }
    }
  }

  /*
   * What a change must respect for each part of the invariant to carry over.
   */

  lemma DepthsKept(run: Run, jobs: seq<Job>, after: seq<Job>)
    requires Refs(jobs) && DepthsOk(run, jobs) && Grows(jobs, after)
    requires forall i: nat, u: string ::
               i < |after| && Owns(after, i, u) && (i >= |jobs| || after[i].depth != jobs[i].depth) ==>
               DepthOk(run, jobs, u, after[i].depth)
    ensures DepthsOk(run, after)
  {
    forall i: nat, u: string | i < |after| && Owns(after, i, u)
      ensures DepthOk(run, after, u, after[i].depth)
    {
      if i < |jobs| {
        OwnsGrows(jobs, after, i, u);
      }
      DepthOkGrows(run, jobs, after, u, after[i].depth);
    }
  }

  lemma HeldKept(run: Run, jobs: seq<Job>, after: seq<Job>)
    requires Refs(jobs) && HeldOk(run, jobs) && Grows(jobs, after)
    requires forall i: nat :: i < |jobs| && jobs[i].phase != Idle ==> after[i].depth == jobs[i].depth
    requires forall i: nat :: i < |after| && after[i].phase != Idle ==> i < |jobs| && after[i].phase == jobs[i].phase
    ensures HeldOk(run, after)
  {
    forall i: nat, u: string | i < |after| && Owns(after, i, u) && after[i].phase != Idle
      ensures after[i].phase.Claimed? ==> after[i].phase.claimed == after[i].depth
      ensures after[i].phase.DepthRead? ==>
                && after[i].phase.held <= after[i].depth
                && DepthOk(run, after, u, after[i].phase.held)
                && AtMost(after, u, after[i].phase.held)
    {
      OwnsGrows(jobs, after, i, u);
      if after[i].phase.DepthRead? {
        DepthOkGrows(run, jobs, after, u, jobs[i].phase.held);
        AtMostGrows(jobs, after, u, jobs[i].phase.held);
      }
    }
  }

  /** A queued expansion stays at the least depth when no row of that user goes below it. */
  lemma QueuedKept(jobs: seq<Job>, after: seq<Job>, i: nat)
    requires Refs(jobs) && i < |jobs| && jobs[i].kind.Crawl? && Queued(jobs, i) && Grows(jobs, after)
    requires forall k: nat :: k < |jobs| && Owns(jobs, k, Lower(jobs[i].kind.target)) ==>
               after[k].depth == jobs[k].depth
    requires forall k: nat :: |jobs| <= k < |after| ==> !Owns(after, k, Lower(jobs[i].kind.target))
    ensures Queued(after, i)
  {
    var u := Lower(jobs[i].kind.target);
    var e: nat :| e < |jobs| && jobs[e].kind == Expand(i) && AtLeast(jobs, u, jobs[e].depth);
    assert Owns(jobs, e, u);
    forall k: nat | k < |after| && Owns(after, k, u)
      ensures after[e].depth <= after[k].depth
    {
      if k < |jobs| {
        OwnsGrows(jobs, after, k, u);
      }
    }
    assert AtLeast(after, u, after[e].depth);
  }

  lemma RelaxedKept(run: Run, jobs: seq<Job>, after: seq<Job>)
    requires Refs(jobs) && RelaxedOk(run, jobs) && Grows(jobs, after)
    requires NoNewUser(jobs, after) || !Full(run, jobs)
    requires forall i: nat :: i < |after| && after[i].kind.Expand? && WorkPublished(after[i]) ==>
               i < |jobs| && WorkPublished(jobs[i]) && after[i].depth == jobs[i].depth
    ensures RelaxedOk(run, after)
  {
    forall e: nat, u: string | e < |after| && after[e].kind.Expand? && WorkPublished(after[e]) && Owns(after, e, u)
      ensures Relaxed(run, after, u, after[e].depth)
    {
      OwnsGrows(jobs, after, e, u);
      RelaxedGrows(run, jobs, after, u, jobs[e].depth);
    }
  }

  /** When no acquisition row is added, the caps and the absent users are as before. */
  lemma NoCrawlAdded(jobs: seq<Job>, after: seq<Job>)
    requires Refs(jobs) && Grows(jobs, after)
    requires forall i: nat :: |jobs| <= i < |after| ==> after[i].kind.Expand? && after[i].kind.parent < |jobs|
    ensures CrawlUsers(after) == CrawlUsers(jobs) && CrawlRows(after) == CrawlRows(jobs)
    ensures NoNewUser(jobs, after)
  {
    CapsGrow(jobs, after);
    forall u | Absent(jobs, u)
      ensures Absent(after, u)
    {
      forall i: nat | i < |after|
        ensures !Owns(after, i, u)
      {
        if i < |jobs| {
          OwnsGrows(jobs, after, i, u);
        } else {
          assert !Owns(jobs, after[i].kind.parent, u);
        }
      }
    }
  }

  /*
   * The primitive table changes, each of which keeps the invariant.
   */

  lemma AppendCrawlRows(jobs: seq<Job>, name: string, d: nat)
    requires Rows(jobs) && Absent(jobs, Lower(name))
    ensures Rows(jobs + [NewCrawl(name, d)]) && Grows(jobs, jobs + [NewCrawl(name, d)])
  {
    var after := jobs + [NewCrawl(name, d)];
    forall i: nat | i < |jobs| && jobs[i].kind.Crawl?
      ensures Lower(jobs[i].kind.target) != Lower(name)
    {
      assert !Owns(jobs, i, Lower(name));
    }
    AppendParents(jobs, NewCrawl(name, d));
    hide ParentOk, PhaseOk;
  }

  /** A new pending row disturbs no parent. */
  lemma AppendParents(jobs: seq<Job>, row: Job)
    requires Rows(jobs) && row.state == Pending && row.phase == Idle
    ensures forall i: nat :: i < |jobs| + 1 ==> PhaseOk((jobs + [row])[i]) && ParentOk(jobs + [row], i)
  {
    var after := jobs + [row];
    forall i: nat | i < |after| ensures PhaseOk(after[i]) && ParentOk(after, i) {
      if i < |jobs| { assert PhaseOk(jobs[i]) && ParentOk(jobs, i) && after[i] == jobs[i]; }
    }
  }

  lemma AppendCrawlCaps(run: Run, jobs: seq<Job>, name: string, d: nat)
    requires CapsOk(run, jobs) && !Full(run, jobs) && Grows(jobs, jobs + [NewCrawl(name, d)])
    ensures CapsOk(run, jobs + [NewCrawl(name, d)])
  {
    var after := jobs + [NewCrawl(name, d)];
    assert CrawlUsers(after) <= CrawlUsers(jobs) + {Lower(name)};
    SubsetSize(CrawlUsers(after), CrawlUsers(jobs) + {Lower(name)});
    assert CrawlRows(after) == CrawlRows(jobs) + {|jobs|};
  }

  lemma AppendCrawlQueued(jobs: seq<Job>, name: string, d: nat)
    requires Refs(jobs) && QueuedOk(jobs) && Absent(jobs, Lower(name)) && Grows(jobs, jobs + [NewCrawl(name, d)])
    ensures QueuedOk(jobs + [NewCrawl(name, d)])
  {
    hide Queued;
    var after := jobs + [NewCrawl(name, d)];
    forall i: nat | i < |after| && after[i].kind.Crawl? && WorkPublished(after[i])
      ensures Queued(after, i)
    {
      assert !Owns(jobs, i, Lower(name));
      QueuedKept(jobs, after, i);
    }
  }

  lemma AppendCrawlKeeps(run: Run, jobs: seq<Job>, name: string, d: nat)
    requires Inv(run, jobs) && Absent(jobs, Lower(name)) && !Full(run, jobs)
    requires DepthOk(run, jobs, Lower(name), d)
    ensures Inv(run, jobs + [NewCrawl(name, d)]) && Grows(jobs, jobs + [NewCrawl(name, d)])
    ensures AtMost(jobs + [NewCrawl(name, d)], Lower(name), d)
  {
    hide Queued, Relaxed, DepthOk, UniqueCrawl, UniqueExpansion;
    var after := jobs + [NewCrawl(name, d)];
    AppendCrawlRows(jobs, name, d);
    AppendCrawlCaps(run, jobs, name, d);
    assert Owns(after, |jobs|, Lower(name));
    DepthsKept(run, jobs, after);
    HeldKept(run, jobs, after);
    AppendCrawlQueued(jobs, name, d);
    RelaxedKept(run, jobs, after);
  }

  lemma AppendExpansionRows(jobs: seq<Job>, c: nat, d: nat)
    requires Rows(jobs) && c < |jobs| && jobs[c].kind.Crawl? && !HasExpansion(jobs, c, d)
    ensures Rows(jobs + [NewExpansion(c, d)]) && Grows(jobs, jobs + [NewExpansion(c, d)])
  {
    AppendParents(jobs, NewExpansion(c, d));
    hide ParentOk, PhaseOk;
  }

  lemma QueuedByLowest(jobs: seq<Job>, after: seq<Job>, c: nat, d: nat)
    requires Refs(jobs) && c < |jobs| && jobs[c].kind.Crawl? && Queued(jobs, c)
    requires after == jobs + [NewExpansion(c, d)]
    ensures Queued(after, c)
  {
    var u := Lower(jobs[c].kind.target);
    var e: nat :| e < |jobs| && jobs[e].kind == Expand(c) && AtLeast(jobs, u, jobs[e].depth);
    var best := if jobs[e].depth <= d then e else |jobs|;
    forall k: nat | k < |after| && Owns(after, k, u)
      ensures after[best].depth <= after[k].depth
    {
      if k < |jobs| {
        OwnsGrows(jobs, after, k, u);
      }
    }
    assert AtLeast(after, u, after[best].depth);
  }

  lemma AppendExpansionQueued(jobs: seq<Job>, c: nat, d: nat)
    requires Refs(jobs) && UniqueCrawl(jobs) && QueuedOk(jobs) && c < |jobs| && jobs[c].kind.Crawl?
    requires Grows(jobs, jobs + [NewExpansion(c, d)])
    ensures QueuedOk(jobs + [NewExpansion(c, d)])
  {
    hide Queued;
    var after := jobs + [NewExpansion(c, d)];
    forall i: nat | i < |after| && after[i].kind.Crawl? && WorkPublished(after[i])
      ensures Queued(after, i)
    {
      if i == c {
        QueuedByLowest(jobs, after, c, d);
      } else {
        QueuedKept(jobs, after, i);
      }
    }
  }

  lemma AppendExpansionKeeps(run: Run, jobs: seq<Job>, c: nat, d: nat)
    requires Inv(run, jobs) && c < |jobs| && jobs[c].kind.Crawl? && !HasExpansion(jobs, c, d)
    requires DepthOk(run, jobs, Lower(jobs[c].kind.target), d)
    ensures Inv(run, jobs + [NewExpansion(c, d)]) && Grows(jobs, jobs + [NewExpansion(c, d)])
    ensures AtMost(jobs + [NewExpansion(c, d)], Lower(jobs[c].kind.target), d)
    ensures NoNewUser(jobs, jobs + [NewExpansion(c, d)])
  {
    hide Queued, Relaxed, DepthOk, UniqueCrawl, UniqueExpansion;
    var after := jobs + [NewExpansion(c, d)];
    AppendExpansionRows(jobs, c, d);
    assert Owns(after, |jobs|, Lower(jobs[c].kind.target));
    DepthsKept(run, jobs, after);
    HeldKept(run, jobs, after);
    NoCrawlAdded(jobs, after);
    AppendExpansionQueued(jobs, c, d);
    RelaxedKept(run, jobs, after);
  }

  ghost predicate AtMostExpansion(jobs: seq<Job>, c: nat, d: nat) {
    exists e: nat :: e < |jobs| && jobs[e].kind == Expand(c) && jobs[e].depth <= d
  }

  lemma LowerRowQueued(jobs: seq<Job>, c: nat, d: nat)
    requires Refs(jobs) && c < |jobs| && jobs[c].kind.Crawl? && d <= jobs[c].depth
    requires Queued(jobs, c) && AtMostExpansion(jobs, c, d)
    ensures Queued(jobs[c := jobs[c].(depth := d)], c)
  {
    var after := jobs[c := jobs[c].(depth := d)];
    var u := Lower(jobs[c].kind.target);
    var e: nat :| e < |jobs| && jobs[e].kind == Expand(c) && AtLeast(jobs, u, jobs[e].depth);
    var low: nat :| low < |jobs| && jobs[low].kind == Expand(c) && jobs[low].depth <= d;
    assert Owns(jobs, low, u);
    forall k: nat | k < |after| && Owns(after, k, u)
      ensures after[e].depth <= after[k].depth
    {
      OwnsGrows(jobs, after, k, u);
    }
    assert AtLeast(after, u, after[e].depth);
  }

  lemma LowerRowRows(jobs: seq<Job>, c: nat, d: nat)
    requires Rows(jobs) && c < |jobs| && jobs[c].kind.Crawl? && d <= jobs[c].depth
    ensures Rows(jobs[c := jobs[c].(depth := d)]) && Grows(jobs, jobs[c := jobs[c].(depth := d)])
  {
    assert forall i: nat :: i < |jobs| ==> ParentOk(jobs, i) && PhaseOk(jobs[i]);
  }

  lemma LowerRowAllQueued(jobs: seq<Job>, c: nat, d: nat)
    requires Rows(jobs) && QueuedOk(jobs) && c < |jobs| && jobs[c].kind.Crawl? && d <= jobs[c].depth
    requires jobs[c].state != InProgress && (jobs[c].state == Done ==> AtMostExpansion(jobs, c, d))
    ensures QueuedOk(jobs[c := jobs[c].(depth := d)])
  {
    var after := jobs[c := jobs[c].(depth := d)];
    forall i: nat | i < |after| && after[i].kind.Crawl? && WorkPublished(after[i])
      ensures Queued(after, i)
    {
      if i == c {
        LowerRowQueued(jobs, c, d);
      } else {
        assert !Owns(jobs, c, Lower(jobs[i].kind.target));
        QueuedKept(jobs, after, i);
      }
    }
  }

  /** Lower an acquisition row, once (if it is done) an expansion carries the new depth. */
  lemma LowerRowKeeps(run: Run, jobs: seq<Job>, c: nat, d: nat)
    requires Inv(run, jobs) && c < |jobs| && jobs[c].kind.Crawl? && jobs[c].state != InProgress
    requires d <= jobs[c].depth && DepthOk(run, jobs, Lower(jobs[c].kind.target), d)
    requires jobs[c].state == Done ==> AtMostExpansion(jobs, c, d)
    ensures Inv(run, jobs[c := jobs[c].(depth := d)]) && Grows(jobs, jobs[c := jobs[c].(depth := d)])
    ensures AtMost(jobs[c := jobs[c].(depth := d)], Lower(jobs[c].kind.target), d)
    ensures NoNewUser(jobs, jobs[c := jobs[c].(depth := d)])
  {
    hide Queued, Relaxed, DepthOk, UniqueCrawl, UniqueExpansion;
    var after := jobs[c := jobs[c].(depth := d)];
    assert Owns(after, c, Lower(jobs[c].kind.target));
    LowerRowRows(jobs, c, d);
    DepthsKept(run, jobs, after);
    HeldKept(run, jobs, after);
    NoCrawlAdded(jobs, after);
    LowerRowAllQueued(jobs, c, d);
    RelaxedKept(run, jobs, after);
  }

  /*
   * Promotion, the child loop and the expansion transaction are built from those changes.
   */

  /** Other rows' workers are undisturbed: only depths of idle acquisitions fall, only pending rows appear. */
  ghost predicate Extends(a: seq<Job>, b: seq<Job>) {
    && Grows(a, b)
    && (forall i: nat :: i < |a| ==>
          b[i].state == a[i].state && b[i].phase == a[i].phase && b[i].retries == a[i].retries)
    && (forall i: nat :: i < |a| && (a[i].state == InProgress || a[i].kind.Expand?) ==> b[i].depth == a[i].depth)
    && (forall i: nat :: |a| <= i < |b| ==> b[i].state == Pending && b[i].phase == Idle && b[i].retries == 0)
  }

  lemma ExtendsTrans(a: seq<Job>, b: seq<Job>, c: seq<Job>)
    requires Extends(a, b) && Extends(b, c)
    ensures Extends(a, c)
  {}

  lemma GrowsTrans(a: seq<Job>, b: seq<Job>, c: seq<Job>)
    requires Grows(a, b) && Grows(b, c)
    ensures Grows(a, c)
  {}

  lemma ExtendsSelf(a: seq<Job>)
    ensures Extends(a, a)
  {}

  lemma ExtendsGrows(a: seq<Job>, b: seq<Job>)
    requires Extends(a, b)
    ensures Grows(a, b)
  {}

  lemma InvRows(run: Run, jobs: seq<Job>)
    requires Inv(run, jobs)
    ensures Rows(jobs) && Refs(jobs)
  {}

  lemma UniqueRow(jobs: seq<Job>, user: string, c: nat, i: nat)
    requires UniqueCrawl(jobs) && c < |jobs| && i < |jobs| && IsCrawlOf(jobs[c], user) && IsCrawlOf(jobs[i], user)
    ensures i == c
  {}

  function Lowered(jobs: seq<Job>, c: nat, d: nat): seq<Job>
    requires c < |jobs|
  {
    if jobs[c].state == InProgress then jobs else jobs[c := jobs[c].(depth := d)]
  }

  lemma LowerRowsShape(jobs: seq<Job>, user: string, d: nat, c: nat)
    requires Rows(jobs) && c < |jobs| && IsCrawlOf(jobs[c], user) && AtLeast(jobs, user, d + 1)
    ensures LowerRows(jobs, user, d) == Lowered(jobs, c, d)
  {
    assert Owns(jobs, c, user);
    forall i: nat | i < |jobs| && i != c
      ensures LowerRow(jobs[i], user, d) == jobs[i]
    {
      if IsCrawlOf(jobs[i], user) {
        UniqueRow(jobs, user, c, i);
      }
    }
  }

  /** After lowering, the effective depth of a promotion is the promoted depth, and no expansion has it yet. */
  lemma PromotionIsNew(jobs: seq<Job>, user: string, d: nat, c: nat)
    requires c < |jobs| && IsCrawlOf(jobs[c], user) && AtLeast(jobs, user, d + 1)
    ensures Effective(Lowered(jobs, c, d), user, d) == d && !HasExpansion(Lowered(jobs, c, d), c, d)
  {
    var lowered := Lowered(jobs, c, d);
    forall i: nat | i < |lowered| && Owns(lowered, i, user)
      ensures d <= lowered[i].depth && (i != c ==> d < lowered[i].depth)
    {
      assert Owns(jobs, i, user);
    }
    assert AtLeast(lowered, user, d);
    KnownMeaning(lowered, user);
    if Known(lowered, user).Some? {
      assert AtMost(lowered, user, Known(lowered, user).value);
    }
    forall e: nat | e < |lowered| && lowered[e].kind == Expand(c)
      ensures lowered[e].depth != d
    {
      assert Owns(lowered, e, user);
    }
  }

  lemma {:induction false} QueueForShape(jobs: seq<Job>, user: string, d: nat, c: nat, n: nat)
    requires UniqueCrawl(jobs) && c < |jobs| && IsCrawlOf(jobs[c], user) && AtLeast(jobs, user, d + 1) && n <= |jobs|
    ensures QueueFor(jobs, Lowered(jobs, c, d), user, d, n) ==
            Lowered(jobs, c, d) + (if n > c && Promotable(jobs[c], user) then [NewExpansion(c, d)] else [])
  {
    hide Effective, HasExpansion, AtLeast, Lowered;
    if n > 0 {
      QueueForShape(jobs, user, d, c, n - 1);
      if Promotable(jobs[n - 1], user) {
        UniqueRow(jobs, user, c, n - 1);
        assert Lowered(jobs, c, d) + [] == Lowered(jobs, c, d);
        PromotionIsNew(jobs, user, d, c);
      }
    }
  }

  /** Under the invariant a promotion lowers one idle row and queues one expansion of it. */
  function Promoted(jobs: seq<Job>, user: string, d: nat, c: nat): seq<Job>
    requires c < |jobs|
  {
    Lowered(jobs, c, d) + (if Promotable(jobs[c], user) then [NewExpansion(c, d)] else [])
  }

  lemma PromoteShape(jobs: seq<Job>, user: string, d: nat, c: nat)
    requires Rows(jobs) && c < |jobs| && IsCrawlOf(jobs[c], user) && AtLeast(jobs, user, d + 1)
    ensures Promote(jobs, user, d) == Promoted(jobs, user, d, c)
    ensures !HasExpansion(jobs, c, d) && d <= jobs[c].depth
    ensures Extends(jobs, Promoted(jobs, user, d, c))
  {
    LowerRowsShape(jobs, user, d, c);
    QueueForShape(jobs, user, d, c, |jobs|);
    assert Owns(jobs, c, user);
    forall e: nat | e < |jobs| && jobs[e].kind == Expand(c)
      ensures jobs[e].depth != d
    {
      assert Owns(jobs, e, user);
    }
  }

  lemma QueuedThenLowered(run: Run, jobs: seq<Job>, c: nat, d: nat)
    requires Inv(run, jobs) && c < |jobs| && jobs[c].kind.Crawl? && !HasExpansion(jobs, c, d)
    requires d <= jobs[c].depth && jobs[c].state != InProgress && DepthOk(run, jobs, Lower(jobs[c].kind.target), d)
    ensures Inv(run, jobs[c := jobs[c].(depth := d)] + [NewExpansion(c, d)])
    ensures AtMost(jobs[c := jobs[c].(depth := d)] + [NewExpansion(c, d)], Lower(jobs[c].kind.target), d)
  {
    hide Inv;
    AppendExpansionKeeps(run, jobs, c, d);
    var queued := jobs + [NewExpansion(c, d)];
    assert queued[|jobs|].kind == Expand(c) && queued[|jobs|].depth <= d;
    DepthOkGrows(run, jobs, queued, Lower(jobs[c].kind.target), d);
    LowerRowKeeps(run, queued, c, d);
    assert queued[c := queued[c].(depth := d)] == jobs[c := jobs[c].(depth := d)] + [NewExpansion(c, d)];
  }

  lemma PromoteKeeps(run: Run, jobs: seq<Job>, user: string, d: nat, c: nat)
    requires Inv(run, jobs) && c < |jobs| && IsCrawlOf(jobs[c], user) && AtLeast(jobs, user, d + 1)
    requires DepthOk(run, jobs, user, d)
    ensures Inv(run, Promote(jobs, user, d)) && Extends(jobs, Promote(jobs, user, d))
    ensures AtMost(Promote(jobs, user, d), user, d)
  {
    hide Inv, Rows, DepthOk, AtMost, Extends, Promote;
    InvRows(run, jobs);
    PromoteShape(jobs, user, d, c);
    if !Promotable(jobs[c], user) {
      assert Lowered(jobs, c, d) + [] == Lowered(jobs, c, d);
      LowerRowKeeps(run, jobs, c, d);
    } else if jobs[c].state == InProgress {
      AppendExpansionKeeps(run, jobs, c, d);
    } else {
      QueuedThenLowered(run, jobs, c, d);
    }
  }

  lemma OwnerHasCrawl(jobs: seq<Job>, user: string) returns (c: nat)
    requires Refs(jobs) && !Absent(jobs, user)
    ensures c < |jobs| && IsCrawlOf(jobs[c], user)
  {
    var i: nat :| i < |jobs| && Owns(jobs, i, user);
    c := match jobs[i].kind case Crawl(_) => i case Expand(p) => p;
  }

  lemma ChildKeeps(run: Run, jobs: seq<Job>, next: nat, name: string)
    requires Inv(run, jobs) && DepthOk(run, jobs, Lower(name), next)
    ensures Inv(run, Child(run, jobs, next, name)) && Extends(jobs, Child(run, jobs, next, name))
    ensures Covered(run, Child(run, jobs, next, name), Lower(name), next)
    ensures NoNewUser(jobs, Child(run, jobs, next, name)) || !Full(run, jobs)
  {
    hide Inv, Rows, DepthOk, Promote, Owns;
    InvRows(run, jobs);
    var user := Lower(name);
    var known := Known(jobs, user);
    KnownMeaning(jobs, user);
    if known.Some? && known.value <= next {
      assert AtMost(jobs, user, known.value);
      AtMostWeaken(jobs, user, known.value, next);
    } else if known.Some? {
      assert AtMost(jobs, user, known.value) && AtLeast(jobs, user, known.value);
      assert AtLeast(jobs, user, next + 1);
      var c := OwnerHasCrawl(jobs, user);
      PromoteKeeps(run, jobs, user, next, c);
      PromoteAddsNoUser(jobs, user, next, c);
    } else if !Full(run, jobs) {
      AppendCrawlKeeps(run, jobs, name, next);
    }
  }

  lemma AtMostWeaken(jobs: seq<Job>, user: string, d: nat, e: nat)
    requires AtMost(jobs, user, d) && d <= e
    ensures AtMost(jobs, user, e)
  {
    var i: nat :| i < |jobs| && Owns(jobs, i, user) && jobs[i].depth <= d;
    assert jobs[i].depth <= e;
  }

  lemma PromoteAddsNoUser(jobs: seq<Job>, user: string, d: nat, c: nat)
    requires Rows(jobs) && c < |jobs| && IsCrawlOf(jobs[c], user) && AtLeast(jobs, user, d + 1)
    requires Grows(jobs, Promote(jobs, user, d))
    ensures NoNewUser(jobs, Promote(jobs, user, d))
  {
    PromoteShape(jobs, user, d, c);
    NoCrawlAdded(jobs, Promote(jobs, user, d));
  }

  lemma {:induction false} ChildrenKeep(run: Run, jobs: seq<Job>, next: nat, names: seq<string>)
    requires Inv(run, jobs) && forall k :: 0 <= k < |names| ==> DepthOk(run, jobs, Lower(names[k]), next)
    ensures Inv(run, Children(run, jobs, next, names)) && Extends(jobs, Children(run, jobs, next, names))
    ensures forall k :: 0 <= k < |names| ==> Covered(run, Children(run, jobs, next, names), Lower(names[k]), next)
  {
    hide Inv, Rows, DepthOk, Child, Covered, Full, Extends, Absent, AtMost;
    InvRows(run, jobs);
    ExtendsSelf(jobs);
    if names != [] {
      var n := |names| - 1;
      var before := Children(run, jobs, next, names[..n]);
      ChildrenKeep(run, jobs, next, names[..n]);
      ExtendsGrows(jobs, before);
      DepthOkGrows(run, jobs, before, Lower(names[n]), next);
      ChildKeeps(run, before, next, names[n]);
      var after := Child(run, before, next, names[n]);
      ExtendsTrans(jobs, before, after);
      InvRows(run, before);
      ExtendsGrows(jobs, before);
      ExtendsGrows(before, after);
      forall k | 0 <= k < n
        ensures Covered(run, after, Lower(names[k]), next)
      {
        assert names[..n][k] == names[k];
        CoveredGrows(run, before, after, Lower(names[k]), next);
      }
    }
  }

  lemma {:induction false} FrontierMeaning(jobs: seq<Job>, depth: nat, names: seq<string>)
    ensures forall x :: x in Frontier(jobs, depth, names) <==> x in names && OnFrontier(jobs, depth, x)
  {
    if names != [] {
      var n := |names| - 1;
      FrontierMeaning(jobs, depth, names[..n]);
      assert names == names[..n] + [names[n]];
    }
  }

  /** An expansion at d covers every opponent at d + 1: those it skips are known no deeper than d. */
  lemma ExpandKeeps(run: Run, jobs: seq<Job>, user: string, d: nat)
    requires Inv(run, jobs) && user in DoneUsers(jobs) && DepthOk(run, jobs, user, d)
    ensures Inv(run, ExpandFrontier(run, jobs, user, d)) && Extends(jobs, ExpandFrontier(run, jobs, user, d))
    ensures Relaxed(run, ExpandFrontier(run, jobs, user, d), user, d)
  {
    hide Inv;
    InvRows(run, jobs);
    if d + 1 <= run.maxDepth {
      var names := run.Opponents(user);
      var frontier := Frontier(jobs, d, names);
      var after := Children(run, jobs, d + 1, frontier);
      FrontierMeaning(jobs, d, names);
      forall k | 0 <= k < |frontier|
        ensures DepthOk(run, jobs, Lower(frontier[k]), d + 1)
      {
        assert frontier[k] in frontier;
        var j :| 0 <= j < |names| && names[j] == frontier[k];
        assert Edge(run, user, Lower(names[j]));
        WalkExtend(run, DoneUsers(jobs), user, d, Lower(frontier[k]));
      }
      ChildrenKeep(run, jobs, d + 1, frontier);
      forall v | Edge(run, user, v)
        ensures Covered(run, after, v, d + 1)
      {
        var k :| 0 <= k < |names| && Lower(names[k]) == v;
        if OnFrontier(jobs, d, names[k]) {
          assert names[k] in frontier;
          var j :| 0 <= j < |frontier| && frontier[j] == names[k];
          assert Covered(run, after, Lower(frontier[j]), d + 1);
        } else {
          KnownMeaning(jobs, v);
          assert AtMost(jobs, v, Known(jobs, v).value);
          AtMostWeaken(jobs, v, Known(jobs, v).value, d + 1);
          AtMostGrows(jobs, after, v, d + 1);
        }
      }
    }
  }

  /*
   * Worker steps. A worker may read a depth, be overtaken by a promotion, and commit later.
   */

  datatype Step =
    | Claim(i: nat)
    | ReadDepth(i: nat)
    | Publish(i: nat)
    | Finish(i: nat, outcome: JobState)
    | SetBack(i: nat, to: JobState)
    | Recover(i: nat)
    | Unblock(i: nat)
  {
    /** A retry of a transient failure; these are limited per row. */
    predicate Retry() {
      SetBack? && to == Blocked
    }

    /** Work put back for another reason: a stop, an exhausted budget, or the worker's death. */
    predicate Setback() {
      (SetBack? && to != Blocked) || Recover?
    }
  }

  predicate Schedulable(job: Job) {
    job.state == Pending || job.state == Blocked
  }

  predicate ParentIn(jobs: seq<Job>, i: nat, states: set<JobState>)
    requires i < |jobs|
  {
    jobs[i].kind.Expand? ==> jobs[i].kind.parent < |jobs| && jobs[jobs[i].kind.parent].state in states
  }

  predicate Enabled(jobs: seq<Job>, step: Step) {
    && step.i < |jobs|
    && var job := jobs[step.i];
       match step
       case Claim(i) => Schedulable(job) && ParentIn(jobs, i, {Done, Error, Skipped})
       case ReadDepth(i) => job.phase.Claimed? && ParentIn(jobs, i, {Done})
       case Publish(i) => job.phase.DepthRead?
       case Finish(i, outcome) =>
         && job.state == InProgress
         && outcome.Terminal()
         && (outcome == Done ==> job.phase.Published?)
         && (outcome == Skipped ==> ParentIn(jobs, i, {Error, Skipped}))
       case SetBack(i, to) => job.state == InProgress && (to == Pending || to == Blocked || to == Paused)
       case Recover(i) => job.state == InProgress
       case Unblock(i) => job.state == Paused
  }

  /** The user whose games row i acquires or expands. */
  function Subject(jobs: seq<Job>, i: nat): string
    requires i < |jobs|
  {
    match jobs[i].kind
    case Crawl(target) => Lower(target)
    case Expand(p) => if p < |jobs| && jobs[p].kind.Crawl? then Lower(jobs[p].kind.target) else ""
  }

  function Mark(jobs: seq<Job>, i: nat, state: JobState, phase: Phase): seq<Job>
    requires i < |jobs|
  {
    jobs[i := Marked(jobs[i], state, phase)]
  }

  /** What the worker of row i commits: its expansion job, or its opponents' rows. */
  function Committed(run: Run, jobs: seq<Job>, i: nat): (r: seq<Job>)
    requires i < |jobs| && jobs[i].phase.DepthRead?
    ensures |jobs| <= |r|
  {
    match jobs[i].kind
    case Crawl(_) => EnqueueExpansion(jobs, i, jobs[i].phase.held)
    case Expand(_) => ExpandFrontier(run, jobs, Subject(jobs, i), jobs[i].phase.held)
  }

  function Apply(run: Run, jobs: seq<Job>, step: Step): seq<Job>
    requires Enabled(jobs, step)
  {
    match step
    case Claim(i) => Mark(jobs, i, InProgress, Claimed(jobs[i].depth))
    case ReadDepth(i) => Mark(jobs, i, InProgress, DepthRead(Effective(jobs, Subject(jobs, i), jobs[i].phase.claimed)))
    case Publish(i) => Mark(Committed(run, jobs, i), i, InProgress, Published)
    case Finish(i, outcome) => Settle(jobs, i, outcome)
    case SetBack(i, to) => Settle(jobs, i, to)
    case Recover(i) => Mark(jobs, i, Pending, Idle)
    case Unblock(i) => Mark(jobs, i, Pending, Idle)
  }

  /** A row is blocked for another try only below the retry limit. */
  predicate WithinRetries(run: Run, jobs: seq<Job>, step: Step) {
    step.Retry() ==> step.i < |jobs| && jobs[step.i].retries < run.maxRetries
  }

  ghost predicate IsRun(run: Run, tables: seq<seq<Job>>, steps: seq<Step>) {
    && |tables| == |steps| + 1
    && tables[0] == [NewCrawl(run.seed, 0)]
    && forall k :: 0 <= k < |steps| ==>
         && Enabled(tables[k], steps[k]) && WithinRetries(run, tables[k], steps[k])
         && tables[k + 1] == Apply(run, tables[k], steps[k])
  }

  /*
   * Each step keeps the invariant and never raises a depth.
   */

  /** Marking a row that is not published and not finished disturbs nothing else. */
  lemma MarkKeeps(run: Run, jobs: seq<Job>, i: nat, state: JobState, phase: Phase)
    requires Inv(run, jobs) && i < |jobs| && !jobs[i].state.Terminal()
    requires (state == InProgress) == (phase != Idle)
    requires ParentOk(Mark(jobs, i, state, phase), i)
    requires MarkHeld(run, jobs, i, phase)
    requires WorkPublished(Mark(jobs, i, state, phase)[i]) ==> MarkPublished(run, jobs, i)
    ensures Inv(run, Mark(jobs, i, state, phase)) && Grows(jobs, Mark(jobs, i, state, phase))
  {
    var after := Mark(jobs, i, state, phase);
    assert Grows(jobs, after);
    MarkRows(jobs, i, state, phase);
    DepthsKept(run, jobs, after);
    MarkHeldKept(run, jobs, i, state, phase);
    NoCrawlAdded(jobs, after);
    MarkQueuedKept(run, jobs, i, state, phase);
    MarkRelaxedKept(run, jobs, i, state, phase);
  }

  ghost predicate MarkHeld(run: Run, jobs: seq<Job>, i: nat, phase: Phase)
    requires i < |jobs|
  {
    forall u :: Owns(jobs, i, u) ==>
      && (phase.Claimed? ==> phase.claimed == jobs[i].depth)
      && (phase.DepthRead? ==>
            phase.held <= jobs[i].depth && DepthOk(run, jobs, u, phase.held) && AtMost(jobs, u, phase.held))
  }

  ghost predicate MarkPublished(run: Run, jobs: seq<Job>, i: nat)
    requires i < |jobs|
  {
    && (jobs[i].kind.Crawl? ==> Queued(jobs, i))
    && (jobs[i].kind.Expand? ==> forall u :: Owns(jobs, i, u) ==> Relaxed(run, jobs, u, jobs[i].depth))
  }

  lemma MarkRows(jobs: seq<Job>, i: nat, state: JobState, phase: Phase)
    requires Rows(jobs) && i < |jobs| && !jobs[i].state.Terminal()
    requires (state == InProgress) == (phase != Idle)
    requires ParentOk(Mark(jobs, i, state, phase), i)
    ensures Rows(Mark(jobs, i, state, phase))
  {
    var after := Mark(jobs, i, state, phase);
    forall k: nat | k < |after|
      ensures PhaseOk(after[k]) && ParentOk(after, k)
    {
      assert PhaseOk(jobs[k]) && ParentOk(jobs, k);
    }
  }

  lemma MarkHeldKept(run: Run, jobs: seq<Job>, i: nat, state: JobState, phase: Phase)
    requires Refs(jobs) && HeldOk(run, jobs) && i < |jobs| && Grows(jobs, Mark(jobs, i, state, phase))
    requires MarkHeld(run, jobs, i, phase)
    ensures HeldOk(run, Mark(jobs, i, state, phase))
  {
    var after := Mark(jobs, i, state, phase);
    forall k: nat, u: string | k < |after| && Owns(after, k, u)
      ensures after[k].phase.Claimed? ==> after[k].phase.claimed == after[k].depth
      ensures after[k].phase.DepthRead? ==>
                && after[k].phase.held <= after[k].depth
                && DepthOk(run, after, u, after[k].phase.held)
                && AtMost(after, u, after[k].phase.held)
    {
      OwnsGrows(jobs, after, k, u);
      if after[k].phase.DepthRead? {
        DepthOkGrows(run, jobs, after, u, after[k].phase.held);
        AtMostGrows(jobs, after, u, after[k].phase.held);
      }
    }
  }

  lemma MarkQueuedKept(run: Run, jobs: seq<Job>, i: nat, state: JobState, phase: Phase)
    requires Refs(jobs) && QueuedOk(jobs) && i < |jobs| && Grows(jobs, Mark(jobs, i, state, phase))
    requires WorkPublished(Mark(jobs, i, state, phase)[i]) ==> MarkPublished(run, jobs, i)
    ensures QueuedOk(Mark(jobs, i, state, phase))
  {
    var after := Mark(jobs, i, state, phase);
    forall k: nat | k < |after| && after[k].kind.Crawl? && WorkPublished(after[k])
      ensures Queued(after, k)
    {
      QueuedKept(jobs, after, k);
    }
  }

  lemma MarkRelaxedKept(run: Run, jobs: seq<Job>, i: nat, state: JobState, phase: Phase)
    requires Refs(jobs) && RelaxedOk(run, jobs) && i < |jobs| && Grows(jobs, Mark(jobs, i, state, phase))
    requires NoNewUser(jobs, Mark(jobs, i, state, phase))
    requires WorkPublished(Mark(jobs, i, state, phase)[i]) ==> MarkPublished(run, jobs, i)
    ensures RelaxedOk(run, Mark(jobs, i, state, phase))
  {
    var after := Mark(jobs, i, state, phase);
    forall e: nat, u: string | e < |after| && after[e].kind.Expand? && WorkPublished(after[e]) && Owns(after, e, u)
      ensures Relaxed(run, after, u, after[e].depth)
    {
      OwnsGrows(jobs, after, e, u);
      RelaxedGrows(run, jobs, after, u, jobs[e].depth);
    }
  }

  lemma KnownIsGood(run: Run, jobs: seq<Job>, i: nat, u: string)
    requires Inv(run, jobs) && i < |jobs| && Owns(jobs, i, u)
    ensures Known(jobs, u).Some? && Known(jobs, u).value <= jobs[i].depth
    ensures DepthOk(run, jobs, u, Known(jobs, u).value)
    ensures AtMost(jobs, u, Known(jobs, u).value) && AtLeast(jobs, u, Known(jobs, u).value)
  {
    hide DepthOk, Rows, QueuedOk, RelaxedOk, HeldOk, CapsOk;
    KnownMeaning(jobs, u);
    var d := Known(jobs, u).value;
    assert AtMost(jobs, u, d) && AtLeast(jobs, u, d);
    var w: nat :| w < |jobs| && Owns(jobs, w, u) && jobs[w].depth <= d;
    assert DepthOk(run, jobs, u, jobs[w].depth);
  }

  lemma SubjectOwns(jobs: seq<Job>, i: nat, u: string)
    requires Refs(jobs) && i < |jobs|
    ensures Owns(jobs, i, u) <==> u == Subject(jobs, i)
  {}

  lemma ClaimKeeps(run: Run, jobs: seq<Job>, i: nat)
    requires Inv(run, jobs) && Enabled(jobs, Claim(i))
    ensures Inv(run, Apply(run, jobs, Claim(i))) && Grows(jobs, Apply(run, jobs, Claim(i)))
  {
    hide DepthsOk, HeldOk, CapsOk, QueuedOk, RelaxedOk;
    MarkKeeps(run, jobs, i, InProgress, Claimed(jobs[i].depth));
  }

  lemma ReadDepthKeeps(run: Run, jobs: seq<Job>, i: nat)
    requires Inv(run, jobs) && Enabled(jobs, ReadDepth(i))
    ensures Inv(run, Apply(run, jobs, ReadDepth(i))) && Grows(jobs, Apply(run, jobs, ReadDepth(i)))
  {
    hide DepthsOk, CapsOk, QueuedOk, RelaxedOk, DepthOk;
    var u := Subject(jobs, i);
    SubjectOwns(jobs, i, u);
    KnownIsGood(run, jobs, i, u);
    var held := Effective(jobs, u, jobs[i].phase.claimed);
    assert held == Known(jobs, u).value;
    forall v | Owns(jobs, i, v)
      ensures v == u
    {
      SubjectOwns(jobs, i, v);
    }
    assert MarkHeld(run, jobs, i, DepthRead(held));
    MarkKeeps(run, jobs, i, InProgress, DepthRead(held));
  }

  /** Once the expansion at the held depth exists, one exists at the least recorded depth. */
  lemma PublishedQueued(run: Run, jobs: seq<Job>, i: nat, held: nat)
    requires Inv(run, jobs) && i < |jobs| && jobs[i].kind.Crawl? && HasExpansion(jobs, i, held) && held <= jobs[i].depth
    ensures Queued(jobs, i)
  {
    hide DepthOk, QueuedOk, RelaxedOk, HeldOk, CapsOk;
    var u := Lower(jobs[i].kind.target);
    assert Owns(jobs, i, u);
    KnownIsGood(run, jobs, i, u);
    var d := Known(jobs, u).value;
    var w: nat :| w < |jobs| && Owns(jobs, w, u) && jobs[w].depth <= d;
    if jobs[w].kind.Expand? {
      UniqueRow(jobs, u, i, jobs[w].kind.parent);
      assert jobs[w].kind == Expand(i) && AtLeast(jobs, u, jobs[w].depth);
    } else {
      UniqueRow(jobs, u, i, w);
      var e: nat :| e < |jobs| && jobs[e].kind == Expand(i) && jobs[e].depth == held;
      assert Owns(jobs, e, u);
      assert AtLeast(jobs, u, jobs[e].depth);
    }
  }

  lemma EnqueueKeeps(run: Run, jobs: seq<Job>, i: nat, held: nat)
    requires Inv(run, jobs) && i < |jobs| && jobs[i].kind.Crawl? && held <= jobs[i].depth
    requires DepthOk(run, jobs, Lower(jobs[i].kind.target), held)
    ensures Inv(run, EnqueueExpansion(jobs, i, held)) && Extends(jobs, EnqueueExpansion(jobs, i, held))
    ensures EnqueueExpansion(jobs, i, held)[i] == jobs[i] && Queued(EnqueueExpansion(jobs, i, held), i)
  {
    hide Inv, Queued, DepthOk;
    var after := EnqueueExpansion(jobs, i, held);
    if !HasExpansion(jobs, i, held) {
      AppendExpansionKeeps(run, jobs, i, held);
      assert after[|jobs|].kind == Expand(i) && after[|jobs|].depth == held;
    }
    PublishedQueued(run, after, i, held);
  }

  lemma RelaxedWeaken(run: Run, jobs: seq<Job>, u: string, d: nat, e: nat)
    requires Relaxed(run, jobs, u, d) && d <= e
    ensures Relaxed(run, jobs, u, e)
  {
    if e + 1 <= run.maxDepth {
      forall v | Edge(run, u, v)
        ensures Covered(run, jobs, v, e + 1)
      {
        assert Covered(run, jobs, v, d + 1);
        if AtMost(jobs, v, d + 1) {
          AtMostWeaken(jobs, v, d + 1, e + 1);
        }
      }
    }
  }

  lemma PublishCrawlKeeps(run: Run, jobs: seq<Job>, i: nat)
    requires Inv(run, jobs) && Enabled(jobs, Publish(i)) && jobs[i].kind.Crawl?
    ensures Inv(run, Apply(run, jobs, Publish(i))) && Grows(jobs, Apply(run, jobs, Publish(i)))
  {
    hide DepthsOk, CapsOk, QueuedOk, RelaxedOk, DepthOk, Queued;
    assert Owns(jobs, i, Lower(jobs[i].kind.target));
    assert PhaseOk(jobs[i]);
    EnqueueKeeps(run, jobs, i, jobs[i].phase.held);
    MarkKeeps(run, Committed(run, jobs, i), i, InProgress, Published);
  }

  lemma PublishExpandCommit(run: Run, jobs: seq<Job>, i: nat)
    requires Inv(run, jobs) && Enabled(jobs, Publish(i)) && jobs[i].kind.Expand?
    ensures Inv(run, Committed(run, jobs, i)) && Extends(jobs, Committed(run, jobs, i))
    ensures Relaxed(run, Committed(run, jobs, i), Subject(jobs, i), jobs[i].depth)
    ensures PhaseOk(jobs[i]) && ParentOk(jobs, i)
  {
    hide DepthsOk, CapsOk, QueuedOk, RelaxedOk, DepthOk, Relaxed;
    var u := Subject(jobs, i);
    SubjectOwns(jobs, i, u);
    assert PhaseOk(jobs[i]) && ParentOk(jobs, i);
    assert IsCrawlOf(jobs[jobs[i].kind.parent], u);
    assert u in DoneUsers(jobs);
    ExpandKeeps(run, jobs, u, jobs[i].phase.held);
    RelaxedWeaken(run, Committed(run, jobs, i), u, jobs[i].phase.held, jobs[i].depth);
  }

  lemma PublishExpandKeeps(run: Run, jobs: seq<Job>, i: nat)
    requires Inv(run, jobs) && Enabled(jobs, Publish(i)) && jobs[i].kind.Expand?
    ensures Inv(run, Apply(run, jobs, Publish(i))) && Grows(jobs, Apply(run, jobs, Publish(i)))
  {
    hide Inv, Relaxed, Committed;
    PublishExpandCommit(run, jobs, i);
    InvRows(run, jobs);
    var after := Committed(run, jobs, i);
    InvRows(run, after);
    forall v | Owns(after, i, v)
      ensures Relaxed(run, after, v, after[i].depth)
    {
      OwnsGrows(jobs, after, i, v);
      SubjectOwns(jobs, i, v);
    }
    MarkKeeps(run, after, i, InProgress, Published);
  }

  lemma SettleDepth(run: Run, jobs: seq<Job>, i: nat, state: JobState)
    requires Inv(run, jobs) && i < |jobs| && jobs[i].kind.Crawl? && jobs[i].state != InProgress
    requires jobs[i].state == Done ==> Queued(jobs, i)
    ensures var d := Effective(jobs, Lower(jobs[i].kind.target), jobs[i].depth);
            Inv(run, jobs[i := jobs[i].(depth := d)]) && Grows(jobs, jobs[i := jobs[i].(depth := d)])
  {
    hide Inv, DepthOk;
    InvRows(run, jobs);
    var u := Lower(jobs[i].kind.target);
    assert Owns(jobs, i, u);
    KnownIsGood(run, jobs, i, u);
    var d := Known(jobs, u).value;
    if jobs[i].state == Done {
      var e: nat :| e < |jobs| && jobs[e].kind == Expand(i) && AtLeast(jobs, u, jobs[e].depth);
      var w: nat :| w < |jobs| && Owns(jobs, w, u) && jobs[w].depth <= d;
      assert jobs[e].depth <= d;
    }
    LowerRowKeeps(run, jobs, i, d);
  }

  lemma SettleKeeps(run: Run, jobs: seq<Job>, i: nat, state: JobState)
    requires Inv(run, jobs) && i < |jobs| && jobs[i].state == InProgress && state != InProgress
    requires state == Done ==> jobs[i].phase.Published?
    requires state == Skipped ==> ParentIn(jobs, i, {Error, Skipped})
    ensures Inv(run, Settle(jobs, i, state)) && Grows(jobs, Settle(jobs, i, state))
  {
    hide DepthsOk, HeldOk, CapsOk;
    assert ParentOk(jobs, i);
    MarkKeeps(run, jobs, i, state, Idle);
    SettleDepthStep(run, jobs, i, state);
  }

  lemma SettleDepthStep(run: Run, jobs: seq<Job>, i: nat, state: JobState)
    requires Inv(run, jobs) && i < |jobs| && jobs[i].state == InProgress && state != InProgress
    requires Inv(run, Mark(jobs, i, state, Idle)) && Grows(jobs, Mark(jobs, i, state, Idle))
    ensures Inv(run, Settle(jobs, i, state)) && Grows(jobs, Settle(jobs, i, state))
  {
    hide Inv;
    var marked := Mark(jobs, i, state, Idle);
    if jobs[i].kind.Crawl? {
      var u := Lower(jobs[i].kind.target);
      SettleReadsSame(jobs, i, marked[i], u);
      InvQueued(run, marked, i);
      SettleDepth(run, marked, i, state);
      assert Settle(jobs, i, state) == marked[i := marked[i].(depth := Effective(jobs, u, jobs[i].depth))];
    } else {
      assert Settle(jobs, i, state) == marked;
    }
  }

  lemma InvQueued(run: Run, jobs: seq<Job>, i: nat)
    requires Inv(run, jobs) && i < |jobs| && jobs[i].kind.Crawl?
    ensures jobs[i].state == Done ==> Queued(jobs, i)
  {}

  /** Every step of every worker keeps the invariant; no depth ever rises. */
  lemma StepKeeps(run: Run, jobs: seq<Job>, step: Step)
    requires Inv(run, jobs) && Enabled(jobs, step)
    ensures Inv(run, Apply(run, jobs, step)) && Grows(jobs, Apply(run, jobs, step))
  {
    hide Inv, Grows;
    match step
    case Claim(i) => ClaimKeeps(run, jobs, i);
    case ReadDepth(i) => ReadDepthKeeps(run, jobs, i);
    case Publish(i) =>
      if jobs[i].kind.Crawl? {
        PublishCrawlKeeps(run, jobs, i);
      } else {
        PublishExpandKeeps(run, jobs, i);
      }
    case Finish(i, outcome) => SettleKeeps(run, jobs, i, outcome);
    case SetBack(i, to) => SettleKeeps(run, jobs, i, to);
    case Recover(i) => RecoverKeeps(run, jobs, i);
    case Unblock(i) => UnblockKeeps(run, jobs, i);
  }

  lemma UnblockKeeps(run: Run, jobs: seq<Job>, i: nat)
    requires Inv(run, jobs) && Enabled(jobs, Unblock(i))
    ensures Inv(run, Apply(run, jobs, Unblock(i))) && Grows(jobs, Apply(run, jobs, Unblock(i)))
  {
    hide DepthsOk, HeldOk, CapsOk, QueuedOk, RelaxedOk;
    MarkKeeps(run, jobs, i, Pending, Idle);
  }

  lemma RecoverKeeps(run: Run, jobs: seq<Job>, i: nat)
    requires Inv(run, jobs) && Enabled(jobs, Recover(i))
    ensures Inv(run, Apply(run, jobs, Recover(i))) && Grows(jobs, Apply(run, jobs, Recover(i)))
  {
    hide DepthsOk, HeldOk, CapsOk, QueuedOk, RelaxedOk;
    MarkKeeps(run, jobs, i, Pending, Idle);
  }
}
