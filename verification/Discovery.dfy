/**
 The job table of one opponent crawl: acquisition rows (crawl_opponents), expansion rows
 (expand_opponents), the query for a user's known depth, promotion to a shallower depth,
 and the loop that turns opponents into child jobs.

 A row's position in the table is its job id.
 */
module Discovery {
  import opened Common

  datatype Kind = Crawl(target: string) | Expand(parent: nat)

  /** A blocked row has a retry time and is claimed again; a paused one waits to be unblocked. */
  datatype JobState = Pending | InProgress | Done | Error | Skipped | Blocked | Paused {
    predicate Terminal() {
      Done? || Error? || Skipped?
    }
  }

  /** How far the worker that owns an in-progress row has come; lost when it dies. */
  datatype Phase = Idle | Claimed(claimed: nat) | DepthRead(held: nat) | Published

  datatype Job = Job(kind: Kind, depth: nat, state: JobState, phase: Phase, retries: nat)

  /** The bounds of a crawl and the (fixed) opponents retained for each lower-cased user. */
  datatype Run = Run(seed: string, opponents: map<string, seq<string>>,
                     maxDepth: nat, maxUsers: nat, maxJobs: nat, maxRetries: nat)
  {
    function Opponents(user: string): seq<string> {
      if user in opponents then opponents[user] else []
    }
  }

  function LowerChar(c: char): char {
    if 'A' <= c <= 'Z' then (c as int + 32) as char else c
  }

  function Lower(s: string): string {
    seq(|s|, i requires 0 <= i < |s| => LowerChar(s[i]))
  }

  function NewCrawl(target: string, depth: nat): Job {
    Job(Crawl(target), depth, Pending, Idle, 0)
  }

  function NewExpansion(parent: nat, depth: nat): Job {
    Job(Expand(parent), depth, Pending, Idle, 0)
  }

  /** Row i speaks for a user: as the acquisition row, or as an expansion of that row. */
  predicate Owns(jobs: seq<Job>, i: nat, user: string)
    requires i < |jobs|
  {
    match jobs[i].kind
    case Crawl(target) => Lower(target) == user
    case Expand(p) => p < |jobs| && jobs[p].kind.Crawl? && Lower(jobs[p].kind.target) == user
  }

  predicate IsCrawlOf(job: Job, user: string) {
    job.kind.Crawl? && Lower(job.kind.target) == user
  }

  ghost predicate Absent(jobs: seq<Job>, user: string) {
    forall i: nat :: i < |jobs| ==> !Owns(jobs, i, user)
  }

  ghost predicate AtMost(jobs: seq<Job>, user: string, depth: int) {
    exists i: nat :: i < |jobs| && Owns(jobs, i, user) && jobs[i].depth <= depth
  }

  ghost predicate AtLeast(jobs: seq<Job>, user: string, depth: int) {
    forall i: nat :: i < |jobs| && Owns(jobs, i, user) ==> depth <= jobs[i].depth
  }

  /** The least depth among the rows that speak for a user. */
  function KnownUpTo(jobs: seq<Job>, user: string, n: nat): Option<nat>
    requires n <= |jobs|
  {
    if n == 0 then None
    else
      var rest := KnownUpTo(jobs, user, n - 1);
      if Owns(jobs, n - 1, user) && (rest.None? || jobs[n - 1].depth < rest.value)
      then Some(jobs[n - 1].depth) else rest
  }

  function Known(jobs: seq<Job>, user: string): Option<nat> {
    KnownUpTo(jobs, user, |jobs|)
  }

  lemma {:induction false} KnownUpToMeaning(jobs: seq<Job>, user: string, n: nat)
    requires n <= |jobs|
    ensures KnownUpTo(jobs, user, n).None? ==> forall i: nat :: i < n ==> !Owns(jobs, i, user)
    ensures KnownUpTo(jobs, user, n).Some? ==>
              && (exists i: nat :: i < n && Owns(jobs, i, user) && jobs[i].depth == KnownUpTo(jobs, user, n).value)
              && (forall i: nat :: i < n && Owns(jobs, i, user) ==> KnownUpTo(jobs, user, n).value <= jobs[i].depth)
  {
    if n > 0 {
      KnownUpToMeaning(jobs, user, n - 1);
    }
  }

  /** What the query answers: no row at all, or the exact minimum over the user's rows. */
  lemma KnownMeaning(jobs: seq<Job>, user: string)
    ensures Known(jobs, user).None? <==> Absent(jobs, user)
    ensures forall d: nat :: Known(jobs, user) == Some(d) <==> AtMost(jobs, user, d) && AtLeast(jobs, user, d)
  {
    KnownUpToMeaning(jobs, user, |jobs|);
  }

  /** Dedup key of an expansion: its acquisition row and its depth, in any state. */
  predicate HasExpansion(jobs: seq<Job>, parent: nat, depth: nat) {
    exists e :: 0 <= e < |jobs| && jobs[e].kind == Expand(parent) && jobs[e].depth == depth
  }

  function EnqueueExpansion(jobs: seq<Job>, parent: nat, depth: nat): (r: seq<Job>)
    ensures |jobs| <= |r|
  {
    if HasExpansion(jobs, parent, depth) then jobs else jobs + [NewExpansion(parent, depth)]
  }

  /** min(asked, known depth of the user), as every caller of the expansion queue computes it. */
  function Effective(jobs: seq<Job>, user: string, asked: nat): nat {
    var known := Known(jobs, user);
    if known.Some? && known.value < asked then known.value else asked
  }

  function LowerRow(job: Job, user: string, depth: nat): Job {
    if IsCrawlOf(job, user) && job.state != InProgress && job.depth > depth then job.(depth := depth) else job
  }

  function LowerRows(jobs: seq<Job>, user: string, depth: nat): (r: seq<Job>)
    ensures |r| == |jobs|
    ensures forall i :: 0 <= i < |jobs| ==> r[i] == LowerRow(jobs[i], user, depth)
  {
    seq(|jobs|, i requires 0 <= i < |jobs| => LowerRow(jobs[i], user, depth))
  }

  predicate Promotable(job: Job, user: string) {
    IsCrawlOf(job, user) && job.state != Error && job.state != Skipped
  }

  /** Queue an expansion for each of the first n rows that are live or done acquisitions of the user. */
  function QueueFor(parents: seq<Job>, jobs: seq<Job>, user: string, depth: nat, n: nat): (r: seq<Job>)
    requires n <= |parents|
    ensures |jobs| <= |r|
  {
    if n == 0 then jobs
    else
      var rest := QueueFor(parents, jobs, user, depth, n - 1);
      if Promotable(parents[n - 1], user)
      then EnqueueExpansion(rest, n - 1, Effective(rest, user, depth)) else rest
  }

  function Promote(jobs: seq<Job>, user: string, depth: nat): (r: seq<Job>)
    ensures |jobs| <= |r|
  {
    QueueFor(jobs, LowerRows(jobs, user, depth), user, depth, |jobs|)
  }

  function CrawlRows(jobs: seq<Job>): set<nat> {
    set i: nat | i < |jobs| && jobs[i].kind.Crawl?
  }

  function CrawlUsers(jobs: seq<Job>): set<string> {
    set i: nat | i < |jobs| && jobs[i].kind.Crawl? :: Lower(jobs[i].kind.target)
  }

  predicate Full(run: Run, jobs: seq<Job>) {
    |CrawlUsers(jobs)| >= run.maxUsers || |CrawlRows(jobs)| >= run.maxJobs
  }

  function Child(run: Run, jobs: seq<Job>, next: nat, name: string): (r: seq<Job>)
    ensures |jobs| <= |r|
  {
    var known := Known(jobs, Lower(name));
    if known.Some? && known.value <= next then jobs
    else if known.Some? then Promote(jobs, Lower(name), next)
    else if Full(run, jobs) then jobs
    else jobs + [NewCrawl(name, next)]
  }

  function Children(run: Run, jobs: seq<Job>, next: nat, names: seq<string>): (r: seq<Job>)
    ensures |jobs| <= |r|
  {
    if names == [] then jobs
    else Child(run, Children(run, jobs, next, names[..|names| - 1]), next, names[|names| - 1])
  }

  predicate OnFrontier(jobs: seq<Job>, depth: nat, name: string) {
    var known := Known(jobs, Lower(name));
    known.None? || known.value > depth
  }

  function Frontier(jobs: seq<Job>, depth: nat, names: seq<string>): seq<string> {
    if names == [] then []
    else
      var rest := Frontier(jobs, depth, names[..|names| - 1]);
      if OnFrontier(jobs, depth, names[|names| - 1]) then rest + [names[|names| - 1]] else rest
  }

  /** One committed expansion of a user at a depth. */
  function ExpandFrontier(run: Run, jobs: seq<Job>, user: string, depth: nat): (r: seq<Job>)
    ensures |jobs| <= |r|
  {
    if depth + 1 > run.maxDepth then jobs
    else Children(run, jobs, depth + 1, Frontier(jobs, depth, run.Opponents(user)))
  }

  /** A row's new state and phase; blocking it for another try is counted. */
  function Marked(job: Job, state: JobState, phase: Phase): Job {
    job.(state := state, phase := phase, retries := if state == Blocked then job.retries + 1 else job.retries)
  }

  /** Both a job row and its descendants agree after a finished attempt: depth falls to the known depth. */
  function Settle(jobs: seq<Job>, i: nat, state: JobState): seq<Job>
    requires i < |jobs|
  {
    var depth := match jobs[i].kind
      case Crawl(target) => Effective(jobs, Lower(target), jobs[i].depth)
      case Expand(_) => jobs[i].depth;
    jobs[i := Marked(jobs[i], state, Idle).(depth := depth)]
  }

  /** Promotion queues expansions only. */
  lemma {:induction false} QueueForKeepsCrawls(parents: seq<Job>, jobs: seq<Job>, user: string, depth: nat, n: nat)
    requires n <= |parents|
    ensures CrawlRows(QueueFor(parents, jobs, user, depth, n)) == CrawlRows(jobs)
  {
    if n > 0 { QueueForKeepsCrawls(parents, jobs, user, depth, n - 1); }
  }

  lemma PromoteKeepsCrawls(jobs: seq<Job>, user: string, depth: nat)
    ensures CrawlRows(Promote(jobs, user, depth)) == CrawlRows(jobs)
  {
    var lowered := LowerRows(jobs, user, depth);
    assert CrawlRows(lowered) == CrawlRows(jobs);
    QueueForKeepsCrawls(jobs, lowered, user, depth, |jobs|);
  }

  /** The discovery_jobs rows of a crawl run, updated in place. */
  class JobTable {
    var jobs: seq<Job>

    constructor (run: Run)
      ensures jobs == [NewCrawl(run.seed, 0)]
    {
      jobs := [NewCrawl(run.seed, 0)];
    }

    /** The nested minimum of the query: each acquisition row, and under it each of its expansions. */
    method KnownCrawlDepth(name: string) returns (r: Option<nat>)
      ensures r == Known(jobs, Lower(name))
    {
      var user := Lower(name);
      r := None;
      for p := 0 to |jobs|
        invariant r.None? ==> forall i: nat :: i < p ==> !IsCrawlOf(jobs[i], user)
        invariant r.Some? ==> exists i: nat :: i < |jobs| && Owns(jobs, i, user) && jobs[i].depth == r.value
        invariant r.Some? ==> forall i: nat :: i < p && IsCrawlOf(jobs[i], user) ==> r.value <= jobs[i].depth
        invariant r.Some? ==> forall i: nat ::
          i < |jobs| && jobs[i].kind.Expand? && jobs[i].kind.parent < p && Owns(jobs, i, user) ==>
            r.value <= jobs[i].depth
      {
        if IsCrawlOf(jobs[p], user) {
          var least := jobs[p].depth;
          assert Owns(jobs, p, user);
          for c := 0 to |jobs|
            invariant exists i: nat :: i < |jobs| && Owns(jobs, i, user) && jobs[i].depth == least
            invariant least <= jobs[p].depth
            invariant forall i: nat :: i < c && jobs[i].kind == Expand(p) ==> least <= jobs[i].depth
          {
            if jobs[c].kind == Expand(p) && jobs[c].depth < least {
              least := jobs[c].depth;
              assert Owns(jobs, c, user);
            }
          }
          if r.None? || least < r.value {
            r := Some(least);
          }
        }
      }
      KnownMeaning(jobs, user);
      if r.None? {
        assert Absent(jobs, user);
      } else {
        assert AtLeast(jobs, user, r.value);
        assert AtMost(jobs, user, r.value);
      }
    }

    method EnqueueOpponentExpansion(parent: nat, asked: nat) returns (inserted: bool)
      requires parent < |jobs| && jobs[parent].kind.Crawl?
      modifies this
      ensures var user := Lower(old(jobs)[parent].kind.target);
              jobs == EnqueueExpansion(old(jobs), parent, Effective(old(jobs), user, asked))
      ensures inserted <==> |jobs| == |old(jobs)| + 1
    {
      var known := KnownCrawlDepth(jobs[parent].kind.target);
      var depth := if known.Some? && known.value < asked then known.value else asked;
      inserted := !HasExpansion(jobs, parent, depth);
      if inserted {
        jobs := jobs + [NewExpansion(parent, depth)];
      }
    }

    method PromoteCrawlDepth(name: string, depth: nat)
      modifies this
      ensures jobs == Promote(old(jobs), Lower(name), depth)
    {
      var user := Lower(name);
      var parents := jobs;
      jobs := LowerRows(jobs, user, depth);
      ghost var lowered := jobs;
      for i := 0 to |parents|
        invariant |parents| <= |jobs|
        invariant forall k :: 0 <= k < |parents| ==> jobs[k].kind == parents[k].kind
        invariant jobs == QueueFor(parents, lowered, user, depth, i)
      {
        if Promotable(parents[i], user) {
          var _ := EnqueueOpponentExpansion(i, depth);
        }
      }
    }

    method EnqueueOpponentChildren(run: Run, next: nat, names: seq<string>) returns (inserted: nat)
      modifies this
      ensures jobs == if next > run.maxDepth then old(jobs) else Children(run, old(jobs), next, names)
      ensures |CrawlRows(jobs)| == |CrawlRows(old(jobs))| + inserted
    {
      inserted := 0;
      if next > run.maxDepth {
        return;
      }
      for i := 0 to |names|
        invariant jobs == Children(run, old(jobs), next, names[..i])
        invariant |CrawlRows(jobs)| == |CrawlRows(old(jobs))| + inserted
      {
        assert names[..i + 1][..i] == names[..i];
        var name := names[i];
        var known := KnownCrawlDepth(name);
        if known.Some? && known.value <= next {
        } else if known.Some? {
          PromoteKeepsCrawls(jobs, Lower(name), next);
          PromoteCrawlDepth(name, next);
        } else if |CrawlUsers(jobs)| >= run.maxUsers {
        } else if |CrawlRows(jobs)| >= run.maxJobs {
        } else {
          assert CrawlRows(jobs + [NewCrawl(name, next)]) == CrawlRows(jobs) + {|jobs|};
          jobs := jobs + [NewCrawl(name, next)];
          inserted := inserted + 1;
        }
      }
      assert names[..|names|] == names;
    }

    method ExpandOpponentFrontier(run: Run, name: string, depth: nat)
      modifies this
      ensures jobs == ExpandFrontier(run, old(jobs), Lower(name), depth)
    {
      if depth + 1 > run.maxDepth {
        return;
      }
      var edges := run.Opponents(Lower(name));
      var frontier: seq<string> := [];
      for i := 0 to |edges|
        invariant jobs == old(jobs)
        invariant frontier == Frontier(jobs, depth, edges[..i])
      {
        assert edges[..i + 1][..i] == edges[..i];
        var known := KnownCrawlDepth(edges[i]);
        if !(known.Some? && known.value <= depth) {
          frontier := frontier + [edges[i]];
        }
      }
      assert edges[..|edges|] == edges;
      var _ := EnqueueOpponentChildren(run, depth + 1, frontier);
    }

    /**
     A transient failure is blocked for another try, and counted, until the retry limit makes it an
     error. Blocking for any other reason sets no retry time and so pauses the row.
     */
    method FinishAttempt(i: nat, outcome: JobState, transient: bool, maxRetries: nat) returns (result: JobState)
      requires i < |jobs|
      modifies this
      ensures result == if transient then (if old(jobs)[i].retries < maxRetries then Blocked else Error)
                        else if outcome == Blocked then Paused else outcome
      ensures jobs == Settle(old(jobs), i, result)
    {
      var row := jobs[i].(phase := Idle);
      result := if outcome == Blocked then Paused else outcome;
      if transient {
        if row.retries < maxRetries {
          result := Blocked;
          row := row.(retries := row.retries + 1);
        } else {
          result := Error;
        }
      }
      row := row.(state := result);
      jobs := jobs[i := row];
      if row.kind.Crawl? {
        var known := KnownCrawlDepth(row.kind.target);
        SettleReadsSame(old(jobs), i, row, Lower(row.kind.target));
        if known.Some? {
          jobs := jobs[i := row.(depth := Min(row.depth, known.value))];
        }
      }
    }
  }

  lemma {:induction false} SettleReadsSame(jobs: seq<Job>, i: nat, row: Job, user: string)
    requires i < |jobs| && row.kind == jobs[i].kind && row.depth == jobs[i].depth
    ensures Known(jobs[i := row], user) == Known(jobs, user)
  {
    var after := jobs[i := row];
    assert forall k: nat :: k < |jobs| ==>
             Owns(after, k, user) == Owns(jobs, k, user) && after[k].depth == jobs[k].depth;
    KnownMeaning(jobs, user);
    KnownMeaning(after, user);
    if Known(jobs, user).Some? {
      var d := Known(jobs, user).value;
      assert AtMost(jobs, user, d) && AtLeast(jobs, user, d);
      var w: nat :| w < |jobs| && Owns(jobs, w, user) && jobs[w].depth <= d;
      assert Owns(after, w, user) && after[w].depth <= d;
      assert AtMost(after, user, d) && AtLeast(after, user, d);
    }
  }
}
