/**
 Fair claiming: one admission query in turn order, a page of at most a hundred candidates, a retry
 loop that excludes providers another session is acquiring from, and per-stage workspace turns.
 */
module Claiming {
  import opened Common
  import opened Ownership

  datatype Kind =
    | FetchProfile | FetchStats | FetchGames | FetchGameById | CrawlOpponents | FetchResource
    | NormalizePayload | ReprocessArchive | ExpandOpponents | BuildWorkingSet | PrepareExport

  predicate Processing(kind: Kind) {
    kind in {NormalizePayload, ReprocessArchive, ExpandOpponents, BuildWorkingSet, PrepareExport}
  }

  datatype JobState = Waiting | Running | Done | Error | Skipped | Blocked

  datatype Job = Job(
    workspace: nat, run: nat, provider: nat, kind: Kind, bounded: bool, parent: Option<nat>, state: JobState,
    nextAttempt: Option<int>, priority: int, depth: int, enqueued: Option<int>)

  datatype Stage = All | Acquisition | ProcessingStage

  /** The rows a claim reads. `rowLocked` are rows held by other open transactions. */
  datatype Queue = Queue(
    jobs: map<nat, Job>, cancelled: set<nat>, cooldowns: map<nat, int>, caps: map<nat, nat>, defaultCap: nat,
    turns: map<(nat, Stage), nat>, nextTurn: nat, rowLocked: set<nat>, locks: Locks)

  datatype Request = Request(session: nat, now: int, stage: Stage, run: Option<nat>, job: Option<nat>, fair: bool)

  const PAGE: nat := 100

  // ---- Admission ----

  predicate ProcessingReady(q: Queue, j: nat)
    requires j in q.jobs
  {
    var job := q.jobs[j];
    && !(job.kind in {FetchGames, CrawlOpponents} && job.bounded
         && exists c :: c in q.jobs && q.jobs[c].parent == Some(j) && q.jobs[c].kind == NormalizePayload
                        && q.jobs[c].state in {Waiting, Running, Blocked})
    && (job.kind == ExpandOpponents ==>
          job.parent.Some? && job.parent.value in q.jobs && q.jobs[job.parent.value].state in {Done, Error, Skipped})
  }

  function Active(q: Queue, w: nat): set<nat> {
    set j | j in q.jobs && q.jobs[j].workspace == w && q.jobs[j].state == Running
  }

  function Cap(q: Queue, w: nat): nat {
    if w in q.caps then q.caps[w] else q.defaultCap
  }

  predicate Admissible(q: Queue, now: int, j: nat)
    requires j in q.jobs
  {
    var job := q.jobs[j];
    && job.run !in q.cancelled
    && (job.state == Waiting || (job.state == Blocked && job.nextAttempt.Some?))
    && (job.nextAttempt.Some? ==> job.nextAttempt.value <= now)
    && ProcessingReady(q, j)
    && (Processing(job.kind) || !(job.provider in q.cooldowns && q.cooldowns[job.provider] > now))
    && |Active(q, job.workspace)| < Cap(q, job.workspace)
  }

  predicate InStage(stage: Stage, kind: Kind) {
    match stage
    case All => true
    case Acquisition => !Processing(kind)
    case ProcessingStage => Processing(kind)
  }

  /** The rows the query may return before any provider is excluded. */
  predicate Matches(q: Queue, req: Request, j: nat) {
    && j in q.jobs && j !in q.rowLocked && Admissible(q, req.now, j)
    && (req.run.Some? ==> q.jobs[j].run == req.run.value)
    && (!req.fair && req.job.Some? ==> j == req.job.value)
    && InStage(req.stage, q.jobs[j].kind)
  }

  predicate ProviderFree(q: Queue, req: Request, j: nat)
    requires j in q.jobs
  {
    Processing(q.jobs[j].kind) || CanLock(q.locks, req.session, Provider(q.jobs[j].provider))
  }

  /** A job this session could own right now. */
  predicate Claimable(q: Queue, req: Request, j: nat) {
    Matches(q, req, j) && ProviderFree(q, req, j) && CanLock(q.locks, req.session, Executor(j))
  }

  /** Kinds of work that call a provider. */
  predicate CallsProvider(kind: Kind) {
    kind.FetchProfile? || kind.FetchStats? || kind.FetchGames? || kind.FetchGameById? || kind.CrawlOpponents?
    || kind.FetchResource?
  }

  /** Which jobs a session could own, on the rows, locks and policies alone. */
  lemma ClaimableExactly(q: Queue, req: Request, j: nat)
    ensures Claimable(q, req, j) <==>
            && j in q.jobs && j !in q.rowLocked && q.jobs[j].run !in q.cancelled
            && match q.jobs[j].nextAttempt {
                 case Some(due) => due <= req.now && (q.jobs[j].state == Waiting || q.jobs[j].state == Blocked)
                 case None => q.jobs[j].state == Waiting
               }
            && (forall c :: c in q.jobs && q.jobs[c].parent == Some(j) && q.jobs[c].kind == NormalizePayload
                            && q.jobs[j].bounded && (q.jobs[j].kind == FetchGames || q.jobs[j].kind == CrawlOpponents)
                            ==> q.jobs[c].state == Done || q.jobs[c].state == Error || q.jobs[c].state == Skipped)
            && (q.jobs[j].kind == ExpandOpponents ==>
                  exists p :: p in q.jobs && q.jobs[j].parent == Some(p)
                              && (q.jobs[p].state == Done || q.jobs[p].state == Error || q.jobs[p].state == Skipped))
            && (CallsProvider(q.jobs[j].kind) ==>
                  && (q.jobs[j].provider in q.cooldowns ==> q.cooldowns[q.jobs[j].provider] <= req.now)
                  && (Provider(q.jobs[j].provider) in q.locks ==>
                        q.locks[Provider(q.jobs[j].provider)].session == req.session))
            && (Executor(j) in q.locks ==> q.locks[Executor(j)].session == req.session)
            && |set i | i in q.jobs && q.jobs[i].workspace == q.jobs[j].workspace && q.jobs[i].state == Running|
               < (if q.jobs[j].workspace in q.caps then q.caps[q.jobs[j].workspace] else q.defaultCap)
            && (req.run.Some? ==> req.run.value == q.jobs[j].run)
            && (req.job.Some? && !req.fair ==> req.job.value == j)
            && (req.stage == Acquisition ==> CallsProvider(q.jobs[j].kind))
            && (req.stage == ProcessingStage ==> !CallsProvider(q.jobs[j].kind))
  {
    if j in q.jobs {
      var w := q.jobs[j].workspace;
      assert (set i | i in q.jobs && q.jobs[i].workspace == w && q.jobs[i].state == Running) == Active(q, w);
      hide Active;
      ReadyExactly(q, j);
      hide ProcessingReady;
      assert CallsProvider(q.jobs[j].kind) <==> !Processing(q.jobs[j].kind);
    }
  }

  lemma ReadyExactly(q: Queue, j: nat)
    requires j in q.jobs
    ensures ProcessingReady(q, j) <==>
            && (forall c :: c in q.jobs && q.jobs[c].parent == Some(j) && q.jobs[c].kind == NormalizePayload
                            && q.jobs[j].bounded && (q.jobs[j].kind == FetchGames || q.jobs[j].kind == CrawlOpponents)
                            ==> q.jobs[c].state == Done || q.jobs[c].state == Error || q.jobs[c].state == Skipped)
            && (q.jobs[j].kind == ExpandOpponents ==>
                  exists p :: p in q.jobs && q.jobs[j].parent == Some(p)
                              && (q.jobs[p].state == Done || q.jobs[p].state == Error || q.jobs[p].state == Skipped))
  {
  }

  // ---- Order ----

  function Turn(q: Queue, w: nat, stage: Stage): nat {
    if (w, stage) in q.turns then q.turns[(w, stage)] else 0
  }

  predicate NullsFirst(a: Option<int>, b: Option<int>) {
    b.Some? && (a.Some? ==> a.value < b.value)
  }

  predicate Before(q: Queue, stage: Stage, a: nat, b: nat)
    requires a in q.jobs && b in q.jobs
  {
    var x, y := q.jobs[a], q.jobs[b];
    var s, t := Turn(q, x.workspace, stage), Turn(q, y.workspace, stage);
    if s != t then s < t
    else if x.priority != y.priority then x.priority < y.priority
    else if x.depth != y.depth then x.depth < y.depth
    else if x.enqueued != y.enqueued then NullsFirst(x.enqueued, y.enqueued)
    else a < b
  }

  lemma BeforeIsStrictOrder(q: Queue, stage: Stage, a: nat, b: nat, c: nat)
    requires a in q.jobs && b in q.jobs && c in q.jobs
    ensures !Before(q, stage, a, a)
    ensures a != b ==> Before(q, stage, a, b) != Before(q, stage, b, a)
    ensures Before(q, stage, a, b) && Before(q, stage, b, c) ==> Before(q, stage, a, c)
  {
  }

  /** Served no later, field by field: turn, priority, depth, time of enqueueing (null is oldest), id. */
  predicate NoLater(q: Queue, stage: Stage, a: nat, b: nat)
    requires a in q.jobs && b in q.jobs
  {
    var x, y := q.jobs[a], q.jobs[b];
    var s, t := (x.workspace, stage), (y.workspace, stage);
    && (s in q.turns ==> q.turns[s] == 0 || (t in q.turns && q.turns[s] <= q.turns[t]))
    && ((if s in q.turns then q.turns[s] else 0) == (if t in q.turns then q.turns[t] else 0) ==>
          && x.priority <= y.priority
          && (x.priority == y.priority ==> x.depth <= y.depth)
          && (x.priority == y.priority && x.depth == y.depth ==>
                && (x.enqueued.None? || (y.enqueued.Some? && x.enqueued.value <= y.enqueued.value))
                && (x.enqueued == y.enqueued ==> a <= b)))
  }

  /** The order has no freedom left: one of any two jobs comes first, by the first field in which they differ. */
  lemma BeforeExactly(q: Queue, stage: Stage, a: nat, b: nat)
    requires a in q.jobs && b in q.jobs
    ensures NoLater(q, stage, a, b) <==> a == b || Before(q, stage, a, b)
  {
  }

  // ---- The page ----

  function Candidates(q: Queue, req: Request, excluded: set<nat>): set<nat> {
    set j | j in q.jobs && Matches(q, req, j) && (Processing(q.jobs[j].kind) || q.jobs[j].provider !in excluded)
  }

  /** The first `PAGE` members of `all`, in order. */
  predicate IsPage(q: Queue, stage: Stage, all: set<nat>, page: seq<nat>)
    requires forall j :: j in all ==> j in q.jobs
  {
    && |page| <= PAGE
    && (forall i :: 0 <= i < |page| ==> page[i] in all)
    && (forall i, k :: 0 <= i < k < |page| ==> Before(q, stage, page[i], page[k]))
    && (forall i, j :: 0 <= i < |page| && j in all && j !in page ==> Before(q, stage, page[i], j))
    && ((exists j :: j in all && j !in page) ==> |page| == PAGE)
  }

  predicate Least(q: Queue, stage: Stage, s: set<nat>, m: nat)
    requires forall j :: j in s ==> j in q.jobs
  {
    m in s && forall j :: j in s && j != m ==> Before(q, stage, m, j)
  }

  lemma {:induction false} LeastExists(q: Queue, stage: Stage, s: set<nat>)
    requires s != {} && forall j :: j in s ==> j in q.jobs
    ensures exists m :: m in s && Least(q, stage, s, m)
    decreases s
  {
    hide Before;
    var x :| x in s;
    if s == {x} {
      assert Least(q, stage, s, x);
    } else {
      LeastExists(q, stage, s - {x});
      var m :| m in s - {x} && Least(q, stage, s - {x}, m);
      var least := if Before(q, stage, m, x) then m else x;
      forall j | j in s && j != least ensures Before(q, stage, least, j) {
        BeforeIsStrictOrder(q, stage, m, x, m);
        BeforeIsStrictOrder(q, stage, x, m, j);
      }
      assert Least(q, stage, s, least);
    }
  }

  /** The query: ordered, limited to a page. */
  method Query(q: Queue, req: Request, excluded: set<nat>) returns (page: seq<nat>)
    ensures IsPage(q, req.stage, Candidates(q, req, excluded), page)
    ensures forall i, k :: 0 <= i < k < |page| ==> page[i] != page[k] && NoLater(q, req.stage, page[i], page[k])
    ensures forall i, j :: 0 <= i < |page| && j in Candidates(q, req, excluded) && j !in page ==>
              NoLater(q, req.stage, page[i], j)
  {
    hide Before, Matches, NoLater;
    var all := Candidates(q, req, excluded);
    page := [];
    var left := all;
    while left != {} && |page| < PAGE
      invariant left <= all && |page| <= PAGE
      invariant forall j :: j in all ==> (j in page <==> j !in left)
      invariant forall i :: 0 <= i < |page| ==> page[i] in all
      invariant forall i, k :: 0 <= i < k < |page| ==> Before(q, req.stage, page[i], page[k])
      invariant forall i, j :: 0 <= i < |page| && j in left ==> Before(q, req.stage, page[i], j)
      decreases left
    {
      LeastExists(q, req.stage, left);
      var m :| m in left && Least(q, req.stage, left, m);
      page := page + [m];
      left := left - {m};
    }
    forall a, b | a in all && b in all && Before(q, req.stage, a, b) ensures a != b && NoLater(q, req.stage, a, b) {
      BeforeIsStrictOrder(q, req.stage, a, b, a);
      BeforeExactly(q, req.stage, a, b);
    }
  }

  // ---- What a claim should pick ----

  /** Reachable jobs ordered before j whose executor lock another session holds. */
  function Ahead(q: Queue, req: Request, j: nat): set<nat>
    requires j in q.jobs
  {
    set b | b in q.jobs && Matches(q, req, b) && ProviderFree(q, req, b)
            && !CanLock(q.locks, req.session, Executor(b)) && Before(q, req.stage, b, j)
  }

  /** j is the first job in turn order that this session could own, and fewer than a page of held jobs hide it. */
  ghost predicate First(q: Queue, req: Request, j: nat) {
    && Claimable(q, req, j)
    && (forall k :: k in q.jobs && Claimable(q, req, k) && k != j ==> Before(q, req.stage, j, k))
    && |Ahead(q, req, j)| < PAGE
  }

  ghost predicate Chosen(q: Queue, req: Request, j: nat) {
    First(q, req, j) && (req.fair && req.job.Some? ==> req.job.value == j)
  }

  function KeysOf(job: Job, j: nat): seq<Key> {
    if Processing(job.kind) then [Executor(j)] else [Provider(job.provider), Executor(j)]
  }

  /** The row, the workspace's turn and the session's locks after a claim. */
  function AfterClaim(q: Queue, req: Request, j: nat): Queue
    requires Claimable(q, req, j)
  {
    var job := q.jobs[j];
    q.(jobs := q.jobs[j := job.(state := Running, nextAttempt := None)],
       turns := q.turns[(job.workspace, req.stage) := q.nextTurn], nextTurn := q.nextTurn + 1,
       locks := LockAll(q.locks, req.session, KeysOf(job, j)))
  }

  ghost predicate Counted(locks: Locks) { forall k :: k in locks ==> locks[k].count >= 1 }

  /** All of a page's first `n` members were reachable and held elsewhere. */
  ghost predicate Held(q: Queue, req: Request, page: seq<nat>, n: nat)
    requires n <= |page|
  {
    forall i :: 0 <= i < n ==>
      Matches(q, req, page[i]) && ProviderFree(q, req, page[i]) && !CanLock(q.locks, req.session, Executor(page[i]))
  }

  ghost predicate Unlockable(q: Queue, req: Request, excluded: set<nat>) {
    forall p :: p in excluded ==> !CanLock(q.locks, req.session, Provider(p))
  }

  lemma {:induction false} SeqSetSize(page: seq<nat>, s: set<nat>)
    requires forall x :: x in s ==> x in page
    ensures |s| <= |page|
    decreases |page|
  {
    if page == [] {
      assert s == {};
    } else {
      SeqSetSize(page[1..], s - {page[0]});
    }
  }

  lemma {:induction false} DistinctSize(page: seq<nat>, s: set<nat>)
    requires forall i, k :: 0 <= i < k < |page| ==> page[i] != page[k]
    requires forall i :: 0 <= i < |page| ==> page[i] in s
    ensures |page| <= |s|
    decreases |page|
  {
    if page != [] { DistinctSize(page[1..], s - {page[0]}); }
  }

  /** The first claimable member of a page is the first claimable job of all. */
  lemma HitIsFirst(q: Queue, req: Request, excluded: set<nat>, page: seq<nat>, i: nat)
    requires IsPage(q, req.stage, Candidates(q, req, excluded), page) && Unlockable(q, req, excluded)
    requires i < |page| && Claimable(q, req, page[i])
    requires forall k :: 0 <= k < i ==> !Claimable(q, req, page[k])
    ensures First(q, req, page[i])
  {
    var j := page[i];
    forall b | b in Ahead(q, req, j) ensures b in page[..i] {
      assert b in Candidates(q, req, excluded);
      if b in page {
        var k :| 0 <= k < |page| && page[k] == b;
        BeforeIsStrictOrder(q, req.stage, j, b, j);
        assert page[..i][k] == b;
      } else {
        BeforeIsStrictOrder(q, req.stage, j, b, j);
      }
    }
    SeqSetSize(page[..i], Ahead(q, req, j));
    forall k | k in q.jobs && Claimable(q, req, k) && k != j ensures Before(q, req.stage, j, k) {
      assert k in Candidates(q, req, excluded);
    }
  }

  /** A page with nothing to claim and nothing newly excluded means no claim is due. */
  lemma MissIsFinal(q: Queue, req: Request, excluded: set<nat>, page: seq<nat>)
    requires IsPage(q, req.stage, Candidates(q, req, excluded), page) && Unlockable(q, req, excluded)
    requires Held(q, req, page, |page|)
    ensures forall j :: !First(q, req, j)
  {
    forall j | First(q, req, j) ensures false {
      assert j in Candidates(q, req, excluded);
      assert j !in page;
      forall i, k | 0 <= i < k < |page| ensures page[i] != page[k] {
        BeforeIsStrictOrder(q, req.stage, page[i], page[k], page[i]);
      }
      forall i | 0 <= i < |page| ensures page[i] in Ahead(q, req, j) {}
      DistinctSize(page, Ahead(q, req, j));
    }
  }

  /** The job to claim is served no later, field by field, than any other this session could own. */
  lemma FirstIsNoLater(q: Queue, req: Request, j: nat)
    requires First(q, req, j)
    ensures forall k :: k in q.jobs && Claimable(q, req, k) ==> NoLater(q, req.stage, j, k)
  {
    forall k | k in q.jobs && Claimable(q, req, k) ensures NoLater(q, req.stage, j, k) {
      BeforeExactly(q, req.stage, j, k);
    }
  }

  lemma FirstIsUnique(q: Queue, req: Request, i: nat, j: nat)
    requires First(q, req, i) && First(q, req, j)
    ensures i == j
  {
    if i != j { BeforeIsStrictOrder(q, req.stage, i, j, i); }
  }

  /** A claim writes one row and one turn. */
  lemma AfterClaimMeans(q: Queue, req: Request, j: nat)
    requires Claimable(q, req, j)
    ensures var after := AfterClaim(q, req, j);
            && after == q.(jobs := after.jobs, turns := after.turns, nextTurn := q.nextTurn + 1, locks := after.locks)
            && after.jobs.Keys == q.jobs.Keys
            && after.jobs[j] == q.jobs[j].(state := Running, nextAttempt := None)
            && (forall i :: i in q.jobs && i != j ==> after.jobs[i] == q.jobs[i])
            && Turn(after, q.jobs[j].workspace, req.stage) == q.nextTurn
            && (forall w: nat, stage :: (w, stage) != (q.jobs[j].workspace, req.stage) ==>
                  Turn(after, w, stage) == Turn(q, w, stage))
  {
    assert j in q.jobs;
    hide LockAll, Processing, CallsProvider, Matches;
  }

  /** From then on nobody else can lock the job, nor the provider it calls; no other key changes hands. */
  lemma AfterClaimLocks(q: Queue, req: Request, j: nat)
    requires Claimable(q, req, j) && Counted(q.locks)
    ensures var locks, job := AfterClaim(q, req, j).locks, q.jobs[j];
            && (forall s :: CanLock(locks, s, Executor(j)) <==> s == req.session)
            && (CallsProvider(job.kind) ==>
                  forall s :: CanLock(locks, s, Provider(job.provider)) <==> s == req.session)
            && (forall k :: k != Executor(j) && (CallsProvider(job.kind) ==> k != Provider(job.provider))
                            ==> (k in locks <==> k in q.locks))
            && (forall k :: k in locks && k in q.locks ==> locks[k].session == q.locks[k].session)
  {
    var job := q.jobs[j];
    var keys := KeysOf(job, j);
    LockAllCounts(q.locks, req.session, keys);
    assert CallsProvider(job.kind) <==> !Processing(job.kind);
    assert Executor(j) in keys && (CallsProvider(job.kind) <==> Provider(job.provider) in keys);
    assert forall k :: k in keys ==> k == Executor(j) || k == Provider(job.provider);
    assert AfterClaim(q, req, j).locks == LockAll(q.locks, req.session, keys);
    hide LockAll, Processing, CallsProvider, Matches, AfterClaim, KeysOf;
  }

  // ---- A hundred held jobs hide a claimable one ----

  function Below(n: nat): (r: set<nat>)
    ensures forall j: nat :: j in r <==> j < n
  {
    if n == 0 then {} else Below(n - 1) + {n - 1}
  }

  /** Session 1 holds the first n executor locks. */
  function HeldBelow(n: nat): (r: Locks)
    ensures forall k :: k in r <==> k.Executor? && k.job < n
    ensures forall k :: k in r ==> r[k] == Hold(1, 1)
  {
    if n == 0 then map[] else HeldBelow(n - 1)[Executor(n - 1) := Hold(1, 1)]
  }

  /** Jobs 0 to 100 wait, alike; session 1 holds the executor locks of the first hundred. */
  function Crowded(): Queue {
    Queue(map j | j in Below(101) :: Job(0, 0, 0, BuildWorkingSet, false, None, Waiting, None, 0, 0, None),
          {}, map[], map[], 1, map[], 1, {}, HeldBelow(100))
  }

  const ASK := Request(2, 0, All, None, None, false)

  lemma {:induction false} BelowSize(n: nat)
    ensures |Below(n)| == n
  {
    if n > 0 { BelowSize(n - 1); }
  }

  /** Job 100 could be owned, yet no claim is due: the page ends at the hundredth held job. */
  lemma HeldJobsHideAClaim()
    ensures Claimable(Crowded(), ASK, 100) && forall j :: !First(Crowded(), ASK, j)
  {
    hide Below, HeldBelow;
    var q := Crowded();
    assert Active(q, 0) == {};
    forall j | j in q.jobs ensures Matches(q, ASK, j) && (Claimable(q, ASK, j) <==> j == 100) {
      assert Executor(j) in q.locks <==> j < 100;
    }
    assert Below(100) <= Ahead(q, ASK, 100);
    BelowSize(100);
    SubsetSize(Below(100), Ahead(q, ASK, 100));
  }

  function Providers(q: Queue): set<nat> {
    set j | j in q.jobs :: q.jobs[j].provider
  }

  class Scheduler {
    var q: Queue
    var fence: Option<nat>
    var keys: seq<Key>

    constructor (queue: Queue)
      ensures q == queue && fence == None && keys == []
    {
      q, fence, keys := queue, None, [];
    }

    method TryLock(s: nat, k: Key) returns (ok: bool)
      modifies this`q
      ensures ok == CanLock(old(q).locks, s, k)
      ensures q == if ok then old(q).(locks := Lock(old(q).locks, s, k)) else old(q)
    {
      ok := CanLock(q.locks, s, k);
      if ok { q := q.(locks := Lock(q.locks, s, k)); }
    }

    method Unlock(s: nat, ks: seq<Key>)
      modifies this`q
      ensures q == old(q).(locks := UnlockAll(old(q).locks, s, ks))
    {
      var i := |ks|;
      assert ks[..i] == ks;
      while i > 0
        invariant 0 <= i <= |ks|
        invariant q == old(q).(locks := q.locks)
        invariant UnlockAll(q.locks, s, ks[..i]) == UnlockAll(old(q).locks, s, ks)
      {
        i := i - 1;
        assert ks[..i + 1][..i] == ks[..i];
        q := q.(locks := Ownership.Unlock(q.locks, s, ks[i]));
      }
    }

    /** Tries to take one candidate's locks; on failure every lock taken is given back. */
    method TryCandidate(s: nat, j: nat, excluded: set<nat>) returns (taken: bool, excludedNow: set<nat>)
      requires j in q.jobs && Counted(q.locks)
      modifies this`q
      ensures var job := old(q).jobs[j];
              var free := Processing(job.kind) || CanLock(old(q).locks, s, Provider(job.provider));
              var skipped := !Processing(job.kind) && job.provider in excluded;
              && taken == (!skipped && free && CanLock(old(q).locks, s, Executor(j)))
              && excludedNow == (if skipped || free then excluded else excluded + {job.provider})
              && q == (if taken then old(q).(locks := LockAll(old(q).locks, s, KeysOf(job, j))) else old(q))
    {
      excludedNow, taken := excluded, false;
      var job := q.jobs[j];
      var held: seq<Key> := [];
      ghost var before := q.locks;
      if !Processing(job.kind) {
        if job.provider in excluded { return; }
        var ok := TryLock(s, Provider(job.provider));
        if !ok { excludedNow := excluded + {job.provider}; return; }
        held := [Provider(job.provider)];
        assert held[..0] == [];
        assert q.locks == LockAll(before, s, held);
      }
      var got := TryLock(s, Executor(j));
      if !got {
        UnlockUndoesLock(before, s, held);
        Unlock(s, held);
        return;
      }
      assert KeysOf(job, j)[..|held|] == held;
      taken := true;
    }

    method RecordClaim(stage: Stage, j: nat)
      requires j in q.jobs
      modifies this
      ensures fence == Some(j) && keys == KeysOf(old(q).jobs[j], j)
      ensures var job := old(q).jobs[j];
              q == old(q).(jobs := old(q).jobs[j := job.(state := Running, nextAttempt := None)],
                           turns := old(q).turns[(job.workspace, stage) := old(q).nextTurn],
                           nextTurn := old(q).nextTurn + 1)
    {
      var job := q.jobs[j];
      q := q.(jobs := q.jobs[j := job.(state := Running, nextAttempt := None)],
              turns := q.turns[(job.workspace, stage) := q.nextTurn], nextTurn := q.nextTurn + 1);
      fence, keys := Some(j), KeysOf(job, j);
    }

    /**
     Claims the first job in turn order this session can own. Excluding providers and asking again
     finds the same job as one pass that knew every provider lock beforehand.
     */
    method ClaimNextJob(req: Request) returns (claimed: Option<nat>)
      requires Counted(q.locks)
      modifies this
      ensures claimed.Some? <==> exists j :: Chosen(old(q), req, j)
      ensures claimed.Some? ==>
                && Chosen(old(q), req, claimed.value)
                && q == AfterClaim(old(q), req, claimed.value)
                && fence == Some(claimed.value) && keys == KeysOf(old(q).jobs[claimed.value], claimed.value)
      ensures claimed.Some? ==>
                && claimed.value in old(q).jobs
                && (forall k :: k in old(q).jobs && Claimable(old(q), req, k) ==>
                      NoLater(old(q), req.stage, claimed.value, k))
      ensures claimed.None? ==> q == old(q) && fence == old(fence) && keys == old(keys)
    {
      hide Before, NoLater, Matches, First, UnlockAll, LockAll;
      ghost var was := q;
      var excluded: set<nat> := {};
      while true
        invariant q == was && fence == old(fence) && keys == old(keys)
        invariant Unlockable(was, req, excluded)
        decreases Providers(was) - excluded
      {
        var known := excluded;
        var page := Query(q, req, excluded);
        var i := 0;
        while i < |page|
          invariant 0 <= i <= |page|
          invariant q == was && fence == old(fence) && keys == old(keys)
          invariant known <= excluded && excluded - known <= Providers(was) && Unlockable(was, req, excluded)
          invariant forall k :: 0 <= k < i ==> !Claimable(was, req, page[k])
          invariant excluded == known ==> Held(was, req, page, i)
        {
          var j := page[i];
          assert j in Candidates(was, req, known);
          var taken, now := TryCandidate(req.session, j, excluded);
          if taken {
            HitIsFirst(was, req, known, page, i);
            if req.fair && req.job.Some? && j != req.job.value {
              UnlockUndoesLock(was.locks, req.session, KeysOf(was.jobs[j], j));
              Unlock(req.session, KeysOf(q.jobs[j], j));
              forall k | Chosen(was, req, k) ensures false { FirstIsUnique(was, req, j, k); }
              return None;
            }
            assert Chosen(was, req, j);
            FirstIsNoLater(was, req, j);
            RecordClaim(req.stage, j);
            return Some(j);
          }
          excluded := now;
          i := i + 1;
        }
        if excluded == known {
          MissIsFinal(was, req, known, page);
          return None;
        }
      }
    }
  }
}
