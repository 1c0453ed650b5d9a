/**
 What the table operations of a crawl do, row by row: which names are one user, which rows a promotion
 changes and adds, what a finished attempt leaves, and whom a binding cap lets in first.
 */
module DiscoveryMeaning {
  import opened Common
  import opened Discovery

  // ---- Names ----

  predicate SameLetter(a: char, b: char) {
    a == b || ('A' <= a <= 'Z' && b as int == a as int + 32) || ('A' <= b <= 'Z' && a as int == b as int + 32)
  }

  /** Two names are one user exactly when they agree letter by letter but for ASCII case. */
  lemma LowerFolds(s: string, t: string)
    ensures Lower(s) == Lower(t) <==> |s| == |t| && forall i :: 0 <= i < |s| ==> SameLetter(s[i], t[i])
  {
    assert |Lower(s)| == |s| && |Lower(t)| == |t|;
    if |s| == |t| {
      forall i | 0 <= i < |s| ensures Lower(s)[i] == Lower(t)[i] <==> SameLetter(s[i], t[i]) {
        assert Lower(s)[i] == LowerChar(s[i]) && Lower(t)[i] == LowerChar(t[i]);
      }
    }
  }

  // ---- Expansions and promotions ----

  /** m is the smaller of d and the least depth recorded for the user. */
  ghost predicate IsLeast(jobs: seq<Job>, user: string, d: nat, m: nat) {
    m <= d && AtLeast(jobs, user, m) && (m == d || AtMost(jobs, user, m))
  }

  lemma EffectiveIsLeast(jobs: seq<Job>, user: string, d: nat, m: nat)
    ensures IsLeast(jobs, user, d, m) <==> Effective(jobs, user, d) == m
  {
    KnownMeaning(jobs, user);
    var known := Known(jobs, user);
    if known.Some? {
      var k := known.value;
      assert AtMost(jobs, user, k) && AtLeast(jobs, user, k);
      var w: nat :| w < |jobs| && Owns(jobs, w, user) && jobs[w].depth <= k;
    }
  }

  /** Queuing an expansion: one for this row at the least depth there is, and no other change. */
  lemma EnqueueMeans(jobs: seq<Job>, parent: nat, asked: nat)
    requires parent < |jobs| && jobs[parent].kind.Crawl?
    ensures var user := Lower(jobs[parent].kind.target);
            var after := EnqueueExpansion(jobs, parent, Effective(jobs, user, asked));
            && jobs <= after && |after| <= |jobs| + 1
            && exists e: nat :: e < |after| && after[e].kind == Expand(parent)
                                && IsLeast(jobs, user, asked, after[e].depth)
                                && (e == |jobs| ==> after[e] == Job(Expand(parent), after[e].depth, Pending, Idle, 0))
  {
    var user := Lower(jobs[parent].kind.target);
    var m := Effective(jobs, user, asked);
    EffectiveIsLeast(jobs, user, asked, m);
    var after := EnqueueExpansion(jobs, parent, m);
    if HasExpansion(jobs, parent, m) {
      var e: nat :| e < |jobs| && jobs[e].kind == Expand(parent) && jobs[e].depth == m;
      assert after[e].kind == Expand(parent);
    } else {
      assert after[|jobs|] == NewExpansion(parent, m);
    }
  }

  /** An idle acquisition of the user falls to the depth; every other row stays as it is. */
  predicate Fallen(was: Job, now: Job, user: string, d: nat) {
    now == if was.kind.Crawl? && Lower(was.kind.target) == user && was.state != InProgress
           then was.(depth := if was.depth < d then was.depth else d) else was
  }

  /** A live or done acquisition of the user. */
  predicate Expandable(job: Job, user: string) {
    job.kind.Crawl? && Lower(job.kind.target) == user && job.state in {Pending, InProgress, Done, Blocked, Paused}
  }

  /** Rows added after row `from` are new expansions, at depth m, of such acquisitions. */
  ghost predicate AddsExpansions(jobs: seq<Job>, after: seq<Job>, from: nat, user: string, m: nat) {
    forall e: nat :: from <= e < |after| ==>
      && after[e].kind.Expand? && after[e].kind.parent < |jobs| && Expandable(jobs[after[e].kind.parent], user)
      && after[e] == Job(after[e].kind, m, Pending, Idle, 0)
  }

  ghost predicate HasExpansionAt(after: seq<Job>, p: nat, m: nat) {
    exists e: nat :: e < |after| && after[e].kind == Expand(p) && after[e].depth == m
  }

  lemma AppendKeepsLeast(parents: seq<Job>, jobs: seq<Job>, user: string, d: nat, m: nat, p: nat)
    requires IsLeast(jobs, user, d, m) && p < |parents| <= |jobs| && Promotable(parents[p], user)
    requires forall i :: 0 <= i < |parents| ==> jobs[i].kind == parents[i].kind
    ensures IsLeast(jobs + [NewExpansion(p, m)], user, d, m)
  {
    var after := jobs + [NewExpansion(p, m)];
    forall i: nat | i < |after| && Owns(after, i, user) ensures m <= after[i].depth {
      if i < |jobs| { assert Owns(jobs, i, user); }
    }
    if m < d {
      var w: nat :| w < |jobs| && Owns(jobs, w, user) && jobs[w].depth <= m;
      assert Owns(after, w, user) && after[w].depth <= m;
    }
  }

  /** What queuing for the first n rows has come to. */
  ghost predicate QueuedFor(parents: seq<Job>, jobs: seq<Job>, after: seq<Job>, user: string, d: nat, m: nat, n: nat)
    requires n <= |parents|
  {
    && jobs <= after && IsLeast(after, user, d, m) && AddsExpansions(parents, after, |jobs|, user, m)
    && (forall p: nat :: p < n && Promotable(parents[p], user) ==> HasExpansionAt(after, p, m))
  }

  /** One more acquisition: its expansion at m exists, or is added. */
  lemma QueueOne(parents: seq<Job>, jobs: seq<Job>, rest: seq<Job>, user: string, d: nat, m: nat, p: nat)
    requires p < |parents| == |jobs| && QueuedFor(parents, jobs, rest, user, d, m, p) && Promotable(parents[p], user)
    requires forall i :: 0 <= i < |parents| ==> jobs[i].kind == parents[i].kind
    ensures QueuedFor(parents, jobs, EnqueueExpansion(rest, p, m), user, d, m, p + 1)
  {
    var after := EnqueueExpansion(rest, p, m);
    if !HasExpansion(rest, p, m) {
      assert forall i :: 0 <= i < |parents| ==> rest[i].kind == parents[i].kind;
      AppendKeepsLeast(parents, rest, user, d, m, p);
      assert after[|rest|] == NewExpansion(p, m);
    }
    hide IsLeast;
    assert HasExpansionAt(after, p, m);
    forall q: nat | HasExpansionAt(rest, q, m) ensures HasExpansionAt(after, q, m) {
      var e: nat :| e < |rest| && rest[e].kind == Expand(q) && rest[e].depth == m;
      assert after[e] == rest[e];
    }
  }

  lemma {:induction false} QueueForMeans(parents: seq<Job>, jobs: seq<Job>, user: string, d: nat, m: nat, n: nat)
    requires n <= |parents| == |jobs| && IsLeast(jobs, user, d, m)
    requires forall i :: 0 <= i < |parents| ==> jobs[i].kind == parents[i].kind
    ensures QueuedFor(parents, jobs, QueueFor(parents, jobs, user, d, n), user, d, m, n)
  {
    if n > 0 {
      QueueForMeans(parents, jobs, user, d, m, n - 1);
      var rest := QueueFor(parents, jobs, user, d, n - 1);
      if Promotable(parents[n - 1], user) {
        EffectiveIsLeast(rest, user, d, m);
        hide IsLeast;
        QueueOne(parents, jobs, rest, user, d, m, n - 1);
      }
    }
  }

  lemma LoweredLeast(jobs: seq<Job>, user: string, d: nat, m: nat)
    requires IsLeast(jobs, user, d, m)
    ensures IsLeast(LowerRows(jobs, user, d), user, d, m)
  {
    var low := LowerRows(jobs, user, d);
    forall i: nat | i < |jobs| ensures low[i].kind == jobs[i].kind && (Owns(low, i, user) <==> Owns(jobs, i, user)) {}
    forall i: nat | i < |low| && Owns(low, i, user) ensures m <= low[i].depth { assert Owns(jobs, i, user); }
    if m < d {
      var w: nat :| w < |jobs| && Owns(jobs, w, user) && jobs[w].depth <= m;
      assert Owns(low, w, user) && low[w].depth <= m;
    }
  }

  /**
   A promotion, row by row: idle acquisitions of the user fall to the depth and nothing else changes;
   each live or done one has an expansion at the least depth there is, and only such are added.
   */
  lemma PromoteMeans(jobs: seq<Job>, user: string, d: nat, m: nat)
    requires IsLeast(jobs, user, d, m)
    ensures var after := Promote(jobs, user, d);
            && |jobs| <= |after| && (forall i: nat :: i < |jobs| ==> Fallen(jobs[i], after[i], user, d))
            && AddsExpansions(jobs, after, |jobs|, user, m)
            && (forall p: nat :: p < |jobs| && Expandable(jobs[p], user) ==> HasExpansionAt(after, p, m))
  {
    var low := LowerRows(jobs, user, d);
    LoweredLeast(jobs, user, d, m);
    QueueForMeans(jobs, low, user, d, m, |jobs|);
  }

  // ---- Finished attempts ----

  /** The row gets its state and, if it is an acquisition, its user's least depth; other rows stay as they are. */
  lemma SettleMeans(jobs: seq<Job>, i: nat, state: JobState)
    requires i < |jobs|
    ensures var after := Settle(jobs, i, state);
            && |after| == |jobs| && (forall k :: 0 <= k < |jobs| && k != i ==> after[k] == jobs[k])
            && after[i].kind == jobs[i].kind && after[i].state == state && after[i].phase == Idle
            && after[i].retries == jobs[i].retries + (if state == Blocked then 1 else 0)
            && (jobs[i].kind.Expand? ==> after[i].depth == jobs[i].depth)
            && (jobs[i].kind.Crawl? ==>
                  IsLeast(jobs, Lower(jobs[i].kind.target), jobs[i].depth, after[i].depth))
  {
    if jobs[i].kind.Crawl? {
      var user := Lower(jobs[i].kind.target);
      EffectiveIsLeast(jobs, user, jobs[i].depth, Effective(jobs, user, jobs[i].depth));
    }
  }

  // ---- Whom a binding cap lets in ----

  /** Rows keep their kind and place; rows are only added. */
  ghost predicate KindsGrow(a: seq<Job>, b: seq<Job>) {
    |a| <= |b| && forall i :: 0 <= i < |a| ==> b[i].kind == a[i].kind
  }

  ghost predicate HasRow(jobs: seq<Job>, u: string) { exists p :: 0 <= p < |jobs| && IsCrawlOf(jobs[p], u) }

  lemma AbsentHasNoRow(jobs: seq<Job>, u: string)
    ensures Absent(jobs, u) <==> !HasRow(jobs, u)
    ensures Known(jobs, u).None? <==> !HasRow(jobs, u)
  {
    KnownMeaning(jobs, u);
    if HasRow(jobs, u) {
      var p :| 0 <= p < |jobs| && IsCrawlOf(jobs[p], u);
      assert Owns(jobs, p, u);
    }
    forall i: nat | i < |jobs| && Owns(jobs, i, u) ensures HasRow(jobs, u) {
      if jobs[i].kind.Expand? { assert IsCrawlOf(jobs[jobs[i].kind.parent], u); } else { assert IsCrawlOf(jobs[i], u); }
    }
  }

  lemma FullStays(run: Run, a: seq<Job>, b: seq<Job>)
    requires KindsGrow(a, b) && Full(run, a)
    ensures Full(run, b)
  {
    forall u | u in CrawlUsers(a) ensures u in CrawlUsers(b) {
      var i: nat :| i < |a| && a[i].kind.Crawl? && Lower(a[i].kind.target) == u;
      assert b[i].kind == a[i].kind;
    }
    SubsetSize(CrawlUsers(a), CrawlUsers(b));
    SubsetSize(CrawlRows(a), CrawlRows(b));
  }

  /** One child: nothing, expansions only, or one new acquisition row at the end. */
  lemma ChildAdds(run: Run, jobs: seq<Job>, next: nat, name: string)
    ensures var r, u := Child(run, jobs, next, name), Lower(name);
            && KindsGrow(jobs, r)
            && (if !HasRow(jobs, u) && !Full(run, jobs) then |r| == |jobs| + 1 && r[|jobs|].kind == Crawl(name)
                else forall i :: |jobs| <= i < |r| ==> r[i].kind.Expand?)
  {
    var u := Lower(name);
    AbsentHasNoRow(jobs, u);
    EffectiveIsLeast(jobs, u, next, Effective(jobs, u, next));
    PromoteMeans(jobs, u, next, Effective(jobs, u, next));
    hide Known, Promote, Full;
  }

  /** Every mention of v comes after a mention of u. */
  ghost predicate Precedes(names: seq<string>, u: string, v: string) {
    forall j :: 0 <= j < |names| && Lower(names[j]) == v ==> Mentions(names[..j], u)
  }

  ghost predicate Mentions(names: seq<string>, u: string) { exists i :: 0 <= i < |names| && Lower(names[i]) == u }

  lemma PrecedesInit(names: seq<string>, u: string, v: string)
    requires names != [] && Precedes(names, u, v)
    ensures var n := |names| - 1;
            Precedes(names[..n], u, v) && (Lower(names[n]) == v ==> Mentions(names[..n], u))
  {
    var n := |names| - 1;
    forall j | 0 <= j < n && Lower(names[..n][j]) == v ensures Mentions(names[..n][..j], u) {
      assert names[..n][..j] == names[..j] && names[..n][j] == names[j];
    }
  }

  lemma MentionsMore(names: seq<string>, u: string)
    requires names != []
    ensures Mentions(names, u) <==> Mentions(names[..|names| - 1], u) || Lower(names[|names| - 1]) == u
  {
    var n := |names| - 1;
    if Mentions(names[..n], u) {
      var i :| 0 <= i < n && Lower(names[..n][i]) == u;
      assert names[i] == names[..n][i];
    }
    if Mentions(names, u) {
      var i :| 0 <= i < |names| && Lower(names[i]) == u;
      if i < n { assert names[..n][i] == names[i]; }
    }
  }

  /** u comes first: every row of v stands behind a row of u, and a mentioned u has a row unless a cap is reached. */
  ghost predicate First(run: Run, jobs: seq<Job>, u: string, v: string, mentioned: bool) {
    && (forall q :: 0 <= q < |jobs| && IsCrawlOf(jobs[q], v) ==> HasRow(jobs[..q], u))
    && (mentioned ==> HasRow(jobs, u) || Full(run, jobs))
  }

  lemma RowStays(a: seq<Job>, b: seq<Job>, u: string)
    requires KindsGrow(a, b) && HasRow(a, u)
    ensures HasRow(b, u) && (forall q :: |a| <= q <= |b| ==> HasRow(b[..q], u))
  {
    var p :| 0 <= p < |a| && IsCrawlOf(a[p], u);
    assert IsCrawlOf(b[p], u);
    forall q | |a| <= q <= |b| ensures HasRow(b[..q], u) { assert IsCrawlOf(b[..q][p], u); }
  }

  lemma OldRowsInOrder(a: seq<Job>, b: seq<Job>, u: string, v: string, q: nat)
    requires KindsGrow(a, b) && q < |a| && IsCrawlOf(b[q], v)
    requires IsCrawlOf(a[q], v) ==> HasRow(a[..q], u)
    ensures HasRow(b[..q], u)
  {
    assert IsCrawlOf(a[q], v);
    var p :| 0 <= p < q && IsCrawlOf(a[..q][p], u);
    assert IsCrawlOf(b[..q][p], u);
  }

  lemma ChildKeepsFirst(run: Run, jobs: seq<Job>, next: nat, name: string, u: string, v: string, mentioned: bool)
    requires u != v && First(run, jobs, u, v, mentioned) && (Lower(name) == v ==> mentioned)
    ensures First(run, Child(run, jobs, next, name), u, v, mentioned || Lower(name) == u)
  {
    var r := Child(run, jobs, next, name);
    ChildAdds(run, jobs, next, name);
    if HasRow(jobs, u) { RowStays(jobs, r, u); }
    if Full(run, jobs) { FullStays(run, jobs, r); }
    hide Child, Full, HasRow;
    forall q | 0 <= q < |r| && IsCrawlOf(r[q], v) ensures HasRow(r[..q], u) {
      if q < |jobs| { OldRowsInOrder(jobs, r, u, v, q); }
    }
    if Lower(name) == u && !HasRow(jobs, u) && !Full(run, jobs) { NewRow(r, |jobs|, name); }
  }

  lemma NewRow(jobs: seq<Job>, i: nat, name: string)
    requires i < |jobs| && jobs[i].kind == Crawl(name)
    ensures HasRow(jobs, Lower(name))
  {
    assert IsCrawlOf(jobs[i], Lower(name));
  }

  lemma {:induction false} ChildrenInOrder(
      run: Run, jobs: seq<Job>, next: nat, names: seq<string>, u: string, v: string)
    requires u != v && !HasRow(jobs, v) && Precedes(names, u, v)
    ensures First(run, Children(run, jobs, next, names), u, v, Mentions(names, u))
    decreases |names|
  {
    if names != [] {
      var n := |names| - 1;
      PrecedesInit(names, u, v);
      MentionsMore(names, u);
      hide Precedes, Mentions, First, HasRow;
      ChildrenInOrder(run, jobs, next, names[..n], u, v);
      ChildKeepsFirst(run, Children(run, jobs, next, names[..n]), next, names[n], u, v, Mentions(names[..n], u));
    }
  }

  /** The filter keeps the order of opponents that are not in the table yet. */
  lemma {:induction false} FrontierKeepsOrder(jobs: seq<Job>, depth: nat, names: seq<string>, u: string, v: string)
    requires !HasRow(jobs, u) && Precedes(names, u, v)
    ensures Precedes(Frontier(jobs, depth, names), u, v)
    ensures Mentions(names, u) ==> Mentions(Frontier(jobs, depth, names), u)
    decreases |names|
  {
    if names != [] {
      var n := |names| - 1;
      var rest := Frontier(jobs, depth, names[..n]);
      PrecedesInit(names, u, v);
      MentionsMore(names, u);
      FrontierKeepsOrder(jobs, depth, names[..n], u, v);
      AbsentHasNoRow(jobs, u);
      if OnFrontier(jobs, depth, names[n]) {
        var more := rest + [names[n]];
        assert more[..|rest|] == rest;
        MentionsMore(more, u);
        PrecedesMore(rest, names[n], u, v);
      }
    }
  }

  lemma PrecedesMore(names: seq<string>, name: string, u: string, v: string)
    requires Precedes(names, u, v) && (Lower(name) == v ==> Mentions(names, u))
    ensures Precedes(names + [name], u, v)
  {
    var more := names + [name];
    forall j | 0 <= j < |more| && Lower(more[j]) == v ensures Mentions(more[..j], u) {
      if j < |names| { assert more[..j] == names[..j] && more[j] == names[j]; } else { assert more[..j] == names; }
    }
  }

  /**
   A cap lets opponents in in their order: if i is mentioned before any mention of j, neither has a row
   yet and j gets one, then i gets one too, with a smaller job id.
   */
  lemma EarlierOpponentsFirst(run: Run, jobs: seq<Job>, user: string, depth: nat, i: nat, j: nat, q: nat)
    requires depth + 1 <= run.maxDepth && i < j < |run.Opponents(user)|
    requires var edges := run.Opponents(user);
             && Lower(edges[i]) != Lower(edges[j])
             && (forall k :: 0 <= k <= i ==> Lower(edges[k]) != Lower(edges[j]))
             && Absent(jobs, Lower(edges[i])) && Absent(jobs, Lower(edges[j]))
    requires var after := ExpandFrontier(run, jobs, user, depth);
             q < |after| && IsCrawlOf(after[q], Lower(run.Opponents(user)[j]))
    ensures exists p :: 0 <= p < q
                        && IsCrawlOf(ExpandFrontier(run, jobs, user, depth)[p], Lower(run.Opponents(user)[i]))
  {
    var edges := run.Opponents(user);
    var u, v := Lower(edges[i]), Lower(edges[j]);
    AbsentHasNoRow(jobs, u);
    AbsentHasNoRow(jobs, v);
    forall k | 0 <= k < |edges| && Lower(edges[k]) == v ensures Mentions(edges[..k], u) {
      assert edges[..k][i] == edges[i];
    }
    FrontierKeepsOrder(jobs, depth, edges, u, v);
    ChildrenInOrder(run, jobs, depth + 1, Frontier(jobs, depth, edges), u, v);
    var after := ExpandFrontier(run, jobs, user, depth);
    assert HasRow(after[..q], u);
    var p :| 0 <= p < q && IsCrawlOf(after[..q][p], u);
    assert IsCrawlOf(after[p], u);
  }
}
