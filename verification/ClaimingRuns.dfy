/** Fairness and the active cap over whole histories of claims and other work. */
module ClaimingRuns {
  import opened Ownership
  import opened Claiming

  /** Between claims anything may happen to jobs, locks and policies, but only claims give turns. */
  datatype Event = Environment | Claimed(req: Request, job: nat)

  ghost predicate Happens(q: Queue, e: Event, next: Queue) {
    match e
    case Environment => next.turns == q.turns && next.nextTurn >= q.nextTurn
    case Claimed(req, j) => Chosen(q, req, j) && next == AfterClaim(q, req, j)
  }

  ghost predicate IsHistory(states: seq<Queue>, events: seq<Event>) {
    && |states| == |events| + 1
    && (forall t :: t in states[0].turns ==> states[0].turns[t] < states[0].nextTurn)
    && states[0].nextTurn >= 1
    && (forall i :: 0 <= i < |events| ==> Happens(states[i], events[i], states[i + 1]))
  }

  /** Event i is a claim for workspace w in this stage. */
  ghost predicate Serves(states: seq<Queue>, events: seq<Event>, i: nat, w: nat, stage: Stage) {
    && i < |events| && i < |states| && events[i].Claimed? && events[i].req.stage == stage
    && events[i].job in states[i].jobs && states[i].jobs[events[i].job].workspace == w
  }

  lemma EventTurns(q: Queue, e: Event, next: Queue, w: nat, stage: Stage)
    requires Happens(q, e, next)
    ensures next.nextTurn >= q.nextTurn
    ensures e.Claimed? ==> e.job in q.jobs && next.nextTurn == q.nextTurn + 1
    ensures var served := e.Claimed? && e.req.stage == stage && q.jobs[e.job].workspace == w;
            Turn(next, w, stage) == if served then q.nextTurn else Turn(q, w, stage)
  {
    hide LockAll, Admissible, Ahead, Before;
  }

  lemma {:induction false} TurnsAreFresh(states: seq<Queue>, events: seq<Event>, i: nat, w: nat, stage: Stage)
    requires IsHistory(states, events) && i <= |events|
    ensures Turn(states[i], w, stage) < states[i].nextTurn
  {
    hide Happens;
    if i > 0 {
      TurnsAreFresh(states, events, i - 1, w, stage);
      EventTurns(states[i - 1], events[i - 1], states[i], w, stage);
    }
  }

  lemma {:induction false} TurnNeverFalls(states: seq<Queue>, events: seq<Event>, a: nat, b: nat, w: nat, stage: Stage)
    requires IsHistory(states, events) && a <= b <= |events|
    ensures Turn(states[a], w, stage) <= Turn(states[b], w, stage)
    decreases b
  {
    hide Happens, Turn;
    if a < b {
      TurnNeverFalls(states, events, a, b - 1, w, stage);
      TurnsAreFresh(states, events, b - 1, w, stage);
      EventTurns(states[b - 1], events[b - 1], states[b], w, stage);
    }
  }

  lemma {:induction false} TurnKept(states: seq<Queue>, events: seq<Event>, a: nat, b: nat, w: nat, stage: Stage)
    requires IsHistory(states, events) && a <= b <= |events|
    requires forall i :: a <= i < b ==> !Serves(states, events, i, w, stage)
    ensures Turn(states[b], w, stage) == Turn(states[a], w, stage)
    decreases b
  {
    hide Happens, Turn;
    if a < b {
      TurnKept(states, events, a, b - 1, w, stage);
      EventTurns(states[b - 1], events[b - 1], states[b], w, stage);
      assert !Serves(states, events, b - 1, w, stage);
    }
  }

  /** A workspace served twice in a stage: every workspace not served in between had nothing this session could own. */
  lemma NoSecondTurn(states: seq<Queue>, events: seq<Event>, a: nat, b: nat, v: nat, w: nat, stage: Stage, k: nat)
    requires IsHistory(states, events) && a < b < |events| && v != w
    requires Serves(states, events, a, v, stage) && Serves(states, events, b, v, stage)
    requires forall i :: a < i < b ==> !Serves(states, events, i, w, stage)
    requires k in states[b].jobs && states[b].jobs[k].workspace == w
    ensures !Claimable(states[b], events[b].req, k)
  {
    hide LockAll, Matches, Turn, Ahead;
    TurnsAreFresh(states, events, a, w, stage);
    TurnKept(states, events, a, b, w, stage);
    EventTurns(states[a], events[a], states[a + 1], v, stage);
    TurnNeverFalls(states, events, a + 1, b, v, stage);
    assert Happens(states[b], events[b], states[b + 1]);
    assert Turn(states[b], w, stage) < Turn(states[b], v, stage);
  }

  function Served(states: seq<Queue>, events: seq<Event>, i: nat): nat
    requires i < |events| && i < |states| && events[i].Claimed? && events[i].job in states[i].jobs
  {
    states[i].jobs[events[i].job].workspace
  }

  ghost predicate StageClaim(states: seq<Queue>, events: seq<Event>, i: nat, stage: Stage) {
    && i < |events| && i < |states| && events[i].Claimed? && events[i].req.stage == stage
    && events[i].job in states[i].jobs
  }

  ghost predicate CouldServe(states: seq<Queue>, events: seq<Event>, i: nat, w: nat)
    requires i < |events| && i < |states| && events[i].Claimed?
  {
    exists k :: k in states[i].jobs && states[i].jobs[k].workspace == w && Claimable(states[i], events[i].req, k)
  }

  /** At every claim of the stage in a..b, w has a job on offer and one of `others` is served. */
  ghost predicate PassedOver(
    states: seq<Queue>, events: seq<Event>, a: nat, b: nat, w: nat, stage: Stage, others: set<nat>)
  {
    forall i :: a <= i < b && StageClaim(states, events, i, stage) ==>
      CouldServe(states, events, i, w) && Served(states, events, i) in others
  }

  ghost function ClaimsBetween(states: seq<Queue>, events: seq<Event>, a: nat, b: nat, stage: Stage): nat {
    if b <= a then 0
    else ClaimsBetween(states, events, a, b - 1, stage) + if StageClaim(states, events, b - 1, stage) then 1 else 0
  }

  /**
   No starvation: while a workspace offers a job at every claim of a stage and is passed over, each
   other workspace is served at most once, so it waits for at most one claim per other workspace.
   */
  lemma {:induction false} WaitIsBounded(
      states: seq<Queue>, events: seq<Event>, a: nat, b: nat, w: nat, stage: Stage, others: set<nat>)
    requires IsHistory(states, events) && a <= b <= |events| && w !in others
    requires PassedOver(states, events, a, b, w, stage, others)
    ensures ClaimsBetween(states, events, a, b, stage) <= |others|
    decreases b
  {
    hide PassedOver, StageClaim;
    if a < b {
      var served := LastServed(states, events, a, b - 1, w, stage, others);
      WaitIsBounded(states, events, a, b - 1, w, stage, others - served);
      assert |others - served| == |others| - |served|;
    }
  }

  /** Whoever the last claim served was not served before it. */
  lemma LastServed(
      states: seq<Queue>, events: seq<Event>, a: nat, b: nat, w: nat, stage: Stage, others: set<nat>)
    returns (served: set<nat>)
    requires IsHistory(states, events) && a <= b < |events| && w !in others
    requires PassedOver(states, events, a, b + 1, w, stage, others)
    ensures served <= others && |served| == if StageClaim(states, events, b, stage) then 1 else 0
    ensures PassedOver(states, events, a, b, w, stage, others - served)
  {
    hide IsHistory, CouldServe;
    served := {};
    if StageClaim(states, events, b, stage) {
      served := {Served(states, events, b)};
      forall i | a <= i < b && StageClaim(states, events, i, stage)
        ensures Served(states, events, i) in others - served
      {
        PassedOverOnce(states, events, i, b, Served(states, events, i), w, stage, others);
      }
    }
  }

  lemma PassedOverOnce(
      states: seq<Queue>, events: seq<Event>, a: nat, b: nat, v: nat, w: nat, stage: Stage, others: set<nat>)
    requires IsHistory(states, events) && a < b < |events|
    requires StageClaim(states, events, a, stage) && StageClaim(states, events, b, stage)
    requires forall i :: a <= i <= b && StageClaim(states, events, i, stage) ==> Served(states, events, i) in others
    requires w !in others && CouldServe(states, events, b, w)
    requires Served(states, events, a) == v
    ensures Served(states, events, b) != v
  {
    hide LockAll, Claimable, Happens;
    if Served(states, events, b) == v {
      var k :| k in states[b].jobs && states[b].jobs[k].workspace == w && Claimable(states[b], events[b].req, k);
      forall i | a < i < b ensures !Serves(states, events, i, w, stage) {
        assert StageClaim(states, events, i, stage) ==> Served(states, events, i) in others;
      }
      NoSecondTurn(states, events, a, b, v, w, stage, k);
    }
  }

  /** Work other than claims never starts a job, and the policy stays as it is. */
  ghost predicate StartsNothing(q: Queue, next: Queue, w: nat) {
    |Active(next, w)| <= |Active(q, w)| && Cap(next, w) == Cap(q, w)
  }

  /** A workspace's running jobs never exceed its cap. */
  lemma {:induction false} ActiveCapHolds(states: seq<Queue>, events: seq<Event>, w: nat, n: nat)
    requires IsHistory(states, events) && n <= |events|
    requires forall i :: 0 <= i < |events| && events[i].Environment? ==> StartsNothing(states[i], states[i + 1], w)
    requires |Active(states[0], w)| <= Cap(states[0], w)
    ensures |Active(states[n], w)| <= Cap(states[n], w) == Cap(states[0], w)
  {
    hide Chosen, Active, LockAll, Cap;
    if n > 0 {
      ActiveCapHolds(states, events, w, n - 1);
      var q, e := states[n - 1], events[n - 1];
      assert Happens(q, e, states[n]);
      if e.Claimed? {
        ChosenIsClaimable(q, e.req, e.job);
        ClaimStartsOne(q, e.req, e.job, w);
      }
    }
  }

  lemma ChosenIsClaimable(q: Queue, req: Request, j: nat)
    requires Chosen(q, req, j)
    ensures Claimable(q, req, j)
  {
  }

  lemma ClaimStartsOne(q: Queue, req: Request, j: nat, w: nat)
    requires Claimable(q, req, j)
    requires |Active(q, w)| <= Cap(q, w)
    ensures var next := AfterClaim(q, req, j);
            |Active(next, w)| <= Cap(next, w) == Cap(q, w)
  {
    hide LockAll, ProcessingReady, Active;
    ActiveAfterClaim(q, req, j, w);
    assert |Active(q, q.jobs[j].workspace)| < Cap(q, q.jobs[j].workspace);
  }

  lemma ActiveAfterClaim(q: Queue, req: Request, j: nat, w: nat)
    requires Claimable(q, req, j)
    ensures Active(AfterClaim(q, req, j), w) == Active(q, w) + (if q.jobs[j].workspace == w then {j} else {})
  {
    hide LockAll, ProcessingReady;
  }
}
