/**
 The work-budget ledger: every charge is posted to a budget and to its workspace's month, network
 reads are reserved before and settled after, and refunds go back to the month of the reservation.
 */
module Ledger {
  import opened Common

  datatype Dim = Games | Units | Bytes | Requests

  datatype Usage = Usage(games: int, units: int, bytes: int, requests: int)

  const ZERO := Usage(0, 0, 0, 0)

  function At(u: Usage, d: Dim): int {
    match d case Games => u.games case Units => u.units case Bytes => u.bytes case Requests => u.requests
  }

  function Plus(u: Usage, v: Usage): Usage {
    Usage(u.games + v.games, u.units + v.units, u.bytes + v.bytes, u.requests + v.requests)
  }

  /** Ceilings are positive, as the policy's constructor demands. */
  datatype Policy = Policy(job: Usage, workspace: Usage, maxResponse: int, queued: int, active: int)

  predicate Positive(u: Usage) { u.games >= 1 && u.units >= 1 && u.bytes >= 1 && u.requests >= 1 }

  predicate ValidPolicy(p: Policy) {
    Positive(p.job) && Positive(p.workspace) && p.maxResponse >= 1 && p.queued >= 1 && p.active >= 1
  }

  function MinUsage(u: Usage, v: Usage): Usage {
    Usage(Min(u.games, v.games), Min(u.units, v.units), Min(u.bytes, v.bytes), Min(u.requests, v.requests))
  }

  function MaxUsage(u: Usage, v: Usage): Usage {
    Usage(Max(u.games, v.games), Max(u.units, v.units), Max(u.bytes, v.bytes), Max(u.requests, v.requests))
  }

  /** Operators tighten only the shared ceilings; resuming extends every ceiling. */
  function Tighten(stored: Policy, offered: Policy): Policy {
    stored.(workspace := MinUsage(stored.workspace, offered.workspace),
            queued := Min(stored.queued, offered.queued), active := Min(stored.active, offered.active))
  }

  function Extend(p: Policy, offered: Policy): Policy {
    Policy(MaxUsage(p.job, offered.job), MaxUsage(p.workspace, offered.workspace),
           Max(p.maxResponse, offered.maxResponse), Max(p.queued, offered.queued), Max(p.active, offered.active))
  }

  function ExtendShared(p: Policy, offered: Policy): Policy {
    Extend(p, offered).(job := p.job, maxResponse := p.maxResponse)
  }

  datatype Stored = Stored(policy: Policy, managed: bool)

  datatype Budget = Budget(workspace: nat, run: nat, policy: Policy, used: Usage)

  datatype Reservation = Reservation(budget: nat, workspace: nat, month: nat, reserved: int, consumed: Option<int>)

  /** Budget and reservation ids are positions; a month is named by its start. */
  datatype Ledger = Ledger(
    budgets: seq<Budget>, months: map<(nat, nat), Usage>, reservations: seq<Reservation>,
    items: set<(nat, nat)>, policies: map<nat, Stored>)

  function Month(l: Ledger, w: nat, m: nat): Usage {
    if (w, m) in l.months then l.months[(w, m)] else ZERO
  }

  function Shared(l: Ledger, w: nat, fallback: Policy): Stored {
    if w in l.policies then l.policies[w] else Stored(fallback, false)
  }

  // ---- Admission arithmetic ----

  datatype Error = BudgetExceeded(dim: Dim, remaining: int) | QuotaExceeded(dim: Dim, remaining: int) | Rejected

  function JobRoom(l: Ledger, b: nat, d: Dim): int
    requires b < |l.budgets|
  {
    At(l.budgets[b].policy.job, d) - At(l.budgets[b].used, d)
  }

  function SharedRoom(l: Ledger, b: nat, m: nat, d: Dim): int
    requires b < |l.budgets|
  {
    var w := l.budgets[b].workspace;
    At(Shared(l, w, l.budgets[b].policy).policy.workspace, d) - At(Month(l, w, m), d)
  }

  function Room(l: Ledger, b: nat, m: nat, d: Dim): int
    requires b < |l.budgets|
  {
    Min(JobRoom(l, b, d), SharedRoom(l, b, m, d))
  }

  /** The first dimension, in the order asked, without the requested room. */
  function Refusal(l: Ledger, b: nat, m: nat, wants: seq<(Dim, int)>): Option<Error>
    requires b < |l.budgets|
  {
    if wants == [] then None
    else
      var (d, n) := wants[0];
      if JobRoom(l, b, d) < n then Some(BudgetExceeded(d, Max(0, JobRoom(l, b, d))))
      else if SharedRoom(l, b, m, d) < n then Some(QuotaExceeded(d, Max(0, SharedRoom(l, b, m, d))))
      else Refusal(l, b, m, wants[1..])
  }

  lemma {:induction false} RefusalMeans(l: Ledger, b: nat, m: nat, wants: seq<(Dim, int)>)
    requires b < |l.budgets|
    ensures Refusal(l, b, m, wants).None? <==> forall i :: 0 <= i < |wants| ==> Room(l, b, m, wants[i].0) >= wants[i].1
  {
    if wants != [] {
      RefusalMeans(l, b, m, wants[1..]);
      assert forall i :: 0 < i < |wants| ==> wants[i] == wants[1..][i - 1];
      assert forall i :: 0 <= i < |wants| - 1 ==> wants[1..][i] == wants[i + 1];
    }
  }

  /** The error names the first dimension asked for that lacks room, and which of the two ceilings is to blame. */
  lemma {:induction false} RefusalNames(l: Ledger, b: nat, m: nat, wants: seq<(Dim, int)>) returns (i: nat)
    requires b < |l.budgets| && Refusal(l, b, m, wants).Some?
    ensures i < |wants| && forall k :: 0 <= k < i ==> Room(l, b, m, wants[k].0) >= wants[k].1
    ensures var (d, n) := wants[i];
            var own := At(l.budgets[b].policy.job, d) - At(l.budgets[b].used, d);
            && Room(l, b, m, d) < n
            && (own < n ==> Refusal(l, b, m, wants) == Some(BudgetExceeded(d, if own < 0 then 0 else own)))
            && (own >= n ==> Refusal(l, b, m, wants) == Some(QuotaExceeded(d, Max(0, SharedRoom(l, b, m, d)))))
  {
    if Room(l, b, m, wants[0].0) < wants[0].1 {
      i := 0;
    } else {
      var rest := RefusalNames(l, b, m, wants[1..]);
      i := rest + 1;
      assert forall k :: 0 < k < i ==> wants[k] == wants[1..][k - 1];
    }
  }

  lemma RefusalOfMore(l: Ledger, b: nat, m: nat, want: (Dim, int), rest: seq<(Dim, int)>)
    requires b < |l.budgets|
    ensures Refusal(l, b, m, [want] + rest) ==
            if Refusal(l, b, m, [want]).Some? then Refusal(l, b, m, [want]) else Refusal(l, b, m, rest)
  {
    assert ([want] + rest)[1..] == rest;
  }

  lemma WantsInOrder(l: Ledger, b: nat, m: nat)
    requires b < |l.budgets|
    ensures var q, g, u, y := Refusal(l, b, m, [(Requests, 1)]), Refusal(l, b, m, [(Games, 1)]),
                              Refusal(l, b, m, [(Units, 1)]), Refusal(l, b, m, [(Bytes, 1)]);
            Refusal(l, b, m, RESERVE_WANTS) == if q.Some? then q else if g.Some? then g else if u.Some? then u else y
  {
    assert RESERVE_WANTS == [(Requests, 1)] + ([(Games, 1)] + ([(Units, 1)] + [(Bytes, 1)]));
    RefusalOfMore(l, b, m, (Requests, 1), [(Games, 1)] + ([(Units, 1)] + [(Bytes, 1)]));
    RefusalOfMore(l, b, m, (Games, 1), [(Units, 1)] + [(Bytes, 1)]);
    RefusalOfMore(l, b, m, (Units, 1), [(Bytes, 1)]);
  }

  const CHUNK: int := 65536

  function ReadLimit(maxResponse: int, available: int): int {
    Min(maxResponse, if available < 2 * CHUNK then available / 2 else available - CHUNK)
  }

  function Reserved(limit: int): int { limit + Min(CHUNK, limit) }

  /** The limit is the largest allowed read whose reservation, with one read of headroom, fits the allowance. */
  lemma ReadLimitIsLargest(maxResponse: int, available: int, n: int)
    requires maxResponse >= 1 && available >= 2
    ensures ReadLimit(maxResponse, available) >= 1
    ensures n <= ReadLimit(maxResponse, available) <==> n <= maxResponse && Reserved(n) <= available
  {
  }

  // ---- Operations ----

  function Post(l: Ledger, b: nat, m: nat, delta: Usage): Ledger
    requires b < |l.budgets|
  {
    var budget := l.budgets[b];
    l.(budgets := l.budgets[b := budget.(used := Plus(budget.used, delta))],
       months := l.months[(budget.workspace, m) := Plus(Month(l, budget.workspace, m), delta)])
  }

  /** Locking a budget installs its policy for a workspace that has none, and opens the month. */
  function Locked(l: Ledger, b: nat, m: nat): Ledger
    requires b < |l.budgets|
  {
    var w := l.budgets[b].workspace;
    l.(policies := l.policies[w := Shared(l, w, l.budgets[b].policy)], months := l.months[(w, m) := Month(l, w, m)])
  }

  const RESERVE_WANTS: seq<(Dim, int)> := [(Requests, 1), (Games, 1), (Units, 1), (Bytes, 1)]

  function ReserveError(l: Ledger, b: nat, m: nat): Option<Error> {
    if b >= |l.budgets| then Some(Rejected)
    else
      var refused := Refusal(l, b, m, RESERVE_WANTS);
      if refused.Some? then refused
      else if Room(l, b, m, Bytes) < 2 then Some(BudgetExceeded(Bytes, Room(l, b, m, Bytes))) else None
  }

  function GrantedLimit(l: Ledger, b: nat, m: nat): int
    requires b < |l.budgets|
  {
    ReadLimit(l.budgets[b].policy.maxResponse, Room(l, b, m, Bytes))
  }

  function Reserve(l: Ledger, b: nat, m: nat): Ledger {
    if ReserveError(l, b, m).Some? then l
    else
      var held := Reserved(GrantedLimit(l, b, m));
      var w := l.budgets[b].workspace;
      Post(Locked(l, b, m), b, m, Usage(0, 1, held, 1))
      .(reservations := l.reservations + [Reservation(b, w, m, held, None)])
  }

  function SettleError(l: Ledger, id: nat, n: int): Option<Error> {
    if id >= |l.reservations| then Some(Rejected)
    else if l.reservations[id].consumed.Some? || 0 <= n <= l.reservations[id].reserved then None
    else Some(Rejected)
  }

  function Settle(l: Ledger, id: nat, n: int): Ledger {
    if SettleError(l, id, n).Some? then l
    else
      var r := l.reservations[id];
      if r.consumed.Some? || r.budget >= |l.budgets| then l
      else
        Post(l, r.budget, r.month, Usage(0, 0, n - r.reserved, 0))
        .(reservations := l.reservations[id := r.(consumed := Some(n))])
  }

  predicate NewGame(l: Ledger, b: nat, key: Option<nat>) { key.Some? && (b, key.value) !in l.items }

  function WorkWants(l: Ledger, b: nat, key: Option<nat>, units: nat): seq<(Dim, int)> {
    (if units > 0 then [(Units, units)] else []) + (if NewGame(l, b, key) then [(Games, 1)] else [])
  }

  function WorkError(l: Ledger, b: nat, m: nat, key: Option<nat>, units: nat): Option<Error> {
    if b >= |l.budgets| then Some(Rejected) else Refusal(l, b, m, WorkWants(l, b, key, units))
  }

  /** Interpretation units and at most one new game, charged together. */
  function Work(l: Ledger, b: nat, m: nat, key: Option<nat>, units: nat): Ledger {
    if WorkError(l, b, m, key, units).Some? then l
    else if NewGame(l, b, key) then
      Post(Locked(l, b, m), b, m, Usage(1, units, 0, 0)).(items := l.items + {(b, key.value)})
    else if units > 0 then Post(Locked(l, b, m), b, m, Usage(0, units, 0, 0))
    else Locked(l, b, m)
  }

  /** Admission tightens the shared policy, then gives a new budget the managed policy or the submitted one. */
  function Admit(l: Ledger, w: nat, run: nat, offered: Policy): Ledger {
    var stored := Shared(l, w, offered);
    var shared := if stored.managed then stored else stored.(policy := Tighten(stored.policy, offered));
    l.(policies := l.policies[w := shared],
       budgets := l.budgets + [Budget(w, run, if shared.managed then shared.policy else offered, ZERO)])
  }

  function Resume(l: Ledger, b: nat, offered: Policy): Ledger {
    if b >= |l.budgets| then l
    else
      var budget := l.budgets[b];
      var shared := Shared(l, budget.workspace, budget.policy);
      l.(budgets := l.budgets[b := budget.(policy := Extend(budget.policy, offered))],
         policies := l.policies[budget.workspace := shared.(policy := ExtendShared(shared.policy, offered))])
  }

  /** Administration may replace a workspace's shared policy by any valid one, managed or not. */
  function SetPolicy(l: Ledger, w: nat, p: Policy, managed: bool): Ledger {
    l.(policies := l.policies[w := Stored(p, managed)])
  }

  datatype Step =
    | DoAdmit(w: nat, run: nat, offered: Policy)
    | DoResume(b: nat, offered: Policy)
    | DoSetPolicy(w: nat, policy: Policy, managed: bool)
    | DoReserve(b: nat, m: nat)
    | DoSettle(id: nat, n: int)
    | DoWork(b: nat, m: nat, key: Option<nat>, units: nat)

  /** Policies are values of a validated type. */
  predicate WellTyped(step: Step) {
    match step
    case DoAdmit(_, _, p) => ValidPolicy(p)
    case DoResume(_, p) => ValidPolicy(p)
    case DoSetPolicy(_, p, _) => ValidPolicy(p)
    case _ => true
  }

  function Apply(l: Ledger, step: Step): Ledger {
    match step
    case DoAdmit(w, run, p) => Admit(l, w, run, p)
    case DoResume(b, p) => Resume(l, b, p)
    case DoSetPolicy(w, p, managed) => SetPolicy(l, w, p, managed)
    case DoReserve(b, m) => Reserve(l, b, m)
    case DoSettle(id, n) => Settle(l, id, n)
    case DoWork(b, m, key, units) => Work(l, b, m, key, units)
  }

  predicate AllWellTyped(steps: seq<Step>) { forall i :: 0 <= i < |steps| ==> WellTyped(steps[i]) }

  function Run(l: Ledger, steps: seq<Step>): Ledger
    decreases |steps|
  {
    if steps == [] then l else Run(Apply(l, steps[0]), steps[1..])
  }

  const EMPTY := Ledger([], map[], [], {}, map[])

  /** Reservations reference a budget of their own workspace, and budgets have a shared policy. */
  ghost predicate Keyed(l: Ledger) {
    forall i :: 0 <= i < |l.reservations| ==>
      && l.reservations[i].budget < |l.budgets|
      && l.budgets[l.reservations[i].budget].workspace == l.reservations[i].workspace
  }

  // ---- The calls ----

  class WorkBudgets {
    var ledger: Ledger

    constructor ()
      ensures ledger == EMPTY
    {
      ledger := EMPTY;
    }

    /** `_remaining`: the smaller of the two rooms, or the error of the first too small. */
    method Remaining(b: nat, m: nat, d: Dim, requested: int) returns (room: int, error: Option<Error>)
      requires b < |ledger.budgets|
      ensures error == Refusal(ledger, b, m, [(d, requested)])
      ensures error.None? ==> room == Room(ledger, b, m, d) && room >= requested
    {
      room, error := 0, None;
      var budget := ledger.budgets[b];
      var job := At(budget.policy.job, d) - At(budget.used, d);
      if job < requested { return 0, Some(BudgetExceeded(d, Max(0, job))); }
      var policy := Shared(ledger, budget.workspace, budget.policy).policy;
      var shared := At(policy.workspace, d) - At(Month(ledger, budget.workspace, m), d);
      if shared < requested { return 0, Some(QuotaExceeded(d, Max(0, shared))); }
      room := Min(job, shared);
    }

    method ReserveRequest(b: nat, m: nat) returns (id: nat, limit: int, error: Option<Error>)
      modifies this
      ensures error == ReserveError(old(ledger), b, m) && ledger == Reserve(old(ledger), b, m)
      ensures error.None? ==> id == |old(ledger).reservations| && limit == GrantedLimit(old(ledger), b, m)
    {
      id, limit, error := 0, 0, None;
      if b >= |ledger.budgets| { error := Some(Rejected); return; }
      WantsInOrder(ledger, b, m);
      var available;
      available, error := Remaining(b, m, Requests, 1);
      if error.Some? { return; }
      available, error := Remaining(b, m, Games, 1);
      if error.Some? { return; }
      available, error := Remaining(b, m, Units, 1);
      if error.Some? { return; }
      available, error := Remaining(b, m, Bytes, 1);
      if error.Some? { return; }
      if available < 2 { error := Some(BudgetExceeded(Bytes, available)); return; }
      var budget := ledger.budgets[b];
      limit := Min(budget.policy.maxResponse, if available < 131072 then available / 2 else available - 65536);
      var held := limit + Min(65536, limit);
      Charge(b, m, Usage(0, 1, held, 1));
      id := |ledger.reservations|;
      ledger := ledger.(reservations := ledger.reservations + [Reservation(b, budget.workspace, m, held, None)]);
    }

    method SettleRequest(id: nat, n: int) returns (error: Option<Error>)
      requires Keyed(ledger)
      modifies this
      ensures error == SettleError(old(ledger), id, n) && ledger == Settle(old(ledger), id, n)
    {
      error := None;
      if id >= |ledger.reservations| { error := Some(Rejected); return; }
      var row := ledger.reservations[id];
      if row.consumed.Some? { return; }
      if !(0 <= n <= row.reserved) { error := Some(Rejected); return; }
      var refund := Usage(0, 0, -(row.reserved - n), 0);
      var budget := ledger.budgets[row.budget];
      var month := Month(ledger, row.workspace, row.month);
      ledger := ledger.(budgets := ledger.budgets[row.budget := budget.(used := Plus(budget.used, refund))]);
      ledger := ledger.(months := ledger.months[(row.workspace, row.month) := Plus(month, refund)]);
      ledger := ledger.(reservations := ledger.reservations[id := row.(consumed := Some(n))]);
    }

    /** The checks of `_reserve_processing_work`, in order. */
    method AdmitWork(b: nat, m: nat, key: Option<nat>, units: nat) returns (games: int, error: Option<Error>)
      ensures error == WorkError(ledger, b, m, key, units)
      ensures error.None? ==> games == if NewGame(ledger, b, key) then 1 else 0
    {
      games, error := 0, None;
      if b >= |ledger.budgets| { error := Some(Rejected); return; }
      WorkWantsInOrder(ledger, b, m, key, units);
      var room;
      if units > 0 {
        room, error := Remaining(b, m, Units, units);
        if error.Some? { return; }
      }
      if key.Some? && (b, key.value) !in ledger.items {
        room, error := Remaining(b, m, Games, 1);
        games := 1;
      }
    }

    /** `_reserve_processing_work`; `acquired` says whether this budget gained a new game. */
    method ReserveProcessingWork(b: nat, m: nat, key: Option<nat>, units: nat)
      returns (acquired: bool, error: Option<Error>)
      modifies this
      ensures error == WorkError(old(ledger), b, m, key, units)
      ensures error.None? ==> acquired == NewGame(old(ledger), b, key)
      ensures ledger == Work(old(ledger), b, m, key, units)
    {
      hide WorkError, Shared, Month;
      acquired := false;
      var games;
      games, error := AdmitWork(b, m, key, units);
      if error.Some? { return; }
      WorkNeedsBudget(ledger, b, m, key, units);
      acquired := games == 1;
      if units == 0 && games == 0 {
        LockBudget(b, m);
        return;
      }
      Charge(b, m, Usage(games, units, 0, 0));
      if games == 1 { ledger := ledger.(items := ledger.items + {(b, key.value)}); }
    }

    method Charge(b: nat, m: nat, delta: Usage)
      requires b < |ledger.budgets|
      modifies this
      ensures ledger == Post(Locked(old(ledger), b, m), b, m, delta)
    {
      LockBudget(b, m);
      var budget := ledger.budgets[b];
      var month := ledger.months[(budget.workspace, m)];
      ledger := ledger.(budgets := ledger.budgets[b := budget.(used := Plus(budget.used, delta))]);
      ledger := ledger.(months := ledger.months[(budget.workspace, m) := Plus(month, delta)]);
    }

    /** `_locked_budget`: makes sure the policy and month rows exist. */
    method LockBudget(b: nat, m: nat)
      requires b < |ledger.budgets|
      modifies this
      ensures ledger == Locked(old(ledger), b, m)
      ensures (ledger.budgets[b].workspace, m) in ledger.months
    {
      var budget := ledger.budgets[b];
      var w := budget.workspace;
      ledger := ledger.(policies := ledger.policies[w := Shared(ledger, w, budget.policy)]);
      ledger := ledger.(months := ledger.months[(w, m) := Month(ledger, w, m)]);
    }
  }

  lemma WorkNeedsBudget(l: Ledger, b: nat, m: nat, key: Option<nat>, units: nat)
    requires WorkError(l, b, m, key, units).None?
    ensures b < |l.budgets|
  {
  }

  lemma WorkWantsInOrder(l: Ledger, b: nat, m: nat, key: Option<nat>, units: nat)
    requires b < |l.budgets|
    ensures var u, g := Refusal(l, b, m, [(Units, units)]), Refusal(l, b, m, [(Games, 1)]);
            WorkError(l, b, m, key, units) ==
            if units > 0 && u.Some? then u else if NewGame(l, b, key) then g else None
  {
    var wants: seq<(Dim, int)> := [(Units, units)];
    var more: seq<(Dim, int)> := [(Games, 1)];
    RefusalOfMore(l, b, m, (Units, units), more);
    assert WorkWants(l, b, key, units) == (if units > 0 then wants else []) + (if NewGame(l, b, key) then more else []);
    assert wants + [] == wants && [] + more == more;
  }
}
