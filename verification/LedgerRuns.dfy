/** Double-entry conservation and ceilings over every sequence of ledger operations. */
module LedgerRuns {
  import opened Common
  import opened Ledger

  // ---- Totals ----

  function Share(b: Budget, w: nat, d: Dim): int {
    if b.workspace == w then At(b.used, d) else 0
  }

  /** What the workspace's budgets say was used. */
  function BudgetTotal(budgets: seq<Budget>, w: nat, d: Dim): int {
    if budgets == [] then 0
    else BudgetTotal(budgets[..|budgets| - 1], w, d) + Share(budgets[|budgets| - 1], w, d)
  }

  function MonthShare(months: map<(nat, nat), Usage>, k: (nat, nat), w: nat, d: Dim): int
    requires k in months
  {
    if k.0 == w then At(months[k], d) else 0
  }

  /** What the workspace's months say was used, over the given rows. */
  ghost function MonthTotal(months: map<(nat, nat), Usage>, keys: set<(nat, nat)>, w: nat, d: Dim): int
    requires keys <= months.Keys
  {
    if keys == {} then 0
    else
      var k :| k in keys;
      MonthShare(months, k, w, d) + MonthTotal(months, keys - {k}, w, d)
  }

  lemma {:induction false} MonthTotalSplit(
      months: map<(nat, nat), Usage>, keys: set<(nat, nat)>, k: (nat, nat), w: nat, d: Dim)
    requires keys <= months.Keys && k in keys
    ensures MonthTotal(months, keys, w, d) == MonthShare(months, k, w, d) + MonthTotal(months, keys - {k}, w, d)
    decreases keys
  {
    var j :| && j in keys
             && MonthTotal(months, keys, w, d) == MonthShare(months, j, w, d) + MonthTotal(months, keys - {j}, w, d);
    if j != k {
      MonthTotalSplit(months, keys - {j}, k, w, d);
      MonthTotalSplit(months, keys - {k}, j, w, d);
      assert keys - {j} - {k} == keys - {k} - {j};
    }
  }

  lemma {:induction false} MonthTotalSame(
      a: map<(nat, nat), Usage>, b: map<(nat, nat), Usage>, keys: set<(nat, nat)>, w: nat, d: Dim)
    requires keys <= a.Keys && keys <= b.Keys && forall k :: k in keys ==> a[k] == b[k]
    ensures MonthTotal(a, keys, w, d) == MonthTotal(b, keys, w, d)
    decreases keys
  {
    if keys != {} {
      var k :| k in keys;
      MonthTotalSplit(a, keys, k, w, d);
      MonthTotalSplit(b, keys, k, w, d);
      MonthTotalSame(a, b, keys - {k}, w, d);
    }
  }

  lemma MonthTotalUpdate(months: map<(nat, nat), Usage>, k: (nat, nat), u: Usage, w: nat, d: Dim)
    ensures var next := months[k := u];
            MonthTotal(next, next.Keys, w, d) ==
            MonthTotal(months, months.Keys, w, d)
            + (if k.0 == w then At(u, d) - (if k in months then At(months[k], d) else 0) else 0)
  {
    var next := months[k := u];
    MonthTotalSplit(next, next.Keys, k, w, d);
    MonthTotalSame(months, next, months.Keys - {k}, w, d);
    assert next.Keys - {k} == months.Keys - {k};
    if k in months { MonthTotalSplit(months, months.Keys, k, w, d); } else { assert months.Keys - {k} == months.Keys; }
  }

  lemma {:induction false} BudgetTotalUpdate(budgets: seq<Budget>, i: nat, b: Budget, w: nat, d: Dim)
    requires i < |budgets|
    ensures BudgetTotal(budgets[i := b], w, d) == BudgetTotal(budgets, w, d) + Share(b, w, d) - Share(budgets[i], w, d)
    decreases |budgets|
  {
    var n := |budgets| - 1;
    if i < n {
      assert budgets[i := b][..n] == budgets[..n][i := b];
      BudgetTotalUpdate(budgets[..n], i, b, w, d);
    } else {
      assert budgets[i := b][..n] == budgets[..n];
    }
  }

  // ---- Accounts over reservations ----

  datatype Account = OfBudget(b: nat) | OfMonth(w: nat, m: nat)

  predicate Belongs(r: Reservation, a: Account) {
    match a case OfBudget(b) => r.budget == b case OfMonth(w, m) => r.workspace == w && r.month == m
  }

  /** Settled reservations cost what was read, open ones all that was set aside. */
  function Cost(r: Reservation, a: Account): int {
    if !Belongs(r, a) then 0 else if r.consumed.Some? then r.consumed.value else r.reserved
  }

  function BytesOf(rs: seq<Reservation>, a: Account): int {
    if rs == [] then 0 else BytesOf(rs[..|rs| - 1], a) + Cost(rs[|rs| - 1], a)
  }

  function RequestsOf(rs: seq<Reservation>, a: Account): int {
    if rs == [] then 0 else RequestsOf(rs[..|rs| - 1], a) + if Belongs(rs[|rs| - 1], a) then 1 else 0
  }

  lemma OneMore(rs: seq<Reservation>, r: Reservation, a: Account)
    ensures BytesOf(rs + [r], a) == BytesOf(rs, a) + Cost(r, a)
    ensures RequestsOf(rs + [r], a) == RequestsOf(rs, a) + if Belongs(r, a) then 1 else 0
  {
    assert (rs + [r])[..|rs|] == rs;
  }

  lemma {:induction false} Resettled(rs: seq<Reservation>, i: nat, n: int, a: Account)
    requires i < |rs|
    ensures var r := rs[i].(consumed := Some(n));
            && BytesOf(rs[i := r], a) == BytesOf(rs, a) + Cost(r, a) - Cost(rs[i], a)
            && RequestsOf(rs[i := r], a) == RequestsOf(rs, a)
    decreases |rs|
  {
    var r, k := rs[i].(consumed := Some(n)), |rs| - 1;
    if i < k {
      assert rs[i := r][..k] == rs[..k][i := r];
      Resettled(rs[..k], i, n, a);
    } else {
      assert rs[i := r][..k] == rs[..k];
    }
  }

  function Keys(items: set<(nat, nat)>, b: nat): set<nat> {
    set i | i in items && i.0 == b :: i.1
  }

  // ---- The invariant ----

  ghost predicate Typed(l: Ledger) {
    && Keyed(l)
    && (forall i :: 0 <= i < |l.reservations| ==>
          var r := l.reservations[i]; r.reserved >= 0 && (r.consumed.Some? ==> 0 <= r.consumed.value <= r.reserved))
    && (forall i :: 0 <= i < |l.budgets| ==> ValidPolicy(l.budgets[i].policy))
    && (forall i :: i in l.items ==> i.0 < |l.budgets|)
  }

  ghost predicate Balanced(l: Ledger) {
    forall w, d :: MonthTotal(l.months, l.months.Keys, w, d) == BudgetTotal(l.budgets, w, d)
  }

  ghost predicate BudgetOk(l: Ledger, b: nat)
    requires b < |l.budgets|
  {
    var u := l.budgets[b].used;
    && u.bytes == BytesOf(l.reservations, OfBudget(b))
    && u.requests == RequestsOf(l.reservations, OfBudget(b))
    && u.games == |Keys(l.items, b)|
  }

  ghost predicate MonthOk(l: Ledger, w: nat, m: nat) {
    && Month(l, w, m).bytes == BytesOf(l.reservations, OfMonth(w, m))
    && Month(l, w, m).requests == RequestsOf(l.reservations, OfMonth(w, m))
  }

  ghost predicate Backed(l: Ledger) {
    && (forall b :: 0 <= b < |l.budgets| ==> BudgetOk(l, b))
    && (forall w, m :: MonthOk(l, w, m))
  }

  predicate WithinPolicy(b: Budget) {
    && b.used.games <= b.policy.job.games && b.used.units <= b.policy.job.units
    && b.used.bytes <= b.policy.job.bytes && b.used.requests <= b.policy.job.requests
  }

  ghost predicate Within(l: Ledger) { forall i :: 0 <= i < |l.budgets| ==> WithinPolicy(l.budgets[i]) }

  ghost predicate Inv(l: Ledger) { Typed(l) && Balanced(l) && Backed(l) && Within(l) }

  // ---- Posting ----

  lemma PostBalances(l: Ledger, b: nat, m: nat, delta: Usage)
    requires b < |l.budgets| && Balanced(l)
    ensures Balanced(Post(l, b, m, delta)) && Balanced(Locked(l, b, m))
  {
    var w := l.budgets[b].workspace;
    var budget := l.budgets[b];
    forall v, d
      ensures MonthTotal(Post(l, b, m, delta).months, Post(l, b, m, delta).months.Keys, v, d)
           == BudgetTotal(Post(l, b, m, delta).budgets, v, d)
    {
      BudgetTotalUpdate(l.budgets, b, budget.(used := Plus(budget.used, delta)), v, d);
      MonthTotalUpdate(l.months, (w, m), Plus(Month(l, w, m), delta), v, d);
    }
    forall v, d
      ensures MonthTotal(Locked(l, b, m).months, Locked(l, b, m).months.Keys, v, d) == BudgetTotal(l.budgets, v, d)
    {
      MonthTotalUpdate(l.months, (w, m), Month(l, w, m), v, d);
    }
  }

  lemma StepBalances(l: Ledger, step: Step)
    requires Typed(l) && Balanced(l)
    ensures Balanced(Apply(l, step))
  {
    hide Balanced, Post;
    match step
    case DoReserve(b, m) =>
      if ReserveError(l, b, m).None? {
        PostBalances(l, b, m, ZERO);
        PostBalances(Locked(l, b, m), b, m, Usage(0, 1, Reserved(GrantedLimit(l, b, m)), 1));
        SameTables(Post(Locked(l, b, m), b, m, Usage(0, 1, Reserved(GrantedLimit(l, b, m)), 1)), Reserve(l, b, m));
      }
    case DoSettle(id, n) =>
      if SettleError(l, id, n).None? && l.reservations[id].consumed.None? {
        var r := l.reservations[id];
        PostBalances(l, r.budget, r.month, Usage(0, 0, n - r.reserved, 0));
        SameTables(Post(l, r.budget, r.month, Usage(0, 0, n - r.reserved, 0)), Settle(l, id, n));
      }
    case DoWork(b, m, key, units) =>
      if WorkError(l, b, m, key, units).None? {
        PostBalances(l, b, m, ZERO);
        PostBalances(Locked(l, b, m), b, m, Usage(0, units, 0, 0));
        PostBalances(Locked(l, b, m), b, m, Usage(1, units, 0, 0));
        if NewGame(l, b, key) {
          SameTables(Post(Locked(l, b, m), b, m, Usage(1, units, 0, 0)), Work(l, b, m, key, units));
        }
      }
    case DoAdmit(w, run, p) => AdmitBalances(l, w, run, p);
    case DoResume(b, p) => ResumeBalances(l, b, p);
    case DoSetPolicy(w, p, managed) => SameTables(l, SetPolicy(l, w, p, managed));
  }

  lemma SameTables(l: Ledger, k: Ledger)
    requires Balanced(l) && l.budgets == k.budgets && l.months == k.months
    ensures Balanced(k)
  {
  }

  lemma AdmitBalances(l: Ledger, w: nat, run: nat, p: Policy)
    requires Balanced(l)
    ensures Balanced(Admit(l, w, run, p))
  {
    var next := Admit(l, w, run, p);
    assert next.budgets[..|l.budgets|] == l.budgets;
    forall v, d ensures BudgetTotal(next.budgets, v, d) == BudgetTotal(l.budgets, v, d) {}
  }

  lemma ResumeBalances(l: Ledger, b: nat, p: Policy)
    requires Balanced(l)
    ensures Balanced(Resume(l, b, p))
  {
    if b < |l.budgets| {
      forall v, d ensures BudgetTotal(Resume(l, b, p).budgets, v, d) == BudgetTotal(l.budgets, v, d) {
        BudgetTotalUpdate(l.budgets, b, l.budgets[b].(policy := Extend(l.budgets[b].policy, p)), v, d);
      }
    }
  }

  // ---- Balances are backed by rows ----

  lemma ReserveBacked(l: Ledger, b: nat, m: nat)
    requires Typed(l) && Backed(l) && ReserveError(l, b, m).None?
    ensures Backed(Reserve(l, b, m))
  {
    hide ReserveError, GrantedLimit, Keyed, BytesOf, RequestsOf;
    ReserveMeans(l, b, m);
    var next, k := Reserve(l, b, m), |l.reservations|;
    var r := next.reservations[k];
    assert next.reservations == l.reservations + [r];
    forall c | 0 <= c < |next.budgets| ensures BudgetOk(next, c) {
      OneMore(l.reservations, r, OfBudget(c));
      assert BudgetOk(l, c);
    }
    forall w, n ensures MonthOk(next, w, n) {
      OneMore(l.reservations, r, OfMonth(w, n));
      assert MonthOk(l, w, n);
    }
  }

  /** A grant: every room was there, the limit is positive and the reservation fits the room. */
  lemma ReserveMeans(l: Ledger, b: nat, m: nat)
    requires ReserveError(l, b, m).None?
    ensures b < |l.budgets|
    ensures Room(l, b, m, Requests) >= 1 && Room(l, b, m, Games) >= 1 && Room(l, b, m, Units) >= 1
            && Room(l, b, m, Bytes) >= 2
    ensures ValidPolicy(l.budgets[b].policy) ==>
              1 <= GrantedLimit(l, b, m) <= l.budgets[b].policy.maxResponse
              && Reserved(GrantedLimit(l, b, m)) <= Room(l, b, m, Bytes)
  {
    RefusalMeans(l, b, m, RESERVE_WANTS);
    assert RESERVE_WANTS[0].0 == Requests && RESERVE_WANTS[1].0 == Games && RESERVE_WANTS[2].0 == Units;
    if ValidPolicy(l.budgets[b].policy) {
      ReadLimitIsLargest(l.budgets[b].policy.maxResponse, Room(l, b, m, Bytes), GrantedLimit(l, b, m));
    }
  }

  /**
   When a request is granted, and which error refuses it: the first of requests, games, units and bytes
   without room for one more, and else bytes without room for a byte and its headroom.
   */
  lemma GrantExactly(l: Ledger, b: nat, m: nat)
    ensures ReserveError(l, b, m) == Some(Rejected) <==> b >= |l.budgets|
    ensures b < |l.budgets| ==>
              var e, room := ReserveError(l, b, m), (d: Dim) => Room(l, b, m, d);
              && (e.None? <==> room(Requests) >= 1 && room(Games) >= 1 && room(Units) >= 1 && room(Bytes) >= 2)
              && (e.Some? ==> e.value.dim == if room(Requests) < 1 then Requests else if room(Games) < 1 then Games
                                             else if room(Units) < 1 then Units else Bytes)
              && (e.Some? ==> (e.value.QuotaExceeded? <==> room(e.value.dim) < 1 <= JobRoom(l, b, e.value.dim)))
  {
    if b < |l.budgets| {
      WantsInOrder(l, b, m);
      OneWant(l, b, m, Requests);
      OneWant(l, b, m, Games);
      OneWant(l, b, m, Units);
      OneWant(l, b, m, Bytes);
      hide Refusal, JobRoom, SharedRoom;
    }
  }

  lemma OneWant(l: Ledger, b: nat, m: nat, d: Dim)
    requires b < |l.budgets|
    ensures var e := Refusal(l, b, m, [(d, 1)]);
            && (e.Some? <==> Room(l, b, m, d) < 1)
            && (e.Some? ==> e.value != Rejected && e.value.dim == d)
            && (e.Some? ==> (e.value.QuotaExceeded? <==> JobRoom(l, b, d) >= 1))
  {
    assert [(d, 1)][1..] == [];
  }

  /** Processing work is granted exactly with room for its units, if any, and for its game, if that is new. */
  lemma WorkGrantedExactly(l: Ledger, b: nat, m: nat, key: Option<nat>, units: nat)
    ensures WorkError(l, b, m, key, units).None? <==>
            && b < |l.budgets|
            && (units > 0 ==> Room(l, b, m, Units) >= units)
            && (key.Some? && (b, key.value) !in l.items ==> Room(l, b, m, Games) >= 1)
  {
    if b < |l.budgets| {
      var wants := WorkWants(l, b, key, units);
      RefusalMeans(l, b, m, wants);
      assert units > 0 ==> wants[0] == (Units, units as int);
      assert NewGame(l, b, key) ==> wants[|wants| - 1] == (Games, 1);
      assert forall i :: 0 <= i < |wants| ==>
               (wants[i] == (Units, units as int) && units > 0) || (wants[i] == (Games, 1) && NewGame(l, b, key));
      hide Refusal, Room;
    }
  }

  lemma WorkMeans(l: Ledger, b: nat, m: nat, key: Option<nat>, units: nat)
    requires WorkError(l, b, m, key, units).None?
    ensures b < |l.budgets|
    ensures units > 0 ==> Room(l, b, m, Units) >= units
    ensures NewGame(l, b, key) ==> Room(l, b, m, Games) >= 1
  {
    WorkGrantedExactly(l, b, m, key, units);
  }

  lemma SettleBacked(l: Ledger, id: nat, n: int)
    requires Typed(l) && Backed(l)
    ensures Backed(Settle(l, id, n))
  {
    hide BytesOf, RequestsOf;
    var next := Settle(l, id, n);
    if next != l {
      forall c | 0 <= c < |next.budgets| ensures BudgetOk(next, c) {
        Resettled(l.reservations, id, n, OfBudget(c));
        assert BudgetOk(l, c);
      }
      forall w, m ensures MonthOk(next, w, m) {
        Resettled(l.reservations, id, n, OfMonth(w, m));
        assert MonthOk(l, w, m);
      }
    }
  }

  lemma WorkBacked(l: Ledger, b: nat, m: nat, key: Option<nat>, units: nat)
    requires Typed(l) && Backed(l)
    ensures Backed(Work(l, b, m, key, units))
  {
    hide WorkError, BytesOf, RequestsOf, Keyed, Keys;
    if WorkError(l, b, m, key, units).None? {
      WorkMeans(l, b, m, key, units);
      var next := Work(l, b, m, key, units);
      forall c | 0 <= c < |next.budgets| ensures BudgetOk(next, c) {
        assert BudgetOk(l, c);
        if NewGame(l, b, key) { OneMoreKey(l.items, b, key.value, c); }
      }
      forall w, n ensures MonthOk(next, w, n) { assert MonthOk(l, w, n); }
    }
  }

  lemma OneMoreKey(items: set<(nat, nat)>, b: nat, key: nat, c: nat)
    requires (b, key) !in items
    ensures |Keys(items + {(b, key)}, c)| == |Keys(items, c)| + if c == b then 1 else 0
  {
    assert Keys(items + {(b, key)}, c) == Keys(items, c) + if c == b then {key} else {};
  }

  lemma AdmitBacked(l: Ledger, w: nat, run: nat, p: Policy)
    requires Typed(l) && Backed(l)
    ensures Backed(Admit(l, w, run, p))
  {
    var next := Admit(l, w, run, p);
    forall b | 0 <= b < |next.budgets| ensures BudgetOk(next, b) {
      if b == |l.budgets| {
        NothingYet(l.reservations, b);
        assert Keys(l.items, b) == {};
      } else {
        assert BudgetOk(l, b);
      }
    }
    forall v, m ensures MonthOk(next, v, m) { assert MonthOk(l, v, m); }
  }

  lemma {:induction false} NothingYet(rs: seq<Reservation>, b: nat)
    requires forall i :: 0 <= i < |rs| ==> rs[i].budget != b
    ensures BytesOf(rs, OfBudget(b)) == 0 && RequestsOf(rs, OfBudget(b)) == 0
    decreases |rs|
  {
    if rs != [] { NothingYet(rs[..|rs| - 1], b); }
  }

  lemma PolicyBacked(l: Ledger, step: Step)
    requires Backed(l) && (step.DoResume? || step.DoSetPolicy?)
    ensures Backed(Apply(l, step))
  {
    var next := Apply(l, step);
    forall b | 0 <= b < |next.budgets| ensures BudgetOk(next, b) { assert BudgetOk(l, b); }
    forall w, m ensures MonthOk(next, w, m) { assert MonthOk(l, w, m); }
  }

  lemma StepBacked(l: Ledger, step: Step)
    requires Typed(l) && Backed(l)
    ensures Backed(Apply(l, step))
  {
    hide Backed;
    match step
    case DoReserve(b, m) => if ReserveError(l, b, m).None? { ReserveBacked(l, b, m); }
    case DoSettle(id, n) => SettleBacked(l, id, n);
    case DoWork(b, m, key, units) => WorkBacked(l, b, m, key, units);
    case DoAdmit(w, run, p) => AdmitBacked(l, w, run, p);
    case _ => PolicyBacked(l, step);
  }

  // ---- Ceilings ----

  ghost predicate ValidPolicies(l: Ledger) {
    forall w :: w in l.policies ==> ValidPolicy(l.policies[w].policy)
  }

  /** What an operation leaves of a budget: its owner, and its own ceilings or higher ones. */
  lemma BudgetKept(l: Ledger, step: Step, b: nat)
    requires b < |l.budgets|
    ensures var next := Apply(l, step).budgets;
            && |next| >= |l.budgets|
            && next[b].workspace == l.budgets[b].workspace && next[b].run == l.budgets[b].run
            && (next[b].policy == l.budgets[b].policy
                || (step.DoResume? && step.b == b && next[b].policy == Extend(l.budgets[b].policy, step.offered)))
  {
    hide ReserveError, WorkError, GrantedLimit, Shared, Month, Plus;
    match step
    case DoReserve(c, m) => if ReserveError(l, c, m).None? { ReserveMeans(l, c, m); }
    case DoWork(c, m, key, units) => if WorkError(l, c, m, key, units).None? { WorkMeans(l, c, m, key, units); }
    case _ =>
  }

  lemma ReservationsTyped(l: Ledger, step: Step)
    requires Typed(l)
    ensures var rs := Apply(l, step).reservations;
            && (forall i :: 0 <= i < |rs| ==>
                  rs[i].reserved >= 0 && (rs[i].consumed.Some? ==> 0 <= rs[i].consumed.value <= rs[i].reserved))
            && (forall i :: 0 <= i < |rs| ==>
                  rs[i].budget < |l.budgets| && rs[i].workspace == l.budgets[rs[i].budget].workspace)
  {
    hide ReserveError, WorkError, GrantedLimit, Shared, Month;
    match step
    case DoReserve(c, m) => if ReserveError(l, c, m).None? { ReserveMeans(l, c, m); }
    case DoWork(c, m, key, units) => if WorkError(l, c, m, key, units).None? { WorkMeans(l, c, m, key, units); }
    case _ =>
  }

  lemma PoliciesStayValid(l: Ledger, step: Step)
    requires Typed(l) && ValidPolicies(l) && WellTyped(step)
    ensures ValidPolicies(Apply(l, step))
    ensures |Apply(l, step).budgets| > |l.budgets| ==>
              step.DoAdmit? && |Apply(l, step).budgets| == |l.budgets| + 1
              && ValidPolicy(Apply(l, step).budgets[|l.budgets|].policy)
  {
    hide ReserveError, WorkError, GrantedLimit, Keyed;
    match step
    case DoReserve(c, m) => if ReserveError(l, c, m).None? { ReserveMeans(l, c, m); }
    case DoWork(c, m, key, units) => if WorkError(l, c, m, key, units).None? { WorkMeans(l, c, m, key, units); }
    case _ =>
  }

  lemma ItemsTyped(l: Ledger, step: Step)
    requires Typed(l)
    ensures forall i :: i in Apply(l, step).items ==> i.0 < |l.budgets|
  {
    hide ReserveError, WorkError, GrantedLimit, Keyed, Shared, Month;
    match step
    case DoReserve(c, m) => if ReserveError(l, c, m).None? { ReserveMeans(l, c, m); }
    case DoWork(c, m, key, units) => if WorkError(l, c, m, key, units).None? { WorkMeans(l, c, m, key, units); }
    case _ =>
  }

  lemma StepTyped(l: Ledger, step: Step)
    requires Typed(l) && ValidPolicies(l) && WellTyped(step)
    ensures Typed(Apply(l, step)) && ValidPolicies(Apply(l, step))
  {
    hide Apply, ValidPolicies;
    PoliciesStayValid(l, step);
    ReservationsTyped(l, step);
    ItemsTyped(l, step);
    forall b | 0 <= b < |l.budgets|
      ensures var next := Apply(l, step).budgets;
              b < |next| && next[b].workspace == l.budgets[b].workspace && ValidPolicy(next[b].policy)
    {
      BudgetKept(l, step, b);
    }
    if l.budgets != [] { BudgetKept(l, step, 0); }
  }

  lemma StepWithin(l: Ledger, step: Step)
    requires Typed(l) && Within(l)
    requires step.DoAdmit? ==> WellTyped(step) && (step.w in l.policies ==> ValidPolicy(l.policies[step.w].policy))
    ensures Within(Apply(l, step))
  {
    match step
    case DoReserve(b, m) => if ReserveError(l, b, m).None? { ReserveWithin(l, b, m); }
    case DoWork(b, m, key, units) => if WorkError(l, b, m, key, units).None? { WorkWithin(l, b, m, key, units); }
    case _ => OtherWithin(l, step);
  }

  lemma ReserveWithin(l: Ledger, b: nat, m: nat)
    requires Typed(l) && Within(l) && ReserveError(l, b, m).None?
    ensures Within(Reserve(l, b, m))
  {
    hide ReserveError, GrantedLimit, Keyed;
    ReserveMeans(l, b, m);
  }

  lemma WorkWithin(l: Ledger, b: nat, m: nat, key: Option<nat>, units: nat)
    requires Typed(l) && Within(l) && WorkError(l, b, m, key, units).None?
    ensures Within(Work(l, b, m, key, units))
  {
    hide WorkError, Keyed;
    WorkMeans(l, b, m, key, units);
  }

  lemma OtherWithin(l: Ledger, step: Step)
    requires Typed(l) && Within(l) && !step.DoReserve? && !step.DoWork?
    requires step.DoAdmit? ==> WellTyped(step) && (step.w in l.policies ==> ValidPolicy(l.policies[step.w].policy))
    ensures Within(Apply(l, step))
  {
    hide Keyed;
  }

  ghost predicate Sound(l: Ledger) {
    Inv(l) && ValidPolicies(l)
  }

  lemma StepKeeps(l: Ledger, step: Step)
    requires Sound(l) && WellTyped(step)
    ensures Sound(Apply(l, step))
  {
    StepTyped(l, step);
    hide Typed, Balanced, Backed, Within, Apply;
    StepBalances(l, step);
    StepBacked(l, step);
    StepWithin(l, step);
  }

  lemma {:induction false} RunKeeps(l: Ledger, steps: seq<Step>)
    requires Sound(l) && AllWellTyped(steps)
    ensures Sound(Run(l, steps))
    decreases |steps|
  {
    hide Sound, Apply;
    if steps != [] {
      StepKeeps(l, steps[0]);
      RunKeeps(Apply(l, steps[0]), steps[1..]);
    }
  }

  // ---- Theorems over every run from the empty ledger ----

  lemma EmptySound()
    ensures Sound(EMPTY)
  {
    forall w, d ensures MonthTotal(EMPTY.months, EMPTY.months.Keys, w, d) == BudgetTotal(EMPTY.budgets, w, d) {}
  }

  /** Per workspace and dimension, usage summed over months equals usage summed over budgets. */
  lemma MonthsEqualBudgets(steps: seq<Step>, w: nat, d: Dim)
    requires AllWellTyped(steps)
    ensures var end := Run(EMPTY, steps);
            MonthTotal(end.months, end.months.Keys, w, d) == BudgetTotal(end.budgets, w, d)
  {
    EmptySound();
    RunKeeps(EMPTY, steps);
  }

  /** Every balance is what its rows say: bytes and requests from reservations, games from distinct keys. */
  lemma BalancesAreBacked(steps: seq<Step>, b: nat, w: nat, m: nat)
    requires AllWellTyped(steps) && b < |Run(EMPTY, steps).budgets|
    ensures var end := Run(EMPTY, steps);
            && end.budgets[b].used.bytes == BytesOf(end.reservations, OfBudget(b))
            && end.budgets[b].used.requests == RequestsOf(end.reservations, OfBudget(b))
            && end.budgets[b].used.games == |Keys(end.items, b)|
            && Month(end, w, m).bytes == BytesOf(end.reservations, OfMonth(w, m))
            && Month(end, w, m).requests == RequestsOf(end.reservations, OfMonth(w, m))
  {
    EmptySound();
    RunKeeps(EMPTY, steps);
    assert BudgetOk(Run(EMPTY, steps), b) && MonthOk(Run(EMPTY, steps), w, m);
  }

  // ---- Interpretation units ----

  function UnitsOf(l: Ledger, a: Account): int {
    match a
    case OfBudget(b) => if b < |l.budgets| then l.budgets[b].used.units else 0
    case OfMonth(w, m) => Month(l, w, m).units
  }

  predicate ChargesTo(l: Ledger, b: nat, m: nat, a: Account) {
    && b < |l.budgets|
    && match a case OfBudget(c) => c == b case OfMonth(w, n) => l.budgets[b].workspace == w && n == m
  }

  /** The units a step is granted for an account, apart from the one of each request. */
  function StepUnits(l: Ledger, step: Step, a: Account): nat {
    if step.DoWork? && WorkError(l, step.b, step.m, step.key, step.units).None? && ChargesTo(l, step.b, step.m, a)
    then step.units else 0
  }

  function GrantedUnits(l: Ledger, steps: seq<Step>, a: Account): nat
    decreases |steps|
  {
    if steps == [] then 0 else StepUnits(l, steps[0], a) + GrantedUnits(Apply(l, steps[0]), steps[1..], a)
  }

  lemma PostUnits(l: Ledger, b: nat, m: nat, delta: Usage, a: Account)
    requires b < |l.budgets|
    ensures UnitsOf(Post(l, b, m, delta), a) == UnitsOf(l, a) + if ChargesTo(l, b, m, a) then delta.units else 0
    ensures UnitsOf(Locked(l, b, m), a) == UnitsOf(l, a)
    ensures b < |Locked(l, b, m).budgets| && ChargesTo(Locked(l, b, m), b, m, a) == ChargesTo(l, b, m, a)
  {
  }

  lemma ItemsDoNotCount(l: Ledger, items: set<(nat, nat)>, a: Account)
    ensures UnitsOf(l.(items := items), a) == UnitsOf(l, a)
  {
  }

  lemma ReserveUnits(l: Ledger, b: nat, m: nat, a: Account)
    requires ReserveError(l, b, m).None?
    ensures var next := Reserve(l, b, m);
            UnitsOf(next, a) - RequestsOf(next.reservations, a) == UnitsOf(l, a) - RequestsOf(l.reservations, a)
  {
    ReserveMeans(l, b, m);
    hide ReserveError, GrantedLimit, RequestsOf;
    var held := Reserved(GrantedLimit(l, b, m));
    PostUnits(l, b, m, ZERO, a);
    PostUnits(Locked(l, b, m), b, m, Usage(0, 1, held, 1), a);
    OneMore(l.reservations, Reservation(b, l.budgets[b].workspace, m, held, None), a);
  }

  lemma SettleUnits(l: Ledger, id: nat, n: int, a: Account)
    ensures var next := Settle(l, id, n);
            UnitsOf(next, a) - RequestsOf(next.reservations, a) == UnitsOf(l, a) - RequestsOf(l.reservations, a)
  {
    hide RequestsOf;
    if Settle(l, id, n) != l {
      Resettled(l.reservations, id, n, a);
      var r := l.reservations[id];
      PostUnits(l, r.budget, r.month, Usage(0, 0, n - r.reserved, 0), a);
    }
  }

  lemma WorkUnits(l: Ledger, b: nat, m: nat, key: Option<nat>, units: nat, a: Account)
    requires WorkError(l, b, m, key, units).None?
    ensures UnitsOf(Work(l, b, m, key, units), a) == UnitsOf(l, a) + if ChargesTo(l, b, m, a) then units else 0
  {
    WorkMeans(l, b, m, key, units);
    hide WorkError, Post, Locked, UnitsOf, ChargesTo;
    PostUnits(l, b, m, ZERO, a);
    PostUnits(Locked(l, b, m), b, m, Usage(1, units, 0, 0), a);
    PostUnits(Locked(l, b, m), b, m, Usage(0, units, 0, 0), a);
    if NewGame(l, b, key) {
      ItemsDoNotCount(Post(Locked(l, b, m), b, m, Usage(1, units, 0, 0)), l.items + {(b, key.value)}, a);
    }
  }

  lemma WorkKeepsReservations(l: Ledger, b: nat, m: nat, key: Option<nat>, units: nat)
    ensures Work(l, b, m, key, units).reservations == l.reservations
  {
  }

  lemma UnitsStep(l: Ledger, step: Step, a: Account)
    ensures var next := Apply(l, step);
            UnitsOf(next, a) - RequestsOf(next.reservations, a)
            == UnitsOf(l, a) - RequestsOf(l.reservations, a) + StepUnits(l, step, a)
  {
    hide ReserveError, WorkError, GrantedLimit, RequestsOf;
    match step
    case DoReserve(b, m) => if ReserveError(l, b, m).None? { ReserveUnits(l, b, m, a); }
    case DoSettle(id, n) => SettleUnits(l, id, n, a);
    case DoWork(b, m, key, units) =>
      WorkKeepsReservations(l, b, m, key, units);
      if WorkError(l, b, m, key, units).None? { WorkUnits(l, b, m, key, units, a); }
    case _ =>
  }

  lemma {:induction false} UnitsRun(l: Ledger, steps: seq<Step>, a: Account)
    ensures var end := Run(l, steps);
            UnitsOf(end, a) - RequestsOf(end.reservations, a)
            == UnitsOf(l, a) - RequestsOf(l.reservations, a) + GrantedUnits(l, steps, a)
    decreases |steps|
  {
    hide Apply, RequestsOf, UnitsOf, StepUnits;
    if steps != [] {
      UnitsStep(l, steps[0], a);
      UnitsRun(Apply(l, steps[0]), steps[1..], a);
    }
  }

  /** In every run an account's units are one per request plus the units of the work it was granted. */
  lemma UnitsAreBacked(steps: seq<Step>, a: Account)
    ensures var end := Run(EMPTY, steps);
            UnitsOf(end, a) == RequestsOf(end.reservations, a) + GrantedUnits(EMPTY, steps, a)
  {
    UnitsRun(EMPTY, steps, a);
  }

  /** No budget ever exceeds a ceiling of its policy. */
  lemma CeilingsHold(steps: seq<Step>, b: nat)
    requires AllWellTyped(steps) && b < |Run(EMPTY, steps).budgets|
    ensures WithinPolicy(Run(EMPTY, steps).budgets[b])
  {
    EmptySound();
    RunKeeps(EMPTY, steps);
  }

  predicate AtMost(u: Usage, v: Usage) {
    u.games <= v.games && u.units <= v.units && u.bytes <= v.bytes && u.requests <= v.requests
  }

  /** A budget keeps its workspace, and its own ceilings only ever rise. */
  lemma {:induction false} CeilingsOnlyRise(l: Ledger, steps: seq<Step>, b: nat)
    requires b < |l.budgets|
    ensures b < |Run(l, steps).budgets|
    ensures var now, later := l.budgets[b], Run(l, steps).budgets[b];
            && now.workspace == later.workspace && now.run == later.run
            && AtMost(now.policy.job, later.policy.job) && now.policy.maxResponse <= later.policy.maxResponse
    decreases |steps|
  {
    hide Apply;
    if steps != [] {
      BudgetKept(l, steps[0], b);
      CeilingsOnlyRise(Apply(l, steps[0]), steps[1..], b);
    }
  }

  /** The ceiling of a workspace's months: its own policy's, or the budget's while it has none. */
  function SharedCeiling(l: Ledger, b: nat, d: Dim): int
    requires b < |l.budgets|
  {
    var w := l.budgets[b].workspace;
    At(if w in l.policies then l.policies[w].policy.workspace else l.budgets[b].policy.workspace, d)
  }

  /** Resuming lifts both ceilings to what is offered, never below what they were, and resets no usage. */
  lemma ResumeLifts(l: Ledger, b: nat, m: nat, offered: Policy, d: Dim)
    requires b < |l.budgets|
    ensures var after := Resume(l, b, offered);
            && |after.budgets| == |l.budgets|
            && after == l.(budgets := after.budgets, policies := after.policies)
            && after.budgets[b] == l.budgets[b].(policy := after.budgets[b].policy)
            && (forall c :: 0 <= c < |l.budgets| && c != b ==> after.budgets[c] == l.budgets[c])
            && JobRoom(after, b, d) ==
               Max(At(l.budgets[b].policy.job, d), At(offered.job, d)) - At(l.budgets[b].used, d)
            && SharedRoom(after, b, m, d) == Max(SharedCeiling(l, b, d), At(offered.workspace, d))
                                             - At(Month(l, l.budgets[b].workspace, m), d)
            && after.budgets[b].policy.maxResponse == Max(l.budgets[b].policy.maxResponse, offered.maxResponse)
  {
  }

  /** Shared ceilings on jobs rise likewise; the workspace's own job policy and whether it is managed stay. */
  lemma ResumeLiftsShared(l: Ledger, b: nat, offered: Policy)
    requires b < |l.budgets|
    ensures var after, w := Resume(l, b, offered), l.budgets[b].workspace;
            var was := if w in l.policies then l.policies[w] else Stored(l.budgets[b].policy, false);
            && after.policies.Keys == l.policies.Keys + {w}
            && (forall v :: v in l.policies && v != w ==> after.policies[v] == l.policies[v])
            && after.policies[w].managed == was.managed
            && after.policies[w].policy.job == was.policy.job
            && after.policies[w].policy.maxResponse == was.policy.maxResponse
            && after.policies[w].policy.queued == Max(was.policy.queued, offered.queued)
            && after.policies[w].policy.active == Max(was.policy.active, offered.active)
  {
  }

  /** Work refused before a resume that offers enough is granted after it. */
  lemma ResumeUnblocks(l: Ledger, b: nat, m: nat, offered: Policy, wants: seq<(Dim, int)>)
    requires b < |l.budgets|
    requires forall i :: 0 <= i < |wants| ==>
               && At(offered.job, wants[i].0) >= At(l.budgets[b].used, wants[i].0) + wants[i].1
               && At(offered.workspace, wants[i].0) >= At(Month(l, l.budgets[b].workspace, m), wants[i].0) + wants[i].1
    ensures Refusal(Resume(l, b, offered), b, m, wants).None?
  {
    var after := Resume(l, b, offered);
    forall i | 0 <= i < |wants| ensures Room(after, b, m, wants[i].0) >= wants[i].1 {
      ResumeLifts(l, b, m, offered, wants[i].0);
      hide Resume, At, Month;
    }
    RefusalMeans(after, b, m, wants);
  }

  /**
   Admission opens a budget with nothing used. Under management it takes the stored policy and leaves it
   alone; otherwise it takes the submitted one and can only lower the shared ceilings.
   */
  lemma AdmitMeans(l: Ledger, w: nat, run: nat, offered: Policy, d: Dim)
    ensures var after, n := Admit(l, w, run, offered), |l.budgets|;
            && |after.budgets| == n + 1 && after.budgets[..n] == l.budgets
            && after == l.(budgets := after.budgets, policies := after.policies)
            && after.budgets[n] == Budget(w, run, after.budgets[n].policy, Usage(0, 0, 0, 0))
            && after.policies.Keys == l.policies.Keys + {w}
            && (forall v :: v in l.policies && v != w ==> after.policies[v] == l.policies[v])
            && (w !in l.policies ==> after.policies[w].policy == offered == after.budgets[n].policy)
            && (w in l.policies && l.policies[w].managed ==>
                  after.policies[w] == l.policies[w] && after.budgets[n].policy == l.policies[w].policy)
            && (w in l.policies && !l.policies[w].managed ==>
                  var was, now := l.policies[w].policy, after.policies[w].policy;
                  && after.budgets[n].policy == offered && !after.policies[w].managed
                  && At(now.workspace, d) == Min(At(was.workspace, d), At(offered.workspace, d))
                  && now.queued == Min(was.queued, offered.queued) && now.active == Min(was.active, offered.active)
                  && now.job == was.job && now.maxResponse == was.maxResponse)
  {
    assert Tighten(offered, offered) == offered;
  }

  /** Settling twice, with whatever count, is settling once; the refund goes to the month of the reservation. */
  lemma SettleIsIdempotent(l: Ledger, id: nat, n: int, again: int)
    requires Keyed(l) && SettleError(l, id, n).None?
    ensures var once := Settle(l, id, n);
            SettleError(once, id, again).None? && Settle(once, id, again) == once
  {
  }

  ghost predicate MonthsWithin(l: Ledger) {
    forall w, m :: w in l.policies ==> AtMost(Month(l, w, m), l.policies[w].policy.workspace)
  }

  ghost predicate NeverTightens(l: Ledger, next: Ledger) {
    forall w :: w in l.policies ==>
      w in next.policies && AtMost(l.policies[w].policy.workspace, next.policies[w].policy.workspace)
  }

  /** Months and budgets exist only for workspaces with a policy. */
  ghost predicate HavePolicy(l: Ledger) {
    && (forall k :: k in l.months ==> k.0 in l.policies)
    && (forall b :: 0 <= b < |l.budgets| ==> l.budgets[b].workspace in l.policies)
  }

  /** While no operator tightens a shared policy, no month exceeds it. */
  lemma SharedCeilingsHold(l: Ledger, step: Step)
    requires Typed(l) && ValidPolicies(l) && WellTyped(step)
    requires HavePolicy(l) && MonthsWithin(l) && NeverTightens(l, Apply(l, step))
    ensures HavePolicy(Apply(l, step)) && MonthsWithin(Apply(l, step))
  {
    match step
    case DoReserve(b, m) => ReserveInMonth(l, b, m);
    case DoWork(b, m, key, units) => WorkInMonth(l, b, m, key, units);
    case DoSettle(id, n) => SettleInMonth(l, id, n);
    case _ => PolicyInMonth(l, step);
  }

  /** No step of the run lowers a shared ceiling. */
  ghost predicate NeverTightened(l: Ledger, steps: seq<Step>)
    decreases |steps|
  {
    steps != [] ==> NeverTightens(l, Apply(l, steps[0])) && NeverTightened(Apply(l, steps[0]), steps[1..])
  }

  lemma {:induction false} SharedCeilingsHoldInRuns(l: Ledger, steps: seq<Step>)
    requires Sound(l) && HavePolicy(l) && MonthsWithin(l) && AllWellTyped(steps) && NeverTightened(l, steps)
    ensures MonthsWithin(Run(l, steps))
    decreases |steps|
  {
    hide Apply, NeverTightens, HavePolicy, MonthsWithin, Typed, Balanced, Backed, Within;
    if steps != [] {
      StepKeeps(l, steps[0]);
      SharedCeilingsHold(l, steps[0]);
      SharedCeilingsHoldInRuns(Apply(l, steps[0]), steps[1..]);
    }
  }

  lemma ReserveInMonth(l: Ledger, b: nat, m: nat)
    requires Typed(l) && HavePolicy(l) && MonthsWithin(l)
    ensures HavePolicy(Reserve(l, b, m)) && MonthsWithin(Reserve(l, b, m))
  {
    hide ReserveError, GrantedLimit, Keyed;
    if ReserveError(l, b, m).None? {
      ReserveMeans(l, b, m);
      var next := Reserve(l, b, m);
      forall w, n | w in next.policies ensures AtMost(Month(next, w, n), next.policies[w].policy.workspace) {
        assert AtMost(Month(l, w, n), l.policies[w].policy.workspace);
      }
    }
  }

  lemma WorkInMonth(l: Ledger, b: nat, m: nat, key: Option<nat>, units: nat)
    requires Typed(l) && HavePolicy(l) && MonthsWithin(l)
    ensures HavePolicy(Work(l, b, m, key, units)) && MonthsWithin(Work(l, b, m, key, units))
  {
    hide WorkError, Keyed;
    if WorkError(l, b, m, key, units).None? {
      WorkMeans(l, b, m, key, units);
      var next := Work(l, b, m, key, units);
      forall w, n | w in next.policies ensures AtMost(Month(next, w, n), next.policies[w].policy.workspace) {
        assert AtMost(Month(l, w, n), l.policies[w].policy.workspace);
      }
    }
  }

  lemma SettleInMonth(l: Ledger, id: nat, n: int)
    requires Typed(l) && HavePolicy(l) && MonthsWithin(l)
    ensures HavePolicy(Settle(l, id, n)) && MonthsWithin(Settle(l, id, n))
  {
    var next := Settle(l, id, n);
    forall w, m | w in next.policies ensures AtMost(Month(next, w, m), next.policies[w].policy.workspace) {
      assert AtMost(Month(l, w, m), l.policies[w].policy.workspace);
    }
  }

  lemma PolicyInMonth(l: Ledger, step: Step)
    requires step.DoAdmit? || step.DoResume? || step.DoSetPolicy?
    requires Typed(l) && ValidPolicies(l) && WellTyped(step)
    requires HavePolicy(l) && MonthsWithin(l) && NeverTightens(l, Apply(l, step))
    ensures HavePolicy(Apply(l, step)) && MonthsWithin(Apply(l, step))
  {
    var next := Apply(l, step);
    PoliciesStayValid(l, step);
    forall w, m | w in next.policies ensures AtMost(Month(next, w, m), next.policies[w].policy.workspace) {
      assert ValidPolicy(next.policies[w].policy);
      assert w in l.policies ==> AtMost(Month(l, w, m), l.policies[w].policy.workspace);
    }
  }
}
