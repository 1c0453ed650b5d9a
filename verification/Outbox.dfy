/**
 The event outbox and its single publisher: the pending event of least id is offered to the hub, then
 acknowledged or deferred. The publisher may stop after acceptance and before acknowledgment, and may
 take an accepted event for a failed one. Concurrent writers commit ids in any order; only the events
 of one resource are ordered, because its row lock is held from the choice of the id to the commit.
 */
module Outbox {
  import opened Common

  datatype Row = Row(id: nat, resource: nat, revision: nat, delivered: bool, nextAttempt: int, attempts: nat)

  /** Rows in commit order; `accepted`: positions of the rows the hub took, in order; the row in hand. */
  datatype State = State(rows: seq<Row>, accepted: seq<nat>, offered: Option<(nat, bool)>)

  datatype Step =
    | Append(id: nat, resource: nat, revision: nat, nextAttempt: int)
    | Take(now: int)
    | Deliver
    | Acknowledge
    | Defer(nextAttempt: int)
    | Stop

  /** The pending row of least id among the first n. */
  function NextBelow(rows: seq<Row>, n: nat): (k: Option<nat>)
    requires n <= |rows|
    ensures k.None? <==> forall i :: 0 <= i < n ==> rows[i].delivered
    ensures k.Some? ==> k.value < n && !rows[k.value].delivered
    ensures k.Some? ==> forall i :: 0 <= i < n && !rows[i].delivered ==> rows[k.value].id <= rows[i].id
  {
    if n == 0 then None
    else
      var k := NextBelow(rows, n - 1);
      if rows[n - 1].delivered then k
      else if k.None? || rows[n - 1].id < rows[k.value].id then Some(n - 1) else k
  }

  /** The oldest pending row by id, due or not. */
  function NextPending(rows: seq<Row>): (k: Option<nat>)
    ensures k.None? <==> forall i :: 0 <= i < |rows| ==> rows[i].delivered
    ensures k.Some? ==> k.value < |rows| && !rows[k.value].delivered
    ensures k.Some? ==> forall i :: 0 <= i < |rows| && !rows[i].delivered ==> rows[k.value].id <= rows[i].id
  {
    NextBelow(rows, |rows|)
  }

  /** A new event of a resource follows all committed events of that resource; ids are never reused. */
  predicate Follows(rows: seq<Row>, id: nat, resource: nat, revision: nat) {
    forall i :: 0 <= i < |rows| ==>
      && rows[i].id != id
      && (rows[i].resource == resource ==> rows[i].id < id && rows[i].revision < revision)
  }

  predicate Enabled(s: State, step: Step) {
    match step
    case Append(id, resource, revision, _) => Follows(s.rows, id, resource, revision)
    case Take(now) =>
      s.offered.None? && NextPending(s.rows).Some? && s.rows[NextPending(s.rows).value].nextAttempt <= now
    case Deliver => s.offered.Some? && !s.offered.value.1 && s.offered.value.0 < |s.rows|
    case Acknowledge => s.offered.Some? && s.offered.value.1 && s.offered.value.0 < |s.rows|
    case Defer(_) => s.offered.Some? && s.offered.value.0 < |s.rows|
    case Stop => true
  }

  function Apply(s: State, step: Step): State
    requires Enabled(s, step)
  {
    match step
    case Append(id, resource, revision, next) =>
      s.(rows := s.rows + [Row(id, resource, revision, false, next, 0)])
    case Take(_) => s.(offered := Some((NextPending(s.rows).value, false)))
    case Deliver => s.(accepted := s.accepted + [s.offered.value.0], offered := Some((s.offered.value.0, true)))
    case Acknowledge =>
      var k := s.offered.value.0;
      s.(rows := s.rows[k := s.rows[k].(delivered := true, attempts := s.rows[k].attempts + 1)], offered := None)
    case Defer(next) =>
      var k := s.offered.value.0;
      s.(rows := s.rows[k := s.rows[k].(attempts := s.rows[k].attempts + 1, nextAttempt := next)], offered := None)
    case Stop => s.(offered := None)
  }

  predicate IsRun(s: State, steps: seq<Step>)
    decreases |steps|
  {
    steps != [] ==> Enabled(s, steps[0]) && IsRun(Apply(s, steps[0]), steps[1..])
  }

  function After(s: State, steps: seq<Step>): State
    requires IsRun(s, steps)
    decreases |steps|
  {
    if steps == [] then s else After(Apply(s, steps[0]), steps[1..])
  }

  const EMPTY := State([], [], None)

  // ---- Order within a resource ----

  predicate Together(a: Row, b: Row) { a.resource == b.resource }

  /** One resource's ids ascend in commit order. */
  ghost predicate Grouped(rows: seq<Row>) {
    forall i, k :: 0 <= i < k < |rows| && Together(rows[i], rows[k]) ==> rows[i].id < rows[k].id
  }

  /** Every row committed before p for its resource was acknowledged. */
  ghost predicate Clear(rows: seq<Row>, p: nat)
    requires p < |rows|
  {
    forall b :: 0 <= b < p && Together(rows[b], rows[p]) ==> rows[b].delivered
  }

  ghost predicate Known(s: State) {
    && (forall t :: 0 <= t < |s.accepted| ==> s.accepted[t] < |s.rows|)
    && (forall p :: 0 <= p < |s.rows| && s.rows[p].delivered ==> p in s.accepted)
    && (s.offered.Some? ==> s.offered.value.0 < |s.rows| && !s.rows[s.offered.value.0].delivered)
    && (s.offered.Some? && s.offered.value.1 ==> s.offered.value.0 in s.accepted)
  }

  ghost predicate Cleared(s: State)
    requires Known(s)
  {
    && (forall t :: 0 <= t < |s.accepted| ==> Clear(s.rows, s.accepted[t]))
    && (s.offered.Some? ==> Clear(s.rows, s.offered.value.0))
  }

  /** What the hub took of a resource is in commit order, repeats included. */
  ghost predicate InOrder(rows: seq<Row>, accepted: seq<nat>) {
    forall t, u ::
      (0 <= t < u < |accepted| && accepted[u] < |rows| && accepted[t] < |rows|
       && Together(rows[accepted[t]], rows[accepted[u]]))
      ==> accepted[t] <= accepted[u]
  }

  /** And nothing of the resource was skipped. */
  ghost predicate Gapless(rows: seq<Row>, accepted: seq<nat>) {
    forall t, b ::
      (0 <= t < |accepted| && accepted[t] < |rows| && 0 <= b < accepted[t] && Together(rows[b], rows[accepted[t]]))
      ==> b in accepted[..t]
  }

  ghost predicate Inv(s: State) {
    && Grouped(s.rows) && Known(s) && Cleared(s)
    && InOrder(s.rows, s.accepted) && Gapless(s.rows, s.accepted)
  }

  /** Commits add rows and the publisher only marks them. */
  predicate SameEvents(a: seq<Row>, b: seq<Row>) {
    |a| <= |b| && forall i :: 0 <= i < |a| ==>
      a[i].id == b[i].id && a[i].resource == b[i].resource && a[i].revision == b[i].revision
  }

  lemma KnownKept(s: State, step: Step)
    requires Known(s) && Enabled(s, step)
    ensures Known(Apply(s, step)) && SameEvents(s.rows, Apply(s, step).rows)
    ensures forall p :: 0 <= p < |s.rows| && s.rows[p].delivered ==> Apply(s, step).rows[p].delivered
  {
    hide NextPending;
    var next := Apply(s, step);
    if step.Deliver? {
      assert forall p :: p in s.accepted ==> p in next.accepted;
      assert next.accepted[|s.accepted|] == s.offered.value.0;
    }
  }

  lemma TakeIsClear(s: State, now: int)
    requires Grouped(s.rows) && Known(s) && Enabled(s, Take(now))
    ensures Clear(s.rows, NextPending(s.rows).value)
  {
    var p := NextPending(s.rows).value;
    forall b | 0 <= b < p && Together(s.rows[b], s.rows[p]) ensures s.rows[b].delivered {
      assert s.rows[b].id < s.rows[p].id;
    }
  }

  lemma ClearKept(s: State, step: Step, p: nat)
    requires Known(s) && Enabled(s, step) && p < |s.rows| && Clear(s.rows, p)
    ensures p < |Apply(s, step).rows| && Clear(Apply(s, step).rows, p)
  {
    hide NextPending;
    KnownKept(s, step);
  }

  lemma ClearedKept(s: State, step: Step)
    requires Inv(s) && Enabled(s, step)
    ensures Known(Apply(s, step)) && Cleared(Apply(s, step))
  {
    hide NextPending, InOrder, Gapless, Grouped, Clear;
    var next := Apply(s, step);
    KnownKept(s, step);
    if step.Take? { TakeIsClear(s, step.now); }
    forall p | 0 <= p < |s.rows| && Clear(s.rows, p) ensures Clear(next.rows, p) {
      ClearKept(s, step, p);
    }
    forall t | 0 <= t < |next.accepted| ensures Clear(next.rows, next.accepted[t]) {
      if t < |s.accepted| { assert next.accepted[t] == s.accepted[t]; }
    }
  }

  lemma DeliverKeepsOrder(s: State)
    requires Inv(s) && Enabled(s, Deliver)
    ensures var next := Apply(s, Deliver);
            InOrder(next.rows, next.accepted) && Gapless(next.rows, next.accepted)
  {
    var p, n := s.offered.value.0, |s.accepted|;
    var next := Apply(s, Deliver);
    forall t | 0 <= t < n && Together(s.rows[s.accepted[t]], s.rows[p]) ensures s.accepted[t] <= p {
      assert Clear(s.rows, s.accepted[t]);
    }
    forall t, b | 0 <= t < |next.accepted| && 0 <= b < next.accepted[t]
                  && Together(s.rows[b], s.rows[next.accepted[t]]) ensures b in next.accepted[..t]
    {
      if t < n {
        assert next.accepted[..t] == s.accepted[..t];
      } else {
        assert next.accepted[..n] == s.accepted && s.rows[b].delivered;
      }
    }
  }

  lemma SameEventsOrder(a: seq<Row>, b: seq<Row>, accepted: seq<nat>)
    requires SameEvents(a, b) && forall t :: 0 <= t < |accepted| ==> accepted[t] < |a|
    requires InOrder(a, accepted) && Gapless(a, accepted)
    ensures InOrder(b, accepted) && Gapless(b, accepted)
  {
  }

  lemma StepKeeps(s: State, step: Step)
    requires Inv(s) && Enabled(s, step)
    ensures Inv(Apply(s, step))
  {
    GroupedKept(s, step);
    ClearedKept(s, step);
    KnownKept(s, step);
    hide NextPending, InOrder, Gapless, Cleared, Clear, Grouped;
    if step.Deliver? {
      DeliverKeepsOrder(s);
    } else {
      SameEventsOrder(s.rows, Apply(s, step).rows, s.accepted);
    }
  }

  /** One resource's rows are always in id order. */
  lemma GroupedKept(s: State, step: Step)
    requires Grouped(s.rows) && Enabled(s, step)
    ensures Grouped(Apply(s, step).rows)
  {
    hide NextPending;
  }

  lemma {:induction false} RunGrows(s: State, steps: seq<Step>)
    requires Known(s) && IsRun(s, steps)
    ensures SameEvents(s.rows, After(s, steps).rows)
    decreases |steps|
  {
    hide Known;
    if steps != [] {
      KnownKept(s, steps[0]);
      RunGrows(Apply(s, steps[0]), steps[1..]);
    }
  }

  lemma {:induction false} RunKeeps(s: State, steps: seq<Step>)
    requires Inv(s) && IsRun(s, steps)
    ensures Inv(After(s, steps))
    decreases |steps|
  {
    hide Inv, Apply, Enabled;
    if steps != [] {
      StepKeeps(s, steps[0]);
      RunKeeps(Apply(s, steps[0]), steps[1..]);
    }
  }

  lemma OneStep(s: State, step: Step, rest: seq<Step>)
    requires Enabled(s, step) && IsRun(Apply(s, step), rest)
    ensures IsRun(s, [step] + rest) && After(s, [step] + rest) == After(Apply(s, step), rest)
  {
    assert ([step] + rest)[1..] == rest;
  }
}
