/**
 When does the hub see events in id order? Exactly when no event is committed behind one that the hub
 already took, or that it takes in the offer during which the event is committed.
 */
module OutboxOrder {
  import opened Common
  import opened Outbox

  /** Every row of smaller id is among these. */
  ghost predicate SmallerIn(rows: seq<Row>, p: nat, taken: seq<nat>)
    requires p < |rows|
  {
    forall b :: 0 <= b < |rows| && rows[b].id < rows[p].id ==> b in taken
  }

  /** Whatever the hub took, it took every smaller id of the table before. */
  ghost predicate ById(s: State) {
    forall t :: 0 <= t < |s.accepted| && s.accepted[t] < |s.rows| ==> SmallerIn(s.rows, s.accepted[t], s.accepted[..t])
  }

  predicate AboveTaken(s: State, id: nat) {
    forall t :: 0 <= t < |s.accepted| && s.accepted[t] < |s.rows| ==> s.rows[s.accepted[t]].id < id
  }

  ghost predicate InTimeStep(s: State, step: Step) {
    match step
    case Append(id, _, _, _) => AboveTaken(s, id)
    case Deliver => s.offered.Some? && s.offered.value.0 < |s.rows| ==> SmallerIn(s.rows, s.offered.value.0, s.accepted)
    case _ => true
  }

  ghost predicate InTime(s: State, steps: seq<Step>)
    requires IsRun(s, steps)
    decreases |steps|
  {
    steps != [] ==> InTimeStep(s, steps[0]) && InTime(Apply(s, steps[0]), steps[1..])
  }

  // ---- One step ----

  lemma AppendExact(s: State, step: Step)
    requires Known(s) && Enabled(s, step) && step.Append?
    ensures ById(Apply(s, step)) <==> ById(s) && AboveTaken(s, step.id)
  {
    var next, n := Apply(s, step), |s.rows|;
    assert forall b :: 0 <= b < n ==> next.rows[b] == s.rows[b];
    forall t | 0 <= t < |s.accepted|
      ensures SmallerIn(next.rows, s.accepted[t], s.accepted[..t]) <==>
              SmallerIn(s.rows, s.accepted[t], s.accepted[..t]) && s.rows[s.accepted[t]].id < step.id
    {
      assert n !in s.accepted[..t];
      assert next.rows[n].id == step.id && s.rows[s.accepted[t]].id != step.id;
    }
  }

  lemma DeliverExact(s: State)
    requires Known(s) && Enabled(s, Deliver)
    ensures ById(Apply(s, Deliver)) <==> ById(s) && SmallerIn(s.rows, s.offered.value.0, s.accepted)
  {
    var next, n := Apply(s, Deliver), |s.accepted|;
    assert next.accepted[..n] == s.accepted && next.accepted[n] == s.offered.value.0;
    assert forall t :: 0 <= t < n ==> next.accepted[..t] == s.accepted[..t] && next.accepted[t] == s.accepted[t];
  }

  lemma MarkExact(s: State, step: Step)
    requires Known(s) && Enabled(s, step) && !step.Append? && !step.Deliver?
    ensures ById(Apply(s, step)) <==> ById(s)
  {
    hide NextPending;
    var next := Apply(s, step);
    assert |next.rows| == |s.rows| && forall b :: 0 <= b < |s.rows| ==> next.rows[b].id == s.rows[b].id;
    forall p, taken | 0 <= p < |s.rows| ensures SmallerIn(next.rows, p, taken) <==> SmallerIn(s.rows, p, taken) {}
  }

  lemma StepExact(s: State, step: Step)
    requires Known(s) && Enabled(s, step)
    ensures ById(Apply(s, step)) <==> ById(s) && InTimeStep(s, step)
  {
    hide ById, SmallerIn, AboveTaken;
    match step
    case Append(_, _, _, _) => AppendExact(s, step);
    case Deliver => DeliverExact(s);
    case _ => MarkExact(s, step);
  }

  /** The hub's log is by id at the end of a run exactly when it was at the start and every step was in time. */
  lemma {:induction false} InTimeExact(s: State, steps: seq<Step>)
    requires Known(s) && IsRun(s, steps)
    ensures ById(After(s, steps)) <==> ById(s) && InTime(s, steps)
    decreases |steps|
  {
    hide ById, InTimeStep, Known, Apply, Enabled;
    if steps != [] {
      KnownKept(s, steps[0]);
      StepExact(s, steps[0]);
      InTimeExact(Apply(s, steps[0]), steps[1..]);
    }
  }

  // ---- Only commits can be late ----

  /** The offer in hand is taken by the hub before it ends. */
  predicate DeliversHeld(steps: seq<Step>) {
    steps != [] && (steps[0].Deliver? || (steps[0].Append? && DeliversHeld(steps[1..])))
  }

  /** The row in hand, offered and not yet taken. */
  predicate Holds(s: State) { s.offered.Some? && !s.offered.value.1 && s.offered.value.0 < |s.rows| }

  /** A commit behind an event that the hub has taken, or takes in the offer under way. */
  predicate LateCommit(s: State, step: Step, rest: seq<Step>) {
    && step.Append?
    && (!AboveTaken(s, step.id) || (Holds(s) && step.id < s.rows[s.offered.value.0].id && DeliversHeld(rest)))
  }

  predicate OnTime(s: State, steps: seq<Step>)
    requires IsRun(s, steps)
    decreases |steps|
  {
    steps != [] ==> !LateCommit(s, steps[0], steps[1..]) && OnTime(Apply(s, steps[0]), steps[1..])
  }

  /** If the offer in hand will be taken, nothing of smaller id is left untaken. */
  ghost predicate HoldClear(s: State, steps: seq<Step>) {
    Holds(s) && DeliversHeld(steps) ==> SmallerIn(s.rows, s.offered.value.0, s.accepted)
  }

  lemma TakeLeavesNoneSmaller(s: State, now: int)
    requires Known(s) && Enabled(s, Take(now))
    ensures SmallerIn(s.rows, NextPending(s.rows).value, s.accepted)
  {
  }

  /** With a smaller id untaken, an offer that the hub takes is never in time. */
  lemma {:induction false} DirtyHoldIsLate(s: State, steps: seq<Step>, b: nat)
    requires Known(s) && IsRun(s, steps) && Holds(s) && DeliversHeld(steps)
    requires b < |s.rows| && s.rows[b].id < s.rows[s.offered.value.0].id && b !in s.accepted
    ensures !InTime(s, steps)
    decreases |steps|
  {
    if steps[0].Append? {
      KnownKept(s, steps[0]);
      DirtyHoldIsLate(Apply(s, steps[0]), steps[1..], b);
    }
  }

  lemma HoldClearKept(s: State, step: Step, rest: seq<Step>)
    requires Known(s) && Enabled(s, step) && HoldClear(s, [step] + rest) && !LateCommit(s, step, rest)
    ensures HoldClear(Apply(s, step), rest) && InTimeStep(s, step)
  {
    hide NextPending, AboveTaken;
    assert ([step] + rest)[1..] == rest;
    if step.Take? { TakeLeavesNoneSmaller(s, step.now); }
    if step.Append? { assert DeliversHeld(rest) ==> DeliversHeld([step] + rest); }
    if step.Deliver? { assert DeliversHeld([step] + rest); }
  }

  lemma LateIsNotInTime(s: State, steps: seq<Step>)
    requires Known(s) && IsRun(s, steps) && steps != [] && LateCommit(s, steps[0], steps[1..])
    ensures !InTime(s, steps)
  {
    if AboveTaken(s, steps[0].id) {
      var next := Apply(s, steps[0]);
      KnownKept(s, steps[0]);
      assert |s.rows| !in s.accepted;
      DirtyHoldIsLate(next, steps[1..], |s.rows|);
    }
  }

  /** Because each offer starts with the least pending id, only a commit can be out of time. */
  lemma {:induction false} OnlyCommitsAreLate(s: State, steps: seq<Step>)
    requires Known(s) && IsRun(s, steps) && HoldClear(s, steps)
    ensures InTime(s, steps) <==> OnTime(s, steps)
    decreases |steps|
  {
    if steps != [] {
      hide InTimeStep, HoldClear, LateCommit, Apply, Enabled, Known;
      KnownKept(s, steps[0]);
      if LateCommit(s, steps[0], steps[1..]) {
        LateIsNotInTime(s, steps);
      } else {
        assert [steps[0]] + steps[1..] == steps;
        HoldClearKept(s, steps[0], steps[1..]);
        OnlyCommitsAreLate(Apply(s, steps[0]), steps[1..]);
      }
    }
  }

  /**
   The exact condition, for every run: the hub took every event after all smaller ids if and only if no
   event was committed behind one that the hub had taken or took in the offer then under way.
   */
  lemma IdOrderExact(steps: seq<Step>)
    requires IsRun(EMPTY, steps)
    ensures ById(After(EMPTY, steps)) <==> OnTime(EMPTY, steps)
  {
    InTimeExact(EMPTY, steps);
    OnlyCommitsAreLate(EMPTY, steps);
  }

  // ---- What order by id gives consumers ----

  /** The log never steps back to a smaller id. */
  ghost predicate NeverBack(s: State) {
    forall t, u :: 0 <= t < u < |s.accepted| && s.accepted[t] < |s.rows| && s.accepted[u] < |s.rows| ==>
      s.rows[s.accepted[t]].id <= s.rows[s.accepted[u]].id
  }

  ghost predicate SmallerDelivered(rows: seq<Row>, p: nat)
    requires p < |rows|
  {
    forall b :: 0 <= b < |rows| && rows[b].id < rows[p].id ==> rows[b].delivered
  }

  /** Everything below what the hub took was acknowledged; below the row in hand, all that was taken. */
  ghost predicate Acknowledged(s: State) {
    && (forall t :: 0 <= t < |s.accepted| && s.accepted[t] < |s.rows| ==> SmallerDelivered(s.rows, s.accepted[t]))
    && (Holds(s) ==> forall b :: 0 <= b < |s.rows| && s.rows[b].id < s.rows[s.offered.value.0].id && b in s.accepted ==>
          s.rows[b].delivered)
  }

  lemma AcknowledgedKept(s: State, step: Step)
    requires Known(s) && Acknowledged(s) && Enabled(s, step) && InTimeStep(s, step)
    ensures Acknowledged(Apply(s, step))
  {
    var next := Apply(s, step);
    KnownKept(s, step);
    if step.Take? { TakeDelivered(s, step.now); }
    hide NextPending, NextBelow;
    forall t | 0 <= t < |next.accepted| ensures SmallerDelivered(next.rows, next.accepted[t]) {
      if t < |s.accepted| {
        assert next.accepted[t] == s.accepted[t] && SmallerDelivered(s.rows, s.accepted[t]);
      }
    }
  }

  lemma TakeDelivered(s: State, now: int)
    requires Enabled(s, Take(now))
    ensures SmallerDelivered(s.rows, NextPending(s.rows).value)
  {
  }

  lemma NeverBackKept(s: State, step: Step)
    requires Known(s) && Acknowledged(s) && NeverBack(s) && Enabled(s, step)
    ensures NeverBack(Apply(s, step))
  {
    hide NextPending;
    KnownKept(s, step);
    var next := Apply(s, step);
    if step.Deliver? {
      var p := s.offered.value.0;
      forall t | 0 <= t < |s.accepted| ensures s.rows[s.accepted[t]].id <= s.rows[p].id {
        assert SmallerDelivered(s.rows, s.accepted[t]);
      }
    }
  }

  lemma {:induction false} InTimeGives(s: State, steps: seq<Step>)
    requires Known(s) && Acknowledged(s) && NeverBack(s) && IsRun(s, steps) && InTime(s, steps)
    ensures Known(After(s, steps)) && Acknowledged(After(s, steps)) && NeverBack(After(s, steps))
    decreases |steps|
  {
    hide Acknowledged, NeverBack, InTimeStep, Apply, Enabled, Known;
    if steps != [] {
      KnownKept(s, steps[0]);
      AcknowledgedKept(s, steps[0]);
      NeverBackKept(s, steps[0]);
      InTimeGives(Apply(s, steps[0]), steps[1..]);
    }
  }

  /** Any two events that the hub took and the publisher has not acknowledged are one. */
  ghost predicate OneOpen(s: State) {
    forall p, q :: p in s.accepted && q in s.accepted && p < |s.rows| && q < |s.rows| ==>
      s.rows[p].delivered || s.rows[q].delivered || s.rows[p].id == s.rows[q].id
  }

  lemma OneOpenAtMost(s: State)
    requires Known(s) && Acknowledged(s)
    ensures OneOpen(s)
  {
    forall p, q | p in s.accepted && q in s.accepted && s.rows[p].id < s.rows[q].id ensures s.rows[p].delivered {
      var t :| 0 <= t < |s.accepted| && s.accepted[t] == q;
      assert SmallerDelivered(s.rows, s.accepted[t]);
    }
  }

  /** On time, the hub's log ascends by id with none skipped, and at most one event awaits acknowledgment. */
  lemma OnTimeIsInOrder(steps: seq<Step>)
    requires IsRun(EMPTY, steps) && OnTime(EMPTY, steps)
    ensures var s := After(EMPTY, steps); ById(s) && NeverBack(s) && OneOpen(s) && Known(s) && Acknowledged(s)
  {
    hide OnTime, InTime, IsRun, After;
    EmptyLog();
    IdOrderExact(steps);
    InTimeExact(EMPTY, steps);
    InTimeGives(EMPTY, steps);
    OneOpenAtMost(After(EMPTY, steps));
    hide *;
  }

  lemma EmptyLog()
    ensures Known(EMPTY) && ById(EMPTY) && Acknowledged(EMPTY) && NeverBack(EMPTY)
  {
  }

  // ---- Ids committed in ascending order ----

  ghost predicate AscendingIds(rows: seq<Row>) { forall i, k :: 0 <= i < k < |rows| ==> rows[i].id < rows[k].id }

  lemma {:induction false} AscendingIsOnTime(s: State, steps: seq<Step>)
    requires Known(s) && IsRun(s, steps) && AscendingIds(After(s, steps).rows)
    ensures OnTime(s, steps)
    decreases |steps|
  {
    hide NextPending;
    if steps != [] {
      var next := Apply(s, steps[0]);
      KnownKept(s, steps[0]);
      RunGrows(next, steps[1..]);
      AscendingIsOnTime(next, steps[1..]);
      if steps[0].Append? {
        var end, n := After(s, steps).rows, |s.rows|;
        assert end[n].id == steps[0].id && forall i :: 0 <= i < n ==> end[i].id == s.rows[i].id;
      }
    }
  }

  /** Repeats removed, first occurrences kept. */
  function Distinct(log: seq<nat>): seq<nat> {
    if log == [] then []
    else
      var init, last := log[..|log| - 1], log[|log| - 1];
      if last in init then Distinct(init) else Distinct(init) + [last]
  }

  function UpTo(m: nat): seq<nat> { if m == 0 then [] else UpTo(m - 1) + [m - 1] }

  /** A log in which every smaller number comes earlier is, repeats removed, 0, 1, 2 and so on. */
  lemma {:induction false} GaplessCounts(log: seq<nat>) returns (m: nat)
    requires forall t, b: nat :: 0 <= t < |log| && b < log[t] ==> b in log[..t]
    ensures Distinct(log) == UpTo(m) && forall x: nat :: x in log <==> x < m
    decreases |log|
  {
    if log == [] {
      m := 0;
    } else {
      var n := |log| - 1;
      var init, x := log[..n], log[n];
      forall t, b: nat | 0 <= t < |init| && b < init[t] ensures b in init[..t] {
        assert init[..t] == log[..t] && init[t] == log[t];
      }
      m := GaplessCounts(init);
      assert log == init + [x];
      assert forall b: nat :: b < x ==> b in init;
      assert m !in init;
      if x !in init {
        assert x == m;
        m := m + 1;
      }
    }
  }

  /**
   When ids are committed in ascending order, the hub's log with repeats removed is the outbox in id
   order with none skipped: the acknowledged rows, a prefix, and at most one more.
   */
  lemma HubSeesEveryEventInOrder(steps: seq<Step>) returns (k: nat, m: nat)
    requires IsRun(EMPTY, steps) && AscendingIds(After(EMPTY, steps).rows)
    ensures var s := After(EMPTY, steps);
            && k <= m <= k + 1 && m <= |s.rows| && Distinct(s.accepted) == UpTo(m)
            && (forall p :: 0 <= p < |s.rows| ==> (s.rows[p].delivered <==> p < k))
  {
    AscendingIsOnTime(EMPTY, steps);
    OnTimeIsInOrder(steps);
    k, m := TakenPrefix(After(EMPTY, steps));
    hide *;
  }

  /** Ascending commits are not needed: 6 is committed before 5, on time, and the hub takes 5 first. */
  lemma DisorderInTime() returns (steps: seq<Step>)
    ensures IsRun(EMPTY, steps) && OnTime(EMPTY, steps) && !AscendingIds(After(EMPTY, steps).rows)
    ensures var s := After(EMPTY, steps);
            |s.rows| == 2 && s.rows[0].id == 6 && s.rows[1].id == 5 && s.accepted == [1]
  {
    var six, five := Row(6, 0, 1, false, 0, 0), Row(5, 1, 1, false, 0, 0);
    var s1, s2, s3 := State([six], [], None), State([six, five], [], None), State([six, five], [], Some((1, false)));
    DisorderMoves(six, five);
    hide Enabled, Apply, IsRun, OnTime, After, LateCommit, AscendingIds, AboveTaken;
    OnTimeStep(s3, Deliver, []);
    OnTimeStep(s2, Take(0), [Deliver] + []);
    OnTimeStep(s1, Append(5, 1, 1, 0), [Take(0)] + ([Deliver] + []));
    var rest := [Append(5, 1, 1, 0)] + ([Take(0)] + ([Deliver] + []));
    OnTimeStep(EMPTY, Append(6, 0, 1, 0), rest);
    steps := [Append(6, 0, 1, 0)] + rest;
  }

  lemma OnTimeStep(s: State, step: Step, rest: seq<Step>)
    requires Enabled(s, step) && IsRun(Apply(s, step), rest) && OnTime(Apply(s, step), rest)
    requires step.Append? ==> AboveTaken(s, step.id) && s.offered.None?
    ensures IsRun(s, [step] + rest) && OnTime(s, [step] + rest)
    ensures After(s, [step] + rest) == After(Apply(s, step), rest)
  {
    assert ([step] + rest)[1..] == rest;
  }

  lemma DisorderMoves(six: Row, five: Row)
    requires six == Row(6, 0, 1, false, 0, 0) && five == Row(5, 1, 1, false, 0, 0)
    ensures var s1, s2 := State([six], [], None), State([six, five], [], None);
            var s3, s4 := State([six, five], [], Some((1, false))), State([six, five], [1], Some((1, true)));
            && Enabled(EMPTY, Append(6, 0, 1, 0)) && Apply(EMPTY, Append(6, 0, 1, 0)) == s1
            && Enabled(s1, Append(5, 1, 1, 0)) && Apply(s1, Append(5, 1, 1, 0)) == s2
            && Enabled(s2, Take(0)) && Apply(s2, Take(0)) == s3
            && Enabled(s3, Deliver) && Apply(s3, Deliver) == s4
            && IsRun(s4, []) && OnTime(s4, []) && After(s4, []) == s4
            && AboveTaken(EMPTY, 6) && AboveTaken(s1, 5) && !AscendingIds([six, five])
  {
    assert NextBelow([six, five], 1) == Some(0) && NextPending([six, five]) == Some(1);
    hide NextBelow, NextPending;
    assert [six, five][1].id < [six, five][0].id;
  }

  lemma TakenPrefix(s: State) returns (k: nat, m: nat)
    requires Known(s) && ById(s) && Acknowledged(s) && AscendingIds(s.rows)
    ensures k <= m <= k + 1 && m <= |s.rows| && Distinct(s.accepted) == UpTo(m)
    ensures forall p :: 0 <= p < |s.rows| ==> (s.rows[p].delivered <==> p < k)
  {
    hide ById, Acknowledged, AscendingIds, Distinct, UpTo;
    ByIdIsGapless(s);
    m := GaplessCounts(s.accepted);
    AcceptedAreDelivered(s, m);
    k := if m > 0 && !s.rows[m - 1].delivered then m - 1 else m;
  }

  lemma ByIdIsGapless(s: State)
    requires Known(s) && ById(s) && AscendingIds(s.rows)
    ensures forall t, b: nat :: 0 <= t < |s.accepted| && b < s.accepted[t] ==> b in s.accepted[..t]
  {
    forall t, b: nat | 0 <= t < |s.accepted| && b < s.accepted[t] ensures b in s.accepted[..t] {
      assert SmallerIn(s.rows, s.accepted[t], s.accepted[..t]);
    }
  }

  lemma AcceptedAreDelivered(s: State, m: nat)
    requires Known(s) && Acknowledged(s) && AscendingIds(s.rows) && forall x: nat :: x in s.accepted <==> x < m
    ensures m <= |s.rows|
    ensures forall p :: 0 <= p < |s.rows| ==> (p >= m ==> !s.rows[p].delivered) && (p < m - 1 ==> s.rows[p].delivered)
  {
    if m > 0 {
      assert m - 1 in s.accepted;
      var t :| 0 <= t < |s.accepted| && s.accepted[t] == m - 1;
      assert SmallerDelivered(s.rows, s.accepted[t]);
    }
  }
}
