/** One batch of the publisher, as a run of the outbox. */
module OutboxPublisher {
  import opened Common
  import opened Outbox

  /** What the hub does with one offer and what the publisher sees of it: a success only if it was taken. */
  datatype Answer = Answer(now: int, taken: bool, seen: bool, retryAt: int)

  class Publisher {
    var state: State

    constructor ()
      ensures state == EMPTY
    {
      state := EMPTY;
    }

    /** One due event: offered to the hub, then acknowledged if success was seen, else deferred. */
    method Offer(a: Answer) returns (ghost steps: seq<Step>)
      requires (a.seen ==> a.taken) && Enabled(state, Take(a.now))
      modifies this
      ensures steps == OfferSteps(a)
      ensures IsRun(old(state), steps) && state == After(old(state), steps) && state.offered.None?
      ensures var k := NextPending(old(state).rows).value;
              var row := old(state).rows[k];
              && state.accepted == old(state).accepted + (if a.taken then [k] else [])
              && |state.rows| == |old(state).rows|
              && (forall i :: 0 <= i < |state.rows| && i != k ==> state.rows[i] == old(state).rows[i])
              && state.rows[k] == Row(row.id, row.resource, row.revision, a.seen,
                                      if a.seen then row.nextAttempt else a.retryAt, row.attempts + 1)
    {
      hide NextPending;
      ghost var was := state;
      var k := NextPending(state.rows).value;
      state := state.(offered := Some((k, false)));
      ThreeSteps(was, a);
      if a.taken { state := state.(accepted := state.accepted + [k], offered := Some((k, true))); }
      var row := state.rows[k].(attempts := state.rows[k].attempts + 1);
      row := if a.seen then row.(delivered := true) else row.(nextAttempt := a.retryAt);
      state := state.(rows := state.rows[k := row], offered := None);
      steps := OfferSteps(a);
    }

    /**
     `publish_pending`: a run of offers, each of the least pending id at that moment; it ends when
     nothing is pending, the next event is not due, or a success was not seen.
     */
    method PublishPending(answers: seq<Answer>) returns (delivered: nat, ghost steps: seq<Step>)
      requires state.offered.None? && forall i :: 0 <= i < |answers| ==> (answers[i].seen ==> answers[i].taken)
      modifies this
      ensures IsRun(old(state), steps) && state == After(old(state), steps) && state.offered.None?
      ensures forall i :: 0 <= i < |steps| ==> !steps[i].Append? && !steps[i].Stop?
      ensures delivered == Acknowledged(steps) <= |answers|
      ensures |Pending(old(state).rows)| == |Pending(state.rows)| + delivered
      ensures |state.rows| == |old(state).rows| && |state.accepted| >= |old(state).accepted| + delivered
      ensures delivered < |answers| ==>
                || !answers[delivered].seen || NextPending(state.rows).None?
                || state.rows[NextPending(state.rows).value].nextAttempt > answers[delivered].now
    {
      hide Apply, NextPending;
      delivered, steps := 0, [];
      ghost var was := state;
      while delivered < |answers|
        invariant delivered <= |answers| && state.offered.None?
        invariant IsRun(was, steps) && state == After(was, steps) && delivered == Acknowledged(steps)
        invariant forall i :: 0 <= i < |steps| ==> !steps[i].Append? && !steps[i].Stop?
        invariant |Pending(was.rows)| == |Pending(state.rows)| + delivered
        invariant |state.rows| == |was.rows| && |state.accepted| >= |was.accepted| + delivered
      {
        var a := answers[delivered];
        var k := NextPending(state.rows);
        if k.None? || state.rows[k.value].nextAttempt > a.now { return; }
        ghost var rows := state.rows;
        ghost var more := Offer(a);
        PendingAfter(rows, state.rows, k.value);
        RunAppend(was, steps, more);
        AcknowledgedAppend(steps, more);
        AcknowledgedOffer(a);
        steps := steps + more;
        if !a.seen { return; }
        delivered := delivered + 1;
      }
    }
  }

  /** Events not delivered yet. */
  ghost function Pending(rows: seq<Row>): set<nat> {
    set i: nat | i < |rows| && !rows[i].delivered
  }

  lemma PendingAfter(rows: seq<Row>, next: seq<Row>, k: nat)
    requires |rows| == |next| && k < |rows| && !rows[k].delivered
    requires forall i :: 0 <= i < |rows| && i != k ==> next[i] == rows[i]
    ensures |Pending(next)| == |Pending(rows)| - if next[k].delivered then 1 else 0
  {
    assert Pending(next) == if next[k].delivered then Pending(rows) - {k} else Pending(rows);
  }

  function Acknowledged(steps: seq<Step>): nat {
    if steps == [] then 0 else (if steps[0].Acknowledge? then 1 else 0) + Acknowledged(steps[1..])
  }

  lemma {:induction false} AcknowledgedAppend(a: seq<Step>, b: seq<Step>)
    ensures Acknowledged(a + b) == Acknowledged(a) + Acknowledged(b)
  {
    if a == [] {
      assert a + b == b;
    } else {
      assert (a + b)[1..] == a[1..] + b;
      AcknowledgedAppend(a[1..], b);
    }
  }

  function OfferSteps(a: Answer): seq<Step> {
    [Take(a.now)] + (if a.taken then [Deliver] else []) + [if a.seen then Acknowledge else Defer(a.retryAt)]
  }

  lemma AcknowledgedOffer(a: Answer)
    ensures Acknowledged(OfferSteps(a)) == if a.seen then 1 else 0
  {
    var last := [if a.seen then Acknowledge else Defer(a.retryAt)];
    assert last[1..] == [];
    assert Acknowledged(last) == if a.seen then 1 else 0;
    AcknowledgedAppend([Take(a.now)] + (if a.taken then [Deliver] else []), last);
    AcknowledgedAppend([Take(a.now)], if a.taken then [Deliver] else []);
    assert [Take(a.now)][1..] == [] && [Deliver][1..] == [];
  }

  lemma {:induction false} RunAppend(s: State, a: seq<Step>, b: seq<Step>)
    requires IsRun(s, a) && IsRun(After(s, a), b)
    ensures IsRun(s, a + b) && After(s, a + b) == After(After(s, a), b)
    decreases |a|
  {
    hide Apply;
    if a == [] {
      assert a + b == b;
    } else {
      assert (a + b)[1..] == a[1..] + b;
      RunAppend(Apply(s, a[0]), a[1..], b);
    }
  }

  lemma ThreeSteps(s: State, a: Answer)
    requires (a.seen ==> a.taken) && Enabled(s, Take(a.now))
    ensures IsRun(s, OfferSteps(a))
    ensures var t := Apply(s, Take(a.now));
            var u := if a.taken then Apply(t, Deliver) else t;
            After(s, OfferSteps(a)) == if a.seen then Apply(u, Acknowledge) else Apply(u, Defer(a.retryAt))
  {
    hide NextPending;
    var end := if a.seen then Acknowledge else Defer(a.retryAt);
    var t := Apply(s, Take(a.now));
    var u := if a.taken then Apply(t, Deliver) else t;
    OneStep(u, end, []);
    if a.taken {
      OneStep(t, Deliver, [end] + []);
      OneStep(s, Take(a.now), [Deliver] + ([end] + []));
      assert OfferSteps(a) == [Take(a.now)] + ([Deliver] + ([end] + []));
    } else {
      OneStep(s, Take(a.now), [end] + []);
      assert OfferSteps(a) == [Take(a.now)] + ([end] + []);
    }
  }
}
