/** What consumers of the hub see: per resource in every run, and overall when ids are committed in order. */
module OutboxTheorems {
  import opened Common
  import opened Outbox

  /** Revisions of one resource ascend in commit order. */
  ghost predicate RevisionsAscend(rows: seq<Row>) {
    forall i, k :: 0 <= i < k < |rows| && rows[i].resource == rows[k].resource ==> rows[i].revision < rows[k].revision
  }

  lemma {:induction false} RunRevisions(s: State, steps: seq<Step>)
    requires RevisionsAscend(s.rows) && IsRun(s, steps)
    ensures RevisionsAscend(After(s, steps).rows)
    decreases |steps|
  {
    hide NextPending;
    if steps != [] { RunRevisions(Apply(s, steps[0]), steps[1..]); }
  }

  /** The log of one resource: ascending revisions, repeats only in place. */
  ghost predicate Ascending(s: State) {
    forall t, u ::
      (0 <= t < u < |s.accepted| && s.accepted[t] < |s.rows| && s.accepted[u] < |s.rows|
       && s.rows[s.accepted[t]].resource == s.rows[s.accepted[u]].resource)
      ==> s.rows[s.accepted[t]].revision <= s.rows[s.accepted[u]].revision
  }

  /** Every smaller revision of the resource was taken before. */
  ghost predicate NoneSkipped(s: State) {
    forall t, b ::
      (0 <= t < |s.accepted| && s.accepted[t] < |s.rows| && 0 <= b < |s.rows|
       && s.rows[b].resource == s.rows[s.accepted[t]].resource
       && s.rows[b].revision < s.rows[s.accepted[t]].revision)
      ==> b in s.accepted[..t]
  }

  /** A resource has at most one event that the hub took and the publisher has not acknowledged. */
  ghost predicate OneUnacknowledged(s: State) {
    forall p, q ::
      (p in s.accepted && q in s.accepted && p < |s.rows| && q < |s.rows| && s.rows[p].resource == s.rows[q].resource
       && !s.rows[p].delivered && !s.rows[q].delivered)
      ==> p == q
  }

  lemma LogAscends(s: State)
    requires Known(s) && InOrder(s.rows, s.accepted) && RevisionsAscend(s.rows)
    ensures Ascending(s)
  {
    forall t, u | 0 <= t < u < |s.accepted| && s.rows[s.accepted[t]].resource == s.rows[s.accepted[u]].resource
      ensures s.rows[s.accepted[t]].revision <= s.rows[s.accepted[u]].revision
    {
      assert Together(s.rows[s.accepted[t]], s.rows[s.accepted[u]]);
    }
  }

  lemma LogSkipsNone(s: State)
    requires Known(s) && Gapless(s.rows, s.accepted) && RevisionsAscend(s.rows)
    ensures NoneSkipped(s)
  {
    forall t, b | 0 <= t < |s.accepted| && 0 <= b < |s.rows| && s.rows[b].resource == s.rows[s.accepted[t]].resource
                  && s.rows[b].revision < s.rows[s.accepted[t]].revision
      ensures b in s.accepted[..t]
    {
      assert Together(s.rows[b], s.rows[s.accepted[t]]) && b < s.accepted[t];
    }
  }

  lemma OneAtATime(s: State)
    requires Known(s) && Cleared(s)
    ensures OneUnacknowledged(s)
  {
    forall p, q | p in s.accepted && q in s.accepted && p < q && s.rows[p].resource == s.rows[q].resource
      ensures s.rows[p].delivered
    {
      var t :| 0 <= t < |s.accepted| && s.accepted[t] == q;
      assert Clear(s.rows, s.accepted[t]);
      assert Together(s.rows[p], s.rows[q]);
    }
  }

  /**
   In every run, whatever order ids are committed in: the hub takes each resource's events in ascending
   revision order, repeats only in place, none skipped, and at most one of them unacknowledged.
   */
  lemma ResourceRevisionsInOrder(steps: seq<Step>)
    requires IsRun(EMPTY, steps)
    ensures var s := After(EMPTY, steps);
            && (forall p :: p in s.accepted ==> p < |s.rows|)
            && (forall p :: 0 <= p < |s.rows| && s.rows[p].delivered ==> p in s.accepted)
            && Ascending(s) && NoneSkipped(s) && OneUnacknowledged(s)
  {
    RunKeeps(EMPTY, steps);
    RunRevisions(EMPTY, steps);
    hide IsRun, After, InOrder, Gapless, Cleared, Grouped, RevisionsAscend, Ascending, NoneSkipped, OneUnacknowledged;
    var s := After(EMPTY, steps);
    LogAscends(s);
    LogSkipsNone(s);
    OneAtATime(s);
  }

  /** Id 6 is accepted, then 5 is committed and accepted: out of id order, and two await acknowledgment. */
  lemma LateCommitIsOvertaken()
    ensures var steps := [Append(6, 0, 1, 0), Take(0), Deliver, Stop, Append(5, 1, 1, 0), Take(0), Deliver];
            && IsRun(EMPTY, steps)
            && var s := After(EMPTY, steps);
               && |s.rows| == 2 && s.rows[0].id == 6 && s.rows[1].id == 5 && s.accepted == [0, 1]
               && !s.rows[0].delivered && !s.rows[1].delivered
  {
    var six, five := Row(6, 0, 1, false, 0, 0), Row(5, 1, 1, false, 0, 0);
    var s1, s2 := State([six], [], None), State([six], [], Some((0, false)));
    var s3, s4 := State([six], [0], Some((0, true))), State([six], [0], None);
    var s5, s6 := State([six, five], [0], None), State([six, five], [0], Some((1, false)));
    LateMoves(six, five);
    hide IsRun, After, Enabled, Apply;
    OneStep(s6, Deliver, []);
    OneStep(s5, Take(0), [Deliver] + []);
    OneStep(s4, Append(5, 1, 1, 0), [Take(0)] + ([Deliver] + []));
    OneStep(s3, Stop, [Append(5, 1, 1, 0)] + ([Take(0)] + ([Deliver] + [])));
    OneStep(s2, Deliver, [Stop] + ([Append(5, 1, 1, 0)] + ([Take(0)] + ([Deliver] + []))));
    OneStep(s1, Take(0), [Deliver] + ([Stop] + ([Append(5, 1, 1, 0)] + ([Take(0)] + ([Deliver] + [])))));
    var rest := [Take(0)] + ([Deliver] + ([Stop] + ([Append(5, 1, 1, 0)] + ([Take(0)] + ([Deliver] + [])))));
    OneStep(EMPTY, Append(6, 0, 1, 0), rest);
    assert [Append(6, 0, 1, 0)] + rest ==
           [Append(6, 0, 1, 0), Take(0), Deliver, Stop, Append(5, 1, 1, 0), Take(0), Deliver];
  }

  lemma LateMoves(six: Row, five: Row)
    requires six == Row(6, 0, 1, false, 0, 0) && five == Row(5, 1, 1, false, 0, 0)
    ensures var s1, s2 := State([six], [], None), State([six], [], Some((0, false)));
            var s3, s4 := State([six], [0], Some((0, true))), State([six], [0], None);
            var s5, s6 := State([six, five], [0], None), State([six, five], [0], Some((1, false)));
            && Enabled(EMPTY, Append(6, 0, 1, 0)) && Apply(EMPTY, Append(6, 0, 1, 0)) == s1
            && Enabled(s1, Take(0)) && Apply(s1, Take(0)) == s2
            && Enabled(s2, Deliver) && Apply(s2, Deliver) == s3
            && Enabled(s3, Stop) && Apply(s3, Stop) == s4
            && Enabled(s4, Append(5, 1, 1, 0)) && Apply(s4, Append(5, 1, 1, 0)) == s5
            && Enabled(s5, Take(0)) && Apply(s5, Take(0)) == s6
            && Enabled(s6, Deliver) && Apply(s6, Deliver) == State([six, five], [0, 1], Some((1, true)))
            && IsRun(Apply(s6, Deliver), []) && After(Apply(s6, Deliver), []) == Apply(s6, Deliver)
  {
    LastIsLeast(six, five);
    hide NextPending;
  }

  lemma LastIsLeast(a: Row, b: Row)
    requires !a.delivered && !b.delivered && b.id < a.id
    ensures NextPending([a]) == Some(0) && NextPending([a, b]) == Some(1)
  {
    assert NextBelow([a, b], 1) == Some(0);
  }
}
