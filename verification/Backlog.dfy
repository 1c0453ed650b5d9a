/**
 The queued-plus-active ceiling of one workspace under interleaved transactions. Submissions insert
 their jobs first and count them under the workspace lock; child jobs count under the lock and then
 insert. The lock lasts until the transaction ends, and nobody sees another's uncommitted rows.
 */
module Backlog {
  import opened Common

  /** `unchecked`: rows were inserted since the last count made under the lock. */
  datatype Txn = Txn(inserted: set<nat>, unchecked: bool)

  datatype State = State(live: set<nat>, nextJob: nat, txns: map<nat, Txn>, lock: Option<nat>)

  datatype Step =
    | Begin(t: nat)
    | Submit(t: nat)
    | Lock(t: nat)
    | Admit(t: nat)
    | Child(t: nat)
    | Commit(t: nat)
    | Rollback(t: nat)
    | Settle(job: nat)

  /** What transaction t counts: committed live jobs and its own. */
  function Visible(s: State, t: nat): set<nat>
    requires t in s.txns
  {
    s.live + s.txns[t].inserted
  }

  predicate Enabled(s: State, step: Step, cap: nat) {
    match step
    case Begin(t) => t !in s.txns && s.lock != Some(t)
    case Submit(t) => t in s.txns
    case Lock(t) => t in s.txns && (s.lock.None? || s.lock == Some(t))
    case Admit(t) => t in s.txns && s.lock == Some(t) && !(|Visible(s, t)| > cap)
    case Child(t) => t in s.txns && s.lock == Some(t) && !s.txns[t].unchecked && !(|Visible(s, t)| >= cap)
    case Commit(t) => t in s.txns && !s.txns[t].unchecked
    case Rollback(t) => t in s.txns
    case Settle(job) => job in s.live
  }

  function Unlocked(s: State, t: nat): Option<nat> { if s.lock == Some(t) then None else s.lock }

  /** The step's transaction is open. */
  predicate Possible(s: State, step: Step) { step.Begin? || step.Settle? || step.t in s.txns }

  function Apply(s: State, step: Step): State
    requires Possible(s, step)
  {
    match step
    case Begin(t) => s.(txns := s.txns[t := Txn({}, false)])
    case Submit(t) =>
      s.(txns := s.txns[t := Txn(s.txns[t].inserted + {s.nextJob}, true)], nextJob := s.nextJob + 1)
    case Lock(t) => s.(lock := Some(t))
    case Admit(t) => s.(txns := s.txns[t := s.txns[t].(unchecked := false)])
    case Child(t) =>
      s.(txns := s.txns[t := s.txns[t].(inserted := s.txns[t].inserted + {s.nextJob})], nextJob := s.nextJob + 1)
    case Commit(t) => s.(live := Visible(s, t), txns := s.txns - {t}, lock := Unlocked(s, t))
    case Rollback(t) => s.(txns := s.txns - {t}, lock := Unlocked(s, t))
    case Settle(job) => s.(live := s.live - {job})
  }

  ghost predicate IsRun(s: State, steps: seq<Step>, cap: nat)
    decreases |steps|
  {
    steps != [] ==> Enabled(s, steps[0], cap) && IsRun(Apply(s, steps[0]), steps[1..], cap)
  }

  ghost function Run(s: State, steps: seq<Step>, cap: nat): State
    requires IsRun(s, steps, cap)
    decreases |steps|
  {
    if steps == [] then s else Run(Apply(s, steps[0]), steps[1..], cap)
  }

  /** Only the lock's holder can have counted rows, and what it counted still fits when it commits. */
  ghost predicate Inv(s: State, cap: nat) {
    && |s.live| <= cap
    && (s.lock.Some? ==> s.lock.value in s.txns)
    && (forall t :: t in s.txns && s.lock != Some(t) ==> s.txns[t].inserted == {} || s.txns[t].unchecked)
    && (forall t :: t in s.txns && s.lock == Some(t) && !s.txns[t].unchecked ==> |Visible(s, t)| <= cap)
  }

  lemma StepKeeps(s: State, step: Step, cap: nat)
    requires Inv(s, cap) && Enabled(s, step, cap)
    ensures Inv(Apply(s, step), cap)
  {
    hide Inv, Apply;
    match step
    case Child(t) => ChildKeeps(s, t, cap);
    case Commit(t) => CommitKeeps(s, t, cap);
    case Settle(job) => SettleKeeps(s, job, cap);
    case Lock(t) => LockKeeps(s, t, cap);
    case Submit(t) => SubmitKeeps(s, t, cap);
    case Begin(t) => BeginKeeps(s, t, cap);
    case Admit(t) => AdmitKeeps(s, t, cap);
    case Rollback(t) => RollbackKeeps(s, t, cap);
  }

  lemma LockKeeps(s: State, t: nat, cap: nat)
    requires Inv(s, cap) && Enabled(s, Lock(t), cap)
    ensures Inv(Apply(s, Lock(t)), cap)
  {
    if s.txns[t].inserted == {} { assert Visible(s, t) == s.live; }
  }

  lemma SubmitKeeps(s: State, t: nat, cap: nat)
    requires Inv(s, cap) && Enabled(s, Submit(t), cap)
    ensures Inv(Apply(s, Submit(t)), cap)
  {
    SameView(s, Apply(s, Submit(t)));
    hide Visible;
  }

  /** Whoever has the same rows before and after sees the same. */
  lemma SameView(s: State, next: State)
    requires next.live == s.live
    ensures forall u :: u in s.txns && u in next.txns && next.txns[u].inserted == s.txns[u].inserted ==>
              Visible(next, u) == Visible(s, u)
  {
  }

  lemma BeginKeeps(s: State, t: nat, cap: nat)
    requires Inv(s, cap) && Enabled(s, Begin(t), cap)
    ensures Inv(Apply(s, Begin(t)), cap)
  {
    SameView(s, Apply(s, Begin(t)));
    hide Visible;
  }

  lemma AdmitKeeps(s: State, t: nat, cap: nat)
    requires Inv(s, cap) && Enabled(s, Admit(t), cap)
    ensures Inv(Apply(s, Admit(t)), cap)
  {
    SameView(s, Apply(s, Admit(t)));
    hide Visible;
  }

  lemma RollbackKeeps(s: State, t: nat, cap: nat)
    requires Inv(s, cap) && Enabled(s, Rollback(t), cap)
    ensures Inv(Apply(s, Rollback(t)), cap)
  {
    SameView(s, Apply(s, Rollback(t)));
    hide Visible;
  }

  lemma ChildKeeps(s: State, t: nat, cap: nat)
    requires Inv(s, cap) && Enabled(s, Child(t), cap)
    ensures Inv(Apply(s, Child(t)), cap)
  {
    assert Visible(Apply(s, Child(t)), t) == Visible(s, t) + {s.nextJob};
  }

  /** A transaction commits rows only while it holds the lock under which it counted them. */
  lemma CommitKeeps(s: State, t: nat, cap: nat)
    requires Inv(s, cap) && Enabled(s, Commit(t), cap)
    ensures s.txns[t].inserted != {} ==> s.lock == Some(t) && |Visible(s, t)| <= cap
    ensures Inv(Apply(s, Commit(t)), cap)
  {
    if s.lock != Some(t) { assert Visible(s, t) == s.live; }
  }

  lemma SettleKeeps(s: State, job: nat, cap: nat)
    requires Inv(s, cap) && Enabled(s, Settle(job), cap)
    ensures Inv(Apply(s, Settle(job)), cap)
  {
    var next := Apply(s, Settle(job));
    SubsetSize(next.live, s.live);
    forall t | t in s.txns ensures |Visible(next, t)| <= |Visible(s, t)| {
      SubsetSize(Visible(next, t), Visible(s, t));
    }
  }

  lemma {:induction false} RunKeeps(s: State, steps: seq<Step>, cap: nat)
    requires Inv(s, cap) && IsRun(s, steps, cap)
    ensures Inv(Run(s, steps, cap), cap)
    decreases |steps|
  {
    hide Inv, Apply;
    if steps != [] {
      StepKeeps(s, steps[0], cap);
      RunKeeps(Apply(s, steps[0]), steps[1..], cap);
    }
  }

  const EMPTY := State({}, 0, map[], None)

  /** At every commit of every run the workspace's live jobs are within the ceiling, however transactions interleave. */
  lemma CeilingHolds(steps: seq<Step>, cap: nat)
    requires IsRun(EMPTY, steps, cap)
    ensures |Run(EMPTY, steps, cap).live| <= cap
  {
    assert Inv(EMPTY, cap);
    RunKeeps(EMPTY, steps, cap);
  }

  /** What a count decides: a submission passes exactly if all its rows fit, a child exactly if one more does. */
  lemma RoomExactly(s: State, t: nat, cap: nat)
    requires t in s.txns && s.lock == Some(t) && !s.txns[t].unchecked && s.nextJob !in Visible(s, t)
    ensures Enabled(s, Admit(t), cap) <==> |s.live + s.txns[t].inserted| <= cap
    ensures Enabled(s, Child(t), cap) <==> |s.live + s.txns[t].inserted + {s.nextJob}| <= cap
    ensures var next := Apply(Apply(s, Child(t)), Commit(t));
            && next.live == s.live + s.txns[t].inserted + {s.nextJob} && t !in next.txns && next.lock.None?
            && (forall u :: u in s.txns && u != t ==> u in next.txns && next.txns[u] == s.txns[u])
  {
    assert Visible(s, t) + {s.nextJob} == s.live + s.txns[t].inserted + {s.nextJob};
    assert Visible(Apply(s, Child(t)), t) == Visible(s, t) + {s.nextJob};
  }

  lemma OneStep(s: State, step: Step, rest: seq<Step>, cap: nat)
    requires Enabled(s, step, cap) && IsRun(Apply(s, step), rest, cap)
    ensures IsRun(s, [step] + rest, cap) && Run(s, [step] + rest, cap) == Run(Apply(s, step), rest, cap)
  {
    assert ([step] + rest)[1..] == rest;
  }

  /** From any quiet state within the ceiling, counted children can fill the workspace up to exactly the ceiling. */
  lemma {:induction false} CeilingIsReached(s: State, cap: nat) returns (steps: seq<Step>)
    requires s.txns == map[] && s.lock.None? && |s.live| <= cap && forall j :: j in s.live ==> j < s.nextJob
    ensures IsRun(s, steps, cap) && |Run(s, steps, cap).live| == cap
    decreases cap - |s.live|
  {
    steps := [];
    if |s.live| < cap {
      var a := Apply(s, Begin(0));
      var b := Apply(a, Lock(0));
      assert Visible(b, 0) == s.live;
      RoomExactly(b, 0, cap);
      var c := Apply(b, Child(0));
      var d := Apply(c, Commit(0));
      assert d.txns == map[];
      var rest := CeilingIsReached(d, cap);
      hide Enabled, Apply;
      OneStep(c, Commit(0), rest, cap);
      OneStep(b, Child(0), [Commit(0)] + rest, cap);
      OneStep(a, Lock(0), [Child(0)] + ([Commit(0)] + rest), cap);
      OneStep(s, Begin(0), [Lock(0)] + ([Child(0)] + ([Commit(0)] + rest)), cap);
      steps := [Begin(0)] + ([Lock(0)] + ([Child(0)] + ([Commit(0)] + rest)));
    }
  }
}
