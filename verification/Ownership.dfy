/**
 Job ownership across database sessions: session-level advisory locks (re-entrant, released by
 session death), a fencing token checked when a write transaction opens, a share lock on the
 fenced row that claims and recovery skip, and recovery of orphaned jobs.
 */
module Ownership {
  import opened Common

  /** Lock keys are digests of a namespace and an identity, taken to be distinct. */
  datatype Key = Provider(provider: nat) | Executor(job: nat)

  datatype Hold = Hold(session: nat, count: nat)

  type Locks = map<Key, Hold>

  predicate CanLock(locks: Locks, s: nat, k: Key) {
    k in locks ==> locks[k].session == s
  }

  predicate Owns(locks: Locks, s: nat, k: Key) {
    k in locks && locks[k].session == s
  }

  function Lock(locks: Locks, s: nat, k: Key): Locks
    requires CanLock(locks, s, k)
  {
    locks[k := Hold(s, if k in locks then locks[k].count + 1 else 1)]
  }

  function Unlock(locks: Locks, s: nat, k: Key): Locks {
    if !Owns(locks, s, k) then locks
    else if locks[k].count > 1 then locks[k := Hold(s, locks[k].count - 1)]
    else locks - {k}
  }

  /** Releases from the last key to the first. */
  function UnlockAll(locks: Locks, s: nat, keys: seq<Key>): Locks {
    if keys == [] then locks else UnlockAll(Unlock(locks, s, keys[|keys| - 1]), s, keys[..|keys| - 1])
  }

  function LockAll(locks: Locks, s: nat, keys: seq<Key>): (r: Locks)
    requires forall i :: 0 <= i < |keys| ==> CanLock(locks, s, keys[i])
    ensures forall k :: CanLock(locks, s, k) ==> CanLock(r, s, k)
  {
    if keys == [] then locks else Lock(LockAll(locks, s, keys[..|keys| - 1]), s, keys[|keys| - 1])
  }

  /** Releasing exactly what was taken restores the lock table, however often the keys were already held. */
  lemma {:induction false} UnlockUndoesLock(locks: Locks, s: nat, keys: seq<Key>)
    requires forall k :: k in locks ==> locks[k].count >= 1
    requires forall i :: 0 <= i < |keys| ==> CanLock(locks, s, keys[i])
    ensures UnlockAll(LockAll(locks, s, keys), s, keys) == locks
  {
    if keys != [] {
      var front := keys[..|keys| - 1];
      LockAllCounts(locks, s, front);
      var mid := LockAll(locks, s, front);
      assert Unlock(Lock(mid, s, keys[|keys| - 1]), s, keys[|keys| - 1]) == mid;
      UnlockUndoesLock(locks, s, front);
    }
  }

  lemma {:induction false} LockAllCounts(locks: Locks, s: nat, keys: seq<Key>)
    requires forall k :: k in locks ==> locks[k].count >= 1
    requires forall i :: 0 <= i < |keys| ==> CanLock(locks, s, keys[i])
    ensures var r := LockAll(locks, s, keys);
            && (forall k :: k in r ==> r[k].count >= 1)
            && (forall k :: k in r <==> k in locks || k in keys)
            && (forall k :: k in r ==> r[k].session == if k in keys then s else locks[k].session)
  {
    if keys != [] {
      LockAllCounts(locks, s, keys[..|keys| - 1]);
      assert keys == keys[..|keys| - 1] + [keys[|keys| - 1]];
    }
  }

  /** Only this session's holds on these keys can change, and nobody gains a hold. */
  lemma {:induction false} UnlockAllCounts(locks: Locks, s: nat, keys: seq<Key>)
    requires forall k :: k in locks ==> locks[k].count >= 1
    ensures var r := UnlockAll(locks, s, keys);
            && (forall k :: k in r ==> k in locks && r[k].session == locks[k].session && r[k].count >= 1)
            && (forall k :: k in locks && !(Owns(locks, s, k) && k in keys) ==> k in r && r[k] == locks[k])
  {
    if keys != [] {
      UnlockAllCounts(Unlock(locks, s, keys[|keys| - 1]), s, keys[..|keys| - 1]);
      assert keys == keys[..|keys| - 1] + [keys[|keys| - 1]];
    }
  }

  /** A worker's connection: what it believes it owns. Backend pids are reused once a session is gone. */
  datatype Conn = Conn(pid: nat, fence: Option<(nat, nat)>, keys: seq<Key>, writing: bool)

  datatype State = Pending | InProgress | Other

  datatype Row = Row(provider: nat, acquisition: bool, state: State, token: Option<nat>, pid: Option<nat>)

  /** The n-th claim ever attempted; n is its ownership token. */
  datatype Claimed = Claimed(session: nat, job: nat)

  datatype Write = Write(session: nat, job: nat, token: nat)

  datatype Db = Db(
    rows: map<nat, Row>, sessions: map<nat, Conn>, nextSession: nat, locks: Locks,
    claims: seq<Claimed>, accepted: seq<Write>)

  /** The test made when a write transaction opens on a connection that carries a fence. */
  predicate PassesFence(db: Db, s: nat) {
    && s in db.sessions
    && db.sessions[s].fence.Some?
    && var (j, token) := db.sessions[s].fence.value;
       && (forall k :: k in db.sessions[s].keys ==> Owns(db.locks, s, k))
       && j in db.rows && db.rows[j].state == InProgress
       && db.rows[j].token == Some(token) && db.rows[j].pid == Some(db.sessions[s].pid)
  }

  /** A session may open a write transaction: unfenced, or fenced and current. */
  predicate MayWrite(db: Db, s: nat) {
    s in db.sessions && !db.sessions[s].writing && (db.sessions[s].fence.None? || PassesFence(db, s))
  }

  /** The owner's open transaction holds a share lock on its row. */
  ghost predicate RowLocked(db: Db, j: nat) {
    exists s ::
      && s in db.sessions && db.sessions[s].writing && db.sessions[s].fence.Some?
      && db.sessions[s].fence.value.0 == j
  }

  function ClaimKeys(row: Row, j: nat): seq<Key> {
    if row.acquisition then [Provider(row.provider), Executor(j)] else [Executor(j)]
  }

  datatype Step =
    | Connect(pid: nat)
    | Insert(j: nat, provider: nat, acquisition: bool)
    | Claim(s: nat, j: nat, committed: bool)
    | Open(s: nat)
    | Commit(s: nat, to: State)
    | Abort(s: nat)
    | Release(s: nat)
    | Die(s: nat)
    | Recover(s: nat, j: nat)
    | Requeue(s: nat, j: nat)

  /** The recovering session is itself the executor of this attempt. */
  predicate OwnsAttempt(db: Db, s: nat, j: nat)
    requires s in db.sessions && j in db.rows
  {
    && db.sessions[s].fence.Some? && db.rows[j].token.Some?
    && db.sessions[s].fence.value == (j, db.rows[j].token.value)
    && Owns(db.locks, s, Executor(j))
  }

  ghost predicate Enabled(db: Db, step: Step) {
    match step
    case Connect(pid) => forall t :: t in db.sessions ==> db.sessions[t].pid != pid
    case Insert(j, _, _) => j !in db.rows
    case Claim(s, j, _) =>
      && MayWrite(db, s)
      && j in db.rows && db.rows[j].state == Pending && !RowLocked(db, j)
      && (forall i :: 0 <= i < |ClaimKeys(db.rows[j], j)| ==> CanLock(db.locks, s, ClaimKeys(db.rows[j], j)[i]))
    case Open(s) => PassesFence(db, s) && !db.sessions[s].writing
    case Commit(s, _) =>
      && s in db.sessions && db.sessions[s].writing && db.sessions[s].fence.Some?
      && db.sessions[s].fence.value.0 in db.rows
    case Abort(s) => s in db.sessions && db.sessions[s].writing
    case Release(s) => s in db.sessions && !db.sessions[s].writing
    case Die(s) => s in db.sessions
    case Recover(s, j) =>
      && MayWrite(db, s) && j in db.rows && db.rows[j].state == InProgress && !RowLocked(db, j)
      && !OwnsAttempt(db, s, j)
      && CanLock(db.locks, s, Executor(j))
    case Requeue(s, j) =>
      MayWrite(db, s) && j in db.rows && db.rows[j].state == Other && !RowLocked(db, j)
  }

  function Without(locks: Locks, s: nat): Locks {
    map k | k in locks && locks[k].session != s :: locks[k]
  }

  /**
   A claim sets the connection's fence and keys before its transaction commits; when that commit
   fails the fence and the locks stay while the row keeps its old contents. A claim made without
   releasing the last job first overwrites the connection's keys and leaks their locks.
   */
  function Apply(db: Db, step: Step): Db
    requires Enabled(db, step)
  {
    match step
    case Connect(pid) =>
      db.(sessions := db.sessions[db.nextSession := Conn(pid, None, [], false)], nextSession := db.nextSession + 1)
    case Insert(j, provider, acquisition) => db.(rows := db.rows[j := Row(provider, acquisition, Pending, None, None)])
    case Claim(s, j, committed) =>
      var conn := db.sessions[s];
      var keys := ClaimKeys(db.rows[j], j);
      var token := |db.claims|;
      db.(rows := if !committed then db.rows
                  else db.rows[j := db.rows[j].(state := InProgress, token := Some(token), pid := Some(conn.pid))],
          sessions := db.sessions[s := conn.(fence := Some((j, token)), keys := keys)],
          locks := LockAll(db.locks, s, keys), claims := db.claims + [Claimed(s, j)])
    case Open(s) => db.(sessions := db.sessions[s := db.sessions[s].(writing := true)])
    case Commit(s, to) =>
      var (j, token) := db.sessions[s].fence.value;
      db.(rows := db.rows[j := db.rows[j].(state := to)],
          sessions := db.sessions[s := db.sessions[s].(writing := false)],
          accepted := db.accepted + [Write(s, j, token)])
    case Abort(s) => db.(sessions := db.sessions[s := db.sessions[s].(writing := false)])
    case Release(s) =>
      db.(sessions := db.sessions[s := db.sessions[s].(fence := None, keys := [])],
          locks := UnlockAll(db.locks, s, db.sessions[s].keys))
    case Die(s) => db.(sessions := db.sessions - {s}, locks := Without(db.locks, s))
    case Recover(s, j) =>
      db.(rows := db.rows[j := db.rows[j].(state := Pending, token := None, pid := None)],
          locks := UnlockAll(LockAll(db.locks, s, [Executor(j)]), s, [Executor(j)]))
    case Requeue(s, j) => db.(rows := db.rows[j := db.rows[j].(state := Pending)])
  }

  predicate Start(db: Db) {
    && db.rows == map[] && db.sessions == map[] && db.nextSession == 0
    && db.locks == map[] && db.claims == [] && db.accepted == []
  }

  ghost predicate IsRun(db: Db, steps: seq<Step>)
    decreases |steps|
  {
    steps != [] ==> Enabled(db, steps[0]) && IsRun(Apply(db, steps[0]), steps[1..])
  }

  ghost function Run(db: Db, steps: seq<Step>): Db
    requires IsRun(db, steps)
    decreases |steps|
  {
    if steps == [] then db else Run(Apply(db, steps[0]), steps[1..])
  }

  // ---- The invariant ----

  ghost predicate LocksLive(db: Db) {
    forall k :: k in db.locks ==> db.locks[k].session in db.sessions && db.locks[k].count >= 1
  }

  ghost predicate KeysHeld(db: Db) {
    && (forall s :: s in db.sessions ==> s < db.nextSession)
    && (forall s, k :: s in db.sessions && k in db.sessions[s].keys ==> Owns(db.locks, s, k))
  }

  ghost predicate FenceOk(db: Db, s: nat)
    requires s in db.sessions && db.sessions[s].fence.Some?
  {
    var (j, token) := db.sessions[s].fence.value;
    && j in db.rows && token < |db.claims| && db.claims[token] == Claimed(s, j)
    && (forall k :: k in ClaimKeys(db.rows[j], j) ==> k in db.sessions[s].keys)
  }

  ghost predicate Fences(db: Db) {
    forall s :: s in db.sessions && db.sessions[s].fence.Some? ==> FenceOk(db, s)
  }

  ghost predicate Writing(db: Db) {
    forall s :: s in db.sessions && db.sessions[s].writing ==> PassesFence(db, s)
  }

  /** A row's token is a claim of that row, and its pid is that of the claiming session while it lives. */
  ghost predicate TokenOk(db: Db, j: nat)
    requires j in db.rows && db.rows[j].token.Some?
  {
    var token := db.rows[j].token.value;
    && token < |db.claims| && db.claims[token].job == j
    && var s := db.claims[token].session;
       s < db.nextSession && (s in db.sessions ==> db.rows[j].pid == Some(db.sessions[s].pid))
  }

  ghost predicate Tokens(db: Db) {
    forall j :: j in db.rows && db.rows[j].token.Some? ==> TokenOk(db, j)
  }

  ghost predicate Ordered(db: Db) {
    && (forall w :: w in db.accepted ==> w.token < |db.claims| && db.claims[w.token] == Claimed(w.session, w.job))
    && (forall w :: w in db.accepted && w.job in db.rows && db.rows[w.job].token.Some? ==>
          w.token <= db.rows[w.job].token.value)
    && (forall i, k :: 0 <= i < k < |db.accepted| && db.accepted[i].job == db.accepted[k].job
          ==> db.accepted[i].token <= db.accepted[k].token)
  }

  ghost predicate Inv(db: Db) {
    LocksLive(db) && KeysHeld(db) && Fences(db) && Writing(db) && Tokens(db) && Ordered(db)
  }

  // ---- One step keeps it ----

  lemma LocksAfter(db: Db, step: Step)
    requires LocksLive(db) && KeysHeld(db) && Enabled(db, step)
    ensures LocksLive(Apply(db, step)) && KeysHeld(Apply(db, step))
  {
    match step
    case Claim(s, j, _) => LockAllCounts(db.locks, s, ClaimKeys(db.rows[j], j));
    case Release(s) => UnlockAllCounts(db.locks, s, db.sessions[s].keys);
    case Recover(s, j) => UnlockUndoesLock(db.locks, s, [Executor(j)]);
    case _ =>
  }

  lemma FencesAfter(db: Db, step: Step)
    requires Inv(db) && Enabled(db, step)
    ensures Fences(Apply(db, step))
  {
    hide LocksLive, KeysHeld, Writing, Tokens, Ordered, LockAll, UnlockAll;
    var next := Apply(db, step);
    forall s | s in next.sessions && next.sessions[s].fence.Some? ensures FenceOk(next, s) {
      assert s in db.sessions && db.sessions[s].fence.Some? ==> FenceOk(db, s);
    }
  }

  lemma TokensAfter(db: Db, step: Step)
    requires Inv(db) && Enabled(db, step)
    ensures Tokens(Apply(db, step))
  {
    var next := Apply(db, step);
    forall j | j in next.rows && next.rows[j].token.Some? ensures TokenOk(next, j) {
      assert j in db.rows && db.rows[j].token.Some? ==> TokenOk(db, j);
    }
  }

  lemma WritingAfter(db: Db, step: Step)
    requires Inv(db) && Enabled(db, step)
    ensures Writing(Apply(db, step))
  {
    var next := Apply(db, step);
    LocksAfter(db, step);
    forall s | s in next.sessions && next.sessions[s].writing ensures PassesFence(next, s) {
      if s in db.sessions && db.sessions[s].writing {
        assert PassesFence(db, s);
        var j := db.sessions[s].fence.value.0;
        assert RowLocked(db, j);
        SoleExecutor(db, s);
      }
    }
  }

  lemma OrderedAfter(db: Db, step: Step)
    requires Inv(db) && Enabled(db, step)
    ensures Ordered(Apply(db, step))
  {
    hide LocksLive, KeysHeld, Tokens, LockAll, UnlockAll;
    if step.Commit? {
      hide PassesFence;
      CommitOrdered(db, step);
    }
  }

  lemma CommitOrdered(db: Db, step: Step)
    requires Inv(db) && step.Commit? && Enabled(db, step)
    ensures Ordered(Apply(db, step))
  {
    hide LocksLive, KeysHeld, Tokens;
    assert PassesFence(db, step.s);
    assert FenceOk(db, step.s);
  }

  lemma StepKeeps(db: Db, step: Step)
    requires Inv(db) && Enabled(db, step)
    ensures Inv(Apply(db, step))
  {
    LocksAfter(db, step);
    FencesAfter(db, step);
    TokensAfter(db, step);
    WritingAfter(db, step);
    OrderedAfter(db, step);
  }

  /** Two live sessions never hold fences for one job, current or not. */
  lemma OneExecutor(db: Db, s: nat, t: nat)
    requires Inv(db)
    requires s in db.sessions && t in db.sessions && db.sessions[s].fence.Some? && db.sessions[t].fence.Some?
    requires db.sessions[s].fence.value.0 == db.sessions[t].fence.value.0
    ensures s == t
  {
    assert FenceOk(db, s) && FenceOk(db, t);
    var j := db.sessions[s].fence.value.0;
    assert Executor(j) in ClaimKeys(db.rows[j], j);
  }

  lemma SoleExecutor(db: Db, s: nat)
    requires Inv(db) && s in db.sessions && db.sessions[s].fence.Some?
    ensures forall t ::
              (t in db.sessions && db.sessions[t].fence.Some?
               && db.sessions[t].fence.value.0 == db.sessions[s].fence.value.0)
              ==> t == s
  {
    forall t | t in db.sessions && db.sessions[t].fence.Some?
               && db.sessions[t].fence.value.0 == db.sessions[s].fence.value.0
      ensures t == s
    {
      OneExecutor(db, s, t);
    }
  }

  lemma {:induction false} RunKeeps(db: Db, steps: seq<Step>)
    requires Inv(db) && IsRun(db, steps)
    ensures Inv(Run(db, steps))
    decreases |steps|
  {
    if steps != [] {
      StepKeeps(db, steps[0]);
      RunKeeps(Apply(db, steps[0]), steps[1..]);
    }
  }

  // ---- Theorems over every run ----

  /** At most one live session passes the write fence for a job. */
  lemma FenceIsExclusive(db: Db, steps: seq<Step>, s: nat, t: nat)
    requires Start(db) && IsRun(db, steps)
    requires PassesFence(Run(db, steps), s) && PassesFence(Run(db, steps), t)
    requires Run(db, steps).sessions[s].fence.value.0 == Run(db, steps).sessions[t].fence.value.0
    ensures s == t
  {
    RunKeeps(db, steps);
    OneExecutor(Run(db, steps), s, t);
  }

  /** The session carries a fence, current or not, of an acquisition job of this provider. */
  predicate AcquiresFrom(db: Db, s: nat, provider: nat) {
    && s in db.sessions && db.sessions[s].fence.Some?
    && var j := db.sessions[s].fence.value.0;
       j in db.rows && db.rows[j].acquisition && db.rows[j].provider == provider
  }

  /** At most one live session carries an acquisition fence of a provider, whichever jobs, current or not. */
  lemma AcquisitionIsExclusive(db: Db, steps: seq<Step>, s: nat, t: nat, provider: nat)
    requires Start(db) && IsRun(db, steps)
    requires AcquiresFrom(Run(db, steps), s, provider) && AcquiresFrom(Run(db, steps), t, provider)
    ensures s == t
  {
    RunKeeps(db, steps);
    var end := Run(db, steps);
    assert FenceOk(end, s) && FenceOk(end, t);
    var i, j := end.sessions[s].fence.value.0, end.sessions[t].fence.value.0;
    var k := Provider(provider);
    assert k in ClaimKeys(end.rows[i], i) && k in ClaimKeys(end.rows[j], j);
    assert Owns(end.locks, s, k) && Owns(end.locks, t, k);
  }

  /** Recovery never resets a job whose owner is alive and current, even when run by the owner itself. */
  lemma RecoverySparesLiveOwners(db: Db, steps: seq<Step>, s: nat, j: nat, owner: nat)
    requires Start(db) && IsRun(db, steps)
    requires PassesFence(Run(db, steps), owner) && Run(db, steps).sessions[owner].fence.value.0 == j
    ensures !Enabled(Run(db, steps), Recover(s, j))
  {
    RunKeeps(db, steps);
    var end := Run(db, steps);
    assert FenceOk(end, owner);
    assert Executor(j) in ClaimKeys(end.rows[j], j);
  }

  /** The share lock on the fenced row keeps the fence true until the transaction ends. */
  lemma CommitsAreCurrent(db: Db, steps: seq<Step>, s: nat, to: State)
    requires Start(db) && IsRun(db, steps) && Enabled(Run(db, steps), Commit(s, to))
    ensures PassesFence(Run(db, steps), s)
  {
    RunKeeps(db, steps);
  }

  /**
   For a live session the fence passes exactly when its claim is the row's current one; a reused pid
   changes nothing.
   */
  lemma FenceExact(db: Db, steps: seq<Step>, s: nat)
    requires Start(db) && IsRun(db, steps)
    ensures var end := Run(db, steps);
            PassesFence(end, s) <==>
            && s in end.sessions && end.sessions[s].fence.Some?
            && var (j, token) := end.sessions[s].fence.value;
               j in end.rows && end.rows[j].state == InProgress && end.rows[j].token == Some(token)
  {
    RunKeeps(db, steps);
    var end := Run(db, steps);
    if s in end.sessions && end.sessions[s].fence.Some? {
      assert FenceOk(end, s);
      var j := end.sessions[s].fence.value.0;
      assert end.rows[j].token.Some? ==> TokenOk(end, j);
    }
  }

  /** Every accepted write was made by the session of its claim, and a job's writes follow the order of its claims. */
  lemma WritesFollowClaims(db: Db, steps: seq<Step>)
    requires Start(db) && IsRun(db, steps)
    ensures var end := Run(db, steps);
            && (forall w :: w in end.accepted ==>
                  w.token < |end.claims| && end.claims[w.token] == Claimed(w.session, w.job))
            && (forall i, k :: 0 <= i < k < |end.accepted| && end.accepted[i].job == end.accepted[k].job
                  ==> end.accepted[i].token <= end.accepted[k].token)
  {
    RunKeeps(db, steps);
  }

  /** Once a row no longer carries a token, no write of that claim is ever accepted again. */
  lemma {:induction false} ReplacedTokenIsDead(db: Db, steps: seq<Step>, j: nat, token: nat)
    requires Inv(db) && IsRun(db, steps)
    requires token < |db.claims| && db.claims[token].job == j && j in db.rows && db.rows[j].token != Some(token)
    ensures |db.accepted| <= |Run(db, steps).accepted|
    ensures forall i :: |db.accepted| <= i < |Run(db, steps).accepted| ==> Run(db, steps).accepted[i].token != token
    decreases |steps|
  {
    if steps != [] {
      var next := Apply(db, steps[0]);
      StepKeeps(db, steps[0]);
      TokenStaysDead(db, steps[0], j, token);
      ReplacedTokenIsDead(next, steps[1..], j, token);
      AcceptedGrows(next, steps[1..]);
    }
  }

  lemma TokenStaysDead(db: Db, step: Step, j: nat, token: nat)
    requires Inv(db) && Enabled(db, step)
    requires token < |db.claims| && db.claims[token].job == j && j in db.rows && db.rows[j].token != Some(token)
    ensures var next := Apply(db, step);
            && token < |next.claims| && next.claims[token].job == j && j in next.rows
            && next.rows[j].token != Some(token)
            && (next.accepted == db.accepted
                || exists w :: next.accepted == db.accepted + [w] && w.token != token)
  {
    if step.Commit? {
      assert PassesFence(db, step.s);
      assert FenceOk(db, step.s);
      var w := Apply(db, step).accepted[|db.accepted|];
      assert Apply(db, step).accepted == db.accepted + [w] && w.token != token;
    }
  }

  lemma {:induction false} AcceptedGrows(db: Db, steps: seq<Step>)
    requires IsRun(db, steps)
    ensures db.accepted <= Run(db, steps).accepted
    decreases |steps|
  {
    if steps != [] { AcceptedGrows(Apply(db, steps[0]), steps[1..]); }
  }

  // ---- The calls on one server ----

  class LockTable {
    var locks: Locks

    constructor ()
      ensures locks == map[]
    {
      locks := map[];
    }

    /** release_lock_key: one count, and nothing for a key the session does not hold. */
    method Release(s: nat, k: Key)
      modifies this
      ensures locks == Unlock(old(locks), s, k)
    {
      if k in locks && locks[k].session == s {
        if locks[k].count > 1 { locks := locks[k := Hold(s, locks[k].count - 1)]; } else { locks := locks - {k}; }
      }
    }

    /** release_job_ownership on an open connection. */
    method ReleaseJobOwnership(s: nat, keys: seq<Key>)
      modifies this
      ensures locks == UnlockAll(old(locks), s, keys)
    {
      var i := |keys|;
      assert keys[..i] == keys;
      while i > 0
        invariant 0 <= i <= |keys|
        invariant UnlockAll(locks, s, keys[..i]) == UnlockAll(old(locks), s, keys)
      {
        i := i - 1;
        assert keys[..i + 1][..i] == keys[..i];
        Release(s, keys[i]);
      }
    }
  }

  // ---- The owner can write, and what it leaves behind comes back ----

  /** The current owner can open a transaction and commit: the row changes state and its write is accepted. */
  lemma OwnerCanWrite(db: Db, s: nat, to: State)
    requires PassesFence(db, s) && !db.sessions[s].writing
    ensures Enabled(db, Open(s)) && Enabled(Apply(db, Open(s)), Commit(s, to))
    ensures var (j, token) := db.sessions[s].fence.value;
            var after := Apply(Apply(db, Open(s)), Commit(s, to));
            && after.rows == db.rows[j := db.rows[j].(state := to)]
            && after.accepted == db.accepted + [Write(s, j, token)]
            && after.sessions == db.sessions && after.locks == db.locks
  {
  }

  /** Once a session is gone, the job it owned is nobody's: its locks are free and no transaction holds its row. */
  lemma DeathFreesTheJob(db: Db, s: nat, j: nat)
    requires Inv(db) && PassesFence(db, s) && db.sessions[s].fence.value.0 == j
    ensures var after := Apply(db, Die(s));
            && after == db.(sessions := after.sessions, locks := after.locks) && !RowLocked(after, j)
            && (forall k :: k in ClaimKeys(db.rows[j], j) ==> k !in after.locks)
            && (forall t :: t != s && MayWrite(db, t) ==> MayWrite(after, t) && NotAbout(after, t, j))
            && LocksLive(after)
  {
    assert FenceOk(db, s);
    forall t | t in db.sessions && t != s && PassesFence(db, t) ensures db.sessions[t].fence.value.0 != j {
      if db.sessions[t].fence.value.0 == j { OneExecutor(db, s, t); }
    }
    LocksAfter(db, Die(s));
    hide Inv, ClaimKeys, FenceOk;
  }

  /** The session carries no fence of this job. */
  predicate NotAbout(db: Db, t: nat, j: nat) {
    t in db.sessions && (db.sessions[t].fence.Some? ==> db.sessions[t].fence.value.0 != j)
  }

  /** A job in progress that nobody holds is recovered: pending again, without an owner, no lock kept. */
  lemma RecoverReturns(db: Db, t: nat, j: nat)
    requires MayWrite(db, t) && NotAbout(db, t, j) && LocksLive(db)
    requires j in db.rows && db.rows[j].state == InProgress && !RowLocked(db, j) && Executor(j) !in db.locks
    ensures Enabled(db, Recover(t, j))
    ensures var back := Apply(db, Recover(t, j));
            && back == db.(rows := db.rows[j := Row(db.rows[j].provider, db.rows[j].acquisition, Pending, None, None)])
            && MayWrite(back, t) && !RowLocked(back, j)
  {
    UnlockUndoesLock(db.locks, t, [Executor(j)]);
    hide LockAll, UnlockAll;
  }

  /** Claiming a pending job whose keys are free makes the session its owner, under a new token. */
  lemma ClaimPasses(db: Db, t: nat, j: nat)
    requires MayWrite(db, t) && LocksLive(db) && j in db.rows && db.rows[j].state == Pending && !RowLocked(db, j)
    requires forall k :: k in ClaimKeys(db.rows[j], j) ==> k !in db.locks
    ensures Enabled(db, Claim(t, j, true))
    ensures var again := Apply(db, Claim(t, j, true));
            PassesFence(again, t) && again.sessions[t].fence == Some((j, |db.claims|))
  {
    var keys := ClaimKeys(db.rows[j], j);
    assert forall i :: 0 <= i < |keys| ==> keys[i] in keys;
    LockAllCounts(db.locks, t, keys);
    hide LockAll, ClaimKeys, RowLocked;
  }

  /**
   When the owner of a job dies, any session that may write recovers the job and claims it afresh: the
   recovery leaves a pending row without an owner, and the new claim passes the fence under a new token.
   */
  lemma OrphanComesBack(db: Db, s: nat, t: nat, j: nat)
    requires Inv(db) && PassesFence(db, s) && db.sessions[s].fence.value.0 == j && t != s && MayWrite(db, t)
    ensures Enabled(db, Die(s)) && Enabled(Apply(db, Die(s)), Recover(t, j))
    ensures var back := Apply(Apply(db, Die(s)), Recover(t, j));
            && back.rows == db.rows[j := Row(db.rows[j].provider, db.rows[j].acquisition, Pending, None, None)]
            && back.locks == Apply(db, Die(s)).locks
            && Enabled(back, Claim(t, j, true))
            && var again := Apply(back, Claim(t, j, true));
               PassesFence(again, t) && again.sessions[t].fence == Some((j, |db.claims|))
  {
    DeathFreesTheJob(db, s, j);
    var row := db.rows[j];
    assert row.state == InProgress && Enabled(db, Die(s));
    assert Executor(j) in ClaimKeys(row, j);
    assert ClaimKeys(Row(row.provider, row.acquisition, Pending, None, None), j) == ClaimKeys(row, j);
    hide Apply, Enabled, Inv, MayWrite, PassesFence, RowLocked, LocksLive, ClaimKeys, NotAbout;
    var after := Apply(db, Die(s));
    RecoverReturns(after, t, j);
    var back := Apply(after, Recover(t, j));
    LiveLocks(after, back);
    ClaimPasses(back, t, j);
  }

  lemma LiveLocks(db: Db, next: Db)
    requires LocksLive(db) && next.locks == db.locks && next.sessions == db.sessions
    ensures LocksLive(next)
  {
  }
}
