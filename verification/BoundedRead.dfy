/**
 Provider requests under a budget: a response is read in bounded slices against the reserved limit,
 and an attempt settles its reservation with the bytes it read, on every path on which its session
 still holds the job fence. Without the fence the reservation stays open and charged in full.
 */
module BoundedRead {
  import opened Common
  import opened Ledger
  import L = LedgerRuns

  /** The bytes from a position in the raw chunks to their end. */
  ghost function From(raw: seq<seq<Byte>>, index: nat, offset: nat): seq<Byte>
    requires index < |raw| ==> offset <= |raw[index]|
  {
    if index < |raw| then raw[index][offset..] + Flatten(raw[index + 1..]) else []
  }

  lemma FromStart(raw: seq<seq<Byte>>)
    ensures From(raw, 0, 0) == Flatten(raw)
  {
    if raw != [] { assert raw[0][0..] == raw[0]; }
  }

  /** At the end of a chunk the next one follows. */
  lemma FromNext(raw: seq<seq<Byte>>, index: nat)
    requires index < |raw|
    ensures From(raw, index, |raw[index]|) == From(raw, index + 1, 0)
  {
    var rest := raw[index + 1..];
    assert raw[index][|raw[index]|..] == [];
    if index + 1 < |raw| {
      assert rest[0] == raw[index + 1] && rest[1..] == raw[index + 2..];
      assert rest[0][0..] == rest[0];
    } else {
      assert rest == [];
    }
  }

  lemma FromSlice(raw: seq<seq<Byte>>, index: nat, offset: nat, end: nat)
    requires index < |raw| && offset <= end <= |raw[index]|
    ensures From(raw, index, offset) == raw[index][offset..end] + From(raw, index, end)
  {
    assert raw[index][offset..] == raw[index][offset..end] + raw[index][end..];
    AppendAssociates(raw[index][offset..end], raw[index][end..], Flatten(raw[index + 1..]));
  }

  lemma AppendAssociates(a: seq<Byte>, b: seq<Byte>, c: seq<Byte>)
    ensures a + (b + c) == (a + b) + c
  {
  }

  /** `_bounded_response_chunks`: slices of at most `size` bytes, never across raw chunks. */
  class SliceReader {
    const raw: seq<seq<Byte>>
    const size: nat
    var index: nat
    var offset: nat

    constructor (raw: seq<seq<Byte>>, size: nat)
      requires size > 0
      ensures this.raw == raw && this.size == size && Valid() && Rest() == Flatten(raw)
    {
      this.raw, this.size := raw, size;
      index, offset := 0, 0;
      FromStart(raw);
    }

    ghost predicate Valid()
      reads this
    {
      size > 0 && index <= |raw| && (index < |raw| ==> offset <= |raw[index]|)
    }

    /** The bytes not handed out yet. */
    ghost function Rest(): seq<Byte>
      requires Valid()
      reads this
    {
      From(raw, index, offset)
    }

    method Next() returns (slice: Option<seq<Byte>>)
      requires Valid()
      modifies this
      ensures Valid()
      ensures slice.None? ==> old(Rest()) == [] == Rest()
      ensures slice.Some? ==> 0 < |slice.value| <= size && old(Rest()) == slice.value + Rest()
    {
      NothingBeyond(raw);
      hide From;
      while index < |raw| && offset == |raw[index]|
        invariant Valid() && Rest() == old(Rest())
        decreases |raw| - index
      {
        FromNext(raw, index);
        index, offset := index + 1, 0;
      }
      if index == |raw| { return None; }
      var end := Min(offset + size, |raw[index]|);
      FromSlice(raw, index, offset, end);
      slice := Some(raw[index][offset..end]);
      offset := end;
    }
  }

  lemma NothingBeyond(raw: seq<seq<Byte>>)
    ensures forall offset: nat :: From(raw, |raw|, offset) == []
  {
  }

  /** What the network does in one attempt: raw chunks, then a normal end or a transport error. */
  datatype Response = Response(status: int, raw: seq<seq<Byte>>, breaks: bool)

  datatype Reading = Whole(body: Option<seq<Byte>>) | TooLarge | Deadline | Broken

  /** What must come of a response read without time pressure. */
  function Expected(r: Response, limit: int): Reading {
    var all := Flatten(r.raw);
    if |all| > limit then TooLarge
    else if r.breaks then Broken
    else Whole(if r.status == 200 then Some(all) else None)
  }

  /** The first n deadline checks find time left. */
  ghost predicate Passed(expired: nat -> bool, n: nat) {
    forall i :: 0 <= i < n ==> !expired(i)
  }

  lemma NonePassed(expired: nat -> bool)
    ensures Passed(expired, 0)
  {
  }

  lemma OneMorePassed(expired: nat -> bool, n: nat)
    requires Passed(expired, n) && !expired(n)
    ensures Passed(expired, n + 1)
  {
  }

  /** n bytes fit into k slices of this size. */
  predicate Within(n: nat, k: nat, size: nat) {
    n <= k * size
  }

  lemma WithinGrows(n: nat, k: nat, size: nat, more: nat)
    ensures Within(0, 0, size)
    ensures Within(n, k, size) && more <= size ==> Within(n + more, k + 1, size)
  {
  }

  /**
   The read loop. `expired(i)` is the i-th deadline check, and `checks` of them pass: one before and
   one after every slice. Whatever the chunks, the bytes received stay within the reservation made
   for `limit`.
   */
  method ReadResponse(r: Response, limit: nat, expired: nat -> bool)
    returns (received: nat, reading: Reading, ghost checks: nat, ghost slices: nat)
    requires limit >= 1
    ensures received <= Reserved(limit) && received <= |Flatten(r.raw)|
    ensures reading.TooLarge? <==> received > limit
    ensures reading == Deadline || reading == Expected(r, limit)
    ensures Passed(expired, checks)
    ensures reading == Deadline ==> expired(checks) && checks <= 2 * slices + 1
    ensures Within(received, slices, Min(CHUNK, limit))
    ensures reading.Whole? ==> checks == 2 * slices + 2
    ensures reading.Whole? || reading.Broken? ==> received == |Flatten(r.raw)|
  {
    assert Flatten([]) == [];
    NonePassed(expired);
    hide Flatten, Within, Expected, Passed, From;
    ExpectedMeans(r, limit);
    WithinGrows(0, 0, Min(CHUNK, limit), 0);
    received := 0;
    var chunks: seq<seq<Byte>> := [];
    var reader := new SliceReader(r.raw, Min(CHUNK, limit));
    slices := 0;
    var check := 0;
    ghost var all := Flatten(r.raw);
    ghost var got: seq<Byte> := [];
    assert all == got + reader.Rest();
    while true
      invariant reader.Valid() && fresh(reader) && reader.size == Min(CHUNK, limit)
      invariant all == got + reader.Rest() && |got| == received <= limit
      invariant r.status == 200 ==> Flatten(chunks) == got
      invariant Within(received, slices, Min(CHUNK, limit)) && check == 2 * slices
      invariant Passed(expired, check)
      decreases |reader.Rest()|
    {
      if expired(check) { return received, Deadline, check, slices; }
      OneMorePassed(expired, check);
      check := check + 1;
      var slice := reader.Next();
      if slice.None? {
        assert all == got;
        if r.breaks { return received, Broken, check, slices; }
        if expired(check) { return received, Deadline, check, slices; }
        OneMorePassed(expired, check);
        return received, Whole(if r.status == 200 then Some(Flatten(chunks)) else None), check + 1, slices;
      }
      WithinGrows(received, slices, Min(CHUNK, limit), |slice.value|);
      received, slices := received + |slice.value|, slices + 1;
      AppendAssociates(got, slice.value, reader.Rest());
      got := got + slice.value;
      if received > limit { return received, TooLarge, check, slices; }
      if expired(check) { return received, Deadline, check, slices; }
      OneMorePassed(expired, check);
      check := check + 1;
      if r.status == 200 {
        FlattenAppend(chunks, slice.value);
        chunks := chunks + [slice.value];
      }
    }
  }

  // ---- Reserve, read, settle ----

  /** A reservation settled with n bytes has charged exactly one request, one unit and n bytes, in its month. */
  lemma ReserveThenSettle(l: Ledger, b: nat, m: nat, n: nat)
    requires L.Typed(l) && ReserveError(l, b, m).None? && n <= Reserved(GrantedLimit(l, b, m))
    ensures var id, after := |l.reservations|, Settle(Reserve(l, b, m), |l.reservations|, n);
            && SettleError(Reserve(l, b, m), id, n).None?
            && b < |l.budgets| == |after.budgets|
            && after.budgets[b] == l.budgets[b].(used := Plus(l.budgets[b].used, Usage(0, 1, n, 1)))
            && (forall c :: 0 <= c < |l.budgets| && c != b ==> after.budgets[c] == l.budgets[c])
            && Month(after, l.budgets[b].workspace, m) == Plus(Month(l, l.budgets[b].workspace, m), Usage(0, 1, n, 1))
            && |after.reservations| == id + 1 && after.reservations[..id] == l.reservations
            && after.reservations[id].consumed == Some(n as int)
  {
    hide ReserveError, GrantedLimit;
    L.ReserveMeans(l, b, m);
    var mid := Reserve(l, b, m);
    assert mid.reservations[|l.reservations|].reserved == Reserved(GrantedLimit(l, b, m));
    assert Settle(mid, |l.reservations|, n).reservations[..|l.reservations|] == l.reservations;
  }

  // ---- Settlement is a fenced write ----

  /** When the session's job fence is lost; once lost it stays lost. */
  datatype Fence = Held | LostBeforeReserve | LostAtGate | LostWhileReading | LostAfterSettlement {
    /** The fence still passes when the attempt settles. */
    predicate HeldAtSettlement() { Held? || LostAfterSettlement? }
  }

  /** The ledger after an attempt that was granted a reservation and read n bytes. */
  function Finished(l: Ledger, b: nat, m: nat, n: nat, held: bool): Ledger {
    if held then Settle(Reserve(l, b, m), |l.reservations|, n) else Reserve(l, b, m)
  }

  /**
   The reservation is closed if and only if the fence is held at settlement. The charge is the bytes
   read if and only if it is held, or the whole reservation happened to be read.
   */
  lemma SettlementExact(l: Ledger, b: nat, m: nat, n: nat, held: bool)
    requires L.Typed(l) && ReserveError(l, b, m).None? && n <= Reserved(GrantedLimit(l, b, m))
    ensures var after, id, whole := Finished(l, b, m, n, held), |l.reservations|, Reserved(GrantedLimit(l, b, m));
            && b < |l.budgets| == |after.budgets|
            && |after.reservations| == id + 1 && after.reservations[..id] == l.reservations
            && after.reservations[id].reserved == whole
            && (after.reservations[id].consumed.Some? <==> held)
            && after.budgets[b].used == Plus(l.budgets[b].used, Usage(0, 1, if held then n else whole, 1))
            && (after.budgets[b].used.bytes == l.budgets[b].used.bytes + n <==> held || n == whole)
  {
    hide ReserveError, GrantedLimit;
    L.ReserveMeans(l, b, m);
    ReserveThenSettle(l, b, m, n);
    assert Reserve(l, b, m).reservations[..|l.reservations|] == l.reservations;
  }

  const SMALL := Policy(Usage(9, 9, 200000, 9), Usage(9, 9, 200000, 9), 1000, 1, 1)

  /** A fence lost at the gate: nothing was read, yet the reservation stays open and fully charged. */
  lemma LeaseLossKeepsTheCharge()
    ensures var l := Admit(EMPTY, 0, 0, SMALL);
            && ReserveError(l, 0, 0).None? && GrantedLimit(l, 0, 0) == 1000
            && Finished(l, 0, 0, 0, false).reservations == [Reservation(0, 0, 0, 2000, None)]
            && Finished(l, 0, 0, 0, false).budgets[0].used.bytes == 2000
  {
    var l := Admit(EMPTY, 0, 0, SMALL);
    assert Tighten(SMALL, SMALL) == SMALL;
    assert l.budgets == [Budget(0, 0, SMALL, ZERO)] && l.policies[0].policy == SMALL;
    RefusalMeans(l, 0, 0, RESERVE_WANTS);
    assert forall d :: Room(l, 0, 0, d) == At(SMALL.job, d);
  }

  /** What one attempt meets: stop requests, a full backlog, the fence, an encoding, the response, its clock. */
  datatype Attempt = Attempt(
    stopBefore: bool, month: nat, backlogFull: bool, stopAtGate: bool, fence: Fence, encoded: bool,
    response: Response, expired: nat -> bool, late: bool, stopAfter: bool)

  datatype Fetch =
    | Got(status: int, body: Option<seq<Byte>>)
    | Stopped | NoBudget(error: Error) | NoBacklogRoom | Unsettled | LeaseLost | Encoded | TooMuch | TimedOut

  predicate Retryable(status: int) { status == 0 || status == 429 || 500 <= status <= 599 }

  /** What an attempt must answer, given the ledger it starts from; only the deadline leaves a choice. */
  ghost predicate Outcome(l: Ledger, b: nat, a: Attempt, f: Fetch) {
    if a.fence.LostBeforeReserve? then f == LeaseLost
    else if a.backlogFull then f == NoBacklogRoom
    else if ReserveError(l, b, a.month).Some? then f == NoBudget(ReserveError(l, b, a.month).value)
    else if !a.fence.HeldAtSettlement() then f == LeaseLost
    else if a.stopAtGate then f == Stopped
    else if a.encoded then f == Encoded
    else
      || (f == TimedOut && exists i :: a.expired(i))
      || match Expected(a.response, GrantedLimit(l, b, a.month)) {
           case Whole(body) => f == Got(a.response.status, body)
           case TooLarge => f == TooMuch
           case Broken => f == if a.late then TimedOut else Got(0, None)
         }
  }

  /** One attempt of a request: the ledger it started from, its answer, the bytes it read. */
  datatype Try = Try(ledger: Ledger, fetch: Fetch, read: nat)

  /** The tries are those of the script, each answering what it must, each starting from the books the last one left. */
  ghost predicate FollowsScript(was: Ledger, b: nat, script: seq<Attempt>, tries: seq<Try>) {
    && |tries| <= |script|
    && (tries != [] ==> tries[0].ledger == was)
    && (forall i :: 0 <= i < |tries| ==>
          !script[i].stopBefore && Outcome(tries[i].ledger, b, script[i], tries[i].fetch))
    && (forall i :: 0 < i < |tries| ==>
          tries[i].ledger == Finished(tries[i - 1].ledger, b, script[i - 1].month, tries[i - 1].read, true))
  }

  lemma FollowsNothing(was: Ledger, b: nat, script: seq<Attempt>)
    ensures FollowsScript(was, b, script, [])
  {
  }

  lemma FollowsOneMore(was: Ledger, b: nat, script: seq<Attempt>, tries: seq<Try>, t: Try)
    requires FollowsScript(was, b, script, tries) && |tries| < |script| && !script[|tries|].stopBefore
    requires Outcome(t.ledger, b, script[|tries|], t.fetch)
    requires t.ledger == if tries == [] then was
                         else var i := |tries| - 1; Finished(tries[i].ledger, b, script[i].month, tries[i].read, true)
    ensures FollowsScript(was, b, script, tries + [t])
  {
    hide Outcome, Finished;
  }

  /** An answer 200 is the attempt's own response, whole and within the limit granted to it. */
  lemma AnswersAreHonest(was: Ledger, b: nat, script: seq<Attempt>, tries: seq<Try>, i: nat)
    requires FollowsScript(was, b, script, tries) && i < |tries|
    requires tries[i].fetch.Got? && tries[i].fetch.status == 200
    ensures script[i].response.status == 200 && !script[i].response.breaks
    ensures tries[i].fetch.body == Some(Flatten(script[i].response.raw))
    ensures |Flatten(script[i].response.raw)| <= GrantedLimit(tries[i].ledger, b, script[i].month)
  {
    hide Flatten, ReserveError, GrantedLimit;
  }

  /** After this answer the client asks again: a retryable status, the fence held, nobody asking it to stop. */
  ghost predicate GoesOn(a: Attempt, f: Fetch) {
    && f.Got? && (f.status == 0 || f.status == 429 || 500 <= f.status < 600)
    && a.fence.Held? && !a.stopAfter
  }

  /** Budget b has been charged k requests of `spent` bytes in all; other budgets are as they were. */
  ghost predicate Charged(was: Ledger, now: Ledger, b: nat, k: nat, spent: nat) {
    && |now.budgets| == |was.budgets|
    && (k > 0 ==> b < |was.budgets|
                  && now.budgets[b] == was.budgets[b].(used := Plus(was.budgets[b].used, Usage(0, k, spent, k))))
    && (k == 0 ==> now == was && spent == 0)
    && (forall c :: 0 <= c < |was.budgets| && c != b ==> now.budgets[c] == was.budgets[c])
    && |now.reservations| == |was.reservations| + k && now.reservations[..|was.reservations|] == was.reservations
  }

  /** Every reservation made since is settled, except the last one if it is named open. */
  ghost predicate AllSettled(was: Ledger, now: Ledger, open: Option<nat>) {
    && (open.Some? ==> open.value == |now.reservations| - 1 >= |was.reservations|)
    && (forall i :: |was.reservations| <= i < |now.reservations| ==>
          (now.reservations[i].consumed.None? <==> open == Some(i)))
  }

  /** One attempt more: what it read if it settled, all that it reserved if it could not. */
  lemma OneAttemptMore(was: Ledger, now: Ledger, b: nat, k: nat, spent: nat, m: nat, n: nat, held: bool)
    requires L.Typed(now) && Charged(was, now, b, k, spent) && AllSettled(was, now, None)
    requires ReserveError(now, b, m).None? && n <= Reserved(GrantedLimit(now, b, m))
    requires GrantedLimit(now, b, m) >= 1
    ensures var after := Finished(now, b, m, n, held);
            && Charged(was, after, b, k + 1, spent + if held then n else Reserved(GrantedLimit(now, b, m)))
            && AllSettled(was, after, if held then None else Some(|now.reservations|))
            && after.reservations[|now.reservations|].reserved == Reserved(GrantedLimit(now, b, m))
  {
    SettlementExact(now, b, m, n, held);
    OtherBudgetsKept(now, b, m, n, held);
    hide ReserveError, GrantedLimit, L.Typed, Reserve, Settle, Finished;
    var after := Finished(now, b, m, n, held);
    assert after.reservations[..|was.reservations|] == after.reservations[..|now.reservations|][..|was.reservations|];
    forall i | |was.reservations| <= i < |now.reservations| ensures after.reservations[i] == now.reservations[i] {
      assert after.reservations[..|now.reservations|][i] == now.reservations[i];
    }
  }

  lemma OtherBudgetsKept(l: Ledger, b: nat, m: nat, n: nat, held: bool)
    requires L.Typed(l) && ReserveError(l, b, m).None? && n <= Reserved(GrantedLimit(l, b, m))
    ensures var after := Finished(l, b, m, n, held);
            && b < |l.budgets| == |after.budgets|
            && after.budgets[b] == l.budgets[b].(used := after.budgets[b].used)
            && (forall c :: 0 <= c < |l.budgets| && c != b ==> after.budgets[c] == l.budgets[c])
  {
    hide ReserveError, GrantedLimit;
    L.ReserveMeans(l, b, m);
    ReserveThenSettle(l, b, m, n);
  }

  lemma FinishKeepsSound(l: Ledger, b: nat, m: nat, n: nat, held: bool)
    requires L.Sound(l)
    ensures L.Sound(Reserve(l, b, m)) && L.Sound(Finished(l, b, m, n, held))
  {
    hide L.Sound;
    L.StepKeeps(l, DoReserve(b, m));
    L.StepKeeps(Reserve(l, b, m), DoSettle(|l.reservations|, n));
  }

  class Client {
    const books: WorkBudgets
    var reservation: Option<nat>

    constructor (books: WorkBudgets)
      ensures this.books == books && reservation == None
    {
      this.books, reservation := books, None;
    }

    /**
     `_reserve_request`, the guarded part of one attempt, and `_finish_request` on every path after a
     grant. Settlement is a write under the job fence: when the fence is gone it raises in place of
     any other outcome, and the reservation stays open.
     */
    method RunAttempt(b: nat, a: Attempt) returns (result: Fetch, received: nat, ghost granted: bool)
      requires L.Sound(books.ledger)
      modifies this, books
      ensures L.Sound(books.ledger)
      ensures granted <==> old(reservation).None? && !a.fence.LostBeforeReserve? && !a.backlogFull
                           && ReserveError(old(books.ledger), b, a.month).None?
      ensures !granted ==> books.ledger == old(books.ledger) && reservation == old(reservation) && received == 0
      ensures !granted ==> result == if old(reservation).Some? then Unsettled
                                     else if a.fence.LostBeforeReserve? then LeaseLost
                                     else if a.backlogFull then NoBacklogRoom
                                     else NoBudget(ReserveError(old(books.ledger), b, a.month).value)
      ensures granted ==>
                && received <= Reserved(GrantedLimit(old(books.ledger), b, a.month))
                && books.ledger == Finished(old(books.ledger), b, a.month, received, a.fence.HeldAtSettlement())
                && reservation == (if a.fence.HeldAtSettlement() then None else Some(|old(books.ledger).reservations|))
                && (!a.fence.HeldAtSettlement() ==> result == LeaseLost)
                && !result.NoBudget? && !result.NoBacklogRoom? && !result.Unsettled?
      ensures granted && a.fence.HeldAtSettlement() && a.stopAtGate ==> result == Stopped && received == 0
      ensures granted && a.fence.HeldAtSettlement() && !a.stopAtGate && a.encoded ==> result == Encoded && received == 0
      ensures granted && a.fence.HeldAtSettlement() && !a.stopAtGate && !a.encoded ==>
                var all, limit := Flatten(a.response.raw), GrantedLimit(old(books.ledger), b, a.month);
                || (result == TimedOut && exists i :: a.expired(i))
                || (|all| > limit && result == TooMuch)
                || (|all| <= limit && a.response.breaks && result == if a.late then TimedOut else Got(0, None))
                || (|all| <= limit && !a.response.breaks
                    && result == Got(a.response.status, if a.response.status == 200 then Some(all) else None))
      ensures old(reservation).None? ==> Outcome(old(books.ledger), b, a, result)
    {
      hide ReserveError, GrantedLimit, L.Sound, Reserve, Settle, Expected, Flatten;
      received, granted := 0, false;
      if reservation.Some? { return Unsettled, 0, false; }
      if a.fence.LostBeforeReserve? { return LeaseLost, 0, false; }
      if a.backlogFull { return NoBacklogRoom, 0, false; }
      ghost var was := books.ledger;
      var id, limit, error := books.ReserveRequest(b, a.month);
      if error.Some? {
        ReserveRefused(was, b, a.month);
        return NoBudget(error.value), 0, false;
      }
      granted := true;
      reservation := Some(id);
      SoundGrant(was, b, a.month);
      if a.fence.LostAtGate? {
        result := LeaseLost;
      } else if a.stopAtGate {
        result := Stopped;
      } else if a.encoded {
        result := Encoded;
      } else {
        var reading;
        ghost var checks, slices;
        received, reading, checks, slices := ReadResponse(a.response, limit, a.expired);
        ExpectedMeans(a.response, limit);
        match reading
        case Whole(body) => result := Got(a.response.status, body);
        case TooLarge => result := TooMuch;
        case Deadline => result := TimedOut;
        case Broken => result := if a.late then TimedOut else Got(0, None);
      }
      FinishKeepsSound(was, b, a.month, received, a.fence.HeldAtSettlement());
      if !a.fence.HeldAtSettlement() { return LeaseLost, received, true; }
      SoundIsTyped(books.ledger);
      var refused := books.SettleRequest(id, received);
      SettlementAccepted(was, b, a.month, received);
      assert refused.None?;
      reservation := None;
    }

    /**
     The attempt loop: retries on 0, 429 and 5xx, returns the last result when told to stop. At most
     the last reservation stays open, exactly when its attempt lost the fence before settling.
     */
    method Request(b: nat, script: seq<Attempt>)
      returns (result: Fetch, ghost attempts: nat, ghost spent: nat, ghost tries: seq<Try>)
      requires reservation == None && L.Sound(books.ledger) && |script| >= 1
      modifies this, books
      ensures L.Sound(books.ledger) && attempts <= |script|
      ensures reservation.Some? <==> attempts > 0 && !script[attempts - 1].fence.HeldAtSettlement()
      ensures AllSettled(old(books.ledger), books.ledger, reservation)
      ensures reservation.Some? ==> result == LeaseLost
      ensures var left := if reservation.Some? then books.ledger.reservations[reservation.value].reserved else 0;
              left >= 0 && Charged(old(books.ledger), books.ledger, b, attempts, spent + left)
      ensures |tries| <= |script| && FollowsScript(old(books.ledger), b, script, tries)
      ensures forall i :: 0 <= i < |tries| - 1 ==> GoesOn(script[i], tries[i].fetch)
      ensures tries == [] ==> script[0].stopBefore && result == Stopped
      ensures tries != [] ==>
                var last := |tries| - 1;
                && (GoesOn(script[last], tries[last].fetch) ==>
                      |tries| == |script| || script[|tries|].stopBefore)
                && result == if tries[last].fetch.Stopped? && last > 0 then tries[last - 1].fetch
                             else if tries[last].fetch.Got? && script[last].fence.LostAfterSettlement? then LeaseLost
                             else tries[last].fetch
    {
      hide ReserveError, GrantedLimit, L.Sound, Reserve, Settle, Charged, AllSettled, Finished, Outcome, FollowsScript;
      ghost var was := books.ledger;
      var last: Option<Fetch> := None;
      attempts, spent, tries := 0, 0, [];
      ChargedNothing(was, b);
      FollowsNothing(was, b, script);
      var i := 0;
      while i < |script|
        invariant 0 <= i <= |script| && attempts == i
        invariant attempts > 0 ==> script[attempts - 1].fence.HeldAtSettlement()
        invariant reservation == None && L.Sound(books.ledger)
        invariant Charged(was, books.ledger, b, attempts, spent) && AllSettled(was, books.ledger, None)
        invariant |tries| == i && FollowsScript(was, b, script, tries)
        invariant forall k :: 0 <= k < i ==> GoesOn(script[k], tries[k].fetch)
        invariant i == 0 ==> last.None? && books.ledger == was
        invariant i > 0 ==> last == Some(tries[i - 1].fetch)
        invariant i > 0 ==>
                    books.ledger == Finished(tries[i - 1].ledger, b, script[i - 1].month, tries[i - 1].read, true)
      {
        var a := script[i];
        if a.stopBefore { return if last.Some? then last.value else Stopped, attempts, spent, tries; }
        ghost var now := books.ledger;
        var received;
        ghost var granted;
        result, received, granted := RunAttempt(b, a);
        FollowsOneMore(was, b, script, tries, Try(now, result, received));
        tries := tries + [Try(now, result, received)];
        if result.NoBudget? || result.NoBacklogRoom? { return; }
        if a.fence.LostBeforeReserve? { return; }
        SoundIsTyped(now);
        SoundGrant(now, b, a.month);
        OneAttemptMore(was, now, b, attempts, spent, a.month, received, a.fence.HeldAtSettlement());
        attempts := attempts + 1;
        if !a.fence.HeldAtSettlement() { return; }
        spent := spent + received;
        if result.Stopped? && last.Some? { return last.value, attempts, spent, tries; }
        if !result.Got? { return; }
        if a.fence.LostAfterSettlement? { return LeaseLost, attempts, spent, tries; }
        if !Retryable(result.status) || a.stopAfter { return; }
        last := Some(result);
        i := i + 1;
      }
      result := last.value;
    }
  }

  lemma ChargedNothing(l: Ledger, b: nat)
    ensures Charged(l, l, b, 0, 0) && AllSettled(l, l, None)
  {
  }

  lemma ReserveRefused(l: Ledger, b: nat, m: nat)
    requires ReserveError(l, b, m).Some?
    ensures Reserve(l, b, m) == l
  {
  }

  lemma SoundIsTyped(l: Ledger)
    requires L.Sound(l)
    ensures L.Typed(l) && Keyed(l)
  {
  }

  lemma SoundGrant(l: Ledger, b: nat, m: nat)
    requires L.Sound(l) && ReserveError(l, b, m).None?
    ensures b < |l.budgets| && GrantedLimit(l, b, m) >= 1
  {
    L.ReserveMeans(l, b, m);
  }

  lemma ExpectedMeans(r: Response, limit: int)
    ensures Expected(r, limit).TooLarge? <==> |Flatten(r.raw)| > limit
    ensures Expected(r, limit).Broken? <==> |Flatten(r.raw)| <= limit && r.breaks
    ensures Expected(r, limit).Whole? <==> |Flatten(r.raw)| <= limit && !r.breaks
    ensures Expected(r, limit).Whole? ==>
              Expected(r, limit).body == if r.status == 200 then Some(Flatten(r.raw)) else None
  {
  }

  lemma SettlementAccepted(l: Ledger, b: nat, m: nat, n: nat)
    requires L.Sound(l) && ReserveError(l, b, m).None? && n <= Reserved(GrantedLimit(l, b, m))
    ensures SettleError(Reserve(l, b, m), |l.reservations|, n).None?
  {
    SoundIsTyped(l);
    ReserveThenSettle(l, b, m, n);
  }
}
