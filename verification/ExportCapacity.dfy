/** Process-wide reservations of temporary storage, per workspace and overall, with repeatable release. */
module ExportCapacity {
  import opened Common

  datatype Limits = Limits(maxBytes: int, spools: int, bytes: int, workspaceSpools: int, workspaceBytes: int)

  /** What the limits' constructor demands. */
  predicate ValidLimits(l: Limits) {
    && l.maxBytes >= 1 && l.spools >= 1 && l.bytes >= 1 && l.workspaceSpools >= 1 && l.workspaceBytes >= 1
    && l.workspaceSpools < l.spools && l.maxBytes <= l.workspaceBytes && l.workspaceBytes + l.maxBytes <= l.bytes
  }

  const DOWNLOAD_MEMORY: int := 4 * 1048576

  /** A download reserves a fixed size under the same shared limits, or is refused outright. */
  function DownloadLimits(l: Limits): (r: Option<Limits>)
    ensures ValidLimits(l) && r.Some? ==> ValidLimits(r.value) && SameCaps(l, r.value)
  {
    if l.workspaceBytes < DOWNLOAD_MEMORY || l.bytes < l.workspaceBytes + DOWNLOAD_MEMORY then None
    else Some(l.(maxBytes := DOWNLOAD_MEMORY))
  }

  predicate SameCaps(a: Limits, b: Limits) { a.(maxBytes := 0) == b.(maxBytes := 0) }

  /** One reservation ever granted. */
  datatype Ticket = Ticket(workspace: nat, size: int, released: bool)

  /** Whose reservations: one workspace's, or everybody's. */
  predicate Of(t: Ticket, who: Option<nat>) { !t.released && (who.Some? ==> t.workspace == who.value) }

  function Count(tickets: seq<Ticket>, who: Option<nat>): nat {
    if tickets == [] then 0
    else Count(tickets[..|tickets| - 1], who) + if Of(tickets[|tickets| - 1], who) then 1 else 0
  }

  function Size(tickets: seq<Ticket>, who: Option<nat>): int {
    if tickets == [] then 0
    else
      var last := tickets[|tickets| - 1];
      Size(tickets[..|tickets| - 1], who) + if Of(last, who) then last.size else 0
  }

  lemma Granted(tickets: seq<Ticket>, t: Ticket, who: Option<nat>)
    ensures Count(tickets + [t], who) == Count(tickets, who) + if Of(t, who) then 1 else 0
    ensures Size(tickets + [t], who) == Size(tickets, who) + if Of(t, who) then t.size else 0
  {
    assert (tickets + [t])[..|tickets|] == tickets;
  }

  lemma {:induction false} Released(tickets: seq<Ticket>, i: nat, who: Option<nat>)
    requires i < |tickets|
    ensures var next := tickets[i := tickets[i].(released := true)];
            && Count(next, who) == Count(tickets, who) - (if Of(tickets[i], who) then 1 else 0)
            && Size(next, who) == Size(tickets, who) - (if Of(tickets[i], who) then tickets[i].size else 0)
    decreases |tickets|
  {
    var n, next := |tickets| - 1, tickets[i := tickets[i].(released := true)];
    if i < n {
      assert next[..n] == tickets[..n][i := tickets[i].(released := true)];
      Released(tickets[..n], i, who);
    } else {
      assert next[..n] == tickets[..n];
    }
  }

  lemma {:induction false} CountAt(tickets: seq<Ticket>, i: nat, who: Option<nat>)
    requires i < |tickets| && Of(tickets[i], who)
    ensures Count(tickets, who) >= 1
    ensures Count(tickets, who) == 1 ==> Size(tickets, who) == tickets[i].size
    decreases |tickets|
  {
    var n := |tickets| - 1;
    if i < n { CountAt(tickets[..n], i, who); } else if Count(tickets, who) == 1 { NoneHeld(tickets[..n], who); }
  }

  lemma {:induction false} NoneHeld(tickets: seq<Ticket>, who: Option<nat>)
    requires Count(tickets, who) == 0
    ensures Size(tickets, who) == 0
    decreases |tickets|
  {
    if tickets != [] { NoneHeld(tickets[..|tickets| - 1], who); }
  }

  /** Running totals are what the outstanding tickets add up to; a workspace has a row iff it holds one. */
  ghost predicate Books(tickets: seq<Ticket>, count: int, bytes: int, rows: map<nat, (int, int)>) {
    && count == Count(tickets, None) && bytes == Size(tickets, None)
    && (forall w :: w in rows <==> Count(tickets, Some(w)) > 0)
    && (forall w :: w in rows ==> rows[w] == (Count(tickets, Some(w)) as int, Size(tickets, Some(w))))
  }

  /** Whether a reservation is granted, in terms of the outstanding tickets alone. */
  predicate Fits(tickets: seq<Ticket>, l: Limits, w: nat) {
    && Count(tickets, Some(w)) < l.workspaceSpools && Size(tickets, Some(w)) + l.maxBytes <= l.workspaceBytes
    && Count(tickets, None) < l.spools && Size(tickets, None) + l.maxBytes <= l.bytes
  }

  /** A reservation is granted exactly when, with it, the workspace and the process stay within all their limits. */
  lemma FitsExactly(tickets: seq<Ticket>, l: Limits, w: nat)
    ensures var next := tickets + [Ticket(w, l.maxBytes, false)];
            Fits(tickets, l, w) <==>
            && Count(next, Some(w)) <= l.workspaceSpools && Size(next, Some(w)) <= l.workspaceBytes
            && Count(next, None) <= l.spools && Size(next, None) <= l.bytes
  {
    Granted(tickets, Ticket(w, l.maxBytes, false), Some(w));
    Granted(tickets, Ticket(w, l.maxBytes, false), None);
  }

  lemma BooksGrant(tickets: seq<Ticket>, count: int, bytes: int, rows: map<nat, (int, int)>, w: nat, size: int)
    requires Books(tickets, count, bytes, rows)
    ensures var (n, held) := if w in rows then rows[w] else (0, 0);
            && n == Count(tickets, Some(w)) && held == Size(tickets, Some(w))
            && Books(tickets + [Ticket(w, size, false)], count + 1, bytes + size, rows[w := (n + 1, held + size)])
  {
    if Count(tickets, Some(w)) == 0 { NoneHeld(tickets, Some(w)); }
    hide Count, Size;
    var t := Ticket(w, size, false);
    Granted(tickets, t, None);
    forall v ensures Count(tickets + [t], Some(v)) == Count(tickets, Some(v)) + (if v == w then 1 else 0)
                  && Size(tickets + [t], Some(v)) == Size(tickets, Some(v)) + (if v == w then size else 0)
    {
      Granted(tickets, t, Some(v));
    }
  }

  lemma BooksTotal(tickets: seq<Ticket>, count: int, bytes: int, rows: map<nat, (int, int)>)
    requires Books(tickets, count, bytes, rows)
    ensures count == Count(tickets, None) && bytes == Size(tickets, None)
  {
  }

  lemma BooksRelease(tickets: seq<Ticket>, count: int, bytes: int, rows: map<nat, (int, int)>, i: nat)
    requires Books(tickets, count, bytes, rows) && i < |tickets| && !tickets[i].released
    ensures var w, size := tickets[i].workspace, tickets[i].size;
            && w in rows
            && Books(tickets[i := tickets[i].(released := true)], count - 1, bytes - size,
                     if rows[w].0 == 1 then rows - {w} else rows[w := (rows[w].0 - 1, rows[w].1 - size)])
  {
    hide Count, Size;
    var w, size, next := tickets[i].workspace, tickets[i].size, tickets[i := tickets[i].(released := true)];
    CountAt(tickets, i, Some(w));
    Released(tickets, i, None);
    forall v ensures Count(next, Some(v)) == Count(tickets, Some(v)) - (if v == w then 1 else 0)
                  && Size(next, Some(v)) == Size(tickets, Some(v)) - (if v == w then size else 0)
    {
      Released(tickets, i, Some(v));
    }
  }

  class Capacity {
    var count: int
    var bytes: int
    var rows: map<nat, (int, int)>
    ghost var tickets: seq<Ticket>

    ghost predicate Valid()
      reads this
    {
      Books(tickets, count, bytes, rows)
    }

    constructor ()
      ensures Valid() && tickets == []
    {
      count, bytes, rows, tickets := 0, 0, map[], [];
    }

    method Reserve(l: Limits, w: nat) returns (granted: bool)
      requires Valid()
      modifies this
      ensures Valid() && granted == Fits(old(tickets), l, w)
      ensures tickets == if granted then old(tickets) + [Ticket(w, l.maxBytes, false)] else old(tickets)
    {
      hide Count, Size, Books;
      BooksGrant(tickets, count, bytes, rows, w, l.maxBytes);
      BooksTotal(tickets, count, bytes, rows);
      var (n, size) := if w in rows then rows[w] else (0, 0);
      if n >= l.workspaceSpools || size + l.maxBytes > l.workspaceBytes { return false; }
      if count >= l.spools || bytes + l.maxBytes > l.bytes { return false; }
      count, bytes := count + 1, bytes + l.maxBytes;
      rows := rows[w := (n + 1, size + l.maxBytes)];
      tickets := tickets + [Ticket(w, l.maxBytes, false)];
      granted := true;
    }

    /** The closure a reservation returns; `released` is its own flag, the size and workspace are captured. */
    method Release(ghost i: nat, w: nat, size: int, released: bool) returns (now: bool)
      requires Valid() && i < |tickets| && tickets[i] == Ticket(w, size, released)
      modifies this
      ensures Valid() && now && tickets == old(tickets)[i := Ticket(w, size, true)]
    {
      hide Count, Size, Books;
      now := true;
      if released {
        assert tickets[i := tickets[i]] == tickets;
        return;
      }
      BooksRelease(tickets, count, bytes, rows, i);
      count, bytes := count - 1, bytes - size;
      var (n, held) := rows[w];
      if n == 1 { rows := rows - {w}; } else { rows := rows[w := (n - 1, held - size)]; }
      tickets := tickets[i := Ticket(w, size, true)];
    }
  }

  // ---- Admission of a second workspace ----

  /** Nobody holds more than a workspace may, and all together no more than the process may. */
  ghost predicate Capped(tickets: seq<Ticket>, l: Limits) {
    && Count(tickets, None) <= l.spools && Size(tickets, None) <= l.bytes
    && forall w :: Count(tickets, Some(w)) <= l.workspaceSpools && Size(tickets, Some(w)) <= l.workspaceBytes
  }

  /** Granting under the same caps, whatever the size asked for, keeps every workspace within its share. */
  lemma GrantKeepsShares(tickets: seq<Ticket>, l: Limits, k: Limits, w: nat)
    requires Capped(tickets, l) && SameCaps(k, l) && Fits(tickets, k, w)
    ensures Capped(tickets + [Ticket(w, k.maxBytes, false)], l)
  {
    Granted(tickets, Ticket(w, k.maxBytes, false), None);
    forall v { Granted(tickets, Ticket(w, k.maxBytes, false), Some(v)); }
  }

  lemma ReleaseKeepsShares(tickets: seq<Ticket>, l: Limits, i: nat)
    requires Capped(tickets, l) && i < |tickets| && tickets[i].size >= 0
    ensures Capped(tickets[i := tickets[i].(released := true)], l)
  {
    Released(tickets, i, None);
    forall v { Released(tickets, i, Some(v)); }
  }

  lemma {:induction false} AllHeldByOne(tickets: seq<Ticket>, v: nat)
    requires forall i :: 0 <= i < |tickets| && !tickets[i].released ==> tickets[i].workspace == v
    ensures Count(tickets, None) == Count(tickets, Some(v)) && Size(tickets, None) == Size(tickets, Some(v))
    ensures forall w :: w != v ==> Count(tickets, Some(w)) == 0 && Size(tickets, Some(w)) == 0
    decreases |tickets|
  {
    if tickets != [] { AllHeldByOne(tickets[..|tickets| - 1], v); }
  }

  // ---- Whole histories ----

  datatype Op = Ask(limits: Limits, workspace: nat) | GiveBack(ticket: nat)

  /** Tickets after a history of requests and, possibly repeated, releases. */
  function After(ops: seq<Op>): seq<Ticket> {
    if ops == [] then []
    else
      var before := After(ops[..|ops| - 1]);
      match ops[|ops| - 1]
      case Ask(l, w) => if Fits(before, l, w) then before + [Ticket(w, l.maxBytes, false)] else before
      case GiveBack(i) => if i < |before| then before[i := before[i].(released := true)] else before
  }

  lemma {:induction false} SharesHold(ops: seq<Op>, l: Limits)
    requires ValidLimits(l)
    requires forall i :: 0 <= i < |ops| && ops[i].Ask? ==> ValidLimits(ops[i].limits) && SameCaps(ops[i].limits, l)
    ensures Capped(After(ops), l)
    ensures forall i :: 0 <= i < |After(ops)| ==> After(ops)[i].size >= 0
    decreases |ops|
  {
    if ops != [] {
      var init, op := ops[..|ops| - 1], ops[|ops| - 1];
      SharesHold(init, l);
      match op
      case Ask(k, w) => if Fits(After(init), k, w) { GrantKeepsShares(After(init), l, k, w); }
      case GiveBack(i) => if i < |After(init)| { ReleaseKeepsShares(After(init), l, i); }
    }
  }

  /**
   After any history, a workspace with nothing outstanding is admitted whenever at most one other holds
   reservations.
   */
  lemma SecondWorkspaceIsAdmitted(ops: seq<Op>, l: Limits, w: nat, v: nat)
    requires ValidLimits(l) && w != v
    requires forall i :: 0 <= i < |ops| && ops[i].Ask? ==> ValidLimits(ops[i].limits) && SameCaps(ops[i].limits, l)
    requires forall i :: 0 <= i < |After(ops)| && !After(ops)[i].released ==> After(ops)[i].workspace == v
    ensures Fits(After(ops), l, w)
  {
    SharesHold(ops, l);
    AllHeldByOne(After(ops), v);
  }
}
