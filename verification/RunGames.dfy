/**
 Attributing games to a bounded run with any number of concurrent normalizers: a locked check of the
 window and the remaining capacity, and an unlocked preflight that only saves work.
 */
module RunGames {
  import opened Common

  /** A run's persisted selection; a collection run has no cap and, on Lichess, a creation window. */
  datatype Selection = Selection(
    collection: bool, lichess: bool, maxGames: Option<nat>, since: Option<int>, until: Option<int>,
    sinceMs: Option<int>, untilMs: Option<int>)

  datatype Game = Game(id: nat, ended: Option<int>, createdMs: Option<int>)

  predicate Inside(at: Option<int>, from: Option<int>, to: Option<int>) {
    (from.None? && to.None?)
    || (at.Some? && (from.Some? ==> at.value >= from.value) && (to.Some? ==> at.value < to.value))
  }

  function Milliseconds(ms: Option<int>, seconds: Option<int>): Option<int> {
    if ms.Some? then ms else if seconds.Some? then Some(seconds.value * 1000) else None
  }

  /** `RunGameBounds.includes` with the bounds of `run_game_bounds`. */
  predicate Includes(s: Selection, g: Game) {
    if !s.collection then Inside(g.ended, s.since, s.until)
    else !s.lichess || Inside(g.createdMs, Milliseconds(s.sinceMs, s.since), Milliseconds(s.untilMs, s.until))
  }

  function Remaining(s: Selection, acquired: nat, requested: Option<nat>): Option<nat> {
    if s.collection || s.maxGames.None? then requested
    else
      var available: nat := if s.maxGames.value <= acquired then 0 else s.maxGames.value - acquired;
      Some(if requested.Some? && requested.value < available then requested.value else available)
  }

  datatype Verdict = Skipped | Known | Refused | Added

  /**
   The locked step. The payload's own record is checked first; when the game is new to the run, the
   stored row is written and its facts are checked once more, where a failure raises.
   */
  function Judge(s: Selection, run: set<nat>, g: Game, stored: Game, requested: Option<nat>): Verdict {
    if !Includes(s, g) then Skipped
    else if g.id in run then Known
    else if Remaining(s, |run|, requested) == Some(0) then Skipped
    else if !Includes(s, stored) || Remaining(s, |run|, None) == Some(0) then Refused
    else Added
  }

  /** The window: seconds of the end for a bounded run, milliseconds of creation for a Lichess collection. */
  lemma WindowExactly(s: Selection, g: Game)
    ensures !s.collection ==>
              (Includes(s, g) <==>
               && (s.since.Some? ==> g.ended.Some? && s.since.value <= g.ended.value)
               && (s.until.Some? ==> g.ended.Some? && g.ended.value < s.until.value))
    ensures s.collection && !s.lichess ==> Includes(s, g)
    ensures s.collection && s.lichess ==>
              (Includes(s, g) <==>
               && (s.sinceMs.Some? ==> g.createdMs.Some? && s.sinceMs.value <= g.createdMs.value)
               && (s.sinceMs.None? && s.since.Some? ==> g.createdMs.Some? && 1000 * s.since.value <= g.createdMs.value)
               && (s.untilMs.Some? ==> g.createdMs.Some? && g.createdMs.value < s.untilMs.value)
               && (s.untilMs.None? && s.until.Some? ==> g.createdMs.Some? && g.createdMs.value < 1000 * s.until.value))
  {
  }

  /** A bounded run that already has as many games as it may. */
  predicate Full(s: Selection, run: set<nat>) {
    !s.collection && s.maxGames.Some? && |run| >= s.maxGames.value
  }

  /** The locked verdict, case by case; only a stored row that left the window raises. */
  lemma JudgeExactly(s: Selection, run: set<nat>, g: Game, stored: Game, requested: Option<nat>)
    ensures var v := Judge(s, run, g, stored, requested);
            var open := Includes(s, g) && g.id !in run && requested != Some(0) && !Full(s, run);
            && (v == Added <==> open && Includes(s, stored))
            && (v == Refused <==> open && !Includes(s, stored))
            && (v == Known <==> Includes(s, g) && g.id in run)
  {
    hide Includes;
  }

  /** A game, the row stored for it, and how many games its normalizer may still add. */
  datatype Offered = Offered(game: Game, stored: Game, requested: Option<nat>)

  function Offer(s: Selection, run: set<nat>, o: Offered): set<nat> {
    if Judge(s, run, o.game, o.stored, o.requested).Added? then run + {o.game.id} else run
  }

  /** The unlocked preflight: the run's size and its members are read one after the other. */
  predicate Skips(s: Selection, size: nat, members: set<nat>, g: Game, requested: Option<nat>) {
    !Includes(s, g) || (Remaining(s, size, requested) == Some(0) && g.id !in members)
  }

  /** A preflight never skips a game the locked check could still have newly admitted, or refused. */
  lemma PreflightIsSafe(
      s: Selection, counted: set<nat>, members: set<nat>, run: set<nat>, g: Game, stored: Game, requested: Option<nat>)
    requires counted <= members <= run && Skips(s, |counted|, members, g, requested)
    ensures var v := Judge(s, run, g, stored, requested); v.Skipped? || v.Known?
  {
    SubsetSize(counted, run);
  }

  // ---- Any interleaving of normalizers ----

  function OfferAll(s: Selection, run: set<nat>, offers: seq<Offered>): set<nat> {
    if offers == [] then run else Offer(s, OfferAll(s, run, offers[..|offers| - 1]), offers[|offers| - 1])
  }

  predicate Capped(s: Selection, run: set<nat>) {
    !s.collection && s.maxGames.Some? ==> |run| <= s.maxGames.value
  }

  lemma AddedFits(s: Selection, run: set<nat>, o: Offered)
    requires Capped(s, run)
    ensures Capped(s, Offer(s, run, o)) && run <= Offer(s, run, o)
    ensures Offer(s, run, o) != run ==>
              Offer(s, run, o) == run + {o.game.id} && Includes(s, o.game) && Includes(s, o.stored)
  {
  }

  /**
   The cap holds after any sequence of offers, games only join, and each that joins lies in the window,
   as offered and as stored.
   */
  lemma {:induction false} OffersKeepCap(s: Selection, run: set<nat>, offers: seq<Offered>)
    requires Capped(s, run)
    ensures Capped(s, OfferAll(s, run, offers)) && run <= OfferAll(s, run, offers)
    ensures forall id :: id in OfferAll(s, run, offers) && id !in run ==>
              exists i :: 0 <= i < |offers| && offers[i].game.id == id
                          && Includes(s, offers[i].game) && Includes(s, offers[i].stored)
    decreases |offers|
  {
    if offers != [] {
      hide Judge, Includes, Capped;
      var init, last := offers[..|offers| - 1], offers[|offers| - 1];
      OffersKeepCap(s, run, init);
      AddedFits(s, OfferAll(s, run, init), last);
      forall id | id in OfferAll(s, run, offers) && id !in run
        ensures exists i :: 0 <= i < |offers| && offers[i].game.id == id
                            && Includes(s, offers[i].game) && Includes(s, offers[i].stored)
      {
        if id in OfferAll(s, run, init) {
          var i :| 0 <= i < |init| && init[i].game.id == id && Includes(s, init[i].game) && Includes(s, init[i].stored);
          assert offers[i] == init[i];
        } else {
          assert offers[|offers| - 1].game.id == id;
        }
      }
    }
  }

  /** Nothing in the window is passed over: each such game is in the run in the end, unless the run is full. */
  lemma {:induction false} OffersJoin(s: Selection, run: set<nat>, offers: seq<Offered>, i: nat)
    requires Capped(s, run) && i < |offers| && offers[i].requested != Some(0)
    requires Includes(s, offers[i].game) && Includes(s, offers[i].stored)
    ensures offers[i].game.id in OfferAll(s, run, offers) || Full(s, OfferAll(s, run, offers))
    decreases |offers|
  {
    hide Includes, Remaining;
    var n := |offers| - 1;
    var init, last := offers[..n], offers[n];
    var before := OfferAll(s, run, init);
    OffersKeepCap(s, run, init);
    AddedFits(s, before, last);
    SubsetSize(before, Offer(s, before, last));
    if i < n {
      OffersJoin(s, run, init, i);
    } else {
      JudgeExactly(s, before, last.game, last.stored, last.requested);
    }
  }

  // ---- One call of the normalizer ----

  datatype Call = Call(run: set<nat>, remaining: Option<nat>, got: seq<nat>, failed: bool)

  /** A game of the payload, the row stored for it, and what others offer around its preflight. */
  datatype Item = Item(game: Game, stored: Game, early: seq<Offered>, late: seq<Offered>)

  function Spend(remaining: Option<nat>): Option<nat> {
    if remaining.Some? && remaining.value > 0 then Some(remaining.value - 1) else remaining
  }

  /** The run as the locked step of an item sees it. */
  function Now(s: Selection, run: set<nat>, item: Item): set<nat> {
    OfferAll(s, OfferAll(s, run, item.early), item.late)
  }

  /** One item judged under the lock after whatever others offered meanwhile; no preflight. */
  function Locked(s: Selection, c: Call, item: Item): Call {
    var now := Now(s, c.run, item);
    match Judge(s, now, item.game, item.stored, c.remaining)
    case Added => Call(now + {item.game.id}, Spend(c.remaining), c.got + [item.game.id], false)
    case Refused => c.(run := now, failed := true)
    case _ => c.(run := now)
  }

  /** The first n items; an error ends the call. */
  function Plain(s: Selection, run: set<nat>, requested: Option<nat>, items: seq<Item>, n: nat): Call
    requires n <= |items|
  {
    if n == 0 then Call(run, requested, [], false)
    else
      var c := Plain(s, run, requested, items, n - 1);
      if c.failed then c else Locked(s, c, items[n - 1])
  }

  lemma NowGrows(s: Selection, run: set<nat>, item: Item)
    requires Capped(s, run)
    ensures run <= OfferAll(s, run, item.early) <= Now(s, run, item)
    ensures Capped(s, OfferAll(s, run, item.early)) && Capped(s, Now(s, run, item))
  {
    OffersKeepCap(s, run, item.early);
    OffersKeepCap(s, OfferAll(s, run, item.early), item.late);
  }

  /** What one call adds: distinct new games of the run, at most as many as requested. */
  ghost predicate Fair(s: Selection, run: set<nat>, requested: Option<nat>, c: Call) {
    && Capped(s, c.run) && run <= c.run
    && (forall i :: 0 <= i < |c.got| ==> c.got[i] in c.run && c.got[i] !in run)
    && (forall i, k :: 0 <= i < k < |c.got| ==> c.got[i] != c.got[k])
    && (requested.Some? <==> c.remaining.Some?)
    && (requested.Some? ==> |c.got| + c.remaining.value == requested.value)
  }

  lemma LockedFair(s: Selection, run: set<nat>, requested: Option<nat>, c: Call, item: Item)
    requires Fair(s, run, requested, c)
    ensures Fair(s, run, requested, Locked(s, c, item))
  {
    hide Capped, Now, Includes;
    NowGrows(s, c.run, item);
    AddedFits(s, Now(s, c.run, item), Offered(item.game, item.stored, c.remaining));
    AddedSpends(s, Now(s, c.run, item), item.game, item.stored, c.remaining);
  }

  lemma AddedSpends(s: Selection, run: set<nat>, g: Game, stored: Game, requested: Option<nat>)
    ensures Judge(s, run, g, stored, requested).Added? ==> g.id !in run && requested != Some(0)
  {
  }

  lemma {:induction false} PlainMeans(s: Selection, run: set<nat>, requested: Option<nat>, items: seq<Item>, n: nat)
    requires n <= |items| && Capped(s, run)
    ensures Fair(s, run, requested, Plain(s, run, requested, items, n))
  {
    if n > 0 {
      hide Fair, Locked;
      PlainMeans(s, run, requested, items, n - 1);
      var c := Plain(s, run, requested, items, n - 1);
      LockedFair(s, run, requested, c, items[n - 1]);
    }
  }

  class RunTable {
    var games: set<nat>

    constructor ()
      ensures games == {}
    {
      games := {};
    }

    /** Other normalizers at work on the same run. */
    method Interleave(s: Selection, offers: seq<Offered>)
      modifies this
      ensures games == OfferAll(s, old(games), offers)
    {
      for i := 0 to |offers|
        invariant games == OfferAll(s, old(games), offers[..i])
      {
        assert offers[..i + 1][..i] == offers[..i];
        games := Offer(s, games, offers[i]);
      }
      assert offers[..|offers|] == offers;
    }

    /**
     `associate_run_game` at the end of the locked step: the stored row's window and the capacity are
     checked again, and a failure raises.
     */
    method Associate(s: Selection, stored: Game) returns (added: bool, raised: bool)
      modifies this
      ensures added <==> stored.id !in old(games) && !raised
      ensures raised <==> stored.id !in old(games)
                          && (!Includes(s, stored) || Remaining(s, |old(games)|, None) == Some(0))
      ensures games == if added then old(games) + {stored.id} else old(games)
    {
      added, raised := false, false;
      if stored.id in games { return; }
      if !Includes(s, stored) { return false, true; }
      if Remaining(s, |games|, None) == Some(0) { return false, true; }
      games := games + {stored.id};
      added := true;
    }

    /** One game: the preflight's two reads, others in between, and the locked step unless it is skipped. */
    method Process(s: Selection, item: Item, remaining: Option<nat>) returns (added: bool, failed: bool)
      requires Capped(s, games) && item.stored.id == item.game.id
      modifies this
      ensures forall got ::
                Locked(s, Call(old(games), remaining, got, false), item) ==
                Call(games, if added then Spend(remaining) else remaining,
                     if added then got + [item.game.id] else got, failed)
    {
      hide Includes, Remaining, Capped;
      added, failed := false, false;
      ghost var counted := games;
      NowGrows(s, games, item);
      var size := |games|;
      Interleave(s, item.early);
      ghost var members := games;
      var skip := Skips(s, size, games, item.game, remaining);
      Interleave(s, item.late);
      if skip {
        PreflightIsSafe(s, counted, members, games, item.game, item.stored, remaining);
        return;
      }
      if !Includes(s, item.game) || item.game.id in games || Remaining(s, |games|, remaining) == Some(0) { return; }
      added, failed := Associate(s, item.stored);
    }

    /** The loop with its preflight attributes exactly what the plain loop would, whatever others do in between. */
    method NormalizeGames(s: Selection, items: seq<Item>, requested: Option<nat>) returns (got: seq<nat>, failed: bool)
      requires Capped(s, games) && forall i :: 0 <= i < |items| ==> items[i].stored.id == items[i].game.id
      modifies this
      ensures var c := Plain(s, old(games), requested, items, |items|);
              games == c.run && got == c.got && failed == c.failed
      ensures Capped(s, games) && old(games) <= games
      ensures requested.Some? ==> |got| <= requested.value
      ensures forall i :: 0 <= i < |got| ==> got[i] in games && got[i] !in old(games)
    {
      hide Locked, Capped, Spend;
      ghost var was := games;
      got, failed := [], false;
      var remaining := requested;
      var i := 0;
      while i < |items| && !failed
        invariant 0 <= i <= |items|
        invariant Call(games, remaining, got, failed) == Plain(s, was, requested, items, i)
      {
        PlainMeans(s, was, requested, items, i);
        ghost var before := Plain(s, was, requested, items, i);
        var added;
        added, failed := Process(s, items[i], remaining);
        assert Locked(s, before, items[i]) ==
               Call(games, if added then Spend(remaining) else remaining,
                    if added then got + [items[i].game.id] else got, failed);
        if added {
          got := got + [items[i].game.id];
          remaining := if remaining.Some? && remaining.value > 0 then Some(remaining.value - 1) else remaining;
          SpendMeans(before.remaining);
        }
        i := i + 1;
      }
      PlainMeans(s, was, requested, items, i);
      if failed { FailedStays(s, was, requested, items, i, |items|); }
    }
  }

  lemma SpendMeans(r: Option<nat>)
    ensures Spend(r) == if r.Some? && r.value > 0 then Some(r.value - 1) else r
  {
  }

  lemma {:induction false} FailedStays(
      s: Selection, run: set<nat>, requested: Option<nat>, items: seq<Item>, k: nat, n: nat)
    requires k <= n <= |items| && Plain(s, run, requested, items, k).failed
    ensures Plain(s, run, requested, items, n) == Plain(s, run, requested, items, k)
    decreases n
  {
    hide Locked;
    if k < n {
      FailedStays(s, run, requested, items, k, n - 1);
      assert Plain(s, run, requested, items, n - 1).failed;
    }
  }
}
