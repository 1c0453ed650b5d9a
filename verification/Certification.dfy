/**
 Certifying one payload as normalized while several normalizers, of several parser versions, race
 with new fetch observations. Checkpoints carry the observation under which they were made.
 */
module Certification {
  import opened Common

  datatype Run = Run(observed: nat, complete: bool)

  datatype Item = Item(observed: nat, game: nat)

  /** `latest`: the newest accepted fetch observation. `certified`: status parsed, with the parser that said so. */
  datatype Payload = Payload(
    latest: nat, parser: Option<nat>, certified: bool, runs: map<nat, Run>, items: map<(nat, string), Item>)

  // ---- Operations ----

  predicate Resets(p: Payload, v: nat) {
    || v !in p.runs || p.runs[v].observed != p.latest
    || (p.runs[v].complete && p.parser != Some(v))
  }

  function Begin(p: Payload, v: nat): Payload {
    if !Resets(p, v) then p
    else
      p.(items := map k | k in p.items && k.0 != v :: p.items[k],
         runs := p.runs[v := Run(p.latest, false)], certified := false)
  }

  function Mark(p: Payload, v: nat, pointer: string, observed: nat, game: nat): Payload {
    if (v, pointer) in p.items && observed < p.items[(v, pointer)].observed then p
    else p.(items := p.items[(v, pointer) := Item(observed, game)])
  }

  ghost predicate Processed(p: Payload, v: nat, observed: nat, pointer: string) {
    (v, pointer) in p.items && p.items[(v, pointer)].observed == observed
  }

  ghost predicate Complete(p: Payload, v: nat, observed: nat, pointers: seq<string>) {
    p.latest == observed && forall i :: 0 <= i < |pointers| ==> Processed(p, v, observed, pointers[i])
  }

  ghost function Finish(p: Payload, v: nat, observed: nat, pointers: seq<string>): Payload {
    if !Complete(p, v, observed, pointers) then p
    else
      p.(runs := if v in p.runs && p.runs[v].observed == observed then p.runs[v := Run(observed, true)] else p.runs,
         certified := true, parser := Some(v))
  }

  class PayloadStore {
    var payload: Payload

    constructor (p: Payload)
      ensures payload == p
    {
      payload := p;
    }

    method BeginNormalization(v: nat) returns (observed: nat)
      modifies this
      ensures payload == Begin(old(payload), v) && observed == old(payload).latest
      ensures var was := old(payload);
              var reset := || v !in was.runs || was.runs[v].observed != was.latest
                           || (was.runs[v].complete && (was.parser.None? || was.parser.value != v));
              && payload == was.(items := payload.items, runs := payload.runs, certified := payload.certified)
              && (!reset ==> payload == was)
              && (reset ==>
                    && !payload.certified && v in payload.runs && payload.runs[v] == Run(was.latest, false)
                    && (forall k :: k in payload.items <==> k in was.items && k.0 != v)
                    && (forall k :: k in payload.items ==> payload.items[k] == was.items[k])
                    && (forall u :: u != v ==> (u in payload.runs <==> u in was.runs))
                    && (forall u :: u != v && u in was.runs ==> payload.runs[u] == was.runs[u]))
    {
      observed := payload.latest;
      var reset := v !in payload.runs;
      if !reset {
        var run := payload.runs[v];
        reset := run.observed != observed || (run.complete && payload.parser != Some(v));
      }
      if reset {
        payload := payload.(items := map k | k in payload.items && k.0 != v :: payload.items[k]);
        payload := payload.(runs := payload.runs[v := Run(observed, false)]);
        payload := payload.(certified := false);
      }
    }

    method MarkItem(v: nat, pointer: string, observed: nat, game: nat)
      modifies this
      ensures payload == Mark(old(payload), v, pointer, observed, game)
      ensures var was := old(payload);
              && payload == was.(items := payload.items)
              && payload.items.Keys == was.items.Keys + {(v, pointer)}
              && (forall k :: k in was.items && k != (v, pointer) ==> payload.items[k] == was.items[k])
              && payload.items[(v, pointer)] ==
                 if (v, pointer) in was.items && was.items[(v, pointer)].observed > observed
                 then was.items[(v, pointer)] else Item(observed, game)
    {
      if (v, pointer) !in payload.items || observed >= payload.items[(v, pointer)].observed {
        payload := payload.(items := payload.items[(v, pointer) := Item(observed, game)]);
      }
    }

    method FinishNormalization(v: nat, observed: nat, pointers: seq<string>) returns (complete: bool)
      modifies this
      ensures complete == Complete(old(payload), v, observed, pointers)
      ensures payload == Finish(old(payload), v, observed, pointers)
      ensures complete <==>
              && old(payload).latest == observed
              && forall pointer :: pointer in pointers ==>
                   (v, pointer) in old(payload).items && old(payload).items[(v, pointer)].observed == observed
      ensures !complete ==> payload == old(payload)
      ensures complete ==>
                && payload == old(payload).(certified := true, parser := Some(v), runs := payload.runs)
                && payload.runs.Keys == old(payload).runs.Keys
                && forall u :: u in payload.runs ==>
                     payload.runs[u] == if u == v && old(payload).runs[u].observed == observed then Run(observed, true)
                                        else old(payload).runs[u]
    {
      complete := payload.latest == observed;
      var i := 0;
      while i < |pointers| && complete
        invariant 0 <= i <= |pointers|
        invariant complete ==> payload.latest == observed
        invariant complete ==> forall k :: 0 <= k < i ==> Processed(payload, v, observed, pointers[k])
        invariant !complete ==> !Complete(payload, v, observed, pointers)
      {
        complete := (v, pointers[i]) in payload.items && payload.items[(v, pointers[i])].observed == observed;
        assert Processed(payload, v, observed, pointers[i]) == complete;
        i := i + 1;
      }
      if complete {
        if v in payload.runs && payload.runs[v].observed == observed {
          payload := payload.(runs := payload.runs[v := Run(observed, true)]);
        }
        payload := payload.(certified := true, parser := Some(v));
      }
    }
  }

  // ---- Runs ----

  /** A normalizer keeps the observation it began with; the pointers depend on its parser version only. */
  datatype World = World(payload: Payload, workers: map<nat, (nat, nat)>)

  datatype Step =
    | Observe(id: nat)
    | Start(n: nat, v: nat)
    | Save(n: nat, pointer: string, game: nat)
    | Certify(n: nat)
    | Stop(n: nat)

  predicate Enabled(w: World, step: Step) {
    match step
    case Observe(id) => id > w.payload.latest
    case Start(n, _) => n !in w.workers
    case Save(n, _, _) => n in w.workers
    case Certify(n) => n in w.workers
    case Stop(n) => n in w.workers
  }

  ghost function Apply(w: World, step: Step, pointers: nat -> seq<string>): World
    requires Enabled(w, step)
  {
    match step
    case Observe(id) => w.(payload := w.payload.(latest := id))
    case Start(n, v) => World(Begin(w.payload, v), w.workers[n := (v, w.payload.latest)])
    case Save(n, pointer, game) => w.(payload := Mark(w.payload, w.workers[n].0, pointer, w.workers[n].1, game))
    case Certify(n) => w.(payload := Finish(w.payload, w.workers[n].0, w.workers[n].1, pointers(w.workers[n].0)))
    case Stop(n) => w.(workers := w.workers - {n})
  }

  ghost predicate IsRun(w: World, steps: seq<Step>, pointers: nat -> seq<string>)
    decreases |steps|
  {
    steps != [] ==> Enabled(w, steps[0]) && IsRun(Apply(w, steps[0], pointers), steps[1..], pointers)
  }

  ghost function After(w: World, steps: seq<Step>, pointers: nat -> seq<string>): World
    requires IsRun(w, steps, pointers)
    decreases |steps|
  {
    if steps == [] then w else After(Apply(w, steps[0], pointers), steps[1..], pointers)
  }

  /** A run marked complete has a checkpoint at least as new for each of its pointers. */
  ghost predicate RunOk(p: Payload, v: nat, pointers: nat -> seq<string>)
    requires v in p.runs
  {
    && p.runs[v].observed <= p.latest
    && (p.runs[v].complete ==>
          forall i :: 0 <= i < |pointers(v)| ==>
            (v, pointers(v)[i]) in p.items && p.items[(v, pointers(v)[i])].observed >= p.runs[v].observed)
  }

  ghost predicate Inv(w: World, pointers: nat -> seq<string>) {
    var p := w.payload;
    && (forall k :: k in p.items ==> p.items[k].observed <= p.latest)
    && (forall v :: v in p.runs ==> RunOk(p, v, pointers))
    && (forall n :: n in w.workers ==> w.workers[n].0 in p.runs && w.workers[n].1 <= p.runs[w.workers[n].0].observed)
    && (p.certified ==> p.parser.Some? && p.parser.value in p.runs && p.runs[p.parser.value].complete)
  }

  lemma StepKeeps(w: World, step: Step, pointers: nat -> seq<string>)
    requires Inv(w, pointers) && Enabled(w, step)
    ensures Inv(Apply(w, step, pointers), pointers)
  {
    var next := Apply(w, step, pointers);
    if step.Certify? {
      CertifyKeeps(w, step.n, pointers);
    } else {
      forall v | v in next.payload.runs ensures RunOk(next.payload, v, pointers) {
        assert v in w.payload.runs ==> RunOk(w.payload, v, pointers);
      }
    }
  }

  lemma CertifyKeeps(w: World, n: nat, pointers: nat -> seq<string>)
    requires Inv(w, pointers) && n in w.workers
    ensures Inv(Apply(w, Certify(n), pointers), pointers)
  {
    var p, v := w.payload, w.workers[n].0;
    var next := Apply(w, Certify(n), pointers).payload;
    assert RunOk(p, v, pointers);
    forall u | u in next.runs ensures RunOk(next, u, pointers) {
      assert RunOk(p, u, pointers);
      if u == v && next != p {
        forall i | 0 <= i < |pointers(v)|
          ensures (v, pointers(v)[i]) in p.items && p.items[(v, pointers(v)[i])].observed == p.latest
        {
          assert Processed(p, v, w.workers[n].1, pointers(v)[i]);
        }
      }
    }
  }

  lemma {:induction false} RunKeeps(w: World, steps: seq<Step>, pointers: nat -> seq<string>)
    requires Inv(w, pointers) && IsRun(w, steps, pointers)
    ensures Inv(After(w, steps, pointers), pointers)
    decreases |steps|
  {
    if steps != [] {
      StepKeeps(w, steps[0], pointers);
      RunKeeps(Apply(w, steps[0], pointers), steps[1..], pointers);
    }
  }

  // ---- Theorems ----

  /**
   While a certified payload has seen nothing newer, every pointer of its parser has a checkpoint of
   the latest observation.
   */
  lemma CertifiedIsWhole(w: World, steps: seq<Step>, pointers: nat -> seq<string>, v: nat, i: nat)
    requires Inv(w, pointers) && IsRun(w, steps, pointers) && i < |pointers(v)|
    requires var p := After(w, steps, pointers).payload;
             p.certified && p.parser == Some(v) && v in p.runs && p.runs[v].observed == p.latest
    ensures var p := After(w, steps, pointers).payload;
            Processed(p, v, p.latest, pointers(v)[i])
  {
    RunKeeps(w, steps, pointers);
    assert RunOk(After(w, steps, pointers).payload, v, pointers);
  }

  /** The step makes the payload certified, or certified by another parser than before. */
  predicate Certifies(before: Payload, after: Payload) {
    after.certified && (!before.certified || after.parser != before.parser)
  }

  ghost predicate Whole(p: Payload, v: nat, pointers: nat -> seq<string>) {
    forall i :: 0 <= i < |pointers(v)| ==> Processed(p, v, p.latest, pointers(v)[i])
  }

  /**
   Over all steps of all runs: whatever certifies a payload, or changes who certified it, is a finish by
   a worker of that parser, at a moment when every pointer is checkpointed under the latest
   observation; and it completes that parser's run of that observation.
   */
  lemma CertifiesOnlyWhole(w: World, steps: seq<Step>, pointers: nat -> seq<string>, step: Step)
    requires Inv(w, pointers) && IsRun(w, steps, pointers) && Enabled(After(w, steps, pointers), step)
    ensures var end := After(w, steps, pointers);
            var next := Apply(end, step, pointers).payload;
            && (next.parser != end.payload.parser ==> Certifies(end.payload, next))
            && (Certifies(end.payload, next) ==>
                  && step.Certify?
                  && var (v, observed) := end.workers[step.n];
                     && next.parser == Some(v) && observed == end.payload.latest && Whole(end.payload, v, pointers)
                     && v in next.runs && next.runs[v] == Run(end.payload.latest, true))
  {
    RunKeeps(w, steps, pointers);
    var end := After(w, steps, pointers);
    if step.Certify? {
      var (v, observed) := end.workers[step.n];
      assert RunOk(end.payload, v, pointers);
      assert forall i :: 0 <= i < |pointers(v)| && Complete(end.payload, v, observed, pointers(v)) ==>
               Processed(end.payload, v, observed, pointers(v)[i]);
    }
  }

  /** Exactly then: a finish with every pointer checkpointed under the latest observation does certify. */
  lemma WholeCertifies(w: World, steps: seq<Step>, pointers: nat -> seq<string>, n: nat)
    requires Inv(w, pointers) && IsRun(w, steps, pointers) && n in After(w, steps, pointers).workers
    requires var end := After(w, steps, pointers);
             end.workers[n].1 == end.payload.latest && Whole(end.payload, end.workers[n].0, pointers)
    ensures var end := After(w, steps, pointers);
            var v, next := end.workers[n].0, Apply(end, Certify(n), pointers).payload;
            next.certified && next.parser == Some(v) && v in next.runs && next.runs[v] == Run(end.payload.latest, true)
  {
    RunKeeps(w, steps, pointers);
    var end := After(w, steps, pointers);
    assert RunOk(end.payload, end.workers[n].0, pointers);
  }

  /** A run is its first steps followed by its last. */
  lemma {:induction false} LastStep(w: World, steps: seq<Step>, pointers: nat -> seq<string>)
    requires IsRun(w, steps, pointers) && steps != []
    ensures var init, last := steps[..|steps| - 1], steps[|steps| - 1];
            && IsRun(w, init, pointers) && Enabled(After(w, init, pointers), last)
            && After(w, steps, pointers) == Apply(After(w, init, pointers), last, pointers)
    decreases |steps|
  {
    if |steps| > 1 {
      LastStep(Apply(w, steps[0], pointers), steps[1..], pointers);
      assert steps[..|steps| - 1][1..] == steps[1..][..|steps| - 2];
    } else {
      assert steps[1..] == [] && steps[..0] == [];
    }
  }

  /**
   At step j of the run a worker of parser v finished with every pointer checkpointed under the latest
   observation.
   */
  ghost predicate EarnedAt(w: World, steps: seq<Step>, pointers: nat -> seq<string>, j: nat, v: nat) {
    && j < |steps| && steps[j].Certify? && IsRun(w, steps[..j], pointers)
    && var moment := After(w, steps[..j], pointers);
       steps[j].n in moment.workers && moment.workers[steps[j].n].0 == v && Whole(moment.payload, v, pointers)
  }

  /** Every certificate in every run was earned by its own parser at some moment of the run. */
  lemma {:induction false} CertificateWasEarned(w: World, steps: seq<Step>, pointers: nat -> seq<string>)
    returns (j: nat)
    requires Inv(w, pointers) && !w.payload.certified && IsRun(w, steps, pointers)
    requires After(w, steps, pointers).payload.certified
    ensures After(w, steps, pointers).payload.parser.Some?
    ensures EarnedAt(w, steps, pointers, j, After(w, steps, pointers).payload.parser.value)
    decreases |steps|
  {
    var init, last := steps[..|steps| - 1], steps[|steps| - 1];
    LastStep(w, steps, pointers);
    var before, after := After(w, init, pointers).payload, After(w, steps, pointers).payload;
    CertifiesOnlyWhole(w, init, pointers, last);
    if Certifies(before, after) {
      j := |steps| - 1;
    } else {
      j := CertificateWasEarned(w, init, pointers);
      assert init[..j] == steps[..j];
    }
  }

  /** The step starts parser v's checkpoints afresh. */
  predicate ResetsNow(w: World, step: Step, v: nat) { step.Start? && step.v == v && Resets(w.payload, v) }

  ghost predicate NeverResets(w: World, steps: seq<Step>, pointers: nat -> seq<string>, v: nat)
    requires IsRun(w, steps, pointers)
    decreases |steps|
  {
    steps != [] ==> !ResetsNow(w, steps[0], v) && NeverResets(Apply(w, steps[0], pointers), steps[1..], pointers, v)
  }

  /** Between two resets of its parser a checkpoint stays, and its observation never falls, whoever steps. */
  lemma {:induction false} CheckpointsNeverFall(
      w: World, steps: seq<Step>, pointers: nat -> seq<string>, v: nat, pointer: string)
    requires IsRun(w, steps, pointers) && NeverResets(w, steps, pointers, v) && (v, pointer) in w.payload.items
    ensures var end := After(w, steps, pointers).payload.items;
            (v, pointer) in end && end[(v, pointer)].observed >= w.payload.items[(v, pointer)].observed
    decreases |steps|
  {
    if steps != [] { CheckpointsNeverFall(Apply(w, steps[0], pointers), steps[1..], pointers, v, pointer); }
  }

  /** At step j of the run a worker of parser v that began with this observation saved this game for the pointer. */
  ghost predicate SavedAt(
      w: World, steps: seq<Step>, pointers: nat -> seq<string>, j: nat, v: nat, pointer: string, item: Item)
  {
    && j < |steps| && steps[j].Save? && steps[j].pointer == pointer && steps[j].game == item.game
    && IsRun(w, steps[..j], pointers)
    && var workers := After(w, steps[..j], pointers).workers;
       steps[j].n in workers && workers[steps[j].n] == (v, item.observed)
  }

  lemma SavedEarlier(
      w: World, steps: seq<Step>, pointers: nat -> seq<string>, j: nat, v: nat, pointer: string, item: Item)
    requires steps != [] && j < |steps| - 1
    ensures SavedAt(w, steps[..|steps| - 1], pointers, j, v, pointer, item)
            <==> SavedAt(w, steps, pointers, j, v, pointer, item)
  {
    assert steps[..|steps| - 1][..j] == steps[..j];
  }

  /**
   Which game a checkpoint holds: that of a save made in the run under its observation, and every save of
   the same pointer after it was made under an older one.
   */
  lemma {:induction false} CheckpointIsNewestSave(
      w: World, steps: seq<Step>, pointers: nat -> seq<string>, v: nat, pointer: string) returns (j: nat)
    requires IsRun(w, steps, pointers) && (v, pointer) !in w.payload.items
    requires (v, pointer) in After(w, steps, pointers).payload.items
    ensures var item := After(w, steps, pointers).payload.items[(v, pointer)];
            && SavedAt(w, steps, pointers, j, v, pointer, item)
            && forall k, later :: j < k && SavedAt(w, steps, pointers, k, v, pointer, later) ==>
                 later.observed < item.observed
    decreases |steps|
  {
    var n := |steps| - 1;
    var init, last := steps[..n], steps[n];
    LastStep(w, steps, pointers);
    var before, item := After(w, init, pointers), After(w, steps, pointers).payload.items[(v, pointer)];
    var saves := last.Save? && last.pointer == pointer && before.workers[last.n].0 == v;
    if saves && item == Item(before.workers[last.n].1, last.game) {
      j := n;
    } else {
      assert (v, pointer) in before.payload.items && before.payload.items[(v, pointer)] == item;
      j := CheckpointIsNewestSave(w, init, pointers, v, pointer);
      SavedEarlier(w, steps, pointers, j, v, pointer, item);
      forall k, later | j < k && SavedAt(w, steps, pointers, k, v, pointer, later)
        ensures later.observed < item.observed
      {
        if k < n { SavedEarlier(w, steps, pointers, k, v, pointer, later); }
      }
    }
  }

  /** Exactly a reset takes a checkpoint away. */
  lemma OnlyResetsForget(w: World, step: Step, pointers: nat -> seq<string>, v: nat, pointer: string)
    requires Enabled(w, step) && (v, pointer) in w.payload.items
    ensures (v, pointer) !in Apply(w, step, pointers).payload.items <==> ResetsNow(w, step, v)
  {
  }

  /** No step of a worker that is behind certifies anything or lowers the observation of a checkpoint. */
  lemma StaleIsHarmless(w: World, step: Step, pointers: nat -> seq<string>)
    requires Enabled(w, step) && (step.Save? || step.Certify?) && w.workers[step.n].1 < w.payload.latest
    ensures var next := Apply(w, step, pointers).payload;
            && next.certified == w.payload.certified && next.parser == w.payload.parser && next.runs == w.payload.runs
            && (forall k :: k in w.payload.items ==>
                  k in next.items && next.items[k].observed >= w.payload.items[k].observed)
            && (forall k :: k in w.payload.items && w.payload.items[k].observed > w.workers[step.n].1 ==>
                  next.items[k] == w.payload.items[k])
  {
  }
}
