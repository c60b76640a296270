// The remedy step as the worker runs it: read, guard, write, read back,
// compare. The steps of all other executions and the network happen between.
module RemedyClient {
  import opened Remedy

  predicate ByOthers(steps: seq<Step>, id: nat) {
    forall i | 0 <= i < |steps| :: !(steps[i].Arrive?) ==> steps[i].id != id
  }

  lemma {:induction false} OthersLeave(r: Remedy, w: World, steps: seq<Step>, id: nat)
    requires ByOthers(steps, id) && id in w.executions
    ensures id in Run(r, w, steps).executions && Run(r, w, steps).executions[id] == w.executions[id]
  {
    if steps != [] {
      OthersLeave(r, w, steps[..|steps| - 1], id);
      OtherLeaves(r, Run(r, w, steps[..|steps| - 1]), steps[|steps| - 1], id);
    }
  }

  lemma OtherLeaves(r: Remedy, w: World, step: Step, id: nat)
    requires (!step.Arrive? ==> step.id != id) && id in w.executions
    ensures id in Apply(r, w, step).executions && Apply(r, w, step).executions[id] == w.executions[id]
  {
  }

  lemma {:induction false} RunThen(r: Remedy, w: World, a: seq<Step>, b: seq<Step>)
    ensures Run(r, w, a + b) == Run(r, Run(r, w, a), b)
  {
    if b == [] {
      assert a + b == a;
    } else {
      RunThen(r, w, a, b[..|b| - 1]);
      assert (a + b)[..|a + b| - 1] == a + b[..|b| - 1];
    }
  }

  lemma RunOne(r: Remedy, w: World, step: Step)
    ensures Run(r, w, [step]) == Apply(r, w, step)
  {
    assert [step][..0] == [] && Run(r, w, []) == w;
  }

  // What the network and the platform answer one execution: the two readings,
  // the guard, the stored receipt and, for a verification, the new observations.
  datatype Answers = Answers(read: bool, granted: bool, readBack: bool, stored: bool, recovered: bool)

  class Site {
    var world: World
    const remedy: Remedy
    ghost const first: Endpoint
    ghost var history: seq<Step>

    ghost predicate Valid()
      reads this
    {
      && remedy.before != remedy.desired
      && world == Run(remedy, Initial(first), history)
    }

    constructor (r: Remedy, endpoint: Endpoint)
      requires r.before != r.desired
      ensures Valid() && remedy == r && first == endpoint && world == Initial(endpoint) && history == []
    {
      world, remedy, first, history := Initial(endpoint), r, endpoint, [];
      new;
      hide Apply;
    }

    // Steps of other executions, and arrivals of writes already sent.
    method Others(steps: seq<Step>, id: nat)
      requires Valid() && ByOthers(steps, id) && id in world.executions
      modifies this
      ensures Valid() && world == Run(remedy, old(world), steps) && history == old(history) + steps
      ensures id in world.executions && world.executions[id] == old(world.executions[id])
    {
      hide Run, Apply;
      OthersLeave(remedy, world, steps, id);
      RunThen(remedy, Initial(first), history, steps);
      world := Run(remedy, world, steps);
      history := history + steps;
    }

    method Take(step: Step)
      requires Valid()
      modifies this
      ensures Valid() && world == Apply(remedy, old(world), step) && history == old(history) + [step]
    {
      hide Run, Apply;
      RunThen(remedy, Initial(first), history, [step]);
      RunOne(remedy, world, step);
      world := Apply(remedy, world, step);
      history := history + [step];
    }

    // Whatever happens in the four turns between, success means the endpoint
    // is in the desired state because of this very action; and left alone with
    // the answers it needs, the step moves the endpoint from before to desired.
    method Remediate(id: nat, stage: Stage, action: string, reconciling: bool, answers: Answers,
                     a: seq<Step>, b: seq<Step>, c: seq<Step>, d: seq<Step>) returns (ok: bool)
      requires Valid() && id !in world.executions
      requires ByOthers(a, id) && ByOthers(b, id) && ByOthers(c, id) && ByOthers(d, id)
      modifies this
      ensures Valid()
      ensures ok <==> At(world, id, Succeeded)
      ensures ok ==> world.endpoint == Endpoint(remedy.desired, action)
      ensures ok ==> answers.stored && (stage.VerifyRecovery? ==> answers.recovered)
      ensures old(history) <= history && id in world.executions
      ensures var seen := FirstSeen(remedy, old(world), Begin(id, stage, action, reconciling), a);
              var writes := seen.state == remedy.before && stage.Remediate? && !reconciling;
              && (Send(id) in history[|old(history)|..] <==> answers.read && writes && answers.granted)
              && (ok && !answers.granted ==> seen == Endpoint(remedy.desired, action))
              && (ok <==>
                    && answers.read && (writes ==> answers.granted && answers.readBack)
                    && answers.stored && (stage.VerifyRecovery? ==> answers.recovered)
                    && world.executions[id].state == remedy.desired && world.executions[id].observed == action)
      ensures Unhindered(remedy, old(world), stage, reconciling, answers, a, b, c, d) ==> ok
    {
      hide Run, Valid, ByOthers, Apply, Verdict, FirstSeen;
      NoSends(d, id);
      var seen := Look(id, stage, action, reconciling, answers.read, a);
      if !answers.read { return false; }
      ghost var looked := history;
      if seen.state == remedy.before && stage.Remediate? && !reconciling {
        var written;
        seen, written := Write(id, action, answers, b, c);
        NewSends(old(history), looked, history, id);
        if !written { return false; }
      }
      ghost var written := history;
      Others(d, id);
      var settled := answers.stored && (stage.VerifyRecovery? ==> answers.recovered);
      Concludes(remedy, world, id, settled);
      Take(Conclude(id, settled));
      assert history[|written|..] == d + [Conclude(id, settled)];
      NewSends(old(history), written, history, id);
      if At(world, id, Succeeded) { SuccessNow(id); }
      return seen.state == remedy.desired && seen.action == action && settled;
    }

    // The start of the step and its first reading.
    method Look(id: nat, stage: Stage, action: string, reconciling: bool, answered: bool, a: seq<Step>)
      returns (seen: Endpoint)
      requires Valid() && id !in world.executions && ByOthers(a, id)
      modifies this
      ensures Valid() && seen == world.endpoint && id in world.executions
      ensures seen == FirstSeen(remedy, old(world), Begin(id, stage, action, reconciling), a)
      ensures old(history) <= history && Send(id) !in history[|old(history)|..]
      ensures var e := Execution(stage, action, reconciling, Started, "", Tag(""), "");
              world.executions[id]
              == if answered then AfterFirstRead(remedy, e, seen) else e.(phase := Failed)
      ensures a == [] ==> world.endpoint == old(world).endpoint && world.flights == old(world).flights
    {
      hide Run, Valid, ByOthers, AfterFirstRead;
      NoSends(a, id);
      Take(Begin(id, stage, action, reconciling));
      ghost var begun := world;
      Others(a, id);
      NoSteps(remedy, begun);
      seen := world.endpoint;
      Take(FirstRead(id, answered));
      assert history[|old(history)|..]
             == [Begin(id, stage, action, reconciling)] + a + [FirstRead(id, answered)];
    }

    lemma SuccessNow(id: nat)
      requires Valid() && At(world, id, Succeeded)
      ensures world.endpoint == Endpoint(remedy.desired, world.executions[id].action)
    {
      hide Run, LogOk, FlightOk;
      ReachableInv(remedy, first, history);
    }

    // The guarded write and the reading after it.
    method Write(id: nat, action: string, answers: Answers, b: seq<Step>, c: seq<Step>)
      returns (seen: Endpoint, read: bool)
      requires Valid() && At(world, id, Unguarded) && world.executions[id].action == action
      requires ByOthers(b, id) && ByOthers(c, id)
      modifies this
      ensures Valid() && id in world.executions
      ensures old(history) <= history && (Send(id) in history[|old(history)|..] <==> answers.granted)
      ensures read <==> answers.granted && answers.readBack
      ensures var e := world.executions[id];
              if read then
                e.phase == Checking && e.action == action && e.state == seen.state && e.observed == seen.action
              else e.phase == Failed
      ensures old(world).endpoint.state == remedy.before && old(world).executions[id].tag == Tag(remedy.before)
              && old(world).flights == [] && b == [] && c == [Arrive(0)] && answers.granted && answers.readBack
              ==> read && seen == Endpoint(remedy.desired, action)
    {
      hide Run, Valid, ByOthers;
      NoSends(b, id);
      Others(b, id);
      NoSteps(remedy, old(world));
      Take(Guard(id, answers.granted));
      assert history[|old(history)|..] == b + [Guard(id, answers.granted)];
      if !answers.granted { return world.endpoint, false; }
      Take(Send(id));
      ghost var sent := world;
      Others(c, id);
      RunOne(remedy, sent, Arrive(0));
      seen := world.endpoint;
      Take(ReadBack(id, answers.readBack));
      assert history[|old(history)|..][|b| + 1] == Send(id);
      return seen, answers.readBack;
    }
  }

  lemma Concludes(r: Remedy, w: World, id: nat, settled: bool)
    requires At(w, id, Checking)
    ensures var e, v := w.executions[id], Apply(r, w, Conclude(id, settled));
            && id in v.executions && v.executions[id] == e.(phase := v.executions[id].phase)
            && (v.executions[id].phase == Succeeded <==> e.state == r.desired && e.observed == e.action && settled)
  {
  }

  lemma NoSends(steps: seq<Step>, id: nat)
    requires ByOthers(steps, id)
    ensures Send(id) !in steps
  {
  }

  lemma NewSends(a: seq<Step>, b: seq<Step>, c: seq<Step>, id: nat)
    requires a <= b <= c
    ensures Send(id) in c[|a|..] <==> Send(id) in b[|a|..] || Send(id) in c[|b|..]
  {
    assert c[|a|..] == b[|a|..] + c[|b|..];
  }

  lemma NoSteps(r: Remedy, w: World)
    ensures Run(r, w, []) == w
  {
  }

  // The endpoint as an execution first reads it.
  function FirstSeen(r: Remedy, w: World, begin: Step, a: seq<Step>): Endpoint {
    Run(r, Apply(r, w, begin), a).endpoint
  }

  // Nobody interferes, everything is answered and the write arrives.
  predicate Unhindered(r: Remedy, w: World, stage: Stage, reconciling: bool, answers: Answers,
                       a: seq<Step>, b: seq<Step>, c: seq<Step>, d: seq<Step>) {
    && stage.Remediate? && !reconciling && answers.read && answers.granted && answers.readBack && answers.stored
    && w.endpoint.state == r.before && w.flights == []
    && a == [] && b == [] && c == [Arrive(0)] && d == []
  }
}
