// Remedying an incident through an HTTP endpoint that honours If-Match
// (section 13.1.1 of RFC 9110): any number of executions of remedy steps run
// at once, crash, and have their writes delivered late, never or repeatedly.
module Remedy {
  datatype Stage = Remediate | VerifyRecovery

  // The authorized remedy: the exact states around it.
  datatype Remedy = Remedy(before: string, desired: string)

  // The entity tag is the quoted digest of the state; digests do not collide.
  datatype Tag = Tag(of: string)

  datatype Endpoint = Endpoint(state: string, action: string)

  // A conditional write under way.
  datatype Put = Put(ifMatch: Tag, body: string, key: string)

  datatype Change = Change(from: string, to: string, action: string)

  datatype Phase =
    | Started       // nothing read yet
    | Unguarded     // read the state before the remedy, and may write
    | Allowed       // the run is running and the step's context was granted
    | Written       // sent the write, whatever became of it
    | Checking      // holds the last reading
    | Succeeded
    | Failed

  datatype Execution = Execution(stage: Stage, action: string, reconciling: bool, phase: Phase,
                                 state: string, tag: Tag, observed: string)

  datatype World = World(endpoint: Endpoint, flights: seq<Put>, executions: map<nat, Execution>, log: seq<Change>)

  datatype Step =
    | Begin(id: nat, stage: Stage, action: string, reconciling: bool)
    | FirstRead(id: nat, answered: bool)
    | Guard(id: nat, granted: bool)
    | Send(id: nat)
    | Arrive(flight: nat)
    | ReadBack(id: nat, answered: bool)
    | Conclude(id: nat, settled: bool)
    | Crash(id: nat)

  // -------------------------------------------------------------- the endpoint

  // A write whose If-Match is not the tag of the state changes nothing.
  function Receive(w: World, p: Put): World {
    if p.ifMatch != Tag(w.endpoint.state) then w
    else w.(endpoint := Endpoint(p.body, p.key), log := w.log + [Change(w.endpoint.state, p.body, p.key)])
  }

  // -------------------------------------------------------------- an execution

  function Reading(e: Execution, endpoint: Endpoint): Execution {
    e.(state := endpoint.state, tag := Tag(endpoint.state), observed := endpoint.action)
  }

  function MayWrite(r: Remedy, e: Execution): bool {
    e.state == r.before && e.stage == Remediate && !e.reconciling
  }

  function AfterFirstRead(r: Remedy, e: Execution, endpoint: Endpoint): Execution {
    var seen := Reading(e, endpoint);
    seen.(phase := if MayWrite(r, seen) then Unguarded else Checking)
  }

  // settled says whether the receipt was stored and, for a verification, whether
  // a new observation window satisfies every business criterion.
  function Verdict(r: Remedy, e: Execution, settled: bool): Phase {
    if e.state == r.desired && e.observed == e.action && settled then Succeeded else Failed
  }

  function Update(w: World, id: nat, e: Execution): World { w.(executions := w.executions[id := e]) }

  predicate At(w: World, id: nat, phase: Phase) { id in w.executions && w.executions[id].phase == phase }

  // A step that is not enabled changes nothing.
  function Apply(r: Remedy, w: World, step: Step): World {
    match step
    case Begin(id, stage, action, reconciling) =>
      if id in w.executions then w
      else Update(w, id, Execution(stage, action, reconciling, Started, "", Tag(""), ""))
    case FirstRead(id, answered) =>
      if !At(w, id, Started) then w
      else if !answered then Update(w, id, w.executions[id].(phase := Failed))
      else Update(w, id, AfterFirstRead(r, w.executions[id], w.endpoint))
    case Guard(id, granted) =>
      if !At(w, id, Unguarded) then w
      else Update(w, id, w.executions[id].(phase := if granted then Allowed else Failed))
    case Send(id) =>
      if !At(w, id, Allowed) then w
      else
        var e := w.executions[id];
        Update(w, id, e.(phase := Written)).(flights := w.flights + [Put(e.tag, r.desired, e.action)])
    case Arrive(flight) =>
      if flight >= |w.flights| then w else Receive(w, w.flights[flight])
    case ReadBack(id, answered) =>
      if !At(w, id, Written) then w
      else if !answered then Update(w, id, w.executions[id].(phase := Failed))
      else Update(w, id, Reading(w.executions[id], w.endpoint).(phase := Checking))
    case Conclude(id, settled) =>
      if !At(w, id, Checking) then w
      else Update(w, id, w.executions[id].(phase := Verdict(r, w.executions[id], settled)))
    case Crash(id) =>
      if id !in w.executions || At(w, id, Succeeded) then w
      else Update(w, id, w.executions[id].(phase := Failed))
  }

  function Run(r: Remedy, w: World, steps: seq<Step>): World {
    if steps == [] then w
    else Apply(r, Run(r, w, steps[..|steps| - 1]), steps[|steps| - 1])
  }

  function Initial(endpoint: Endpoint): World { World(endpoint, [], map[], []) }

  // ---------------------------------------------------------------- invariant

  predicate FlightOk(r: Remedy, w: World, p: Put) {
    && p.ifMatch == Tag(r.before) && p.body == r.desired
    && exists id | id in w.executions ::
         w.executions[id].stage == Remediate && !w.executions[id].reconciling && w.executions[id].action == p.key
  }

  // Nothing changed yet, or the one authorized change was made.
  predicate LogOk(r: Remedy, first: Endpoint, w: World) {
    || (w.log == [] && w.endpoint == first)
    || (w.log == [Change(r.before, r.desired, w.endpoint.action)]
        && w.endpoint.state == r.desired && first.state == r.before
        && exists p :: p in w.flights && p.key == w.endpoint.action)
  }

  predicate ExecutionOk(r: Remedy, endpoint: Endpoint, e: Execution) {
    && (e.phase == Unguarded || e.phase == Allowed ==> MayWrite(r, e) && e.tag == Tag(r.before))
    && (e.phase == Written ==> e.stage == Remediate && !e.reconciling)
    && (e.phase == Checking && e.state == r.desired ==> endpoint == Endpoint(r.desired, e.observed))
    && (e.phase == Succeeded ==> endpoint == Endpoint(r.desired, e.action))
  }

  predicate Inv(r: Remedy, first: Endpoint, w: World) {
    && LogOk(r, first, w)
    && (forall p | p in w.flights :: FlightOk(r, w, p))
    && (forall id | id in w.executions :: ExecutionOk(r, w.endpoint, w.executions[id]))
  }

  lemma {:induction false} UpdateKeeps(r: Remedy, first: Endpoint, w: World, id: nat, e: Execution)
    requires Inv(r, first, w) && ExecutionOk(r, w.endpoint, e)
    requires id in w.executions ==>
               var was := w.executions[id];
               e.stage == was.stage && e.action == was.action && e.reconciling == was.reconciling
    ensures Inv(r, first, Update(w, id, e))
  {
    var v := Update(w, id, e);
    forall p | p in v.flights ensures FlightOk(r, v, p) {
      var k :| k in w.executions && w.executions[k].stage == Remediate && !w.executions[k].reconciling
               && w.executions[k].action == p.key;
      assert k in v.executions;
    }
  }

  lemma {:induction false} SendKeeps(r: Remedy, first: Endpoint, w: World, id: nat)
    requires Inv(r, first, w) && At(w, id, Allowed)
    ensures Inv(r, first, Apply(r, w, Send(id)))
  {
    var e := w.executions[id];
    var v := Update(w, id, e.(phase := Written));
    UpdateKeeps(r, first, w, id, e.(phase := Written));
    var p := Put(e.tag, r.desired, e.action);
    var u := v.(flights := v.flights + [p]);
    assert FlightOk(r, u, p) by { assert id in u.executions; }
    forall q | q in u.flights ensures FlightOk(r, u, q) {
      if q in v.flights { assert FlightOk(r, v, q); }
    }
    assert forall q | q in v.flights :: q in u.flights;
  }

  lemma {:induction false} ArriveKeeps(r: Remedy, first: Endpoint, w: World, k: nat)
    requires r.before != r.desired && Inv(r, first, w) && k < |w.flights|
    ensures Inv(r, first, Receive(w, w.flights[k]))
  {
    var p := w.flights[k];
    var v := Receive(w, p);
    assert p in w.flights && FlightOk(r, w, p);
    if p.ifMatch == Tag(w.endpoint.state) {
      assert w.log == [];
      assert v.log == [Change(r.before, r.desired, p.key)];
      assert p in v.flights;
      forall q | q in v.flights ensures FlightOk(r, v, q) { assert FlightOk(r, w, q); }
    }
  }

  lemma {:induction false} StepKeeps(r: Remedy, first: Endpoint, w: World, step: Step)
    requires r.before != r.desired && Inv(r, first, w)
    ensures Inv(r, first, Apply(r, w, step))
  {
    hide Inv, LogOk;
    match step
    case Begin(id, stage, action, reconciling) =>
      if id !in w.executions {
        UpdateKeeps(r, first, w, id, Execution(stage, action, reconciling, Started, "", Tag(""), ""));
      }
    case FirstRead(id, answered) =>
      if At(w, id, Started) {
        UpdateKeeps(r, first, w, id, if answered then AfterFirstRead(r, w.executions[id], w.endpoint)
                                     else w.executions[id].(phase := Failed));
      }
    case Guard(id, granted) =>
      if At(w, id, Unguarded) {
        HoldsFor(r, first, w, id);
        UpdateKeeps(r, first, w, id, w.executions[id].(phase := if granted then Allowed else Failed));
      }
    case Send(id) => if At(w, id, Allowed) { SendKeeps(r, first, w, id); }
    case Arrive(k) => if k < |w.flights| { ArriveKeeps(r, first, w, k); }
    case ReadBack(id, answered) =>
      if At(w, id, Written) {
        UpdateKeeps(r, first, w, id, if answered then Reading(w.executions[id], w.endpoint).(phase := Checking)
                                     else w.executions[id].(phase := Failed));
      }
    case Conclude(id, settled) =>
      if At(w, id, Checking) {
        HoldsFor(r, first, w, id);
        UpdateKeeps(r, first, w, id, w.executions[id].(phase := Verdict(r, w.executions[id], settled)));
      }
    case Crash(id) =>
      if id in w.executions { UpdateKeeps(r, first, w, id, w.executions[id].(phase := Failed)); }
  }

  lemma HoldsFor(r: Remedy, first: Endpoint, w: World, id: nat)
    requires Inv(r, first, w) && id in w.executions
    ensures ExecutionOk(r, w.endpoint, w.executions[id])
  {
  }

  lemma {:induction false} RunKeeps(r: Remedy, first: Endpoint, w: World, steps: seq<Step>)
    requires r.before != r.desired && Inv(r, first, w)
    ensures Inv(r, first, Run(r, w, steps))
  {
    hide Inv, Apply;
    if steps != [] {
      var init := steps[..|steps| - 1];
      RunKeeps(r, first, w, init);
      StepKeeps(r, first, Run(r, w, init), steps[|steps| - 1]);
    }
  }

  lemma {:induction false} ReachableInv(r: Remedy, first: Endpoint, steps: seq<Step>)
    requires r.before != r.desired
    ensures Inv(r, first, Run(r, Initial(first), steps))
  {
    hide Run, Apply;
    RunKeeps(r, first, Initial(first), steps);
  }

  // ----------------------------------------------------------------- theorems

  // The endpoint moves at most once, from before to desired.
  lemma {:induction false} AtMostOneMove(r: Remedy, first: Endpoint, steps: seq<Step>)
    requires r.before != r.desired
    ensures var w := Run(r, Initial(first), steps);
            && |w.log| <= 1
            && (forall i | 0 <= i < |w.log| :: w.log[i].from == r.before && w.log[i].to == r.desired)
            && (w.log == [] ==> w.endpoint == first)
  {
    hide Run, Apply, FlightOk, ExecutionOk;
    ReachableInv(r, first, steps);
  }

  // Success is never reported of any other state, and stays true.
  lemma {:induction false} SuccessIsExact(r: Remedy, first: Endpoint, steps: seq<Step>, more: seq<Step>, id: nat)
    requires r.before != r.desired
    requires At(Run(r, Initial(first), steps), id, Succeeded)
    ensures var action := Run(r, Initial(first), steps).executions[id].action;
            Run(r, Initial(first), steps + more).endpoint == Endpoint(r.desired, action)
  {
    hide Apply, LogOk, FlightOk, Run;
    ReachableInv(r, first, steps + more);
    StaysSucceeded(r, Initial(first), steps, more, id);
  }

  lemma {:induction false} StaysSucceeded(r: Remedy, w: World, steps: seq<Step>, more: seq<Step>, id: nat)
    requires At(Run(r, w, steps), id, Succeeded)
    ensures At(Run(r, w, steps + more), id, Succeeded)
    ensures Run(r, w, steps + more).executions[id].action == Run(r, w, steps).executions[id].action
  {
    if more == [] {
      assert steps + more == steps;
    } else {
      var init := more[..|more| - 1];
      StaysSucceeded(r, w, steps, init, id);
      assert (steps + more)[..|steps + more| - 1] == steps + init;
      assert (steps + more)[|steps + more| - 1] == more[|more| - 1];
      StepKeepsSuccess(r, Run(r, w, steps + init), more[|more| - 1], id);
    }
  }

  lemma StepKeepsSuccess(r: Remedy, w: World, step: Step, id: nat)
    requires At(w, id, Succeeded)
    ensures id in Apply(r, w, step).executions && Apply(r, w, step).executions[id] == w.executions[id]
  {
  }

  // Only one action can ever be reported as the one that worked.
  lemma {:induction false} OneWinner(r: Remedy, first: Endpoint, steps: seq<Step>, a: nat, b: nat)
    requires r.before != r.desired
    requires var w := Run(r, Initial(first), steps); At(w, a, Succeeded) && At(w, b, Succeeded)
    ensures var w := Run(r, Initial(first), steps); w.executions[a].action == w.executions[b].action
  {
    hide Run, Apply, LogOk, FlightOk;
    ReachableInv(r, first, steps);
  }

  // A change was asked for by a remediate step of a run that was not being
  // reconciled: verification and reconciliation only read.
  lemma {:induction false} ChangeWasAuthorized(r: Remedy, first: Endpoint, steps: seq<Step>)
    requires r.before != r.desired && Run(r, Initial(first), steps).log != []
    ensures var w := Run(r, Initial(first), steps);
            exists id | id in w.executions ::
              && w.executions[id].stage == Remediate && !w.executions[id].reconciling
              && w.executions[id].action == w.log[0].action
  {
    hide Run, Apply, ExecutionOk;
    ReachableInv(r, first, steps);
  }
}
