// What must have happened before the endpoint changed, step by step.
module RemedyTraces {
  import opened Remedy

  ghost predicate Began(steps: seq<Step>, id: nat, stage: Stage, action: string, reconciling: bool) {
    exists h | 0 <= h < |steps| :: steps[h] == Begin(id, stage, action, reconciling)
  }

  // A remediation that read the endpoint and has not asked the guard since.
  ghost predicate Looked(steps: seq<Step>, id: nat, action: string) {
    exists k | 0 <= k < |steps| ::
      && steps[k] == FirstRead(id, true) && Began(steps[..k], id, Stage.Remediate, action, false)
      && forall n | k < n < |steps| :: !(steps[n].Guard? && steps[n].id == id)
  }

  // The first guard it asked granted the write.
  ghost predicate Passed(steps: seq<Step>, id: nat, action: string) {
    exists i | 0 <= i < |steps| :: steps[i] == Guard(id, true) && Looked(steps[..i], id, action)
  }

  ghost predicate Wrote(steps: seq<Step>, id: nat, action: string) {
    exists j | 0 <= j < |steps| :: steps[j] == Send(id) && Passed(steps[..j], id, action)
  }

  ghost predicate Landed(steps: seq<Step>, action: string) {
    exists m, id | 0 <= m < |steps| :: steps[m].Arrive? && Wrote(steps[..m], id, action)
  }

  lemma {:induction false} TraceGrows(steps: seq<Step>, s: Step, id: nat, action: string)
    ensures Looked(steps, id, action) && !(s.Guard? && s.id == id) ==> Looked(steps + [s], id, action)
    ensures Passed(steps, id, action) ==> Passed(steps + [s], id, action)
    ensures Wrote(steps, id, action) ==> Wrote(steps + [s], id, action)
    ensures Landed(steps, action) ==> Landed(steps + [s], action)
  {
    hide Began;
    Prefixes(steps, s);
  }

  lemma Prefixes(steps: seq<Step>, s: Step)
    ensures forall n | 0 <= n < |steps| :: (steps + [s])[n] == steps[n] && (steps + [s])[..n] == steps[..n]
    ensures (steps + [s])[|steps|] == s && (steps + [s])[..|steps|] == steps
  {
  }

  // What the state of an execution tells of its steps.
  ghost predicate TraceOf(steps: seq<Step>, id: nat, e: Execution) {
    && Began(steps, id, e.stage, e.action, e.reconciling)
    && (e.phase == Unguarded ==> Looked(steps, id, e.action))
    && (e.phase == Allowed ==> Passed(steps, id, e.action))
  }

  ghost predicate Traced(steps: seq<Step>, w: World) {
    && (forall id | id in w.executions :: TraceOf(steps, id, w.executions[id]))
    && (forall p | p in w.flights :: exists id :: Wrote(steps, id, p.key))
    && (forall c | c in w.log :: Landed(steps, c.action))
  }

  // An execution that a step leaves alone keeps its trace.
  lemma {:induction false} TraceStays(steps: seq<Step>, s: Step, id: nat, e: Execution)
    requires TraceOf(steps, id, e) && !(s.Guard? && s.id == id && e.phase == Unguarded)
    ensures TraceOf(steps + [s], id, e)
  {
    hide Looked, Passed;
    Prefixes(steps, s);
    TraceGrows(steps, s, id, e.action);
  }

  lemma {:induction false} WritesStay(steps: seq<Step>, s: Step, w: World)
    requires Traced(steps, w)
    ensures forall p | p in w.flights :: exists id :: Wrote(steps + [s], id, p.key)
    ensures forall c | c in w.log :: Landed(steps + [s], c.action)
  {
    hide Wrote, Landed, TraceOf;
    forall p | p in w.flights ensures exists id :: Wrote(steps + [s], id, p.key) {
      var id :| Wrote(steps, id, p.key);
      TraceGrows(steps, s, id, p.key);
    }
    forall c | c in w.log ensures Landed(steps + [s], c.action) { TraceGrows(steps, s, 0, c.action); }
  }

  lemma {:induction false} OneTrace(r: Remedy, steps: seq<Step>, w: World, s: Step, id: nat)
    requires Traced(steps, w) && id in Apply(r, w, s).executions
    ensures TraceOf(steps + [s], id, Apply(r, w, s).executions[id])
  {
    hide Landed, Wrote;
    Prefixes(steps, s);
    var v := Apply(r, w, s);
    if id in w.executions && v.executions[id] == w.executions[id] {
      TraceStays(steps, s, id, w.executions[id]);
    } else if id in w.executions {
      Stepped(r, steps, w, s, id);
    }
  }

  lemma {:induction false} Stepped(r: Remedy, steps: seq<Step>, w: World, s: Step, id: nat)
    requires id in w.executions && TraceOf(steps, id, w.executions[id])
    requires id in Apply(r, w, s).executions && Apply(r, w, s).executions[id] != w.executions[id]
    ensures TraceOf(steps + [s], id, Apply(r, w, s).executions[id])
  {
    hide Landed, Wrote;
    Prefixes(steps, s);
    var e := Apply(r, w, s).executions[id];
    if s.FirstRead? && e.phase == Unguarded {
      assert (steps + [s])[|steps|] == FirstRead(id, true);
    }
    if s.Guard? && e.phase == Allowed {
      assert (steps + [s])[|steps|] == Guard(id, true);
    }
  }

  lemma {:induction false} SendTraced(r: Remedy, steps: seq<Step>, w: World, id: nat)
    requires Traced(steps, w) && At(w, id, Allowed)
    ensures Wrote(steps + [Send(id)], id, w.executions[id].action)
  {
    hide Passed;
    Prefixes(steps, Send(id));
    assert TraceOf(steps, id, w.executions[id]);
    assert (steps + [Send(id)])[|steps|] == Send(id);
  }

  lemma {:induction false} ArriveTraced(steps: seq<Step>, w: World, k: nat)
    requires Traced(steps, w) && k < |w.flights|
    ensures Landed(steps + [Arrive(k)], w.flights[k].key)
  {
    hide Wrote;
    Prefixes(steps, Arrive(k));
    assert w.flights[k] in w.flights;
    var id :| Wrote(steps, id, w.flights[k].key);
    assert (steps + [Arrive(k)])[|steps|].Arrive?;
  }

  lemma {:induction false} StepTraced(r: Remedy, steps: seq<Step>, w: World, s: Step)
    requires Traced(steps, w)
    ensures Traced(steps + [s], Apply(r, w, s))
  {
    hide Wrote, Landed, TraceOf;
    var v := Apply(r, w, s);
    forall id | id in v.executions ensures TraceOf(steps + [s], id, v.executions[id]) { OneTrace(r, steps, w, s, id); }
    WritesStay(steps, s, w);
    if s.Send? && At(w, s.id, Allowed) { SendTraced(r, steps, w, s.id); }
    if s.Arrive? && s.flight < |w.flights| { ArriveTraced(steps, w, s.flight); }
  }

  lemma {:induction false} RunTraced(r: Remedy, first: Endpoint, steps: seq<Step>)
    ensures Traced(steps, Run(r, Initial(first), steps))
  {
    hide Apply, TraceOf, Wrote, Landed;
    if steps != [] {
      var init, s := steps[..|steps| - 1], steps[|steps| - 1];
      RunTraced(r, first, init);
      StepTraced(r, init, Run(r, Initial(first), init), s);
      assert steps == init + [s];
    }
  }

  // If the endpoint changed, a remediation of that action began outside any
  // read-back, read the endpoint, was granted the write by the first guard it
  // asked, sent it, and it arrived, in this order.
  lemma {:induction false} ChangeWasGuarded(r: Remedy, first: Endpoint, steps: seq<Step>)
    returns (id: nat, h: nat, k: nat, i: nat, j: nat, m: nat)
    requires Run(r, Initial(first), steps).log != []
    ensures h < k < i < j < m < |steps|
    ensures steps[h] == Begin(id, Stage.Remediate, Run(r, Initial(first), steps).log[0].action, false)
    ensures steps[k] == FirstRead(id, true) && steps[i] == Guard(id, true) && steps[j] == Send(id) && steps[m].Arrive?
    ensures forall n | k < n < i :: !(steps[n].Guard? && steps[n].id == id)
  {
    hide Run, TraceOf;
    RunTraced(r, first, steps);
    var w := Run(r, Initial(first), steps);
    assert w.log[0] in w.log;
    id, h, k, i, j, m := Unfolded(steps, w.log[0].action);
  }

  lemma {:induction false} Unfolded(steps: seq<Step>, action: string)
    returns (id: nat, h: nat, k: nat, i: nat, j: nat, m: nat)
    requires Landed(steps, action)
    ensures h < k < i < j < m < |steps|
    ensures steps[h] == Begin(id, Stage.Remediate, action, false)
    ensures steps[k] == FirstRead(id, true) && steps[i] == Guard(id, true) && steps[j] == Send(id) && steps[m].Arrive?
    ensures forall n | k < n < i :: !(steps[n].Guard? && steps[n].id == id)
  {
    hide Looked, Began;
    m, id :| 0 <= m < |steps| && steps[m].Arrive? && Wrote(steps[..m], id, action);
    j :| 0 <= j < m && steps[..m][j] == Send(id) && Passed(steps[..m][..j], id, action);
    assert steps[..m][..j] == steps[..j];
    i :| 0 <= i < j && steps[..j][i] == Guard(id, true) && Looked(steps[..j][..i], id, action);
    assert steps[..j][..i] == steps[..i];
    h, k := UnfoldedLook(steps[..i], id, action);
    forall n | k < n < i ensures !(steps[n].Guard? && steps[n].id == id) { assert steps[..i][n] == steps[n]; }
  }

  lemma {:induction false} UnfoldedLook(steps: seq<Step>, id: nat, action: string) returns (h: nat, k: nat)
    requires Looked(steps, id, action)
    ensures h < k < |steps| && steps[h] == Begin(id, Stage.Remediate, action, false) && steps[k] == FirstRead(id, true)
    ensures forall n | k < n < |steps| :: !(steps[n].Guard? && steps[n].id == id)
  {
    k :| 0 <= k < |steps| && steps[k] == FirstRead(id, true) && Began(steps[..k], id, Stage.Remediate, action, false)
         && forall n | k < n < |steps| :: !(steps[n].Guard? && steps[n].id == id);
    h :| 0 <= h < k && steps[..k][h] == Begin(id, Stage.Remediate, action, false);
  }
}
