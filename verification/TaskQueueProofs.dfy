// What every run of the task queue keeps.
module TaskQueueProofs {
  import opened Wrappers
  import opened TaskQueue

  predicate Edge(from: TaskState, kind: EventType, to: TaskState) {
    exists route, manual :: Target(from, route, manual, kind) == Some(to)
  }

  lemma EdgeFacts(from: TaskState, kind: EventType, to: TaskState)
    requires Edge(from, kind, to)
    ensures !Ended(from) && to != Queued && from != Blocked
    ensures from == Queued ==> kind == TaskActivated || to == Rejected
    ensures kind == TaskActivated ==> from == Queued && to == LocalExecution
  {
    var route, manual :| Target(from, route, manual, kind) == Some(to);
  }

  // The events of a task follow each other, one for each version.
  predicate Chained(events: seq<Event>, state: TaskState) {
    && events != [] && events[0].kind == TaskQueued && events[0].from.None? && events[0].to == Queued
    && events[|events| - 1].to == state
    && forall i | 0 < i < |events| ::
         events[i].from == Some(events[i - 1].to) && Edge(events[i - 1].to, events[i].kind, events[i].to)
  }

  predicate TaskOk(t: Task) {
    && t.version == |t.events| && Chained(t.events, t.state)
    && (t.state == Queued ==> t.version == 1)
    && forall i, j | 0 <= i < j < |t.events| :: t.events[i].key != t.events[j].key
  }

  predicate TasksOk(tasks: Tasks) { forall i | 0 <= i < |tasks| :: TaskOk(tasks[i]) }

  // Ordinals grow from one task of a workflow to the next.
  predicate Ordered(tasks: Tasks) {
    forall i, j | 0 <= i < j < |tasks| && tasks[i].workflow == tasks[j].workflow :: tasks[i].ordinal < tasks[j].ordinal
  }

  predicate OneActive(tasks: Tasks) {
    forall i, j | 0 <= i < j < |tasks| && tasks[i].workflow == tasks[j].workflow ::
      !(Active(tasks[i].state) && Active(tasks[j].state))
  }

  // A task key names one task of a workflow.
  predicate KeysUnique(tasks: Tasks) {
    forall i, j | 0 <= i < j < |tasks| && tasks[i].workflow == tasks[j].workflow :: tasks[i].taskKey != tasks[j].taskKey
  }

  predicate RequestOk(tasks: Tasks, p: Flight) {
    var r := p.request;
    && r.task < |tasks| && Edge(r.expectedState, r.kind, r.to)
    && (p.picked && r.kind == TaskActivated && tasks[r.task].state == Queued ==>
          IsHead(tasks, tasks[r.task].workflow, r.task))
  }

  predicate RequestsOk(tasks: Tasks, pending: seq<Flight>) {
    forall k | 0 <= k < |pending| :: RequestOk(tasks, pending[k])
  }

  // Activations went in the order of the queue, and left nothing queued behind.
  predicate LogOk(tasks: Tasks, activated: seq<nat>) {
    && (forall a | 0 <= a < |activated| :: activated[a] < |tasks| && tasks[activated[a]].state != Queued)
    && (forall a, b | 0 <= a < b < |activated| && tasks[activated[a]].workflow == tasks[activated[b]].workflow ::
          tasks[activated[a]].ordinal < tasks[activated[b]].ordinal)
    && (forall a, i | 0 <= a < |activated| && 0 <= i < |tasks| && tasks[i].workflow == tasks[activated[a]].workflow
          && tasks[i].state == Queued :: tasks[activated[a]].ordinal < tasks[i].ordinal)
  }

  predicate Inv(w: World) {
    && TasksOk(w.tasks) && Ordered(w.tasks) && OneActive(w.tasks) && KeysUnique(w.tasks)
    && RequestsOk(w.tasks, w.pending) && LogOk(w.tasks, w.activated)
  }

  // ------------------------------------------------------------------ Submit

  lemma {:induction false} MaxIsAbove(tasks: Tasks, workflow: string)
    ensures forall i | 0 <= i < |tasks| && tasks[i].workflow == workflow ::
              tasks[i].ordinal <= MaxOrdinal(tasks, workflow)
  {
    if tasks != [] {
      MaxIsAbove(tasks[..|tasks| - 1], workflow);
      assert forall i | 0 <= i < |tasks| - 1 :: tasks[i] == tasks[..|tasks| - 1][i];
    }
  }

  lemma NewTaskOk(d: Draft, ordinal: nat)
    ensures TaskOk(NewTask(d, ordinal))
  {
  }

  lemma {:induction false} HeadStays(tasks: Tasks, t: Task, workflow: string, i: nat)
    requires IsHead(tasks, workflow, i) && t.state == Queued
    requires t.workflow == workflow ==>
               forall j | 0 <= j < |tasks| && tasks[j].workflow == workflow :: tasks[j].ordinal < t.ordinal
    ensures IsHead(tasks + [t], workflow, i)
  {
    assert forall j | 0 <= j < |tasks| :: (tasks + [t])[j] == tasks[j];
  }

  lemma {:induction false} RequestsKeep(tasks: Tasks, t: Task, pending: seq<Flight>)
    requires RequestsOk(tasks, pending) && t.state == Queued
    requires forall j | 0 <= j < |tasks| && tasks[j].workflow == t.workflow :: tasks[j].ordinal < t.ordinal
    ensures RequestsOk(tasks + [t], pending)
  {
    hide IsHead, Edge;
    forall i | 0 <= i < |pending| ensures RequestOk(tasks + [t], pending[i]) {
      assert RequestOk(tasks, pending[i]);
      var r := pending[i].request;
      assert (tasks + [t])[r.task] == tasks[r.task];
      if pending[i].picked && r.kind == TaskActivated && tasks[r.task].state == Queued {
        HeadStays(tasks, t, tasks[r.task].workflow, r.task);
      }
    }
  }

  lemma {:induction false} TasksGrow(tasks: Tasks, t: Task, activated: seq<nat>)
    requires TasksOk(tasks) && Ordered(tasks) && OneActive(tasks) && KeysUnique(tasks) && LogOk(tasks, activated)
    requires TaskOk(t) && t.state == Queued
    requires forall j | 0 <= j < |tasks| && tasks[j].workflow == t.workflow ::
               tasks[j].ordinal < t.ordinal && tasks[j].taskKey != t.taskKey
    ensures TasksOk(tasks + [t]) && Ordered(tasks + [t]) && OneActive(tasks + [t]) && KeysUnique(tasks + [t])
    ensures LogOk(tasks + [t], activated)
  {
    hide TaskOk;
    assert forall j | 0 <= j < |tasks| :: (tasks + [t])[j] == tasks[j];
  }

  lemma {:induction false} SubmitKeeps(w: World, d: Draft, known: bool)
    requires Inv(w)
    ensures Inv(Apply(w, Submit(d, known)))
  {
    hide IsHead, TaskOk, TasksOk, Ordered, OneActive, KeysUnique, LogOk, RequestsOk;
    var k := FindKey(w.tasks, d.workflow, d.taskKey, 0);
    if known && k == |w.tasks| {
      MaxIsAbove(w.tasks, d.workflow);
      var t := NewTask(d, MaxOrdinal(w.tasks, d.workflow) + 1);
      NewTaskOk(d, t.ordinal);
      assert forall i | 0 <= i < |w.tasks| :: !HasKey(w.tasks[i], d.workflow, d.taskKey);
      RequestsKeep(w.tasks, t, w.pending);
      TasksGrow(w.tasks, t, w.activated);
    }
  }

  // --------------------------------------------------------- Prepare and Pick

  lemma {:induction false} PrepareKeeps(w: World, task: nat, kind: EventType, expectedVersion: nat, key: string,
                                        permitted: bool)
    requires Inv(w)
    ensures Inv(Prepared(w, task, kind, expectedVersion, key, permitted))
  {
    hide TasksOk, Ordered, OneActive, KeysUnique, LogOk, IsHead, Target;
    if task < |w.tasks| && expectedVersion >= 1 {
      var t := w.tasks[task];
      var to := Target(t.state, t.route, t.manual, kind);
      if to.Some? {
        assert Edge(t.state, kind, to.value);
        var r := Request(task, kind, t.state, to.value, expectedVersion, key, None);
        assert RequestOk(w.tasks, InFlight(r, kind != TaskActivated));
      }
    }
  }

  lemma {:induction false} PickKeeps(w: World, k: nat, route: Route)
    requires Inv(w)
    ensures Inv(Picked(w, k, route))
  {
    hide TasksOk, Ordered, OneActive, KeysUnique, LogOk, IsHead, Edge;
  }

  // ------------------------------------------------------------------ Commit

  // The request that is applied: an edge from the task's present state.
  predicate Sound(tasks: Tasks, r: Request) {
    && Current(tasks, r) && Edge(r.expectedState, r.kind, r.to)
    && (r.kind == TaskActivated ==> IsHead(tasks, tasks[r.task].workflow, r.task))
  }

  lemma {:induction false} FreshKey(events: seq<Event>, key: string)
    requires FindEvent(events, key).None?
    ensures forall i | 0 <= i < |events| :: events[i].key != key
  {
    if events != [] {
      FreshKey(events[..|events| - 1], key);
      assert forall i | 0 <= i < |events| - 1 :: events[i] == events[..|events| - 1][i];
    }
  }

  lemma {:induction false} ChainGrows(events: seq<Event>, state: TaskState, event: Event)
    requires Chained(events, state) && event.from == Some(state) && Edge(state, event.kind, event.to)
    ensures Chained(events + [event], event.to)
  {
    hide Edge;
    var more := events + [event];
    assert forall i | 0 <= i < |events| :: more[i] == events[i];
  }

  lemma {:induction false} MovedOk(tasks: Tasks, r: Request)
    requires r.task < |tasks| && TaskOk(tasks[r.task]) && Sound(tasks, r)
    requires FindEvent(tasks[r.task].events, r.key).None?
    ensures TaskOk(Moved(tasks[r.task], r))
  {
    hide Edge, IsHead, Chained;
    var events := tasks[r.task].events;
    FreshKey(events, r.key);
    EdgeFacts(r.expectedState, r.kind, r.to);
    ChainGrows(events, r.expectedState, Event(r.kind, Some(r.expectedState), r.to, r.key));
  }

  // The state of one task changes along an edge, and nothing else that the
  // order of the queue depends on.
  predicate MovesOne(before: Tasks, after: Tasks, i: nat) {
    && |after| == |before| && i < |before|
    && (forall j | 0 <= j < |before| && j != i :: after[j] == before[j])
    && after[i].workflow == before[i].workflow && after[i].ordinal == before[i].ordinal
    && after[i].taskKey == before[i].taskKey
    && after[i].state != Queued && !Ended(before[i].state)
  }

  lemma {:induction false} OrderStays(before: Tasks, after: Tasks, i: nat)
    requires MovesOne(before, after, i) && Ordered(before) && KeysUnique(before)
    ensures Ordered(after) && KeysUnique(after)
  {
    assert forall j | 0 <= j < |before| ::
        && after[j].workflow == before[j].workflow && after[j].ordinal == before[j].ordinal
        && after[j].taskKey == before[j].taskKey;
  }

  // An activation is of the head, so nothing else was active.
  lemma {:induction false} OneActiveStays(before: Tasks, after: Tasks, i: nat)
    requires MovesOne(before, after, i) && OneActive(before)
    requires Active(before[i].state) || !Active(after[i].state) || IsHead(before, before[i].workflow, i)
    ensures OneActive(after)
  {
    forall a, b | 0 <= a < b < |after| && after[a].workflow == after[b].workflow
      ensures !(Active(after[a].state) && Active(after[b].state))
    {
      assert before[a].workflow == before[b].workflow;
    }
  }

  lemma {:induction false} HeadSurvives(before: Tasks, after: Tasks, i: nat, workflow: string, h: nat)
    requires MovesOne(before, after, i) && IsHead(before, workflow, h) && h != i && Ordered(before)
    requires before[i].state == Queued && Active(after[i].state) ==> IsHead(before, before[i].workflow, i)
    ensures IsHead(after, workflow, h)
  {
    if before[i].workflow == workflow {
      if before[i].state == Queued && Active(after[i].state) {
        assert false;
      }
    }
  }

  lemma {:induction false} LogStays(before: Tasks, after: Tasks, i: nat, activated: seq<nat>)
    requires MovesOne(before, after, i) && LogOk(before, activated)
    ensures LogOk(after, activated)
  {
    assert forall j | 0 <= j < |before| ::
        after[j].workflow == before[j].workflow && after[j].ordinal == before[j].ordinal;
    assert forall j | 0 <= j < |after| && after[j].state == Queued :: before[j].state == Queued;
  }

  lemma {:induction false} LogGrows(before: Tasks, after: Tasks, i: nat, activated: seq<nat>)
    requires MovesOne(before, after, i) && LogOk(before, activated) && Ordered(before)
    requires IsHead(before, before[i].workflow, i)
    ensures LogOk(after, activated + [i])
  {
    LogStays(before, after, i, activated);
    forall j | 0 <= j < |after| && after[j].workflow == after[i].workflow && after[j].state == Queued
      ensures after[i].ordinal < after[j].ordinal
    {
      assert before[i].ordinal <= before[j].ordinal;
      if j < i { assert false; }
    }
    assert forall j | 0 <= j < |before| ::
        after[j].workflow == before[j].workflow && after[j].ordinal == before[j].ordinal;
  }

  lemma {:induction false} RequestsStay(before: Tasks, after: Tasks, i: nat, pending: seq<Flight>)
    requires MovesOne(before, after, i) && RequestsOk(before, pending) && Ordered(before)
    requires before[i].state == Queued && Active(after[i].state) ==> IsHead(before, before[i].workflow, i)
    ensures RequestsOk(after, pending)
  {
    hide IsHead, Edge, Ordered;
    forall k | 0 <= k < |pending| ensures RequestOk(after, pending[k]) {
      assert RequestOk(before, pending[k]);
      var r := pending[k].request;
      if r.task != i && pending[k].picked && r.kind == TaskActivated && after[r.task].state == Queued {
        HeadSurvives(before, after, i, before[r.task].workflow, r.task);
      }
    }
  }

  lemma {:induction false} SoundMoves(tasks: Tasks, r: Request)
    requires Sound(tasks, r)
    ensures MovesOne(tasks, tasks[r.task := Moved(tasks[r.task], r)], r.task)
    ensures Active(tasks[r.task].state) || !Active(r.to) || IsHead(tasks, tasks[r.task].workflow, r.task)
    ensures tasks[r.task].state == Queued && Active(r.to) ==> r.kind == TaskActivated
  {
    hide Edge, IsHead;
    EdgeFacts(r.expectedState, r.kind, r.to);
  }

  lemma {:induction false} CommitKeeps(w: World, k: nat, evidence: bool)
    requires Inv(w)
    ensures Inv(Committed(w, k, evidence))
  {
    hide TaskOk, Ordered, OneActive, KeysUnique, LogOk, Edge, IsHead, MovesOne, Moved;
    if k < |w.pending| && w.pending[k].picked && Applies(w.tasks, w.pending[k].request, evidence) {
      var r := w.pending[k].request;
      var after := w.tasks[r.task := Moved(w.tasks[r.task], r)];
      assert RequestOk(w.tasks, w.pending[k]);
      if r.kind == TaskActivated { EdgeFacts(r.expectedState, r.kind, r.to); }
      assert Sound(w.tasks, r);
      assert TaskOk(w.tasks[r.task]);
      MovedOk(w.tasks, r);
      SoundMoves(w.tasks, r);
      assert after[r.task].state == r.to by { MovedState(w.tasks[r.task], r); }
      OrderStays(w.tasks, after, r.task);
      OneActiveStays(w.tasks, after, r.task);
      RequestsStay(w.tasks, after, r.task, w.pending);
      if r.kind == TaskActivated { LogGrows(w.tasks, after, r.task, w.activated); }
      else { LogStays(w.tasks, after, r.task, w.activated); }
    }
  }

  lemma MovedState(t: Task, r: Request)
    ensures Moved(t, r).state == r.to
  {
  }

  // ------------------------------------------------------------------ all runs

  lemma {:induction false} StepKeeps(w: World, step: Step)
    requires Inv(w)
    ensures Inv(Apply(w, step))
  {
    hide Inv, Create, Prepared, Picked, Committed;
    match step
    case Submit(d, known) => SubmitKeeps(w, d, known);
    case Prepare(task, kind, expectedVersion, key, permitted) =>
      PrepareKeeps(w, task, kind, expectedVersion, key, permitted);
    case Pick(k, route) => PickKeeps(w, k, route);
    case Commit(k, evidence) => CommitKeeps(w, k, evidence);
  }

  lemma {:induction false} RunKeeps(w: World, steps: seq<Step>)
    requires Inv(w)
    ensures Inv(Run(w, steps))
  {
    hide Inv, Apply;
    if steps != [] {
      RunKeeps(w, steps[..|steps| - 1]);
      StepKeeps(Run(w, steps[..|steps| - 1]), steps[|steps| - 1]);
    }
  }

  lemma {:induction false} ReachableInv(steps: seq<Step>)
    ensures Inv(Run(EMPTY, steps))
  {
    hide Run, Apply;
    RunKeeps(EMPTY, steps);
  }

  // ----------------------------------------------------------------- theorems

  // Whatever was interleaved since it was picked, an activation that can still
  // be committed is of the queue's head, and nothing is active.
  lemma {:induction false} CurrentPickIsHead(steps: seq<Step>, k: nat)
    requires var w := Run(EMPTY, steps);
             k < |w.pending| && w.pending[k].picked && w.pending[k].request.kind == TaskActivated
             && Current(w.tasks, w.pending[k].request)
    ensures var w := Run(EMPTY, steps);
            IsHead(w.tasks, w.tasks[w.pending[k].request.task].workflow, w.pending[k].request.task)
  {
    hide Run, Apply, Edge, IsHead, TasksOk, Ordered, OneActive, KeysUnique, LogOk;
    ReachableInv(steps);
    var w := Run(EMPTY, steps);
    assert RequestOk(w.tasks, w.pending[k]);
    EdgeFacts(w.pending[k].request.expectedState, w.pending[k].request.kind, w.pending[k].request.to);
  }

  // At most one task of a workflow is active, and activations go in the order
  // the tasks were queued.
  lemma {:induction false} FirstInFirstOut(steps: seq<Step>)
    ensures var w := Run(EMPTY, steps);
            && OneActive(w.tasks)
            && (forall a | 0 <= a < |w.activated| :: w.activated[a] < |w.tasks|)
            && (forall a, b | 0 <= a < b < |w.activated|
                  && w.tasks[w.activated[a]].workflow == w.tasks[w.activated[b]].workflow ::
                  w.tasks[w.activated[a]].ordinal < w.tasks[w.activated[b]].ordinal)
  {
    hide Run, Apply, TasksOk, Ordered, OneActive, KeysUnique, RequestsOk;
    ReachableInv(steps);
  }

  // When a task is activated, everything queued before it has ended.
  lemma {:induction false} EarlierHaveEnded(steps: seq<Step>, k: nat, evidence: bool, j: nat)
    requires var w := Run(EMPTY, steps);
             k < |w.pending| && w.pending[k].picked && w.pending[k].request.kind == TaskActivated
             && Applies(w.tasks, w.pending[k].request, evidence)
             && j < |w.tasks| && w.tasks[j].workflow == w.tasks[w.pending[k].request.task].workflow
             && w.tasks[j].ordinal < w.tasks[w.pending[k].request.task].ordinal
    ensures Ended(Run(EMPTY, steps).tasks[j].state)
  {
    hide Run, Apply;
    CurrentPickIsHead(steps, k);
  }

  // A task's history is a path of the transition table from queued to its
  // state, one event for each version.
  lemma {:induction false} HistoryIsPath(steps: seq<Step>, i: nat)
    requires i < |Run(EMPTY, steps).tasks|
    ensures TaskOk(Run(EMPTY, steps).tasks[i])
  {
    hide Run, Apply, Ordered, OneActive, KeysUnique, LogOk, RequestsOk, TaskOk;
    ReachableInv(steps);
  }

  // ------------------------------------------------------------- repetitions

  // A submission or a transition that succeeded can be repeated: the answer
  // is the same and nothing changes.
  lemma {:induction false} CreateTwice(tasks: Tasks, d: Draft)
    requires Create(tasks, d, true).1.Ok?
    ensures var (once, answer) := Create(tasks, d, true);
            Create(once, d, true) == (once, answer)
  {
    var (once, answer) := Create(tasks, d, true);
    var k := FindKey(tasks, d.workflow, d.taskKey, 0);
    if k == |tasks| {
      var again := FindKey(once, d.workflow, d.taskKey, 0);
      assert forall i | 0 <= i < |tasks| :: once[i] == tasks[i];
      assert HasKey(once[k], d.workflow, d.taskKey);
      assert again == k;
    }
  }

  lemma {:induction false} TransitionTwice(tasks: Tasks, r: Request, evidence: bool, again: bool)
    requires Transition(tasks, r, evidence).1.Ok?
    ensures var (once, answer) := Transition(tasks, r, evidence);
            Transition(once, r, again) == (once, answer)
  {
  }

  // ------------------------------------------------------------- a stuck queue

  lemma {:induction false} BlockedStops(w: World, step: Step, i: nat)
    requires Inv(w) && i < |w.tasks| && w.tasks[i].state == Blocked
    ensures var v := Apply(w, step);
            && i < |v.tasks| && v.tasks[i].state == Blocked && v.tasks[i].workflow == w.tasks[i].workflow
            && (v.activated != w.activated ==>
                  v.activated == w.activated + [v.activated[|w.activated|]] && v.activated[|w.activated|] < |w.tasks|
                  && w.tasks[v.activated[|w.activated|]].workflow != w.tasks[i].workflow)
  {
    hide TasksOk, Ordered, OneActive, KeysUnique, LogOk, Edge;
    if step.Commit? && step.k < |w.pending| {
      var r := w.pending[step.k].request;
      assert RequestOk(w.tasks, w.pending[step.k]);
      EdgeFacts(r.expectedState, r.kind, r.to);
    }
  }

  // The tasks of a workflow activated in a run.
  function ActivatedIn(w: World, workflow: string, upTo: nat): seq<nat>
    requires upTo <= |w.activated|
  {
    if upTo == 0 then []
    else
      var id := w.activated[upTo - 1];
      ActivatedIn(w, workflow, upTo - 1)
      + if id < |w.tasks| && w.tasks[id].workflow == workflow then [id] else []
  }

  lemma {:induction false} SameActivated(w: World, v: World, workflow: string, upTo: nat)
    requires upTo <= |w.activated| && upTo <= |v.activated| && w.activated[..upTo] == v.activated[..upTo]
    requires |w.tasks| <= |v.tasks| && forall i | 0 <= i < |w.tasks| :: w.tasks[i].workflow == v.tasks[i].workflow
    requires LogOk(w.tasks, w.activated)
    ensures ActivatedIn(w, workflow, upTo) == ActivatedIn(v, workflow, upTo)
  {
    hide LogOk;
    if upTo > 0 {
      assert w.activated[..upTo][..upTo - 1] == w.activated[..upTo - 1];
      assert v.activated[..upTo][..upTo - 1] == v.activated[..upTo - 1];
      SameActivated(w, v, workflow, upTo - 1);
      assert w.activated[upTo - 1] == w.activated[..upTo][upTo - 1];
      assert v.activated[upTo - 1] == v.activated[..upTo][upTo - 1];
      LoggedTask(w.tasks, w.activated, upTo - 1);
    }
  }

  lemma LoggedTask(tasks: Tasks, activated: seq<nat>, a: nat)
    requires LogOk(tasks, activated) && a < |activated|
    ensures activated[a] < |tasks|
  {
  }

  lemma {:induction false} WorkflowsStay(w: World, step: Step)
    ensures |w.tasks| <= |Apply(w, step).tasks|
    ensures forall i | 0 <= i < |w.tasks| :: Apply(w, step).tasks[i].workflow == w.tasks[i].workflow
    ensures w.activated <= Apply(w, step).activated
  {
  }

  // No event leaves the blocked state, and it counts as active: once a task is
  // blocked no task of its workflow is ever activated again.
  lemma {:induction false} BlockedForever(w: World, steps: seq<Step>, i: nat)
    requires Inv(w) && i < |w.tasks| && w.tasks[i].state == Blocked
    ensures var v := Run(w, steps);
            && i < |v.tasks| && v.tasks[i].state == Blocked && v.tasks[i].workflow == w.tasks[i].workflow
            && ActivatedIn(v, w.tasks[i].workflow, |v.activated|) == ActivatedIn(w, w.tasks[i].workflow, |w.activated|)
  {
    hide Inv, Apply;
    if steps != [] {
      var u := Run(w, steps[..|steps| - 1]);
      BlockedForever(w, steps[..|steps| - 1], i);
      RunKeeps(w, steps[..|steps| - 1]);
      BlockedOnce(u, steps[|steps| - 1], i);
    }
  }

  lemma {:induction false} BlockedOnce(w: World, step: Step, i: nat)
    requires Inv(w) && i < |w.tasks| && w.tasks[i].state == Blocked
    ensures var v := Apply(w, step);
            && i < |v.tasks| && v.tasks[i].state == Blocked && v.tasks[i].workflow == w.tasks[i].workflow
            && ActivatedIn(v, w.tasks[i].workflow, |v.activated|) == ActivatedIn(w, w.tasks[i].workflow, |w.activated|)
  {
    hide TasksOk, Ordered, OneActive, KeysUnique, RequestsOk, LogOk, Apply;
    var v := Apply(w, step);
    BlockedStops(w, step, i);
    WorkflowsStay(w, step);
    SameActivated(w, v, w.tasks[i].workflow, |w.activated|);
  }
}
