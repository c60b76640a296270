// The task checkpoints of the database, and the transactions on them.
module TaskStore {
  import opened Wrappers
  import opened TaskQueue
  import opened TaskQueueProofs
  import opened TaskQueueHistory

  class Store {
    var tasks: Tasks
    // The transitions that callers have under way, and the activations made.
    ghost var pending: seq<Flight>
    ghost var activated: seq<nat>

    ghost function State(): World
      reads this
    {
      World(tasks, pending, activated)
    }

    ghost predicate Valid()
      reads this
    {
      Inv(State()) && AllRouted(tasks) && AllFlightsRouted(State())
    }

    constructor ()
      ensures Valid() && State() == EMPTY
    {
      tasks, pending, activated := [], [], [];
    }

    method CreateWorkflowTask(d: Draft, known: bool) returns (r: Result<nat, TaskError>)
      requires Valid()
      modifies this
      ensures Valid() && State() == Apply(old(State()), Submit(d, known))
      ensures r == Create(old(tasks), d, known).1
    {
      hide Inv, AllRouted, AllFlightsRouted;
      StepKeeps(State(), Submit(d, known));
      StepRouted(State(), Submit(d, known));
      if !known { return Err(NotFound); }
      var ordinal := 0;
      for i := 0 to |tasks|
        invariant tasks == old(tasks) && pending == old(pending) && activated == old(activated)
        invariant forall j | 0 <= j < i :: !HasKey(tasks[j], d.workflow, d.taskKey)
        invariant ordinal == MaxOrdinal(tasks[..i], d.workflow)
      {
        var task := tasks[i];
        if task.workflow == d.workflow && task.taskKey == d.taskKey {
          assert FindKey(tasks, d.workflow, d.taskKey, 0) == i;
          return if task.payload == d.payload && task.manual == d.manual then Ok(i) else Err(KeyReused);
        }
        assert tasks[..i + 1][..i] == tasks[..i];
        if task.workflow == d.workflow && task.ordinal > ordinal { ordinal := task.ordinal; }
      }
      assert tasks[..|tasks|] == tasks;
      tasks := tasks + [NewTask(d, ordinal + 1)];
      return Ok(|tasks| - 1);
    }

    method GetActivatableWorkflowTask(workflow: string) returns (head: Option<nat>)
      ensures head.Some? ==> IsHead(tasks, workflow, head.value)
      ensures head.None? ==> forall i :: !IsHead(tasks, workflow, i)
    {
      head := None;
      for i := 0 to |tasks|
        invariant forall j | 0 <= j < i && tasks[j].workflow == workflow :: !Active(tasks[j].state)
        invariant head.None? ==> forall j | 0 <= j < i && tasks[j].workflow == workflow :: tasks[j].state != Queued
        invariant head.Some? ==>
                    head.value < i && tasks[head.value].workflow == workflow && tasks[head.value].state == Queued
        invariant head.Some? ==> forall j | 0 <= j < i && tasks[j].workflow == workflow && tasks[j].state == Queued ::
                    tasks[head.value].ordinal <= tasks[j].ordinal
      {
        var task := tasks[i];
        if task.workflow == workflow {
          if Active(task.state) { return None; }
          if task.state == Queued && (head.None? || task.ordinal < tasks[head.value].ordinal) { head := Some(i); }
        }
      }
    }

    // The caller reads the task and works out the transition it will ask for:
    // of an event that may follow the task's last one, and is permitted.
    method Prepare(id: nat, kind: EventType, expectedVersion: nat, key: string, permitted: bool)
      returns (r: Result<Request, TaskError>)
      requires Valid()
      modifies this
      ensures Valid() && State() == Prepared(old(State()), id, kind, expectedVersion, key, permitted)
      ensures r.Ok? ==> permitted && pending == old(pending) + [InFlight(r.value, kind != TaskActivated)]
      ensures id >= |tasks| ==> r == Err(NotFound)
      ensures id < |tasks| ==>
                var t := tasks[id];
                && t.events != []
                && if expectedVersion < 1 || kind !in After(t.events[|t.events| - 1].kind, t.route, t.manual) then
                     r == Err(InvalidEvent)
                   else if !permitted then r == Err(NotPermitted)
                   else
                     && r.Ok? && r.value.task == id && r.value.kind == kind && r.value.expectedState == t.state
                     && r.value.expectedVersion == expectedVersion && r.value.key == key
    {
      hide Inv, AllRouted, AllFlightsRouted, After, Target;
      PrepareKeeps(State(), id, kind, expectedVersion, key, permitted);
      StepRouted(State(), Step.Prepare(id, kind, expectedVersion, key, permitted));
      if id >= |tasks| { return Err(NotFound); }
      Following(id);
      if expectedVersion < 1 { return Err(InvalidEvent); }
      var task := tasks[id];
      var to := Target(task.state, task.route, task.manual, kind);
      if to.None? { return Err(InvalidEvent); }
      if !permitted { return Err(NotPermitted); }
      var request := Request(id, kind, task.state, to.value, expectedVersion, key, None);
      pending := pending + [InFlight(request, kind != TaskActivated)];
      return Ok(request);
    }

    lemma Following(id: nat)
      requires Valid() && id < |tasks|
      ensures var t := tasks[id];
              && t.events != []
              && forall next :: next in After(t.events[|t.events| - 1].kind, t.route, t.manual) <==>
                                Target(t.state, t.route, t.manual, next).Some?
    {
      hide Target, After, Edge;
      assert TaskOk(tasks[id]) && Routed(tasks[id]);
      RoutedFollows(tasks[id]);
    }

    // An activation goes on only if the task is the head of its queue.
    method PickHead(ghost k: nat, request: Request, route: Route) returns (r: Option<Request>)
      requires Valid() && k < |pending| && !pending[k].picked && pending[k].request == request
      modifies this
      ensures Valid() && State() == Picked(old(State()), k, route)
      ensures r.Some? <==> pending[k].picked
      ensures r.Some? ==> pending[k].request == r.value
    {
      hide Inv, IsHead, AllRouted, AllFlightsRouted;
      PickKeeps(State(), k, route);
      StepRouted(State(), Pick(k, route));
      KnownTask(k);
      var head := GetActivatableWorkflowTask(tasks[request.task].workflow);
      if head != Some(request.task) {
        if head.Some? && IsHead(tasks, tasks[request.task].workflow, request.task) {
          HeadIsOne(head.value, request.task);
        }
        return None;
      }
      pending := pending[k := InFlight(request.(route := Some(route)), true)];
      return Some(request.(route := Some(route)));
    }

    lemma KnownTask(k: nat)
      requires Valid() && k < |pending|
      ensures pending[k].request.task < |tasks|
    {
      assert RequestOk(tasks, pending[k]);
    }

    lemma {:induction false} HeadIsOne(a: nat, b: nat)
      requires Valid() && a < |tasks| && b < |tasks| && tasks[a].workflow == tasks[b].workflow
      requires IsHead(tasks, tasks[a].workflow, a) && IsHead(tasks, tasks[a].workflow, b)
      ensures a == b
    {
      assert tasks[a].ordinal == tasks[b].ordinal;
    }

    method TransitionWorkflowTask(ghost k: nat, request: Request, evidence: bool) returns (r: Result<Event, TaskError>)
      requires Valid() && k < |pending| && pending[k] == InFlight(request, true)
      modifies this
      ensures Valid() && State() == Committed(old(State()), k, evidence)
      ensures r == Transition(old(tasks), request, evidence).1
    {
      hide Inv, AllRouted, AllFlightsRouted;
      CommitKeeps(State(), k, evidence);
      StepRouted(State(), Commit(k, evidence));
      KnownTask(k);
      var task := tasks[request.task];
      var event := FindEvent(task.events, request.key);
      if event.Some? {
        if event.value.kind != request.kind || event.value.to != request.to { return Err(KeyReused); }
        return Ok(event.value);
      }
      if task.version != request.expectedVersion || task.state != request.expectedState { return Err(Conflict); }
      if !evidence { return Err(EvidenceRejected); }
      var recorded := Event(request.kind, Some(request.expectedState), request.to, request.key);
      tasks := tasks[request.task := task.(state := request.to, version := task.version + 1,
                                           route := if request.route.Some? then request.route.value else task.route,
                                           events := task.events + [recorded])];
      if request.kind == TaskActivated { activated := activated + [request.task]; }
      return Ok(recorded);
    }
  }
}
