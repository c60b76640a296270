// The first-in first-out queue of workflow tasks: a head is picked in one
// transaction and activated in another, by compare-and-set.
module TaskQueue {
  import opened Wrappers

  datatype TaskState =
    | Queued | LocalExecution | ReviewApprovalRequired | CloudReviewRequired | LocalRevisionRequired
    | ValidationRequired | PromotionRequired | RagReadbackRequired | Completed | Blocked | Rejected

  datatype EventType =
    | TaskQueued | TaskActivated | TaskRejected | LocalResultRecorded | CloudReviewApproved | CloudReviewRejected
    | CloudReviewRecorded | LocalRevisionRecorded | ValidatedReuseCompleted | ValidationPassed | ValidationFailed
    | LearningPromoted | RagReadbackVerified

  datatype Route = Pending | RagHit | CloudReview | LocalOnly

  datatype Event = Event(kind: EventType, from: Option<TaskState>, to: TaskState, key: string)

  datatype Task = Task(workflow: string, ordinal: nat, taskKey: string, payload: string, manual: bool,
                       state: TaskState, route: Route, version: nat, events: seq<Event>)

  // A task's id is its position; tasks are never deleted.
  type Tasks = seq<Task>

  datatype TaskError = NotFound | KeyReused | Conflict | InvalidEvent | NotPermitted | EvidenceRejected

  predicate Ended(s: TaskState) { s == Completed || s == Rejected }

  predicate Active(s: TaskState) { s != Queued && !Ended(s) }

  // workflowTaskTransition: where an event leads from a state.
  function Target(state: TaskState, route: Route, manual: bool, event: EventType): Option<TaskState> {
    match (state, event)
    case (Queued, TaskActivated) => Some(LocalExecution)
    case (Queued, TaskRejected) => Some(Rejected)
    case (LocalExecution, LocalResultRecorded) =>
      Some(if route != CloudReview then ValidationRequired
           else if manual then ReviewApprovalRequired else CloudReviewRequired)
    case (ReviewApprovalRequired, CloudReviewApproved) => Some(CloudReviewRequired)
    case (ReviewApprovalRequired, CloudReviewRejected) => Some(Blocked)
    case (CloudReviewRequired, CloudReviewRecorded) => Some(LocalRevisionRequired)
    case (LocalRevisionRequired, LocalRevisionRecorded) => Some(ValidationRequired)
    case (ValidationRequired, ValidatedReuseCompleted) => Some(Completed)
    case (ValidationRequired, ValidationPassed) => Some(PromotionRequired)
    case (ValidationRequired, ValidationFailed) => Some(LocalRevisionRequired)
    case (PromotionRequired, LearningPromoted) => Some(RagReadbackRequired)
    case (RagReadbackRequired, RagReadbackVerified) => Some(Completed)
    case _ => None
  }

  // ------------------------------------------------------------- transactions

  function MaxOrdinal(tasks: Tasks, workflow: string): nat {
    if tasks == [] then 0
    else
      var last, sofar := tasks[|tasks| - 1], MaxOrdinal(tasks[..|tasks| - 1], workflow);
      if last.workflow == workflow && last.ordinal > sofar then last.ordinal else sofar
  }

  predicate HasKey(task: Task, workflow: string, taskKey: string) {
    task.workflow == workflow && task.taskKey == taskKey
  }

  // The position of the task with a key, or the end.
  function FindKey(tasks: Tasks, workflow: string, taskKey: string, from: nat): (k: nat)
    requires from <= |tasks|
    ensures from <= k <= |tasks| && (k < |tasks| ==> HasKey(tasks[k], workflow, taskKey))
    ensures forall j | from <= j < k :: !HasKey(tasks[j], workflow, taskKey)
    decreases |tasks| - from
  {
    if from == |tasks| || HasKey(tasks[from], workflow, taskKey) then from
    else FindKey(tasks, workflow, taskKey, from + 1)
  }

  datatype Draft = Draft(workflow: string, taskKey: string, payload: string, manual: bool, key: string)

  function NewTask(d: Draft, ordinal: nat): Task {
    Task(d.workflow, ordinal, d.taskKey, d.payload, d.manual, Queued, Pending, 1,
         [Event(TaskQueued, None, Queued, d.key)])
  }

  // known says whether there is such a workflow.
  function Create(tasks: Tasks, d: Draft, known: bool): (Tasks, Result<nat, TaskError>) {
    var k := FindKey(tasks, d.workflow, d.taskKey, 0);
    if !known then (tasks, Err(NotFound))
    else if k < |tasks| then
      (tasks, if tasks[k].payload == d.payload && tasks[k].manual == d.manual then Ok(k) else Err(KeyReused))
    else (tasks + [NewTask(d, MaxOrdinal(tasks, d.workflow) + 1)], Ok(k))
  }

  // The answer of the activation query: the queued task of least ordinal, when
  // no task of the workflow is active.
  predicate IsHead(tasks: Tasks, workflow: string, i: nat) {
    && i < |tasks| && tasks[i].workflow == workflow && tasks[i].state == Queued
    && (forall j | 0 <= j < |tasks| && tasks[j].workflow == workflow :: !Active(tasks[j].state))
    && (forall j | 0 <= j < |tasks| && tasks[j].workflow == workflow && tasks[j].state == Queued ::
          tasks[i].ordinal <= tasks[j].ordinal)
  }

  datatype Request = Request(task: nat, kind: EventType, expectedState: TaskState, to: TaskState,
                             expectedVersion: nat, key: string, route: Option<Route>)

  function FindEvent(events: seq<Event>, key: string): Option<Event> {
    if events == [] then None
    else if events[|events| - 1].key == key then Some(events[|events| - 1])
    else FindEvent(events[..|events| - 1], key)
  }

  function Moved(task: Task, r: Request): Task {
    task.(state := r.to, version := task.version + 1,
          route := if r.route.Some? then r.route.value else task.route,
          events := task.events + [Event(r.kind, Some(r.expectedState), r.to, r.key)])
  }

  predicate Current(tasks: Tasks, r: Request) {
    r.task < |tasks| && tasks[r.task].version == r.expectedVersion && tasks[r.task].state == r.expectedState
  }

  // The update is made; a repeated key, a stale request or refused evidence
  // change nothing.
  predicate Applies(tasks: Tasks, r: Request, evidence: bool) {
    Current(tasks, r) && FindEvent(tasks[r.task].events, r.key).None? && evidence
  }

  function Transition(tasks: Tasks, r: Request, evidence: bool): (Tasks, Result<Event, TaskError>) {
    if r.task >= |tasks| then (tasks, Err(NotFound))
    else
      var task := tasks[r.task];
      var event := FindEvent(task.events, r.key);
      if event.Some? then
        (tasks, if event.value.kind != r.kind || event.value.to != r.to then Err(KeyReused) else Ok(event.value))
      else if task.version != r.expectedVersion || task.state != r.expectedState then (tasks, Err(Conflict))
      else if !evidence then (tasks, Err(EvidenceRejected))
      else (tasks[r.task := Moved(task, r)], Ok(Event(r.kind, Some(r.expectedState), r.to, r.key)))
  }

  // ---------------------------------------------------------------- the system

  // Requests live from reading the task to any number of commits; an activation
  // must be picked as the head before it can be committed.
  datatype Flight = InFlight(request: Request, picked: bool)

  datatype World = World(tasks: Tasks, pending: seq<Flight>, activated: seq<nat>)

  datatype Step =
    | Submit(draft: Draft, known: bool)
    | Prepare(task: nat, kind: EventType, expectedVersion: nat, key: string, permitted: bool)
    | Pick(k: nat, route: Route)
    | Commit(k: nat, evidence: bool)

  // permitted stands for the role, provider and evidence rules of the event.
  function Prepared(w: World, task: nat, kind: EventType, expectedVersion: nat, key: string, permitted: bool): World {
    if task >= |w.tasks| || expectedVersion < 1 then w
    else
      var t := w.tasks[task];
      var to := Target(t.state, t.route, t.manual, kind);
      if to.None? || !permitted then w
      else
        var r := Request(task, kind, t.state, to.value, expectedVersion, key, None);
        w.(pending := w.pending + [InFlight(r, kind != TaskActivated)])
  }

  function Picked(w: World, k: nat, route: Route): World {
    if k >= |w.pending| || w.pending[k].picked then w
    else
      var r := w.pending[k].request;
      if r.task < |w.tasks| && IsHead(w.tasks, w.tasks[r.task].workflow, r.task) then
        w.(pending := w.pending[k := InFlight(r.(route := Some(route)), true)])
      else w
  }

  function Committed(w: World, k: nat, evidence: bool): World {
    if k >= |w.pending| || !w.pending[k].picked then w
    else
      var r := w.pending[k].request;
      w.(tasks := Transition(w.tasks, r, evidence).0,
         activated := if r.kind == TaskActivated && Applies(w.tasks, r, evidence) then w.activated + [r.task]
                      else w.activated)
  }

  function Apply(w: World, step: Step): World {
    match step
    case Submit(d, known) => w.(tasks := Create(w.tasks, d, known).0)
    case Prepare(task, kind, expectedVersion, key, permitted) =>
      Prepared(w, task, kind, expectedVersion, key, permitted)
    case Pick(k, route) => Picked(w, k, route)
    case Commit(k, evidence) => Committed(w, k, evidence)
  }

  function Run(w: World, steps: seq<Step>): World {
    if steps == [] then w else Apply(Run(w, steps[..|steps| - 1]), steps[|steps| - 1])
  }

  const EMPTY := World([], [], [])
}
