// What may follow what in the history of a task, event by event.
module TaskQueueHistory {
  import opened Wrappers
  import opened TaskQueue
  import opened TaskQueueProofs
  import opened TaskQueueProgress

  // ------------------------------------------------ histories follow one route

  // Each move is one of the table for the route the task has now.
  predicate Routed(t: Task) {
    forall i | 0 < i < |t.events| ::
      Target(t.events[i - 1].to, t.route, t.manual, t.events[i].kind) == Some(t.events[i].to)
  }

  predicate AllRouted(tasks: Tasks) { forall i | 0 <= i < |tasks| :: Routed(tasks[i]) }

  // So is each request for a task, once it was activated.
  predicate RequestRouted(tasks: Tasks, r: Request) {
    && r.task < |tasks|
    && (if r.expectedState == Queued then forall route, manual :: Target(Queued, route, manual, r.kind) == Some(r.to)
        else
          && tasks[r.task].state != Queued && r.route.None?
          && Target(r.expectedState, tasks[r.task].route, tasks[r.task].manual, r.kind) == Some(r.to))
  }

  predicate FlightRouted(tasks: Tasks, p: Flight) {
    RequestRouted(tasks, p.request) && (!p.picked ==> p.request.kind == TaskActivated)
  }

  predicate AllFlightsRouted(w: World) { forall k | 0 <= k < |w.pending| :: FlightRouted(w.tasks, w.pending[k]) }

  // A task that is still queued has no move behind it.
  lemma QueuedHasOneEvent(t: Task)
    requires TaskOk(t) && t.state == Queued
    ensures |t.events| == 1
  {
  }

  lemma QueuedMoves(kind: EventType, route: Route, manual: bool, other: Route, otherwise: bool)
    ensures Target(Queued, route, manual, kind) == Target(Queued, other, otherwise, kind)
  {
  }

  lemma {:induction false} SubmitRouted(w: World, d: Draft, known: bool)
    requires AllRouted(w.tasks) && AllFlightsRouted(w)
    ensures AllRouted(Apply(w, Submit(d, known)).tasks) && AllFlightsRouted(Apply(w, Submit(d, known)))
  {
    hide Target, FindKey, MaxOrdinal;
    var v := Apply(w, Submit(d, known));
    assert |w.tasks| <= |v.tasks| && forall i | 0 <= i < |w.tasks| :: v.tasks[i] == w.tasks[i];
    forall k | 0 <= k < |v.pending| ensures FlightRouted(v.tasks, v.pending[k]) {
      assert FlightRouted(w.tasks, w.pending[k]);
    }
  }

  lemma {:induction false} PrepareRouted(w: World, task: nat, kind: EventType, expectedVersion: nat, key: string,
                                         permitted: bool)
    requires AllRouted(w.tasks) && AllFlightsRouted(w)
    ensures AllFlightsRouted(Prepared(w, task, kind, expectedVersion, key, permitted))
  {
    hide Target, AllRouted;
    if task < |w.tasks| {
      var t := w.tasks[task];
      forall route, manual ensures Target(Queued, route, manual, kind) == Target(Queued, t.route, t.manual, kind) {
        QueuedMoves(kind, route, manual, t.route, t.manual);
      }
    }
  }

  lemma {:induction false} PickRouted(w: World, k: nat, route: Route)
    requires Inv(w) && AllFlightsRouted(w)
    ensures AllFlightsRouted(Picked(w, k, route))
  {
    hide Target, IsHead, TasksOk, Ordered, OneActive, KeysUnique, LogOk, Edge;
    if k < |w.pending| {
      var r := w.pending[k].request;
      assert RequestOk(w.tasks, w.pending[k]) && FlightRouted(w.tasks, w.pending[k]);
      if !w.pending[k].picked { EdgeFacts(r.expectedState, r.kind, r.to); }
    }
  }

  lemma {:induction false} MoveRouted(t: Task, r: Request)
    requires Routed(t) && TaskOk(t) && t.state == r.expectedState
    requires if r.expectedState == Queued then
               forall route, manual :: Target(Queued, route, manual, r.kind) == Some(r.to)
             else r.route.None? && Target(r.expectedState, t.route, t.manual, r.kind) == Some(r.to)
    ensures Routed(Moved(t, r))
  {
    hide Target, Edge;
    if r.expectedState == Queued { QueuedHasOneEvent(t); }
    var events := Moved(t, r).events;
    forall i | 0 < i < |events|
      ensures Target(events[i - 1].to, Moved(t, r).route, t.manual, events[i].kind) == Some(events[i].to)
    {
      assert i < |t.events| ==> events[i] == t.events[i];
      assert events[i - 1] == t.events[i - 1];
    }
  }

  lemma {:induction false} CommitRouted(w: World, k: nat, evidence: bool)
    requires Inv(w) && AllRouted(w.tasks) && AllFlightsRouted(w)
    ensures AllRouted(Committed(w, k, evidence).tasks) && AllFlightsRouted(Committed(w, k, evidence))
  {
    hide Target, TaskOk, Ordered, OneActive, KeysUnique, LogOk, Edge, IsHead, Moved, Routed;
    if k < |w.pending| && w.pending[k].picked && Applies(w.tasks, w.pending[k].request, evidence) {
      var r, v := w.pending[k].request, Committed(w, k, evidence);
      var t := w.tasks[r.task];
      assert RequestOk(w.tasks, w.pending[k]) && FlightRouted(w.tasks, w.pending[k]) && TaskOk(t);
      EdgeFacts(r.expectedState, r.kind, r.to);
      MoveRouted(t, r);
      MovedRoute(t, r);
      forall j | 0 <= j < |v.pending| ensures FlightRouted(v.tasks, v.pending[j]) {
        assert FlightRouted(w.tasks, w.pending[j]);
      }
    }
  }

  lemma MovedRoute(t: Task, r: Request)
    ensures Moved(t, r).state == r.to && Moved(t, r).manual == t.manual
    ensures r.route.None? ==> Moved(t, r).route == t.route
  {
  }

  lemma {:induction false} StepRouted(w: World, step: Step)
    requires Inv(w) && AllRouted(w.tasks) && AllFlightsRouted(w)
    ensures AllRouted(Apply(w, step).tasks) && AllFlightsRouted(Apply(w, step))
  {
    hide Inv, Create, AllRouted, AllFlightsRouted;
    match step
    case Submit(d, known) => SubmitRouted(w, d, known);
    case Prepare(task, kind, expectedVersion, key, permitted) =>
      PrepareRouted(w, task, kind, expectedVersion, key, permitted);
    case Pick(k, route) => PickRouted(w, k, route);
    case Commit(k, evidence) => CommitRouted(w, k, evidence);
  }

  lemma {:induction false} RunRouted(steps: seq<Step>)
    ensures AllRouted(Run(EMPTY, steps).tasks) && AllFlightsRouted(Run(EMPTY, steps))
  {
    hide Inv, Apply, Routed;
    if steps != [] {
      RunRouted(steps[..|steps| - 1]);
      ReachableInv(steps[..|steps| - 1]);
      StepRouted(Run(EMPTY, steps[..|steps| - 1]), steps[|steps| - 1]);
    }
  }

  // ------------------------------------------------------- what follows what

  const JUDGEMENTS: set<EventType> := {ValidatedReuseCompleted, ValidationPassed, ValidationFailed}

  // The events that may come next after one of a kind, by route and mode alone.
  function After(kind: EventType, route: Route, manual: bool): set<EventType> {
    match kind
    case TaskQueued => {TaskActivated, TaskRejected}
    case TaskActivated => {LocalResultRecorded}
    case LocalResultRecorded =>
      if route != CloudReview then JUDGEMENTS
      else if manual then {CloudReviewApproved, CloudReviewRejected} else {CloudReviewRecorded}
    case CloudReviewApproved => {CloudReviewRecorded}
    case CloudReviewRecorded => {LocalRevisionRecorded}
    case LocalRevisionRecorded => JUDGEMENTS
    case ValidationFailed => {LocalRevisionRecorded}
    case ValidationPassed => {LearningPromoted}
    case LearningPromoted => {RagReadbackVerified}
    case _ => {}
  }

  predicate Proper(kinds: seq<EventType>, route: Route, manual: bool) {
    && kinds != [] && kinds[0] == TaskQueued
    && forall i | 0 < i < |kinds| :: kinds[i] in After(kinds[i - 1], route, manual)
  }

  function Kinds(events: seq<Event>): seq<EventType> {
    seq(|events|, i requires 0 <= i < |events| => events[i].kind)
  }

  // One move after another, from the first or from a move.
  lemma MoveFollows(from: TaskState, kind: EventType, to: TaskState, next: EventType, route: Route, manual: bool)
    requires (kind == TaskQueued && to == Queued) || Target(from, route, manual, kind) == Some(to)
    ensures next in After(kind, route, manual) <==> Target(to, route, manual, next).Some?
  {
  }

  lemma {:induction false} RoutedFollows(t: Task)
    requires Routed(t) && TaskOk(t)
    ensures Proper(Kinds(t.events), t.route, t.manual)
    ensures forall next :: next in After(t.events[|t.events| - 1].kind, t.route, t.manual) <==>
                           Target(t.state, t.route, t.manual, next).Some?
  {
    hide Target, After, Edge;
    forall i, next | 0 <= i < |t.events|
      ensures next in After(t.events[i].kind, t.route, t.manual) <==>
              Target(t.events[i].to, t.route, t.manual, next).Some?
    {
      MoveFollows(if i == 0 then Queued else t.events[i - 1].to, t.events[i].kind, t.events[i].to, next, t.route,
                  t.manual);
    }
  }

  // ----------------------------------------------------------- all histories

  lemma {:induction false} ReachableFollows(steps: seq<Step>, i: nat)
    requires i < |Run(EMPTY, steps).tasks|
    ensures var t := Run(EMPTY, steps).tasks[i];
            && Routed(t) && TaskOk(t) && Proper(Kinds(t.events), t.route, t.manual)
  {
    hide Run, Routed, TaskOk, Proper;
    RunRouted(steps);
    HistoryIsPath(steps, i);
    RoutedFollows(Run(EMPTY, steps).tasks[i]);
  }

  // A workflow with one task, in a state its history leads to.
  predicate Lone(w: World, kinds: seq<EventType>, route: Route, manual: bool) {
    && Inv(w) && |w.tasks| == 1 && AllRouted(w.tasks)
    && Kinds(w.tasks[0].events) == kinds && w.tasks[0].manual == manual
    && (|kinds| > 1 && kinds[1] == TaskActivated ==> w.tasks[0].route == route)
  }

  lemma {:induction false} Realized(kinds: seq<EventType>, route: Route, manual: bool) returns (steps: seq<Step>)
    requires Proper(kinds, route, manual)
    ensures Lone(Run(EMPTY, steps), kinds, route, manual)
    decreases |kinds|
  {
    hide After, Run, Lone;
    if |kinds| == 1 {
      steps := [Submit(Draft("w", "task", "", manual, "queue"), true)];
      OneTask(manual, route);
      assert kinds == [TaskQueued];
    } else {
      var n := |kinds| - 1;
      var init := Realized(kinds[..n], route, manual);
      var more := NextEvent(Run(EMPTY, init), kinds[..n], kinds[n], route, manual);
      RunThen(EMPTY, init, more);
      RunRouted(init + more);
      steps := init + more;
      assert kinds == kinds[..n] + [kinds[n]];
    }
  }

  lemma {:induction false} OneTask(manual: bool, route: Route)
    ensures Lone(Run(EMPTY, [Submit(Draft("w", "task", "", manual, "queue"), true)]), [TaskQueued], route, manual)
  {
    hide Inv;
    var d := Draft("w", "task", "", manual, "queue");
    RunOne(EMPTY, Submit(d, true));
    ReachableInv([Submit(d, true)]);
    assert FindKey([], "w", "task", 0) == 0 && MaxOrdinal([], "w") == 0;
  }

  // The event is possible, under a route that agrees with the history's.
  lemma {:induction false} CanFollow(w: World, kinds: seq<EventType>, next: EventType, route: Route, manual: bool)
    requires Lone(w, kinds, route, manual) && Proper(kinds + [next], route, manual) && kinds != []
    ensures var t := w.tasks[0];
            && TaskOk(t) && t.version >= 1 && Target(t.state, t.route, t.manual, next).Some?
            && (next == TaskActivated ==> |kinds| == 1 && t.state == Queued)
  {
    hide Target, After, Routed, Ordered, OneActive, KeysUnique, RequestsOk, LogOk, Edge;
    var t, n := w.tasks[0], |kinds| - 1;
    var all := kinds + [next];
    assert TaskOk(t) && Routed(t);
    RoutedFollows(t);
    assert kinds[n] == t.events[n].kind;
    assert all[n + 1] in After(all[n], route, manual);
    Beginnings(all[n], route, manual, t.route);
    if n > 0 {
      assert all[1] in After(all[0], route, manual) && all[2] in After(all[1], route, manual);
      assert all[n] in After(all[n - 1], route, manual);
      Beginnings(all[0], route, manual, t.route);
      Beginnings(all[1], route, manual, t.route);
      Beginnings(all[n - 1], route, manual, t.route);
    }
  }

  lemma Beginnings(kind: EventType, route: Route, manual: bool, other: Route)
    ensures TaskQueued !in After(kind, route, manual)
    ensures TaskActivated in After(kind, route, manual) ==> kind == TaskQueued
    ensures kind == TaskQueued ==>
              After(kind, route, manual) == After(kind, other, manual) == {TaskActivated, TaskRejected}
    ensures kind == TaskRejected ==> After(kind, route, manual) == {}
  {
  }

  lemma {:induction false} NextEvent(w: World, kinds: seq<EventType>, next: EventType, route: Route, manual: bool)
    returns (more: seq<Step>)
    requires Lone(w, kinds, route, manual) && Proper(kinds + [next], route, manual) && kinds != []
    ensures AllRouted(Run(w, more).tasks) ==> Lone(Run(w, more), kinds + [next], route, manual)
  {
    hide Run, Target, After, Inv, Routed, TaskOk, Proper;
    var t := w.tasks[0];
    CanFollow(w, kinds, next, route, manual);
    var key := UnusedKey(t.events);
    if next == TaskActivated {
      more := Activation(w, 0, route, key);
      LoneHead(w);
      Activates(w, t.workflow, 0, route, key);
    } else {
      more := Asked(w, 0, next, key);
      Advances(w, 0, next, Target(t.state, t.route, t.manual, next).value, key);
    }
    RunKeeps(w, more);
  }

  lemma LoneHead(w: World)
    requires |w.tasks| == 1 && w.tasks[0].state == Queued
    ensures IsHead(w.tasks, w.tasks[0].workflow, 0)
  {
  }

  // The task has gone through these events, on this route if it was activated.
  predicate HasHistory(t: Task, kinds: seq<EventType>, route: Route, manual: bool) {
    && Kinds(t.events) == kinds && t.manual == manual
    && (|kinds| > 1 && kinds[1] == TaskActivated ==> t.route == route)
  }

  ghost predicate Happens(kinds: seq<EventType>, route: Route, manual: bool) {
    exists steps, i: nat | i < |Run(EMPTY, steps).tasks| ::
      HasHistory(Run(EMPTY, steps).tasks[i], kinds, route, manual)
  }

  // The histories of tasks, over all runs, are exactly the proper ones.
  lemma {:induction false} HistoriesExactly(kinds: seq<EventType>, route: Route, manual: bool)
    ensures Happens(kinds, route, manual) <==> Proper(kinds, route, manual)
  {
    hide Proper, Run, Inv;
    if Proper(kinds, route, manual) {
      var steps := Realized(kinds, route, manual);
      assert HasHistory(Run(EMPTY, steps).tasks[0], kinds, route, manual);
    }
    if Happens(kinds, route, manual) {
      var steps, i: nat :| i < |Run(EMPTY, steps).tasks|
                           && HasHistory(Run(EMPTY, steps).tasks[i], kinds, route, manual);
      ReachableFollows(steps, i);
      UnactivatedRoute(kinds, Run(EMPTY, steps).tasks[i].route, route, manual);
    }
  }

  // Before its activation nothing depends on a task's route.
  lemma {:induction false} UnactivatedRoute(kinds: seq<EventType>, route: Route, other: Route, manual: bool)
    requires Proper(kinds, route, manual) && (|kinds| > 1 && kinds[1] == TaskActivated ==> route == other)
    ensures Proper(kinds, other, manual)
  {
    hide After;
    if |kinds| > 1 {
      Beginnings(kinds[0], route, manual, other);
      Beginnings(kinds[1], route, manual, other);
      assert kinds[1] in After(kinds[0], route, manual);
      if |kinds| > 2 { assert kinds[2] in After(kinds[1], route, manual); }
    }
  }

  // --------------------------------------------------------- what that implies

  predicate Reviewed(kinds: seq<EventType>, j: nat, manual: bool) {
    exists a, b | 0 < a < b < j <= |kinds| ::
      && kinds[a] == CloudReviewRecorded && kinds[b] == LocalRevisionRecorded
      && (manual ==> kinds[a - 1] == CloudReviewApproved)
  }

  lemma {:induction false} ReviewedBefore(kinds: seq<EventType>, j: nat, manual: bool)
    requires Proper(kinds, CloudReview, manual) && j < |kinds| && kinds[j] in JUDGEMENTS
    ensures Reviewed(kinds, j, manual)
    decreases j
  {
    var b := j - 1;
    assert j > 0 && kinds[j] in After(kinds[b], CloudReview, manual);
    assert b > 0 && kinds[b] in After(kinds[b - 1], CloudReview, manual);
    if kinds[b - 1] == CloudReviewRecorded {
      assert kinds[b - 1] in After(kinds[b - 2], CloudReview, manual);
    } else {
      ReviewedBefore(kinds, b - 1, manual);
    }
  }

  // Learning is promoted only right after a validation was passed, and a failed
  // one is followed by a local revision.
  lemma {:induction false} JudgedThen(steps: seq<Step>, i: nat, j: nat)
    requires i < |Run(EMPTY, steps).tasks| && j < |Run(EMPTY, steps).tasks[i].events|
    ensures var events := Run(EMPTY, steps).tasks[i].events;
            && (events[j].kind == LearningPromoted ==> j > 0 && events[j - 1].kind == ValidationPassed)
            && (events[j].kind == ValidationFailed && j + 1 < |events| ==> events[j + 1].kind == LocalRevisionRecorded)
  {
    hide Run, Routed, TaskOk;
    ReachableFollows(steps, i);
    var t := Run(EMPTY, steps).tasks[i];
    var kinds := Kinds(t.events);
    if j > 0 { assert kinds[j] in After(kinds[j - 1], t.route, t.manual); }
    if j + 1 < |kinds| { assert kinds[j + 1] in After(kinds[j], t.route, t.manual); }
  }

  // On the cloud route no validation comes before a recorded review and a local
  // revision after it; and of a manual task the review was approved first.
  lemma {:induction false} ReviewComesFirst(steps: seq<Step>, i: nat, j: nat)
    requires i < |Run(EMPTY, steps).tasks| && Run(EMPTY, steps).tasks[i].route == CloudReview
    requires j < |Run(EMPTY, steps).tasks[i].events| && Run(EMPTY, steps).tasks[i].events[j].kind in JUDGEMENTS
    ensures var events, manual := Run(EMPTY, steps).tasks[i].events, Run(EMPTY, steps).tasks[i].manual;
            exists a, b | 0 < a < b < j ::
              && events[a].kind == CloudReviewRecorded && events[b].kind == LocalRevisionRecorded
              && (manual ==> events[a - 1].kind == CloudReviewApproved)
  {
    hide Run, Routed, TaskOk, Proper;
    ReachableFollows(steps, i);
    var t := Run(EMPTY, steps).tasks[i];
    var kinds := Kinds(t.events);
    ReviewedBefore(kinds, j, t.manual);
    var a, b :| 0 < a < b < j <= |kinds| && kinds[a] == CloudReviewRecorded && kinds[b] == LocalRevisionRecorded
                && (t.manual ==> kinds[a - 1] == CloudReviewApproved);
    assert t.events[a].kind == kinds[a] && t.events[b].kind == kinds[b] && t.events[a - 1].kind == kinds[a - 1];
  }

  // A completed task reused validated work, or passed its validation, had it
  // promoted and read it back.
  lemma {:induction false} CompletedHow(steps: seq<Step>, i: nat)
    requires i < |Run(EMPTY, steps).tasks| && Run(EMPTY, steps).tasks[i].state == Completed
    ensures var events := Run(EMPTY, steps).tasks[i].events;
            var n := |events|;
            || (n > 0 && events[n - 1].kind == ValidatedReuseCompleted)
            || (n > 2 && events[n - 1].kind == RagReadbackVerified && events[n - 2].kind == LearningPromoted
                && events[n - 3].kind == ValidationPassed)
  {
    hide Run, Edge;
    ReachableFollows(steps, i);
    var t := Run(EMPTY, steps).tasks[i];
    var kinds, n := Kinds(t.events), |t.events|;
    assert n > 1;
    assert Target(t.events[n - 2].to, t.route, t.manual, t.events[n - 1].kind) == Some(Completed);
    assert kinds[n - 1] in After(kinds[n - 2], t.route, t.manual);
    if kinds[n - 1] == RagReadbackVerified {
      assert kinds[n - 2] in After(kinds[n - 3], t.route, t.manual);
    }
  }

  // ---------------------------------------------------------- single answers

  // A transition is made exactly for a fresh key, at the version and in the
  // state it expects and with its evidence; a known key answers its event.
  lemma {:induction false} TransitionExactly(tasks: Tasks, r: Request, evidence: bool)
    requires r.task < |tasks| && TaskOk(tasks[r.task])
    ensures var (after, answer) := Transition(tasks, r, evidence);
            var t := tasks[r.task];
            && (forall i | 0 <= i < |t.events| && t.events[i].key == r.key ::
                  && after == tasks
                  && answer == if t.events[i].kind == r.kind && t.events[i].to == r.to then Ok(t.events[i])
                               else Err(KeyReused))
            && (Unused(t.events, r.key) ==>
                  if t.version != r.expectedVersion || t.state != r.expectedState then
                    after == tasks && answer == Err(Conflict)
                  else if !evidence then after == tasks && answer == Err(EvidenceRejected)
                  else
                    var event := Event(r.kind, Some(t.state), r.to, r.key);
                    && answer == Ok(event)
                    && after == tasks[r.task := t.(state := r.to, version := t.version + 1,
                                                   route := if r.route.Some? then r.route.value else t.route,
                                                   events := t.events + [event])])
  {
    hide Edge, Chained, FindEvent;
    var events := tasks[r.task].events;
    forall i | 0 <= i < |events| && events[i].key == r.key ensures FindEvent(events, r.key) == Some(events[i]) {
      FoundEvent(events, i);
    }
    if Unused(events, r.key) { UnusedNotFound(events, r.key); }
  }

  lemma {:induction false} FoundEvent(events: seq<Event>, i: nat)
    requires i < |events| && forall a, b | 0 <= a < b < |events| :: events[a].key != events[b].key
    ensures FindEvent(events, events[i].key) == Some(events[i])
  {
    if i < |events| - 1 { FoundEvent(events[..|events| - 1], i); }
  }

  lemma {:induction false} VersionsGrow(w: World, steps: seq<Step>, i: nat)
    requires i < |w.tasks|
    ensures i < |Run(w, steps).tasks| && w.tasks[i].version <= Run(w, steps).tasks[i].version
  {
    hide Target, FindKey, MaxOrdinal, FindEvent, IsHead;
    if steps != [] { VersionsGrow(w, steps[..|steps| - 1], i); }
  }

  // Of all requests for one version of a task at most one is ever committed,
  // whatever happens between.
  lemma {:induction false} EachVersionOnce(w: World, k: nat, evidence: bool, steps: seq<Step>, again: nat, more: bool)
    requires k < |w.pending| && Committed(w, k, evidence).tasks != w.tasks
    requires var v := Run(Committed(w, k, evidence), steps);
             && again < |v.pending| && v.pending[again].request.task == w.pending[k].request.task
             && v.pending[again].request.expectedVersion <= w.pending[k].request.expectedVersion
    ensures var v := Run(Committed(w, k, evidence), steps); Committed(v, again, more).tasks == v.tasks
  {
    hide Run, FindEvent;
    VersionsGrow(Committed(w, k, evidence), steps, w.pending[k].request.task);
  }

  // A submission under a new key adds one queued task after all others of its
  // workflow; under a known key it answers that task, if it is the same.
  lemma {:induction false} SubmitsExactly(tasks: Tasks, d: Draft)
    requires KeysUnique(tasks)
    ensures var (after, answer) := Create(tasks, d, true);
            && (forall i: nat | i < |tasks| && tasks[i].workflow == d.workflow && tasks[i].taskKey == d.taskKey ::
                  after == tasks && answer == if tasks[i].payload == d.payload && tasks[i].manual == d.manual then Ok(i)
                                              else Err(KeyReused))
            && ((forall i | 0 <= i < |tasks| :: tasks[i].workflow != d.workflow || tasks[i].taskKey != d.taskKey) ==>
                  && answer == Ok(|tasks|) && |after| == |tasks| + 1 && after[..|tasks|] == tasks
                  && var t := after[|tasks|];
                     && t == Task(d.workflow, t.ordinal, d.taskKey, d.payload, d.manual, Queued, Pending, 1,
                                  [Event(TaskQueued, None, Queued, d.key)])
                     && forall i | 0 <= i < |tasks| && tasks[i].workflow == d.workflow :: tasks[i].ordinal < t.ordinal)
    ensures Create(tasks, d, false) == (tasks, Err(TaskError.NotFound))
  {
    MaxIsAbove(tasks, d.workflow);
    var k := FindKey(tasks, d.workflow, d.taskKey, 0);
    if k < |tasks| { assert HasKey(tasks[k], d.workflow, d.taskKey); }
    assert forall i | 0 <= i < |tasks| && tasks[i].workflow == d.workflow && tasks[i].taskKey == d.taskKey ::
        HasKey(tasks[i], d.workflow, d.taskKey);
  }
}
