// When the task queue can go on: exactly when no task of the workflow is blocked.
module TaskQueueProgress {
  import opened Wrappers
  import opened TaskQueue
  import opened TaskQueueProofs

  lemma {:induction false} RunThen(w: World, a: seq<Step>, b: seq<Step>)
    ensures Run(w, a + b) == Run(Run(w, a), b)
  {
    if b == [] {
      assert a + b == a;
    } else {
      RunThen(w, a, b[..|b| - 1]);
      assert (a + b)[..|a + b| - 1] == a + b[..|b| - 1];
    }
  }

  lemma {:induction false} RunTwo(w: World, a: Step, b: Step)
    ensures Run(w, [a, b]) == Apply(Apply(w, a), b)
  {
    hide Apply;
    assert [a, b][..1] == [a] && [a][..0] == [];
    assert Run(w, []) == w && Run(w, [a]) == Apply(w, a);
  }

  lemma {:induction false} RunThree(w: World, a: Step, b: Step, c: Step)
    ensures Run(w, [a, b, c]) == Apply(Apply(Apply(w, a), b), c)
  {
    hide Apply;
    RunTwo(w, a, b);
    assert [a, b, c][..2] == [a, b];
  }

  // ---------------------------------------------------------------- fresh keys

  predicate Unused(events: seq<Event>, key: string) { forall i | 0 <= i < |events| :: events[i].key != key }

  lemma {:induction false} UnusedKey(events: seq<Event>) returns (key: string)
    ensures forall i | 0 <= i < |events| :: |events[i].key| < |key|
  {
    if events == [] {
      key := "k";
    } else {
      var last := events[|events| - 1].key;
      key := UnusedKey(events[..|events| - 1]);
      if |key| <= |last| { key := last + "k"; }
    }
  }

  lemma {:induction false} UnusedNotFound(events: seq<Event>, key: string)
    requires Unused(events, key)
    ensures FindEvent(events, key).None?
  {
    if events != [] { UnusedNotFound(events[..|events| - 1], key); }
  }

  lemma {:induction false} UnusedTaskKey(tasks: Tasks) returns (key: string)
    ensures forall i | 0 <= i < |tasks| :: |tasks[i].taskKey| < |key|
  {
    if tasks == [] {
      key := "k";
    } else {
      var last := tasks[|tasks| - 1].taskKey;
      key := UnusedTaskKey(tasks[..|tasks| - 1]);
      if |key| <= |last| { key := last + "k"; }
    }
  }

  // ------------------------------------------------------------------- one move

  // Only task i moved, and nothing was activated.
  predicate OnlyMoves(w: World, v: World, i: nat) {
    && |v.tasks| == |w.tasks| && i < |w.tasks| && v.activated == w.activated
    && (forall j | 0 <= j < |w.tasks| && j != i :: v.tasks[j] == w.tasks[j])
    && v.tasks[i].workflow == w.tasks[i].workflow && v.tasks[i].manual == w.tasks[i].manual
    && v.tasks[i].version == w.tasks[i].version + 1
  }

  function Asked(w: World, i: nat, kind: EventType, key: string): seq<Step>
    requires i < |w.tasks|
  {
    [Prepare(i, kind, w.tasks[i].version, key, true), Commit(|w.pending|, true)]
  }

  // An event of the table, under a fresh key, moves its task.
  lemma {:induction false} Advances(w: World, i: nat, kind: EventType, to: TaskState, key: string)
    requires i < |w.tasks| && w.tasks[i].version >= 1 && kind != TaskActivated
    requires Target(w.tasks[i].state, w.tasks[i].route, w.tasks[i].manual, kind) == Some(to)
    requires Unused(w.tasks[i].events, key)
    ensures var v := Run(w, Asked(w, i, kind, key));
            && OnlyMoves(w, v, i) && v.tasks[i].state == to && v.tasks[i].route == w.tasks[i].route
            && |v.pending| == |w.pending| + 1
            && v.tasks[i].events == w.tasks[i].events + [Event(kind, Some(w.tasks[i].state), to, key)]
  {
    hide Target, FindEvent, Run;
    UnusedNotFound(w.tasks[i].events, key);
    RunTwo(w, Prepare(i, kind, w.tasks[i].version, key, true), Commit(|w.pending|, true));
  }

  function Activation(w: World, i: nat, route: Route, key: string): seq<Step>
    requires i < |w.tasks|
  {
    [Prepare(i, TaskActivated, w.tasks[i].version, key, true), Pick(|w.pending|, route), Commit(|w.pending|, true)]
  }

  // The head of a queue, picked and committed undisturbed, is activated.
  lemma {:induction false} Activates(w: World, workflow: string, i: nat, route: Route, key: string)
    requires IsHead(w.tasks, workflow, i) && w.tasks[i].version >= 1 && Unused(w.tasks[i].events, key)
    ensures var v := Run(w, Activation(w, i, route, key));
            && |v.tasks| == |w.tasks| && v.activated == w.activated + [i]
            && (forall j | 0 <= j < |w.tasks| && j != i :: v.tasks[j] == w.tasks[j])
            && v.tasks[i].workflow == workflow && v.tasks[i].state == LocalExecution && v.tasks[i].route == route
            && v.tasks[i].manual == w.tasks[i].manual && v.tasks[i].version == w.tasks[i].version + 1
            && |v.pending| == |w.pending| + 1
            && v.tasks[i].events == w.tasks[i].events + [Event(TaskActivated, Some(Queued), LocalExecution, key)]
  {
    hide FindEvent, Run;
    UnusedNotFound(w.tasks[i].events, key);
    HeadFacts(w.tasks, workflow, i);
    hide IsHead;
    RunThree(w, Prepare(i, TaskActivated, w.tasks[i].version, key, true), Pick(|w.pending|, route),
             Commit(|w.pending|, true));
    var one := Prepared(w, i, TaskActivated, w.tasks[i].version, key, true);
    var request := Request(i, TaskActivated, Queued, LocalExecution, w.tasks[i].version, key, None);
    assert one.pending[|w.pending|] == InFlight(request, false);
    var two := Picked(one, |w.pending|, route);
    assert two.pending[|w.pending|].picked && two.tasks == w.tasks;
  }

  lemma HeadFacts(tasks: Tasks, workflow: string, i: nat)
    requires IsHead(tasks, workflow, i)
    ensures i < |tasks| && tasks[i].workflow == workflow && tasks[i].state == Queued
  {
  }

  // -------------------------------------------------------- ending what is active

  // The events that take an active task to its end.
  function Onward(state: TaskState): EventType {
    match state
    case LocalExecution => LocalResultRecorded
    case ReviewApprovalRequired => CloudReviewApproved
    case CloudReviewRequired => CloudReviewRecorded
    case LocalRevisionRequired => LocalRevisionRecorded
    case ValidationRequired => ValidatedReuseCompleted
    case PromotionRequired => LearningPromoted
    case _ => RagReadbackVerified
  }

  function Distance(state: TaskState): nat {
    match state
    case LocalExecution => 5
    case ReviewApprovalRequired => 4
    case CloudReviewRequired => 3
    case LocalRevisionRequired => 2
    case ValidationRequired => 1
    case PromotionRequired => 2
    case RagReadbackRequired => 1
    case _ => 0
  }

  lemma OnwardLeads(state: TaskState, route: Route, manual: bool)
    requires Active(state) && state != Blocked
    ensures var to := Target(state, route, manual, Onward(state));
            && to.Some? && Distance(to.value) < Distance(state)
            && (to.value == Completed || (Active(to.value) && to.value != Blocked))
    ensures Onward(state) != TaskActivated
  {
  }

  lemma VersionPositive(w: World, i: nat)
    requires Inv(w) && i < |w.tasks|
    ensures w.tasks[i].version >= 1
  {
    assert TaskOk(w.tasks[i]);
  }

  // The task ends while every other task stays as it is.
  predicate Settles(w: World, v: World, i: nat) {
    && |v.tasks| == |w.tasks| && i < |w.tasks| && v.activated == w.activated
    && (forall j | 0 <= j < |w.tasks| && j != i :: v.tasks[j] == w.tasks[j])
    && v.tasks[i].workflow == w.tasks[i].workflow && v.tasks[i].state == Completed
  }

  lemma {:induction false} CanEnd(w: World, i: nat) returns (steps: seq<Step>)
    requires Inv(w) && i < |w.tasks| && Active(w.tasks[i].state) && w.tasks[i].state != Blocked
    ensures Settles(w, Run(w, steps), i) && Inv(Run(w, steps))
    decreases Distance(w.tasks[i].state)
  {
    hide Inv, Run, Target, Onward, Distance;
    var t := w.tasks[i];
    OnwardLeads(t.state, t.route, t.manual);
    VersionPositive(w, i);
    var key := UnusedKey(t.events);
    var kind, to := Onward(t.state), Target(t.state, t.route, t.manual, Onward(t.state)).value;
    steps := Asked(w, i, kind, key);
    Advances(w, i, kind, to, key);
    RunKeeps(w, steps);
    if to != Completed {
      var more := CanEnd(Run(w, steps), i);
      RunThen(w, steps, more);
      steps := steps + more;
    }
  }

  // ------------------------------------------------------------ a head to activate

  predicate Idle(tasks: Tasks, workflow: string) {
    forall j | 0 <= j < |tasks| && tasks[j].workflow == workflow :: !Active(tasks[j].state)
  }

  predicate NoneBlocked(tasks: Tasks, workflow: string) {
    forall j | 0 <= j < |tasks| && tasks[j].workflow == workflow :: tasks[j].state != Blocked
  }

  // w and v have the same activations, and v the tasks of w and perhaps more.
  predicate Continues(w: World, v: World) {
    && v.activated == w.activated && |w.tasks| <= |v.tasks|
    && forall j | 0 <= j < |w.tasks| :: v.tasks[j].workflow == w.tasks[j].workflow
  }

  lemma {:induction false} CanIdle(w: World, workflow: string) returns (steps: seq<Step>)
    requires Inv(w) && NoneBlocked(w.tasks, workflow)
    ensures Inv(Run(w, steps)) && Continues(w, Run(w, steps)) && Idle(Run(w, steps).tasks, workflow)
  {
    hide TasksOk, Ordered, KeysUnique, RequestsOk, LogOk, Run;
    if i: nat :| i < |w.tasks| && w.tasks[i].workflow == workflow && Active(w.tasks[i].state) {
      steps := CanEnd(w, i);
    } else {
      steps := [];
      NoSteps(w);
    }
  }

  lemma NoSteps(w: World)
    ensures Run(w, []) == w
  {
  }

  lemma RunOne(w: World, step: Step)
    ensures Run(w, [step]) == Apply(w, step)
  {
    assert [step][..0] == [] && Run(w, []) == w;
  }

  lemma {:induction false} CanQueue(w: World, workflow: string) returns (step: Step)
    requires Inv(w) && Idle(w.tasks, workflow)
    ensures var v := Apply(w, step);
            && Inv(v) && Continues(w, v) && Idle(v.tasks, workflow)
            && exists j | 0 <= j < |v.tasks| :: v.tasks[j].workflow == workflow && v.tasks[j].state == Queued
  {
    hide Inv;
    var key := UnusedTaskKey(w.tasks);
    var d := Draft(workflow, key, "", false, "");
    step := Submit(d, true);
    StepKeeps(w, step);
    assert FindKey(w.tasks, workflow, key, 0) == |w.tasks|;
    var v := Apply(w, step);
    assert v.tasks[|w.tasks|].workflow == workflow && v.tasks[|w.tasks|].state == Queued;
  }

  lemma {:induction false} HeadExists(tasks: Tasks, workflow: string, j: nat) returns (i: nat)
    requires Ordered(tasks) && Idle(tasks, workflow)
    requires j < |tasks| && tasks[j].workflow == workflow && tasks[j].state == Queued
    ensures IsHead(tasks, workflow, i)
    decreases j
  {
    if k: nat :| k < j && tasks[k].workflow == workflow && tasks[k].state == Queued {
      i := HeadExists(tasks, workflow, k);
    } else {
      i := j;
    }
  }

  lemma InvOrdered(w: World)
    requires Inv(w)
    ensures Ordered(w.tasks)
  {
  }

  // ------------------------------------------------------------------- theorem

  lemma {:induction false} CanActivate(w: World, workflow: string) returns (steps: seq<Step>, i: nat)
    requires Inv(w) && NoneBlocked(w.tasks, workflow)
    ensures var v := Run(w, steps);
            && |w.tasks| <= |v.tasks| && (forall j | 0 <= j < |w.tasks| :: v.tasks[j].workflow == w.tasks[j].workflow)
            && i < |v.tasks| && v.tasks[i].workflow == workflow && v.activated == w.activated + [i]
  {
    hide Inv, Run, Apply, IsHead, Idle, Ordered, NoneBlocked;
    var ending := CanIdle(w, workflow);
    var u := Run(w, ending);
    var queueing := CanQueue(u, workflow);
    RunOne(u, queueing);
    var x := Apply(u, queueing);
    var j :| 0 <= j < |x.tasks| && x.tasks[j].workflow == workflow && x.tasks[j].state == Queued;
    InvOrdered(x);
    i := HeadExists(x.tasks, workflow, j);
    HeadFacts(x.tasks, workflow, i);
    VersionPositive(x, i);
    var key := UnusedKey(x.tasks[i].events);
    var activating := Activation(x, i, LocalOnly, key);
    Activates(x, workflow, i, LocalOnly, key);
    RunThen(w, ending, [queueing]);
    RunThen(w, ending + [queueing], activating);
    steps := ending + [queueing] + activating;
  }

  ghost predicate GoesOn(w: World, workflow: string) {
    exists steps :: var v := Run(w, steps);
      ActivatedIn(v, workflow, |v.activated|) != ActivatedIn(w, workflow, |w.activated|)
  }

  // Some continuation activates a task of the workflow exactly when none of its
  // tasks is blocked.
  lemma {:induction false} GoesOnExactly(w: World, workflow: string)
    requires Inv(w)
    ensures GoesOn(w, workflow) <==> NoneBlocked(w.tasks, workflow)
  {
    hide Inv, Run, ActivatedIn;
    if NoneBlocked(w.tasks, workflow) {
      var steps, i := CanActivate(w, workflow);
      OneMoreActivated(w, Run(w, steps), workflow, i);
    } else {
      var j :| 0 <= j < |w.tasks| && w.tasks[j].workflow == workflow && w.tasks[j].state == Blocked;
      forall steps
        ensures var v := Run(w, steps);
                ActivatedIn(v, workflow, |v.activated|) == ActivatedIn(w, workflow, |w.activated|)
      {
        BlockedForever(w, steps, j);
      }
    }
  }

  lemma {:induction false} OneMoreActivated(w: World, v: World, workflow: string, i: nat)
    requires Inv(w) && |w.tasks| <= |v.tasks|
    requires forall j | 0 <= j < |w.tasks| :: v.tasks[j].workflow == w.tasks[j].workflow
    requires i < |v.tasks| && v.tasks[i].workflow == workflow && v.activated == w.activated + [i]
    ensures ActivatedIn(v, workflow, |v.activated|) == ActivatedIn(w, workflow, |w.activated|) + [i]
  {
    hide TasksOk, Ordered, OneActive, KeysUnique, RequestsOk, LogOk;
    assert v.activated[..|w.activated|] == w.activated[..|w.activated|];
    SameActivated(w, v, workflow, |w.activated|);
    assert v.activated[|w.activated|] == i;
  }

  // ------------------------------------------------------------- a run that stops

  // A manual task whose cloud review an operator refuses.
  const MANUAL := Draft("w", "task", "", true, "queue")

  const STOPPING: seq<Step> :=
    [Submit(MANUAL, true)]
    + [Prepare(0, TaskActivated, 1, "activate", true), Pick(0, CloudReview), Commit(0, true)]
    + [Prepare(0, LocalResultRecorded, 2, "result", true), Commit(1, true)]
    + [Prepare(0, CloudReviewRejected, 3, "reject", true), Commit(2, true)]

  lemma {:induction false} QueueStops()
    ensures var w := Run(EMPTY, STOPPING);
            && |w.tasks| == 1 && w.tasks[0].workflow == "w" && w.tasks[0].state == Blocked
            && !GoesOn(w, "w")
  {
    hide Run, Target, IsHead, Inv, GoesOn;
    var one := Run(EMPTY, [Submit(MANUAL, true)]);
    Queueing();
    var a, b, c := [Prepare(0, TaskActivated, 1, "activate", true), Pick(0, CloudReview), Commit(0, true)],
                   [Prepare(0, LocalResultRecorded, 2, "result", true), Commit(1, true)],
                   [Prepare(0, CloudReviewRejected, 3, "reject", true), Commit(2, true)];
    Activates(one, "w", 0, CloudReview, "activate");
    var two := Run(one, a);
    ToReview();
    Advances(two, 0, LocalResultRecorded, ReviewApprovalRequired, "result");
    var three := Run(two, b);
    Advances(three, 0, CloudReviewRejected, Blocked, "reject");
    RunThen(EMPTY, [Submit(MANUAL, true)], a);
    RunThen(EMPTY, [Submit(MANUAL, true)] + a, b);
    RunThen(EMPTY, [Submit(MANUAL, true)] + a + b, c);
    ReachableInv(STOPPING);
    GoesOnExactly(Run(EMPTY, STOPPING), "w");
  }

  lemma ToReview()
    ensures Target(LocalExecution, CloudReview, true, LocalResultRecorded) == Some(ReviewApprovalRequired)
    ensures forall route :: Target(ReviewApprovalRequired, route, true, CloudReviewRejected) == Some(Blocked)
  {
  }

  lemma {:induction false} Queueing()
    ensures var w := Run(EMPTY, [Submit(MANUAL, true)]);
            && w == World([NewTask(MANUAL, 1)], [], [])
            && IsHead(w.tasks, "w", 0)
  {
    RunOne(EMPTY, Submit(MANUAL, true));
    assert FindKey([], "w", "task", 0) == 0 && MaxOrdinal([], "w") == 0;
  }
}
