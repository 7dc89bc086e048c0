/** What holds over calm runs: no crash, no COMMIT of a poll that takes effect and yet reports an
    error, no insert between the SELECT and the UPDATE of a poll, each task's queue row committed no
    later than its submissions' rows, and each task event saved within its ten attempts. Polls may
    still fail and submission events may still fail. */
module PipelineOrder {
  import opened Bridge
  import opened LedgerTables
  import opened EventPipeline
  import opened PipelineSafety

  /** Which task each CMS submission is for. */
  type TaskOf = Id -> Id

  ghost predicate CalmAttempt(w: World, event: Event, n: nat, a: Attempt, taskOf: TaskOf) {
    && (event.eventType.SubmissionEvent? && a.submission.Fetched? ==>
          a.submission.value.problemId == taskOf(event.objectId))
    && (event.eventType.TaskEvent? ==>
          var (ledger, outcome) := TaskAttempt(w.ledger, a.task, a.faults);
          && (a.task.Fetched? ==> a.task.value.id == event.objectId)
          && (outcome.Done? ==> event.objectId in ledger.tasks)
          && (n + 1 >= RETRIES ==> outcome.Done?))
  }

  ghost predicate Calm(w: World, s: Step, taskOf: TaskOf)
    requires Enabled(w, s)
  {
    match s
    case Crash => false
    case LoseCommit => false
    case Insert(rows) =>
      && !(w.server.Up? && w.server.poller.Selected?)
      && forall id :: id in rows && rows[id].1.SubmissionEvent? ==> taskOf(rows[id].0) in w.announced + TasksIn(rows)
    case Try(a) => CalmAttempt(w, w.server.consumer.event, w.server.consumer.attempts, a, taskOf)
    case _ => true
  }

  /** Every step that is taken is calm where it is taken. */
  ghost predicate CalmRun(steps: seq<Step>, taskOf: TaskOf) {
    |steps| == 0 ||
    var before, s := steps[..|steps| - 1], steps[|steps| - 1];
    && CalmRun(before, taskOf)
    && (Enabled(Reach(INIT, before), s) ==> Calm(Reach(INIT, before), s, taskOf))
  }

  lemma AppendCalm(steps: seq<Step>, s: Step, taskOf: TaskOf)
    requires CalmRun(steps, taskOf) && (Enabled(Reach(INIT, steps), s) ==> Calm(Reach(INIT, steps), s, taskOf))
    ensures CalmRun(steps + [s], taskOf) && Reach(INIT, steps + [s]) == Next(Reach(INIT, steps), s)
  {
    ReachAppend(INIT, steps, s);
    assert (steps + [s])[..|steps|] == steps;
  }

  // ---------- The invariant ----------

  predicate IsTask(e: Event, t: Id) {
    e.eventType.TaskEvent? && e.objectId == t
  }

  /** Events pushed or about to be, in the order they will be handled. */
  function Line(w: World): seq<Event>
    requires w.server.Up?
  {
    (if w.server.consumer.Trying? then [w.server.consumer.event] else [])
    + (if w.server.poller.Pushing? then w.server.poller.batch else [])
  }

  ghost predicate TaskQueued(q: Queue, t: Id) {
    exists id :: id in Unseen(q) && IsTask(EventOf(q, id), t)
  }

  ghost predicate TaskIn(evs: seq<Event>, t: Id) {
    exists e :: e in evs && IsTask(e, t)
  }

  /** A task that has been announced is saved, on its way, or still unseen in the queue. */
  ghost predicate AnnouncedCovered(w: World)
    requires w.server.Up?
  {
    forall t :: t in w.announced ==> t in w.ledger.tasks || TaskIn(Line(w), t) || TaskQueued(w.queue, t)
  }

  /** Every submission on its way has its task saved already or ahead of it. */
  ghost predicate Ordered(tasks: map<Id, Task>, line: seq<Event>, taskOf: TaskOf) {
    forall i :: 0 <= i < |line| && line[i].eventType.SubmissionEvent? ==>
      taskOf(line[i].objectId) in tasks || TaskIn(line[..i], taskOf(line[i].objectId))
  }

  ghost predicate UnseenAnnounced(w: World, taskOf: TaskOf) {
    forall id :: id in Unseen(w.queue) && w.queue[id].eventType.SubmissionEvent? ==>
      taskOf(w.queue[id].objectId) in w.announced
  }

  /** A batch not pushed yet: rows of the queue, with the tasks its submissions need. */
  ghost predicate BatchCovered(w: World, batch: seq<Event>, taskOf: TaskOf)
    requires w.server.Up?
  {
    && (forall e :: e in batch ==> e.eventId in Unseen(w.queue) && e == EventOf(w.queue, e.eventId))
    && (forall e :: e in batch && e.eventType.SubmissionEvent? ==>
          var t := taskOf(e.objectId);
          t in w.ledger.tasks || TaskIn(Line(w), t) || TaskIn(batch, t))
  }

  ghost predicate PollCovered(w: World, taskOf: TaskOf)
    requires w.server.Up?
  {
    match w.server.poller
    case Selected(batch) =>
      BatchCovered(w, batch, taskOf) && forall id :: id in Unseen(w.queue) ==> EventOf(w.queue, id) in batch
    case Marked(batch, marked) =>
      && BatchCovered(w, batch, taskOf)
      && forall id :: id in Unseen(w.queue) && id in marked ==> EventOf(w.queue, id) in batch
    case _ => true
  }

  ghost predicate CalmInvariant(w: World, taskOf: TaskOf) {
    && w.server.Up?
    && PushInvariant(w)
    && AnnouncedCovered(w)
    && Ordered(w.ledger.tasks, Line(w), taskOf)
    && UnseenAnnounced(w, taskOf)
    && PollCovered(w, taskOf)
  }

  // ---------- Steps ----------

  lemma QueueKept(q: Queue, q': Queue, t: Id)
    requires TaskQueued(q, t)
    requires forall id :: id in Unseen(q) ==> id in Unseen(q') && EventOf(q', id) == EventOf(q, id)
    ensures TaskQueued(q', t)
  {
    var id :| id in Unseen(q) && IsTask(EventOf(q, id), t);
    assert id in Unseen(q') && IsTask(EventOf(q', id), t);
  }

  lemma InsertKeepsCalm(w: World, rows: map<Id, (Id, EventType)>, taskOf: TaskOf)
    requires CalmInvariant(w, taskOf) && Enabled(w, Insert(rows)) && Calm(w, Insert(rows), taskOf)
    ensures CalmInvariant(Do(w, Insert(rows)), taskOf)
  {
    var w' := AfterInsert(w, rows);
    InsertKeepsPushInvariant(w, rows);
    assert Line(w') == Line(w);
    forall t | t in w'.announced ensures t in w'.ledger.tasks || TaskIn(Line(w'), t) || TaskQueued(w'.queue, t) {
      if t in TasksIn(rows) {
        var id :| id in rows && rows[id].1.TaskEvent? && rows[id].0 == t;
        assert id in Unseen(w'.queue) && IsTask(EventOf(w'.queue, id), t);
      } else if TaskQueued(w.queue, t) {
        QueueKept(w.queue, w'.queue, t);
      }
    }
  }

  /** A selection brings the tasks its submissions need, unless they are saved or on their way. */
  lemma SelectKeepsCalm(w: World, batch: seq<Event>, taskOf: TaskOf)
    requires CalmInvariant(w, taskOf) && Enabled(w, Select(batch))
    ensures CalmInvariant(Do(w, Select(batch)), taskOf)
  {
    var w' := Do(w, Select(batch));
    StepKeepsPushInvariant(w, Select(batch));
    assert Line(w') == Line(w);
    forall id | id in Unseen(w.queue) ensures EventOf(w.queue, id) in batch {
      assert id in EventIds(batch);
    }
    forall e | e in batch ensures e.eventId in Unseen(w.queue) {
      assert e.eventId in EventIds(batch);
    }
    forall e | e in batch && e.eventType.SubmissionEvent?
      ensures var t := taskOf(e.objectId); t in w.ledger.tasks || TaskIn(Line(w'), t) || TaskIn(batch, t)
    {
      var t := taskOf(e.objectId);
      assert t in w.announced;
      if TaskQueued(w.queue, t) {
        var id :| id in Unseen(w.queue) && IsTask(EventOf(w.queue, id), t);
        assert EventOf(w.queue, id) in batch;
      }
    }
  }

  /** Tasks sort before submissions, so each submission of the batch finds its task ahead. */
  lemma SortedIsOrdered(tasks: map<Id, Task>, head: seq<Event>, batch: seq<Event>, sorted: seq<Event>, taskOf: TaskOf)
    requires Ordered(tasks, head, taskOf) && Distinct(batch) && IsPrioritySort(batch, sorted)
    requires forall e :: e in batch && e.eventType.SubmissionEvent? ==>
      taskOf(e.objectId) in tasks || TaskIn(head, taskOf(e.objectId)) || TaskIn(batch, taskOf(e.objectId))
    ensures Ordered(tasks, head + sorted, taskOf)
  {
    var line := head + sorted;
    SortKeepsEvents(batch, sorted);
    forall i | 0 <= i < |line| && line[i].eventType.SubmissionEvent?
      ensures taskOf(line[i].objectId) in tasks || TaskIn(line[..i], taskOf(line[i].objectId))
    {
      if i < |head| {
        assert line[..i] == head[..i];
      } else {
        assert line[i] in sorted;
        TaskAhead(head, sorted, i - |head|, taskOf(line[i].objectId));
        assert line[..i] == head + sorted[..i - |head|];
      }
    }
  }

  lemma TaskAhead(head: seq<Event>, sorted: seq<Event>, i: nat, t: Id)
    requires PrioritySorted(sorted) && i < |sorted| && sorted[i].eventType.SubmissionEvent?
    ensures TaskIn(head, t) || TaskIn(sorted, t) ==> TaskIn(head + sorted[..i], t)
  {
    if TaskIn(head, t) {
      var e :| e in head && IsTask(e, t);
      assert e in head + sorted[..i];
    } else if TaskIn(sorted, t) {
      var j :| 0 <= j < |sorted| && IsTask(sorted[j], t);
      assert j < i;
      assert sorted[j] == sorted[..i][j];
      assert sorted[j] in head + sorted[..i];
    }
  }

  /** The head of the line may leave once it is handled: a task leaves only when saved. */
  lemma HeadLeaves(line: seq<Event>, tasks: map<Id, Task>, tasks': map<Id, Task>, taskOf: TaskOf)
    requires |line| > 0 && Ordered(tasks, line, taskOf) && tasks.Keys <= tasks'.Keys
    requires line[0].eventType.TaskEvent? ==> line[0].objectId in tasks'
    ensures Ordered(tasks', line[1..], taskOf)
    ensures forall t :: TaskIn(line, t) ==> TaskIn(line[1..], t) || t in tasks'
  {
    var rest := line[1..];
    forall t | TaskIn(line, t) ensures TaskIn(rest, t) || t in tasks' {
      var e :| e in line && IsTask(e, t);
      assert e == line[0] || e in rest;
    }
    forall i | 0 <= i < |rest| && rest[i].eventType.SubmissionEvent?
      ensures taskOf(rest[i].objectId) in tasks' || TaskIn(rest[..i], taskOf(rest[i].objectId))
    {
      assert rest[i] == line[i + 1];
      var t := taskOf(rest[i].objectId);
      if t !in tasks {
        var e :| e in line[..i + 1] && IsTask(e, t);
        assert line[..i + 1] == [line[0]] + rest[..i];
      }
    }
  }

  lemma CommitKeepsCalm(w: World, sorted: seq<Event>, taskOf: TaskOf)
    requires CalmInvariant(w, taskOf) && Enabled(w, CommitPoll(sorted))
    ensures CalmInvariant(Do(w, CommitPoll(sorted)), taskOf)
  {
    var w' := Do(w, CommitPoll(sorted));
    CommitKeepsPushInvariant(w, sorted);
    SortKeepsEvents(w.server.poller.batch, sorted);
    SortedIsOrdered(w.ledger.tasks, Line(w), w.server.poller.batch, sorted, taskOf);
    assert Line(w') == Line(w) + sorted;
    forall t | t in w'.announced ensures t in w'.ledger.tasks || TaskIn(Line(w'), t) || TaskQueued(w'.queue, t) {
      if TaskIn(Line(w), t) {
        var e :| e in Line(w) && IsTask(e, t);
        assert e in Line(w');
      } else if TaskQueued(w.queue, t) {
        var id :| id in Unseen(w.queue) && IsTask(EventOf(w.queue, id), t);
        if id in w.server.poller.marked {
          assert EventOf(w.queue, id) in sorted;
          assert EventOf(w.queue, id) in Line(w');
        } else {
          assert id in Unseen(w'.queue) && IsTask(EventOf(w'.queue, id), t);
        }
      }
    }
  }

  lemma PushKeepsCalm(w: World, taskOf: TaskOf)
    requires CalmInvariant(w, taskOf) && Enabled(w, Push)
    ensures CalmInvariant(Do(w, Push), taskOf)
  {
    var w' := Do(w, Push);
    PushKeepsPushInvariant(w);
    assert Line(w') == Line(w);
  }

  /** A submission at the head of the line finds its task saved. */
  lemma NoPanicInCalm(w: World, a: Attempt, taskOf: TaskOf)
    requires CalmInvariant(w, taskOf) && Enabled(w, Try(a)) && Calm(w, Try(a), taskOf)
    ensures !HandleAttempt(w.ledger, w.server.consumer.event.eventType, a).1.Panicked?
  {
    var event := w.server.consumer.event;
    assert Line(w)[0] == event;
    assert Line(w)[..0] == [];
    if event.eventType.SubmissionEvent? {
      assert taskOf(event.objectId) in w.ledger.tasks;
    }
  }

  lemma AttemptKeepsTasks(t: Tables, e: EventType, a: Attempt)
    ensures t.tasks.Keys <= HandleAttempt(t, e, a).0.tasks.Keys
  {
  }

  lemma TryKeepsCalm(w: World, a: Attempt, taskOf: TaskOf)
    requires CalmInvariant(w, taskOf) && Enabled(w, Try(a)) && Calm(w, Try(a), taskOf)
    ensures CalmInvariant(Do(w, Try(a)), taskOf)
  {
    var w' := Do(w, Try(a));
    var event := w.server.consumer.event;
    NoPanicInCalm(w, a, taskOf);
    AttemptKeepsTasks(w.ledger, event.eventType, a);
    StepKeepsPushInvariant(w, Try(a));
    HeadLeavesLine(w, w', taskOf);
  }

  lemma HeadLeavesLine(w: World, w': World, taskOf: TaskOf)
    requires CalmInvariant(w, taskOf) && PushInvariant(w') && w.server.consumer.Trying?
    requires w'.server.Up? && w'.server.poller == w.server.poller
    requires w'.queue == w.queue && w'.announced == w.announced && w.ledger.tasks.Keys <= w'.ledger.tasks.Keys
    requires || (w'.server.consumer.Trying? && w'.server.consumer.event == w.server.consumer.event)
             || (w'.server.consumer.Finishing? &&
                 (w.server.consumer.event.eventType.TaskEvent? ==> w.server.consumer.event.objectId in w'.ledger.tasks))
    ensures CalmInvariant(w', taskOf)
  {
    if w'.server.consumer.Trying? {
      assert Line(w') == Line(w);
    } else {
      assert Line(w') == Line(w)[1..];
      HeadLeaves(Line(w), w.ledger.tasks, w'.ledger.tasks, taskOf);
    }
  }

  lemma FinishKeepsCalm(w: World, deleted: bool, taskOf: TaskOf)
    requires CalmInvariant(w, taskOf) && Enabled(w, Finish(deleted))
    ensures CalmInvariant(Do(w, Finish(deleted)), taskOf)
  {
    var w' := Do(w, Finish(deleted));
    StepKeepsPushInvariant(w, Finish(deleted));
    assert Line(w') == Line(w);
    forall id | id in Unseen(w.queue) ensures id in Unseen(w'.queue) && EventOf(w'.queue, id) == EventOf(w.queue, id) {
      assert w.server.consumer.event in w.log;
    }
    forall t | TaskQueued(w.queue, t) ensures TaskQueued(w'.queue, t) {
      QueueKept(w.queue, w'.queue, t);
    }
  }

  lemma QuietStepKeepsCalm(w: World, s: Step, taskOf: TaskOf)
    requires CalmInvariant(w, taskOf) && Enabled(w, s)
    requires s.Wake? || s.Mark? || s.FailPoll? || s.PushError? || s.DonePushing? || s.SignUp?
    ensures CalmInvariant(Do(w, s), taskOf)
  {
    var w' := Do(w, s);
    OtherStepsKeepPushInvariant(w, s);
    assert Line(w') == Line(w);
    assert w'.queue == w.queue;
  }

  lemma StepKeepsCalm(w: World, s: Step, taskOf: TaskOf)
    requires CalmInvariant(w, taskOf) && (Enabled(w, s) ==> Calm(w, s, taskOf))
    ensures CalmInvariant(Next(w, s), taskOf)
  {
    if Enabled(w, s) {
      match s
      case Insert(rows) => InsertKeepsCalm(w, rows, taskOf);
      case Select(batch) => SelectKeepsCalm(w, batch, taskOf);
      case CommitPoll(sorted) => CommitKeepsCalm(w, sorted, taskOf);
      case Push => PushKeepsCalm(w, taskOf);
      case Try(a) => TryKeepsCalm(w, a, taskOf);
      case Finish(deleted) => FinishKeepsCalm(w, deleted, taskOf);
      case _ => QuietStepKeepsCalm(w, s, taskOf);
    }
  }

  /** The judge never meets a submission of an unknown task in a calm run, so it stays up. */
  lemma {:induction false} CalmRunsNeverPanic(steps: seq<Step>, taskOf: TaskOf)
    requires CalmRun(steps, taskOf)
    ensures CalmInvariant(Reach(INIT, steps), taskOf)
    ensures Reach(INIT, steps).server.Up?
  {
    if |steps| == 0 {
      assert Unseen(INIT.queue) == {};
    } else {
      CalmRunsNeverPanic(steps[..|steps| - 1], taskOf);
      StepKeepsCalm(Reach(INIT, steps[..|steps| - 1]), steps[|steps| - 1], taskOf);
    }
  }

  // ---------- Delivery ----------

  /** No row is lost: each is unseen, on its way, or has been handed over. */
  ghost predicate Conserved(w: World) {
    w.server.Up? &&
    forall id :: id in w.issued ==>
      || id in Unseen(w.queue)
      || id in EventIds(w.log)
      || (w.server.poller.Pushing? && id in EventIds(w.server.poller.batch))
  }

  /** Unseen rows have a wakeup or a poll coming that will take them. */
  ghost predicate WakeupDue(w: World) {
    w.server.Up? && (Unseen(w.queue) == {} || w.server.wakeups > 0 ||
      match w.server.poller
      case Begun => true
      case Selected(_) => true
      case Marked(_, marked) => Unseen(w.queue) <= marked
      case _ => false)
  }

  lemma CommitPollTakesRows(w: World, sorted: seq<Event>, taskOf: TaskOf)
    requires CalmInvariant(w, taskOf) && Enabled(w, CommitPoll(sorted))
    ensures forall id :: id in Unseen(w.queue) ==>
      id in Unseen(Do(w, CommitPoll(sorted)).queue) || id in EventIds(sorted)
  {
    SortKeepsEvents(w.server.poller.batch, sorted);
    forall id | id in Unseen(w.queue)
      ensures id in Unseen(Do(w, CommitPoll(sorted)).queue) || id in EventIds(sorted)
    {
      if id in w.server.poller.marked {
        assert EventOf(w.queue, id) in sorted;
      }
    }
  }

  lemma PushMovesHead(w: World)
    requires Enabled(w, Push)
    ensures EventIds(Do(w, Push).log) + EventIds(Do(w, Push).server.poller.batch)
         == EventIds(w.log) + EventIds(w.server.poller.batch)
  {
    var batch := w.server.poller.batch;
    assert batch == [batch[0]] + batch[1..];
  }

  lemma StepKeepsConserved(w: World, s: Step, taskOf: TaskOf)
    requires CalmInvariant(w, taskOf) && (Enabled(w, s) ==> Calm(w, s, taskOf)) && Conserved(w)
    ensures Conserved(Next(w, s))
  {
    StepKeepsCalm(w, s, taskOf);
    if Enabled(w, s) {
      match s
      case CommitPoll(sorted) =>
        CommitPollTakesRows(w, sorted, taskOf);
      case Push =>
        PushMovesHead(w);
      case Finish(_) =>
        assert w.server.consumer.event.eventId in EventIds(w.log);
      case _ =>
    }
  }

  /** A poll can afford to fail when another wakeup is waiting or there is nothing to read. */
  ghost predicate CanFail(w: World) {
    w.server.Up? && (w.server.wakeups > 0 || Unseen(w.queue) == {})
  }

  /** Only an insert brings a missing wakeup back, and only a failing poll takes the last one away. */
  lemma StepWakeupDueIff(w: World, s: Step, taskOf: TaskOf)
    requires CalmInvariant(w, taskOf) && Enabled(w, s) && Calm(w, s, taskOf)
    ensures WakeupDue(Do(w, s))
            <==> if s.Insert? && s.rows != map[] then true
                 else if s.FailPoll? then CanFail(w)
                 else WakeupDue(w)
  {
    var w' := Do(w, s);
    StepKeepsCalm(w, s, taskOf);
    if s.CommitPoll? {
      var left := Unseen(w.queue) - w.server.poller.marked;
      assert Unseen(w'.queue) == left;
      assert forall id :: id in Unseen(w.queue) ==> id in w.server.poller.marked || id in left;
    } else if s.Mark? {
      assert Unseen(w.queue) <= w.queue.Keys;
    } else if s.Insert? && s.rows == map[] {
      assert w'.queue == w.queue;
    } else if s.Finish? {
      assert Unseen(w'.queue) == Unseen(w.queue) by {
        assert w.server.consumer.event in w.log;
      }
    }
  }

  /** Since the last insert, no poll has failed that could not afford to. */
  ghost predicate PollsRecover(steps: seq<Step>) {
    |steps| == 0 ||
    var before, s := steps[..|steps| - 1], steps[|steps| - 1];
    if !Enabled(Reach(INIT, before), s) then PollsRecover(before)
    else if s.Insert? && s.rows != map[] then true
    else if s.FailPoll? then CanFail(Reach(INIT, before))
    else PollsRecover(before)
  }

  lemma {:induction false} CalmRunsConserve(steps: seq<Step>, taskOf: TaskOf)
    requires CalmRun(steps, taskOf)
    ensures Conserved(Reach(INIT, steps))
    ensures WakeupDue(Reach(INIT, steps)) <==> PollsRecover(steps)
  {
    if |steps| > 0 {
      var before, s := steps[..|steps| - 1], steps[|steps| - 1];
      CalmRunsConserve(before, taskOf);
      CalmRunsNeverPanic(before, taskOf);
      StepKeepsConserved(Reach(INIT, before), s, taskOf);
      if Enabled(Reach(INIT, before), s) {
        StepWakeupDueIff(Reach(INIT, before), s, taskOf);
      }
    }
  }

  /** Nothing more will happen without a new row or a crash. */
  predicate Quiet(w: World) {
    w.server == Up(0, Waiting, Idle)
  }

  lemma QuietDeliveredIff(w: World)
    requires PushInvariant(w) && Conserved(w) && Quiet(w)
    ensures WakeupDue(w) <==> Unseen(w.queue) == {}
    ensures WakeupDue(w) <==> EventIds(w.log) == w.issued
  {
    if Unseen(w.queue) == {} {
      forall id | id in w.issued ensures id in EventIds(w.log) {
        assert id !in Unseen(w.queue);
      }
    } else {
      assert (forall id :: id !in Unseen(w.queue)) ==> Unseen(w.queue) == {};
      var id :| id in Unseen(w.queue);
      assert id in w.issued && id !in EventIds(w.log);
    }
  }

  /** Once a calm run has gone quiet, no queue row has been handed over twice; and every row ever
      committed has been handed over exactly when no poll since the last insert failed that could
      not afford to. */
  lemma {:induction false} DeliveredExactlyOnce(steps: seq<Step>, taskOf: TaskOf)
    requires CalmRun(steps, taskOf) && Quiet(Reach(INIT, steps))
    ensures Distinct(Reach(INIT, steps).log)
    ensures EventIds(Reach(INIT, steps).log) == Reach(INIT, steps).issued <==> PollsRecover(steps)
  {
    CalmRunsConserve(steps, taskOf);
    PushedAtMostOnce(steps);
    QuietDeliveredIff(Reach(INIT, steps));
  }
}
