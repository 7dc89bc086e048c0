/** What the pipeline does not promise, and exactly when: which step loses a row, which rows a poll
    loses, when a failed poll strands rows, and how a lost task row leads to the panic. */
module PipelineLimits {
  import opened Bridge
  import opened LedgerTables
  import opened EventPipeline
  import opened PipelineSafety
  import opened PipelineOrder
  import opened PipelineProgress
  import EventSource

  // ---------- Rows that no poll will take again ----------

  /** Marked seen, not handed over, and not in a batch. */
  ghost predicate Lost(w: World, id: Id) {
    && id in w.issued
    && id !in Unseen(w.queue)
    && id !in EventIds(w.log)
    && (w.server.Up? && w.server.poller.Pushing? ==> id !in EventIds(w.server.poller.batch))
  }

  /** A crash, or the attempt that panics. */
  ghost predicate Ends(w: World, s: Step)
    requires Enabled(w, s)
  {
    w.server.Up? && Do(w, s).server.Down?
  }

  /** What a step loses: a committing poll, the rows it marks and did not read; a COMMIT that takes
      effect and reports an error, every row it marks; the end of a server that pushes, the rest of
      its batch. Nothing else loses a row. */
  ghost predicate Loses(w: World, s: Step, id: Id)
    requires Enabled(w, s)
  {
    match s
    case CommitPoll(_) =>
      id in Unseen(w.queue) && id in w.server.poller.marked && id !in EventIds(w.server.poller.batch)
    case LoseCommit => id in Unseen(w.queue) && id in w.server.poller.marked
    case _ => Ends(w, s) && w.server.poller.Pushing? && id in EventIds(w.server.poller.batch)
  }

  lemma CommitPollLoses(w: World, sorted: seq<Event>, id: Id)
    requires PushInvariant(w) && Enabled(w, CommitPoll(sorted)) && id in w.issued
    ensures Lost(Do(w, CommitPoll(sorted)), id) <==> Lost(w, id) || Loses(w, CommitPoll(sorted), id)
  {
    SortKeepsEvents(w.server.poller.batch, sorted);
    forall e | e in w.server.poller.batch ensures e.eventId in Unseen(w.queue) {
    }
    forall e | e in w.log ensures e.eventId !in Unseen(w.queue) {
    }
  }

  lemma PushLoses(w: World, id: Id)
    requires PushInvariant(w) && Enabled(w, Push) && id in w.issued
    ensures Lost(Do(w, Push), id) <==> Lost(w, id)
  {
    var batch := w.server.poller.batch;
    assert EventIds(w.log + [batch[0]]) == EventIds(w.log) + {batch[0].eventId};
    assert forall e :: e in batch <==> e == batch[0] || e in batch[1..];
    assert EventIds(batch) == EventIds(batch[1..]) + {batch[0].eventId};
  }

  lemma OtherStepsLose(w: World, s: Step, id: Id)
    requires PushInvariant(w) && Enabled(w, s) && id in w.issued && !s.CommitPoll? && !s.Push?
    ensures Lost(Do(w, s), id) <==> Lost(w, id) || Loses(w, s, id)
  {
    if s.Finish? {
      assert w.server.consumer.event.eventId in EventIds(w.log);
    }
  }

  /** A row is lost after a step exactly when it was lost before or the step loses it. */
  lemma LostByStepIff(w: World, s: Step, id: Id)
    requires PushInvariant(w) && Enabled(w, s) && id in w.issued
    ensures Lost(Do(w, s), id) <==> Lost(w, id) || Loses(w, s, id)
  {
    match s
    case CommitPoll(sorted) => CommitPollLoses(w, sorted, id);
    case Push => PushLoses(w, id);
    case _ => OtherStepsLose(w, s, id);
  }

  lemma NewRowsAreUnseen(w: World, s: Step, id: Id)
    requires Enabled(w, s) && id !in w.issued
    ensures !Lost(w, id) && !Lost(Do(w, s), id)
  {
    if s.Insert? && id in s.rows {
      assert id in Do(w, s).queue && !Do(w, s).queue[id].seen;
    }
  }

  lemma LostAfterIff(w: World, s: Step, id: Id)
    requires PushInvariant(w)
    ensures Lost(Next(w, s), id) <==> Lost(w, id) || (Enabled(w, s) && id in w.issued && Loses(w, s, id))
  {
    if Enabled(w, s) {
      if id in w.issued {
        LostByStepIff(w, s, id);
      } else {
        NewRowsAreUnseen(w, s, id);
      }
    }
  }

  /** A lost row stays lost, whatever happens next: a restart does not read it again. */
  lemma {:induction false} LostForever(w: World, steps: seq<Step>, id: Id)
    requires PushInvariant(w) && Lost(w, id)
    ensures Lost(Reach(w, steps), id) && PushInvariant(Reach(w, steps))
  {
    if |steps| > 0 {
      var before, s := steps[..|steps| - 1], steps[|steps| - 1];
      LostForever(w, before, id);
      StepKeepsPushInvariant(Reach(w, before), s);
      LostAfterIff(Reach(w, before), s, id);
    }
  }

  ghost predicate LosesAt(steps: seq<Step>, i: nat, id: Id)
    requires i < |steps|
  {
    var w := Reach(INIT, steps[..i]);
    Enabled(w, steps[i]) && id in w.issued && Loses(w, steps[i], id)
  }

  lemma LosesAtOrEarlier(steps: seq<Step>, id: Id)
    requires |steps| > 0
    ensures var n := |steps| - 1;
            (exists i :: 0 <= i < |steps| && LosesAt(steps, i, id))
            <==> LosesAt(steps, n, id) || exists i :: 0 <= i < n && LosesAt(steps[..n], i, id)
  {
    var n := |steps| - 1;
    forall i | 0 <= i < n ensures LosesAt(steps, i, id) <==> LosesAt(steps[..n], i, id) {
      assert steps[..n][..i] == steps[..i];
    }
  }

  /** Over whole schedules: a row is lost exactly when one of its steps lost it. */
  lemma {:induction false} LostInRunIff(steps: seq<Step>, id: Id)
    ensures Lost(Reach(INIT, steps), id) <==> exists i :: 0 <= i < |steps| && LosesAt(steps, i, id)
  {
    if |steps| > 0 {
      var n := |steps| - 1;
      var before, s, w := steps[..n], steps[n], Reach(INIT, steps[..n]);
      LostInRunIff(before, id);
      PushedAtMostOnce(before);
      LostAfterIff(w, s, id);
      LosesAtOrEarlier(steps, id);
    }
  }

  // ---------- What one poll loses ----------

  /** The poller stays where it is at every moment of a schedule. */
  ghost predicate Stays(w: World, steps: seq<Step>, p: Poller) {
    && PollerAt(Reach(w, steps), p)
    && (|steps| > 0 ==> Stays(w, steps[..|steps| - 1], p))
  }

  /** While a poll waits for its next statement, rows are added and none is marked, taken or lost. */
  ghost predicate OnlyAdded(w: World, w': World) {
    && PushInvariant(w')
    && w.issued <= w'.issued
    && Unseen(w'.queue) == Unseen(w.queue) + (w'.issued - w.issued)
    && forall id :: id in w.issued ==> (Lost(w', id) <==> Lost(w, id))
  }

  lemma StepOnlyAdds(w: World, s: Step, p: Poller)
    requires PushInvariant(w) && (p.Selected? || p.Marked?)
    requires PollerAt(w, p) && PollerAt(Next(w, s), p)
    ensures OnlyAdded(w, Next(w, s))
  {
    StepKeepsPushInvariant(w, s);
    if Enabled(w, s) {
      forall id | id in w.issued ensures Lost(Do(w, s), id) <==> Lost(w, id) {
        LostByStepIff(w, s, id);
      }
      if s.Insert? {
        assert Unseen(Do(w, s).queue) == Unseen(w.queue) + s.rows.Keys;
      } else if s.Finish? {
        assert w.server.consumer.event in w.log;
        assert Unseen(Do(w, s).queue) == Unseen(w.queue);
      } else {
        assert Do(w, s).queue == w.queue;
      }
    }
  }

  lemma OnlyAddedTwice(a: World, b: World, c: World)
    requires OnlyAdded(a, b) && OnlyAdded(b, c)
    ensures OnlyAdded(a, c)
  {
  }

  lemma {:induction false} StayingOnlyAdds(w: World, steps: seq<Step>, p: Poller)
    requires PushInvariant(w) && Stays(w, steps, p) && (p.Selected? || p.Marked?)
    ensures OnlyAdded(w, Reach(w, steps))
  {
    if |steps| > 0 {
      var before, s := steps[..|steps| - 1], steps[|steps| - 1];
      assert PollerAt(Reach(w, before), p);
      StayingOnlyAdds(w, before, p);
      StepOnlyAdds(Reach(w, before), s, p);
      OnlyAddedTwice(w, Reach(w, before), Reach(w, steps));
    }
  }

  /** A poll from its SELECT to just before its COMMIT, with any other steps in between: `selected`
      is the world after the SELECT, `marking` the one in which the UPDATE runs, `closing` the one in
      which the transaction is about to be committed. */
  ghost predicate IsPoll(w: World, batch: seq<Event>, marking: World, closing: World) {
    && Enabled(w, Select(batch))
    && (exists early :: Stays(Do(w, Select(batch)), early, Selected(batch))
                        && marking == Reach(Do(w, Select(batch)), early))
    && marking.server.Up? && marking.server.poller.Selected?
    && exists late :: Stays(Do(marking, Mark), late, Marked(batch, marking.queue.Keys))
                      && closing == Reach(Do(marking, Mark), late)
  }

  lemma PollOnlyAdds(w: World, batch: seq<Event>, marking: World, closing: World)
    requires PushInvariant(w) && IsPoll(w, batch, marking, closing)
    ensures OnlyAdded(w, marking) && OnlyAdded(w, closing) && OnlyAdded(marking, closing)
    ensures PollerAt(closing, Marked(batch, marking.queue.Keys))
    ensures EventIds(batch) == Unseen(w.queue)
  {
    var selected := Do(w, Select(batch));
    StepKeepsPushInvariant(w, Select(batch));
    assert OnlyAdded(w, selected);
    var early :| Stays(selected, early, Selected(batch)) && marking == Reach(selected, early);
    StayingOnlyAdds(selected, early, Selected(batch));
    OnlyAddedTwice(w, selected, marking);
    var marked := Do(marking, Mark);
    StepKeepsPushInvariant(marking, Mark);
    assert OnlyAdded(marking, marked);
    var late :| Stays(marked, late, Marked(batch, marking.queue.Keys)) && closing == Reach(marked, late);
    StayingOnlyAdds(marked, late, Marked(batch, marking.queue.Keys));
    OnlyAddedTwice(marking, marked, closing);
    OnlyAddedTwice(w, marking, closing);
  }

  /** Whatever goes on around it, a poll that commits loses exactly the rows committed between its
      SELECT and its UPDATE. */
  lemma PollLosesExactly(w: World, batch: seq<Event>, marking: World, closing: World, sorted: seq<Event>)
    requires PushInvariant(w) && IsPoll(w, batch, marking, closing) && IsPrioritySort(batch, sorted)
    ensures Enabled(closing, CommitPoll(sorted))
    ensures forall id :: id in closing.issued && !Lost(w, id) ==>
      (Lost(Do(closing, CommitPoll(sorted)), id) <==> id in marking.issued - w.issued)
  {
    PollOnlyAdds(w, batch, marking, closing);
    forall id | id in closing.issued && !Lost(w, id)
      ensures Lost(Do(closing, CommitPoll(sorted)), id) <==> id in marking.issued - w.issued
    {
      LostByStepIff(closing, CommitPoll(sorted), id);
      assert id in w.issued || id in Unseen(closing.queue);
    }
  }

  /** A poll whose COMMIT takes effect but reports an error loses those rows and all it had read. */
  lemma LostCommitLosesExactly(w: World, batch: seq<Event>, marking: World, closing: World)
    requires PushInvariant(w) && IsPoll(w, batch, marking, closing)
    ensures Enabled(closing, LoseCommit)
    ensures forall id :: id in closing.issued && !Lost(w, id) ==>
      (Lost(Do(closing, LoseCommit), id) <==> id in marking.issued - w.issued || id in EventIds(batch))
  {
    PollOnlyAdds(w, batch, marking, closing);
    forall id | id in closing.issued && !Lost(w, id)
      ensures Lost(Do(closing, LoseCommit), id) <==> id in marking.issued - w.issued || id in EventIds(batch)
    {
      LostByStepIff(closing, LoseCommit, id);
      assert id in w.issued || id in Unseen(closing.queue);
    }
  }

  /** With a single transaction in the gap and nothing else, those are the rows of the transaction. */
  lemma SplitPollLosesExactly(w: World, batch: seq<Event>, rows: map<Id, (Id, EventType)>, sorted: seq<Event>)
    requires PushInvariant(w)
    requires Enabled(w, Select(batch)) && Enabled(w, Insert(rows)) && IsPrioritySort(batch, sorted)
    ensures var w' := Next(Next(Next(Next(w, Select(batch)), Insert(rows)), Mark), CommitPoll(sorted));
            forall id :: id in w'.issued && !Lost(w, id) ==> (Lost(w', id) <==> id in rows)
  {
    var selected := Do(w, Select(batch));
    var marking := Do(selected, Insert(rows));
    var closing := Do(marking, Mark);
    ReachAppend(selected, [], Insert(rows));
    assert Stays(selected, [] + [Insert(rows)], Selected(batch)) by {
      assert Stays(selected, [], Selected(batch));
      assert ([] + [Insert(rows)])[..0] == [];
    }
    assert Stays(closing, [], Marked(batch, marking.queue.Keys)) && closing == Reach(closing, []);
    PollLosesExactly(w, batch, marking, closing, sorted);
  }

  // ---------- A task that never arrives ----------

  ghost predicate NoTask(evs: seq<Event>, k: Id) {
    forall e :: e in evs ==> !IsTask(e, k)
  }

  /** The task is not saved and nothing on the road would save it. */
  ghost predicate Absent(w: World, k: Id) {
    && k !in w.ledger.tasks
    && !TaskQueued(w.queue, k)
    && (w.server.Up? ==>
          && (w.server.consumer.Trying? ==> !IsTask(w.server.consumer.event, k))
          && match w.server.poller
             case Selected(batch) => NoTask(batch, k)
             case Marked(batch, _) => NoTask(batch, k)
             case Pushing(batch) => NoTask(batch, k)
             case _ => true)
  }

  /** No new queue row for the task; and the bridge answers with the task it was asked for. */
  ghost predicate Silent(w: World, s: Step, k: Id)
    requires Enabled(w, s)
  {
    match s
    case Insert(rows) => k !in TasksIn(rows)
    case Try(a) =>
      var event := w.server.consumer.event;
      event.eventType.TaskEvent? && a.task.Fetched? ==> a.task.value.id == event.objectId
    case _ => true
  }

  ghost predicate SilentRun(w: World, steps: seq<Step>, k: Id) {
    |steps| == 0 ||
    var before, s := steps[..|steps| - 1], steps[|steps| - 1];
    && SilentRun(w, before, k)
    && (Enabled(Reach(w, before), s) ==> Silent(Reach(w, before), s, k))
  }

  lemma QueueStaysAbsent(q: Queue, q': Queue, k: Id)
    requires !TaskQueued(q, k)
    requires forall id :: id in Unseen(q') && q'[id].eventType.TaskEvent? && q'[id].objectId == k ==>
      id in q && q[id] == q'[id]
    ensures !TaskQueued(q', k)
  {
    forall id | id in Unseen(q') ensures !IsTask(EventOf(q', id), k) {
      assert id in Unseen(q) ==> !IsTask(EventOf(q, id), k);
    }
  }

  lemma BatchStaysAbsent(w: World, s: Step, k: Id)
    requires Absent(w, k) && Enabled(w, s)
    ensures s.Select? ==> NoTask(s.batch, k)
    ensures s.CommitPoll? ==> NoTask(s.sorted, k)
  {
    if s.Select? {
      forall e | e in s.batch ensures !IsTask(e, k) {
        assert e.eventId in EventIds(s.batch);
      }
    } else if s.CommitPoll? {
      forall e | e in s.sorted ensures !IsTask(e, k) {
        assert e in multiset(s.sorted);
      }
    }
  }

  lemma TasksStayAbsent(w: World, s: Step, k: Id)
    requires Absent(w, k) && Enabled(w, s) && Silent(w, s, k)
    ensures k !in Do(w, s).ledger.tasks
  {
    if s.Try? {
      var event := w.server.consumer.event;
      assert HandleAttempt(w.ledger, event.eventType, s.attempt).0.tasks.Keys <= w.ledger.tasks.Keys
             || (event.eventType.TaskEvent? && s.attempt.task.Fetched? && s.attempt.task.value.id != k);
    }
  }

  lemma QueueStepStaysAbsent(w: World, s: Step, k: Id)
    requires Absent(w, k) && Enabled(w, s) && Silent(w, s, k)
    ensures !TaskQueued(Do(w, s).queue, k)
  {
    if s.Insert? {
      assert forall id :: id in s.rows && s.rows[id].1.TaskEvent? ==> s.rows[id].0 in TasksIn(s.rows);
    }
    QueueStaysAbsent(w.queue, Do(w, s).queue, k);
  }

  lemma StepKeepsAbsent(w: World, s: Step, k: Id)
    requires Absent(w, k) && (Enabled(w, s) ==> Silent(w, s, k))
    ensures Absent(Next(w, s), k)
  {
    if Enabled(w, s) {
      BatchStaysAbsent(w, s, k);
      TasksStayAbsent(w, s, k);
      QueueStepStaysAbsent(w, s, k);
    }
  }

  lemma {:induction false} AbsentForever(w: World, steps: seq<Step>, k: Id)
    requires Absent(w, k) && SilentRun(w, steps, k)
    ensures Absent(Reach(w, steps), k)
  {
    if |steps| > 0 {
      AbsentForever(w, steps[..|steps| - 1], k);
      StepKeepsAbsent(Reach(w, steps[..|steps| - 1]), steps[|steps| - 1], k);
    }
  }

  /** After a task's rows are lost, an attempt at one of its submissions, however much later, takes
      the server down exactly when it gets as far as reading the multiplier without a failure. */
  lemma {:induction false} AbsentTaskPanicsIff(w: World, steps: seq<Step>, k: Id, a: Attempt)
    requires Absent(w, k) && SilentRun(w, steps, k) && Enabled(Reach(w, steps), Try(a))
    requires Reach(w, steps).server.consumer.event.eventType.SubmissionEvent?
    requires a.submission.Fetched? && a.submission.value.problemId == k
    ensures var before, f := Reach(w, steps), a.faults;
            Do(before, Try(a)).server.Down?
            <==> StoreSubmission(before.ledger, a.submission.value).Some? && ReachesMultiplier(f)
  {
    AbsentForever(w, steps, k);
  }

  // ---------- A schedule that ends in the panic ----------

  const USER: Id := 3
  const TASK: Id := 7
  const SUBMISSION: Id := 5
  const TASK_ROWS: map<Id, (Id, EventType)> := map[1 := (TASK, TaskEvent)]
  const SUBMISSION_ROWS: map<Id, (Id, EventType)> := map[2 := (SUBMISSION, SubmissionEvent)]
  const SUBMISSION_NOTICE := Event(2, SUBMISSION, SubmissionEvent)
  const SENT := Submission(SUBMISSION, USER, TASK, Compiling, "", None, false)
  const GOOD_ATTEMPT := Attempt(Fetched(SENT), Fetched(Task(TASK, "envido", "envido", [], 2.0, 4.0)), NO_FAULTS)

  lemma ReachThree(w: World, a: Step, b: Step, c: Step)
    ensures Reach(w, [a, b, c]) == Next(Next(Next(w, a), b), c)
  {
    ReachAppend(w, [], a);
    ReachAppend(w, [] + [a], b);
    ReachAppend(w, [] + [a] + [b], c);
    assert [] + [a] + [b] + [c] == [a, b, c];
  }

  /** An account, no saved task and no stored submission. */
  ghost predicate Blank(t: Tables) {
    USER in t.users && t.tasks == map[] && t.submissions == map[] && t.taskScores == map[]
  }

  /** A new account, then a poll that finds nothing; the task's row is committed after its SELECT. */
  lemma TaskCommitsLate() returns (w: World)
    ensures w == Reach(INIT, [SignUp(USER), Select([]), Insert(TASK_ROWS)])
    ensures w.server == Up(1, Selected([]), Idle) && w.issued == {1} && w.queue.Keys == {1} && Blank(w.ledger)
  {
    ReachThree(INIT, SignUp(USER), Select([]), Insert(TASK_ROWS));
    assert TASK_ROWS.Keys == {1};
    var w1 := Next(INIT, SignUp(USER));
    assert w1 == INIT.(ledger := NewUser(EMPTY, USER));
    assert IsSelection(w1.queue, []);
    var w2 := Next(w1, Select([]));
    assert w2 == w1.(server := Up(0, Selected([]), Idle));
    w := Next(w2, Insert(TASK_ROWS));
  }

  /** The UPDATE marks that row although the poll never read it. */
  lemma TaskSlipsThrough(w: World) returns (w': World)
    requires w.server == Up(1, Selected([]), Idle)
    ensures w' == Reach(w, [Mark, CommitPoll([]), DonePushing])
    ensures w'.server == Up(1, Waiting, Idle) && Unseen(w'.queue) == {}
    ensures w'.issued == w.issued && w'.ledger == w.ledger
  {
    ReachThree(w, Mark, CommitPoll([]), DonePushing);
    var marked := Next(w, Mark);
    assert IsPrioritySort([], []);
    var committed := Next(marked, CommitPoll([]));
    assert committed.server.poller == Pushing([]);
    w' := Next(committed, DonePushing);
  }

  /** The submission's row arrives at a waiting server and is selected. */
  lemma RowArrives(w: World) returns (w': World)
    requires w.server == Up(1, Waiting, Idle) && Unseen(w.queue) == {} && 2 !in w.issued
    ensures w' == Reach(w, [Insert(SUBMISSION_ROWS), Wake, Select([SUBMISSION_NOTICE])])
    ensures w'.server == Up(1, Selected([SUBMISSION_NOTICE]), Idle) && w'.ledger == w.ledger
  {
    ReachThree(w, Insert(SUBMISSION_ROWS), Wake, Select([SUBMISSION_NOTICE]));
    assert SUBMISSION_ROWS.Keys == {2};
    var inserted := Next(w, Insert(SUBMISSION_ROWS));
    assert inserted.queue == w.queue + Rows(SUBMISSION_ROWS);
    var woken := Next(inserted, Wake);
    assert Unseen(woken.queue) == {2};
    assert EventIds([SUBMISSION_NOTICE]) == {2};
    assert IsSelection(woken.queue, [SUBMISSION_NOTICE]);
    w' := Next(woken, Select([SUBMISSION_NOTICE]));
  }

  /** A selected batch of one is marked, committed and handed over. */
  lemma BatchOfOne(w: World, e: Event) returns (w': World)
    requires w.server.Up? && w.server.poller == Selected([e]) && w.server.consumer == Idle
    ensures w' == Reach(w, [Mark, CommitPoll([e]), Push])
    ensures w'.server == Up(w.server.wakeups, Pushing([]), Trying(e, 0)) && w'.ledger == w.ledger
  {
    ReachThree(w, Mark, CommitPoll([e]), Push);
    var marked := Next(w, Mark);
    assert IsPrioritySort([e], [e]);
    var committed := Next(marked, CommitPoll([e]));
    assert committed.server.poller == Pushing([e]);
    assert [e][1..] == [];
    w' := Next(committed, Push);
  }

  lemma Panics(w: World)
    requires w.server.Up? && w.server.consumer == Trying(SUBMISSION_NOTICE, 0) && Blank(w.ledger)
    ensures var w' := Next(w, Try(GOOD_ATTEMPT));
            && w'.server.Down?
            && SUBMISSION in w'.ledger.submissions && w'.ledger.taskScores == map[]
  {
  }

  /** Nothing fails and nothing crashes here, and the task's row is committed before the
      submission's; yet the judge meets an unknown task, because its row was marked unread. The
      panic leaves the submission stored and never scored. */
  lemma SplitPollPanics()
    ensures var w := Reach(INIT, [SignUp(USER), Select([]), Insert(TASK_ROWS)]
                                 + [Mark, CommitPoll([]), DonePushing]
                                 + [Insert(SUBMISSION_ROWS), Wake, Select([SUBMISSION_NOTICE])]
                                 + [Mark, CommitPoll([SUBMISSION_NOTICE]), Push]
                                 + [Try(GOOD_ATTEMPT)]);
            && w.server.Down?
            && SUBMISSION in w.ledger.submissions && w.ledger.taskScores == map[]
  {
    var first, second := [SignUp(USER), Select([]), Insert(TASK_ROWS)], [Mark, CommitPoll([]), DonePushing];
    var third := [Insert(SUBMISSION_ROWS), Wake, Select([SUBMISSION_NOTICE])];
    var fourth := [Mark, CommitPoll([SUBMISSION_NOTICE]), Push];
    var w3 := TaskCommitsLate();
    var w6 := TaskSlipsThrough(w3);
    ReachConcat(INIT, first, second);
    var w9 := RowArrives(w6);
    ReachConcat(INIT, first + second, third);
    var w12 := BatchOfOne(w9, SUBMISSION_NOTICE);
    ReachConcat(INIT, first + second + third, fourth);
    Panics(w12);
    ReachAppend(INIT, first + second + third + fourth, Try(GOOD_ATTEMPT));
  }

  // ---------- A poll that fails ----------

  /** No poll is under way or due. */
  predicate Stalled(w: World) {
    w.server.Up? ==> w.server.wakeups == 0 && (w.server.poller.Waiting? || w.server.poller.Erring?)
  }

  /** Neither a new row nor a new start. */
  ghost predicate Undisturbed(steps: seq<Step>) {
    forall i :: 0 <= i < |steps| ==> !steps[i].Insert? && !steps[i].Restart?
  }

  lemma StepKeepsStalled(w: World, s: Step)
    requires PushInvariant(w) && Stalled(w) && !s.Insert? && !s.Restart?
    ensures Stalled(Next(w, s)) && Unseen(Next(w, s).queue) == Unseen(w.queue) && Next(w, s).log == w.log
  {
    if s.Finish? && Enabled(w, s) {
      assert w.server.consumer.event in w.log;
    }
  }

  /** A failed poll that uses up the last wakeup: in any schedule without a new row or a new start,
      whatever was unseen stays so and nothing more is handed over. */
  lemma {:induction false} FailedPollStrands(w: World, steps: seq<Step>)
    requires PushInvariant(w) && Enabled(w, FailPoll) && w.server.wakeups == 0 && Undisturbed(steps)
    ensures var w' := Reach(Do(w, FailPoll), steps);
            PushInvariant(w') && Stalled(w') && Unseen(w'.queue) == Unseen(w.queue) && w'.log == w.log
  {
    if |steps| == 0 {
      StepKeepsPushInvariant(w, FailPoll);
    } else {
      var before, s := steps[..|steps| - 1], steps[|steps| - 1];
      FailedPollStrands(w, before);
      StepKeepsStalled(Reach(Do(w, FailPoll), before), s);
      StepKeepsPushInvariant(Reach(Do(w, FailPoll), before), s);
    }
  }

  lemma {:induction false} UnseenStaysEmpty(w: World, steps: seq<Step>)
    requires Unseen(w.queue) == {} && Undisturbed(steps)
    ensures Unseen(Reach(w, steps).queue) == {}
  {
    if |steps| > 0 {
      var before, s := steps[..|steps| - 1], steps[|steps| - 1];
      UnseenStaysEmpty(w, before);
      if Enabled(Reach(w, before), s) {
        UnseenShrinks(Reach(w, before), s);
      }
    }
  }

  lemma ConsumerMoves(w: World) returns (s: Step)
    requires w.server.Up? && !w.server.consumer.Idle?
    ensures s.Try? || s.Finish?
    ensures var w' := Next(w, s);
            && w'.server.Up? && w'.server == w.server.(consumer := w'.server.consumer) && w'.queue == w.queue
            && StepsLeft(w'.server.consumer) < StepsLeft(w.server.consumer)
  {
    s := if w.server.consumer.Trying? then Try(FAILING) else Finish(false);
  }

  /** The consumer can always finish the event in hand. */
  lemma {:induction false} ConsumerFinishes(w: World) returns (steps: seq<Step>)
    requires w.server.Up?
    ensures Undisturbed(steps)
    ensures Reach(w, steps).server == w.server.(consumer := Idle) && Reach(w, steps).queue == w.queue
    decreases StepsLeft(w.server.consumer)
  {
    if w.server.consumer.Idle? {
      steps := [];
    } else {
      var s := ConsumerMoves(w);
      var rest := ConsumerFinishes(Next(w, s));
      ReachPrepend(w, s, rest);
      steps := [s] + rest;
    }
  }

  /** With a wakeup waiting, the next poll can read all that the failed one did not. */
  lemma PollsAgain(w: World) returns (steps: seq<Step>)
    requires w.server.Up? && w.server.poller.Erring? && w.server.consumer.Idle? && w.server.wakeups > 0
    ensures Undisturbed(steps) && Unseen(Reach(w, steps).queue) == {}
  {
    var batch := SelectionExists(w.queue, Unseen(w.queue));
    var sorted := EventSource.SortExists(batch);
    ReachThree(w, PushError, Wake, Select(batch));
    var waiting := Next(w, PushError);
    var begun := Next(waiting, Wake);
    assert begun == w.(server := Up(w.server.wakeups - 1, Begun, Idle));
    assert IsSelection(w.queue, batch);
    var selected := Next(begun, Select(batch));
    var marked := Next(selected, Mark);
    assert marked == SetPoller(w.(server := begun.server), Marked(batch, w.queue.Keys));
    steps := [PushError, Wake, Select(batch)];
    ReachAppend(w, steps, Mark);
    ReachAppend(w, steps + [Mark], CommitPoll(sorted));
    steps := steps + [Mark] + [CommitPoll(sorted)];
    assert Reach(w, steps).queue == MarkSeen(w.queue, w.queue.Keys);
  }

  /** The rows a failed poll leaves unseen stay so, whatever the server does without a new row or a
      new start, exactly when there was no further wakeup, or no row. */
  lemma FailedPollStrandsIff(w: World)
    requires PushInvariant(w) && Enabled(w, FailPoll)
    ensures (forall steps :: Undisturbed(steps) ==> Unseen(Reach(Do(w, FailPoll), steps).queue) == Unseen(w.queue))
            <==> w.server.wakeups == 0 || Unseen(w.queue) == {}
  {
    var failed := Do(w, FailPoll);
    if w.server.wakeups == 0 {
      forall steps | Undisturbed(steps) ensures Unseen(Reach(failed, steps).queue) == Unseen(w.queue) {
        FailedPollStrands(w, steps);
      }
    } else if Unseen(w.queue) == {} {
      forall steps | Undisturbed(steps) ensures Unseen(Reach(failed, steps).queue) == Unseen(w.queue) {
        UnseenStaysEmpty(failed, steps);
      }
    } else {
      var first := ConsumerFinishes(failed);
      var second := PollsAgain(Reach(failed, first));
      ReachConcat(failed, first, second);
      assert Undisturbed(first + second);
    }
  }
}
