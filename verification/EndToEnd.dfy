/** CMS, the pipeline and the judge together: once things are quiet, the judge's tables are what CMS's
    submissions say they should be, and without new work they do go quiet. */
module EndToEnd {
  import opened Bridge
  import opened BestScores
  import opened LedgerTables
  import opened LedgerInvariants
  import opened EventPipeline
  import opened PipelineSafety
  import opened PipelineOrder
  import opened PipelineProgress
  import Confluence
  import LedgerInWords

  /** Beside the pipeline's world, the current snapshot of each CMS submission, and what the attempt
      under way has read from CMS, if it has: reading and storing are separate transactions. */
  datatype Joint = Joint(w: World, cms: map<Id, Submission>, read: Option<Fetch<Submission>>)

  const START := Joint(INIT, map[], None)

  const NO_SUBMISSION := Submission(0, 0, 0, Unset, "", None, false)

  /** A CMS transaction writes submissions and, through the triggers, queue rows; an attempt at a
      submission event reads the submission first; anything else is a step of the pipeline. */
  datatype JointStep =
    | Commit(rows: map<Id, (Id, EventType)>, changed: map<Id, Submission>)
    | Read(fails: bool)
    | Act(step: Step)

  predicate AtSubmission(w: World) {
    w.server.Up? && w.server.consumer.Trying? && w.server.consumer.event.eventType.SubmissionEvent?
  }

  function Head(w: World): Id
    requires AtSubmission(w)
  {
    w.server.consumer.event.objectId
  }

  /** An attempt at a submission event stores what was read for it. */
  ghost predicate Possible(j: Joint, s: JointStep) {
    match s
    case Commit(rows, _) => Enabled(j.w, Insert(rows))
    case Read(_) => AtSubmission(j.w) && j.read.None?
    case Act(step) =>
      && Enabled(j.w, step) && !step.Insert?
      && (step.Try? && AtSubmission(j.w) ==> j.read == Some(step.attempt.submission))
  }

  /** What CMS answers now. A submission it does not have is an error, like a query that fails. */
  function Answer(cms: map<Id, Submission>, o: Id, fails: bool): Fetch<Submission> {
    if fails || o !in cms then FetchFailed else Fetched(cms[o])
  }

  ghost function JointDo(j: Joint, s: JointStep): Joint
    requires Possible(j, s)
  {
    match s
    case Commit(rows, changed) => j.(w := Do(j.w, Insert(rows)), cms := j.cms + changed)
    case Read(fails) => j.(read := Some(Answer(j.cms, Head(j.w), fails)))
    case Act(step) => j.(w := Do(j.w, step), read := if step.Try? || step.Crash? then None else j.read)
  }

  /** Where a schedule leads; a step that is not possible when its turn comes is skipped. */
  ghost function JointReach(steps: seq<JointStep>): Joint {
    if |steps| == 0 then START
    else
      var j, s := JointReach(steps[..|steps| - 1]), steps[|steps| - 1];
      if Possible(j, s) then JointDo(j, s) else j
  }

  // ---------- Premises ----------

  /** What CMS never changes: whose submission an id is, for which task, and a task's multiplier. */
  datatype Fixed = Fixed(owner: Owners, taskOf: TaskOf, mult: Multipliers)

  /** A snapshot under its own id, of the submission's one user and task. */
  ghost predicate IsSnapshot(o: Id, s: Submission, fixed: Fixed) {
    && s.id == o && !s.deleted
    && o in fixed.owner && fixed.owner[o] == (s.userId, s.problemId) && fixed.taskOf(o) == s.problemId
  }

  /** A queue row for the submission. The triggers see to it when a transaction writes a submission
      or a result; that evaluations, testcases and datasets, which have no trigger, change only
      together with a result is a premise. */
  ghost predicate Announces(rows: map<Id, (Id, EventType)>, o: Id) {
    exists id :: id in rows && rows[id] == (o, SubmissionEvent)
  }

  /** A nil return means that COMMIT worked, and the last attempt at a submission returns nil. */
  ghost predicate SucceedsInTime(w: World, a: Attempt)
    requires AtSubmission(w)
  {
    var outcome := SubmissionAttempt(w.ledger, a.submission, a.faults).1;
    && (outcome.Done? ==> !a.faults.commit)
    && (w.server.consumer.attempts + 1 >= RETRIES ==> outcome.Done?)
  }

  /** CMS keeps its snapshots in order and announces each change; a task is read with its multiplier;
      everything is calm. Nothing is asked of what an attempt reads. */
  ghost predicate Faithful(j: Joint, s: JointStep, fixed: Fixed)
    requires Possible(j, s)
  {
    match s
    case Commit(rows, changed) =>
      && Calm(j.w, Insert(rows), fixed.taskOf)
      && forall o :: o in changed ==> IsSnapshot(o, changed[o], fixed) && Announces(rows, o)
    case Read(_) => true
    case Act(step) =>
      if step.Try? && AtSubmission(j.w) then SucceedsInTime(j.w, step.attempt)
      else
        && Calm(j.w, step, fixed.taskOf)
        && (step.Try? && j.w.server.consumer.event.eventType.TaskEvent? ==>
              StepMultiplies(Handle(TaskEvent, step.attempt), fixed.mult))
  }

  ghost predicate FaithfulRun(steps: seq<JointStep>, fixed: Fixed) {
    |steps| == 0 ||
    var before, s := steps[..|steps| - 1], steps[|steps| - 1];
    && FaithfulRun(before, fixed)
    && (Possible(JointReach(before), s) ==> Faithful(JointReach(before), s, fixed))
  }

  // ---------- Invariants ----------

  predicate IsSubmission(e: Event, o: Id) {
    e.eventType.SubmissionEvent? && e.objectId == o
  }

  /** Some event for the submission is unseen in the queue or on the given stretch of the line. */
  ghost predicate OnTheRoad(q: Queue, road: seq<Event>, o: Id) {
    || (exists id :: id in Unseen(q) && IsSubmission(EventOf(q, id), o))
    || (exists e :: e in road && IsSubmission(e, o))
  }

  /** Some event for the submission is still to be finished. */
  ghost predicate Awaited(w: World, o: Id)
    requires w.server.Up?
  {
    OnTheRoad(w.queue, Line(w), o)
  }

  /** Another event for the submission is on its way behind the one being handled. */
  ghost predicate AwaitedLater(w: World, o: Id)
    requires AtSubmission(w)
  {
    OnTheRoad(w.queue, Line(w)[1..], o)
  }

  ghost predicate Current(t: Tables, cms: map<Id, Submission>, o: Id)
    requires o in cms
  {
    o in t.submissions && t.submissions[o] == Confluence.Stored(cms[o])
  }

  ghost predicate LedgerSound(t: Tables, fixed: Fixed) {
    && WellKeyed(t) && TotalsAgree(t) && BasesAgree(t) && Owned(t, fixed.owner)
    && Multiplied(t, fixed.mult) && Confluence.AllScored(t)
  }

  ghost predicate CmsSound(j: Joint, fixed: Fixed) {
    && (forall o :: o in j.cms ==> IsSnapshot(o, j.cms[o], fixed))
    && (forall o :: o in j.w.ledger.submissions ==> o in j.cms)
  }

  ghost predicate CaughtUp(j: Joint)
    requires j.w.server.Up?
  {
    forall o :: o in j.cms ==> Current(j.w.ledger, j.cms, o) || Awaited(j.w, o)
  }

  /** What the attempt under way has read is the current snapshot, unless CMS has changed it since,
      and then the queue row of that change is behind. */
  ghost predicate ReadFresh(j: Joint, fixed: Fixed) {
    j.read.Some? ==>
      && AtSubmission(j.w)
      && (j.read.value.Fetched? ==>
            var o, s := Head(j.w), j.read.value.value;
            o in j.cms && IsSnapshot(o, s, fixed) && (s == j.cms[o] || AwaitedLater(j.w, o)))
  }

  ghost predicate JointInvariant(j: Joint, fixed: Fixed) {
    && CalmInvariant(j.w, fixed.taskOf)
    && LedgerSound(j.w.ledger, fixed) && CmsSound(j, fixed) && CaughtUp(j) && ReadFresh(j, fixed)
  }

  // ---------- Events stay on their way ----------

  lemma RoadKept(q: Queue, road: seq<Event>, q': Queue, road': seq<Event>, o: Id)
    requires OnTheRoad(q, road, o)
    requires forall e :: e in road ==> e in road'
    requires forall id :: id in Unseen(q) ==>
      EventOf(q, id) in road' || (id in Unseen(q') && EventOf(q', id) == EventOf(q, id))
    ensures OnTheRoad(q', road', o)
  {
    if id :| id in Unseen(q) && IsSubmission(EventOf(q, id), o) {
      if EventOf(q, id) !in road' {
        assert id in Unseen(q') && IsSubmission(EventOf(q', id), o);
      }
    }
  }

  /** A committed poll moves the rows it marked from the queue to the line. */
  lemma CommitPollOnTheRoad(w: World, sorted: seq<Event>, taskOf: TaskOf)
    requires CalmInvariant(w, taskOf) && Enabled(w, CommitPoll(sorted))
    ensures var w' := Do(w, CommitPoll(sorted));
            && w'.server.Up? && Line(w') == Line(w) + sorted
            && forall id :: id in Unseen(w.queue) ==>
                 || EventOf(w.queue, id) in sorted
                 || (id in Unseen(w'.queue) && EventOf(w'.queue, id) == EventOf(w.queue, id))
  {
    SortKeepsEvents(w.server.poller.batch, sorted);
  }

  /** Only a committed marking takes a row out of sight. */
  lemma OtherStepsKeepUnseen(w: World, s: Step)
    requires PushInvariant(w) && w.server.Up? && Enabled(w, s)
    requires !s.CommitPoll? && !s.LoseCommit?
    ensures forall id :: id in Unseen(w.queue) ==>
      id in Unseen(Do(w, s).queue) && EventOf(Do(w, s).queue, id) == EventOf(w.queue, id)
  {
    if s.Finish? {
      assert w.server.consumer.event in w.log;
    } else if s.Insert? {
      assert Do(w, s).queue == w.queue + Rows(s.rows);
    } else {
      assert Do(w, s).queue == w.queue;
    }
  }

  lemma OtherStepsKeepLine(w: World, s: Step)
    requires w.server.Up? && Enabled(w, s)
    requires !s.CommitPoll? && !s.LoseCommit? && !s.Try? && !s.Crash?
    ensures Do(w, s).server.Up? && Line(Do(w, s)) == Line(w)
  {
  }

  /** A step that is no attempt may add to the line's end what it takes from the queue. */
  ghost predicate Grows(w: World, w': World) {
    && w.server.Up? && w'.server.Up?
    && Line(w) <= Line(w')
    && forall id :: id in Unseen(w.queue) ==>
         || EventOf(w.queue, id) in Line(w')[|Line(w)|..]
         || (id in Unseen(w'.queue) && EventOf(w'.queue, id) == EventOf(w.queue, id))
  }

  lemma CommitPollGrows(w: World, sorted: seq<Event>, taskOf: TaskOf)
    requires CalmInvariant(w, taskOf) && Enabled(w, CommitPoll(sorted))
    ensures Grows(w, Do(w, CommitPoll(sorted)))
  {
    CommitPollOnTheRoad(w, sorted, taskOf);
    assert Line(Do(w, CommitPoll(sorted)))[|Line(w)|..] == sorted;
  }

  lemma ActGrows(w: World, s: Step, taskOf: TaskOf)
    requires CalmInvariant(w, taskOf) && Enabled(w, s) && Calm(w, s, taskOf) && !s.Try?
    ensures Grows(w, Do(w, s))
  {
    if s.CommitPoll? {
      CommitPollGrows(w, s.sorted, taskOf);
    } else {
      OtherStepsKeepLine(w, s);
      OtherStepsKeepUnseen(w, s);
    }
  }

  /** Only the consumer's own steps end an attempt. */
  lemma ActKeepsHead(w: World, s: Step)
    requires AtSubmission(w) && Enabled(w, s) && !s.Try? && !s.Crash?
    ensures AtSubmission(Do(w, s)) && Head(Do(w, s)) == Head(w)
  {
  }

  lemma GrowsKeepsAwaited(w: World, w': World, o: Id)
    requires Grows(w, w')
    ensures Awaited(w, o) ==> Awaited(w', o)
    ensures AtSubmission(w) && AtSubmission(w') && AwaitedLater(w, o) ==> AwaitedLater(w', o)
  {
    var line, line' := Line(w), Line(w');
    assert line' == line + line'[|line|..];
    if Awaited(w, o) {
      RoadKept(w.queue, line, w'.queue, line', o);
    }
    if AtSubmission(w) && AtSubmission(w') && AwaitedLater(w, o) {
      assert line'[1..] == line[1..] + line'[|line|..];
      RoadKept(w.queue, line[1..], w'.queue, line'[1..], o);
    }
  }

  /** What an attempt does to the road: the line stays or loses its head, the queue stays. */
  lemma TryOnTheRoad(w: World, a: Attempt, taskOf: TaskOf)
    requires CalmInvariant(w, taskOf) && Enabled(w, Try(a)) && Calm(w, Try(a), taskOf)
    ensures var w' := Do(w, Try(a));
            && w'.server.Up? && w'.queue == w.queue && |Line(w)| > 0 && Line(w)[0] == w.server.consumer.event
            && (if w'.server.consumer.Finishing? then Line(w') == Line(w)[1..] else Line(w') == Line(w))
  {
    NoPanicInCalm(w, a, taskOf);
  }

  /** Only a finished attempt at the submission itself takes its event off the road. */
  lemma HeadMayLeave(w: World, w': World, o: Id)
    requires w.server.Up? && w'.server.Up? && w'.queue == w.queue && |Line(w)| > 0
    requires Line(w') == Line(w) || Line(w') == Line(w)[1..]
    ensures Awaited(w, o) && !IsSubmission(Line(w)[0], o) ==> Awaited(w', o)
    ensures Awaited(w, o) && Line(w') == Line(w) ==> Awaited(w', o)
    ensures AtSubmission(w) && AwaitedLater(w, o) ==> Awaited(w', o)
  {
    assert Line(w) == [Line(w)[0]] + Line(w)[1..];
  }

  // ---------- Transactions of CMS ----------

  lemma InsertedIsUnseen(w: World, rows: map<Id, (Id, EventType)>, o: Id)
    requires Enabled(w, Insert(rows)) && Announces(rows, o)
    ensures forall road :: OnTheRoad(Do(w, Insert(rows)).queue, road, o)
  {
    var q := Do(w, Insert(rows)).queue;
    var id :| id in rows && rows[id] == (o, SubmissionEvent);
    assert id in Unseen(q) && IsSubmission(EventOf(q, id), o);
  }

  /** A change in CMS leaves a row behind whatever has been read before. */
  lemma CommitKeepsJoint(j: Joint, rows: map<Id, (Id, EventType)>, changed: map<Id, Submission>, fixed: Fixed)
    requires JointInvariant(j, fixed)
    requires Possible(j, Commit(rows, changed)) && Faithful(j, Commit(rows, changed), fixed)
    ensures var j' := JointDo(j, Commit(rows, changed));
            j'.w.server.Up? && CmsSound(j', fixed) && CaughtUp(j') && ReadFresh(j', fixed)
  {
    var j' := JointDo(j, Commit(rows, changed));
    ActGrows(j.w, Insert(rows), fixed.taskOf);
    if AtSubmission(j.w) {
      ActKeepsHead(j.w, Insert(rows));
    }
    forall o | o in changed ensures Awaited(j'.w, o) && (AtSubmission(j'.w) ==> AwaitedLater(j'.w, o)) {
      InsertedIsUnseen(j.w, rows, o);
    }
    forall o | o in j'.cms && o !in changed
      ensures Current(j'.w.ledger, j'.cms, o) || Awaited(j'.w, o)
      ensures AtSubmission(j.w) && AwaitedLater(j.w, o) ==> AwaitedLater(j'.w, o)
    {
      GrowsKeepsAwaited(j.w, j'.w, o);
    }
  }

  // ---------- Attempts ----------

  /** What was read is of the right task, so the attempt is calm. */
  lemma FaithfulIsCalm(j: Joint, step: Step, fixed: Fixed)
    requires JointInvariant(j, fixed) && Possible(j, Act(step)) && Faithful(j, Act(step), fixed)
    ensures Calm(j.w, step, fixed.taskOf)
  {
  }

  /** A successful attempt leaves the snapshot stored, and the other rows as they were. */
  lemma AttemptStores(t: Tables, s: Submission, f: Faults, fixed: Fixed)
    requires LedgerSound(t, fixed) && IsSnapshot(s.id, s, fixed)
    ensures var (t', outcome) := SubmissionAttempt(t, Fetched(s), f);
            && (outcome.Done? && !f.commit ==> t'.submissions == t.submissions[s.id := Confluence.Stored(s)])
            && (outcome.Failed? ==> t' == t)
  {
  }

  lemma AttemptKeepsLedgerSound(t: Tables, e: EventType, a: Attempt, fixed: Fixed)
    requires LedgerSound(t, fixed) && !HandleAttempt(t, e, a).1.Panicked?
    requires e.SubmissionEvent? && a.submission.Fetched? ==>
      IsSnapshot(a.submission.value.id, a.submission.value, fixed)
    requires StepMultiplies(Handle(e, a), fixed.mult)
    ensures LedgerSound(HandleAttempt(t, e, a).0, fixed)
  {
    var step := Handle(e, a);
    StepKeepsTotals(t, step);
    StepKeepsBases(t, step, fixed.owner);
    StepKeepsMultiplied(t, step, fixed.mult);
    if e.SubmissionEvent? && a.submission.Fetched? {
      Confluence.AttemptKeepsScoredIff(t, a.submission.value, a.faults);
    }
  }

  /** What a faithful attempt does to the stored submissions: nothing, unless it is a submission's
      last attempt, and then it stores the snapshot that was read. */
  lemma {:induction false} TryStores(j: Joint, a: Attempt, fixed: Fixed)
    requires JointInvariant(j, fixed) && Possible(j, Act(Try(a))) && Faithful(j, Act(Try(a)), fixed)
    ensures var w' := Do(j.w, Try(a));
            && w'.server.Up?
            && LedgerSound(w'.ledger, fixed)
            && (AtSubmission(j.w) && w'.server.consumer.Finishing? ==> a.submission.Fetched?)
            && w'.ledger.submissions ==
                 if AtSubmission(j.w) && w'.server.consumer.Finishing?
                 then j.w.ledger.submissions[Head(j.w) := Confluence.Stored(a.submission.value)]
                 else j.w.ledger.submissions
  {
    var event := j.w.server.consumer.event;
    FaithfulIsCalm(j, Try(a), fixed);
    NoPanicInCalm(j.w, a, fixed.taskOf);
    AttemptKeepsLedgerSound(j.w.ledger, event.eventType, a, fixed);
    if AtSubmission(j.w) && a.submission.Fetched? {
      AttemptStores(j.w.ledger, a.submission.value, a.faults, fixed);
    }
  }

  /** Handling the head of the line keeps the judge caught up: what leaves the line has been stored. */
  lemma HandledKeepsCaughtUp(j: Joint, j': Joint, s: Submission, fixed: Fixed)
    requires j.w.server.Up? && j.w.server.consumer.Trying? && j'.w.server.Up?
    requires CaughtUp(j) && CmsSound(j, fixed) && j'.cms == j.cms
    requires j'.w.queue == j.w.queue && |Line(j.w)| > 0 && Line(j.w)[0] == j.w.server.consumer.event
    requires Line(j'.w) == if j'.w.server.consumer.Finishing? then Line(j.w)[1..] else Line(j.w)
    requires if AtSubmission(j.w) && j'.w.server.consumer.Finishing? then
               && Head(j.w) in j.cms
               && (s == j.cms[Head(j.w)] || AwaitedLater(j.w, Head(j.w)))
               && j'.w.ledger.submissions == j.w.ledger.submissions[Head(j.w) := Confluence.Stored(s)]
             else j'.w.ledger.submissions == j.w.ledger.submissions
    ensures CmsSound(j', fixed) && CaughtUp(j')
  {
    forall o | o in j.cms ensures Current(j'.w.ledger, j.cms, o) || Awaited(j'.w, o) {
      HeadMayLeave(j.w, j'.w, o);
    }
  }

  lemma TryKeepsJoint(j: Joint, a: Attempt, fixed: Fixed)
    requires JointInvariant(j, fixed) && Possible(j, Act(Try(a))) && Faithful(j, Act(Try(a)), fixed)
    ensures var j' := JointDo(j, Act(Try(a)));
            j'.w.server.Up? && LedgerSound(j'.w.ledger, fixed) && CmsSound(j', fixed) && CaughtUp(j')
  {
    FaithfulIsCalm(j, Try(a), fixed);
    TryOnTheRoad(j.w, a, fixed.taskOf);
    TryStores(j, a, fixed);
    var s := if a.submission.Fetched? then a.submission.value else NO_SUBMISSION;
    HandledKeepsCaughtUp(j, JointDo(j, Act(Try(a))), s, fixed);
  }

  // ---------- Other steps ----------

  lemma ActKeepsLedgerSound(w: World, s: Step, fixed: Fixed)
    requires LedgerSound(w.ledger, fixed) && Enabled(w, s) && !s.Try?
    ensures LedgerSound(Do(w, s).ledger, fixed) && Do(w, s).ledger.submissions == w.ledger.submissions
  {
    if s.SignUp? {
      NewUserKeepsTotals(w.ledger, s.user);
      BasesFrame(w.ledger, NewUser(w.ledger, s.user));
    } else {
      assert Do(w, s).ledger == w.ledger;
    }
  }

  lemma GrowsKeepsCaughtUp(j: Joint, j': Joint, fixed: Fixed)
    requires Grows(j.w, j'.w) && CaughtUp(j) && CmsSound(j, fixed) && ReadFresh(j, fixed)
    requires AtSubmission(j.w) ==> AtSubmission(j'.w) && Head(j'.w) == Head(j.w)
    requires j'.cms == j.cms && j'.read == j.read && j'.w.ledger.submissions == j.w.ledger.submissions
    ensures CmsSound(j', fixed) && CaughtUp(j') && ReadFresh(j', fixed)
  {
    forall o | o in j.cms ensures Current(j'.w.ledger, j.cms, o) || Awaited(j'.w, o) {
      GrowsKeepsAwaited(j.w, j'.w, o);
    }
    if j.read.Some? {
      GrowsKeepsAwaited(j.w, j'.w, Head(j.w));
    }
  }

  lemma ActKeepsJoint(j: Joint, s: Step, fixed: Fixed)
    requires JointInvariant(j, fixed) && Possible(j, Act(s)) && Faithful(j, Act(s), fixed) && !s.Try?
    ensures var j' := JointDo(j, Act(s));
            && j'.w.server.Up? && LedgerSound(j'.w.ledger, fixed)
            && CmsSound(j', fixed) && CaughtUp(j') && ReadFresh(j', fixed)
  {
    ActKeepsLedgerSound(j.w, s, fixed);
    ActGrows(j.w, s, fixed.taskOf);
    if AtSubmission(j.w) {
      ActKeepsHead(j.w, s);
    }
    GrowsKeepsCaughtUp(j, JointDo(j, Act(s)), fixed);
  }

  /** Every step keeps each submission of CMS current in the judge or on its way there, and what an
      attempt has read current or about to be read again. */
  lemma {:induction false} StepKeepsJoint(j: Joint, s: JointStep, fixed: Fixed)
    requires JointInvariant(j, fixed) && Possible(j, s) && Faithful(j, s, fixed)
    ensures JointInvariant(JointDo(j, s), fixed)
  {
    match s
    case Read(_) =>
    case Commit(rows, changed) =>
      StepKeepsCalm(j.w, Insert(rows), fixed.taskOf);
      CommitKeepsJoint(j, rows, changed, fixed);
    case Act(step) =>
      FaithfulIsCalm(j, step, fixed);
      StepKeepsCalm(j.w, step, fixed.taskOf);
      if step.Try? {
        TryKeepsJoint(j, step.attempt, fixed);
      } else {
        ActKeepsJoint(j, step, fixed);
      }
  }

  lemma StartIsSound(fixed: Fixed)
    ensures JointInvariant(START, fixed)
  {
    CalmRunsNeverPanic([], fixed.taskOf);
    TotalsOverRuns([]);
    BasesOverRuns([], fixed.owner);
    ScoresOverRuns([], fixed.mult);
  }

  lemma {:induction false} JointOverRuns(steps: seq<JointStep>, fixed: Fixed)
    requires FaithfulRun(steps, fixed)
    ensures JointInvariant(JointReach(steps), fixed)
  {
    if |steps| == 0 {
      StartIsSound(fixed);
    } else {
      var j, s := JointReach(steps[..|steps| - 1]), steps[|steps| - 1];
      JointOverRuns(steps[..|steps| - 1], fixed);
      if Possible(j, s) {
        StepKeepsJoint(j, s, fixed);
      }
    }
  }

  // ---------- The pipeline's part of a run ----------

  /** The step of the pipeline that a joint step takes, if any. */
  ghost function PipelinePart(j: Joint, s: JointStep): seq<Step> {
    if !Possible(j, s) then []
    else match s
         case Commit(rows, _) => [Insert(rows)]
         case Read(_) => []
         case Act(step) => [step]
  }

  ghost function Pipeline(steps: seq<JointStep>): seq<Step> {
    if |steps| == 0 then []
    else Pipeline(steps[..|steps| - 1]) + PipelinePart(JointReach(steps[..|steps| - 1]), steps[|steps| - 1])
  }

  /** The pipeline takes the same steps alone, and they are calm. */
  lemma {:induction false} PipelineIsCalm(steps: seq<JointStep>, fixed: Fixed)
    requires FaithfulRun(steps, fixed)
    ensures JointReach(steps).w == Reach(INIT, Pipeline(steps)) && CalmRun(Pipeline(steps), fixed.taskOf)
  {
    if |steps| > 0 {
      var before, s := steps[..|steps| - 1], steps[|steps| - 1];
      PipelineIsCalm(before, fixed);
      JointOverRuns(before, fixed);
      PartIsCalm(JointReach(before), s, Pipeline(before), fixed);
    }
  }

  lemma PartIsCalm(j: Joint, s: JointStep, earlier: seq<Step>, fixed: Fixed)
    requires j.w == Reach(INIT, earlier) && CalmRun(earlier, fixed.taskOf) && JointInvariant(j, fixed)
    requires Possible(j, s) ==> Faithful(j, s, fixed)
    ensures CalmRun(earlier + PipelinePart(j, s), fixed.taskOf)
    ensures Reach(INIT, earlier + PipelinePart(j, s)) == if Possible(j, s) then JointDo(j, s).w else j.w
  {
    var part := PipelinePart(j, s);
    if part == [] {
      assert earlier + part == earlier;
    } else {
      if s.Act? {
        FaithfulIsCalm(j, s.step, fixed);
      }
      AppendCalm(earlier, part[0], fixed.taskOf);
      assert part == [part[0]];
    }
  }

  // ---------- The judge agrees with CMS ----------

  /** What each subtask of a result earned. */
  function CmsPoints(s: Submission): seq<real> {
    match s.result
    case None => []
    case Some(result) => seq(|result.subtasks|, i requires 0 <= i < |result.subtasks| => result.subtasks[i].score.score)
  }

  /** The results that CMS holds for a user and a task. */
  ghost function CmsRows(cms: map<Id, Submission>, u: Id, k: Id): set<seq<real>> {
    set o | o in cms && cms[o].userId == u && cms[o].problemId == k :: CmsPoints(cms[o])
  }

  lemma StoredIsCmsPoints(s: Submission)
    ensures Confluence.Stored(s) == StoredSubmission(s.userId, s.problemId, s, CmsPoints(s))
  {
    LedgerInWords.PointsAreStored(s);
    assert SubtaskScores(s) == CmsPoints(s);
  }

  lemma RowsAreCmsRows(t: Tables, cms: map<Id, Submission>, u: Id, k: Id)
    requires t.submissions.Keys == cms.Keys && forall o :: o in cms ==> Current(t, cms, o)
    ensures RowsOf(t, u, k) == CmsRows(cms, u, k)
  {
    forall o | o in cms ensures Belongs(t, o, u, k) <==> cms[o].userId == u && cms[o].problemId == k {
      assert Current(t, cms, o);
    }
    forall r | r in CmsRows(cms, u, k) ensures r in RowsOf(t, u, k) {
      var o :| o in cms && cms[o].userId == u && cms[o].problemId == k && CmsPoints(cms[o]) == r;
      StoredIsCmsPoints(cms[o]);
      assert Current(t, cms, o) && Belongs(t, o, u, k);
    }
    forall r | r in RowsOf(t, u, k) ensures r in CmsRows(cms, u, k) {
      var o :| o in t.submissions && Belongs(t, o, u, k) && t.submissions[o].subtaskDetails == r;
      assert Current(t, cms, o);
      StoredIsCmsPoints(cms[o]);
    }
  }

  lemma QuietIsCurrent(j: Joint, fixed: Fixed)
    requires JointInvariant(j, fixed) && Quiet(j.w) && Unseen(j.w.queue) == {}
    ensures j.w.ledger.submissions.Keys == j.cms.Keys
    ensures forall o :: o in j.cms ==> Current(j.w.ledger, j.cms, o)
  {
    assert Line(j.w) == [];
    forall o | o in j.cms ensures Current(j.w.ledger, j.cms, o) {
      assert !Awaited(j.w, o);
    }
    forall o ensures o in j.w.ledger.submissions <==> o in j.cms {
      assert o in j.cms ==> Current(j.w.ledger, j.cms, o);
    }
  }

  /** The users and tasks that have a CMS submission. */
  ghost function CmsKeys(cms: map<Id, Submission>): set<(Id, Id)> {
    set o | o in cms :: (cms[o].userId, cms[o].problemId)
  }

  /** The score that CMS's results give a user for a task: the best result per subtask, summed, times
      the task's multiplier. */
  ghost function CmsScore(cms: map<Id, Submission>, key: (Id, Id), mult: Multipliers): TaskScore {
    var base := BaseScore(CmsRows(cms, key.0, key.1));
    TaskScore(base * mult(key.1), base)
  }

  ghost function CmsScores(cms: map<Id, Submission>, mult: Multipliers): ScoreRows {
    map key | key in CmsKeys(cms) :: CmsScore(cms, key, mult)
  }

  lemma KeysAreCmsKeys(t: Tables, cms: map<Id, Submission>)
    requires t.submissions.Keys == cms.Keys && forall o :: o in cms ==> Current(t, cms, o)
    ensures Confluence.ScoredKeys(t) == CmsKeys(cms)
  {
    forall key | key in CmsKeys(cms) ensures key in Confluence.ScoredKeys(t) {
      var o :| o in cms && key == (cms[o].userId, cms[o].problemId);
      assert Current(t, cms, o);
    }
    forall key | key in Confluence.ScoredKeys(t) ensures key in CmsKeys(cms) {
      var o :| o in t.submissions && key == (t.submissions[o].userId, t.submissions[o].taskId);
      assert Current(t, cms, o);
    }
  }

  lemma ScoreIsCmsScore(t: Tables, cms: map<Id, Submission>, u: Id, k: Id, mult: Multipliers)
    requires BasesAgree(t) && Multiplied(t, mult) && (u, k) in t.taskScores
    requires t.submissions.Keys == cms.Keys && forall o :: o in cms ==> Current(t, cms, o)
    ensures t.taskScores[(u, k)] == CmsScore(cms, (u, k), mult)
  {
    RowsAreCmsRows(t, cms, u, k);
  }

  lemma SameScores(scores: ScoreRows, cms: map<Id, Submission>, mult: Multipliers)
    requires scores.Keys == CmsKeys(cms) && forall key :: key in scores ==> scores[key] == CmsScore(cms, key, mult)
    ensures scores == CmsScores(cms, mult)
  {
  }

  lemma ScoresAreCmsScores(t: Tables, cms: map<Id, Submission>, mult: Multipliers)
    requires BasesAgree(t) && Multiplied(t, mult) && Confluence.AllScored(t)
    requires t.submissions.Keys == cms.Keys && forall o :: o in cms ==> Current(t, cms, o)
    ensures t.taskScores == CmsScores(cms, mult)
  {
    KeysAreCmsKeys(t, cms);
    forall key | key in t.taskScores ensures t.taskScores[key] == CmsScore(cms, key, mult) {
      ScoreIsCmsScore(t, cms, key.0, key.1, mult);
    }
    SameScores(t.taskScores, cms, mult);
  }

  lemma SubmissionsAreCms(t: Tables, cms: map<Id, Submission>)
    requires t.submissions.Keys == cms.Keys && forall o :: o in cms ==> Current(t, cms, o)
    ensures t.submissions
         == map o | o in cms :: StoredSubmission(cms[o].userId, cms[o].problemId, cms[o], CmsPoints(cms[o]))
  {
    forall o | o in cms
      ensures t.submissions[o] == StoredSubmission(cms[o].userId, cms[o].problemId, cms[o], CmsPoints(cms[o]))
    {
      assert Current(t, cms, o);
      StoredIsCmsPoints(cms[o]);
    }
  }

  /** The judge's tables are those of CMS's current submissions under the tasks' multipliers. */
  ghost predicate Consistent(t: Tables, cms: map<Id, Submission>, mult: Multipliers) {
    && t.submissions
       == (map o | o in cms :: StoredSubmission(cms[o].userId, cms[o].problemId, cms[o], CmsPoints(cms[o])))
    && t.taskScores == CmsScores(cms, mult)
    && forall u :: u in t.users ==> t.users[u] == UserTotal(CmsScores(cms, mult), u)
  }

  lemma QuietIsConsistent(j: Joint, fixed: Fixed)
    requires JointInvariant(j, fixed) && Quiet(j.w) && Unseen(j.w.queue) == {}
    ensures Consistent(j.w.ledger, j.cms, fixed.mult)
  {
    QuietIsCurrent(j, fixed);
    SubmissionsAreCms(j.w.ledger, j.cms);
    ScoresAreCmsScores(j.w.ledger, j.cms, fixed.mult);
  }

  /** Whatever the order of events, retries, failed polls and interleavings: once a faithful run has
      gone quiet, and no poll since the last insert failed that could not afford to, the judge stores
      exactly CMS's submissions in their latest state, the score of every user and task is the one
      computed from CMS's results, and each user's total is the sum of those scores. */
  lemma {:induction false} QuietMeansConsistent(steps: seq<JointStep>, fixed: Fixed)
    requires FaithfulRun(steps, fixed)
    requires Quiet(JointReach(steps).w) && PollsRecover(Pipeline(steps))
    ensures Consistent(JointReach(steps).w.ledger, JointReach(steps).cms, fixed.mult)
  {
    var j := JointReach(steps);
    JointOverRuns(steps, fixed);
    PipelineIsCalm(steps, fixed);
    CalmRunsConserve(Pipeline(steps), fixed.taskOf);
    QuietDeliveredIff(j.w);
    QuietIsConsistent(j, fixed);
  }

  // ---------- Convergence ----------

  /** A step that the server takes by itself. */
  predicate Own(s: JointStep) {
    s.Read? || (s.Act? && OwnStep(s.step))
  }

  /** An attempt is at most two steps: a read and the rest. */
  function JointWork(j: Joint): nat {
    2 * Work(j.w) + if j.read.None? then 1 else 0
  }

  lemma OwnUsesWork(j: Joint, s: JointStep, fixed: Fixed)
    requires JointInvariant(j, fixed) && Possible(j, s) && Faithful(j, s, fixed) && Own(s)
    ensures JointWork(JointDo(j, s)) < JointWork(j)
  {
    if s.Act? {
      StepKeepsJoint(j, s, fixed);
      OwnStepWorks(j.w, s.step);
    }
  }

  /** Quiet still means that the server can do nothing by itself. */
  lemma JointQuietIff(j: Joint)
    requires j.w.server.Up?
    ensures Quiet(j.w) <==> forall s :: Own(s) ==> !Possible(j, s)
  {
    QuietIff(j.w);
    if !Quiet(j.w) {
      var step := SomethingToDo(j.w);
      if AtSubmission(j.w) {
        step := Try(Attempt(if j.read.Some? then j.read.value else FetchFailed, FetchFailed, NO_FAULTS));
        assert Own(Read(false)) && (j.read.None? ==> Possible(j, Read(false)));
      }
      assert Own(Act(step)) && (Possible(j, Read(false)) || Possible(j, Act(step)));
    }
  }

  /** After `steps`, CMS and new accounts leave the server to itself: `more` are steps of its own. */
  ghost predicate LeftAlone(steps: seq<JointStep>, more: seq<JointStep>) {
    |more| == 0 ||
    var before, s := more[..|more| - 1], more[|more| - 1];
    LeftAlone(steps, before) && Own(s) && Possible(JointReach(steps + before), s)
  }

  lemma {:induction false} LeftAloneEnds(steps: seq<JointStep>, more: seq<JointStep>, fixed: Fixed)
    requires FaithfulRun(steps + more, fixed) && LeftAlone(steps, more)
    ensures |more| + JointWork(JointReach(steps + more)) <= JointWork(JointReach(steps))
    decreases |more|
  {
    if |more| == 0 {
      assert steps + more == steps;
    } else {
      var before, s := more[..|more| - 1], more[|more| - 1];
      assert (steps + more)[..|steps + more| - 1] == steps + before;
      LeftAloneEnds(steps, before, fixed);
      JointOverRuns(steps + before, fixed);
      OwnUsesWork(JointReach(steps + before), s, fixed);
    }
  }

  /** The judge converges. Once CMS pauses, the server takes at most so many steps; and when it can
      take no more, and no poll is left stranded, the judge's tables are those of CMS. */
  lemma {:induction false} Converges(steps: seq<JointStep>, more: seq<JointStep>, fixed: Fixed)
    requires FaithfulRun(steps + more, fixed) && LeftAlone(steps, more)
    ensures |more| <= JointWork(JointReach(steps))
    ensures (forall s :: Own(s) ==> !Possible(JointReach(steps + more), s)) && PollsRecover(Pipeline(steps + more))
            ==> Consistent(JointReach(steps + more).w.ledger, JointReach(steps + more).cms, fixed.mult)
  {
    LeftAloneEnds(steps, more, fixed);
    JointOverRuns(steps + more, fixed);
    JointQuietIff(JointReach(steps + more));
    if Quiet(JointReach(steps + more).w) && PollsRecover(Pipeline(steps + more)) {
      QuietMeansConsistent(steps + more, fixed);
    }
  }
}
