/** The triggers that CMS's tables fire (`oiajudge/pkg/cmsbridge/migrations/001.sql`) and what they
    guarantee together with CMS's foreign keys: no submission is announced before its task. */
module CmsTriggers {
  import opened Bridge
  import opened EventPipeline
  import opened PipelineOrder

  /** A row inserted or updated in one of the three watched tables. */
  datatype Change =
    | TaskWritten(task: Id)
    | SubmissionWritten(submission: Id, ofTask: Id)
    | ResultWritten(resultOf: Option<Id>)

  /** The tasks of CMS, and its submissions with the task of each. */
  datatype Cms = Cms(tasks: set<Id>, submissions: map<Id, Id>)

  type Notice = (Id, EventType)

  /** What a change makes its trigger insert into `event_queue`. */
  function Notices(c: Change): seq<Notice> {
    match c
    case TaskWritten(id) => [(id, TaskEvent)]
    case SubmissionWritten(id, _) => [(id, SubmissionEvent)]
    case ResultWritten(None) => []
    case ResultWritten(Some(id)) => [(id, SubmissionEvent)]
  }

  function AllNotices(changes: seq<Change>): seq<Notice> {
    if |changes| == 0 then [] else AllNotices(changes[..|changes| - 1]) + Notices(changes[|changes| - 1])
  }

  /** The triggers tell exactly what was written: tasks as tasks, submissions and results as
      submissions. */
  lemma {:induction false} NoticesAreWrites(changes: seq<Change>)
    ensures forall t :: (t, TaskEvent) in AllNotices(changes) <==> TaskWritten(t) in changes
    ensures forall o :: (o, SubmissionEvent) in AllNotices(changes)
                        <==> ResultWritten(Some(o)) in changes || exists k :: SubmissionWritten(o, k) in changes
    ensures forall n :: n in AllNotices(changes) ==> n.1.TaskEvent? || n.1.SubmissionEvent?
  {
    if |changes| > 0 {
      var before, c := changes[..|changes| - 1], changes[|changes| - 1];
      NoticesAreWrites(before);
      assert changes == before + [c];
    }
  }

  function Apply(cms: Cms, c: Change): Cms {
    match c
    case TaskWritten(id) => cms.(tasks := cms.tasks + {id})
    case SubmissionWritten(id, k) => cms.(submissions := cms.submissions[id := k])
    case ResultWritten(_) => cms
  }

  function ApplyAll(cms: Cms, changes: seq<Change>): Cms {
    if |changes| == 0 then cms else Apply(ApplyAll(cms, changes[..|changes| - 1]), changes[|changes| - 1])
  }

  /** Foreign keys, and that a submission keeps its task. */
  predicate Permitted(cms: Cms, c: Change) {
    match c
    case TaskWritten(_) => true
    case SubmissionWritten(id, k) => k in cms.tasks && (id in cms.submissions ==> cms.submissions[id] == k)
    case ResultWritten(None) => true
    case ResultWritten(Some(id)) => id in cms.submissions
  }

  predicate AllPermitted(cms: Cms, changes: seq<Change>) {
    |changes| == 0 ||
    var before, c := changes[..|changes| - 1], changes[|changes| - 1];
    AllPermitted(cms, before) && Permitted(ApplyAll(cms, before), c)
  }

  ghost predicate Sound(cms: Cms) {
    forall id :: id in cms.submissions ==> cms.submissions[id] in cms.tasks
  }

  ghost predicate TaskNoticed(notices: seq<Notice>, t: Id) {
    (t, TaskEvent) in notices
  }

  /** Every submission notice of a transaction is for a task that was there before or is noticed too. */
  lemma {:induction false} NoticesCoverTasks(cms: Cms, changes: seq<Change>)
    requires Sound(cms) && AllPermitted(cms, changes)
    ensures var after, notices := ApplyAll(cms, changes), AllNotices(changes);
            && Sound(after)
            && (forall id :: id in cms.submissions ==>
                  id in after.submissions && after.submissions[id] == cms.submissions[id])
            && (forall t :: t in after.tasks <==> t in cms.tasks || TaskNoticed(notices, t))
            && (forall o :: (o, SubmissionEvent) in notices ==> o in after.submissions)
    decreases |changes|
  {
    if |changes| > 0 {
      NoticesCoverTasks(cms, changes[..|changes| - 1]);
    }
  }

  /** The queue rows of a transaction: each notice under an id of its own. */
  ghost predicate Numbers(rows: map<Id, Notice>, notices: seq<Notice>) {
    && |rows| == |notices|
    && (forall id :: id in rows ==> rows[id] in notices)
    && (forall n :: n in notices ==> exists id :: id in rows && rows[id] == n)
  }

  /** The premise of calm runs about inserts is thus a fact about CMS: as long as the tasks it
      started with have been announced, every permitted transaction keeps announcing tasks no later
      than their submissions. */
  lemma CommitAnnouncesTasks(announced: set<Id>, cms: Cms, changes: seq<Change>, rows: map<Id, Notice>, taskOf: TaskOf)
    requires Sound(cms) && AllPermitted(cms, changes) && cms.tasks <= announced
    requires Numbers(rows, AllNotices(changes))
    requires forall o :: o in ApplyAll(cms, changes).submissions ==> taskOf(o) == ApplyAll(cms, changes).submissions[o]
    ensures forall id :: id in rows && rows[id].1.SubmissionEvent? ==> taskOf(rows[id].0) in announced + TasksIn(rows)
    ensures Sound(ApplyAll(cms, changes))
    ensures ApplyAll(cms, changes).tasks <= announced + TasksIn(rows)
  {
    var after, notices := ApplyAll(cms, changes), AllNotices(changes);
    NoticesCoverTasks(cms, changes);
    RowsCover(rows, notices);
    forall t | t in after.tasks ensures t in announced + TasksIn(rows) {
      assert t in cms.tasks || TaskNoticed(notices, t);
    }
    forall id | id in rows && rows[id].1.SubmissionEvent? ensures taskOf(rows[id].0) in announced + TasksIn(rows) {
      var o := rows[id].0;
      assert (o, SubmissionEvent) in notices;
      assert after.submissions[o] in after.tasks;
    }
  }

  lemma RowsCover(rows: map<Id, Notice>, notices: seq<Notice>)
    requires Numbers(rows, notices)
    ensures forall t :: TaskNoticed(notices, t) ==> t in TasksIn(rows)
    ensures forall id :: id in rows && rows[id].1.SubmissionEvent? ==> (rows[id].0, SubmissionEvent) in notices
  {
    forall t | TaskNoticed(notices, t) ensures t in TasksIn(rows) {
      var id :| id in rows && rows[id] == (t, TaskEvent);
    }
    forall id | id in rows && rows[id].1.SubmissionEvent? ensures (rows[id].0, SubmissionEvent) in notices {
      assert rows[id] == (rows[id].0, SubmissionEvent);
    }
  }

  // ---------- Whole runs ----------

  /** CMS before the first step, and the queue rows that the migration inserts for its tasks. Its
      submissions, if any, get none. */
  datatype Start = Start(cms: Cms, rows: map<Id, Notice>)

  ghost predicate Installed(start: Start) {
    && Sound(start.cms)
    && (forall id :: id in start.rows ==> start.rows[id].1.TaskEvent?)
    && TasksIn(start.rows) == start.cms.tasks
  }

  /** A transaction of CMS with the queue rows of its notices, or a step of anything else. */
  datatype CmsStep = Transaction(changes: seq<Change>, rows: map<Id, Notice>) | Other(step: Step)

  function StepOf(s: CmsStep): Step {
    match s
    case Transaction(_, rows) => Insert(rows)
    case Other(step) => step
  }

  function Steps(start: Start, run: seq<CmsStep>): seq<Step> {
    if |run| == 0 then [Insert(start.rows)] else Steps(start, run[..|run| - 1]) + [StepOf(run[|run| - 1])]
  }

  ghost function WorldAfter(start: Start, run: seq<CmsStep>): World {
    Reach(INIT, Steps(start, run))
  }

  ghost function CmsAfter(start: Start, run: seq<CmsStep>): Cms {
    if |run| == 0 then start.cms
    else
      var before, s := run[..|run| - 1], run[|run| - 1];
      if s.Transaction? && Enabled(WorldAfter(start, before), Insert(s.rows))
      then ApplyAll(CmsAfter(start, before), s.changes)
      else CmsAfter(start, before)
  }

  /** CMS keeps its foreign keys and a submission's task, and no transaction commits between the
      SELECT and the UPDATE of a poll. */
  ghost predicate PermittedStep(w: World, cms: Cms, s: CmsStep, taskOf: TaskOf)
    requires Enabled(w, StepOf(s))
  {
    match s
    case Transaction(changes, rows) =>
      && AllPermitted(cms, changes) && Numbers(rows, AllNotices(changes))
      && !(w.server.Up? && w.server.poller.Selected?)
      && forall o :: o in ApplyAll(cms, changes).submissions ==> taskOf(o) == ApplyAll(cms, changes).submissions[o]
    case Other(step) =>
      !step.Insert? && Calm(w, step, taskOf)
  }

  ghost predicate PermittedRun(start: Start, run: seq<CmsStep>, taskOf: TaskOf) {
    |run| == 0 ||
    var before, s := run[..|run| - 1], run[|run| - 1];
    && PermittedRun(start, before, taskOf)
    && (Enabled(WorldAfter(start, before), StepOf(s)) ==>
          PermittedStep(WorldAfter(start, before), CmsAfter(start, before), s, taskOf))
  }

  lemma AnnouncedGrows(w: World, s: Step)
    ensures Next(w, s).announced == if s.Insert? && Enabled(w, s) then w.announced + TasksIn(s.rows) else w.announced
  {
  }

  lemma StartIsCalm(start: Start, taskOf: TaskOf)
    requires Installed(start)
    ensures CalmRun(Steps(start, []), taskOf) && start.cms.tasks <= WorldAfter(start, []).announced
  {
    AppendCalm([], Insert(start.rows), taskOf);
    assert [] + [Insert(start.rows)] == [Insert(start.rows)];
    AnnouncedGrows(INIT, Insert(start.rows));
  }

  /** What calm runs ask of inserts, the migration, the triggers and CMS's foreign keys provide. */
  lemma {:induction false} PermittedRunsAreCalm(start: Start, run: seq<CmsStep>, taskOf: TaskOf)
    requires Installed(start) && PermittedRun(start, run, taskOf)
    ensures CalmRun(Steps(start, run), taskOf)
    ensures Sound(CmsAfter(start, run)) && CmsAfter(start, run).tasks <= WorldAfter(start, run).announced
  {
    if |run| == 0 {
      StartIsCalm(start, taskOf);
    } else {
      var before, s := run[..|run| - 1], run[|run| - 1];
      var w := WorldAfter(start, before);
      PermittedRunsAreCalm(start, before, taskOf);
      if s.Transaction? && Enabled(w, Insert(s.rows)) {
        CommitAnnouncesTasks(w.announced, CmsAfter(start, before), s.changes, s.rows, taskOf);
      }
      AppendCalm(Steps(start, before), StepOf(s), taskOf);
      AnnouncedGrows(w, StepOf(s));
    }
  }

  /** So behind CMS and its triggers the judge never meets an unknown task. */
  lemma PermittedRunsNeverPanic(start: Start, run: seq<CmsStep>, taskOf: TaskOf)
    requires Installed(start) && PermittedRun(start, run, taskOf)
    ensures WorldAfter(start, run).server.Up?
  {
    PermittedRunsAreCalm(start, run, taskOf);
    CalmRunsNeverPanic(Steps(start, run), taskOf);
  }
}
