/** The judge's tables and what one handler attempt does to them, as functions on values. The
    class `Ledger.Ledger` is proved to compute exactly these. */
module LedgerTables {
  import opened Bridge
  import opened BestScores

  datatype StoredSubmission = StoredSubmission(userId: Id, taskId: Id, details: Submission, subtaskDetails: seq<real>)

  datatype TaskScore = TaskScore(score: real, baseScore: real)

  /** `oia_user` (score column), `oia_task`, `oia_submissions` and `oia_task_score`. */
  datatype Tables = Tables(
    users: map<Id, real>,
    tasks: map<Id, Task>,
    submissions: map<Id, StoredSubmission>,
    taskScores: map<(Id, Id), TaskScore>)

  const EMPTY := Tables(map[], map[], map[], map[])

  /** How an attempt at an event ends: a nil return, an error return, or the panic on an unknown task. */
  datatype Outcome = Done | Failed | Panicked

  /** What the bridge answers for one attempt. */
  datatype Fetch<+T> = Fetched(value: T) | FetchFailed

  /** Which database statements of an attempt fail, beyond those the tables themselves refuse. */
  datatype Faults = Faults(begin: bool, create: bool, scores: bool, previous: bool, multiplier: bool,
                           save: bool, increment: bool, commit: bool)

  const NO_FAULTS := Faults(false, false, false, false, false, false, false, false)

  /** No statement up to the SELECT of the multiplier fails. */
  predicate ReachesMultiplier(f: Faults) {
    !f.begin && !f.create && !f.scores && !f.previous && !f.multiplier
  }

  function SubtaskScores(s: Submission): seq<real> {
    if s.result.None? then []
    else
      var subtasks := s.result.value.subtasks;
      seq(|subtasks|, i requires 0 <= i < |subtasks| => subtasks[i].score.score)
  }

  /** The upsert keeps the user and task of a row that exists; a new row needs its user (foreign key). */
  function StoreSubmission(t: Tables, s: Submission): Option<Tables> {
    if s.deleted then
      Some(t.(submissions := t.submissions - {s.id}))
    else if s.id in t.submissions then
      Some(t.(submissions := t.submissions[s.id :=
        t.submissions[s.id].(details := s, subtaskDetails := SubtaskScores(s))]))
    else if s.userId in t.users then
      Some(t.(submissions := t.submissions[s.id :=
        StoredSubmission(s.userId, s.problemId, s, SubtaskScores(s))]))
    else
      None
  }

  predicate Belongs(t: Tables, id: Id, u: Id, k: Id) {
    id in t.submissions && t.submissions[id].userId == u && t.submissions[id].taskId == k
  }

  function IdsOf(t: Tables, u: Id, k: Id): set<Id> {
    set id | id in t.submissions && Belongs(t, id, u, k)
  }

  function RowsOf(t: Tables, u: Id, k: Id): set<seq<real>> {
    set id | id in t.submissions && Belongs(t, id, u, k) :: t.submissions[id].subtaskDetails
  }

  function PreviousScore(t: Tables, u: Id, k: Id): real {
    if (u, k) in t.taskScores then t.taskScores[(u, k)].score else 0.0
  }

  function AddToUser(t: Tables, u: Id, delta: real): Tables {
    if u in t.users then t.(users := t.users[u := t.users[u] + delta]) else t
  }

  /** The stored score of a base score under a task's multiplier. */
  function Scaled(base: real, multiplier: real): real {
    base * multiplier
  }

  datatype Recalculation = Recalculated(tables: Tables) | UnknownTask | Refused

  /** Store `base` for a user and task and move the user's total by the difference. A first score
      row needs its user (foreign key). */
  function PutScore(t: Tables, u: Id, k: Id, base: real): Recalculation {
    if k !in t.tasks then UnknownTask
    else if (u, k) !in t.taskScores && u !in t.users then Refused
    else
      var score := Scaled(base, t.tasks[k].multiplier);
      Recalculated(AddToUser(t.(taskScores := t.taskScores[(u, k) := TaskScore(score, base)]),
                             u, score - PreviousScore(t, u, k)))
  }

  ghost function Recalculate(t: Tables, u: Id, k: Id): Recalculation {
    PutScore(t, u, k, BaseScore(RowsOf(t, u, k)))
  }

  /** A submission attempt. On the panic the deferred close still runs, with no error recorded, and
      so commits the submission row alone. A commit that fails is not reported. */
  ghost function SubmissionAttempt(t: Tables, fetch: Fetch<Submission>, f: Faults): (Tables, Outcome) {
    if fetch.FetchFailed? || StoreSubmission(t, fetch.value).None? || !ReachesMultiplier(f) then
      (t, Failed)
    else
      var s, t1 := fetch.value, StoreSubmission(t, fetch.value).value;
      match Recalculate(t1, s.userId, s.problemId)
      case UnknownTask => (if f.commit then t else t1, Panicked)
      case Refused => (t, Failed)
      case Recalculated(t2) => if f.save || f.increment then (t, Failed) else (if f.commit then t else t2, Done)
  }

  function TaskAttempt(t: Tables, fetch: Fetch<Task>, f: Faults): (Tables, Outcome) {
    if fetch.FetchFailed? || f.begin || f.save then (t, Failed)
    else (if f.commit then t else t.(tasks := t.tasks[fetch.value.id := fetch.value]), Done)
  }

  /** A new account starts with score 0; a taken id is refused. */
  function NewUser(t: Tables, u: Id): Tables {
    if u in t.users then t else t.(users := t.users[u := 0.0])
  }

  /** What one handler attempt meets. */
  datatype Attempt = Attempt(submission: Fetch<Submission>, task: Fetch<Task>, faults: Faults)

  /** The handler: dispatch on the event type, ignoring types it does not know. */
  ghost function HandleAttempt(t: Tables, eventType: EventType, a: Attempt): (Tables, Outcome) {
    match eventType
    case SubmissionEvent => SubmissionAttempt(t, a.submission, a.faults)
    case TaskEvent => TaskAttempt(t, a.task, a.faults)
    case OtherEvent(_) => (t, Done)
  }
}
