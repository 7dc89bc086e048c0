/** What every reachable state of the judge's tables satisfies: totals kept by adding differences
    agree with totals computed from scratch. */
module LedgerInvariants {
  import opened Bridge
  import opened BestScores
  import opened LedgerTables

  // ---------- Sums over score rows ----------

  type ScoreRows = map<(Id, Id), TaskScore>

  ghost function ScoreSum(scores: ScoreRows, keys: set<(Id, Id)>): real
    requires keys <= scores.Keys
    decreases |keys|
  {
    if keys == {} then 0.0
    else
      var k :| k in keys;
      scores[k].score + ScoreSum(scores, keys - {k})
  }

  /** Any key may be taken out first. */
  lemma {:induction false} ScoreSumRemove(scores: ScoreRows, keys: set<(Id, Id)>, k: (Id, Id))
    requires keys <= scores.Keys && k in keys
    ensures ScoreSum(scores, keys) == scores[k].score + ScoreSum(scores, keys - {k})
    decreases |keys|
  {
    var first :| first in keys && ScoreSum(scores, keys) == scores[first].score + ScoreSum(scores, keys - {first});
    if first != k {
      ScoreSumRemove(scores, keys - {first}, k);
      ScoreSumRemove(scores, keys - {k}, first);
      assert keys - {first} - {k} == keys - {k} - {first};
    }
  }

  lemma {:induction false} ScoreSumFrame(scores: ScoreRows, scores': ScoreRows, keys: set<(Id, Id)>)
    requires keys <= scores.Keys && keys <= scores'.Keys
    requires forall k :: k in keys ==> scores[k] == scores'[k]
    ensures ScoreSum(scores, keys) == ScoreSum(scores', keys)
    decreases |keys|
  {
    if keys != {} {
      var k :| k in keys;
      ScoreSumRemove(scores, keys, k);
      ScoreSumRemove(scores', keys, k);
      ScoreSumFrame(scores, scores', keys - {k});
    }
  }

  ghost function KeysOf(scores: ScoreRows, u: Id): set<(Id, Id)> {
    set k | k in scores && k.0 == u
  }

  /** A user's total computed from scratch. */
  ghost function UserTotal(scores: ScoreRows, u: Id): real {
    ScoreSum(scores, KeysOf(scores, u))
  }

  /** Writing one row moves its own user's total by the difference and no other total. */
  lemma UserTotalAfterWrite(scores: ScoreRows, u: Id, k: Id, row: TaskScore, v: Id)
    ensures UserTotal(scores[(u, k) := row], v)
         == UserTotal(scores, v)
            + if v == u then row.score - (if (u, k) in scores then scores[(u, k)].score else 0.0) else 0.0
  {
    var scores' := scores[(u, k) := row];
    var rest := KeysOf(scores, v) - {(u, k)};
    ScoreSumFrame(scores, scores', rest);
    if v == u {
      assert KeysOf(scores', u) - {(u, k)} == rest;
      ScoreSumRemove(scores', KeysOf(scores', u), (u, k));
      if (u, k) in scores {
        ScoreSumRemove(scores, KeysOf(scores, u), (u, k));
      } else {
        assert KeysOf(scores, u) == rest;
      }
    } else {
      assert KeysOf(scores', v) == KeysOf(scores, v) == rest;
    }
  }

  // ---------- The invariants ----------

  /** Foreign keys, and that a score row's task is known. */
  ghost predicate WellKeyed(t: Tables) {
    && (forall k :: k in t.taskScores ==> k.0 in t.users && k.1 in t.tasks)
    && (forall id :: id in t.submissions ==> t.submissions[id].userId in t.users)
  }

  /** Each user's score is the sum of that user's task scores. */
  ghost predicate TotalsAgree(t: Tables) {
    forall u :: u in t.users ==> t.users[u] == UserTotal(t.taskScores, u)
  }

  /** Each base score is the one computed afresh from the stored submissions. */
  ghost predicate BasesAgree(t: Tables) {
    forall u, k :: (u, k) in t.taskScores ==> t.taskScores[(u, k)].baseScore == BaseScore(RowsOf(t, u, k))
  }

  lemma PutScoreKeepsTotals(t: Tables, u: Id, k: Id, base: real)
    requires WellKeyed(t) && TotalsAgree(t) && PutScore(t, u, k, base).Recalculated?
    ensures WellKeyed(PutScore(t, u, k, base).tables) && TotalsAgree(PutScore(t, u, k, base).tables)
  {
    var t' := PutScore(t, u, k, base).tables;
    forall v | v in t'.users ensures t'.users[v] == UserTotal(t'.taskScores, v) {
      UserTotalAfterWrite(t.taskScores, u, k, t'.taskScores[(u, k)], v);
    }
  }

  lemma NewUserKeepsTotals(t: Tables, u: Id)
    requires WellKeyed(t) && TotalsAgree(t)
    ensures WellKeyed(NewUser(t, u)) && TotalsAgree(NewUser(t, u))
  {
    if u !in t.users {
      assert KeysOf(t.taskScores, u) == {};
    }
  }

  // ---------- Whole runs ----------

  /** Everything that writes these tables: handler attempts, whether they succeed, fail or panic
      (a panic ends the process, but the tables stay for the next one), and new accounts. */
  datatype LedgerStep = Handle(eventType: EventType, attempt: Attempt) | SignUp(user: Id)

  ghost function After(t: Tables, step: LedgerStep): Tables {
    match step
    case Handle(e, a) => HandleAttempt(t, e, a).0
    case SignUp(u) => NewUser(t, u)
  }

  ghost function AfterAll(t: Tables, steps: seq<LedgerStep>): Tables {
    if |steps| == 0 then t else After(AfterAll(t, steps[..|steps| - 1]), steps[|steps| - 1])
  }

  lemma RescoringKeepsTotals(t: Tables, u: Id, k: Id)
    requires WellKeyed(t) && TotalsAgree(t) && Recalculate(t, u, k).Recalculated?
    ensures WellKeyed(Recalculate(t, u, k).tables) && TotalsAgree(Recalculate(t, u, k).tables)
  {
    PutScoreKeepsTotals(t, u, k, BaseScore(RowsOf(t, u, k)));
  }

  lemma StoringKeepsTotals(t: Tables, s: Submission)
    requires WellKeyed(t) && TotalsAgree(t) && StoreSubmission(t, s).Some?
    ensures WellKeyed(StoreSubmission(t, s).value) && TotalsAgree(StoreSubmission(t, s).value)
  {
  }

  lemma SubmissionKeepsTotals(t: Tables, fetch: Fetch<Submission>, f: Faults)
    requires WellKeyed(t) && TotalsAgree(t)
    ensures WellKeyed(SubmissionAttempt(t, fetch, f).0) && TotalsAgree(SubmissionAttempt(t, fetch, f).0)
  {
    if fetch.Fetched? && StoreSubmission(t, fetch.value).Some? {
      var s, t1 := fetch.value, StoreSubmission(t, fetch.value).value;
      StoringKeepsTotals(t, s);
      if Recalculate(t1, s.userId, s.problemId).Recalculated? {
        RescoringKeepsTotals(t1, s.userId, s.problemId);
      }
    }
  }

  lemma StepKeepsTotals(t: Tables, step: LedgerStep)
    requires WellKeyed(t) && TotalsAgree(t)
    ensures WellKeyed(After(t, step)) && TotalsAgree(After(t, step))
  {
    match step
    case SignUp(u) => NewUserKeepsTotals(t, u);
    case Handle(SubmissionEvent, a) => SubmissionKeepsTotals(t, a.submission, a.faults);
    case Handle(_, _) =>
  }

  /** In every reachable state the totals kept by differences are the true totals. */
  lemma {:induction false} TotalsOverRuns(steps: seq<LedgerStep>)
    ensures WellKeyed(AfterAll(EMPTY, steps)) && TotalsAgree(AfterAll(EMPTY, steps))
  {
    if |steps| > 0 {
      TotalsOverRuns(steps[..|steps| - 1]);
      StepKeepsTotals(AfterAll(EMPTY, steps[..|steps| - 1]), steps[|steps| - 1]);
    }
  }

  // ---------- Base scores ----------

  /** `owner` says whose submission each id is and for which task. */
  type Owners = map<Id, (Id, Id)>

  ghost predicate Owned(t: Tables, owner: Owners) {
    forall id :: id in t.submissions ==>
      id in owner && owner[id] == (t.submissions[id].userId, t.submissions[id].taskId)
  }

  /** The bridge never reports a deletion without an error, and CMS never moves a submission. */
  ghost predicate StepRespects(step: LedgerStep, owner: Owners) {
    step.Handle? && step.eventType.SubmissionEvent? && step.attempt.submission.Fetched? ==>
      var s := step.attempt.submission.value;
      !s.deleted && s.id in owner && owner[s.id] == (s.userId, s.problemId)
  }

  /** Storing a submission under its own key changes that key's rows only. */
  lemma StoreFrame(t: Tables, s: Submission, u: Id, k: Id)
    requires !s.deleted && StoreSubmission(t, s).Some?
    requires s.id in t.submissions ==> Belongs(t, s.id, s.userId, s.problemId)
    requires (u, k) != (s.userId, s.problemId)
    ensures RowsOf(StoreSubmission(t, s).value, u, k) == RowsOf(t, u, k)
  {
    var t1 := StoreSubmission(t, s).value;
    forall id | id in t1.submissions ensures Belongs(t1, id, u, k) <==> Belongs(t, id, u, k) {
    }
    assert forall id :: Belongs(t, id, u, k) ==> t1.submissions[id].subtaskDetails == t.submissions[id].subtaskDetails;
    forall r | r in RowsOf(t, u, k) ensures r in RowsOf(t1, u, k) {
      var id :| id in t.submissions && Belongs(t, id, u, k) && t.submissions[id].subtaskDetails == r;
      assert Belongs(t1, id, u, k);
    }
  }

  lemma SubmissionKeepsBases(t: Tables, s: Submission)
    requires WellKeyed(t) && BasesAgree(t)
    requires !s.deleted && StoreSubmission(t, s).Some?
    requires s.id in t.submissions ==> Belongs(t, s.id, s.userId, s.problemId)
    ensures var t1 := StoreSubmission(t, s).value;
            match Recalculate(t1, s.userId, s.problemId)
            case UnknownTask => BasesAgree(t1)
            case Refused => true
            case Recalculated(t2) => BasesAgree(t2)
  {
    var t1 := StoreSubmission(t, s).value;
    forall u, k | (u, k) in t.taskScores && (u, k) != (s.userId, s.problemId)
      ensures t.taskScores[(u, k)].baseScore == BaseScore(RowsOf(t1, u, k))
    {
      StoreFrame(t, s, u, k);
    }
    match Recalculate(t1, s.userId, s.problemId)
    case UnknownTask =>
      assert (s.userId, s.problemId) !in t.taskScores;
    case Refused =>
    case Recalculated(t2) =>
      forall u, k ensures RowsOf(t2, u, k) == RowsOf(t1, u, k) {
        assert forall id :: Belongs(t2, id, u, k) <==> Belongs(t1, id, u, k);
      }
  }

  /** Base scores depend on the score rows and the stored submissions only. */
  lemma BasesFrame(t: Tables, t': Tables)
    requires t'.submissions == t.submissions && t'.taskScores == t.taskScores
    ensures BasesAgree(t) ==> BasesAgree(t')
  {
    forall u, k ensures RowsOf(t', u, k) == RowsOf(t, u, k) {
      assert forall id :: Belongs(t', id, u, k) <==> Belongs(t, id, u, k);
    }
  }

  lemma AttemptKeepsBases(t: Tables, fetch: Fetch<Submission>, f: Faults, owner: Owners)
    requires WellKeyed(t) && BasesAgree(t) && Owned(t, owner)
    requires fetch.Fetched? ==>
      var s := fetch.value;
      !s.deleted && s.id in owner && owner[s.id] == (s.userId, s.problemId)
    ensures BasesAgree(SubmissionAttempt(t, fetch, f).0) && Owned(SubmissionAttempt(t, fetch, f).0, owner)
  {
    if fetch.Fetched? && StoreSubmission(t, fetch.value).Some? {
      var s := fetch.value;
      SubmissionKeepsBases(t, s);
      assert Owned(StoreSubmission(t, s).value, owner);
    }
  }

  lemma StepKeepsBases(t: Tables, step: LedgerStep, owner: Owners)
    requires WellKeyed(t) && BasesAgree(t) && Owned(t, owner) && StepRespects(step, owner)
    ensures BasesAgree(After(t, step)) && Owned(After(t, step), owner)
  {
    match step
    case SignUp(u) =>
      BasesFrame(t, NewUser(t, u));
    case Handle(e, a) =>
      match e
      case SubmissionEvent => AttemptKeepsBases(t, a.submission, a.faults, owner);
      case TaskEvent => BasesFrame(t, TaskAttempt(t, a.task, a.faults).0);
      case OtherEvent(_) =>
  }

  /** In every reachable state each stored base score is the sum, over subtask positions, of the
      best stored result, as long as no submission changes its user or task. */
  lemma {:induction false} BasesOverRuns(steps: seq<LedgerStep>, owner: Owners)
    requires forall i :: 0 <= i < |steps| ==> StepRespects(steps[i], owner)
    ensures BasesAgree(AfterAll(EMPTY, steps)) && Owned(AfterAll(EMPTY, steps), owner)
  {
    if |steps| > 0 {
      var before := steps[..|steps| - 1];
      BasesOverRuns(before, owner);
      TotalsOverRuns(before);
      StepKeepsBases(AfterAll(EMPTY, before), steps[|steps| - 1], owner);
    }
  }

  /** The premise cannot be dropped. For a submission stored under a scored key, an event that
      succeeds keeps the base scores right whatever its result exactly when it names that key. */
  lemma BasesNeedStableKeys(t: Tables, s: Submission, u: Id, k: Id)
    requires WellKeyed(t) && BasesAgree(t)
    requires !s.deleted && s.userId in t.users && s.problemId in t.tasks
    requires Belongs(t, s.id, u, k) && (u, k) in t.taskScores
    ensures (forall result :: BasesAgree(SubmissionAttempt(t, Fetched(s.(result := result)), NO_FAULTS).0))
            <==> (s.userId, s.problemId) == (u, k)
  {
    if (s.userId, s.problemId) == (u, k) {
      forall result ensures BasesAgree(SubmissionAttempt(t, Fetched(s.(result := result)), NO_FAULTS).0) {
        SubmissionKeepsBases(t, s.(result := result));
      }
    } else {
      var high := t.taskScores[(u, k)].baseScore + 1.0;
      var result := Some(SubmissionResult(Score(high, high), [SubtaskResult(0, Score(high, high), [])], []));
      var s' := s.(result := result);
      var t1 := StoreSubmission(t, s').value;
      assert SubtaskScores(s') == [high];
      var t2 := SubmissionAttempt(t, Fetched(s'), NO_FAULTS).0;
      assert t2.taskScores[(u, k)] == t.taskScores[(u, k)];
      assert Belongs(t2, s.id, u, k) && t2.submissions[s.id].subtaskDetails == [high];
      BaseAtLeastEach(RowsOf(t2, u, k), [high]);
      assert SumSeq([high]) == high by {
        assert [high][..0] == [];
      }
      assert !BasesAgree(t2);
    }
  }

  // ---------- Scores and multipliers ----------

  /** What each task's score is multiplied by, while nobody changes it. */
  type Multipliers = Id -> real

  /** Each stored score is its base score under the task's multiplier, and the stored tasks have
      those multipliers. */
  ghost predicate Multiplied(t: Tables, mult: Multipliers) {
    && (forall k :: k in t.tasks ==> t.tasks[k].multiplier == mult(k))
    && (forall u, k :: (u, k) in t.taskScores ==>
          t.taskScores[(u, k)].score == Scaled(t.taskScores[(u, k)].baseScore, mult(k)))
  }

  /** Every task that is fetched comes with its one multiplier. */
  ghost predicate StepMultiplies(step: LedgerStep, mult: Multipliers) {
    step.Handle? && step.eventType.TaskEvent? && step.attempt.task.Fetched? ==>
      step.attempt.task.value.multiplier == mult(step.attempt.task.value.id)
  }

  lemma SubmissionKeepsMultiplied(t: Tables, fetch: Fetch<Submission>, f: Faults, mult: Multipliers)
    requires Multiplied(t, mult)
    ensures Multiplied(SubmissionAttempt(t, fetch, f).0, mult)
  {
    if fetch.Fetched? && StoreSubmission(t, fetch.value).Some? {
      assert Multiplied(StoreSubmission(t, fetch.value).value, mult);
    }
  }

  lemma StepKeepsMultiplied(t: Tables, step: LedgerStep, mult: Multipliers)
    requires Multiplied(t, mult) && StepMultiplies(step, mult)
    ensures Multiplied(After(t, step), mult)
  {
    if step.Handle? && step.eventType.SubmissionEvent? {
      SubmissionKeepsMultiplied(t, step.attempt.submission, step.attempt.faults, mult);
    }
  }

  /** Over runs with fixed multipliers every stored score is the scaled base score. */
  lemma {:induction false} ScoresOverRuns(steps: seq<LedgerStep>, mult: Multipliers)
    requires forall i :: 0 <= i < |steps| ==> StepMultiplies(steps[i], mult)
    ensures Multiplied(AfterAll(EMPTY, steps), mult)
  {
    if |steps| > 0 {
      ScoresOverRuns(steps[..|steps| - 1], mult);
      StepKeepsMultiplied(AfterAll(EMPTY, steps[..|steps| - 1]), steps[|steps| - 1], mult);
    }
  }

  /** Each stored score is its base score under the multiplier its task has now. */
  ghost predicate ScoresFollowTasks(t: Tables) {
    forall u, k :: (u, k) in t.taskScores && k in t.tasks ==>
      t.taskScores[(u, k)].score == Scaled(t.taskScores[(u, k)].baseScore, t.tasks[k].multiplier)
  }

  /** Saving a task recomputes no score. Stored scores still follow the tasks afterwards exactly when
      the save had no effect, the multiplier is the old one, or every base score of the task is 0. */
  lemma TaskEventKeepsScoresIff(t: Tables, task: Task, f: Faults)
    requires WellKeyed(t) && ScoresFollowTasks(t)
    ensures ScoresFollowTasks(TaskAttempt(t, Fetched(task), f).0)
            <==> || f.begin || f.save || f.commit
                 || (task.id in t.tasks && task.multiplier == t.tasks[task.id].multiplier)
                 || forall u :: (u, task.id) in t.taskScores ==> t.taskScores[(u, task.id)].baseScore == 0.0
  {
    var t' := TaskAttempt(t, Fetched(task), f).0;
    if t' != t || !(f.begin || f.save || f.commit) {
      forall u | (u, task.id) in t.taskScores
        ensures t.taskScores[(u, task.id)].score == Scaled(t.taskScores[(u, task.id)].baseScore, task.multiplier)
                <==> task.multiplier == t.tasks[task.id].multiplier || t.taskScores[(u, task.id)].baseScore == 0.0
      {
        ScaledEqualIff(t.taskScores[(u, task.id)].baseScore, t.tasks[task.id].multiplier, task.multiplier);
      }
    }
  }

  lemma ScaledEqualIff(base: real, m: real, n: real)
    ensures Scaled(base, m) == Scaled(base, n) <==> m == n || base == 0.0
  {
    assert base * m - base * n == base * (m - n);
  }
}
