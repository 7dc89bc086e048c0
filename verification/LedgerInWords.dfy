/** What an attempt at a submission leaves in the tables, told by the fields of the rows alone. */
module LedgerInWords {
  import opened Bridge
  import opened BestScores
  import opened LedgerTables

  // ---------- The stored row ----------

  /** One number per subtask of the result: the points it earned. */
  ghost predicate HoldsPoints(row: seq<real>, s: Submission) {
    match s.result
    case None => row == []
    case Some(result) =>
      |row| == |result.subtasks| && forall i :: 0 <= i < |row| ==> row[i] == result.subtasks[i].score.score
  }

  lemma PointsAreStored(s: Submission)
    ensures HoldsPoints(SubtaskScores(s), s)
  {
  }

  /** The row of a stored submission: what was read of it, its points, and the user and task it had or,
      when it is new, the ones it comes with. No other row changes. */
  lemma StoredInWords(t: Tables, s: Submission)
    requires !s.deleted && StoreSubmission(t, s).Some?
    ensures var t' := StoreSubmission(t, s).value;
            && t'.users == t.users && t'.tasks == t.tasks && t'.taskScores == t.taskScores
            && t'.submissions.Keys == t.submissions.Keys + {s.id}
            && (forall id :: id in t.submissions && id != s.id ==> t'.submissions[id] == t.submissions[id])
            && t'.submissions[s.id].details == s
            && HoldsPoints(t'.submissions[s.id].subtaskDetails, s)
            && (t'.submissions[s.id].userId, t'.submissions[s.id].taskId)
               == if s.id in t.submissions then (t.submissions[s.id].userId, t.submissions[s.id].taskId)
                  else (s.userId, s.problemId)
  {
    PointsAreStored(s);
  }

  /** When a submission's row is refused: it is new and its user is unknown. */
  lemma RefusedInWords(t: Tables, s: Submission)
    ensures StoreSubmission(t, s).None? <==> !s.deleted && s.id !in t.submissions && s.userId !in t.users
    ensures s.deleted ==> StoreSubmission(t, s) == Some(t.(submissions := t.submissions - {s.id}))
  {
  }

  // ---------- The score ----------

  /** The best points per position over the stored submissions of a user to a task: never below zero,
      otherwise reached, at least everyone's, and as many as the longest row has. */
  ghost predicate BestOf(t: Tables, u: Id, k: Id, best: seq<real>) {
    && (forall id :: Belongs(t, id, u, k) ==>
          && |t.submissions[id].subtaskDetails| <= |best|
          && forall i :: 0 <= i < |t.submissions[id].subtaskDetails| ==> t.submissions[id].subtaskDetails[i] <= best[i])
    && (|best| > 0 ==> exists id :: Belongs(t, id, u, k) && |t.submissions[id].subtaskDetails| == |best|)
    && (forall i :: 0 <= i < |best| ==> best[i] >= 0.0)
    && forall i :: 0 <= i < |best| && best[i] > 0.0 ==>
         exists id :: Belongs(t, id, u, k) && i < |t.submissions[id].subtaskDetails|
                      && t.submissions[id].subtaskDetails[i] == best[i]
  }

  lemma BestInWords(t: Tables, u: Id, k: Id)
    ensures BestOf(t, u, k, Best(RowsOf(t, u, k)))
  {
    var rows, best := RowsOf(t, u, k), Best(RowsOf(t, u, k));
    forall id | Belongs(t, id, u, k) ensures t.submissions[id].subtaskDetails in rows {
    }
    forall i | 0 <= i < |best| ensures IsFlooredMax(rows, i, best[i]) {
    }
    if |best| > 0 {
      var r :| r in rows && |r| == |best|;
      var id :| id in t.submissions && Belongs(t, id, u, k) && t.submissions[id].subtaskDetails == r;
    }
    forall i | 0 <= i < |best| && best[i] > 0.0
      ensures exists id :: Belongs(t, id, u, k) && i < |t.submissions[id].subtaskDetails|
                           && t.submissions[id].subtaskDetails[i] == best[i]
    {
      assert IsFlooredMax(rows, i, best[i]);
      var r :| r in rows && i < |r| && r[i] == best[i];
      var id :| id in t.submissions && Belongs(t, id, u, k) && t.submissions[id].subtaskDetails == r;
    }
  }

  /** A base score is the sum of the best points. */
  ghost predicate IsBase(t: Tables, u: Id, k: Id, base: real) {
    exists best :: BestOf(t, u, k, best) && AddsUp(best, base)
  }

  lemma BaseInWords(t: Tables, u: Id, k: Id)
    ensures IsBase(t, u, k, BaseScore(RowsOf(t, u, k)))
  {
    BestInWords(t, u, k);
    SumAddsUp(Best(RowsOf(t, u, k)));
  }

  /** What one score row adds to its user's total. */
  function Worth(t: Tables, u: Id, k: Id): real {
    if (u, k) in t.taskScores then t.taskScores[(u, k)].score else 0.0
  }

  /** The score is the base score times the task's multiplier, the user's total moves by the
      difference, and nothing else changes. */
  ghost predicate ScoredAs(t: Tables, t': Tables, u: Id, k: Id, base: real) {
    && t'.tasks == t.tasks && t'.submissions == t.submissions && t'.users.Keys == t.users.Keys
    && k in t.tasks && t'.taskScores.Keys == t.taskScores.Keys + {(u, k)}
    && t'.taskScores[(u, k)] == TaskScore(base * t.tasks[k].multiplier, base)
    && (forall key :: key in t.taskScores && key != (u, k) ==> t'.taskScores[key] == t.taskScores[key])
    && forall v :: v in t.users ==>
         t'.users[v] == t.users[v] + if v == u then base * t.tasks[k].multiplier - Worth(t, u, k) else 0.0
  }

  lemma PutInWords(t: Tables, u: Id, k: Id, base: real)
    ensures PutScore(t, u, k, base).UnknownTask? <==> k !in t.tasks
    ensures PutScore(t, u, k, base).Refused? <==> k in t.tasks && (u, k) !in t.taskScores && u !in t.users
    ensures PutScore(t, u, k, base).Recalculated? ==> ScoredAs(t, PutScore(t, u, k, base).tables, u, k, base)
  {
  }

  /** Rescoring a user and a task by the base score of the stored rows. */
  ghost predicate Rescored(t: Tables, t': Tables, u: Id, k: Id) {
    exists base :: IsBase(t, u, k, base) && ScoredAs(t, t', u, k, base)
  }

  lemma RescoredInWords(t: Tables, u: Id, k: Id)
    ensures Recalculate(t, u, k).UnknownTask? <==> k !in t.tasks
    ensures Recalculate(t, u, k).Refused? <==> k in t.tasks && (u, k) !in t.taskScores && u !in t.users
    ensures Recalculate(t, u, k).Recalculated? ==> Rescored(t, Recalculate(t, u, k).tables, u, k)
  {
    BaseInWords(t, u, k);
    PutInWords(t, u, k, BaseScore(RowsOf(t, u, k)));
  }

  // ---------- The attempt ----------

  /** How an attempt at a submission ends and what it leaves, for every failure of a statement: the
      panic commits the row alone, and a COMMIT that fails is not reported. */
  lemma {:induction false} AttemptInWords(t: Tables, s: Submission, f: Faults)
    requires StoreSubmission(t, s).Some?
    ensures var stored, (t', outcome) := StoreSubmission(t, s).value, SubmissionAttempt(t, Fetched(s), f);
            var reaches := !f.begin && !f.create && !f.scores && !f.previous && !f.multiplier;
            && (outcome.Panicked? <==> reaches && s.problemId !in t.tasks)
            && (outcome.Panicked? ==> t' == if f.commit then t else stored)
            && (outcome.Done? <==> reaches && !f.save && !f.increment && s.problemId in t.tasks
                                   && ((s.userId, s.problemId) in t.taskScores || s.userId in t.users))
            && (outcome.Done? && f.commit ==> t' == t)
            && (outcome.Done? && !f.commit ==> Rescored(stored, t', s.userId, s.problemId))
            && (outcome.Failed? ==> t' == t)
  {
    RescoredInWords(StoreSubmission(t, s).value, s.userId, s.problemId);
  }

  /** An attempt that reads nothing, or whose row is refused, fails and leaves no trace. */
  lemma NothingRead(t: Tables, f: Faults)
    ensures SubmissionAttempt(t, FetchFailed, f) == (t, Failed)
    ensures forall s :: StoreSubmission(t, s).None? ==> SubmissionAttempt(t, Fetched(s), f) == (t, Failed)
  {
  }

  /** An attempt at a task: fails and leaves no trace, or saves the task as it was read, or neither
      saves nor reports when COMMIT fails. */
  lemma TaskInWords(t: Tables, fetch: Fetch<Task>, f: Faults)
    ensures var (t', outcome) := TaskAttempt(t, fetch, f);
            && (outcome.Failed? <==> fetch.FetchFailed? || f.begin || f.save)
            && !outcome.Panicked?
            && (outcome.Failed? || f.commit ==> t' == t)
            && (outcome.Done? && !f.commit ==>
                  && t' == t.(tasks := t'.tasks)
                  && t'.tasks.Keys == t.tasks.Keys + {fetch.value.id} && t'.tasks[fetch.value.id] == fetch.value
                  && forall k :: k in t.tasks && k != fetch.value.id ==> t'.tasks[k] == t.tasks[k])
  {
  }

  // ---------- The first submission ----------

  lemma OneRowIsBest(row: seq<real>)
    requires forall i :: 0 <= i < |row| ==> row[i] >= 0.0
    ensures BaseScore({row}) == SumSeq(row)
  {
    assert row in {row};
    forall i | 0 <= i < |row| ensures IsFlooredMax({row}, i, row[i]) {
    }
    BestIsUnique({row}, row, Best({row}));
  }

  /** A user's first submission to a task, with nonnegative points: the score, and what the user's total
      grows by, is the sum of the points times the task's multiplier. */
  lemma FirstSubmission(t: Tables, s: Submission, points: seq<real>, base: real)
    requires !s.deleted && s.id !in t.submissions && s.userId in t.users && s.problemId in t.tasks
    requires (s.userId, s.problemId) !in t.taskScores && forall id :: !Belongs(t, id, s.userId, s.problemId)
    requires s.result.Some? && |s.result.value.subtasks| == |points|
    requires forall i :: 0 <= i < |points| ==> s.result.value.subtasks[i].score.score == points[i] >= 0.0
    requires AddsUp(points, base)
    ensures var (t', outcome) := SubmissionAttempt(t, Fetched(s), NO_FAULTS);
            && outcome == Done && s.userId in t'.users
            && t'.users[s.userId] == t.users[s.userId] + base * t.tasks[s.problemId].multiplier
            && (s.userId, s.problemId) in t'.taskScores
            && t'.taskScores[(s.userId, s.problemId)].score == base * t.tasks[s.problemId].multiplier
  {
    FirstBase(t, s, points, base);
    FirstScored(t, s, base);
  }

  lemma FirstScored(t: Tables, s: Submission, base: real)
    requires !s.deleted && s.id !in t.submissions && s.userId in t.users && s.problemId in t.tasks
    requires (s.userId, s.problemId) !in t.taskScores
    requires BaseScore(RowsOf(StoreSubmission(t, s).value, s.userId, s.problemId)) == base
    ensures var (t', outcome) := SubmissionAttempt(t, Fetched(s), NO_FAULTS);
            && outcome == Done && s.userId in t'.users
            && t'.users[s.userId] == t.users[s.userId] + base * t.tasks[s.problemId].multiplier
            && (s.userId, s.problemId) in t'.taskScores
            && t'.taskScores[(s.userId, s.problemId)].score == base * t.tasks[s.problemId].multiplier
  {
    FirstPut(t, StoreSubmission(t, s).value, s.userId, s.problemId, base);
    GoodAttempt(t, s);
  }

  lemma GoodAttempt(t: Tables, s: Submission)
    requires StoreSubmission(t, s).Some?
    requires Recalculate(StoreSubmission(t, s).value, s.userId, s.problemId).Recalculated?
    ensures SubmissionAttempt(t, Fetched(s), NO_FAULTS)
         == (Recalculate(StoreSubmission(t, s).value, s.userId, s.problemId).tables, Done)
  {
  }

  lemma FirstBase(t: Tables, s: Submission, points: seq<real>, base: real)
    requires !s.deleted && s.id !in t.submissions && s.userId in t.users
    requires forall id :: !Belongs(t, id, s.userId, s.problemId)
    requires s.result.Some? && |s.result.value.subtasks| == |points|
    requires forall i :: 0 <= i < |points| ==> s.result.value.subtasks[i].score.score == points[i] >= 0.0
    requires AddsUp(points, base)
    ensures BaseScore(RowsOf(StoreSubmission(t, s).value, s.userId, s.problemId)) == base
  {
    PointsAreStored(s);
    assert SubtaskScores(s) == points;
    SumAddsUp(points);
    TotalIsUnique(points, SumSeq(points), base);
    OneRowIsBest(points);
    OnlyRow(t, s);
  }

  lemma OnlyRow(t: Tables, s: Submission)
    requires !s.deleted && s.id !in t.submissions && s.userId in t.users
    requires forall id :: !Belongs(t, id, s.userId, s.problemId)
    ensures RowsOf(StoreSubmission(t, s).value, s.userId, s.problemId) == {SubtaskScores(s)}
  {
    var stored := StoreSubmission(t, s).value;
    var rows := RowsOf(stored, s.userId, s.problemId);
    forall id ensures Belongs(stored, id, s.userId, s.problemId) <==> id == s.id {
      assert !Belongs(t, id, s.userId, s.problemId);
    }
    assert Belongs(stored, s.id, s.userId, s.problemId) && stored.submissions[s.id].subtaskDetails in rows;
    forall r | r in rows ensures r == SubtaskScores(s) {
      var id :| id in stored.submissions && Belongs(stored, id, s.userId, s.problemId)
                && stored.submissions[id].subtaskDetails == r;
      assert id == s.id;
    }
  }

  lemma FirstPut(t: Tables, stored: Tables, u: Id, k: Id, base: real)
    requires stored == t.(submissions := stored.submissions) && u in t.users && k in t.tasks && (u, k) !in t.taskScores
    ensures var put := PutScore(stored, u, k, base);
            && put.Recalculated? && (u, k) in put.tables.taskScores
            && put.tables.taskScores[(u, k)].score == base * t.tasks[k].multiplier
            && u in put.tables.users && put.tables.users[u] == t.users[u] + base * t.tasks[k].multiplier
  {
  }
}
