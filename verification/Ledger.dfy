/** The judge's side of an event (`oiajudge/pkg/oiajudge/updater.go` and `store.go`): statements
    run in a transaction on a working copy that its close keeps or drops. */
module Ledger {
  import opened Bridge
  import opened BestScores
  import opened LedgerTables
  import opened LedgerInWords

  class Ledger {
    var committed: Tables
    /** What the statements of the open transaction see. */
    var working: Tables

    constructor ()
      ensures committed == EMPTY
    {
      committed, working := EMPTY, EMPTY;
    }

    method Begin()
      modifies this`working
      ensures working == committed
    {
      working := committed;
    }

    /** Rolls back after an error, otherwise commits and reports how that went. */
    method Close(failed: bool, commitFault: bool) returns (error: bool)
      modifies this
      ensures committed == if failed || commitFault then old(committed) else old(working)
      ensures error == (failed || commitFault)
    {
      error := failed;
      if failed {
        working := committed;
      } else {
        if !commitFault {
          committed := working;
        }
        error := commitFault;
      }
    }

    /** `conflict` says that the email or the username is taken, or that the statement fails. */
    method CreateUser(u: Id, conflict: bool) returns (error: bool)
      modifies this`working
      ensures working == if conflict then old(working) else NewUser(old(working), u)
      ensures error <==> conflict || u in old(working).users
    {
      error := conflict || u in working.users;
      if !error {
        working := working.(users := working.users[u := 0.0]);
      }
    }

    method CreateSubmission(s: Submission, fault: bool) returns (error: bool)
      modifies this`working
      ensures error <==> fault || StoreSubmission(old(working), s).None?
      ensures working == if error then old(working) else StoreSubmission(old(working), s).value
      ensures !error && !s.deleted ==>
        s.id in working.submissions && HoldsPoints(working.submissions[s.id].subtaskDetails, s)
    {
      if fault {
        return true;
      }
      if s.deleted {
        working := working.(submissions := working.submissions - {s.id});
        return false;
      }
      var subtaskDetails := [];
      if s.result.Some? {
        for i := 0 to |s.result.value.subtasks|
          invariant subtaskDetails == SubtaskScores(s)[..i]
        {
          subtaskDetails := subtaskDetails + [s.result.value.subtasks[i].score.score];
        }
      }
      assert subtaskDetails == SubtaskScores(s);
      if s.id in working.submissions {
        var row := working.submissions[s.id];
        row := row.(details := s, subtaskDetails := subtaskDetails);
        working := working.(submissions := working.submissions[s.id := row]);
      } else if s.userId in working.users {
        var row := StoredSubmission(s.userId, s.problemId, s, subtaskDetails);
        working := working.(submissions := working.submissions[s.id := row]);
      } else {
        return true;
      }
      return false;
    }

    /** The rows come in no particular order. */
    method GetAllScores(u: Id, k: Id) returns (v: seq<seq<real>>)
      ensures Elements(v) == RowsOf(working, u, k)
      ensures |v| == |IdsOf(working, u, k)|
    {
      v := [];
      var left := IdsOf(working, u, k);
      ghost var read := {};
      while left != {}
        invariant read + left == IdsOf(working, u, k) && read !! left
        invariant Elements(v) == set id | id in read :: working.submissions[id].subtaskDetails
        invariant |v| == |read|
        decreases left
      {
        var id :| id in left;
        ghost var v0 := v;
        v := v + [working.submissions[id].subtaskDetails];
        assert Elements(v) == Elements(v0) + {working.submissions[id].subtaskDetails};
        left, read := left - {id}, read + {id};
      }
    }

    method GetUserTaskScore(u: Id, k: Id) returns (score: real)
      ensures score == PreviousScore(working, u, k)
    {
      if (u, k) !in working.taskScores {
        return 0.0;
      }
      score := working.taskScores[(u, k)].score;
    }

    /** A missing task panics, but only if the multiplier could be asked for: when that SELECT itself
        fails, the transaction is spoilt and the insert reports the error. */
    method SaveUserScore(u: Id, k: Id, base: real, selectFault: bool, saveFault: bool)
      returns (score: real, outcome: Outcome)
      modifies this`working
      ensures outcome == if selectFault then Failed
                         else if k !in old(working).tasks then Panicked
                         else if saveFault then Failed
                         else if (u, k) !in old(working).taskScores && u !in old(working).users then Failed
                         else Done
      ensures outcome.Done? ==> score == Scaled(base, old(working).tasks[k].multiplier)
      ensures working == if outcome.Done?
                         then old(working).(taskScores := old(working).taskScores[(u, k) := TaskScore(score, base)])
                         else old(working)
    {
      score := 0.0;
      if selectFault {
        return score, Failed;
      }
      if k !in working.tasks {
        return score, Panicked;
      }
      var multiplier := working.tasks[k].multiplier;
      if saveFault || ((u, k) !in working.taskScores && u !in working.users) {
        return score, Failed;
      }
      score := Scaled(base, multiplier);
      working := working.(taskScores := working.taskScores[(u, k) := TaskScore(score, base)]);
      outcome := Done;
    }

    method IncrementUserScore(u: Id, delta: real)
      modifies this`working
      ensures working == AddToUser(old(working), u, delta)
    {
      if u in working.users {
        working := working.(users := working.users[u := working.users[u] + delta]);
      }
    }

    method SaveTask(task: Task)
      modifies this`working
      ensures working == old(working).(tasks := old(working).tasks[task.id := task])
    {
      working := working.(tasks := working.tasks[task.id := task]);
    }

    method RecalculateUserScoreForTask(u: Id, k: Id, f: Faults) returns (outcome: Outcome)
      modifies this`working
      ensures f.scores || f.previous || f.multiplier ==> outcome.Failed?
      ensures !f.scores && !f.previous && !f.multiplier ==>
        match Recalculate(old(working), u, k)
        case UnknownTask => outcome.Panicked? && working == old(working)
        case Refused => outcome.Failed?
        case Recalculated(t) => if f.save || f.increment then outcome.Failed? else outcome.Done? && working == t
    {
      if f.scores {
        return Failed;
      }
      var scores := GetAllScores(u, k);
      var bySubtask := PerSubtaskBest(scores);
      BestIsUnique(RowsOf(working, u, k), bySubtask, Best(RowsOf(working, u, k)));
      var baseScore := Sum(bySubtask);
      ghost var before := working;
      assert baseScore == BaseScore(RowsOf(before, u, k));
      if f.previous {
        return Failed;
      }
      var previousScore := GetUserTaskScore(u, k);
      var score;
      score, outcome := SaveUserScore(u, k, baseScore, f.multiplier, f.save);
      if !outcome.Done? {
        return;
      }
      if f.increment {
        return Failed;
      }
      IncrementUserScore(u, score - previousScore);
    }

    method HandleSubmission(fetch: Fetch<Submission>, f: Faults) returns (outcome: Outcome)
      modifies this
      ensures (committed, outcome) == SubmissionAttempt(old(committed), fetch, f)
      ensures outcome.Failed? ==> committed == old(committed)
      ensures outcome.Done? && !f.commit ==>
        && fetch.Fetched? && StoreSubmission(old(committed), fetch.value).Some?
        && Rescored(StoreSubmission(old(committed), fetch.value).value, committed,
                    fetch.value.userId, fetch.value.problemId)
    {
      ghost var before := committed;
      if fetch.Fetched? && StoreSubmission(before, fetch.value).Some? {
        AttemptInWords(before, fetch.value, f);
      } else {
        NothingRead(before, f);
      }
      if fetch.FetchFailed? || f.begin {
        return Failed;
      }
      var s := fetch.value;
      Begin();
      var error := CreateSubmission(s, f.create);
      outcome := Failed;
      if !error {
        outcome := RecalculateUserScoreForTask(s.userId, s.problemId, f);
      }
      // Deferred: also runs while a panic unwinds, when no error has been recorded. The error a
      // failing commit reports is stored too late to be returned.
      var _ := Close(outcome.Failed?, f.commit);
    }

    method HandleTask(fetch: Fetch<Task>, f: Faults) returns (outcome: Outcome)
      modifies this
      ensures (committed, outcome) == TaskAttempt(old(committed), fetch, f)
      ensures outcome.Failed? || f.commit ==> committed == old(committed)
      ensures outcome.Done? && !f.commit ==>
        fetch.value.id in committed.tasks && committed.tasks[fetch.value.id] == fetch.value
    {
      if fetch.FetchFailed? || f.begin {
        return Failed;
      }
      Begin();
      outcome := Failed;
      if !f.save {
        SaveTask(fetch.value);
        outcome := Done;
      }
      var _ := Close(outcome.Failed?, f.commit);
    }

    method HandleEvent(eventType: EventType, a: Attempt) returns (outcome: Outcome)
      modifies this
      ensures (committed, outcome) == HandleAttempt(old(committed), eventType, a)
      ensures (committed, outcome)
           == if eventType.SubmissionEvent? then SubmissionAttempt(old(committed), a.submission, a.faults)
              else if eventType.TaskEvent? then TaskAttempt(old(committed), a.task, a.faults)
              else (old(committed), Done)
    {
      match eventType {
        case SubmissionEvent => outcome := HandleSubmission(a.submission, a.faults);
        case TaskEvent => outcome := HandleTask(a.task, a.faults);
        case OtherEvent(_) => outcome := Done;
      }
    }
  }
}
