/** With tasks saved and multipliers fixed, the judge's tables depend only on the last snapshot of
    each submission, not on the order, number or failures of the events that brought it. */
module Confluence {
  import opened Bridge
  import opened BestScores
  import opened LedgerTables
  import opened LedgerInvariants

  function Stored(s: Submission): StoredSubmission {
    StoredSubmission(s.userId, s.problemId, s, SubtaskScores(s))
  }

  ghost function ScoredKeys(t: Tables): set<(Id, Id)> {
    set id | id in t.submissions :: (t.submissions[id].userId, t.submissions[id].taskId)
  }

  /** Exactly the users and tasks of stored submissions have a score. */
  ghost predicate AllScored(t: Tables) {
    t.taskScores.Keys == ScoredKeys(t)
  }

  /** The score row a user and task should have. */
  ghost function FreshScore(t: Tables, u: Id, k: Id): TaskScore
    requires k in t.tasks
  {
    var base := BaseScore(RowsOf(t, u, k));
    TaskScore(Scaled(base, t.tasks[k].multiplier), base)
  }

  /** Every stored submission has been scored, under the current multipliers. */
  ghost predicate Settled(t: Tables) {
    && WellKeyed(t)
    && TotalsAgree(t)
    && AllScored(t)
    && forall u, k :: (u, k) in t.taskScores ==> t.taskScores[(u, k)] == FreshScore(t, u, k)
  }

  lemma FreshScoreFrame(a: Tables, b: Tables, u: Id, k: Id)
    requires k in a.tasks && a.tasks == b.tasks && a.submissions == b.submissions
    ensures FreshScore(a, u, k) == FreshScore(b, u, k)
  {
    assert RowsOf(a, u, k) == RowsOf(b, u, k) by {
      assert forall id :: Belongs(a, id, u, k) <==> Belongs(b, id, u, k);
    }
  }

  lemma SettledScoresAreDetermined(a: Tables, b: Tables)
    requires Settled(a) && Settled(b)
    requires a.tasks == b.tasks && a.submissions == b.submissions
    ensures a.taskScores == b.taskScores
  {
    assert a.taskScores.Keys == b.taskScores.Keys;
    forall key | key in a.taskScores ensures a.taskScores[key] == b.taskScores[key] {
      var (u, k) := key;
      FreshScoreFrame(a, b, u, k);
    }
  }

  /** A settled state is a function of its accounts, tasks and submissions. */
  lemma SettledIsDetermined(a: Tables, b: Tables)
    requires Settled(a) && Settled(b)
    requires a.users.Keys == b.users.Keys && a.tasks == b.tasks && a.submissions == b.submissions
    ensures a == b
  {
    SettledScoresAreDetermined(a, b);
    forall u | u in a.users ensures a.users[u] == b.users[u] {
      assert a.users[u] == UserTotal(a.taskScores, u) && b.users[u] == UserTotal(b.taskScores, u);
    }
  }

  /** A submission of a known user to a known task, stored (if at all) under that same key. */
  ghost predicate Scorable(t: Tables, s: Submission) {
    && !s.deleted
    && s.userId in t.users
    && s.problemId in t.tasks
    && (s.id in t.submissions ==> Belongs(t, s.id, s.userId, s.problemId))
  }

  /** The tables after storing and scoring a submission. */
  ghost function Scored(t: Tables, s: Submission): Tables
    requires Scorable(t, s)
  {
    Recalculate(StoreSubmission(t, s).value, s.userId, s.problemId).tables
  }

  /** An attempt at a scorable submission does all of its work or none of it. */
  lemma AllOrNothing(t: Tables, s: Submission, f: Faults)
    requires Scorable(t, s)
    ensures SubmissionAttempt(t, Fetched(s), f).0 == if f == NO_FAULTS then Scored(t, s) else t
    ensures !SubmissionAttempt(t, Fetched(s), f).1.Panicked?
  {
  }

  lemma ScoredParts(t: Tables, s: Submission)
    requires WellKeyed(t) && Scorable(t, s)
    ensures var t' := Scored(t, s);
            && t'.users.Keys == t.users.Keys && t'.tasks == t.tasks
            && t'.submissions == t.submissions[s.id := Stored(s)]
            && t'.submissions == StoreSubmission(t, s).value.submissions
            && t'.taskScores == t.taskScores[(s.userId, s.problemId) :=
                                  FreshScore(StoreSubmission(t, s).value, s.userId, s.problemId)]
  {
  }

  lemma ScoredKeepsTotals(t: Tables, s: Submission)
    requires WellKeyed(t) && TotalsAgree(t) && Scorable(t, s)
    ensures WellKeyed(Scored(t, s)) && TotalsAgree(Scored(t, s))
  {
    AllOrNothing(t, s, NO_FAULTS);
    StepKeepsTotals(t, Handle(SubmissionEvent, Attempt(Fetched(s), FetchFailed, NO_FAULTS)));
  }

  lemma ScoredIsSettled(t: Tables, s: Submission)
    requires Settled(t) && Scorable(t, s)
    ensures Settled(Scored(t, s))
  {
    var t2 := Scored(t, s);
    ScoredKeepsTotals(t, s);
    ScoredParts(t, s);
    ScoredKeysAfter(t, t2, s);
    assert t2.taskScores.Keys == ScoredKeys(t2);
    forall u, k | (u, k) in t2.taskScores ensures t2.taskScores[(u, k)] == FreshScore(t2, u, k) {
      FreshAfter(t, s, u, k);
    }
  }

  lemma FreshAfter(t: Tables, s: Submission, u: Id, k: Id)
    requires Settled(t) && Scorable(t, s) && (u, k) in Scored(t, s).taskScores
    ensures k in t.tasks && Scored(t, s).tasks == t.tasks
    ensures Scored(t, s).taskScores[(u, k)] == FreshScore(Scored(t, s), u, k)
  {
    var t1, t2 := StoreSubmission(t, s).value, Scored(t, s);
    ScoredParts(t, s);
    assert forall id :: Belongs(t2, id, u, k) <==> Belongs(t1, id, u, k);
    assert RowsOf(t2, u, k) == RowsOf(t1, u, k);
    if (u, k) != (s.userId, s.problemId) {
      StoreFrame(t, s, u, k);
      assert (u, k) in t.taskScores;
    }
  }

  lemma AttemptKeepsSettled(t: Tables, s: Submission, f: Faults)
    requires Settled(t) && Scorable(t, s)
    ensures var t' := SubmissionAttempt(t, Fetched(s), f).0;
            && Settled(t')
            && t'.users.Keys == t.users.Keys && t'.tasks == t.tasks
            && t'.submissions == if f == NO_FAULTS then t.submissions[s.id := Stored(s)] else t.submissions
  {
    AllOrNothing(t, s, f);
    ScoredIsSettled(t, s);
    ScoredParts(t, s);
  }

  /** Stored under the key it names, if at all. */
  ghost predicate KeepsKey(t: Tables, s: Submission) {
    !s.deleted && (s.id in t.submissions ==> Belongs(t, s.id, s.userId, s.problemId))
  }

  lemma ScoredKeysAfter(t: Tables, t': Tables, s: Submission)
    requires KeepsKey(t, s) && t'.submissions == t.submissions[s.id := Stored(s)]
    ensures ScoredKeys(t') == ScoredKeys(t) + {(s.userId, s.problemId)}
  {
    assert s.id in t'.submissions;
    forall key | key in ScoredKeys(t) ensures key in ScoredKeys(t') {
      var id :| id in t.submissions && key == (t.submissions[id].userId, t.submissions[id].taskId);
      assert id in t'.submissions;
    }
  }

  /** When an attempt leaves every stored submission scored: always, except that for a submission it
      can store of a task that is not saved, the panic commits the row unscored unless a statement
      before it or that very COMMIT fails. */
  lemma AttemptKeepsScoredIff(t: Tables, s: Submission, f: Faults)
    requires WellKeyed(t) && AllScored(t) && KeepsKey(t, s)
    ensures AllScored(SubmissionAttempt(t, Fetched(s), f).0)
            <==> s.problemId in t.tasks || StoreSubmission(t, s).None? || !ReachesMultiplier(f) || f.commit
  {
    var t' := SubmissionAttempt(t, Fetched(s), f).0;
    if StoreSubmission(t, s).Some? {
      var t1 := StoreSubmission(t, s).value;
      ScoredKeysAfter(t, t1, s);
      assert t'.taskScores.Keys <= t.taskScores.Keys + {(s.userId, s.problemId)};
      if t' != t {
        assert t'.submissions == t1.submissions;
        ScoredKeysAfter(t, t', s);
      }
    }
  }

  // ---------- Sequences of attempts ----------

  datatype Delivery = Delivery(submission: Submission, faults: Faults)

  ghost function DeliverAll(t: Tables, ds: seq<Delivery>): Tables {
    if |ds| == 0 then t
    else
      var d := ds[|ds| - 1];
      SubmissionAttempt(DeliverAll(t, ds[..|ds| - 1]), Fetched(d.submission), d.faults).0
  }

  /** The last snapshot of each submission among the attempts that did not fail. */
  ghost function LastSnapshots(ds: seq<Delivery>): map<Id, Submission> {
    if |ds| == 0 then map[]
    else
      var d := ds[|ds| - 1];
      var earlier := LastSnapshots(ds[..|ds| - 1]);
      if d.faults == NO_FAULTS then earlier[d.submission.id := d.submission] else earlier
  }

  ghost function Overlay(stored: map<Id, StoredSubmission>, last: map<Id, Submission>): map<Id, StoredSubmission> {
    map id | id in stored.Keys + last.Keys :: if id in last then Stored(last[id]) else stored[id]
  }

  /** Known users and tasks, and every id keeps its owner. */
  ghost predicate Deliverable(t: Tables, ds: seq<Delivery>, owner: Owners) {
    forall i :: 0 <= i < |ds| ==>
      var s := ds[i].submission;
      && !s.deleted && s.userId in t.users && s.problemId in t.tasks
      && s.id in owner && owner[s.id] == (s.userId, s.problemId)
  }

  /** `t'` is `t` with some snapshots stored and scored. */
  ghost predicate Delivered(t: Tables, t': Tables, last: map<Id, Submission>, owner: Owners) {
    && Settled(t') && Owned(t', owner)
    && t'.users.Keys == t.users.Keys && t'.tasks == t.tasks
    && t'.submissions == Overlay(t.submissions, last)
  }

  lemma DeliverOne(t: Tables, t1: Tables, last: map<Id, Submission>, owner: Owners, d: Delivery)
    requires Delivered(t, t1, last, owner) && Deliverable(t, [d], owner)
    ensures Delivered(t, SubmissionAttempt(t1, Fetched(d.submission), d.faults).0,
                      if d.faults == NO_FAULTS then last[d.submission.id := d.submission] else last, owner)
  {
    assert [d][0] == d;
    AttemptKeepsSettled(t1, d.submission, d.faults);
    OverlayStep(t.submissions, last, d.submission);
  }

  lemma {:induction false} DeliveriesKeepSettled(t: Tables, ds: seq<Delivery>, owner: Owners)
    requires Settled(t) && Owned(t, owner) && Deliverable(t, ds, owner)
    ensures Delivered(t, DeliverAll(t, ds), LastSnapshots(ds), owner)
  {
    if |ds| == 0 {
      assert Overlay(t.submissions, LastSnapshots(ds)) == t.submissions;
    } else {
      var before, d := ds[..|ds| - 1], ds[|ds| - 1];
      assert Deliverable(t, before, owner) && Deliverable(t, [d], owner) by {
        assert forall i :: 0 <= i < |before| ==> before[i] == ds[i];
      }
      DeliveriesKeepSettled(t, before, owner);
      DeliverOne(t, DeliverAll(t, before), LastSnapshots(before), owner, d);
    }
  }

  lemma OverlayStep(stored: map<Id, StoredSubmission>, last: map<Id, Submission>, s: Submission)
    ensures Overlay(stored, last[s.id := s]) == Overlay(stored, last)[s.id := Stored(s)]
  {
  }

  /** Any two sequences of attempts that leave the same last snapshots leave the same tables:
      task scores and user totals included. */
  lemma Confluent(t: Tables, ds: seq<Delivery>, es: seq<Delivery>, owner: Owners)
    requires Settled(t) && Owned(t, owner) && Deliverable(t, ds, owner) && Deliverable(t, es, owner)
    requires LastSnapshots(ds) == LastSnapshots(es)
    ensures DeliverAll(t, ds) == DeliverAll(t, es)
  {
    DeliveriesKeepSettled(t, ds, owner);
    DeliveriesKeepSettled(t, es, owner);
    SettledIsDetermined(DeliverAll(t, ds), DeliverAll(t, es));
  }

  /** An event that brings the snapshot already stored changes nothing, however its attempt ends. */
  lemma ReplayChangesNothing(t: Tables, s: Submission, f: Faults)
    requires Settled(t) && Scorable(t, s)
    requires s.id in t.submissions && t.submissions[s.id] == Stored(s)
    ensures SubmissionAttempt(t, Fetched(s), f).0 == t
  {
    AllOrNothing(t, s, f);
    RescoringChangesNothing(t, s);
  }

  lemma RescoringChangesNothing(t: Tables, s: Submission)
    requires Settled(t) && Scorable(t, s)
    requires s.id in t.submissions && t.submissions[s.id] == Stored(s)
    ensures Scored(t, s) == t
  {
    var t' := Scored(t, s);
    ScoredIsSettled(t, s);
    ScoredParts(t, s);
    assert t'.submissions == t.submissions;
    SettledIsDetermined(t, t');
  }

  /** Tables with accounts and tasks but no submissions are settled once no score is recorded. */
  lemma StartIsSettled(t: Tables)
    requires t.submissions == map[] && t.taskScores == map[]
    requires forall u :: u in t.users ==> t.users[u] == 0.0
    ensures Settled(t)
  {
    forall u | u in t.users ensures t.users[u] == UserTotal(t.taskScores, u) {
      assert KeysOf(t.taskScores, u) == {};
    }
  }

  /** So whatever two histories of a contest brought the same last snapshots, the tables are the same. */
  lemma ConfluentFromStart(t: Tables, ds: seq<Delivery>, es: seq<Delivery>, owner: Owners)
    requires t.submissions == map[] && t.taskScores == map[]
    requires forall u :: u in t.users ==> t.users[u] == 0.0
    requires Deliverable(t, ds, owner) && Deliverable(t, es, owner) && LastSnapshots(ds) == LastSnapshots(es)
    ensures DeliverAll(t, ds) == DeliverAll(t, es)
    ensures DeliverAll(t, ds).submissions == map o | o in LastSnapshots(ds) :: Stored(LastSnapshots(ds)[o])
  {
    StartIsSettled(t);
    Confluent(t, ds, es, owner);
    DeliveriesKeepSettled(t, ds, owner);
  }
}
