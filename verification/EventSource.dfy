/** The code that the steps of `EventPipeline` stand for: the queue's statements, one poll and the
    consumer's attempts (`oiajudge/pkg/cmsbridge/store.go` and `impl.go`). */
module EventSource {
  import opened Bridge
  import opened LedgerTables
  import opened EventPipeline
  import opened PipelineSafety
  import opened Strings
  import Confluence
  import Ledger

  class EventQueue {
    var committed: Queue
    /** What the statements of the open transaction see. */
    var working: Queue

    constructor ()
      ensures committed == map[]
    {
      committed, working := map[], map[];
    }

    method Begin()
      modifies this`working
      ensures working == committed
    {
      working := committed;
    }

    method Close(failed: bool, commitFault: bool) returns (error: bool)
      modifies this`committed
      ensures error == (failed || commitFault)
      ensures committed == if error then old(committed) else working
    {
      error := failed || commitFault;
      if !error {
        committed := working;
      }
    }

    /** `SELECT ... WHERE seen = false`, in no particular order. */
    method SelectUnseen() returns (v: seq<Event>)
      ensures IsSelection(working, v)
    {
      v := [];
      var left := Unseen(working);
      while left != {}
        invariant left <= Unseen(working) && EventIds(v) == Unseen(working) - left
        invariant Distinct(v)
        invariant forall e :: e in v ==> e.eventId in working && e == EventOf(working, e.eventId)
        decreases left
      {
        assert (forall id :: id !in left) ==> left == {};
        var id :| id in left;
        var e := EventOf(working, id);
        assert forall r :: r in v ==> r.eventId in EventIds(v);
        assert EventIds(v + [e]) == EventIds(v) + {id};
        v, left := v + [e], left - {id};
      }
    }

    /** The second statement marks every row, read or not. */
    method GetNotifications(selectFault: bool, updateFault: bool) returns (v: seq<Event>, error: bool)
      modifies this`working
      ensures error == (selectFault || updateFault)
      ensures error ==> working == old(working)
      ensures !error ==> IsSelection(old(working), v) && working == MarkSeen(old(working), old(working).Keys)
    {
      v, error := [], true;
      if selectFault {
        return;
      }
      v := SelectUnseen();
      if updateFault {
        return;
      }
      working := MarkSeen(working, working.Keys);
      error := false;
    }

    method DeleteNotification(id: Id)
      modifies this`working
      ensures working == old(working) - {id}
    {
      working := working - {id};
    }

    /** One poll with no insert in between; `pushed` is what then goes into the channel. In a world
        with this queue it does what the machine's SELECT, UPDATE and COMMIT steps do, or what its
        failing poll does. */
    method PollOnce(selectFault: bool, updateFault: bool, commitFault: bool, ghost w: World)
      returns (ghost batch: seq<Event>, pushed: seq<Event>, error: bool)
      requires PollerAt(w, Begun) && w.queue == committed
      modifies this
      ensures error == (selectFault || updateFault || commitFault)
      ensures error ==> pushed == [] && committed == old(committed)
      ensures !error ==> && IsSelection(old(committed), batch)
                         && IsPrioritySort(batch, pushed)
                         && committed == MarkSeen(old(committed), old(committed).Keys)
      ensures !error ==>
        && (forall e :: e in pushed <==> && e.eventId in old(committed) && !old(committed)[e.eventId].seen
                                         && e.objectId == old(committed)[e.eventId].objectId
                                         && e.eventType == old(committed)[e.eventId].eventType)
        && (forall i, j :: 0 <= i < j < |pushed| ==> pushed[i].eventId != pushed[j].eventId)
        && (forall i, j :: 0 <= i < j < |pushed| && pushed[i].eventType.SubmissionEvent? ==>
              pushed[j].eventType.SubmissionEvent?)
        && committed.Keys == old(committed).Keys
        && forall id :: id in committed ==> committed[id] == old(committed)[id].(seen := true)
      ensures SetPoller(w.(queue := committed), if error then Erring else Pushing(pushed))
           == if error then Next(w, FailPoll) else Next(Next(Next(w, Select(batch)), Mark), CommitPoll(pushed))
    {
      Begin();
      var evs;
      evs, error := GetNotifications(selectFault, updateFault);
      batch := evs;
      pushed := SortByPriority(evs);
      error := Close(error, commitFault);
      if error {
        pushed := [];
      } else {
        PollIsThreeSteps(w, batch, pushed);
        PushedInWords(w.queue, batch, pushed);
      }
    }
  }

  /** The priority as a name, so that events can be sorted by it. */
  function PriorityName(e: Event): string {
    if e.eventType.SubmissionEvent? then "1" else "0"
  }

  lemma SortedByPriorityName(evs: seq<Event>, sorted: seq<Event>)
    requires IsSortOf(sorted, evs, PriorityName)
    ensures IsPrioritySort(evs, sorted)
  {
    assert Less("0", "1");
    forall i, j | 0 <= i < j < |sorted| ensures Priority(sorted[i]) <= Priority(sorted[j]) {
      assert !Less(PriorityName(sorted[j]), PriorityName(sorted[i]));
    }
  }

  lemma SortExists(evs: seq<Event>) returns (sorted: seq<Event>)
    ensures IsPrioritySort(evs, sorted)
  {
    sorted := SomeSort(evs, PriorityName);
    SortedByPriorityName(evs, sorted);
  }

  /** `sort.Slice` is a library routine that promises no more than `IsPrioritySort`; any sort will do. */
  method SortByPriority(evs: seq<Event>) returns (sorted: seq<Event>)
    ensures IsPrioritySort(evs, sorted)
  {
    sorted := SortByName(evs, PriorityName);
    SortedByPriorityName(evs, sorted);
  }

  /** What is pushed: every unseen row once, submissions last. */
  lemma PushedInWords(q: Queue, batch: seq<Event>, pushed: seq<Event>)
    requires IsSelection(q, batch) && IsPrioritySort(batch, pushed)
    ensures forall e :: e in pushed <==> && e.eventId in q && !q[e.eventId].seen
                                         && e.objectId == q[e.eventId].objectId && e.eventType == q[e.eventId].eventType
    ensures forall i, j :: 0 <= i < j < |pushed| ==> pushed[i].eventId != pushed[j].eventId
    ensures forall i, j :: 0 <= i < j < |pushed| && pushed[i].eventType.SubmissionEvent? ==>
      pushed[j].eventType.SubmissionEvent?
  {
    SortKeepsEvents(batch, pushed);
    forall e ensures e in batch <==> && e.eventId in q && !q[e.eventId].seen
                                     && e.objectId == q[e.eventId].objectId && e.eventType == q[e.eventId].eventType
    {
      SelectedInWords(q, batch, e);
    }
    forall i, j | 0 <= i < j < |pushed| && pushed[i].eventType.SubmissionEvent?
      ensures pushed[j].eventType.SubmissionEvent?
    {
      assert Priority(pushed[i]) <= Priority(pushed[j]);
    }
  }

  lemma SelectedInWords(q: Queue, batch: seq<Event>, e: Event)
    requires IsSelection(q, batch)
    ensures e in batch <==> && e.eventId in q && !q[e.eventId].seen
                            && e.objectId == q[e.eventId].objectId && e.eventType == q[e.eventId].eventType
  {
    if e in batch {
      assert e.eventId in EventIds(batch);
    } else if e.eventId in q && !q[e.eventId].seen {
      assert e.eventId in EventIds(batch);
      var other :| other in batch && other.eventId == e.eventId;
      assert other == EventOf(q, e.eventId);
    }
  }

  /** An uninterrupted poll of the code is the SELECT, UPDATE and COMMIT steps of the machine. */
  lemma PollIsThreeSteps(w: World, batch: seq<Event>, pushed: seq<Event>)
    requires PollerAt(w, Begun) && IsSelection(w.queue, batch) && IsPrioritySort(batch, pushed)
    ensures Next(Next(Next(w, Select(batch)), Mark), CommitPoll(pushed))
         == SetPoller(w.(queue := MarkSeen(w.queue, w.queue.Keys)), Pushing(pushed))
  {
    var selected := Next(w, Select(batch));
    assert selected == SetPoller(w, Selected(batch));
    var marked := Next(selected, Mark);
    assert marked == SetPoller(w, Marked(batch, w.queue.Keys));
  }

  // ---------- The consumer ----------

  /** The attempts at one event, in turn, until one does not fail: the tables, the number of
      attempts used and how the last one ended. */
  ghost function Retry(t: Tables, e: EventType, attempts: seq<Attempt>): (r: (Tables, nat, Outcome))
    ensures r.1 <= |attempts|
  {
    if |attempts| == 0 then (t, 0, Failed)
    else
      var (t1, outcome) := HandleAttempt(t, e, attempts[0]);
      if outcome.Failed? then
        var (t2, n, last) := Retry(t1, e, attempts[1..]);
        (t2, n + 1, last)
      else (t1, 1, outcome)
  }

  /** Attempts that fail leave no trace, and the first that does not is the only one to count. */
  lemma {:induction false} OneAttemptCounts(t: Tables, e: EventType, attempts: seq<Attempt>)
    ensures var (t', n, outcome) := Retry(t, e, attempts);
            && (|attempts| > 0 ==> n >= 1)
            && (outcome.Failed? ==> t' == t && n == |attempts|)
            && (!outcome.Failed? ==> n >= 1 && (t', outcome) == HandleAttempt(t, e, attempts[n - 1]))
            && forall i :: 0 <= i < (if outcome.Failed? then n else n - 1) ==>
                 HandleAttempt(t, e, attempts[i]) == (t, Failed)
    decreases |attempts|
  {
    if |attempts| > 0 && HandleAttempt(t, e, attempts[0]).1.Failed? {
      assert HandleAttempt(t, e, attempts[0]).0 == t;
      OneAttemptCounts(t, e, attempts[1..]);
      forall i | 0 < i < |attempts| ensures attempts[i] == attempts[1..][i - 1] {
      }
    }
  }

  /** Of the attempts that return nil there is a first, and its COMMIT works. */
  ghost predicate FirstNilCommits(attempts: seq<Attempt>, returnsNil: Attempt -> bool) {
    exists i :: 0 <= i < |attempts| && returnsNil(attempts[i]) && !attempts[i].faults.commit
                && forall j :: 0 <= j < i ==> !returnsNil(attempts[j])
  }

  lemma FirstNilCommitsStep(attempts: seq<Attempt>, returnsNil: Attempt -> bool)
    requires |attempts| > 0
    ensures FirstNilCommits(attempts, returnsNil)
            <==> if returnsNil(attempts[0]) then !attempts[0].faults.commit
                 else FirstNilCommits(attempts[1..], returnsNil)
  {
    var rest := attempts[1..];
    if FirstNilCommits(rest, returnsNil) && !returnsNil(attempts[0]) {
      var i :| 0 <= i < |rest| && returnsNil(rest[i]) && !rest[i].faults.commit
               && forall j :: 0 <= j < i ==> !returnsNil(rest[j]);
      assert attempts[i + 1] == rest[i];
      assert forall j :: 0 < j < i + 1 ==> attempts[j] == rest[j - 1];
    }
    if FirstNilCommits(attempts, returnsNil) && !returnsNil(attempts[0]) {
      var i :| 0 <= i < |attempts| && returnsNil(attempts[i]) && !attempts[i].faults.commit
               && forall j :: 0 <= j < i ==> !returnsNil(attempts[j]);
      assert rest[i - 1] == attempts[i];
      assert forall j :: 0 <= j < i - 1 ==> rest[j] == attempts[j + 1];
    }
  }

  /** An attempt at a task event that returns nil, whether or not its COMMIT works. */
  predicate TaskNil(a: Attempt) {
    a.task.Fetched? && !a.faults.begin && !a.faults.save
  }

  /** Attempts at a new task leave it saved exactly when COMMIT works in the first of them that
      returns nil. The error of a failing COMMIT is stored too late to be returned, so the consumer
      stops trying although nothing was saved. */
  lemma {:induction false} ConsumedTaskSavedIff(t: Tables, id: Id, attempts: seq<Attempt>)
    requires id !in t.tasks
    requires forall i :: 0 <= i < |attempts| && attempts[i].task.Fetched? ==> attempts[i].task.value.id == id
    ensures id in Retry(t, TaskEvent, attempts).0.tasks <==> FirstNilCommits(attempts, TaskNil)
    decreases |attempts|
  {
    if |attempts| > 0 {
      FirstNilCommitsStep(attempts, TaskNil);
      if !TaskNil(attempts[0]) {
        ConsumedTaskSavedIff(t, id, attempts[1..]);
      }
    }
  }

  /** The same for an attempt at a submission of a known user and task. */
  predicate SubmissionNil(a: Attempt) {
    a.submission.Fetched? && a.faults.(commit := false) == NO_FAULTS
  }

  /** Attempts at a submission of a known user and task, of which they read one snapshot or nothing,
      leave that snapshot stored exactly when COMMIT works in the first of them that returns nil. */
  lemma {:induction false} ConsumedSubmissionStoredIff(t: Tables, s: Submission, attempts: seq<Attempt>)
    requires Confluence.Scorable(t, s)
    requires s.id in t.submissions ==> t.submissions[s.id] != Confluence.Stored(s)
    requires forall i :: 0 <= i < |attempts| && attempts[i].submission.Fetched? ==> attempts[i].submission.value == s
    ensures var stored := Retry(t, SubmissionEvent, attempts).0.submissions;
            s.id in stored && stored[s.id] == Confluence.Stored(s) <==> FirstNilCommits(attempts, SubmissionNil)
    decreases |attempts|
  {
    if |attempts| > 0 {
      FirstNilCommitsStep(attempts, SubmissionNil);
      if attempts[0].submission.Fetched? {
        Confluence.AllOrNothing(t, s, attempts[0].faults);
      }
      if !SubmissionNil(attempts[0]) {
        ConsumedSubmissionStoredIff(t, s, attempts[1..]);
      }
    }
  }

  class Consumer {
    const ledger: Ledger.Ledger
    const queue: EventQueue

    constructor (ledger: Ledger.Ledger, queue: EventQueue)
      ensures this.ledger == ledger && this.queue == queue
    {
      this.ledger, this.queue := ledger, queue;
    }

    /** The attempts at one event, until one does not fail. */
    method TryAttempts(event: Event, attempts: seq<Attempt>) returns (tried: nat, outcome: Outcome)
      requires |attempts| == RETRIES
      modifies ledger
      ensures (ledger.committed, tried, outcome) == Retry(old(ledger.committed), event.eventType, attempts)
    {
      tried, outcome := 0, Failed;
      while tried < RETRIES && outcome.Failed?
        invariant tried <= RETRIES
        invariant var (t, n, last) := Retry(old(ledger.committed), event.eventType, attempts);
          if outcome.Failed? then
            var (t', n', last') := Retry(ledger.committed, event.eventType, attempts[tried..]);
            (t, n, last) == (t', n' + tried, last')
          else (t, n, last) == (ledger.committed, tried, outcome)
        decreases RETRIES - tried
      {
        assert attempts[tried..][1..] == attempts[tried + 1..];
        outcome := ledger.HandleEvent(event.eventType, attempts[tried]);
        tried := tried + 1;
      }
    }

    /** One turn of the endless loop, for an event without error. `attempts[i]` is what attempt `i`
        would meet. A panic ends the process before the row is deleted. */
    method Consume(event: Event, attempts: seq<Attempt>, beginFault: bool, deleteFault: bool)
      returns (tried: nat, outcome: Outcome)
      requires |attempts| == 10
      modifies ledger, queue
      ensures (ledger.committed, tried, outcome) == Retry(old(ledger.committed), event.eventType, attempts)
      ensures 1 <= tried <= 10 && (outcome.Failed? ==> tried == 10)
      ensures forall i :: 0 <= i < tried - 1 ==>
        HandleAttempt(old(ledger.committed), event.eventType, attempts[i]) == (old(ledger.committed), Failed)
      ensures (ledger.committed, outcome)
           == HandleAttempt(old(ledger.committed), event.eventType, attempts[tried - 1])
      ensures queue.committed == if outcome.Panicked? || beginFault || deleteFault then old(queue.committed)
                                 else old(queue.committed) - {event.eventId}
    {
      OneAttemptCounts(ledger.committed, event.eventType, attempts);
      tried, outcome := TryAttempts(event, attempts);
      if outcome.Panicked? || beginFault {
        return;
      }
      queue.Begin();
      queue.DeleteNotification(event.eventId);
      var _ := queue.Close(false, deleteFault);
    }
  }

  // ---------- The consumer's loop and the machine ----------

  function Tries(attempts: seq<Attempt>): seq<Step> {
    seq(|attempts|, i requires 0 <= i < |attempts| => Try(attempts[i]))
  }

  /** A machine after attempts that ended like this. */
  ghost predicate TriedTo(w: World, w': World, event: Event, t: Tables, outcome: Outcome)
    requires w.server.Up?
  {
    && w'.ledger == t && w'.queue == w.queue
    && (outcome.Panicked? ==> w'.server.Down?)
    && (!outcome.Panicked? ==>
          w'.server.Up? && w'.server.consumer == Finishing(event) && w'.server.poller == w.server.poller)
  }

  /** One attempt: either it was the last, or the machine is as before with one attempt less. */
  lemma OneTry(w: World, event: Event, a: Attempt, n: nat)
    requires w.server.Up? && w.server.consumer == Trying(event, n) && n < RETRIES
    ensures var (t, outcome) := HandleAttempt(w.ledger, event.eventType, a);
            if outcome.Failed? && n + 1 < RETRIES then Next(w, Try(a)) == SetConsumer(w, Trying(event, n + 1))
            else TriedTo(w, Next(w, Try(a)), event, t, outcome)
  {
  }

  lemma FirstTry(w: World, attempts: seq<Attempt>, n: nat)
    requires 1 <= n <= |attempts|
    ensures Reach(w, Tries(attempts[..n])) == Reach(Next(w, Try(attempts[0])), Tries(attempts[1..][..n - 1]))
  {
    assert Tries(attempts[..n]) == [Try(attempts[0])] + Tries(attempts[1..][..n - 1]);
    ReachPrepend(w, Try(attempts[0]), Tries(attempts[1..][..n - 1]));
  }

  lemma RetryStep(t: Tables, e: EventType, attempts: seq<Attempt>)
    requires |attempts| > 0
    ensures var (t1, outcome) := HandleAttempt(t, e, attempts[0]);
            Retry(t, e, attempts)
            == if outcome.Failed? then
                 var (t2, n, last) := Retry(t, e, attempts[1..]);
                 (t2, n + 1, last)
               else (t1, 1, outcome)
  {
    FailedChangesNothing(t, e, attempts[0]);
  }

  /** Running the attempts as steps of the machine leads to the tables and outcome of the loop. */
  lemma {:induction false} RetryIsTries(w: World, event: Event, attempts: seq<Attempt>)
    requires w.server.Up? && |attempts| <= RETRIES
    requires w.server.consumer == Trying(event, RETRIES - |attempts|) && |attempts| > 0
    ensures var (t, n, outcome) := Retry(w.ledger, event.eventType, attempts);
            TriedTo(w, Reach(w, Tries(attempts[..n])), event, t, outcome)
    decreases |attempts|
  {
    var e, first := event.eventType, HandleAttempt(w.ledger, event.eventType, attempts[0]).1;
    RetryStep(w.ledger, e, attempts);
    OneTry(w, event, attempts[0], RETRIES - |attempts|);
    FirstTry(w, attempts, Retry(w.ledger, e, attempts).1);
    if first.Failed? && |attempts| > 1 {
      RetryIsTries(SetConsumer(w, Trying(event, RETRIES - |attempts| + 1)), event, attempts[1..]);
    } else {
      LastTry(w, event, attempts);
    }
  }

  /** When no further attempt follows. */
  lemma LastTry(w: World, event: Event, attempts: seq<Attempt>)
    requires |attempts| > 0
    requires HandleAttempt(w.ledger, event.eventType, attempts[0]).1.Failed? ==> |attempts| == 1
    ensures Retry(w.ledger, event.eventType, attempts)
         == (HandleAttempt(w.ledger, event.eventType, attempts[0]).0, 1,
             HandleAttempt(w.ledger, event.eventType, attempts[0]).1)
    ensures Tries(attempts[1..][..0]) == []
  {
    RetryStep(w.ledger, event.eventType, attempts);
    FailedChangesNothing(w.ledger, event.eventType, attempts[0]);
  }
}
