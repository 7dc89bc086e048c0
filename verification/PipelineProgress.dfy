/** The pipeline does not run for ever: without new rows, each step the server takes by itself uses up
    some work, and a server that can take none is quiet. */
module PipelineProgress {
  import opened Bridge
  import opened LedgerTables
  import opened EventPipeline
  import opened PipelineSafety
  import opened PipelineOrder
  import EventSource

  /** A step that the server takes by itself. */
  predicate OwnStep(s: Step) {
    !s.Insert? && !s.SignUp? && !s.Crash? && !s.Restart?
  }

  // ---------- Work ----------

  /** How many more steps the consumer needs at most. */
  function StepsLeft(c: Consumer): nat {
    match c
    case Idle => 0
    case Finishing(_) => 1
    case Trying(_, n) => if n < RETRIES then 2 + RETRIES - n else 2
  }

  /** A pushed event costs the push and what the consumer needs for it. */
  function PollWork(p: Poller): nat {
    match p
    case Waiting => 0
    case Erring => 1
    case Begun => 4
    case Selected(_) => 3
    case Marked(_, _) => 2
    case Pushing(batch) => 1 + 15 * |batch|
  }

  function Work(w: World): nat {
    if w.server.Down? then 0
    else 5 * w.server.wakeups + PollWork(w.server.poller) + StepsLeft(w.server.consumer) + 16 * |Unseen(w.queue)|
  }

  lemma SmallerSet(a: set<Id>, b: set<Id>)
    requires a <= b
    ensures |a| <= |b|
  {
    if a != b {
      assert b == a + (b - a);
    }
  }

  lemma {:induction false} IdsCounted(evs: seq<Event>)
    requires Distinct(evs)
    ensures |EventIds(evs)| == |evs|
    decreases |evs|
  {
    if |evs| > 0 {
      var front, last := evs[..|evs| - 1], evs[|evs| - 1];
      IdsCounted(front);
      assert EventIds(evs) == EventIds(front) + {last.eventId};
    }
  }

  /** A committed poll takes at least its batch out of the unseen rows. */
  lemma CommitPollTakesBatch(w: World, sorted: seq<Event>)
    requires PushInvariant(w) && Enabled(w, CommitPoll(sorted))
    ensures |Unseen(Do(w, CommitPoll(sorted)).queue)| + |sorted| <= |Unseen(w.queue)|
  {
    var batch := w.server.poller.batch;
    var left := Unseen(Do(w, CommitPoll(sorted)).queue);
    IdsCounted(batch);
    assert |sorted| == |multiset(sorted)| == |multiset(batch)| == |batch|;
    assert left !! EventIds(batch) && left + EventIds(batch) <= Unseen(w.queue);
    SmallerSet(left + EventIds(batch), Unseen(w.queue));
  }

  lemma UnseenShrinks(w: World, s: Step)
    requires Enabled(w, s) && !s.Insert?
    ensures Unseen(Do(w, s).queue) <= Unseen(w.queue)
    ensures |Unseen(Do(w, s).queue)| <= |Unseen(w.queue)|
  {
    SmallerSet(Unseen(Do(w, s).queue), Unseen(w.queue));
  }

  /** Every step of its own that leaves the server up uses up work. */
  lemma OwnStepWorks(w: World, s: Step)
    requires PushInvariant(w) && Enabled(w, s) && OwnStep(s) && Do(w, s).server.Up?
    ensures Work(Do(w, s)) < Work(w)
  {
    if s.CommitPoll? {
      CommitPollTakesBatch(w, s.sorted);
    } else {
      UnseenShrinks(w, s);
    }
  }

  // ---------- Quiet ----------

  lemma {:induction false} SelectionExists(q: Queue, ids: set<Id>) returns (batch: seq<Event>)
    requires ids <= Unseen(q)
    ensures Distinct(batch) && EventIds(batch) == ids
    ensures forall e :: e in batch ==> e.eventId in q && e == EventOf(q, e.eventId)
    decreases ids
  {
    if ids == {} {
      batch := [];
    } else {
      assert (forall id :: id !in ids) ==> ids == {};
      var id :| id in ids;
      var rest := SelectionExists(q, ids - {id});
      assert forall e :: e in rest ==> e.eventId in EventIds(rest);
      batch := rest + [EventOf(q, id)];
      assert EventIds(batch) == EventIds(rest) + {id};
    }
  }

  const FAILING := Attempt(FetchFailed, FetchFailed, NO_FAULTS)

  /** A server that is not quiet has something to do, besides failing a poll. */
  lemma SomethingToDo(w: World) returns (s: Step)
    requires w.server.Up? && !Quiet(w)
    ensures OwnStep(s) && Enabled(w, s) && !s.FailPoll? && !s.LoseCommit?
    ensures w.server.consumer.Trying? ==> s == Try(FAILING)
  {
    if w.server.consumer.Trying? {
      return Try(FAILING);
    }
    if w.server.consumer.Finishing? {
      return Finish(true);
    }
    match w.server.poller
    case Waiting => s := Wake;
    case Erring => s := PushError;
    case Begun =>
      var batch := SelectionExists(w.queue, Unseen(w.queue));
      s := Select(batch);
    case Selected(_) => s := Mark;
    case Marked(batch, _) =>
      var sorted := EventSource.SortExists(batch);
      s := CommitPoll(sorted);
    case Pushing(batch) => s := if batch == [] then DonePushing else Push;
  }

  /** Quiet means that the server has nothing to do by itself. */
  lemma QuietIff(w: World)
    requires w.server.Up?
    ensures Quiet(w) <==> forall s :: OwnStep(s) ==> !Enabled(w, s)
  {
    if !Quiet(w) {
      var s := SomethingToDo(w);
    }
  }

  // ---------- Runs ----------

  /** Each step is the server's own, can be taken, and leaves it up. */
  ghost predicate OwnRun(w: World, steps: seq<Step>) {
    |steps| == 0 ||
    var before, s := steps[..|steps| - 1], steps[|steps| - 1];
    && OwnRun(w, before)
    && OwnStep(s) && Enabled(Reach(w, before), s) && Next(Reach(w, before), s).server.Up?
  }

  /** Without new rows, accounts and starts the server takes no more steps than it has work, and after
      a longest such run it is quiet. */
  lemma {:induction false} OwnRunsEnd(w: World, steps: seq<Step>)
    requires PushInvariant(w) && OwnRun(w, steps)
    ensures PushInvariant(Reach(w, steps))
    ensures |steps| + Work(Reach(w, steps)) <= Work(w)
  {
    if |steps| > 0 {
      var before, s := steps[..|steps| - 1], steps[|steps| - 1];
      OwnRunsEnd(w, before);
      StepKeepsPushInvariant(Reach(w, before), s);
      OwnStepWorks(Reach(w, before), s);
    }
  }
}
