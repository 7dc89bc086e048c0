/** The road of an event from a CMS trigger to the judge's tables, as a machine whose steps
    interleave: CMS transactions that add queue rows, one poller, one consumer, and a server that
    may crash and be started again (`oiajudge/pkg/cmsbridge/store.go`, `impl.go` and
    `migrations/001.sql`). One server runs at a time. */
module EventPipeline {
  import opened Bridge
  import opened LedgerTables

  datatype QueueRow = QueueRow(objectId: Id, eventType: EventType, seen: bool)

  type Queue = map<Id, QueueRow>

  /** One call of `push_existing_rows`, by how far it has come. The SELECT and the UPDATE are
      separate statements: each sees what is committed when it runs. */
  datatype Poller =
    | Waiting
    | Begun
    | Selected(batch: seq<Event>)
    | Marked(batch: seq<Event>, marked: set<Id>)
    | Pushing(batch: seq<Event>)
    | Erring

  datatype Consumer = Idle | Trying(event: Event, attempts: nat) | Finishing(event: Event)

  datatype Server = Down | Up(wakeups: nat, poller: Poller, consumer: Consumer)

  /** `queue` and `ledger` survive a crash. The last four fields only record history: every row id
      ever issued, every task ever announced by a queue row, every event handed to the consumer,
      and the row of each attempt that changed the ledger. */
  datatype World = World(queue: Queue, server: Server, ledger: Tables,
                         issued: set<Id>, announced: set<Id>, log: seq<Event>, effects: seq<Id>)

  const RETRIES: nat := 10

  const INIT := World(map[], Up(0, Begun, Idle), EMPTY, {}, {}, [], [])

  datatype Step =
    | Insert(rows: map<Id, (Id, EventType)>)
    | Wake
    | Select(batch: seq<Event>)
    | Mark
    | CommitPoll(sorted: seq<Event>)
    | FailPoll
    | LoseCommit
    | PushError
    | Push
    | DonePushing
    | Try(attempt: Attempt)
    | Finish(deleted: bool)
    | SignUp(user: Id)
    | Crash
    | Restart

  // ---------- Pieces of a poll ----------

  function Unseen(q: Queue): set<Id> {
    set id | id in q && !q[id].seen
  }

  function EventOf(q: Queue, id: Id): Event
    requires id in q
  {
    Event(id, q[id].objectId, q[id].eventType)
  }

  function EventIds(evs: seq<Event>): set<Id> {
    set e | e in evs :: e.eventId
  }

  ghost predicate Distinct(evs: seq<Event>) {
    forall i, j :: 0 <= i < j < |evs| ==> evs[i].eventId != evs[j].eventId
  }

  /** The unseen rows, each once, in whatever order the database returns them. */
  ghost predicate IsSelection(q: Queue, batch: seq<Event>) {
    && Distinct(batch)
    && EventIds(batch) == Unseen(q)
    && forall e :: e in batch ==> e.eventId in q && e == EventOf(q, e.eventId)
  }

  function MarkSeen(q: Queue, ids: set<Id>): Queue {
    map id | id in q :: if id in ids then q[id].(seen := true) else q[id]
  }

  /** Looked up in a Go map: a type that is not listed counts as 0, like a task. */
  function Priority(e: Event): int {
    if e.eventType.SubmissionEvent? then 1 else 0
  }

  predicate PrioritySorted(evs: seq<Event>) {
    forall i, j :: 0 <= i < j < |evs| ==> Priority(evs[i]) <= Priority(evs[j])
  }

  /** What `sort.Slice` promises; it is not stable. */
  ghost predicate IsPrioritySort(batch: seq<Event>, sorted: seq<Event>) {
    multiset(sorted) == multiset(batch) && PrioritySorted(sorted)
  }

  // ---------- Steps ----------

  ghost predicate Enabled(w: World, s: Step) {
    match s
    case Insert(rows) => rows.Keys !! w.issued
    case SignUp(_) => true
    case Restart => w.server.Down?
    case Crash => w.server.Up?
    case Wake => PollerAt(w, Waiting) && w.server.wakeups > 0
    case Select(batch) => PollerAt(w, Begun) && IsSelection(w.queue, batch)
    case Mark => w.server.Up? && w.server.poller.Selected?
    case CommitPoll(sorted) => w.server.Up? && w.server.poller.Marked? && IsPrioritySort(w.server.poller.batch, sorted)
    case FailPoll => w.server.Up? && (w.server.poller.Begun? || w.server.poller.Selected? || w.server.poller.Marked?)
    case LoseCommit => w.server.Up? && w.server.poller.Marked?
    case PushError => PollerAt(w, Erring) && w.server.consumer.Idle?
    case Push => w.server.Up? && w.server.poller.Pushing? && |w.server.poller.batch| > 0 && w.server.consumer.Idle?
    case DonePushing => PollerAt(w, Pushing([]))
    case Try(_) => w.server.Up? && w.server.consumer.Trying?
    case Finish(_) => w.server.Up? && w.server.consumer.Finishing?
  }

  predicate PollerAt(w: World, p: Poller) {
    w.server.Up? && w.server.poller == p
  }

  function Rows(rows: map<Id, (Id, EventType)>): Queue {
    map id | id in rows :: QueueRow(rows[id].0, rows[id].1, false)
  }

  function TasksIn(rows: map<Id, (Id, EventType)>): set<Id> {
    set id | id in rows && rows[id].1.TaskEvent? :: rows[id].0
  }

  /** A committed insert wakes the poller once, however many rows it holds: equal notifications of
      one transaction are delivered once. Nobody listens while the server is down. */
  function AfterInsert(w: World, rows: map<Id, (Id, EventType)>): World {
    w.(queue := w.queue + Rows(rows), issued := w.issued + rows.Keys, announced := w.announced + TasksIn(rows),
       server := if w.server.Up? && rows != map[] then w.server.(wakeups := w.server.wakeups + 1) else w.server)
  }

  function SetPoller(w: World, p: Poller): World
    requires w.server.Up?
  {
    w.(server := w.server.(poller := p))
  }

  function SetConsumer(w: World, c: Consumer): World
    requires w.server.Up?
  {
    w.(server := w.server.(consumer := c))
  }

  /** One attempt of the consumer. A nil return ends the attempts, an error ends them after the
      tenth, and a panic takes the server down. */
  ghost function AfterTry(w: World, a: Attempt): World
    requires w.server.Up? && w.server.consumer.Trying?
  {
    var event, n := w.server.consumer.event, w.server.consumer.attempts;
    var (ledger, outcome) := HandleAttempt(w.ledger, event.eventType, a);
    var w1 := w.(ledger := ledger, effects := if ledger == w.ledger then w.effects else w.effects + [event.eventId]);
    match outcome
    case Panicked => w1.(server := Down)
    case Done => SetConsumer(w1, Finishing(event))
    case Failed => SetConsumer(w1, if n + 1 < RETRIES then Trying(event, n + 1) else Finishing(event))
  }

  ghost function Do(w: World, s: Step): World
    requires Enabled(w, s)
  {
    match s
    case Insert(rows) => AfterInsert(w, rows)
    case SignUp(u) => w.(ledger := NewUser(w.ledger, u))
    case Restart => w.(server := Up(0, Begun, Idle))
    case Crash => w.(server := Down)
    case Wake => w.(server := w.server.(poller := Begun, wakeups := w.server.wakeups - 1))
    case Select(batch) => SetPoller(w, Selected(batch))
    case Mark => SetPoller(w, Marked(w.server.poller.batch, w.queue.Keys))
    case CommitPoll(sorted) => SetPoller(w.(queue := MarkSeen(w.queue, w.server.poller.marked)), Pushing(sorted))
    case FailPoll => SetPoller(w, Erring)
    case LoseCommit => SetPoller(w.(queue := MarkSeen(w.queue, w.server.poller.marked)), Erring)
    case PushError => SetPoller(w, Waiting)
    case Push =>
      var event := w.server.poller.batch[0];
      w.(server := w.server.(poller := Pushing(w.server.poller.batch[1..]), consumer := Trying(event, 0)),
         log := w.log + [event])
    case DonePushing => SetPoller(w, Waiting)
    case Try(a) => AfterTry(w, a)
    case Finish(deleted) =>
      SetConsumer(if deleted then w.(queue := w.queue - {w.server.consumer.event.eventId}) else w, Idle)
  }

  /** Where a schedule leads; a step that is not enabled when its turn comes is skipped. */
  ghost function Next(w: World, s: Step): World {
    if Enabled(w, s) then Do(w, s) else w
  }

  ghost function Reach(w: World, steps: seq<Step>): World {
    if |steps| == 0 then w else Next(Reach(w, steps[..|steps| - 1]), steps[|steps| - 1])
  }

  lemma ReachAppend(w: World, steps: seq<Step>, s: Step)
    ensures Reach(w, steps + [s]) == Next(Reach(w, steps), s)
  {
    assert (steps + [s])[..|steps|] == steps;
  }

  /** Schedules compose. */
  lemma {:induction false} ReachConcat(w: World, first: seq<Step>, second: seq<Step>)
    ensures Reach(w, first + second) == Reach(Reach(w, first), second)
    decreases |second|
  {
    if |second| == 0 {
      assert first + second == first;
    } else {
      var front, last := second[..|second| - 1], second[|second| - 1];
      ReachConcat(w, first, front);
      assert (first + second)[..|first + second| - 1] == first + front;
    }
  }

  lemma ReachPrepend(w: World, s: Step, rest: seq<Step>)
    ensures Reach(w, [s] + rest) == Reach(Next(w, s), rest)
  {
    ReachConcat(w, [s], rest);
    ReachAppend(w, [], s);
    assert [] + [s] == [s];
  }
}

/** What holds over every schedule, whatever fails and whenever the server crashes. */
module PipelineSafety {
  import opened Bridge
  import opened LedgerTables
  import LI = LedgerInvariants
  import opened EventPipeline
  import opened Sequences

  // ---------- Each row is pushed at most once ----------

  /** Rows of these events have had their marking committed, if they are still there. */
  ghost predicate AllSeen(q: Queue, evs: seq<Event>) {
    forall e :: e in evs && e.eventId in q ==> q[e.eventId].seen
  }

  ghost predicate AllUnseen(q: Queue, evs: seq<Event>) {
    forall e :: e in evs ==> e.eventId in Unseen(q)
  }

  ghost predicate BatchInvariant(w: World) {
    w.server.Up? ==>
      match w.server.poller
      case Selected(batch) => Distinct(batch) && AllUnseen(w.queue, batch)
      case Marked(batch, marked) =>
        Distinct(batch) && AllUnseen(w.queue, batch) && EventIds(batch) <= marked <= w.issued
      case Pushing(batch) =>
        && Distinct(batch) && AllSeen(w.queue, batch)
        && EventIds(batch) <= w.issued && EventIds(batch) !! EventIds(w.log)
      case _ => true
  }

  ghost predicate PushInvariant(w: World) {
    && w.queue.Keys <= w.issued
    && EventIds(w.log) <= w.issued
    && Distinct(w.log)
    && AllSeen(w.queue, w.log)
    && BatchInvariant(w)
    && (w.server.Up? && !w.server.consumer.Idle? ==> w.server.consumer.event in w.log)
  }

  lemma SortKeepsEvents(batch: seq<Event>, sorted: seq<Event>)
    requires IsPrioritySort(batch, sorted) && Distinct(batch)
    ensures Distinct(sorted)
    ensures forall e :: e in sorted <==> e in batch
    ensures EventIds(sorted) == EventIds(batch)
  {
    PermutationKeepsNoRepeats(batch, sorted);
    forall i, j | 0 <= i < j < |sorted| ensures sorted[i].eventId != sorted[j].eventId {
      SameIdSameEvent(batch, sorted[i], sorted[j]);
    }
  }

  lemma SameIdSameEvent(batch: seq<Event>, a: Event, b: Event)
    requires Distinct(batch) && a in batch && b in batch
    ensures a.eventId == b.eventId ==> a == b
  {
  }

  lemma InsertKeepsPushInvariant(w: World, rows: map<Id, (Id, EventType)>)
    requires PushInvariant(w) && rows.Keys !! w.issued
    ensures PushInvariant(AfterInsert(w, rows))
  {
    var w' := AfterInsert(w, rows);
    forall e | e in w.log && e.eventId in w'.queue ensures w'.queue[e.eventId].seen {
      assert e.eventId in EventIds(w.log);
    }
    if w.server.Up? {
      match w.server.poller
      case Pushing(batch) =>
        forall e | e in batch && e.eventId in w'.queue ensures w'.queue[e.eventId].seen {
          assert e.eventId in EventIds(batch);
        }
      case Selected(batch) => assert AllUnseen(w'.queue, batch);
      case Marked(batch, marked) => assert AllUnseen(w'.queue, batch);
      case _ =>
    }
  }

  lemma CommitKeepsPushInvariant(w: World, sorted: seq<Event>)
    requires PushInvariant(w) && Enabled(w, CommitPoll(sorted))
    ensures PushInvariant(Do(w, CommitPoll(sorted)))
  {
    var batch := w.server.poller.batch;
    SortKeepsEvents(batch, sorted);
    forall e | e in sorted
      ensures e.eventId in w.server.poller.marked && e.eventId in w.issued && e.eventId !in EventIds(w.log)
    {
      assert e.eventId in EventIds(batch);
      assert e.eventId in Unseen(w.queue);
    }
  }

  lemma PushKeepsPushInvariant(w: World)
    requires PushInvariant(w) && Enabled(w, Push)
    ensures PushInvariant(Do(w, Push))
  {
    var batch := w.server.poller.batch;
    var rest := batch[1..];
    assert batch[0] in batch;
    assert batch[0].eventId in EventIds(batch);
    assert forall e :: e in w.log ==> e.eventId in EventIds(w.log);
    assert forall e :: e in rest ==> e in batch && e.eventId in EventIds(batch);
    assert forall e :: e in w.log + [batch[0]] <==> e in w.log || e == batch[0];
  }

  lemma StepKeepsPushInvariant(w: World, s: Step)
    requires PushInvariant(w)
    ensures PushInvariant(Next(w, s))
  {
    if Enabled(w, s) {
      match s
      case CommitPoll(sorted) => CommitKeepsPushInvariant(w, sorted);
      case Push => PushKeepsPushInvariant(w);
      case Insert(rows) => InsertKeepsPushInvariant(w, rows);
      case _ => OtherStepsKeepPushInvariant(w, s);
    }
  }

  lemma OtherStepsKeepPushInvariant(w: World, s: Step)
    requires PushInvariant(w) && Enabled(w, s)
    requires !s.CommitPoll? && !s.Push? && !s.Insert?
    ensures PushInvariant(Do(w, s))
  {
    var w' := Do(w, s);
    assert w'.log == w.log && w'.issued == w.issued;
    if s.Select? || s.Mark? {
      assert w'.queue == w.queue;
    }
  }

  /** However polls fail, commits get lost, inserts interleave and the server crashes and restarts,
      no queue row is handed to the consumer twice. */
  lemma {:induction false} PushedAtMostOnce(steps: seq<Step>)
    ensures PushInvariant(Reach(INIT, steps))
    ensures Distinct(Reach(INIT, steps).log)
  {
    if |steps| > 0 {
      PushedAtMostOnce(steps[..|steps| - 1]);
      StepKeepsPushInvariant(Reach(INIT, steps[..|steps| - 1]), steps[|steps| - 1]);
    }
  }

  // ---------- Each row changes the ledger at most once ----------

  ghost predicate EffectInvariant(w: World) {
    && NoRepeats(w.effects)
    && (forall id :: id in w.effects ==> id in EventIds(w.log))
    && (w.server.Up? && w.server.consumer.Trying? ==> w.server.consumer.event.eventId !in w.effects)
  }

  lemma FailedChangesNothing(t: Tables, e: EventType, a: Attempt)
    ensures HandleAttempt(t, e, a).1.Failed? ==> HandleAttempt(t, e, a).0 == t
  {
  }

  lemma StepKeepsEffectInvariant(w: World, s: Step)
    requires PushInvariant(w) && EffectInvariant(w)
    ensures EffectInvariant(Next(w, s))
  {
    if Enabled(w, s) {
      match s
      case Push =>
        var event := w.server.poller.batch[0];
        assert event.eventId in EventIds(w.server.poller.batch);
        assert EventIds(w.log + [event]) == EventIds(w.log) + {event.eventId};
      case Try(a) =>
        FailedChangesNothing(w.ledger, w.server.consumer.event.eventType, a);
      case _ =>
    }
  }

  /** Ten attempts or not, crashes or not: at most one attempt per queue row changes the ledger,
      over the row's whole life. */
  lemma {:induction false} OneEffectPerRow(steps: seq<Step>)
    ensures NoRepeats(Reach(INIT, steps).effects)
    ensures EffectInvariant(Reach(INIT, steps))
  {
    if |steps| > 0 {
      OneEffectPerRow(steps[..|steps| - 1]);
      PushedAtMostOnce(steps[..|steps| - 1]);
      StepKeepsEffectInvariant(Reach(INIT, steps[..|steps| - 1]), steps[|steps| - 1]);
    }
  }

  // ---------- The ledger behind the pipeline ----------

  /** The ledger step that a step of the machine performs, if any. */
  ghost function LedgerPart(w: World, s: Step): seq<LI.LedgerStep> {
    if s.Try? && Enabled(w, s) then [LI.Handle(w.server.consumer.event.eventType, s.attempt)]
    else if s.SignUp? then [LI.SignUp(s.user)]
    else []
  }

  /** The ledger steps that a schedule performs. */
  ghost function LedgerTrace(steps: seq<Step>): seq<LI.LedgerStep> {
    if |steps| == 0 then []
    else LedgerTrace(steps[..|steps| - 1]) + LedgerPart(Reach(INIT, steps[..|steps| - 1]), steps[|steps| - 1])
  }

  lemma AppendStep(trace: seq<LI.LedgerStep>, step: LI.LedgerStep)
    ensures LI.AfterAll(EMPTY, trace + [step]) == LI.After(LI.AfterAll(EMPTY, trace), step)
  {
    assert (trace + [step])[..|trace|] == trace;
  }

  lemma LedgerPartIsWhatHappens(w: World, s: Step)
    ensures |LedgerPart(w, s)| <= 1
    ensures Next(w, s).ledger == if LedgerPart(w, s) == [] then w.ledger else LI.After(w.ledger, LedgerPart(w, s)[0])
  {
  }

  lemma LedgerAfterStep(w: World, s: Step, trace: seq<LI.LedgerStep>)
    requires w.ledger == LI.AfterAll(EMPTY, trace)
    ensures Next(w, s).ledger == LI.AfterAll(EMPTY, trace + LedgerPart(w, s))
  {
    var part := LedgerPart(w, s);
    LedgerPartIsWhatHappens(w, s);
    if part == [] {
      assert trace + part == trace;
    } else {
      AppendStep(trace, part[0]);
      assert part == [part[0]];
    }
  }

  lemma {:induction false} LedgerFollowsTrace(steps: seq<Step>)
    ensures Reach(INIT, steps).ledger == LI.AfterAll(EMPTY, LedgerTrace(steps))
  {
    if |steps| > 0 {
      var before := steps[..|steps| - 1];
      LedgerFollowsTrace(before);
      LedgerAfterStep(Reach(INIT, before), steps[|steps| - 1], LedgerTrace(before));
    }
  }

  /** So the users' totals are right in every state the whole system can reach. */
  lemma {:induction false} TotalsBehindPipeline(steps: seq<Step>)
    ensures LI.TotalsAgree(Reach(INIT, steps).ledger)
  {
    LedgerFollowsTrace(steps);
    LI.TotalsOverRuns(LedgerTrace(steps));
  }

  /** The submission that an attempt reads, if any, is its owner's and not deleted. */
  ghost predicate TryRespects(s: Step, owner: LI.Owners) {
    s.Try? ==> LI.StepRespects(LI.Handle(SubmissionEvent, s.attempt), owner)
  }

  /** The task that an attempt reads, if any, has its one multiplier. */
  ghost predicate TryMultiplies(s: Step, mult: LI.Multipliers) {
    s.Try? ==> LI.StepMultiplies(LI.Handle(TaskEvent, s.attempt), mult)
  }

  lemma {:induction false} TraceRespects(steps: seq<Step>, owner: LI.Owners)
    requires forall i :: 0 <= i < |steps| ==> TryRespects(steps[i], owner)
    ensures forall i :: 0 <= i < |LedgerTrace(steps)| ==> LI.StepRespects(LedgerTrace(steps)[i], owner)
  {
    if |steps| > 0 {
      TraceRespects(steps[..|steps| - 1], owner);
      assert TryRespects(steps[|steps| - 1], owner);
    }
  }

  lemma {:induction false} TraceMultiplies(steps: seq<Step>, mult: LI.Multipliers)
    requires forall i :: 0 <= i < |steps| ==> TryMultiplies(steps[i], mult)
    ensures forall i :: 0 <= i < |LedgerTrace(steps)| ==> LI.StepMultiplies(LedgerTrace(steps)[i], mult)
  {
    if |steps| > 0 {
      TraceMultiplies(steps[..|steps| - 1], mult);
      assert TryMultiplies(steps[|steps| - 1], mult);
    }
  }

  /** While submissions keep their owners, so are the base scores: best result per subtask, summed. */
  lemma {:induction false} BasesBehindPipeline(steps: seq<Step>, owner: LI.Owners)
    requires forall i :: 0 <= i < |steps| ==> TryRespects(steps[i], owner)
    ensures LI.BasesAgree(Reach(INIT, steps).ledger) && LI.Owned(Reach(INIT, steps).ledger, owner)
  {
    LedgerFollowsTrace(steps);
    TraceRespects(steps, owner);
    LI.BasesOverRuns(LedgerTrace(steps), owner);
  }

  /** And while multipliers are fixed, each score is its base score times its task's multiplier. */
  lemma {:induction false} ScoresBehindPipeline(steps: seq<Step>, mult: LI.Multipliers)
    requires forall i :: 0 <= i < |steps| ==> TryMultiplies(steps[i], mult)
    ensures LI.Multiplied(Reach(INIT, steps).ledger, mult)
  {
    LedgerFollowsTrace(steps);
    TraceMultiplies(steps, mult);
    LI.ScoresOverRuns(LedgerTrace(steps), mult);
  }
}
