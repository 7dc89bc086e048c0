/** The values that cross between the judge and CMS (`oiajudge/pkg/bridge`). */
module Bridge {

  /** Row identifiers are 64-bit in the program; nothing here computes with them. */
  type Id = int

  datatype Option<+T> = None | Some(value: T)

  datatype Score = Score(score: real, maxScore: real)

  datatype TestcaseResult = TestcaseResult(testcase: string, message: string, score: Score)

  datatype SubtaskResult = SubtaskResult(subtask: int, score: Score, testcases: seq<string>)

  datatype SubmissionResult =
    SubmissionResult(score: Score, subtasks: seq<SubtaskResult>, testcases: seq<TestcaseResult>)

  datatype SubmissionStatus = Unset | Compiling | CompilationFailed | Evaluating | Scoring | Scored

  datatype Submission = Submission(id: Id, userId: Id, problemId: Id, status: SubmissionStatus,
                                   compilationMessage: string, result: Option<SubmissionResult>, deleted: bool)

  datatype Task = Task(id: Id, name: string, title: string, tags: seq<string>, maxScore: real, multiplier: real)

  /** Event types other than these two reach the handler too, which ignores them. */
  datatype EventType = TaskEvent | SubmissionEvent | OtherEvent(name: string)

  datatype Event = Event(eventId: Id, objectId: Id, eventType: EventType)
}
