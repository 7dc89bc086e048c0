/** How the bridge reads a submission and a task out of CMS
    (`oiajudge/pkg/cmsbridge/submission.go` and `task.go`). CMS rows are inputs. */
module Scoring {
  import opened Bridge
  import opened BestScores
  import opened Strings

  /** A single-row query: one row, none, or an error. */
  datatype Query<+T> = Row(value: T) | NoRows | QueryError

  // ---------- Testcases ----------

  /** The outcome column: NULL, not a number, or a number. */
  datatype OutcomeText = Missing | Invalid(text: string) | Parsed(value: real)

  datatype Evaluation = Evaluation(outcome: OutcomeText, codename: Option<string>, messages: seq<string>)

  function OutcomeError(o: OutcomeText): string
    requires !o.Parsed?
  {
    if o.Missing? then "outcome doesn't exist" else "invalid outcome `" + o.text + "`"
  }

  /** An outcome that cannot be read counts as 0 and replaces the checker's messages. */
  function ToTestcase(e: Evaluation): TestcaseResult {
    TestcaseResult(
      if e.codename.Some? then e.codename.value else "",
      if e.outcome.Parsed? then Join(e.messages, "\n") else OutcomeError(e.outcome),
      Score(if e.outcome.Parsed? then e.outcome.value else 0.0, 1.0))
  }

  lemma TestcaseInWords(e: Evaluation)
    ensures var t := ToTestcase(e);
            && t.testcase == (match e.codename case Some(name) => name case None => "")
            && t.score.maxScore == 1.0
            && match e.outcome
               case Parsed(value) => t.score.score == value && t.message == Join(e.messages, "\n")
               case Missing => t.score.score == 0.0 && t.message == "outcome doesn't exist"
               case Invalid(text) => t.score.score == 0.0 && t.message == "invalid outcome `" + text + "`"
  {
  }

  function ToTestcases(evals: seq<Evaluation>): seq<TestcaseResult> {
    seq(|evals|, i requires 0 <= i < |evals| => ToTestcase(evals[i]))
  }

  ghost predicate SortsTestcases(sorted: seq<TestcaseResult>, s: seq<TestcaseResult>) {
    IsSortOf(sorted, s, (t: TestcaseResult) => t.testcase)
  }

  // ---------- Subtasks ----------

  /** One row of CMS's score details for grouped score types. */
  datatype Group = Group(idx: int, maxScore: real, fraction: real, testcases: seq<string>)

  function Points(outcome: real, m: real): real {
    outcome * m
  }

  function SumSubtask(i: int, t: TestcaseResult, m: real): SubtaskResult {
    SubtaskResult(i, Score(Points(t.score.score, m), Points(t.score.maxScore, m)), [t.testcase])
  }

  function SumSubtasks(ts: seq<TestcaseResult>, m: real): seq<SubtaskResult> {
    seq(|ts|, i requires 0 <= i < |ts| => SumSubtask(i, ts[i], m))
  }

  function GroupSubtask(g: Group): SubtaskResult {
    SubtaskResult(g.idx, Score(g.maxScore * g.fraction, g.maxScore), g.testcases)
  }

  function GroupSubtasks(gs: seq<Group>): seq<SubtaskResult> {
    seq(|gs|, i requires 0 <= i < |gs| => GroupSubtask(gs[i]))
  }

  /** The totals over a subtask list. */
  function Totals(subtasks: seq<SubtaskResult>): Score {
    if |subtasks| == 0 then Score(0.0, 0.0)
    else
      var t, last := Totals(subtasks[..|subtasks| - 1]), subtasks[|subtasks| - 1].score;
      Score(t.score + last.score, t.maxScore + last.maxScore)
  }

  /** What the subtasks earned, and what they are worth. */
  function Earned(subtasks: seq<SubtaskResult>): seq<real> {
    seq(|subtasks|, i requires 0 <= i < |subtasks| => subtasks[i].score.score)
  }

  function Worth(subtasks: seq<SubtaskResult>): seq<real> {
    seq(|subtasks|, i requires 0 <= i < |subtasks| => subtasks[i].score.maxScore)
  }

  lemma {:induction false} TotalsAreSums(subtasks: seq<SubtaskResult>)
    ensures Totals(subtasks) == Score(SumSeq(Earned(subtasks)), SumSeq(Worth(subtasks)))
  {
    if |subtasks| > 0 {
      var n := |subtasks| - 1;
      TotalsAreSums(subtasks[..n]);
      assert Earned(subtasks)[..n] == Earned(subtasks[..n]) && Worth(subtasks)[..n] == Worth(subtasks[..n]);
    }
  }

  /** The totals add up the subtasks. */
  lemma TotalsAddUp(subtasks: seq<SubtaskResult>)
    ensures AddsUp(Earned(subtasks), Totals(subtasks).score) && AddsUp(Worth(subtasks), Totals(subtasks).maxScore)
  {
    TotalsAreSums(subtasks);
    SumAddsUp(Earned(subtasks));
    SumAddsUp(Worth(subtasks));
  }

  /** "Sum": subtask `i` is testcase `i`, its outcome times `m`, out of its maximum times `m`. */
  predicate EarnsByTestcase(subtasks: seq<SubtaskResult>, testcases: seq<TestcaseResult>, m: real) {
    && |subtasks| == |testcases|
    && forall i :: 0 <= i < |subtasks| ==>
         && subtasks[i].subtask == i && subtasks[i].testcases == [testcases[i].testcase]
         && subtasks[i].score.score == testcases[i].score.score * m
         && subtasks[i].score.maxScore == testcases[i].score.maxScore * m
  }

  /** Otherwise: subtask `i` is group `i`, which earns its fraction of its maximum. */
  predicate EarnsByGroup(subtasks: seq<SubtaskResult>, groups: seq<Group>) {
    && |subtasks| == |groups|
    && forall i :: 0 <= i < |subtasks| ==>
         && subtasks[i].subtask == groups[i].idx && subtasks[i].testcases == groups[i].testcases
         && subtasks[i].score.score == groups[i].maxScore * groups[i].fraction
         && subtasks[i].score.maxScore == groups[i].maxScore
  }

  lemma SumSubtasksEarn(subtasks: seq<SubtaskResult>, testcases: seq<TestcaseResult>, m: real)
    ensures subtasks == SumSubtasks(testcases, m) <==> EarnsByTestcase(subtasks, testcases, m)
  {
    if EarnsByTestcase(subtasks, testcases, m) {
      forall i | 0 <= i < |subtasks| ensures subtasks[i] == SumSubtask(i, testcases[i], m) {
      }
    }
  }

  lemma GroupSubtasksEarn(groups: seq<Group>)
    ensures EarnsByGroup(GroupSubtasks(groups), groups)
  {
  }

  lemma TotalsStep(subtasks: seq<SubtaskResult>, last: SubtaskResult)
    ensures var t := Totals(subtasks);
            Totals(subtasks + [last]) == Score(t.score + last.score.score, t.maxScore + last.score.maxScore)
  {
    assert (subtasks + [last])[..|subtasks|] == subtasks;
  }

  lemma SumSubtasksStep(ts: seq<TestcaseResult>, i: nat, m: real)
    requires i < |ts|
    ensures SumSubtasks(ts[..i + 1], m) == SumSubtasks(ts[..i], m) + [SumSubtask(i, ts[i], m)]
  {
  }

  lemma GroupSubtasksStep(gs: seq<Group>, i: nat)
    requires i < |gs|
    ensures GroupSubtasks(gs[..i + 1]) == GroupSubtasks(gs[..i]) + [GroupSubtask(gs[i])]
  {
  }

  class ResultBuilder {
    var score: Score
    var subtasks: seq<SubtaskResult>
    var testcases: seq<TestcaseResult>

    constructor ()
      ensures score == Score(0.0, 0.0) && subtasks == [] && testcases == []
    {
      score, subtasks, testcases := Score(0.0, 0.0), [], [];
    }

    /** Rows arrive in no particular order. A row that cannot be scanned ends the loop before the
        sort; the caller ignores that error. */
    method FillTestcaseResults(rows: seq<Option<Evaluation>>) returns (error: bool)
      requires testcases == []
      modifies this`testcases
      ensures error <==> None in rows
      ensures !error ==> forall evals :: rows == Somes(evals) ==> SortsTestcases(testcases, ToTestcases(evals))
      ensures error ==> exists evals :: Somes(evals) + [None] <= rows && testcases == ToTestcases(evals)
    {
      ghost var evals: seq<Evaluation> := [];
      for i := 0 to |rows|
        invariant |evals| == i && Somes(evals) == rows[..i]
        invariant testcases == ToTestcases(evals)
      {
        if rows[i].None? {
          assert Somes(evals) + [None] == rows[..i + 1];
          return true;
        }
        ghost var before := evals;
        evals := evals + [rows[i].value];
        assert Somes(evals) == Somes(before) + [rows[i]];
        assert ToTestcases(evals) == ToTestcases(before) + [ToTestcase(rows[i].value)];
        testcases := testcases + [ToTestcase(rows[i].value)];
      }
      assert rows[..|rows|] == rows;
      forall other | rows == Somes(other) ensures other == evals {
        SomesInjective(other, evals);
      }
      testcases := SortByName(testcases, (t: TestcaseResult) => t.testcase);
      error := false;
    }

    /** "Sum": each testcase is a subtask of its own. An unreadable multiplier leaves the result empty. */
    method FillSum(multiplier: Option<real>)
      requires subtasks == [] && score == Score(0.0, 0.0)
      modifies this`score, this`subtasks
      ensures subtasks == if multiplier.Some? then SumSubtasks(testcases, multiplier.value) else []
      ensures multiplier.Some? ==> EarnsByTestcase(subtasks, testcases, multiplier.value)
      ensures score == Totals(subtasks)
    {
      if multiplier.None? {
        return;
      }
      var m := multiplier.value;
      score := Score(0.0, 0.0);
      for i := 0 to |testcases|
        invariant subtasks == SumSubtasks(testcases[..i], m)
        invariant score == Totals(subtasks)
      {
        var subtask := SumSubtask(i, testcases[i], m);
        SumSubtasksStep(testcases, i, m);
        TotalsStep(subtasks, subtask);
        subtasks := subtasks + [subtask];
        score := Score(score.score + subtask.score.score, score.maxScore + subtask.score.maxScore);
      }
      assert testcases[..|testcases|] == testcases;
      SumSubtasksEarn(subtasks, testcases, m);
    }

    /** Every other score type: CMS's own groups. The error of a failing decode is ignored, so
        `groups` is what decoding the details yields, all of them or what came before the failure. */
    method FillGrouped(groups: seq<Group>)
      requires subtasks == []
      modifies this`score, this`subtasks
      ensures subtasks == GroupSubtasks(groups) && EarnsByGroup(subtasks, groups)
      ensures score == Totals(subtasks)
    {
      score := Score(0.0, 0.0);
      for i := 0 to |groups|
        invariant subtasks == GroupSubtasks(groups[..i])
        invariant score == Totals(subtasks)
      {
        var subtask := GroupSubtask(groups[i]);
        GroupSubtasksStep(groups, i);
        TotalsStep(subtasks, subtask);
        score := Score(score.score + subtask.score.score, score.maxScore + subtask.score.maxScore);
        subtasks := subtasks + [subtask];
      }
      assert groups[..|groups|] == groups;
      GroupSubtasksEarn(groups);
    }
  }

  function Somes(evals: seq<Evaluation>): seq<Option<Evaluation>> {
    seq(|evals|, i requires 0 <= i < |evals| => Some(evals[i]))
  }

  lemma SomesInjective(a: seq<Evaluation>, b: seq<Evaluation>)
    requires Somes(a) == Somes(b)
    ensures a == b
  {
    forall i | 0 <= i < |a| ensures a[i] == b[i] {
      assert Somes(a)[i] == Some(a[i]) && Somes(b)[i] == Some(b[i]);
    }
  }

  /** For distinct codenames the subtask list does not depend on the order CMS returns its rows in. */
  lemma RowOrderIrrelevant(p: seq<Evaluation>, q: seq<Evaluation>, a: seq<TestcaseResult>, b: seq<TestcaseResult>,
                           m: real)
    requires multiset(p) == multiset(q)
    requires SortsTestcases(a, ToTestcases(p)) && SortsTestcases(b, ToTestcases(q))
    requires DistinctNames(a, (t: TestcaseResult) => t.testcase)
    ensures a == b
    ensures SumSubtasks(a, m) == SumSubtasks(b, m)
  {
    TestcasesPermute(p, q);
    SortIsUnique(a, b, (t: TestcaseResult) => t.testcase);
  }

  lemma {:induction false} TestcasesPermute(p: seq<Evaluation>, q: seq<Evaluation>)
    requires multiset(p) == multiset(q)
    ensures multiset(ToTestcases(p)) == multiset(ToTestcases(q))
    decreases |p|
  {
    assert |p| == |multiset(p)| == |multiset(q)| == |q|;
    if |p| > 0 {
      var last := p[|p| - 1];
      assert last in multiset(q);
      var j :| 0 <= j < |q| && q[j] == last;
      Removal(p, |p| - 1);
      Removal(q, j);
      TestcasesPermute(p[..|p| - 1] + p[|p|..], q[..j] + q[j + 1..]);
    }
  }

  lemma ToTestcasesConcat(a: seq<Evaluation>, b: seq<Evaluation>)
    ensures ToTestcases(a + b) == ToTestcases(a) + ToTestcases(b)
  {
  }

  lemma Removal(s: seq<Evaluation>, j: nat)
    requires j < |s|
    ensures multiset(s[..j] + s[j + 1..]) == multiset(s) - multiset{s[j]}
    ensures multiset(ToTestcases(s)) == multiset(ToTestcases(s[..j] + s[j + 1..])) + multiset{ToTestcase(s[j])}
  {
    var left, right := s[..j], s[j + 1..];
    assert s == left + [s[j]] + right;
    ToTestcasesConcat(left + [s[j]], right);
    ToTestcasesConcat(left, [s[j]]);
    ToTestcasesConcat(left, right);
    assert ToTestcases([s[j]]) == [ToTestcase(s[j])];
  }

  // ---------- A submission ----------

  datatype CmsSubmission = CmsSubmission(taskId: Id, userId: Id, compilationOutcome: Option<string>,
                                         compilationStderr: Option<string>, evaluationOutcome: Option<string>,
                                         scoreDetails: Option<string>, groups: seq<Group>)

  datatype Dataset = Dataset(scoreType: string, multiplier: Option<real>)

  /** What each status says about the columns. */
  predicate HasStatus(c: CmsSubmission, status: SubmissionStatus) {
    && (status == Compiling <==> c.compilationOutcome.None?)
    && (status == CompilationFailed <==> c.compilationOutcome == Some("fail"))
    && (status == Evaluating <==>
          && c.compilationOutcome.Some? && c.compilationOutcome.value != "fail" && c.evaluationOutcome.None?)
    && (status == Scoring <==>
          && c.compilationOutcome.Some? && c.compilationOutcome.value != "fail" && c.evaluationOutcome.Some?
          && (c.scoreDetails.None? || c.scoreDetails.value == "null"))
    && (status == Scored <==>
          && c.compilationOutcome.Some? && c.compilationOutcome.value != "fail" && c.evaluationOutcome.Some?
          && c.scoreDetails.Some? && c.scoreDetails.value != "null")
  }

  /** Score and maximum add up those of the subtasks. */
  ghost predicate IsSumOf(r: SubmissionResult) {
    AddsUp(Earned(r.subtasks), r.score.score) && AddsUp(Worth(r.subtasks), r.score.maxScore)
  }

  /** Fractions in [0, 1] of nonnegative maxima keep the score between 0 and the maximum, which is
      reached exactly when every group with points has the fraction 1. */
  lemma GroupedWithin(r: SubmissionResult, groups: seq<Group>)
    requires IsSumOf(r) && EarnsByGroup(r.subtasks, groups)
    requires forall i :: 0 <= i < |groups| ==> groups[i].maxScore >= 0.0 && 0.0 <= groups[i].fraction <= 1.0
    ensures 0.0 <= r.score.score <= r.score.maxScore
    ensures r.score.score == r.score.maxScore
            <==> forall i :: 0 <= i < |groups| ==> Full(groups[i])
  {
    var earned, worth := Earned(r.subtasks), Worth(r.subtasks);
    forall i | 0 <= i < |groups| ensures 0.0 <= earned[i] <= worth[i] && (earned[i] == worth[i] <==> Full(groups[i])) {
      GroupWithin(r.subtasks, groups, i);
    }
    SumAddsUp(earned);
    SumAddsUp(worth);
    TotalIsUnique(earned, r.score.score, SumSeq(earned));
    TotalIsUnique(worth, r.score.maxScore, SumSeq(worth));
    SumsWithin(earned, worth);
    assert forall i :: 0 <= i < |groups| ==> (earned[i] == worth[i] <==> Full(groups[i]));
  }

  /** A group that earns all its points. */
  predicate Full(g: Group) {
    g.maxScore > 0.0 ==> g.fraction == 1.0
  }

  lemma GroupWithin(subtasks: seq<SubtaskResult>, groups: seq<Group>, i: nat)
    requires EarnsByGroup(subtasks, groups) && i < |groups|
    requires groups[i].maxScore >= 0.0 && 0.0 <= groups[i].fraction <= 1.0
    ensures 0.0 <= subtasks[i].score.score <= subtasks[i].score.maxScore
    ensures subtasks[i].score.score == subtasks[i].score.maxScore <==> Full(groups[i])
  {
    FractionWithin(groups[i].maxScore, groups[i].fraction);
  }

  lemma FractionWithin(max: real, fraction: real)
    requires max >= 0.0 && 0.0 <= fraction <= 1.0
    ensures 0.0 <= max * fraction <= max
    ensures max * fraction == max <==> (max > 0.0 ==> fraction == 1.0)
  {
    assert max - max * fraction == max * (1.0 - fraction);
  }

  lemma {:induction false} SumsWithin(a: seq<real>, b: seq<real>)
    requires |a| == |b| && forall i :: 0 <= i < |a| ==> 0.0 <= a[i] <= b[i]
    ensures 0.0 <= SumSeq(a) <= SumSeq(b)
    ensures SumSeq(a) == SumSeq(b) <==> forall i :: 0 <= i < |a| ==> a[i] == b[i]
  {
    if |a| > 0 {
      var n := |a| - 1;
      SumsWithin(a[..n], b[..n]);
      assert (forall i :: 0 <= i < |a| ==> a[i] == b[i])
             <==> a[n] == b[n] && forall i :: 0 <= i < n ==> a[..n][i] == b[..n][i];
    }
  }

  /** By testcase, not at all when the multiplier cannot be read, or by group. */
  predicate EarnsAsTyped(r: SubmissionResult, d: Dataset, groups: seq<Group>) {
    if d.scoreType != "Sum" then EarnsByGroup(r.subtasks, groups)
    else if d.multiplier.None? then r.subtasks == []
    else EarnsByTestcase(r.subtasks, r.testcases, d.multiplier.value)
  }

  /** The result of a scored submission. */
  method FillResult(d: Dataset, groups: seq<Group>, rows: seq<Option<Evaluation>>) returns (r: SubmissionResult)
    ensures IsSumOf(r) && EarnsAsTyped(r, d, groups)
    ensures forall evals :: rows == Somes(evals) ==> SortsTestcases(r.testcases, ToTestcases(evals))
    ensures None in rows ==> exists evals :: Somes(evals) + [None] <= rows && r.testcases == ToTestcases(evals)
  {
    var result := new ResultBuilder();
    var _ := result.FillTestcaseResults(rows);
    assert forall evals :: rows == Somes(evals) ==> None !in rows;
    if d.scoreType == "Sum" {
      result.FillSum(d.multiplier);
    } else {
      result.FillGrouped(groups);
    }
    TotalsAddUp(result.subtasks);
    r := SubmissionResult(result.score, result.subtasks, result.testcases);
  }

  /** A submission comes with a result exactly when it is scored. A missing row is reported both as
      deleted and as an error, so no caller ever sees a deletion that is not an error. */
  method GetSubmission(id: Id, row: Query<CmsSubmission>, dataset: Query<Dataset>, rows: seq<Option<Evaluation>>)
    returns (s: Submission, error: bool)
    ensures error <==> !row.Row? || !dataset.Row?
    ensures s.id == id && (s.deleted <==> row.NoRows?)
    ensures !error ==> && s.userId == row.value.userId && s.problemId == row.value.taskId
                       && HasStatus(row.value, s.status)
                       && s.compilationMessage
                          == (if row.value.compilationOutcome.Some? && row.value.compilationStderr.Some?
                              then row.value.compilationStderr.value else "")
                       && (s.result.Some? <==> s.status == Scored)
    ensures !error && s.status == Scored ==>
      IsSumOf(s.result.value) && EarnsAsTyped(s.result.value, dataset.value, row.value.groups)
    ensures !error && s.status == Scored ==> forall evals :: rows == Somes(evals) ==>
      SortsTestcases(s.result.value.testcases, ToTestcases(evals))
    ensures !error && s.status == Scored && None in rows ==> exists evals ::
      Somes(evals) + [None] <= rows && s.result.value.testcases == ToTestcases(evals)
  {
    s := Submission(id, 0, 0, Unset, "", None, false);
    if !row.Row? {
      return s.(deleted := row.NoRows?), true;
    }
    var c := row.value;
    s := s.(userId := c.userId, problemId := c.taskId);
    if !dataset.Row? {
      return s, true;
    }
    error := false;
    if c.compilationOutcome.None? {
      return s.(status := Compiling), error;
    }
    s := s.(compilationMessage := if c.compilationStderr.Some? then c.compilationStderr.value else "");
    if c.compilationOutcome.value == "fail" {
      return s.(status := CompilationFailed), error;
    }
    if c.evaluationOutcome.None? {
      return s.(status := Evaluating), error;
    }
    if c.scoreDetails.None? || c.scoreDetails.value == "null" {
      return s.(status := Scoring), error;
    }
    var result := FillResult(dataset.value, c.groups, rows);
    s := s.(status := Scored, result := Some(result));
  }

  // ---------- A task ----------

  datatype Json = Number(value: real) | NotANumber

  /** Score parameters: a number for "Sum", where the cases are counted by a query, else a list of
      lists that start with their points; `None` when parsing or the query fails. */
  datatype Parameters = SumOf(multiplier: Option<real>, cases: Option<nat>) | Groups(params: Option<seq<seq<Json>>>)

  /** The maximum of a "Sum" task. */
  function SumMaximum(multiplier: real, cases: nat): real {
    multiplier * (cases as real)
  }

  datatype MaxOutcome = MaxOk(maxScore: real) | MaxError | MaxPanic

  predicate Readable(p: seq<Json>) {
    |p| > 0 && p[0].Number?
  }

  /** The points that the groups start with. */
  function PointsOf(params: seq<seq<Json>>): seq<real>
    requires forall i :: 0 <= i < |params| ==> Readable(params[i])
  {
    seq(|params|, i requires 0 <= i < |params| => assert Readable(params[i]); params[i][0].value)
  }

  /** The first group that cannot be read is empty. */
  ghost predicate EmptyFirst(params: seq<seq<Json>>) {
    exists i :: 0 <= i < |params| && params[i] == [] && forall j :: 0 <= j < i ==> Readable(params[j])
  }

  /** Multiplier times cases, or the sum of the groups' points when every group starts with a number. */
  ghost predicate IsMaximum(p: Parameters, r: MaxOutcome) {
    match p
    case SumOf(multiplier, cases) =>
      r == if multiplier.Some? && cases.Some? then MaxOk(multiplier.value * (cases.value as real)) else MaxError
    case Groups(None) =>
      r == MaxError
    case Groups(Some(params)) =>
      && (r.MaxOk? <==> forall i :: 0 <= i < |params| ==> Readable(params[i]))
      && (r.MaxOk? ==> AddsUp(PointsOf(params), r.maxScore))
      && (r.MaxPanic? <==> EmptyFirst(params))
  }

  lemma PointsInTurn(params: seq<seq<Json>>, total: real)
    requires (forall i :: 0 <= i < |params| ==> Readable(params[i])) && AddsUp(PointsOf(params), total)
    ensures exists partial: seq<real> ::
      && |partial| == |params| + 1 && partial[0] == 0.0 && partial[|params|] == total
      && forall i :: 0 <= i < |params| ==>
           |params[i]| > 0 && params[i][0].Number? && partial[i + 1] == partial[i] + params[i][0].value
  {
    var points := PointsOf(params);
    var partial: seq<real> :| && |partial| == |points| + 1 && partial[0] == 0.0 && partial[|points|] == total
                              && forall i :: 0 <= i < |points| ==> partial[i + 1] == partial[i] + points[i];
    forall i | 0 <= i < |params|
      ensures |params[i]| > 0 && params[i][0].Number? && partial[i + 1] == partial[i] + params[i][0].value
    {
      assert Readable(params[i]) && points[i] == params[i][0].value;
    }
  }

  /** The maximum score of a task. An empty group is an index out of range, a first entry that is no
      number an error, whichever comes first. */
  method MaxScore(p: Parameters) returns (r: MaxOutcome)
    ensures IsMaximum(p, r)
  {
    if p.SumOf? {
      if p.multiplier.None? || p.cases.None? {
        return MaxError;
      }
      return MaxOk(SumMaximum(p.multiplier.value, p.cases.value));
    }
    if p.params.None? {
      return MaxError;
    }
    var params := p.params.value;
    var maxScore := 0.0;
    for i := 0 to |params|
      invariant forall j :: 0 <= j < i ==> Readable(params[j])
      invariant maxScore == SumSeq(PointsOf(params[..i]))
    {
      assert params[i] in params;
      if |params[i]| == 0 {
        return MaxPanic;
      }
      match params[i][0] {
        case Number(value) =>
          assert PointsOf(params[..i + 1])[..i] == PointsOf(params[..i]);
          maxScore := maxScore + value;
        case NotANumber =>
          return MaxError;
      }
    }
    assert params[..|params|] == params;
    SumAddsUp(PointsOf(params));
    r := MaxOk(maxScore);
  }

  /** The dataset's description: JSON with tags and perhaps a multiplier, or any other text. */
  datatype Description = OtherText | Embedded(tags: seq<string>, multiplier: Option<real>)

  /** Text that is not such JSON counts as 1; JSON without a multiplier counts as 0. */
  function TaskMultiplier(d: Description): real {
    match d
    case OtherText => 1.0
    case Embedded(_, None) => 0.0
    case Embedded(_, Some(m)) => m
  }

  datatype CmsTask = CmsTask(name: string, title: string, description: Description, parameters: Parameters)

  datatype TaskOutcome = TaskRead(task: Task) | TaskError | TaskPanic

  /** A task comes with its maximum and multiplier, or not at all. */
  method GetTask(id: Id, row: Query<CmsTask>, restFault: bool) returns (r: TaskOutcome)
    ensures !row.Row? ==> r == TaskError
    ensures row.Row? ==>
      match row.value.parameters
      case SumOf(multiplier, cases) =>
        && !r.TaskPanic?
        && (r.TaskRead? <==> multiplier.Some? && cases.Some? && !restFault)
        && (r.TaskRead? ==> r.task.maxScore == multiplier.value * (cases.value as real))
      case Groups(None) => r == TaskError
      case Groups(Some(params)) =>
        && (r.TaskPanic? <==> exists i :: 0 <= i < |params| && params[i] == []
                                          && forall j :: 0 <= j < i ==> |params[j]| > 0 && params[j][0].Number?)
        && (r.TaskRead? <==> !restFault && forall i :: 0 <= i < |params| ==> |params[i]| > 0 && params[i][0].Number?)
        && (r.TaskRead? ==> exists partial: seq<real> ::
              && |partial| == |params| + 1 && partial[0] == 0.0 && partial[|params|] == r.task.maxScore
              && forall i :: 0 <= i < |params| ==>
                   |params[i]| > 0 && params[i][0].Number? && partial[i + 1] == partial[i] + params[i][0].value)
    ensures r.TaskRead? ==> r.task.id == id && r.task.name == row.value.name && r.task.title == row.value.title
    ensures r.TaskRead? ==>
      match row.value.description
      case OtherText => r.task.multiplier == 1.0 && r.task.tags == []
      case Embedded(tags, m) => r.task.multiplier == (if m.Some? then m.value else 0.0) && r.task.tags == tags
  {
    if !row.Row? {
      return TaskError;
    }
    var c := row.value;
    var max := MaxScore(c.parameters);
    match max
    case MaxPanic =>
      r := TaskPanic;
    case MaxError =>
      r := TaskError;
    case MaxOk(maxScore) =>
      if c.parameters.Groups? {
        PointsInTurn(c.parameters.params.value, maxScore);
      }
      var tags := if c.description.Embedded? then c.description.tags else [];
      r := if restFault then TaskError
           else TaskRead(Task(id, c.name, c.title, tags, maxScore, TaskMultiplier(c.description)));
  }
}

/** A saved score stays within the task's maximum, although the two are computed apart: one from
    ragged lists of subtask results matched by position, the other from a count of testcases. */
module ScoreBound {
  import opened Bridge
  import opened BestScores
  import opened LedgerTables
  import opened LedgerInvariants
  import opened LedgerInWords
  import opened Scoring

  /** Results of a "Sum" task with `cases` testcases worth `m` points each. */
  ghost predicate SumRow(r: seq<real>, cases: nat, m: real) {
    |r| <= cases && forall i :: 0 <= i < |r| ==> 0.0 <= r[i] <= m
  }

  ghost predicate InUnit(e: Evaluation) {
    e.outcome.Parsed? ==> 0.0 <= e.outcome.value <= 1.0
  }

  /** What the bridge builds from at most one evaluation per testcase, each within [0, 1]. */
  lemma BuiltRowIsSumRow(s: Submission, evals: seq<Evaluation>, cases: nat, m: real)
    requires m >= 0.0 && |evals| <= cases && forall e :: e in evals ==> InUnit(e)
    requires s.result.Some? ==>
      && (s.result.value.subtasks == SumSubtasks(s.result.value.testcases, m) || s.result.value.subtasks == [])
      && multiset(s.result.value.testcases) == multiset(ToTestcases(evals))
    ensures SumRow(SubtaskScores(s), cases, m)
  {
    if s.result.Some? && s.result.value.subtasks != [] {
      var ts := s.result.value.testcases;
      assert |ts| == |multiset(ts)| == |multiset(ToTestcases(evals))| == |evals|;
      forall i | 0 <= i < |ts| ensures 0.0 <= SubtaskScores(s)[i] <= m {
        TestcaseInUnit(ts, evals, i);
        WithinScaled(ts[i].score.score, m);
        assert s.result.value.subtasks[i] == SumSubtask(i, ts[i], m);
      }
    }
  }

  lemma TestcaseInUnit(ts: seq<TestcaseResult>, evals: seq<Evaluation>, i: nat)
    requires multiset(ts) == multiset(ToTestcases(evals)) && i < |ts| && forall e :: e in evals ==> InUnit(e)
    ensures 0.0 <= ts[i].score.score <= 1.0
  {
    assert ts[i] in multiset(ts);
    var j :| 0 <= j < |evals| && ToTestcases(evals)[j] == ts[i];
    assert evals[j] in evals;
  }

  lemma ProductMonotone(x: real, y: real, m: real)
    requires 0.0 <= x <= y && m >= 0.0
    ensures 0.0 <= x * m <= y * m
  {
    assert (y - x) * m >= 0.0;
  }

  lemma WithinScaled(x: real, m: real)
    requires 0.0 <= x <= 1.0 && m >= 0.0
    ensures 0.0 <= Points(x, m) <= m
  {
    ProductMonotone(x, 1.0, m);
  }

  lemma ScaledWithin(base: real, max: real, multiplier: real)
    requires 0.0 <= base <= max && multiplier >= 0.0
    ensures 0.0 <= Scaled(base, multiplier) <= Scaled(max, multiplier)
  {
    ProductMonotone(base, max, multiplier);
  }

  lemma BaseWithinMaximum(rows: set<seq<real>>, cases: nat, m: real)
    requires m >= 0.0 && forall r :: r in rows ==> SumRow(r, cases, m)
    ensures 0.0 <= BaseScore(rows) <= SumMaximum(m, cases)
  {
    BaseWithin(rows, cases, m);
    assert (cases as real) * m == m * (cases as real);
  }

  lemma AttemptSaves(t: Tables, s: Submission)
    requires s.problemId in t.tasks && s.userId in t.users && StoreSubmission(t, s).Some?
    ensures var t' := SubmissionAttempt(t, Fetched(s), NO_FAULTS).0;
            && t'.tasks == t.tasks
            && (s.userId, s.problemId) in t'.taskScores
            && t'.taskScores[(s.userId, s.problemId)].score
               == Scaled(BaseScore(RowsOf(StoreSubmission(t, s).value, s.userId, s.problemId)),
                         t.tasks[s.problemId].multiplier)
  {
  }

  /** The score saved for a submission lies in the bound for its task. */
  ghost predicate SavedWithin(t: Tables, s: Submission, max: real) {
    && (s.userId, s.problemId) in t.taskScores
    && s.problemId in t.tasks
    && 0.0 <= t.taskScores[(s.userId, s.problemId)].score <= Scaled(max, t.tasks[s.problemId].multiplier)
  }

  /** After an attempt that commits, the score lies between 0 and the multiplier times the maximum
      that `MaxScore` gives for the task. */
  lemma SavedScoreWithinMaximum(t: Tables, s: Submission, cases: nat, m: real)
    requires m >= 0.0 && s.problemId in t.tasks && t.tasks[s.problemId].multiplier >= 0.0
    requires s.userId in t.users && StoreSubmission(t, s).Some?
    requires forall r :: r in RowsOf(StoreSubmission(t, s).value, s.userId, s.problemId) ==> SumRow(r, cases, m)
    ensures SavedWithin(SubmissionAttempt(t, Fetched(s), NO_FAULTS).0, s, SumMaximum(m, cases))
  {
    var rows := RowsOf(StoreSubmission(t, s).value, s.userId, s.problemId);
    BaseWithinMaximum(rows, cases, m);
    ScaledWithin(BaseScore(rows), SumMaximum(m, cases), t.tasks[s.problemId].multiplier);
    AttemptSaves(t, s);
  }

  /** The same for the base score of any score row of a reachable state. */
  lemma StoredBaseWithinMaximum(t: Tables, u: Id, k: Id, cases: nat, m: real)
    requires BasesAgree(t) && (u, k) in t.taskScores && m >= 0.0
    requires forall id :: Belongs(t, id, u, k) ==> SumRow(t.submissions[id].subtaskDetails, cases, m)
    ensures 0.0 <= t.taskScores[(u, k)].baseScore <= SumMaximum(m, cases)
  {
    BaseWithinMaximum(RowsOf(t, u, k), cases, m);
  }

  ghost predicate StepWithin(step: LedgerStep, k: Id, cases: nat, m: real) {
    step.Handle? && step.eventType.SubmissionEvent? && step.attempt.submission.Fetched? ==>
      var s := step.attempt.submission.value;
      s.problemId == k ==> SumRow(SubtaskScores(s), cases, m)
  }

  ghost predicate RowsWithin(t: Tables, k: Id, cases: nat, m: real) {
    forall id :: id in t.submissions && t.submissions[id].taskId == k ==>
      SumRow(t.submissions[id].subtaskDetails, cases, m)
  }

  lemma StepKeepsRowsWithin(t: Tables, step: LedgerStep, owner: Owners, k: Id, cases: nat, m: real)
    requires Owned(t, owner) && StepRespects(step, owner) && StepWithin(step, k, cases, m) && RowsWithin(t, k, cases, m)
    ensures RowsWithin(After(t, step), k, cases, m)
  {
    if step.Handle? && step.eventType.SubmissionEvent? && step.attempt.submission.Fetched?
       && StoreSubmission(t, step.attempt.submission.value).Some? {
      var s := step.attempt.submission.value;
      var t1 := StoreSubmission(t, s).value;
      assert t1.submissions[s.id].taskId == s.problemId;
      assert RowsWithin(t1, k, cases, m);
    }
  }

  /** Over whole runs: while a "Sum" task has `cases` testcases worth `m` each, every stored base
      score of the task is between 0 and the task's maximum. */
  lemma {:induction false} BasesWithinOverRuns(steps: seq<LedgerStep>, owner: Owners, k: Id, cases: nat, m: real)
    requires m >= 0.0
    requires forall i :: 0 <= i < |steps| ==> StepRespects(steps[i], owner) && StepWithin(steps[i], k, cases, m)
    ensures RowsWithin(AfterAll(EMPTY, steps), k, cases, m)
    ensures forall u :: (u, k) in AfterAll(EMPTY, steps).taskScores ==>
      0.0 <= AfterAll(EMPTY, steps).taskScores[(u, k)].baseScore <= SumMaximum(m, cases)
  {
    if |steps| > 0 {
      var before := steps[..|steps| - 1];
      BasesWithinOverRuns(before, owner, k, cases, m);
      BasesOverRuns(before, owner);
      StepKeepsRowsWithin(AfterAll(EMPTY, before), steps[|steps| - 1], owner, k, cases, m);
    }
    var t := AfterAll(EMPTY, steps);
    BasesOverRuns(steps, owner);
    forall u | (u, k) in t.taskScores ensures 0.0 <= t.taskScores[(u, k)].baseScore <= SumMaximum(m, cases) {
      StoredBaseWithinMaximum(t, u, k, cases, m);
    }
  }

  // ---------- From evaluations to saved scores ----------

  /** What is read for a "Sum" task with at most one evaluation per testcase, each in [0, 1]. The
      subtasks are missing when the multiplier cannot be read. */
  ghost predicate Evaluated(s: Submission, cases: nat, m: real) {
    s.result.Some? ==>
      && (s.result.value.subtasks == SumSubtasks(s.result.value.testcases, m) || s.result.value.subtasks == [])
      && exists evals :: |evals| <= cases && (forall e :: e in evals ==> InUnit(e))
                         && multiset(s.result.value.testcases) == multiset(ToTestcases(evals))
  }

  lemma AllScanned(rows: seq<Option<Evaluation>>) returns (evals: seq<Evaluation>)
    requires None !in rows
    ensures rows == Somes(evals)
  {
    evals := seq(|rows|, i requires 0 <= i < |rows| => rows[i].value);
    forall i | 0 <= i < |rows| ensures rows[i] == Somes(evals)[i] {
      assert rows[i] in rows;
    }
  }

  /** At most `cases` rows, with outcomes, if any, in [0, 1]. */
  ghost predicate UnitRows(rows: seq<Option<Evaluation>>, cases: nat) {
    |rows| <= cases && forall i :: 0 <= i < |rows| && rows[i].Some? ==> InUnit(rows[i].value)
  }

  lemma PrefixInUnit(rows: seq<Option<Evaluation>>, evals: seq<Evaluation>, cases: nat)
    requires UnitRows(rows, cases) && Somes(evals) <= rows
    ensures |evals| <= cases && forall e :: e in evals ==> InUnit(e)
  {
    forall i | 0 <= i < |evals| ensures InUnit(evals[i]) {
      assert rows[i] == Somes(evals)[i];
    }
  }

  /** `GetSubmission` on such a task reads such a submission. */
  method GetSumSubmission(id: Id, row: Query<CmsSubmission>, multiplier: Option<real>,
                          rows: seq<Option<Evaluation>>, ghost cases: nat, ghost m: real)
    returns (s: Submission, error: bool)
    requires UnitRows(rows, cases) && (multiplier.Some? ==> multiplier.value == m)
    ensures error <==> !row.Row?
    ensures !error ==> s.id == id && !s.deleted
    ensures !error ==> Evaluated(s, cases, m)
  {
    s, error := GetSubmission(id, row, Row(Dataset("Sum", multiplier)), rows);
    if !error && s.status == Scored {
      SumSubtasksEarn(s.result.value.subtasks, s.result.value.testcases, m);
      ghost var evals;
      if None in rows {
        evals :| Somes(evals) + [None] <= rows && s.result.value.testcases == ToTestcases(evals);
        assert Somes(evals) <= rows;
      } else {
        evals := AllScanned(rows);
      }
      PrefixInUnit(rows, evals, cases);
      assert multiset(s.result.value.testcases) == multiset(ToTestcases(evals));
    }
  }

  /** Submissions of the task are read from such evaluations. */
  ghost predicate StepEvaluated(step: LedgerStep, k: Id, cases: nat, m: real) {
    step.Handle? && step.eventType.SubmissionEvent? && step.attempt.submission.Fetched? ==>
      var s := step.attempt.submission.value;
      s.problemId == k ==> Evaluated(s, cases, m)
  }

  lemma EvaluatedRow(s: Submission, cases: nat, m: real)
    requires m >= 0.0 && Evaluated(s, cases, m)
    ensures SumRow(SubtaskScores(s), cases, m)
  {
    if s.result.Some? {
      var evals :| |evals| <= cases && (forall e :: e in evals ==> InUnit(e))
                   && multiset(s.result.value.testcases) == multiset(ToTestcases(evals));
      BuiltRowIsSumRow(s, evals, cases, m);
    }
  }

  lemma EvaluatedIsWithin(step: LedgerStep, k: Id, cases: nat, m: real)
    requires m >= 0.0 && StepEvaluated(step, k, cases, m)
    ensures StepWithin(step, k, cases, m)
  {
    if step.Handle? && step.eventType.SubmissionEvent? && step.attempt.submission.Fetched?
       && step.attempt.submission.value.problemId == k {
      EvaluatedRow(step.attempt.submission.value, cases, m);
    }
  }

  ghost predicate RunEvaluated(steps: seq<LedgerStep>, owner: Owners, k: Id, cases: nat, m: real) {
    forall i :: 0 <= i < |steps| ==> StepRespects(steps[i], owner) && StepEvaluated(steps[i], k, cases, m)
  }

  lemma EvaluatedRunIsWithin(steps: seq<LedgerStep>, owner: Owners, k: Id, cases: nat, m: real)
    requires m >= 0.0 && RunEvaluated(steps, owner, k, cases, m)
    ensures forall i :: 0 <= i < |steps| ==> StepRespects(steps[i], owner) && StepWithin(steps[i], k, cases, m)
  {
    forall i | 0 <= i < |steps| ensures StepWithin(steps[i], k, cases, m) {
      EvaluatedIsWithin(steps[i], k, cases, m);
    }
  }

  lemma StoredRowsWithin(t: Tables, s: Submission, owner: Owners, cases: nat, m: real)
    requires Owned(t, owner) && RowsWithin(t, s.problemId, cases, m) && SumRow(SubtaskScores(s), cases, m)
    requires s.id in owner && owner[s.id] == (s.userId, s.problemId) && !s.deleted && s.userId in t.users
    ensures StoreSubmission(t, s).Some?
    ensures forall r :: r in RowsOf(StoreSubmission(t, s).value, s.userId, s.problemId) ==> SumRow(r, cases, m)
  {
    assert RowsWithin(StoreSubmission(t, s).value, s.problemId, cases, m);
  }

  lemma SavedInSound(t: Tables, s: Submission, owner: Owners, cases: nat, m: real)
    requires m >= 0.0 && Owned(t, owner) && RowsWithin(t, s.problemId, cases, m) && SumRow(SubtaskScores(s), cases, m)
    requires s.id in owner && owner[s.id] == (s.userId, s.problemId) && !s.deleted
    requires s.userId in t.users && s.problemId in t.tasks && t.tasks[s.problemId].multiplier >= 0.0
    ensures SavedWithin(SubmissionAttempt(t, Fetched(s), NO_FAULTS).0, s, SumMaximum(m, cases))
  {
    StoredRowsWithin(t, s, owner, cases, m);
    SavedScoreWithinMaximum(t, s, cases, m);
  }

  /** Whatever has happened before, and however multipliers have changed: a submission event that
      takes effect saves a score between 0 and the task's maximum times its multiplier of now. */
  lemma {:induction false} SavedScoreOverRuns(steps: seq<LedgerStep>, s: Submission, owner: Owners, cases: nat, m: real)
    requires m >= 0.0 && RunEvaluated(steps, owner, s.problemId, cases, m) && Evaluated(s, cases, m)
    requires s.id in owner && owner[s.id] == (s.userId, s.problemId) && !s.deleted
    requires s.userId in AfterAll(EMPTY, steps).users && s.problemId in AfterAll(EMPTY, steps).tasks
    requires AfterAll(EMPTY, steps).tasks[s.problemId].multiplier >= 0.0
    ensures SavedWithin(SubmissionAttempt(AfterAll(EMPTY, steps), Fetched(s), NO_FAULTS).0, s, SumMaximum(m, cases))
  {
    EvaluatedRunIsWithin(steps, owner, s.problemId, cases, m);
    BasesWithinOverRuns(steps, owner, s.problemId, cases, m);
    BasesOverRuns(steps, owner);
    EvaluatedRow(s, cases, m);
    SavedInSound(AfterAll(EMPTY, steps), s, owner, cases, m);
  }

  /** With fixed multipliers every score ever stored for the task keeps to that bound. */
  lemma {:induction false} ScoresWithinOverRuns(steps: seq<LedgerStep>, owner: Owners, mult: Multipliers,
                                                k: Id, cases: nat, m: real)
    requires m >= 0.0 && mult(k) >= 0.0 && RunEvaluated(steps, owner, k, cases, m)
    requires forall i :: 0 <= i < |steps| ==> StepMultiplies(steps[i], mult)
    ensures forall u :: (u, k) in AfterAll(EMPTY, steps).taskScores ==>
      0.0 <= AfterAll(EMPTY, steps).taskScores[(u, k)].score <= Scaled(SumMaximum(m, cases), mult(k))
  {
    var t := AfterAll(EMPTY, steps);
    EvaluatedRunIsWithin(steps, owner, k, cases, m);
    BasesWithinOverRuns(steps, owner, k, cases, m);
    ScoresOverRuns(steps, mult);
    forall u | (u, k) in t.taskScores
      ensures 0.0 <= t.taskScores[(u, k)].score <= Scaled(SumMaximum(m, cases), mult(k))
    {
      ScaledWithin(t.taskScores[(u, k)].baseScore, SumMaximum(m, cases), mult(k));
    }
  }

  // ---------- The first submission ----------

  lemma {:induction false} SumOfProducts(row: seq<real>, outcomes: seq<real>, m: real, total: real)
    requires |row| == |outcomes| && forall i :: 0 <= i < |row| ==> row[i] == outcomes[i] * m
    requires AddsUp(outcomes, total)
    ensures AddsUp(row, total * m)
  {
    var p: seq<real> :| && |p| == |outcomes| + 1 && p[0] == 0.0 && p[|outcomes|] == total
                        && forall i :: 0 <= i < |outcomes| ==> p[i + 1] == p[i] + outcomes[i];
    var q := seq(|p|, i requires 0 <= i < |p| => p[i] * m);
    forall i | 0 <= i < |row| ensures q[i + 1] == q[i] + row[i] {
      assert (p[i] + outcomes[i]) * m == p[i] * m + outcomes[i] * m;
    }
    assert |q| == |row| + 1 && q[0] == 0.0 && q[|row|] == total * m;
  }

  /** A user's first submission to a "Sum" task: its score, and what the user's total grows by, is the
      sum of the outcomes times the points of a testcase times the task's multiplier. */
  lemma FirstSumSubmission(t: Tables, s: Submission, outcomes: seq<real>, m: real, total: real, base: real)
    requires !s.deleted && s.id !in t.submissions && s.userId in t.users && s.problemId in t.tasks
    requires (s.userId, s.problemId) !in t.taskScores && forall id :: !Belongs(t, id, s.userId, s.problemId)
    requires s.result.Some? && EarnsByTestcase(s.result.value.subtasks, s.result.value.testcases, m) && m >= 0.0
    requires |s.result.value.testcases| == |outcomes|
    requires forall i :: 0 <= i < |outcomes| ==> s.result.value.testcases[i].score.score == outcomes[i] >= 0.0
    requires AddsUp(outcomes, total) && base == total * m
    ensures var (t', outcome) := SubmissionAttempt(t, Fetched(s), NO_FAULTS);
            && outcome == Done && s.userId in t'.users
            && t'.users[s.userId] == t.users[s.userId] + base * t.tasks[s.problemId].multiplier
            && (s.userId, s.problemId) in t'.taskScores
            && t'.taskScores[(s.userId, s.problemId)].score == base * t.tasks[s.problemId].multiplier
  {
    var points := Earned(s.result.value.subtasks);
    forall i | 0 <= i < |points| ensures points[i] == outcomes[i] * m && points[i] >= 0.0 {
      ProductMonotone(0.0, outcomes[i], m);
    }
    SumOfProducts(points, outcomes, m, total);
    FirstSubmission(t, s, points, base);
  }
}
