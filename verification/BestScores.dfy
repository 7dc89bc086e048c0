/** The score arithmetic of `recalculateUserScoreForTask` (`oiajudge/pkg/oiajudge/updater.go`):
    the best result of each subtask over a user's submissions, and sums of scores. */
module BestScores {

  /** Adds from the front, as the loops do. */
  function SumSeq(s: seq<real>): real {
    if |s| == 0 then 0.0 else SumSeq(s[..|s| - 1]) + s[|s| - 1]
  }

  /** `total` is reached by adding one element after the other. */
  ghost predicate AddsUp(s: seq<real>, total: real) {
    exists partial: seq<real> ::
      && |partial| == |s| + 1 && partial[0] == 0.0 && partial[|s|] == total
      && forall i :: 0 <= i < |s| ==> partial[i + 1] == partial[i] + s[i]
  }

  lemma {:induction false} SumAddsUp(s: seq<real>)
    ensures AddsUp(s, SumSeq(s))
  {
    if |s| == 0 {
      assert [0.0][0] == 0.0;
    } else {
      var n := |s| - 1;
      SumAddsUp(s[..n]);
      var partial: seq<real> :| && |partial| == n + 1 && partial[0] == 0.0 && partial[n] == SumSeq(s[..n])
                                && forall i :: 0 <= i < n ==> partial[i + 1] == partial[i] + s[..n][i];
      var longer := partial + [SumSeq(s)];
      assert longer[0] == 0.0 && longer[n + 1] == SumSeq(s);
      assert forall i :: 0 <= i < |s| ==> longer[i + 1] == longer[i] + s[i];
    }
  }

  /** There is one total only. */
  lemma {:induction false} TotalIsUnique(s: seq<real>, a: real, b: real)
    requires AddsUp(s, a) && AddsUp(s, b)
    ensures a == b
  {
    var p: seq<real> :| && |p| == |s| + 1 && p[0] == 0.0 && p[|s|] == a
                        && forall i :: 0 <= i < |s| ==> p[i + 1] == p[i] + s[i];
    var q: seq<real> :| && |q| == |s| + 1 && q[0] == 0.0 && q[|s|] == b
                        && forall i :: 0 <= i < |s| ==> q[i + 1] == q[i] + s[i];
    PartialsAgree(s, p, q, |s|);
  }

  lemma {:induction false} PartialsAgree(s: seq<real>, p: seq<real>, q: seq<real>, n: nat)
    requires n <= |s| && |p| == |q| == |s| + 1 && p[0] == q[0]
    requires forall i :: 0 <= i < |s| ==> p[i + 1] == p[i] + s[i] && q[i + 1] == q[i] + s[i]
    ensures p[n] == q[n]
  {
    if n > 0 {
      PartialsAgree(s, p, q, n - 1);
    }
  }

  function Elements<T>(rows: seq<T>): set<T> {
    set r | r in rows
  }

  // ---------- What the per-subtask best is ----------

  /** `m` is the largest entry at position `i` over the rows that reach it, but never below zero. */
  ghost predicate IsFlooredMax(rows: set<seq<real>>, i: nat, m: real) {
    && m >= 0.0
    && (forall r :: r in rows && i < |r| ==> r[i] <= m)
    && (m == 0.0 || exists r :: r in rows && i < |r| && r[i] == m)
  }

  /** Rows may have different lengths; the result is as long as the longest. */
  ghost predicate IsBest(rows: set<seq<real>>, best: seq<real>) {
    && (forall r :: r in rows ==> |r| <= |best|)
    && (|best| > 0 ==> exists r :: r in rows && |r| == |best|)
    && forall i :: 0 <= i < |best| ==> IsFlooredMax(rows, i, best[i])
  }

  lemma BestIsUnique(rows: set<seq<real>>, a: seq<real>, b: seq<real>)
    requires IsBest(rows, a) && IsBest(rows, b)
    ensures a == b
  {
    assert |a| == |b|;
    forall i | 0 <= i < |a| ensures a[i] == b[i] {
      assert IsFlooredMax(rows, i, a[i]) && IsFlooredMax(rows, i, b[i]);
    }
  }

  /** The query has no ORDER BY: whichever order the rows come in, the best is the same. */
  lemma OrderIrrelevant(p: seq<seq<real>>, q: seq<seq<real>>, a: seq<real>, b: seq<real>)
    requires multiset(p) == multiset(q)
    requires IsBest(Elements(p), a) && IsBest(Elements(q), b)
    ensures a == b
  {
    forall r ensures r in p <==> r in q {
      assert r in multiset(p) <==> r in multiset(q);
    }
    assert Elements(p) == Elements(q);
    BestIsUnique(Elements(p), a, b);
  }

  // ---------- The loop ----------

  function Max(a: real, b: real): real {
    if a >= b then a else b
  }

  /** One turn of the loop: pad with zeros up to the row, then take maxima. */
  function Merge(best: seq<real>, row: seq<real>): seq<real> {
    seq(if |best| >= |row| then |best| else |row|, i requires 0 <= i =>
      if i >= |row| then (if i < |best| then best[i] else 0.0)
      else Max(if i < |best| then best[i] else 0.0, row[i]))
  }

  lemma MergeIsBest(rows: set<seq<real>>, best: seq<real>, row: seq<real>)
    requires IsBest(rows, best)
    ensures IsBest(rows + {row}, Merge(best, row))
  {
    var merged := Merge(best, row);
    forall i | 0 <= i < |merged| ensures IsFlooredMax(rows + {row}, i, merged[i]) {
      if i < |best| {
        assert IsFlooredMax(rows, i, best[i]);
        if i < |row| && row[i] > best[i] {
          assert row in rows + {row};
        } else if best[i] != 0.0 {
          var r :| r in rows && i < |r| && r[i] == best[i];
          assert r in rows + {row};
        }
      } else {
        assert row in rows + {row};
      }
    }
    if |row| >= |best| {
      assert row in rows + {row};
    } else {
      var r :| r in rows && |r| == |best|;
      assert r in rows + {row};
    }
  }

  method PerSubtaskBest(scores: seq<seq<real>>) returns (bySubtask: seq<real>)
    ensures IsBest(Elements(scores), bySubtask)
  {
    bySubtask := [];
    for k := 0 to |scores|
      invariant IsBest(Elements(scores[..k]), bySubtask)
    {
      var v := scores[k];
      ghost var before := bySubtask;
      while |bySubtask| < |v|
        invariant |before| <= |bySubtask| && before == bySubtask[..|before|]
        invariant |bySubtask| <= (if |before| >= |v| then |before| else |v|)
        invariant forall i :: |before| <= i < |bySubtask| ==> bySubtask[i] == 0.0
      {
        bySubtask := bySubtask + [0.0];
      }
      for i := 0 to |v|
        invariant |bySubtask| == |Merge(before, v)|
        invariant forall j :: 0 <= j < i ==> bySubtask[j] == Merge(before, v)[j]
        invariant forall j :: i <= j < |bySubtask| ==> bySubtask[j] == if j < |before| then before[j] else 0.0
      {
        bySubtask := bySubtask[i := Max(bySubtask[i], v[i])];
      }
      assert bySubtask == Merge(before, v);
      MergeIsBest(Elements(scores[..k]), before, v);
      assert Elements(scores[..k + 1]) == Elements(scores[..k]) + {v};
    }
    assert scores[..|scores|] == scores;
  }

  method Sum(bySubtask: seq<real>) returns (baseScore: real)
    ensures baseScore == SumSeq(bySubtask)
  {
    baseScore := 0.0;
    for i := 0 to |bySubtask|
      invariant baseScore == SumSeq(bySubtask[..i])
    {
      assert bySubtask[..i + 1][..i] == bySubtask[..i];
      baseScore := baseScore + bySubtask[i];
    }
    assert bySubtask[..|bySubtask|] == bySubtask;
  }

  // ---------- The same as a function of the set of rows ----------

  lemma {:induction false} BestExists(rows: set<seq<real>>)
    ensures exists best :: IsBest(rows, best)
    decreases |rows|
  {
    if rows == {} {
      assert IsBest(rows, []);
    } else {
      var row :| row in rows;
      BestExists(rows - {row});
      var best :| IsBest(rows - {row}, best);
      MergeIsBest(rows - {row}, best, row);
      assert rows - {row} + {row} == rows;
    }
  }

  ghost function Best(rows: set<seq<real>>): (best: seq<real>)
    ensures IsBest(rows, best)
  {
    BestExists(rows);
    var best :| IsBest(rows, best);
    best
  }

  ghost function BaseScore(rows: set<seq<real>>): real {
    SumSeq(Best(rows))
  }

  lemma {:induction false} SumSeqMonotone(a: seq<real>, b: seq<real>)
    requires |a| <= |b|
    requires forall i :: 0 <= i < |a| ==> a[i] <= b[i]
    requires forall i :: |a| <= i < |b| ==> 0.0 <= b[i]
    ensures SumSeq(a) <= SumSeq(b)
    decreases |b|
  {
    if |b| > 0 {
      SumSeqMonotone(if |a| == |b| then a[..|a| - 1] else a, b[..|b| - 1]);
    }
  }

  /** The base score is at least the subtask total of any one submission. */
  lemma BaseAtLeastEach(rows: set<seq<real>>, r: seq<real>)
    requires r in rows
    ensures SumSeq(r) <= BaseScore(rows)
  {
    var best := Best(rows);
    assert forall i :: 0 <= i < |best| ==> IsFlooredMax(rows, i, best[i]);
    SumSeqMonotone(r, best);
  }

  /** When no row is longer than `n` and no entry exceeds `m`, the base score is within `n * m`. */
  lemma BaseWithin(rows: set<seq<real>>, n: nat, m: real)
    requires m >= 0.0
    requires forall r :: r in rows ==> |r| <= n && forall i :: 0 <= i < |r| ==> r[i] <= m
    ensures 0.0 <= BaseScore(rows) <= (n as real) * m
  {
    var best := Best(rows);
    forall i | 0 <= i < |best| ensures 0.0 <= best[i] <= m {
      assert IsFlooredMax(rows, i, best[i]);
    }
    assert |best| <= n;
    SumSeqMonotone([], best);
    SumSeqWithin(best, n, m);
  }

  lemma {:induction false} SumSeqWithin(s: seq<real>, n: nat, m: real)
    requires m >= 0.0 && |s| <= n
    requires forall i :: 0 <= i < |s| ==> s[i] <= m
    ensures SumSeq(s) <= (n as real) * m
    decreases n
  {
    if n > 0 {
      SumSeqWithin(if |s| == n then s[..n - 1] else s, n - 1, m);
      assert (n as real) * m == ((n - 1) as real) * m + m;
    }
  }
}
