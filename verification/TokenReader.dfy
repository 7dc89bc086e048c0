/** The tokenizer that the generated Java graders read their input with
    (`testdata/tasks/envido/graders/grader.java`). Only the blank separates tokens. */
module TokenReader {
  import opened Bridge
  import opened Strings

  // ---------- Tokens of a line ----------

  function SkipBlanks(s: string, i: nat): (j: nat)
    requires i <= |s|
    ensures i <= j <= |s|
    ensures forall k :: i <= k < j ==> s[k] == ' '
    ensures j < |s| ==> s[j] != ' '
    decreases |s| - i
  {
    if i < |s| && s[i] == ' ' then SkipBlanks(s, i + 1) else i
  }

  function WordEnd(s: string, i: nat): (j: nat)
    requires i <= |s|
    ensures i <= j <= |s|
    ensures forall k :: i <= k < j ==> s[k] != ' '
    ensures j < |s| ==> s[j] == ' '
    decreases |s| - i
  {
    if i < |s| && s[i] != ' ' then WordEnd(s, i + 1) else i
  }

  /** The tokens of a line from position `i` on. */
  function Tokens(s: string, i: nat): seq<string>
    requires i <= |s|
    decreases |s| - i
  {
    var a := SkipBlanks(s, i);
    if a == |s| then []
    else
      var b := WordEnd(s, a);
      [s[a..b]] + Tokens(s, b)
  }

  lemma TokensUnfold(s: string, a: nat)
    requires a < |s| && s[a] != ' '
    ensures Tokens(s, a) == [s[a..WordEnd(s, a)]] + Tokens(s, WordEnd(s, a))
  {
  }

  lemma StepThrough<T>(s: seq<T>, i: nat)
    requires i < |s|
    ensures s[i..][0] == s[i] && s[i..][1..] == s[i + 1..] && s[..i + 1] == s[..i] + [s[i]]
  {
  }

  lemma FirstToken(s: string, a: nat, lines: seq<string>)
    requires a < |s| && s[a] != ' '
    ensures Tokens(s, a) + AllTokens(lines) == [s[a..WordEnd(s, a)]] + (Tokens(s, WordEnd(s, a)) + AllTokens(lines))
  {
    TokensUnfold(s, a);
    Regroup([s[a..WordEnd(s, a)]], Tokens(s, WordEnd(s, a)), AllTokens(lines));
  }

  function AllTokens(lines: seq<string>): seq<string> {
    if |lines| == 0 then [] else Tokens(lines[0], 0) + AllTokens(lines[1..])
  }

  /** The tokens of some lines are those of each line in turn. */
  lemma {:induction false} TokensLineByLine(first: seq<string>, line: string, rest: seq<string>)
    ensures AllTokens(first + [line] + rest) == AllTokens(first) + Tokens(line, 0) + AllTokens(rest)
    decreases |first|
  {
    if |first| == 0 {
      assert (first + [line] + rest)[1..] == rest;
    } else {
      TokensLineByLine(first[1..], line, rest);
      assert (first + [line] + rest)[1..] == first[1..] + [line] + rest;
      Regroup(Tokens(first[0], 0), AllTokens(first[1..]), Tokens(line, 0));
      Regroup(Tokens(first[0], 0), AllTokens(first[1..]) + Tokens(line, 0), AllTokens(rest));
    }
  }

  // ---------- What tokens are, without the recursion ----------

  /** `[a, b)` is a maximal stretch of non-blanks. */
  predicate MaximalRun(s: string, a: int, b: int) {
    && 0 <= a < b <= |s|
    && (forall k :: a <= k < b ==> s[k] != ' ')
    && (a > 0 ==> s[a - 1] == ' ')
    && (b < |s| ==> s[b] == ' ')
  }

  /** The maximal runs at or after `i`, in order, none left out. */
  ghost predicate AreRuns(s: string, i: nat, runs: seq<(int, int)>) {
    && (forall r :: 0 <= r < |runs| ==> i <= runs[r].0 && MaximalRun(s, runs[r].0, runs[r].1))
    && (forall q, r :: 0 <= q < r < |runs| ==> runs[q].1 < runs[r].0)
    && (forall k :: i <= k < |s| && s[k] != ' ' ==> exists r :: 0 <= r < |runs| && runs[r].0 <= k < runs[r].1)
  }

  function Texts(s: string, runs: seq<(int, int)>): seq<string>
    requires forall r :: 0 <= r < |runs| ==> 0 <= runs[r].0 <= runs[r].1 <= |s|
  {
    seq(|runs|, r requires 0 <= r < |runs| => s[runs[r].0..runs[r].1])
  }

  /** From a position that does not split a run, the tokens are the texts of the maximal runs. */
  lemma {:induction false} TokensAreRuns(s: string, i: nat) returns (runs: seq<(int, int)>)
    requires i <= |s| && (0 < i < |s| ==> s[i - 1] == ' ' || s[i] == ' ')
    ensures AreRuns(s, i, runs) && Tokens(s, i) == Texts(s, runs)
    decreases |s| - i
  {
    var a := SkipBlanks(s, i);
    if a == |s| {
      runs := [];
    } else {
      var b := WordEnd(s, a);
      RunFound(s, i);
      var rest := TokensAreRuns(s, b);
      runs := [(a, b)] + rest;
      FirstRun(s, i, a, b, rest);
      TextsOfFirst(s, a, b, rest);
    }
  }

  lemma RunFound(s: string, i: nat)
    requires i <= |s| && (0 < i < |s| ==> s[i - 1] == ' ' || s[i] == ' ') && SkipBlanks(s, i) < |s|
    ensures MaximalRun(s, SkipBlanks(s, i), WordEnd(s, SkipBlanks(s, i)))
  {
  }

  lemma TextsOfFirst(s: string, a: int, b: int, rest: seq<(int, int)>)
    requires 0 <= a <= b <= |s| && forall r :: 0 <= r < |rest| ==> 0 <= rest[r].0 <= rest[r].1 <= |s|
    ensures Texts(s, [(a, b)] + rest) == [s[a..b]] + Texts(s, rest)
  {
  }

  /** A run found after some blanks goes before the runs that follow it. */
  lemma FirstRun(s: string, i: nat, a: nat, b: nat, rest: seq<(int, int)>)
    requires i <= a <= |s| && (forall k :: i <= k < a ==> s[k] == ' ') && MaximalRun(s, a, b) && AreRuns(s, b, rest)
    ensures AreRuns(s, i, [(a, b)] + rest)
  {
    var runs := [(a, b)] + rest;
    forall r | 0 <= r < |rest| ensures b < rest[r].0 {
      assert MaximalRun(s, rest[r].0, rest[r].1);
    }
    forall k | i <= k < |s| && s[k] != ' ' ensures exists r :: 0 <= r < |runs| && runs[r].0 <= k < runs[r].1 {
      if k < b {
        assert runs[0].0 <= k < runs[0].1;
      } else {
        var r :| 0 <= r < |rest| && rest[r].0 <= k < rest[r].1;
        assert runs[r + 1] == rest[r];
      }
    }
  }

  // ---------- The reader ----------

  /** `nextLine` is null once the input has ended. */
  class Grader {
    var nextLine: Option<string>
    var nextIndex: nat
    /** Lines not read yet. */
    var lines: seq<string>

    ghost predicate Valid()
      reads this
    {
      nextLine.Some? ==> nextIndex <= |nextLine.value|
    }

    /** The tokens still to come. */
    ghost function Remaining(): seq<string>
      requires Valid()
      reads this
    {
      if nextLine.None? then [] else Tokens(nextLine.value, nextIndex) + AllTokens(lines)
    }

    constructor (lines: seq<string>)
      ensures Valid() && Remaining() == AllTokens(lines)
    {
      nextLine, nextIndex, this.lines := Some(""), 0, lines;
    }

    /** The first inner loop. */
    method SkipToWord()
      requires Valid() && nextLine.Some?
      modifies this`nextIndex
      ensures nextIndex == SkipBlanks(nextLine.value, old(nextIndex))
      ensures Valid() && Remaining() == old(Remaining())
    {
      var line := nextLine.value;
      while nextIndex < |line| && line[nextIndex] == ' '
        invariant old(nextIndex) <= nextIndex <= |line|
        invariant SkipBlanks(line, nextIndex) == SkipBlanks(line, old(nextIndex))
      {
        nextIndex := nextIndex + 1;
      }
    }

    /** On to the next line once this one is used up; null at the end of the input. */
    method ReadLine()
      requires Valid() && nextLine.Some? && nextIndex == |nextLine.value|
      modifies this
      ensures Valid() && Remaining() == old(Remaining())
      ensures nextLine.None? || |lines| < old(|lines|)
    {
      nextIndex := 0;
      if |lines| == 0 {
        nextLine := None;
      } else {
        nextLine, lines := Some(lines[0]), lines[1..];
      }
    }

    /** The last part: the word that starts at `nextIndex`. */
    method TakeWord() returns (word: string)
      requires Valid() && nextLine.Some? && nextIndex < |nextLine.value| && nextLine.value[nextIndex] != ' '
      modifies this`nextIndex
      ensures Valid() && old(Remaining()) == [word] + Remaining()
    {
      var line := nextLine.value;
      var baseIndex := nextIndex;
      nextIndex := nextIndex + 1;
      while nextIndex < |line| && line[nextIndex] != ' '
        invariant baseIndex < nextIndex <= |line|
        invariant WordEnd(line, nextIndex) == WordEnd(line, baseIndex)
      {
        nextIndex := nextIndex + 1;
      }
      word := line[baseIndex..nextIndex];
      FirstToken(line, baseIndex, lines);
    }

    /** Returns the next token; `None` is the null-pointer exception at the end of the input. */
    method ReadToken() returns (token: Option<string>)
      requires Valid()
      modifies this
      ensures Valid()
      ensures if old(Remaining()) == [] then token == None && Remaining() == []
              else token == Some(old(Remaining())[0]) && Remaining() == old(Remaining())[1..]
    {
      ghost var coming := Remaining();
      while true
        invariant Valid() && Remaining() == coming
        decreases nextLine.Some?, |lines|
      {
        if nextLine.None? {
          return None;
        }
        SkipToWord();
        if nextIndex == |nextLine.value| {
          ReadLine();
        } else {
          break;
        }
      }
      var word := TakeWord();
      token := Some(word);
    }

    /** Successive calls, as `main` makes six of them, return the tokens in order. */
    method ReadTokens(n: nat) returns (tokens: seq<string>)
      requires Valid() && n <= |Remaining()|
      modifies this
      ensures Valid()
      ensures tokens == old(Remaining())[..n] && Remaining() == old(Remaining())[n..]
    {
      tokens := [];
      ghost var coming := Remaining();
      for i := 0 to n
        invariant Valid() && tokens == coming[..i] && Remaining() == coming[i..]
      {
        var t := ReadToken();
        StepThrough(coming, i);
        tokens := tokens + [t.value];
      }
    }
  }
}
