/** The subtask patterns that `cms/argentina_loader.py` builds from testcase names. CMS matches a
    pattern from the start of a testcase's name, and it need not match all of it. */
module Patterns {
  import opened Bridge
  import opened Decimal
  import opened Sequences

  // ---------- Regular expressions, as far as the loader uses them ----------

  /** A literal character, `.*`, or a group of literal alternatives. */
  datatype Atom = Char(c: char) | AnyRun | OneOf(alternatives: seq<string>)

  type Pattern = seq<Atom>

  /** The dot does not match a line break. */
  predicate OneLine(s: string) {
    '\n' !in s
  }

  /** Some prefix of `s` matches. */
  ghost predicate Matches(p: Pattern, s: string)
    decreases |p|
  {
    if |p| == 0 then true
    else match p[0]
         case Char(c) => |s| > 0 && s[0] == c && Matches(p[1..], s[1..])
         case AnyRun => exists k :: 0 <= k <= |s| && OneLine(s[..k]) && Matches(p[1..], s[k..])
         case OneOf(alts) => exists a :: a in alts && a <= s && Matches(p[1..], s[|a|..])
  }

  // ---------- The two shapes ----------

  /** `S.*d.*E.*` */
  function NewPattern(d: char): Pattern {
    [Char('S'), AnyRun, Char(d), AnyRun, Char('E'), AnyRun]
  }

  /** `S(a|b|...)E.*` */
  function OldPattern(alts: seq<string>): Pattern {
    [Char('S'), OneOf(alts), Char('E'), AnyRun]
  }

  /** `S(.*)E.*` */
  const ALL_PATTERN: Pattern := [Char('S'), AnyRun, Char('E'), AnyRun]

  lemma MatchesChar(c: char, p: Pattern, s: string)
    ensures Matches([Char(c)] + p, s) <==> |s| > 0 && s[0] == c && Matches(p, s[1..])
  {
    assert ([Char(c)] + p)[1..] == p;
  }

  lemma MatchesCharAt(c: char, p: Pattern, s: string, k: nat)
    requires k <= |s|
    ensures Matches([Char(c)] + p, s[k..]) <==> k < |s| && s[k] == c && Matches(p, s[k + 1..])
  {
    MatchesChar(c, p, s[k..]);
    if k < |s| {
      assert s[k..][1..] == s[k + 1..];
    }
  }

  lemma MatchesRun(p: Pattern, s: string)
    ensures Matches([AnyRun] + p, s) <==> exists k :: 0 <= k <= |s| && OneLine(s[..k]) && Matches(p, s[k..])
  {
    assert ([AnyRun] + p)[1..] == p;
  }

  /** `.*` followed by a character: some occurrence of it is reached without crossing a line break. */
  lemma MatchesRunThen(c: char, p: Pattern, s: string)
    ensures Matches([AnyRun, Char(c)] + p, s)
            <==> exists k :: 0 <= k < |s| && OneLine(s[..k]) && s[k] == c && Matches(p, s[k + 1..])
  {
    var q := [Char(c)] + p;
    MatchesRun(q, s);
    assert [AnyRun, Char(c)] + p == [AnyRun] + q;
    forall k | 0 <= k <= |s| ensures Matches(q, s[k..]) <==> k < |s| && s[k] == c && Matches(p, s[k + 1..]) {
      MatchesCharAt(c, p, s, k);
    }
  }

  lemma RunMatchesAnything(s: string)
    ensures Matches([AnyRun], s)
  {
    assert OneLine(s[..0]) && Matches([AnyRun][1..], s[0..]);
  }

  /** Some E is on the first line. */
  ghost predicate FirstLineE(t: string) {
    exists m :: 0 <= m < |t| && OneLine(t[..m]) && t[m] == 'E'
  }

  /** A run up to an E succeeds when an E is reached without crossing a line break. */
  lemma RunToE(s: string)
    ensures Matches([AnyRun, Char('E'), AnyRun], s) <==> FirstLineE(s)
  {
    assert [AnyRun, Char('E'), AnyRun] == [AnyRun, Char('E')] + [AnyRun];
    MatchesRunThen('E', [AnyRun], s);
    if m :| 0 <= m < |s| && OneLine(s[..m]) && s[m] == 'E' {
      RunMatchesAnything(s[m + 1..]);
    }
  }

  /** Some `d` comes before an E, both on the first line. */
  ghost predicate ThenE(d: char, t: string) {
    exists k, m :: 0 <= k < m < |t| && t[k] == d && t[m] == 'E' && OneLine(t[..m])
  }

  lemma FirstLineBeyond(t: string, k: nat, m: nat)
    requires k < m < |t| && t[k] != '\n'
    ensures OneLine(t[..m]) <==> OneLine(t[..k]) && OneLine(t[k + 1..][..m - k - 1])
  {
    assert t[..m] == t[..k] + [t[k]] + t[k + 1..][..m - k - 1];
  }

  lemma RunToDigitThenE(d: char, t: string)
    requires IsDigit(d)
    ensures Matches([AnyRun, Char(d)] + [AnyRun, Char('E'), AnyRun], t) <==> ThenE(d, t)
  {
    var tail := [AnyRun, Char('E'), AnyRun];
    MatchesRunThen(d, tail, t);
    if k :| 0 <= k < |t| && OneLine(t[..k]) && t[k] == d && Matches(tail, t[k + 1..]) {
      RunToE(t[k + 1..]);
      var m :| 0 <= m < |t[k + 1..]| && OneLine(t[k + 1..][..m]) && t[k + 1..][m] == 'E';
      FirstLineBeyond(t, k, k + 1 + m);
      assert t[k + 1 + m] == 'E';
    }
    if k, m :| 0 <= k < m < |t| && t[k] == d && t[m] == 'E' && OneLine(t[..m]) {
      FirstLineBeyond(t, k, m);
      RunToE(t[k + 1..]);
      assert t[k + 1..][m - k - 1] == 'E';
    }
  }

  /** What a new-format pattern matches, on every name. */
  lemma NewPatternOnAnyName(d: char, b: string)
    requires IsDigit(d)
    ensures Matches(NewPattern(d), b) <==> |b| > 0 && b[0] == 'S' && ThenE(d, b[1..])
  {
    var after := [AnyRun, Char(d)] + [AnyRun, Char('E'), AnyRun];
    assert NewPattern(d) == [Char('S')] + after;
    MatchesChar('S', after, b);
    if |b| > 0 {
      RunToDigitThenE(d, b[1..]);
    }
  }

  lemma MatchesOneOf(alts: seq<string>, p: Pattern, s: string)
    ensures Matches([OneOf(alts)] + p, s) <==> exists a :: a in alts && a <= s && Matches(p, s[|a|..])
  {
    assert ([OneOf(alts)] + p)[1..] == p;
  }

  lemma EThenAnything(t: string, k: nat)
    requires k <= |t|
    ensures Matches([Char('E'), AnyRun], t[k..]) <==> k < |t| && t[k] == 'E'
  {
    assert [Char('E'), AnyRun] == [Char('E')] + [AnyRun];
    MatchesCharAt('E', [AnyRun], t, k);
    if k < |t| {
      RunMatchesAnything(t[k + 1..]);
    }
  }

  /** What an old-format pattern matches, on every name. */
  lemma OldPatternOnAnyName(alts: seq<string>, b: string)
    ensures Matches(OldPattern(alts), b) <==> exists a :: a in alts && "S" + a + "E" <= b
  {
    var tail := [Char('E'), AnyRun];
    assert OldPattern(alts) == [Char('S')] + ([OneOf(alts)] + tail);
    MatchesChar('S', [OneOf(alts)] + tail, b);
    if |b| > 0 && b[0] == 'S' {
      var t := b[1..];
      MatchesOneOf(alts, tail, t);
      forall a ensures a <= t && Matches(tail, t[|a|..]) <==> "S" + a + "E" <= b {
        Literally(a, b);
        if a <= t {
          EThenAnything(t, |a|);
        }
      }
    }
  }

  lemma Literally(a: string, b: string)
    requires |b| > 0 && b[0] == 'S'
    ensures "S" + a + "E" <= b <==> a <= b[1..] && |a| < |b[1..]| && b[1..][|a|] == 'E'
  {
    var s := "S" + a + "E";
    if a <= b[1..] && |a| < |b[1..]| && b[1..][|a|] == 'E' {
      assert b[..|s|] == ['S'] + b[1..][..|a|] + ['E'];
    }
    if s <= b {
      assert forall k :: 0 <= k < |a| ==> b[k + 1] == s[k + 1] == a[k];
      assert b[|a| + 1] == s[|a| + 1];
    }
  }

  /** What the pattern for "all" matches, on every name. */
  lemma AllPatternOnAnyName(b: string)
    ensures Matches(ALL_PATTERN, b) <==> |b| > 0 && b[0] == 'S' && FirstLineE(b[1..])
  {
    assert ALL_PATTERN == [Char('S')] + [AnyRun, Char('E'), AnyRun];
    MatchesChar('S', [AnyRun, Char('E'), AnyRun], b);
    if |b| > 0 {
      RunToE(b[1..]);
    }
  }

  // ---------- The loader ----------

  datatype Dependencies = AllOf | Listed(subtasks: seq<int>)

  /** The parts of `config.json` that matter here, with integer keys. Score parameters that are given
      there are taken as they are. */
  datatype Config = Config(given: Option<string>, scores: Option<map<int, real>>, dependencies: map<int, Dependencies>)

  /** One entry of the score parameters, with the subtask it was made for. */
  datatype Parameter = Parameter(subtask: int, points: real, pattern: Pattern)

  /** The parameters, or the Python exception that ends the import. */
  datatype LoadResult = Given(text: string) | Loaded(parameters: seq<Parameter>) | AttributeError | KeyError

  /** `re.match('S0[1-9]E.*', name)` */
  predicate OldStyle(b: string) {
    |b| >= 4 && b[0] == 'S' && b[1] == '0' && '1' <= b[2] <= '9' && b[3] == 'E'
  }

  const ONE_TO_NINE := ["1", "2", "3", "4", "5", "6", "7", "8", "9"]

  /** `S0(1|2|...|9)E.*` */
  const OLD_STYLE: Pattern := [Char('S'), Char('0'), OneOf(ONE_TO_NINE), Char('E'), AnyRun]

  lemma OneToNine(s: string)
    ensures (exists a :: a in ONE_TO_NINE && a <= s) <==> |s| > 0 && '1' <= s[0] <= '9'
    ensures forall a :: a in ONE_TO_NINE ==> |a| == 1
  {
    if |s| > 0 && '1' <= s[0] <= '9' {
      var v := s[0] as int - '1' as int;
      assert ONE_TO_NINE[v][0] == s[0];
      assert ONE_TO_NINE[v] in ONE_TO_NINE && ONE_TO_NINE[v] <= s;
    }
  }

  /** The test for the old format is that match. */
  lemma OldStyleIff(b: string)
    ensures OldStyle(b) <==> Matches(OLD_STYLE, b)
  {
    var tail := [Char('E'), AnyRun];
    var digit := [OneOf(ONE_TO_NINE)] + tail;
    assert OLD_STYLE == [Char('S')] + ([Char('0')] + digit);
    MatchesChar('S', [Char('0')] + digit, b);
    if |b| > 0 {
      MatchesChar('0', digit, b[1..]);
      if |b| > 1 {
        var t := b[2..];
        assert b[1..][1..] == t;
        MatchesOneOf(ONE_TO_NINE, tail, t);
        OneToNine(t);
        forall a | a in ONE_TO_NINE && a <= t ensures Matches(tail, t[|a|..]) <==> |t| > 1 && t[1] == 'E' {
          EThenAnything(t, 1);
        }
      }
    }
  }

  lemma OldStyleAmongIff(inputs: seq<string>)
    ensures (exists b :: b in inputs && OldStyle(b)) <==> exists b :: b in inputs && Matches(OLD_STYLE, b)
  {
    forall b ensures OldStyle(b) <==> Matches(OLD_STYLE, b) {
      OldStyleIff(b);
    }
  }

  function DigitsEnd(b: string, i: nat): (j: nat)
    requires i <= |b|
    ensures i <= j <= |b|
    ensures AllDigits(b[i..j])
    ensures j < |b| ==> !IsDigit(b[j])
    decreases |b| - i
  {
    if i == |b| || !IsDigit(b[i]) then i
    else
      var j := DigitsEnd(b, i + 1);
      assert b[i..j] == [b[i]] + b[i + 1..j];
      j
  }

  /** A match of `S([0-9]+)E` starts here. */
  predicate SubtaskHere(b: string, i: nat)
    requires i <= |b|
  {
    && i < |b| && b[i] == 'S'
    && var j := DigitsEnd(b, i + 1); i + 1 < j < |b| && b[j] == 'E'
  }

  /** Where the first match starts; the end when there is none. */
  function SubtaskAt(b: string, i: nat): (r: nat)
    requires i <= |b|
    ensures i <= r <= |b|
    ensures r < |b| ==> SubtaskHere(b, r)
    ensures forall k :: i <= k < r ==> !SubtaskHere(b, k)
    decreases |b| - i
  {
    if i == |b| || SubtaskHere(b, i) then i else SubtaskAt(b, i + 1)
  }

  /** `re.search('S([0-9]+)E', name).group(1)` */
  function FindSubtask(b: string): (r: Option<string>)
    ensures r.Some? ==> |r.value| >= 1 && AllDigits(r.value)
  {
    var i := SubtaskAt(b, 0);
    if i == |b| then None else Some(b[i + 1..DigitsEnd(b, i + 1)])
  }

  lemma {:induction false} DigitsEndIs(b: string, i: nat, e: nat)
    requires i <= e <= |b| && (forall k :: i <= k < e ==> IsDigit(b[k])) && (e < |b| ==> !IsDigit(b[e]))
    ensures DigitsEnd(b, i) == e
    decreases e - i
  {
    if i < e {
      DigitsEndIs(b, i + 1, e);
    }
  }

  /** A testcase name in its parts: what comes before the match, the digits, and what comes after. */
  predicate Parts(b: string, prefix: string, digits: string, rest: string) {
    && b == prefix + "S" + digits + "E" + rest
    && |digits| >= 1 && AllDigits(digits)
    && SubtaskAt(b, 0) == |prefix|
  }

  lemma PartsHere(b: string, prefix: string, digits: string, rest: string)
    requires b == prefix + "S" + digits + "E" + rest && |digits| >= 1 && AllDigits(digits)
    ensures SubtaskHere(b, |prefix|) && b[|prefix| + 1..DigitsEnd(b, |prefix| + 1)] == digits
  {
    var i, e := |prefix|, |prefix| + 1 + |digits|;
    assert forall k :: i + 1 <= k < e ==> b[k] == digits[k - i - 1] && IsDigit(digits[k - i - 1]);
    assert b[i] == 'S' && b[e] == 'E';
    DigitsEndIs(b, i + 1, e);
    assert b[i + 1..e] == digits;
  }

  lemma FindInParts(b: string, prefix: string, digits: string, rest: string)
    requires Parts(b, prefix, digits, rest)
    ensures FindSubtask(b) == Some(digits)
  {
    PartsHere(b, prefix, digits, rest);
  }

  /** The names the loader accepts are those that have such parts. */
  lemma HasPartsIff(b: string)
    ensures FindSubtask(b).Some? <==> exists prefix, digits, rest :: Parts(b, prefix, digits, rest)
  {
    var i := SubtaskAt(b, 0);
    if i < |b| {
      var j := DigitsEnd(b, i + 1);
      assert b == b[..i] + "S" + b[i + 1..j] + "E" + b[j + 1..];
      assert Parts(b, b[..i], b[i + 1..j], b[j + 1..]);
    }
  }

  lemma PartsFromStart(b: string, digits: string, rest: string)
    requires b == "S" + digits + "E" + rest && |digits| >= 1 && AllDigits(digits)
    ensures Parts(b, "", digits, rest)
  {
    assert b == "" + "S" + digits + "E" + rest;
    PartsHere(b, "", digits, rest);
  }

  /** A Python dict: keys in insertion order, and the spelling last stored under each. */
  datatype Subtasks = Subtasks(order: seq<int>, spelling: map<int, string>)

  function Put(d: Subtasks, n: int, s: string): Subtasks {
    Subtasks(if n in d.spelling then d.order else d.order + [n], d.spelling[n := s])
  }

  /** The digits found in a name, or nothing. */
  function DigitsOf(b: string): (digits: string)
    ensures AllDigits(digits)
  {
    var r := FindSubtask(b);
    if r.Some? then r.value else ""
  }

  /** The subtasks a name contributes: each digit in the new format, the whole number in the old. */
  predicate Names(isNew: bool, b: string, n: int) {
    if isNew then 0 <= n < 10 && DigitChar(n) in DigitsOf(b) else NatValue(DigitsOf(b)) == n
  }

  ghost predicate Named(isNew: bool, names: seq<string>, n: int) {
    exists b :: b in names && Names(isNew, b, n)
  }

  /** What the dict holds after reading some names. */
  ghost predicate Collected(d: Subtasks, isNew: bool, names: seq<string>) {
    && NoRepeats(d.order) && (forall n :: n in d.order <==> n in d.spelling)
    && (forall n :: n in d.spelling <==> Named(isNew, names, n))
    && (forall n :: n in d.spelling ==>
          if isNew then 0 <= n < 10 && d.spelling[n] == [DigitChar(n)]
          else exists b :: b in names && d.spelling[n] == DigitsOf(b) && NatValue(DigitsOf(b)) == n)
  }

  lemma CollectOld(d: Subtasks, names: seq<string>, b: string)
    requires Collected(d, false, names)
    ensures Collected(Put(d, NatValue(DigitsOf(b)), DigitsOf(b)), false, names + [b])
  {
    var m := NatValue(DigitsOf(b));
    var d' := Put(d, m, DigitsOf(b));
    assert b in names + [b] && Names(false, b, m);
    forall n ensures n in d'.spelling <==> Named(false, names + [b], n) {
      if n in d.spelling {
        var c :| c in names && Names(false, c, n);
        assert c in names + [b];
      }
    }
    forall n | n in d'.spelling
      ensures exists c :: c in names + [b] && d'.spelling[n] == DigitsOf(c) && NatValue(DigitsOf(c)) == n
    {
      if n != m {
        var c :| c in names && d.spelling[n] == DigitsOf(c) && NatValue(DigitsOf(c)) == n;
        assert c in names + [b];
      }
    }
  }

  /** The new format while a name is being read: `done` of its digits have been stored. */
  ghost predicate CollectedPart(d: Subtasks, names: seq<string>, done: string) {
    && NoRepeats(d.order) && (forall n :: n in d.order <==> n in d.spelling)
    && (forall n :: n in d.spelling <==> Named(true, names, n) || (0 <= n < 10 && DigitChar(n) in done))
    && (forall n :: n in d.spelling ==> 0 <= n < 10 && d.spelling[n] == [DigitChar(n)])
  }

  lemma CollectDigit(d: Subtasks, names: seq<string>, done: string, c: char)
    requires CollectedPart(d, names, done) && IsDigit(c)
    ensures CollectedPart(Put(d, DigitValue(c), [c]), names, done + [c])
  {
    assert DigitChar(DigitValue(c)) == c;
    forall n | 0 <= n < 10 ensures DigitChar(n) == c <==> n == DigitValue(c) {
    }
  }

  lemma CollectName(d: Subtasks, names: seq<string>, b: string)
    ensures CollectedPart(d, names, DigitsOf(b)) ==> Collected(d, true, names + [b])
    ensures Collected(d, true, names) ==> CollectedPart(d, names, "")
  {
    forall n ensures Named(true, names + [b], n) <==> Named(true, names, n) || Names(true, b, n) {
      if Named(true, names, n) {
        var c :| c in names && Names(true, c, n);
        assert c in names + [b];
      }
      assert b in names + [b];
    }
  }

  /** The new format stores every digit of a name. */
  method PutDigits(d: Subtasks, digits: string, ghost names: seq<string>) returns (after: Subtasks)
    requires AllDigits(digits) && CollectedPart(d, names, "")
    ensures CollectedPart(after, names, digits)
  {
    after := d;
    for j := 0 to |digits|
      invariant CollectedPart(after, names, digits[..j])
    {
      CollectDigit(after, names, digits[..j], digits[j]);
      assert digits[..j + 1] == digits[..j] + [digits[j]];
      after := Put(after, DigitValue(digits[j]), [digits[j]]);
    }
    assert digits[..|digits|] == digits;
  }

  /** What one name adds to the dict. */
  method PutName(d: Subtasks, digits: string, isNew: bool, ghost names: seq<string>, ghost b: string)
    returns (after: Subtasks)
    requires Collected(d, isNew, names) && FindSubtask(b) == Some(digits)
    ensures Collected(after, isNew, names + [b])
  {
    if !isNew {
      CollectOld(d, names, b);
      after := Put(d, NatValue(digits), digits);
    } else {
      CollectName(d, names, b);
      after := PutDigits(d, digits, names);
      CollectName(after, names, b);
    }
  }

  /** Reads the names in whatever order a Python set yields them. A name without a subtask raises. */
  method FindSubtasks(inputs: seq<string>, isNew: bool) returns (r: Option<Subtasks>)
    ensures r.None? <==> exists b :: b in inputs && FindSubtask(b).None?
    ensures r.Some? ==> Collected(r.value, isNew, inputs)
  {
    var d := Subtasks([], map[]);
    for i := 0 to |inputs|
      invariant Collected(d, isNew, inputs[..i])
      invariant forall b :: b in inputs[..i] ==> FindSubtask(b).Some?
    {
      var b := inputs[i];
      assert inputs[..i + 1] == inputs[..i] + [b];
      var found := FindSubtask(b);
      if found.None? {
        assert b in inputs;
        return None;
      }
      d := PutName(d, found.value, isNew, inputs[..i], b);
    }
    assert inputs[..|inputs|] == inputs;
    r := Some(d);
  }

  // ---------- Patterns of the collected subtasks ----------

  function Spelled(d: Subtasks, subtasks: seq<int>): seq<string>
    requires forall i :: 0 <= i < |subtasks| ==> subtasks[i] in d.spelling
  {
    seq(|subtasks|, i requires 0 <= i < |subtasks| => d.spelling[subtasks[i]])
  }

  predicate Resolvable(d: Subtasks, deps: map<int, Dependencies>, n: int) {
    n in deps && deps[n].Listed? ==> forall i :: 0 <= i < |deps[n].subtasks| ==> deps[n].subtasks[i] in d.spelling
  }

  function PatternFor(d: Subtasks, isNew: bool, deps: map<int, Dependencies>, n: int): Pattern
    requires n in d.spelling && (isNew ==> |d.spelling[n]| == 1) && (!isNew ==> Resolvable(d, deps, n))
  {
    if isNew then NewPattern(d.spelling[n][0])
    else if n !in deps then OldPattern([d.spelling[n]])
    else match deps[n]
         case AllOf => ALL_PATTERN
         case Listed(subtasks) => OldPattern([d.spelling[n]] + Spelled(d, subtasks))
  }

  /** A subtask without a score, or depending on one that no testcase has. */
  predicate Unusable(d: Subtasks, isNew: bool, config: Config, n: int) {
    config.scores.Some? && (n !in config.scores.value || (!isNew && !Resolvable(d, config.dependencies, n)))
  }

  /** New format as long as no name is in the old one. */
  method DetectFormat(inputs: seq<string>) returns (isNew: bool)
    ensures !isNew <==> exists b :: b in inputs && Matches(OLD_STYLE, b)
    ensures !isNew <==> exists b :: b in inputs && |b| >= 4
                                    && b[0] == 'S' && b[1] == '0' && b[2] in "123456789" && b[3] == 'E'
  {
    isNew := true;
    for i := 0 to |inputs|
      invariant !isNew <==> exists b :: b in inputs[..i] && OldStyle(b)
    {
      assert inputs[..i + 1] == inputs[..i] + [inputs[i]];
      if OldStyle(inputs[i]) {
        isNew := false;
      }
    }
    assert inputs[..|inputs|] == inputs;
    OldStyleAmongIff(inputs);
    assert forall b :: OldStyle(b) <==> |b| >= 4 && b[0] == 'S' && b[1] == '0' && b[2] in "123456789" && b[3] == 'E';
  }

  /** The old format's alternatives: the subtask itself and those it depends on. */
  method OldPatternOf(d: Subtasks, deps: map<int, Dependencies>, n: int) returns (pattern: Option<Pattern>)
    requires n in d.spelling
    ensures pattern == if Resolvable(d, deps, n) then Some(PatternFor(d, false, deps, n)) else None
  {
    var ors := [d.spelling[n]];
    if n !in deps {
      return Some(OldPattern(ors));
    }
    if deps[n].AllOf? {
      return Some(ALL_PATTERN);
    }
    var listed := deps[n].subtasks;
    for k := 0 to |listed|
      invariant forall i :: 0 <= i < k ==> listed[i] in d.spelling
      invariant ors == [d.spelling[n]] + Spelled(d, listed[..k])
    {
      if listed[k] !in d.spelling {
        return None;
      }
      assert Spelled(d, listed[..k + 1]) == Spelled(d, listed[..k]) + [d.spelling[listed[k]]];
      ors := ors + [d.spelling[listed[k]]];
    }
    assert listed[..|listed|] == listed;
    pattern := Some(OldPattern(ors));
  }

  /** The parameter made for one subtask is the intended one. */
  ghost predicate IsParameter(p: Parameter, d: Subtasks, isNew: bool, config: Config, n: int) {
    && n in d.spelling && config.scores.Some? && n in config.scores.value
    && (isNew ==> |d.spelling[n]| == 1)
    && (!isNew ==> Resolvable(d, config.dependencies, n))
    && p == Parameter(n, config.scores.value[n], PatternFor(d, isNew, config.dependencies, n))
  }

  /** One parameter for each subtask, in the order of the dict. */
  ghost predicate AreParameters(ps: seq<Parameter>, d: Subtasks, isNew: bool, config: Config) {
    |ps| == |d.order| && forall j :: 0 <= j < |ps| ==> IsParameter(ps[j], d, isNew, config, d.order[j])
  }

  method BuildParameters(d: Subtasks, isNew: bool, config: Config) returns (r: LoadResult)
    requires forall n :: n in d.order ==> n in d.spelling && (isNew ==> |d.spelling[n]| == 1)
    ensures r.Loaded? || r.KeyError?
    ensures r.KeyError? <==> config.scores.None? || exists n :: n in d.order && Unusable(d, isNew, config, n)
    ensures r.Loaded? ==> AreParameters(r.parameters, d, isNew, config)
  {
    if config.scores.None? {
      return KeyError;
    }
    var scores := config.scores.value;
    var parameters: seq<Parameter> := [];
    for j := 0 to |d.order|
      invariant |parameters| == j
      invariant forall k :: 0 <= k < j ==> IsParameter(parameters[k], d, isNew, config, d.order[k])
    {
      var n := d.order[j];
      assert n in d.order;
      var pattern;
      if isNew {
        pattern := Some(NewPattern(d.spelling[n][0]));
      } else {
        pattern := OldPatternOf(d, config.dependencies, n);
      }
      if pattern.None? || n !in scores {
        assert Unusable(d, isNew, config, n);
        return KeyError;
      }
      parameters := parameters + [Parameter(n, scores[n], pattern.value)];
    }
    forall n | n in d.order ensures !Unusable(d, isNew, config, n) {
      var j :| 0 <= j < |d.order| && d.order[j] == n;
      assert IsParameter(parameters[j], d, isNew, config, d.order[j]);
    }
    r := Loaded(parameters);
  }

  /** No score for the subtask or, in the old format, a dependency that no name has. */
  ghost predicate Refused(isNew: bool, inputs: seq<string>, config: Config, n: int)
    requires config.scores.Some?
  {
    || n !in config.scores.value
    || (!isNew && n in config.dependencies && config.dependencies[n].Listed?
        && exists m :: m in config.dependencies[n].subtasks && !Named(false, inputs, m))
  }

  /** Why the parameters cannot be built, told by the names. */
  ghost predicate SomeRefused(isNew: bool, inputs: seq<string>, config: Config) {
    config.scores.None? || exists n :: Named(isNew, inputs, n) && Refused(isNew, inputs, config, n)
  }

  lemma RefusedIff(d: Subtasks, isNew: bool, inputs: seq<string>, config: Config)
    requires Collected(d, isNew, inputs)
    ensures config.scores.None? || (exists n :: n in d.order && Unusable(d, isNew, config, n))
            <==> SomeRefused(isNew, inputs, config)
  {
    if config.scores.Some? {
      forall n | n in d.spelling ensures Unusable(d, isNew, config, n) <==> Refused(isNew, inputs, config, n) {
        UnusableIff(d, isNew, inputs, config, n);
      }
      assert forall n :: n in d.order <==> Named(isNew, inputs, n);
    }
  }

  lemma UnusableIff(d: Subtasks, isNew: bool, inputs: seq<string>, config: Config, n: int)
    requires Collected(d, isNew, inputs) && n in d.spelling && config.scores.Some?
    ensures Unusable(d, isNew, config, n) <==> Refused(isNew, inputs, config, n)
  {
    if !isNew && n in config.dependencies && config.dependencies[n].Listed? {
      AllNamedIff(d, inputs, config.dependencies[n].subtasks);
    }
  }

  lemma AllNamedIff(d: Subtasks, inputs: seq<string>, listed: seq<int>)
    requires Collected(d, false, inputs)
    ensures (forall i :: 0 <= i < |listed| ==> listed[i] in d.spelling)
            <==> !exists m :: m in listed && !Named(false, inputs, m)
  {
    if forall i :: 0 <= i < |listed| ==> listed[i] in d.spelling {
      forall m | m in listed ensures Named(false, inputs, m) {
        assert m in d.spelling;
      }
    } else {
      var i :| 0 <= i < |listed| && listed[i] !in d.spelling;
      assert listed[i] in listed && !Named(false, inputs, listed[i]);
    }
  }

  /** One parameter for each named subtask, with its score. */
  ghost predicate ScoresOfNamed(ps: seq<Parameter>, isNew: bool, inputs: seq<string>, scores: map<int, real>) {
    && (forall n :: Named(isNew, inputs, n) <==> exists j :: 0 <= j < |ps| && ps[j].subtask == n)
    && (forall i, j :: 0 <= i < j < |ps| ==> ps[i].subtask != ps[j].subtask)
    && forall j :: 0 <= j < |ps| ==> ps[j].subtask in scores && ps[j].points == scores[ps[j].subtask]
  }

  lemma ParametersInWords(ps: seq<Parameter>, d: Subtasks, isNew: bool, inputs: seq<string>, config: Config)
    requires AreParameters(ps, d, isNew, config) && Collected(d, isNew, inputs) && config.scores.Some?
    ensures ScoresOfNamed(ps, isNew, inputs, config.scores.value)
  {
    forall j | 0 <= j < |ps| ensures ps[j].subtask == d.order[j] && ps[j].subtask in config.scores.value
                                     && ps[j].points == config.scores.value[d.order[j]]
    {
      assert IsParameter(ps[j], d, isNew, config, d.order[j]);
    }
    forall n ensures Named(isNew, inputs, n) <==> exists j :: 0 <= j < |ps| && ps[j].subtask == n {
      if n in d.order {
        var j :| 0 <= j < |d.order| && d.order[j] == n;
        assert ps[j].subtask == n;
      }
    }
  }

  /** The loader's parameters from the names and the configuration. Given parameters win before any
      name is looked at for its subtask. */
  method ScoreParameters(inputs: seq<string>, config: Config) returns (r: LoadResult, isNew: bool, ghost d: Subtasks)
    ensures !isNew <==> exists b :: b in inputs && Matches(OLD_STYLE, b)
    ensures r.Given? <==> config.given.Some?
    ensures r.Given? ==> r.text == config.given.value
    ensures r.AttributeError? <==> config.given.None? && exists b :: b in inputs && FindSubtask(b).None?
    ensures !r.Given? && !r.AttributeError? ==> Collected(d, isNew, inputs)
    ensures !r.Given? && !r.AttributeError? ==>
      (r.KeyError? <==> config.scores.None? || exists n :: n in d.order && Unusable(d, isNew, config, n))
    ensures !r.Given? && !r.AttributeError? ==>
      (r.KeyError? <==> SomeRefused(isNew, inputs, config))
    ensures r.Loaded? ==> AreParameters(r.parameters, d, isNew, config)
    ensures r.Loaded? ==> config.scores.Some? && ScoresOfNamed(r.parameters, isNew, inputs, config.scores.value)
  {
    isNew := DetectFormat(inputs);
    d := Subtasks([], map[]);
    if config.given.Some? {
      return Given(config.given.value), isNew, d;
    }
    var found := FindSubtasks(inputs, isNew);
    if found.None? {
      return AttributeError, isNew, d;
    }
    d := found.value;
    r := BuildParameters(found.value, isNew, config);
    RefusedIff(d, isNew, inputs, config);
    if r.Loaded? {
      ParametersInWords(r.parameters, d, isNew, inputs, config);
    }
  }

  // ---------- What the patterns match, by the parts of a name ----------

  lemma ThenEInName(d: char, digits: string, rest: string)
    requires AllDigits(digits) && IsDigit(d)
    ensures ThenE(d, digits + "E" + rest) <==> d in digits || ThenE(d, rest)
  {
    var n, t := |digits| + 1, digits + "E" + rest;
    assert forall i :: 0 <= i < |digits| ==> IsDigit(digits[i]);
    if d in digits {
      var k :| 0 <= k < |digits| && digits[k] == d;
      assert t[k] == d && t[|digits|] == 'E' && t[..|digits|] == digits;
    }
    if k, m :| 0 <= k < m < |rest| && rest[k] == d && rest[m] == 'E' && OneLine(rest[..m]) {
      assert t[n + k] == d && t[n + m] == 'E' && t[..n + m] == digits + "E" + rest[..m];
    }
    if k, m :| n <= k < m < |t| && t[k] == d && t[m] == 'E' && OneLine(t[..m]) {
      assert rest[k - n] == d && rest[m - n] == 'E' && rest[..m - n] == t[..m][n..];
    }
  }

  /** The parts of a name up to its E. */
  lemma FirstLineUpToE(p: string, digits: string, rest: string, n: nat)
    requires AllDigits(digits) && n == |p| + 1 + |digits|
    ensures var t := p + "S" + digits + "E" + rest;
            n < |t| && t[n] == 'E' && (OneLine(t[..n]) <==> OneLine(p))
  {
    var t := p + "S" + digits + "E" + rest;
    assert t[..n] == p + "S" + digits && t[n] == 'E';
    assert forall i :: 0 <= i < |digits| ==> IsDigit(digits[i]);
  }

  /** A first line that ends within `p` does not go beyond it. */
  lemma FirstLineWithin(p: string, t: string, m: nat)
    requires p <= t && m < |t| && !OneLine(p)
    ensures OneLine(t[..m]) ==> m < |p|
    ensures m < |p| ==> t[..m] == p[..m]
  {
    var q :| 0 <= q < |p| && p[q] == '\n';
    if q < m {
      assert t[..m][q] == '\n';
    }
  }

  lemma FirstLineEIff(p: string, digits: string, rest: string)
    requires AllDigits(digits)
    ensures FirstLineE(p + "S" + digits + "E" + rest) <==> OneLine(p) || FirstLineE(p)
  {
    var t := p + "S" + digits + "E" + rest;
    assert p <= t;
    FirstLineUpToE(p, digits, rest, |p| + 1 + |digits|);
    if m :| 0 <= m < |p| && OneLine(p[..m]) && p[m] == 'E' {
      assert t[..m] == p[..m] && t[m] == 'E';
    }
    if !OneLine(p) {
      if m :| 0 <= m < |t| && OneLine(t[..m]) && t[m] == 'E' {
        FirstLineWithin(p, t, m);
        assert p[m] == 'E';
      }
    }
  }

  lemma ThenEIff(d: char, p: string, digits: string, rest: string)
    requires AllDigits(digits) && d in digits
    ensures ThenE(d, p + "S" + digits + "E" + rest) <==> OneLine(p) || ThenE(d, p)
  {
    var t := p + "S" + digits + "E" + rest;
    assert p <= t;
    FirstLineUpToE(p, digits, rest, |p| + 1 + |digits|);
    if OneLine(p) {
      var k :| 0 <= k < |digits| && digits[k] == d;
      assert t[|p| + 1 + k] == d;
    } else {
      if k, m :| 0 <= k < m < |t| && t[k] == d && t[m] == 'E' && OneLine(t[..m]) {
        FirstLineWithin(p, t, m);
        assert p[k] == d && p[m] == 'E';
      }
    }
    if k, m :| 0 <= k < m < |p| && p[k] == d && p[m] == 'E' && OneLine(p[..m]) {
      assert t[..m] == p[..m] && t[k] == d && t[m] == 'E';
    }
  }

  /** The pattern's S and dots get from the start of the name to the match. */
  predicate Reached(prefix: string) {
    prefix == "" || (prefix[0] == 'S' && OneLine(prefix))
  }

  /** The digit and then an E where they are not meant: after the match or, when the match is not at
      the start, anywhere behind an initial S. */
  ghost predicate Stray(d: char, b: string, prefix: string, rest: string) {
    if prefix == "" then ThenE(d, rest) else prefix[0] == 'S' && |b| > 0 && ThenE(d, b[1..])
  }

  lemma BehindS(b: string, digits: string, rest: string)
    requires b == "" + "S" + digits + "E" + rest
    ensures b[0] == 'S' && b[1..] == digits + "E" + rest
  {
    assert b == ['S'] + (digits + "E" + rest);
  }

  /** What a new-format pattern matches, by the parts of a name. */
  lemma NewPatternIff(d: char, b: string, prefix: string, digits: string, rest: string)
    requires Parts(b, prefix, digits, rest) && IsDigit(d)
    ensures Matches(NewPattern(d), b) <==> (prefix == "" && d in digits) || Stray(d, b, prefix, rest)
  {
    NewPatternOnAnyName(d, b);
    if prefix == "" {
      BehindS(b, digits, rest);
      ThenEInName(d, digits, rest);
    } else {
      assert b[0] == prefix[0];
    }
  }

  lemma BehindFirst(b: string, prefix: string, digits: string, rest: string)
    requires b == prefix + "S" + digits + "E" + rest && |prefix| > 0
    ensures b[0] == prefix[0] && b[1..] == prefix[1..] + "S" + digits + "E" + rest
    ensures prefix[0] == 'S' ==> (OneLine(prefix) <==> OneLine(prefix[1..]))
  {
    assert prefix == [prefix[0]] + prefix[1..];
  }

  /** A new-format pattern finds a name whose digits hold its digit exactly when it reaches them, or
      the digit and an E before. */
  lemma NewPatternFindsIff(d: char, b: string, prefix: string, digits: string, rest: string)
    requires Parts(b, prefix, digits, rest) && IsDigit(d) && d in digits
    ensures Matches(NewPattern(d), b)
            <==> Reached(prefix) || (prefix != "" && prefix[0] == 'S' && ThenE(d, prefix[1..]))
  {
    NewPatternIff(d, b, prefix, digits, rest);
    if prefix != "" {
      BehindFirst(b, prefix, digits, rest);
      ThenEIff(d, prefix[1..], digits, rest);
    }
  }

  /** The pattern for "all" matches the names whose match it reaches, or an E before. */
  lemma AllPatternIff(b: string, prefix: string, digits: string, rest: string)
    requires Parts(b, prefix, digits, rest)
    ensures Matches(ALL_PATTERN, b)
            <==> Reached(prefix) || (prefix != "" && prefix[0] == 'S' && FirstLineE(prefix[1..]))
  {
    AllPatternOnAnyName(b);
    if prefix == "" {
      BehindS(b, digits, rest);
      assert b[1..][..|digits|] == digits;
      assert forall i :: 0 <= i < |digits| ==> IsDigit(digits[i]);
      assert b[1..][|digits|] == 'E';
    } else {
      BehindFirst(b, prefix, digits, rest);
      FirstLineEIff(prefix[1..], digits, rest);
    }
  }

  lemma AlternativeIff(a: string, b: string, prefix: string, digits: string, rest: string)
    requires Parts(b, prefix, digits, rest) && |a| >= 1 && AllDigits(a)
    ensures "S" + a + "E" <= b <==> prefix == "" && a == digits
  {
    var s := "S" + a + "E";
    if prefix == "" && a == digits {
      assert b == s + rest;
    }
    if s <= b {
      var after := b[|s|..];
      assert b == s + after;
      PartsFromStart(b, a, after);
      FindInParts(b, "", a, after);
      FindInParts(b, prefix, digits, rest);
    }
  }

  /** An old-format pattern matches the names that start with their match and whose digits are one of
      its alternatives. */
  lemma OldPatternIff(alts: seq<string>, b: string, prefix: string, digits: string, rest: string)
    requires Parts(b, prefix, digits, rest) && forall a :: a in alts ==> |a| >= 1 && AllDigits(a)
    ensures Matches(OldPattern(alts), b) <==> prefix == "" && digits in alts
  {
    OldPatternOnAnyName(alts, b);
    forall a | a in alts ensures "S" + a + "E" <= b <==> prefix == "" && a == digits {
      AlternativeIff(a, b, prefix, digits, rest);
    }
  }

  // ---------- What the patterns mean ----------

  /** Whether the testcases of a name with these digits count for subtask `n`. */
  predicate CountsFor(isNew: bool, deps: map<int, Dependencies>, n: int, digits: string)
    requires AllDigits(digits)
  {
    if isNew then 0 <= n < 10 && DigitChar(n) in digits
    else if n !in deps then NatValue(digits) == n
    else match deps[n]
         case AllOf => true
         case Listed(subtasks) => NatValue(digits) == n || NatValue(digits) in subtasks
  }

  predicate DependsOnAll(deps: map<int, Dependencies>, n: int) {
    n in deps && deps[n].AllOf?
  }

  /** Of several spellings of a number the dict holds one; whether it is this one. */
  predicate SpelledAsStored(d: Subtasks, digits: string)
    requires AllDigits(digits)
  {
    NatValue(digits) in d.spelling && d.spelling[NatValue(digits)] == digits
  }

  /** What the dict holds under a number spells that number. */
  ghost predicate Spells(d: Subtasks) {
    forall n :: n in d.spelling ==> |d.spelling[n]| >= 1 && AllDigits(d.spelling[n]) && NatValue(d.spelling[n]) == n
  }

  lemma CollectedSpells(d: Subtasks, names: seq<string>)
    requires Collected(d, false, names) && AllAccepted(names)
    ensures Spells(d)
  {
    forall n | n in d.spelling
      ensures |d.spelling[n]| >= 1 && AllDigits(d.spelling[n]) && NatValue(d.spelling[n]) == n
    {
      var c :| c in names && d.spelling[n] == DigitsOf(c) && NatValue(DigitsOf(c)) == n;
    }
  }

  /** Every name has a subtask, so that the loader does not raise. */
  predicate AllAccepted(names: seq<string>) {
    forall b :: b in names ==> FindSubtask(b).Some?
  }

  function ListedBy(deps: map<int, Dependencies>, n: int): seq<int> {
    if n in deps && deps[n].Listed? then deps[n].subtasks else []
  }

  lemma ListedPattern(d: Subtasks, deps: map<int, Dependencies>, n: int)
    requires n in d.spelling && Resolvable(d, deps, n) && !DependsOnAll(deps, n)
    ensures PatternFor(d, false, deps, n) == OldPattern([d.spelling[n]] + Spelled(d, ListedBy(deps, n)))
  {
    if n !in deps {
      assert [d.spelling[n]] + Spelled(d, []) == [d.spelling[n]];
    }
  }

  /** In the old format and without "all", a pattern matches the names that start with their match,
      count for the subtask and are spelled as stored. */
  lemma ListedMeaning(d: Subtasks, deps: map<int, Dependencies>, n: int,
                      b: string, prefix: string, digits: string, rest: string)
    requires Spells(d) && n in d.spelling && Resolvable(d, deps, n) && !DependsOnAll(deps, n)
    requires Parts(b, prefix, digits, rest)
    ensures Matches(PatternFor(d, false, deps, n), b)
            <==> prefix == "" && CountsFor(false, deps, n, digits) && SpelledAsStored(d, digits)
  {
    var listed := ListedBy(deps, n);
    ListedPattern(d, deps, n);
    AlternativesIff(d, n, listed, digits);
    OldPatternIff([d.spelling[n]] + Spelled(d, listed), b, prefix, digits, rest);
  }

  /** What the pattern of a collected subtask matches, on every name the loader accepts. */
  lemma PatternMeaning(d: Subtasks, isNew: bool, names: seq<string>, deps: map<int, Dependencies>, n: int,
                       b: string, prefix: string, digits: string, rest: string)
    requires Collected(d, isNew, names) && AllAccepted(names)
    requires n in d.spelling && (!isNew ==> Resolvable(d, deps, n))
    requires b in names && Parts(b, prefix, digits, rest)
    ensures isNew ==> 0 <= n < 10
    ensures Matches(PatternFor(d, isNew, deps, n), b)
            <==> if isNew then
                   (prefix == "" && CountsFor(isNew, deps, n, digits)) || Stray(DigitChar(n), b, prefix, rest)
                 else if DependsOnAll(deps, n) then
                   Reached(prefix) || (prefix != "" && prefix[0] == 'S' && FirstLineE(prefix[1..]))
                 else prefix == "" && CountsFor(isNew, deps, n, digits) && SpelledAsStored(d, digits)
  {
    if isNew {
      NewPatternIff(DigitChar(n), b, prefix, digits, rest);
    } else if DependsOnAll(deps, n) {
      AllPatternIff(b, prefix, digits, rest);
    } else {
      CollectedSpells(d, names);
      ListedMeaning(d, deps, n, b, prefix, digits, rest);
    }
  }

  lemma AlternativesIff(d: Subtasks, n: int, listed: seq<int>, digits: string)
    requires Spells(d) && AllDigits(digits)
    requires n in d.spelling && forall i :: 0 <= i < |listed| ==> listed[i] in d.spelling
    ensures var alts := [d.spelling[n]] + Spelled(d, listed);
            && (forall a :: a in alts ==> |a| >= 1 && AllDigits(a))
            && (digits in alts <==> (NatValue(digits) == n || NatValue(digits) in listed) && SpelledAsStored(d, digits))
  {
    var spelled := Spelled(d, listed);
    forall a | a in spelled ensures |a| >= 1 && AllDigits(a) && NatValue(a) in listed && d.spelling[NatValue(a)] == a {
      var k :| 0 <= k < |spelled| && spelled[k] == a;
      var m := listed[k];
      assert m in d.spelling && a == d.spelling[m];
    }
    if NatValue(digits) in listed {
      var k :| 0 <= k < |listed| && listed[k] == NatValue(digits);
      assert spelled[k] == d.spelling[NatValue(digits)];
    }
  }

  /** When a pattern is right about a testcase. In the new format: if the testcase counts, the pattern
      must reach its digits, or the digit and an E before them; if not, there must be no stray digit
      and E. In the old one: the pattern for "all" must reach the match, or an E before it; any other
      testcase that counts must start with its match and be spelled as stored. */
  lemma PatternRightIff(d: Subtasks, isNew: bool, names: seq<string>, deps: map<int, Dependencies>, n: int,
                        b: string, prefix: string, digits: string, rest: string)
    requires Collected(d, isNew, names) && AllAccepted(names)
    requires n in d.spelling && (!isNew ==> Resolvable(d, deps, n))
    requires b in names && Parts(b, prefix, digits, rest)
    ensures isNew ==> 0 <= n < 10
    ensures (Matches(PatternFor(d, isNew, deps, n), b) <==> CountsFor(isNew, deps, n, digits))
            <==> if isNew then
                   if CountsFor(isNew, deps, n, digits) then
                     Reached(prefix) || (prefix != "" && prefix[0] == 'S' && ThenE(DigitChar(n), prefix[1..]))
                   else !Stray(DigitChar(n), b, prefix, rest)
                 else if DependsOnAll(deps, n) then
                   Reached(prefix) || (prefix != "" && prefix[0] == 'S' && FirstLineE(prefix[1..]))
                 else CountsFor(isNew, deps, n, digits) ==> prefix == "" && SpelledAsStored(d, digits)
  {
    PatternMeaning(d, isNew, names, deps, n, b, prefix, digits, rest);
    if isNew && CountsFor(isNew, deps, n, digits) {
      NewPatternFindsIff(DigitChar(n), b, prefix, digits, rest);
    }
  }

  /** Every subtask number is spelled in one way. */
  ghost predicate OneSpelling(names: seq<string>) {
    forall b, c :: b in names && c in names && NatValue(DigitsOf(b)) == NatValue(DigitsOf(c)) ==>
      DigitsOf(b) == DigitsOf(c)
  }

  /** All testcases' numbers are spelled as stored exactly when no number is spelled in two ways. */
  lemma AllSpelledAsStoredIff(d: Subtasks, names: seq<string>)
    requires Collected(d, false, names)
    ensures (forall b :: b in names ==> SpelledAsStored(d, DigitsOf(b))) <==> OneSpelling(names)
  {
    forall b | b in names ensures NatValue(DigitsOf(b)) in d.spelling {
      assert Named(false, names, NatValue(DigitsOf(b)));
    }
    if OneSpelling(names) {
      forall b | b in names ensures SpelledAsStored(d, DigitsOf(b)) {
        var n := NatValue(DigitsOf(b));
        var c :| c in names && d.spelling[n] == DigitsOf(c) && NatValue(DigitsOf(c)) == n;
      }
    }
  }

  // ---------- Examples ----------

  /** The subtasks of a name, by its parts. */
  lemma NamesInWords(isNew: bool, b: string, prefix: string, digits: string, rest: string, n: int)
    requires Parts(b, prefix, digits, rest)
    ensures Names(isNew, b, n) <==> if isNew then 0 <= n < 10 && DigitChar(n) in digits else NatValue(digits) == n
  {
    FindInParts(b, prefix, digits, rest);
  }

  lemma CollectedOne(d: Subtasks, b: string, digits: string)
    requires Collected(d, false, [b]) && FindSubtask(b) == Some(digits)
    ensures d.spelling == map[NatValue(digits) := digits]
  {
    assert b in [b];
    forall n ensures n in d.spelling <==> n == NatValue(digits) {
      assert Named(false, [b], n) <==> Names(false, b, n);
    }
  }

  /** A zero-padded name means the old format, and one subtask with the padded number in its pattern. */
  lemma ZeroPadded(isNew: bool, d: Subtasks)
    requires !isNew <==> exists b :: b in ["S01E1"] && Matches(OLD_STYLE, b)
    requires Collected(d, isNew, ["S01E1"])
    ensures !isNew && d.spelling.Keys == {1} && PatternFor(d, false, map[], 1) == OldPattern(["01"])
  {
    var b := "S01E1";
    OldStyleIff(b);
    assert b in [b];
    PartsFromStart(b, "01", "1");
    FindInParts(b, "", "01", "1");
    assert NatValue("01") == 1;
    CollectedOne(d, b, "01");
  }

  // ---------- Names that the patterns get wrong ----------

  /** A new-format name for subtask 1 alone that the pattern of subtask 2 matches. */
  lemma SecondEMisleads()
    ensures FindSubtask("S1Ex2E") == Some("1") && !CountsFor(true, map[], 2, "1")
    ensures Matches(NewPattern(DigitChar(2)), "S1Ex2E")
  {
    var rest := "x2E";
    PartsFromStart("S1Ex2E", "1", rest);
    FindInParts("S1Ex2E", "", "1", rest);
    assert rest[1] == DigitChar(2) && rest[2] == 'E' && OneLine(rest[..2]);
    NewPatternIff(DigitChar(2), "S1Ex2E", "", "1", rest);
  }

  lemma TwoNamesOfOne()
    ensures Parts("S01E", "", "01", "") && DigitsOf("S01E") == "01" && NatValue("01") == 1
    ensures DigitsOf("S1E") == "1" && NatValue("1") == 1
  {
    PartsFromStart("S01E", "01", "");
    FindInParts("S01E", "", "01", "");
    PartsFromStart("S1E", "1", "");
    FindInParts("S1E", "", "1", "");
  }

  /** What the dict holds after reading two spellings of one number. */
  lemma SecondCollected(b: string, c: string, n: int)
    requires NatValue(DigitsOf(b)) == NatValue(DigitsOf(c)) == n
    ensures Collected(Subtasks([n], map[n := DigitsOf(c)]), false, [b, c])
  {
    assert c in [b, c] && Names(false, c, n);
  }

  /** Two old-format names of subtask 1: read in this order, its pattern misses the first. */
  lemma SecondSpellingMisleads()
    ensures Collected(Subtasks([1], map[1 := "1"]), false, ["S01E", "S1E"]) && CountsFor(false, map[], 1, "01")
    ensures !Matches(PatternFor(Subtasks([1], map[1 := "1"]), false, map[], 1), "S01E")
  {
    TwoNamesOfOne();
    SecondCollected("S01E", "S1E", 1);
    OldPatternIff(["1"], "S01E", "", "01", "");
  }

  /** The loader searches a name for its subtask, and the patterns are matched from its start: a name
      for subtask 1 that no pattern of subtask 1 matches. */
  lemma PrefixMisleads()
    ensures FindSubtask("xS1E") == Some("1")
    ensures CountsFor(true, map[], 1, "1") && !Matches(NewPattern(DigitChar(1)), "xS1E")
    ensures CountsFor(false, map[], 1, "1") && !Matches(OldPattern(["1"]), "xS1E") && !Matches(ALL_PATTERN, "xS1E")
  {
    var b := "xS1E";
    assert b == "x" + "S" + "1" + "E" + "";
    PartsHere(b, "x", "1", "");
    assert !SubtaskHere(b, 0);
    assert SubtaskAt(b, 0) == SubtaskAt(b, 1) == 1;
    assert NatValue("1") == 1;
    NewPatternOnAnyName(DigitChar(1), b);
    OldPatternIff(["1"], b, "x", "1", "");
    AllPatternOnAnyName(b);
  }
}
