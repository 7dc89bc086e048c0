/** Orders and splits on strings, as Go's `<`, `sort.Slice` and `strings.Split` have them. */
module Strings {

  /** Lexicographic. Go compares UTF-8 bytes, which orders strings as their code points do. */
  predicate Less(a: string, b: string) {
    if |b| == 0 then false
    else if |a| == 0 then true
    else a[0] < b[0] || (a[0] == b[0] && Less(a[1..], b[1..]))
  }

  /** At the first difference the smaller character decides, or the shorter string. */
  lemma {:induction false} LessIff(a: string, b: string)
    ensures Less(a, b)
            <==> exists k :: 0 <= k <= |a| && k < |b| && a[..k] == b[..k] && (k == |a| || a[k] < b[k])
  {
    if |a| == 0 && |b| > 0 {
      assert a[..0] == b[..0];
    } else if |a| > 0 && |b| > 0 {
      LessIff(a[1..], b[1..]);
      if a[0] < b[0] {
        assert a[..0] == b[..0];
      }
      if k :| && 0 <= k <= |a| - 1 && k < |b| - 1 && a[1..][..k] == b[1..][..k]
              && (k == |a| - 1 || a[1..][k] < b[1..][k]) {
        assert a[0] == b[0] ==> a[..k + 1] == [a[0]] + a[1..][..k] == b[..k + 1];
      }
      if k :| 0 < k <= |a| && k < |b| && a[..k] == b[..k] && (k == |a| || a[k] < b[k]) {
        assert a[0] == a[..k][0] == b[0];
        assert a[1..][..k - 1] == a[..k][1..] == b[1..][..k - 1];
      }
    }
  }

  lemma {:induction false} LessIsStrict(a: string)
    ensures !Less(a, a)
  {
    if |a| > 0 {
      LessIsStrict(a[1..]);
    }
  }

  lemma {:induction false} LessIsTotal(a: string, b: string)
    ensures Less(a, b) || a == b || Less(b, a)
  {
    if |a| > 0 && |b| > 0 {
      LessIsTotal(a[1..], b[1..]);
      if a[0] == b[0] && a[1..] == b[1..] {
        assert a == [a[0]] + a[1..] == b;
      }
    }
  }

  lemma {:induction false} LessIsTransitive(a: string, b: string, c: string)
    requires Less(a, b) && Less(b, c)
    ensures Less(a, c)
  {
    if |a| > 0 && a[0] == b[0] && b[0] == c[0] {
      LessIsTransitive(a[1..], b[1..], c[1..]);
    }
  }

  // ---------- Sorting by a name ----------

  /** What a sort by name promises: no element is less than an earlier one. */
  ghost predicate SortedByName<T(!new)>(s: seq<T>, name: T -> string) {
    forall i, j :: 0 <= i < j < |s| ==> !Less(name(s[j]), name(s[i]))
  }

  ghost predicate DistinctNames<T(!new)>(s: seq<T>, name: T -> string) {
    forall i, j :: 0 <= i < j < |s| ==> name(s[i]) != name(s[j])
  }

  ghost predicate IsSortOf<T(!new)>(sorted: seq<T>, s: seq<T>, name: T -> string) {
    multiset(sorted) == multiset(s) && SortedByName(sorted, name)
  }

  lemma AfterHead<T(!new)>(s: seq<T>, i: nat, name: T -> string)
    requires SortedByName(s, name) && i < |s|
    ensures i > 0 ==> !Less(name(s[i]), name(s[0]))
    ensures i > 0 && DistinctNames(s, name) ==> name(s[i]) != name(s[0])
  {
  }

  lemma HeadsAgree<T(!new)>(a: seq<T>, b: seq<T>, name: T -> string)
    requires multiset(a) == multiset(b) && |a| > 0 && |b| > 0
    requires SortedByName(a, name) && SortedByName(b, name) && DistinctNames(a, name)
    ensures a[0] == b[0]
  {
    assert b[0] in multiset(a) && a[0] in multiset(b);
    var i :| 0 <= i < |a| && a[i] == b[0];
    var j :| 0 <= j < |b| && b[j] == a[0];
    LessIsTotal(name(a[0]), name(b[0]));
    AfterHead(a, i, name);
    AfterHead(b, j, name);
  }

  lemma TailsAgree<T>(a: seq<T>, b: seq<T>)
    requires multiset(a) == multiset(b) && |a| > 0 && |b| > 0 && a[0] == b[0]
    ensures multiset(a[1..]) == multiset(b[1..])
  {
    assert a == [a[0]] + a[1..] && b == [b[0]] + b[1..];
    assert multiset(a[1..]) == multiset(a) - multiset{a[0]};
    assert multiset(b[1..]) == multiset(b) - multiset{b[0]};
  }

  /** Only one arrangement of elements with distinct names is sorted, so an unstable sort of rows
      that arrive in any order has one possible result. */
  lemma {:induction false} SortIsUnique<T(!new)>(a: seq<T>, b: seq<T>, name: T -> string)
    requires multiset(a) == multiset(b)
    requires SortedByName(a, name) && SortedByName(b, name) && DistinctNames(a, name)
    ensures a == b
    decreases |a|
  {
    assert |a| == |multiset(a)| == |multiset(b)| == |b|;
    if |a| > 0 {
      HeadsAgree(a, b, name);
      TailsAgree(a, b);
      SortIsUnique(a[1..], b[1..], name);
      assert a == [a[0]] + a[1..] && b == [b[0]] + b[1..];
    }
  }

  function Insertion<T>(sorted: seq<T>, e: T, name: T -> string): seq<T> {
    if |sorted| == 0 || !Less(name(e), name(sorted[|sorted| - 1])) then sorted + [e]
    else Insertion(sorted[..|sorted| - 1], e, name) + [sorted[|sorted| - 1]]
  }

  lemma {:induction false} InsertionPermutes<T>(sorted: seq<T>, e: T, name: T -> string)
    ensures multiset(Insertion(sorted, e, name)) == multiset(sorted) + multiset{e}
    decreases |sorted|
  {
    if |sorted| > 0 {
      var front, last := sorted[..|sorted| - 1], sorted[|sorted| - 1];
      assert sorted == front + [last];
      InsertionPermutes(front, e, name);
    }
  }

  /** Not less than the last of a sorted list is not less than any of it. */
  lemma LastIsGreatest<T(!new)>(sorted: seq<T>, e: string, i: nat, name: T -> string)
    requires SortedByName(sorted, name) && i < |sorted| && !Less(e, name(sorted[|sorted| - 1]))
    ensures !Less(e, name(sorted[i]))
  {
    var x, last := name(sorted[i]), name(sorted[|sorted| - 1]);
    if Less(e, x) {
      LessIsTotal(x, last);
      if Less(x, last) {
        LessIsTransitive(e, x, last);
      }
    }
  }

  lemma {:induction false} InsertionSorts<T(!new)>(sorted: seq<T>, e: T, name: T -> string)
    requires SortedByName(sorted, name)
    ensures SortedByName(Insertion(sorted, e, name), name)
    decreases |sorted|
  {
    if |sorted| > 0 {
      var front, last := sorted[..|sorted| - 1], sorted[|sorted| - 1];
      if Less(name(e), name(last)) {
        InsertionSorts(front, e, name);
        InsertionPermutes(front, e, name);
        LessIsAsymmetric(name(e), name(last));
        forall x | x in Insertion(front, e, name) ensures !Less(name(last), name(x)) {
          assert x in multiset(Insertion(front, e, name));
          assert x == e || x in front;
        }
      } else {
        forall i | 0 <= i < |sorted| ensures !Less(name(e), name(sorted[i])) {
          LastIsGreatest(sorted, name(e), i, name);
        }
      }
    }
  }

  lemma LessIsAsymmetric(a: string, b: string)
    requires Less(a, b)
    ensures !Less(b, a)
  {
    LessIsStrict(a);
    if Less(b, a) {
      LessIsTransitive(a, b, a);
    }
  }

  /** Some sort by name; library sorts promise no more than `IsSortOf`. */
  method SortByName<T(!new)>(s: seq<T>, name: T -> string) returns (sorted: seq<T>)
    ensures IsSortOf(sorted, s, name)
  {
    sorted := [];
    for i := 0 to |s|
      invariant IsSortOf(sorted, s[..i], name)
    {
      InsertionSorts(sorted, s[i], name);
      InsertionPermutes(sorted, s[i], name);
      assert s[..i + 1] == s[..i] + [s[i]];
      sorted := Insertion(sorted, s[i], name);
    }
    assert s[..|s|] == s;
  }

  lemma {:induction false} SomeSort<T(!new)>(s: seq<T>, name: T -> string) returns (sorted: seq<T>)
    ensures IsSortOf(sorted, s, name)
  {
    if |s| == 0 {
      sorted := [];
    } else {
      var front, last := s[..|s| - 1], s[|s| - 1];
      var shorter := SomeSort(front, name);
      InsertionSorts(shorter, last, name);
      InsertionPermutes(shorter, last, name);
      assert s == front + [last];
      sorted := Insertion(shorter, last, name);
    }
  }

  lemma Regroup<T>(x: seq<T>, y: seq<T>, z: seq<T>)
    ensures x + y + z == x + (y + z)
  {
  }

  // ---------- Splitting ----------

  predicate SepAt(s: string, sep: string, i: nat) {
    i + |sep| <= |s| && s[i..i + |sep|] == sep
  }

  predicate Contains(s: string, sep: string) {
    exists i :: 0 <= i < |s| && SepAt(s, sep, i)
  }

  /** The first place where `sep` occurs at or after `i`, or the length of `s`. */
  function FindFrom(s: string, sep: string, i: nat): (r: nat)
    requires i <= |s| && |sep| > 0
    ensures i <= r <= |s|
    ensures r < |s| ==> SepAt(s, sep, r)
    ensures forall k :: i <= k < r ==> !SepAt(s, sep, k)
    decreases |s| - i
  {
    if i == |s| || SepAt(s, sep, i) then i else FindFrom(s, sep, i + 1)
  }

  function Split(s: string, sep: string): (parts: seq<string>)
    requires |sep| > 0
    ensures |parts| >= 1
    decreases |s|
  {
    var i := FindFrom(s, sep, 0);
    if i == |s| then [s] else [s[..i]] + Split(s[i + |sep|..], sep)
  }

  function Join(parts: seq<string>, sep: string): string {
    if |parts| == 0 then ""
    else if |parts| == 1 then parts[0]
    else parts[0] + sep + Join(parts[1..], sep)
  }

  lemma FirstPartIsClean(s: string, sep: string, i: nat)
    requires |sep| > 0 && i <= |s|
    requires forall k :: 0 <= k < i ==> !SepAt(s, sep, k)
    ensures !Contains(s[..i], sep)
  {
    forall k | 0 <= k < i ensures !SepAt(s[..i], sep, k) {
      assert !SepAt(s, sep, k);
      assert k + |sep| <= i ==> s[..i][k..k + |sep|] == s[k..k + |sep|];
    }
  }

  lemma JoinFirst(first: string, parts: seq<string>, sep: string)
    requires |parts| >= 1
    ensures Join([first] + parts, sep) == first + sep + Join(parts, sep)
  {
    assert ([first] + parts)[1..] == parts;
  }

  lemma Rebuild(s: string, sep: string, i: nat)
    requires i <= |s| && SepAt(s, sep, i)
    ensures s[..i] + sep + s[i + |sep|..] == s
  {
    assert s == s[..i] + s[i..i + |sep|] + s[i + |sep|..];
  }

  /** Splitting loses nothing. */
  lemma {:induction false} SplitJoins(s: string, sep: string)
    requires |sep| > 0
    ensures Join(Split(s, sep), sep) == s
    decreases |s|
  {
    var i := FindFrom(s, sep, 0);
    if i < |s| {
      var rest := s[i + |sep|..];
      SplitJoins(rest, sep);
      JoinFirst(s[..i], Split(rest, sep), sep);
      Rebuild(s, sep, i);
      calc {
        Join(Split(s, sep), sep);
        Join([s[..i]] + Split(rest, sep), sep);
        s[..i] + sep + Join(Split(rest, sep), sep);
        s[..i] + sep + rest;
        s;
      }
    }
  }

  /** No part holds the separator. */
  lemma {:induction false} PartsAreClean(s: string, sep: string, p: string)
    requires |sep| > 0 && p in Split(s, sep)
    ensures !Contains(p, sep)
    decreases |s|
  {
    var i := FindFrom(s, sep, 0);
    FirstPartIsClean(s, sep, i);
    if i == |s| {
      assert s[..i] == s;
    } else if p != s[..i] {
      PartsAreClean(s[i + |sep|..], sep, p);
    }
  }

  lemma NoneBefore(a: string, rest: string, c: char)
    requires c !in a
    ensures FindFrom(a + [c] + rest, [c], 0) == |a|
  {
    var s := a + [c] + rest;
    assert SepAt(s, [c], |a|);
    forall k | 0 <= k < |a| ensures !SepAt(s, [c], k) {
      assert s[k..k + 1][0] == a[k];
    }
  }

  lemma NoneAtAll(b: string, c: char)
    requires c !in b
    ensures FindFrom(b, [c], 0) == |b|
  {
    forall k | 0 <= k < |b| ensures !SepAt(b, [c], k) {
      assert b[k..k + 1][0] == b[k];
    }
  }

  /** A separator of one character between two strings free of it splits them apart. */
  lemma SplitAtOnly(a: string, b: string, c: char)
    requires c !in a && c !in b
    ensures Split(a + [c] + b, [c]) == [a, b]
  {
    var s := a + [c] + b;
    NoneBefore(a, b, c);
    NoneAtAll(b, c);
    assert s[..|a|] == a && s[|a| + 1..] == b;
  }
}
