/** The migration runner (`MakeClientWithInitScript` in `oiajudge/pkg/store/store.go`): scripts run
    in the order of their names, inside one transaction, each recorded in the version table. */
module Migrations {
  import opened Sequences
  import opened Strings

  /** File name to SQL text. */
  type Release = map<string, string>

  /** The version table, and as history the versions and the statements committed so far. */
  datatype Db = Db(versions: set<string>, applied: seq<string>, script: seq<string>)

  const EMPTY := Db({}, [], [])

  // ---------- The order of versions ----------

  ghost predicate Ordered(s: seq<string>) {
    forall i, j :: 0 <= i < j < |s| ==> Less(s[i], s[j])
  }

  function Members(s: seq<string>): set<string> {
    set k | k in s
  }

  ghost predicate IsOrderOf(s: seq<string>, keys: set<string>) {
    Ordered(s) && Members(s) == keys
  }

  /** A set of names has one order. */
  lemma {:induction false} OrderIsUnique(a: seq<string>, b: seq<string>)
    requires Ordered(a) && Ordered(b) && Members(a) == Members(b)
    ensures a == b
    decreases |a|
  {
    EmptyMembers(a);
    EmptyMembers(b);
    if |a| > 0 {
      FirstsAgree(a, b);
      RestMembers(a);
      RestMembers(b);
      OrderIsUnique(a[1..], b[1..]);
      assert a == [a[0]] + a[1..] && b == [b[0]] + b[1..];
    }
  }

  lemma EmptyMembers(s: seq<string>)
    ensures |s| == 0 <==> Members(s) == {}
  {
    if |s| > 0 {
      assert s[0] in Members(s);
    }
  }

  lemma FirstsAgree(a: seq<string>, b: seq<string>)
    requires Ordered(a) && Ordered(b) && Members(a) == Members(b) && |a| > 0 && |b| > 0
    ensures a[0] == b[0]
  {
    assert a[0] in Members(b) && b[0] in Members(a);
    var i :| 0 <= i < |a| && a[i] == b[0];
    var j :| 0 <= j < |b| && b[j] == a[0];
    LessIsStrict(a[0]);
    if i > 0 && j > 0 {
      LessIsTransitive(a[0], b[0], a[0]);
      assert false;
    }
  }

  lemma RestMembers(s: seq<string>)
    requires Ordered(s) && |s| > 0
    ensures Members(s[1..]) == Members(s) - {s[0]}
  {
    LessIsStrict(s[0]);
  }

  /** Sorted names of a duplicate-free list are in order. */
  lemma SortedIsOrdered(keys: seq<string>, sorted: seq<string>)
    requires IsSortOf(sorted, keys, (k: string) => k)
    requires NoRepeats(keys)
    ensures IsOrderOf(sorted, Members(keys))
  {
    PermutationKeepsNoRepeats(keys, sorted);
    forall i, j | 0 <= i < j < |sorted| ensures Less(sorted[i], sorted[j]) {
      LessIsTotal(sorted[i], sorted[j]);
      assert !Less(sorted[j], sorted[i]);
    }
  }

  // ---------- One start of the server ----------

  function Unapplied(order: seq<string>, versions: set<string>): seq<string> {
    if |order| == 0 then []
    else
      var earlier, k := Unapplied(order[..|order| - 1], versions), order[|order| - 1];
      if k in versions then earlier else earlier + [k]
  }

  /** The statements of some versions, in turn. */
  function Statements(release: Release, order: seq<string>): seq<string>
    requires forall k :: k in order ==> k in release
  {
    if |order| == 0 then []
    else Statements(release, order[..|order| - 1]) + Split(release[order[|order| - 1]], ";;")
  }

  lemma {:induction false} UnappliedMembers(order: seq<string>, versions: set<string>)
    ensures Members(Unapplied(order, versions)) == Members(order) - versions
    ensures forall k :: k in Unapplied(order, versions) ==> k in order && k !in versions
  {
    if |order| > 0 {
      var front, k := order[..|order| - 1], order[|order| - 1];
      UnappliedMembers(front, versions);
      assert order == front + [k];
      assert Members(order) == Members(front) + {k};
      assert Members(Unapplied(front, versions) + [k]) == Members(Unapplied(front, versions)) + {k};
    }
  }

  /** The database after running, in order, the versions of a release it does not have. */
  function Upgraded(db: Db, release: Release, order: seq<string>): Db
    requires forall k :: k in order ==> k in release
  {
    UnappliedMembers(order, db.versions);
    var pending := Unapplied(order, db.versions);
    Db(db.versions + Members(pending), db.applied + pending, db.script + Statements(release, pending))
  }

  /** The first statement to fail, if any, has this number or a later one. */
  ghost predicate NoneFailed(fails: nat -> bool, n: nat) {
    forall m :: 0 <= m < n ==> !fails(m)
  }

  /** Runs the parts of a script until one fails; `n` is the number of the next statement. */
  method ExecuteParts(sql: string, fails: nat -> bool, first: nat) returns (error: bool, executed: seq<string>, n: nat)
    requires NoneFailed(fails, first)
    ensures NoneFailed(fails, n) && n == first + |executed|
    ensures !error ==> executed == Split(sql, ";;")
    ensures error ==> fails(n) && |executed| < |Split(sql, ";;")|
  {
    var parts := Split(sql, ";;");
    executed, n := [], first;
    for p := 0 to |parts|
      invariant executed == parts[..p] && n == first + p && NoneFailed(fails, n)
    {
      if fails(n) {
        return true, executed, n;
      }
      n := n + 1;
      assert parts[..p + 1] == parts[..p] + [parts[p]];
      executed := executed + [parts[p]];
    }
    error := false;
  }

  /** How many statements lead from one database to another when `k` versions are looked up: the
      lookups, the records of new versions, and the parts of their scripts. */
  function StatementCount(k: nat, db: Db, after: Db): int {
    k + (|after.applied| - |db.applied|) + (|after.script| - |db.script|)
  }

  /** Later versions only add statements. */
  lemma {:induction false} CountGrows(db: Db, release: Release, order: seq<string>, i: nat)
    requires i <= |order| && Ordered(order) && forall k :: k in order ==> k in release
    ensures StatementCount(i, db, Upgraded(db, release, order[..i])) + |order| - i
            <= StatementCount(|order|, db, Upgraded(db, release, order))
    decreases |order| - i
  {
    if i == |order| {
      assert order[..i] == order;
    } else {
      PrefixUpgrade(db, release, order, i);
      CountGrows(db, release, order, i + 1);
    }
  }

  /** The statements for one version: the lookup and, when it is missing, its script and its record. */
  function Cost(db: Db, release: Release, k: string): nat
    requires k in release
  {
    1 + if k in db.versions then 0 else |Split(release[k], ";;")| + 1
  }

  /** The database after running one version, unless it has it. */
  function With(db: Db, release: Release, k: string): Db
    requires k in release
  {
    if k in db.versions then db
    else Db(db.versions + {k}, db.applied + [k], db.script + Split(release[k], ";;"))
  }

  /** One turn of the loop over the versions. After a failure, `last` is the statement that failed. */
  method RunVersion(working: Db, release: Release, k: string, fails: nat -> bool, n: nat)
    returns (failed: bool, after: Db, last: nat)
    requires k in release && NoneFailed(fails, n)
    ensures failed ==> last < n + Cost(working, release, k) && fails(last)
    ensures !failed ==> last == n + Cost(working, release, k) && NoneFailed(fails, last)
    ensures !failed ==> after == With(working, release, k)
  {
    after, last := working, n;
    if fails(last) {
      return true, after, last;
    }
    last := last + 1;
    failed := false;
    if k !in working.versions {
      var parts;
      failed, parts, last := ExecuteParts(release[k], fails, last);
      if failed || fails(last) {
        return true, after, last;
      }
      last := last + 1;
      after := Db(working.versions + {k}, working.applied + [k], working.script + parts);
    }
  }

  /** What one turn adds, and that it stays within the whole. */
  lemma TurnCounted(db: Db, release: Release, order: seq<string>, i: nat)
    requires i < |order| && Ordered(order) && forall k :: k in order ==> k in release
    ensures var before := Upgraded(db, release, order[..i]);
            && Upgraded(db, release, order[..i + 1]) == With(before, release, order[i])
            && StatementCount(i, db, before) + Cost(before, release, order[i])
               == StatementCount(i + 1, db, With(before, release, order[i]))
               <= StatementCount(|order|, db, Upgraded(db, release, order))
  {
    PrefixUpgrade(db, release, order, i);
    CountGrows(db, release, order, i + 1);
  }

  /** The loop over the versions: it fails exactly when one of its statements does. */
  method RunVersions(db: Db, release: Release, order: seq<string>, fails: nat -> bool) returns (failed: bool, after: Db)
    requires Ordered(order) && forall k :: k in order ==> k in release
    ensures failed <==> exists n :: 0 <= n < StatementCount(|order|, db, Upgraded(db, release, order)) && fails(n)
    ensures !failed ==> after == Upgraded(db, release, order)
  {
    after := db;
    var n: nat := 0;
    ghost var all := StatementCount(|order|, db, Upgraded(db, release, order));
    for i := 0 to |order|
      invariant after == Upgraded(db, release, order[..i])
      invariant n == StatementCount(i, db, after) && NoneFailed(fails, n)
    {
      TurnCounted(db, release, order, i);
      failed, after, n := RunVersion(after, release, order[i], fails, n);
      if failed {
        assert n < all && fails(n);
        return;
      }
    }
    assert order[..|order|] == order;
    failed := false;
  }

  class Database {
    var committed: Db

    constructor ()
      ensures committed == EMPTY
    {
      committed := EMPTY;
    }

    /** One start. `fails(n)` says whether statement number `n` fails, lookups in the version table
        included. Everything happens in one transaction, so a start upgrades completely or not at all;
        and it fails exactly when its begin, its commit or one of its statements does. */
    method MakeClientWithInitScript(release: Release, fails: nat -> bool, beginFault: bool, commitFault: bool)
      returns (error: bool)
      modifies this
      ensures committed == if error then old(committed) else Upgrade(old(committed), release)
      ensures error <==> || beginFault || commitFault
                         || exists n :: 0 <= n < AllStatements(old(committed), release) && fails(n)
    {
      var keys := ListKeys(release);
      var sorted := SortByName(keys, (k: string) => k);
      SortedIsOrdered(keys, sorted);
      OrderIsUnique(sorted, OrderOf(release.Keys));
      forall k | k in sorted ensures k in release {
        assert k in Members(sorted);
      }
      if beginFault {
        return true;
      }
      SortedSize(sorted);
      var working;
      error, working := RunVersions(committed, release, sorted, fails);
      if !error && !commitFault {
        committed := working;
      }
      error := error || commitFault;
    }
  }

  /** The statements of a start that reaches its commit. */
  ghost function AllStatements(db: Db, release: Release): int {
    StatementCount(|release|, db, Upgrade(db, release))
  }

  lemma {:induction false} SortedSize(s: seq<string>)
    requires Ordered(s)
    ensures |Members(s)| == |s|
    decreases |s|
  {
    EmptyMembers(s);
    if |s| > 0 {
      RestMembers(s);
      SortedSize(s[1..]);
    }
  }

  /** Whether a version of the order is still missing does not depend on those before it. */
  lemma PrefixUpgrade(db: Db, release: Release, order: seq<string>, i: nat)
    requires i < |order| && Ordered(order) && forall k :: k in order ==> k in release
    ensures var before, after := Upgraded(db, release, order[..i]), Upgraded(db, release, order[..i + 1]);
            var k := order[i];
            && (k in before.versions <==> k in db.versions)
            && after == if k in db.versions then before
                        else Db(before.versions + {k}, before.applied + [k], before.script + Split(release[k], ";;"))
  {
    var k := order[i];
    assert order[..i + 1][..i] == order[..i];
    UnappliedMembers(order[..i], db.versions);
    var pending := Unapplied(order[..i], db.versions);
    forall j | 0 <= j < i ensures order[j] != k {
      LessIsStrict(k);
    }
    assert k !in pending;
    assert (pending + [k])[..|pending|] == pending;
    assert k !in db.versions ==> Members(pending + [k]) == Members(pending) + {k};
    if k !in db.versions {
      UnappliedMembers(order[..i + 1], db.versions);
      assert Statements(release, pending + [k]) == Statements(release, pending) + Split(release[k], ";;");
      assert db.script + Statements(release, pending + [k])
          == db.script + Statements(release, pending) + Split(release[k], ";;");
      assert db.applied + (pending + [k]) == db.applied + pending + [k];
    }
  }

  /** The keys of a map, in no particular order. */
  method ListKeys(release: Release) returns (keys: seq<string>)
    ensures Members(keys) == release.Keys
    ensures NoRepeats(keys)
  {
    keys := [];
    var left := release.Keys;
    while left != {}
      invariant left <= release.Keys && Members(keys) == release.Keys - left
      invariant NoRepeats(keys)
      decreases left
    {
      var k :| k in left;
      assert forall r :: r in keys ==> r in Members(keys);
      assert Members(keys + [k]) == Members(keys) + {k};
      keys, left := keys + [k], left - {k};
    }
  }

  // ---------- Sequences of starts ----------

  ghost function OrderOf(keys: set<string>): (s: seq<string>)
    ensures IsOrderOf(s, keys)
  {
    OrderExists(keys);
    var s :| IsOrderOf(s, keys);
    s
  }

  lemma {:induction false} OrderExists(keys: set<string>)
    ensures exists s :: IsOrderOf(s, keys)
    decreases |keys|
  {
    if keys == {} {
      assert IsOrderOf([], keys);
    } else {
      var k :| k in keys;
      OrderExists(keys - {k});
      var s :| IsOrderOf(s, keys - {k});
      SortedFromOrdered(s);
      InsertionSorts(s, k, (n: string) => n);
      InsertionPermutes(s, k, (n: string) => n);
      var t := Insertion(s, k, (n: string) => n);
      assert forall n :: n in s ==> n in Members(s);
      assert Members(s + [k]) == Members(s) + {k} == keys;
      SortedIsOrdered(s + [k], t);
      assert IsOrderOf(t, keys);
    }
  }

  lemma SortedFromOrdered(s: seq<string>)
    requires Ordered(s)
    ensures SortedByName(s, (n: string) => n) && NoRepeats(s)
  {
    forall i, j | 0 <= i < j < |s| ensures !Less(s[j], s[i]) && s[i] != s[j] {
      LessIsStrict(s[i]);
      if Less(s[j], s[i]) {
        LessIsTransitive(s[i], s[j], s[i]);
      }
    }
  }

  /** One start of the server: on success the database has the release, otherwise it is unchanged. */
  datatype Start = Start(release: Release, succeeds: bool)

  ghost function AfterStart(db: Db, s: Start): Db {
    if s.succeeds then Upgrade(db, s.release) else db
  }

  ghost function Upgrade(db: Db, release: Release): Db {
    var order := OrderOf(release.Keys);
    assert forall k :: k in order ==> k in Members(order);
    Upgraded(db, release, order)
  }

  /** The versions an upgrade would run, in order. */
  ghost function Pending(db: Db, release: Release): seq<string> {
    Unapplied(OrderOf(release.Keys), db.versions)
  }

  lemma UpgradeParts(db: Db, release: Release)
    ensures var pending := Pending(db, release);
            && IsOrderOf(pending, release.Keys - db.versions)
            && (forall k :: k in pending ==> k in release && k !in db.versions)
            && Upgrade(db, release)
               == Db(db.versions + Members(pending), db.applied + pending, db.script + Statements(release, pending))
  {
    var order := OrderOf(release.Keys);
    assert forall k :: k in order ==> k in Members(order);
    UnappliedMembers(order, db.versions);
    UnappliedIsOrdered(order, db.versions);
  }

  /** All the parts of some scripts, in turn. */
  function Flatten(parts: seq<seq<string>>): seq<string> {
    if |parts| == 0 then [] else Flatten(parts[..|parts| - 1]) + parts[|parts| - 1]
  }

  /** The parts of a script: joined with the separator they give it back, and none holds it. */
  ghost predicate PartsOf(parts: seq<string>, script: string) {
    |parts| >= 1 && Join(parts, ";;") == script && forall p :: p in parts ==> !Contains(p, ";;")
  }

  lemma {:induction false} StatementsAreParts(release: Release, order: seq<string>) returns (parts: seq<seq<string>>)
    requires forall k :: k in order ==> k in release
    ensures |parts| == |order| && forall i :: 0 <= i < |order| ==> PartsOf(parts[i], release[order[i]])
    ensures Statements(release, order) == Flatten(parts)
  {
    if |order| == 0 {
      parts := [];
    } else {
      var n := |order| - 1;
      var earlier := StatementsAreParts(release, order[..n]);
      var last := Split(release[order[n]], ";;");
      SplitJoins(release[order[n]], ";;");
      forall p | p in last ensures !Contains(p, ";;") {
        PartsAreClean(release[order[n]], ";;", p);
      }
      parts := earlier + [last];
      assert parts[..n] == earlier;
    }
  }

  /** What a successful start does: the missing versions, in the order of their names, are recorded and
      their scripts run part by part. */
  lemma UpgradeInWords(db: Db, release: Release) returns (pending: seq<string>, parts: seq<seq<string>>)
    ensures forall k :: k in pending <==> k in release && k !in db.versions
    ensures forall i, j :: 0 <= i < j < |pending| ==> Less(pending[i], pending[j])
    ensures |parts| == |pending| && forall i :: 0 <= i < |pending| ==> PartsOf(parts[i], release[pending[i]])
    ensures Upgrade(db, release).versions == db.versions + release.Keys
    ensures Upgrade(db, release).applied == db.applied + pending
    ensures Upgrade(db, release).script == db.script + Flatten(parts)
  {
    pending := Pending(db, release);
    UpgradeParts(db, release);
    forall k ensures k in pending <==> k in release && k !in db.versions {
      assert k in pending <==> k in Members(pending);
    }
    parts := StatementsAreParts(release, pending);
  }

  ghost function AfterStarts(starts: seq<Start>): Db {
    if |starts| == 0 then EMPTY else AfterStart(AfterStarts(starts[..|starts| - 1]), starts[|starts| - 1])
  }

  lemma {:induction false} UnappliedIsOrdered(order: seq<string>, versions: set<string>)
    requires Ordered(order)
    ensures Ordered(Unapplied(order, versions))
  {
    if |order| > 0 {
      var front := order[..|order| - 1];
      UnappliedIsOrdered(front, versions);
      UnappliedMembers(front, versions);
      var earlier := Unapplied(front, versions);
      forall i | 0 <= i < |earlier| ensures Less(earlier[i], order[|order| - 1]) {
        assert earlier[i] in front;
      }
    }
  }

  /** Whatever releases are started in whatever order, and however many starts fail, each version is
      committed at most once and the version table lists exactly those committed. */
  lemma {:induction false} CommittedAtMostOnce(starts: seq<Start>)
    ensures NoRepeats(AfterStarts(starts).applied)
    ensures Members(AfterStarts(starts).applied) == AfterStarts(starts).versions
  {
    if |starts| > 0 {
      var before, s := AfterStarts(starts[..|starts| - 1]), starts[|starts| - 1];
      CommittedAtMostOnce(starts[..|starts| - 1]);
      if s.succeeds {
        var pending := Pending(before, s.release);
        UpgradeParts(before, s.release);
        SortedFromOrdered(pending);
        assert forall k :: k in before.applied ==> k in Members(before.applied);
        assert Members(before.applied + pending) == Members(before.applied) + Members(pending);
        var both := before.applied + pending;
        forall i, j | 0 <= i < j < |both| ensures both[i] != both[j] {
          if i < |before.applied| <= j {
            assert both[i] in before.applied && both[j] in pending;
          }
        }
      }
    }
  }

  // ---------- Staged upgrades and fresh installs ----------

  /** The next release keeps the scripts of the old one and only adds versions that sort after them. */
  ghost predicate Extends(base: Release, next: Release) {
    && base.Keys <= next.Keys
    && (forall k :: k in base ==> next[k] == base[k])
    && AddsAfter(base, next)
  }

  ghost predicate AddsAfter(base: Release, next: Release) {
    forall a, b :: a in base && b in next && b !in base ==> Less(a, b)
  }

  lemma {:induction false} StatementsConcat(release: Release, a: seq<string>, b: seq<string>)
    requires forall k :: k in a + b ==> k in release
    ensures (forall k :: k in a ==> k in release) && (forall k :: k in b ==> k in release)
    ensures Statements(release, a + b) == Statements(release, a) + Statements(release, b)
    decreases |b|
  {
    assert forall k :: k in a ==> k in a + b;
    assert forall k :: k in b ==> k in a + b;
    if |b| == 0 {
      assert a + b == a;
    } else {
      var front := b[..|b| - 1];
      assert (a + b)[..|a + b| - 1] == a + front;
      StatementsConcat(release, a, front);
      Regroup(Statements(release, a), Statements(release, front), Split(release[b[|b| - 1]], ";;"));
    }
  }

  lemma {:induction false} StatementsFrame(r: Release, r': Release, order: seq<string>)
    requires forall k :: k in order ==> k in r && k in r' && r[k] == r'[k]
    ensures Statements(r, order) == Statements(r', order)
    decreases |order|
  {
    if |order| > 0 {
      StatementsFrame(r, r', order[..|order| - 1]);
    }
  }

  lemma NothingBefore(order: seq<string>, script: seq<string>, keys: set<string>)
    ensures [] + order == order && [] + script == script && {} + keys == keys
  {
  }

  /** What a fresh install of a release looks like. */
  lemma FreshInstall(release: Release)
    ensures forall k :: k in OrderOf(release.Keys) ==> k in release
    ensures Upgrade(EMPTY, release)
         == Db(release.Keys, OrderOf(release.Keys), Statements(release, OrderOf(release.Keys)))
  {
    var order, pending := OrderOf(release.Keys), Pending(EMPTY, release);
    UpgradeParts(EMPTY, release);
    assert release.Keys - {} == release.Keys;
    OrderIsUnique(order, pending);
    NothingBefore(order, Statements(release, order), release.Keys);
  }

  /** Old versions in order, then the new ones in order, is the order of all of them exactly when
      every new one sorts after every old one. */
  lemma AppendedOrderIff(base: set<string>, next: set<string>, first: seq<string>, pending: seq<string>,
                         all: seq<string>)
    requires IsOrderOf(first, base) && IsOrderOf(pending, next - base) && IsOrderOf(all, next) && base <= next
    ensures first + pending == all <==> forall a, b :: a in base && b in next && b !in base ==> Less(a, b)
  {
    assert Members(first + pending) == Members(first) + Members(pending) == next;
    if forall a, b :: a in base && b in next && b !in base ==> Less(a, b) {
      assert forall k :: k in first ==> k in Members(first);
      assert forall k :: k in pending ==> k in Members(pending);
      assert Ordered(first + pending);
      OrderIsUnique(first + pending, all);
    }
    if first + pending == all {
      forall a, b | a in base && b in next && b !in base ensures Less(a, b) {
        assert a in Members(first) && b in Members(pending);
        var i :| 0 <= i < |first| && first[i] == a;
        var j :| 0 <= j < |pending| && pending[j] == b;
        assert all[i] == a && all[|first| + j] == b;
      }
    }
  }

  /** Upgrading step by step runs the versions in the order of a fresh install exactly when the new
      versions sort after the old ones. */
  lemma StagedOrderIff(base: Release, next: Release)
    requires base.Keys <= next.Keys
    ensures Upgrade(Upgrade(EMPTY, base), next).applied == Upgrade(EMPTY, next).applied <==> AddsAfter(base, next)
  {
    FreshInstall(base);
    FreshInstall(next);
    var installed := Upgrade(EMPTY, base);
    UpgradeParts(installed, next);
    AppendedOrderIff(base.Keys, next.Keys, OrderOf(base.Keys), Pending(installed, next), OrderOf(next.Keys));
  }

  /** Under `Extends` the staged database is the freshly installed one: same versions, same script. */
  lemma StagedIsFresh(base: Release, next: Release)
    requires Extends(base, next)
    ensures Upgrade(Upgrade(EMPTY, base), next) == Upgrade(EMPTY, next)
  {
    StagedOrderIff(base, next);
    FreshInstall(base);
    FreshInstall(next);
    var installed := Upgrade(EMPTY, base);
    UpgradeParts(installed, next);
    var first, pending := OrderOf(base.Keys), Pending(installed, next);
    assert first + pending == OrderOf(next.Keys);
    StatementsConcat(next, first, pending);
    StatementsFrame(base, next, first);
    assert base.Keys + (next.Keys - base.Keys) == next.Keys;
  }

  /** The release of the last successful start, if any. */
  ghost function LastInstalled(starts: seq<Start>): Release {
    if |starts| == 0 then map[]
    else if starts[|starts| - 1].succeeds then starts[|starts| - 1].release
    else LastInstalled(starts[..|starts| - 1])
  }

  lemma {:induction false} LastInstalledIsEarlier(starts: seq<Start>)
    ensures || LastInstalled(starts) == map[]
            || exists i :: 0 <= i < |starts| && starts[i].release == LastInstalled(starts)
  {
    if |starts| > 0 && !starts[|starts| - 1].succeeds {
      LastInstalledIsEarlier(starts[..|starts| - 1]);
    }
  }

  /** Any history of starts, failed ones included, over releases that extend each other leaves the
      database as one fresh install of the last release that was started successfully. */
  lemma {:induction false} StagedUpgrades(starts: seq<Start>)
    requires forall i, j :: 0 <= i <= j < |starts| ==> Extends(starts[i].release, starts[j].release)
    ensures AfterStarts(starts) == Upgrade(EMPTY, LastInstalled(starts))
  {
    if |starts| == 0 {
      FreshInstall(map[]);
      OrderIsUnique(OrderOf({}), []);
    } else {
      var before, s := starts[..|starts| - 1], starts[|starts| - 1];
      StagedUpgrades(before);
      if s.succeeds {
        LastInstalledIsEarlier(before);
        assert Extends(LastInstalled(before), s.release);
        StagedIsFresh(LastInstalled(before), s.release);
      }
    }
  }
}
