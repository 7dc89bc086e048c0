/** The submission cooldown (`CanUserSubmit` in `oiajudge/pkg/oiajudge/api.go`): how close together
    accepted requests can be, although the stored time is cut to milliseconds. Times are in
    nanoseconds; the requests of one user are served one after another. */
module Cooldown {

  /** Nanoseconds in a millisecond. */
  const MS := 1_000_000

  /** `Time.UnixMilli` rounds down, before 1970 too. */
  function UnixMilli(t: int): int {
    t / MS
  }

  /** What may fail besides the check itself. The error of the UPDATE is ignored, but it spoils the
      transaction, so COMMIT then reports an error. */
  datatype Faults = Faults(begin: bool, read: bool, write: bool, commit: bool)

  datatype Request = Request(now: int, faults: Faults)

  predicate TooSoon(lastMs: int, now: int, cooldown: int) {
    lastMs * MS + cooldown > now
  }

  predicate Accepts(lastMs: int, r: Request, cooldown: int) {
    !r.faults.begin && !r.faults.read && !TooSoon(lastMs, r.now, cooldown) && !r.faults.write && !r.faults.commit
  }

  class Account {
    var lastSubmissionMs: int

    constructor ()
      ensures lastSubmissionMs == 0
    {
      lastSubmissionMs := 0;
    }

    method CanUserSubmit(r: Request, cooldown: int) returns (error: bool)
      modifies this
      ensures !error <==> Accepts(old(lastSubmissionMs), r, cooldown)
      ensures error <==> || r.faults.begin || r.faults.read || r.faults.write || r.faults.commit
                         || old(lastSubmissionMs) * 1_000_000 + cooldown > r.now
      ensures error ==> lastSubmissionMs == old(lastSubmissionMs)
      ensures !error ==> lastSubmissionMs * 1_000_000 <= r.now < (lastSubmissionMs + 1) * 1_000_000
    {
      if r.faults.begin || r.faults.read {
        return true;
      }
      var lastSubmission := lastSubmissionMs * MS;
      if lastSubmission + cooldown > r.now {
        return true;
      }
      var updated := if r.faults.write then lastSubmissionMs else UnixMilli(r.now);
      error := r.faults.write || r.faults.commit;
      if !error {
        lastSubmissionMs := updated;
      }
    }

    /** The check is committed before CMS is asked, so a request that CMS refuses still counts. */
    method MakeSubmission(r: Request, cooldown: int, bridgeFault: bool) returns (error: bool)
      modifies this
      ensures error <==> !Accepts(old(lastSubmissionMs), r, cooldown) || bridgeFault
      ensures error <==> || r.faults.begin || r.faults.read || r.faults.write || r.faults.commit
                         || old(lastSubmissionMs) * 1_000_000 + cooldown > r.now
                         || bridgeFault
      ensures lastSubmissionMs == if Accepts(old(lastSubmissionMs), r, cooldown) then UnixMilli(r.now)
                                  else old(lastSubmissionMs)
    {
      error := CanUserSubmit(r, cooldown);
      if !error {
        error := bridgeFault;
      }
    }
  }

  // ---------- Runs ----------

  /** The stored time after a run of requests. */
  function LastMs(start: int, rs: seq<Request>, cooldown: int): int {
    if |rs| == 0 then start
    else
      var before, r := LastMs(start, rs[..|rs| - 1], cooldown), rs[|rs| - 1];
      if Accepts(before, r, cooldown) then UnixMilli(r.now) else before
  }

  /** The times of the accepted requests of a run. */
  function AcceptedTimes(start: int, rs: seq<Request>, cooldown: int): seq<int> {
    if |rs| == 0 then []
    else
      var earlier, r := AcceptedTimes(start, rs[..|rs| - 1], cooldown), rs[|rs| - 1];
      if Accepts(LastMs(start, rs[..|rs| - 1], cooldown), r, cooldown) then earlier + [r.now] else earlier
  }

  /** The stored time is that of the last accepted request, and each was late enough after the one
      before it. */
  lemma {:induction false} Chained(start: int, rs: seq<Request>, cooldown: int)
    ensures var ts := AcceptedTimes(start, rs, cooldown);
            && LastMs(start, rs, cooldown) == (if |ts| == 0 then start else UnixMilli(ts[|ts| - 1]))
            && forall i :: 0 < i < |ts| ==> UnixMilli(ts[i - 1]) * MS + cooldown <= ts[i]
  {
    if |rs| > 0 {
      Chained(start, rs[..|rs| - 1], cooldown);
    }
  }

  /** Any `n` accepted requests span at least `n - 1` cooldowns, less 999999 nanoseconds each. */
  lemma {:induction false} AcceptedSpan(start: int, rs: seq<Request>, cooldown: int, i: nat, j: nat)
    requires i <= j < |AcceptedTimes(start, rs, cooldown)|
    ensures var ts := AcceptedTimes(start, rs, cooldown);
            ts[j] - ts[i] >= (j - i) * (cooldown - 999_999)
    decreases j
  {
    if i < j {
      Chained(start, rs, cooldown);
      AcceptedSpan(start, rs, cooldown, i, j - 1);
      Distribute(j - i, cooldown - 999_999);
    }
  }

  lemma Distribute(n: int, c: int)
    ensures n * c == (n - 1) * c + c
  {
  }

  /** With a cooldown of whole milliseconds, as the server configures it, the loss does not add up:
      it stays under one millisecond over any number of requests. */
  lemma {:induction false} AcceptedSpanWhole(start: int, rs: seq<Request>, cooldown: int, i: nat, j: nat)
    requires cooldown % MS == 0
    requires i <= j < |AcceptedTimes(start, rs, cooldown)|
    ensures var ts := AcceptedTimes(start, rs, cooldown);
            && UnixMilli(ts[j]) - UnixMilli(ts[i]) >= (j - i) * (cooldown / MS)
            && ts[j] - ts[i] >= (j - i) * cooldown - 999_999
    decreases j
  {
    var ts := AcceptedTimes(start, rs, cooldown);
    if i < j {
      Chained(start, rs, cooldown);
      AcceptedSpanWhole(start, rs, cooldown, i, j - 1);
      assert UnixMilli(ts[j]) >= UnixMilli(ts[j - 1]) + cooldown / MS;
      Distribute(j - i, cooldown / MS);
    }
    assert cooldown == MS * (cooldown / MS);
    Regroup(j - i, cooldown / MS);
  }

  lemma Regroup(n: int, c: int)
    ensures n * (MS * c) == MS * (n * c)
  {
  }

  // ---------- Requests that succeed ----------

  /** The times of the requests answered without an error: those that are accepted and that CMS then
      takes. `refused[i]` says that CMS refuses request `i`. */
  function SuccessTimes(start: int, rs: seq<Request>, refused: seq<bool>, cooldown: int): seq<int>
    requires |refused| == |rs|
  {
    if |rs| == 0 then []
    else
      var n := |rs| - 1;
      var earlier := SuccessTimes(start, rs[..n], refused[..n], cooldown);
      if Accepts(LastMs(start, rs[..n], cooldown), rs[n], cooldown) && !refused[n] then earlier + [rs[n].now]
      else earlier
  }

  /** The successful requests are some of the accepted ones, in order; all of them when CMS refuses none. */
  lemma {:induction false} SuccessesAreAccepted(start: int, rs: seq<Request>, refused: seq<bool>, cooldown: int)
    returns (at: seq<nat>)
    requires |refused| == |rs|
    ensures PicksFrom(AcceptedTimes(start, rs, cooldown), SuccessTimes(start, rs, refused, cooldown), at)
    ensures true !in refused ==> SuccessTimes(start, rs, refused, cooldown) == AcceptedTimes(start, rs, cooldown)
  {
    if |rs| == 0 {
      at := [];
    } else {
      var n := |rs| - 1;
      at := SuccessesAreAccepted(start, rs[..n], refused[..n], cooldown);
      assert refused[n] in refused;
      assert forall b :: b in refused[..n] ==> b in refused;
      var ts, ok := AcceptedTimes(start, rs[..n], cooldown), SuccessTimes(start, rs[..n], refused[..n], cooldown);
      PicksMore(ts, ok, at, rs[n].now);
      if Accepts(LastMs(start, rs[..n], cooldown), rs[n], cooldown) && !refused[n] {
        at := at + [|ts|];
      }
    }
  }

  /** `ok` is what `ts` holds at the increasing positions `at`. */
  ghost predicate PicksFrom(ts: seq<int>, ok: seq<int>, at: seq<nat>) {
    && |at| == |ok|
    && (forall i :: 0 <= i < |at| ==> at[i] < |ts| && ok[i] == ts[at[i]])
    && (forall i, j :: 0 <= i <= j < |at| ==> at[j] - at[i] >= j - i)
    && (forall i :: 0 <= i < |at| ==> |ts| - at[i] >= |at| - i)
  }

  lemma PicksMore(ts: seq<int>, ok: seq<int>, at: seq<nat>, t: int)
    requires PicksFrom(ts, ok, at)
    ensures PicksFrom(ts + [t], ok, at) && PicksFrom(ts + [t], ok + [t], at + [|ts|])
  {
  }

  /** Any `n` requests of a user that succeed span at least `n - 1` cooldowns, less 999999 nanoseconds
      each, whatever other requests are refused in between. */
  lemma SuccessSpan(start: int, rs: seq<Request>, refused: seq<bool>, cooldown: int, i: nat, j: nat)
    requires |refused| == |rs| && cooldown >= 999_999
    requires i <= j < |SuccessTimes(start, rs, refused, cooldown)|
    ensures var ok := SuccessTimes(start, rs, refused, cooldown);
            ok[j] - ok[i] >= (j - i) * (cooldown - 999_999)
  {
    var at := SuccessesAreAccepted(start, rs, refused, cooldown);
    AcceptedSpan(start, rs, cooldown, at[i], at[j]);
    MoreIsLonger(j - i, at[j] - at[i], cooldown - 999_999);
  }

  lemma MoreIsLonger(n: int, m: int, c: int)
    requires n <= m && c >= 0
    ensures n * c <= m * c
  {
    assert m * c - n * c == (m - n) * c;
  }

  // ---------- The bounds are exact ----------

  const SOUND := Faults(false, false, false, false)

  /** `n` requests, `gap` apart, starting just before the first millisecond is full. */
  function Every(gap: int, n: nat): seq<Request> {
    if n == 0 then [] else Every(gap, n - 1) + [Request(999_999 + (n - 1) * gap, SOUND)]
  }

  lemma AppendRequest(start: int, rs: seq<Request>, r: Request, cooldown: int)
    ensures var last, ok := LastMs(start, rs, cooldown), Accepts(LastMs(start, rs, cooldown), r, cooldown);
            && LastMs(start, rs + [r], cooldown) == (if ok then UnixMilli(r.now) else last)
            && AcceptedTimes(start, rs + [r], cooldown)
               == AcceptedTimes(start, rs, cooldown) + (if ok then [r.now] else [])
  {
    assert (rs + [r])[..|rs|] == rs;
  }

  /** A cooldown that ends just short of a whole millisecond loses 999999 nanoseconds at every
      request: all `n` of these are accepted, so `AcceptedSpan` cannot be improved. */
  lemma {:induction false} SpanIsTight(wholeMs: nat, n: nat)
    requires wholeMs >= 1
    ensures var gap := wholeMs * MS;
            var cooldown := gap + 999_999;
            var ts := AcceptedTimes(-cooldown, Every(gap, n), cooldown);
            && |ts| == n
            && (forall i :: 0 <= i < n ==> ts[i] == 999_999 + i * gap)
            && LastMs(-cooldown, Every(gap, n), cooldown) == (if n == 0 then -cooldown else (n - 1) * wholeMs)
  {
    var gap := wholeMs * MS;
    var cooldown := gap + 999_999;
    if n > 0 {
      SpanIsTight(wholeMs, n - 1);
      var before := Every(gap, n - 1);
      var now := 999_999 + (n - 1) * gap;
      AppendRequest(-cooldown, before, Request(now, SOUND), cooldown);
      assert now == 999_999 + ((n - 1) * wholeMs) * MS by {
        Regroup(n - 1, wholeMs);
      }
      if n > 1 {
        assert (n - 1) * wholeMs == (n - 2) * wholeMs + wholeMs by {
          Distribute(n - 1, wholeMs);
        }
      }
      assert Accepts(LastMs(-cooldown, before, cooldown), Request(now, SOUND), cooldown);
    }
  }

  ghost predicate StrictlyIncreasing(ts: seq<int>) {
    forall i, j :: 0 <= i < j < |ts| ==> ts[i] < ts[j]
  }

  lemma IncreasingFromMs(cooldown: int, start: int, rs: seq<Request>)
    requires cooldown >= MS
    ensures StrictlyIncreasing(AcceptedTimes(start, rs, cooldown))
  {
    var ts := AcceptedTimes(start, rs, cooldown);
    forall i, j | 0 <= i < j < |ts| ensures ts[i] < ts[j] {
      AcceptedSpan(start, rs, cooldown, i, j);
      Positive(j - i, cooldown - 999_999);
    }
  }

  lemma Positive(n: int, c: int)
    requires n >= 1 && c >= 1
    ensures n * c >= 1
  {
  }

  /** The same instant twice, when the cooldown is below a millisecond. */
  lemma TwiceAtOnce(cooldown: int) returns (start: int, rs: seq<Request>)
    requires cooldown < MS
    ensures AcceptedTimes(start, rs, cooldown) == [999_999, 999_999]
  {
    var r := Request(999_999, SOUND);
    start := if cooldown < 0 then 0 else -1;
    AppendRequest(start, [], r, cooldown);
    AppendRequest(start, [] + [r], r, cooldown);
    rs := [] + [r] + [r];
  }

  /** Whatever the clock does between requests, accepted times increase, exactly when the cooldown is
      at least a millisecond. */
  lemma NoMonotoneClockNeededIff(cooldown: int)
    ensures (forall start, rs :: StrictlyIncreasing(AcceptedTimes(start, rs, cooldown))) <==> cooldown >= MS
  {
    if cooldown >= MS {
      forall start, rs ensures StrictlyIncreasing(AcceptedTimes(start, rs, cooldown)) {
        IncreasingFromMs(cooldown, start, rs);
      }
    } else {
      var start, rs := TwiceAtOnce(cooldown);
      var ts := AcceptedTimes(start, rs, cooldown);
      assert ts[0] == ts[1];
      assert !StrictlyIncreasing(ts);
    }
  }
}
