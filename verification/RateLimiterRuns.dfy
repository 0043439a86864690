/**
 The sweep of the rate limiter over runs in any order of times: when it has made a difference, and how that
 shows.
 */
module RateLimiterRuns {
  import opened Common
  import opened RateLimiter

  /** The buckets the limiter works on while it handles r, its sweep done. */
  function SweptAt(before: seq<Request>, r: Request, window: int): Buckets {
    Sweep(HandleAll(before, window).0, r.now, window).buckets
  }

  function UnsweptAt(before: seq<Request>, window: int): Buckets {
    Unswept(before, window).0
  }

  /** After requests `before`, r reaches its k-th check, as far as the limiter without a sweep decides. */
  predicate ReachesCheck(before: seq<Request>, r: Request, window: int, k: nat) {
    k < |r.checks| && ConsumeAll(UnsweptAt(before, window), r.checks[..k], r.now, window).1 == Allowed
  }

  /** The k-th check is reached, and its key has a bucket that still runs but has been removed by a sweep. */
  predicate Misses(before: seq<Request>, r: Request, window: int, k: nat) {
    && ReachesCheck(before, r, window, k)
    && Live(ConsumeAll(UnsweptAt(before, window), r.checks[..k], r.now, window).0, r.checks[k].key, r.now)
    && r.checks[k].key !in ConsumeAll(SweptAt(before, r, window), r.checks[..k], r.now, window).0
  }

  ghost predicate Missed(requests: seq<Request>, window: int) {
    exists n, k :: 0 <= n < |requests| && Misses(requests[..n], requests[n], window, k)
  }

  /** The limiter and the one without a sweep have given the same verdicts. */
  ghost predicate Alike(requests: seq<Request>, window: int) {
    HandleAll(requests, window).1 == Unswept(requests, window).1
  }

  /** One check of a request, alone and at its time, j times more. */
  function Repeats(c: Check, now: int, j: nat): seq<Request> {
    if j == 0 then [] else Repeats(c, now, j - 1) + [Request(now, [c])]
  }

  // ---------- without a miss the limiters agree ----------

  /** The swept buckets are some of the unswept ones. */
  ghost predicate Part(swept: Buckets, unswept: Buckets) {
    forall key :: key in swept ==> key in unswept && unswept[key] == swept[key]
  }

  lemma ConsumePart(a: Buckets, b: Buckets, c: Check, now: int, window: int)
    requires Part(a, b) && (Live(b, c.key, now) ==> c.key in a)
    ensures Consume(a, c, now, window).1 == Consume(b, c, now, window).1
    ensures Part(Consume(a, c, now, window).0, Consume(b, c, now, window).0)
    ensures c.key in Consume(a, c, now, window).0
  {
  }

  lemma TakeTake(checks: seq<Check>, k: nat)
    requires 0 < k <= |checks|
    ensures checks[..k][..k - 1] == checks[..k - 1] && checks[..k][k - 1] == checks[k - 1]
  {
  }

  /** No check before the k-th misses its bucket. */
  ghost predicate NoMissBefore(before: seq<Request>, r: Request, window: int, k: nat) {
    forall i :: 0 <= i < k ==> !Misses(before, r, window, i)
  }

  lemma {:induction false} ChecksPart(before: seq<Request>, r: Request, window: int, k: nat)
    requires k <= |r.checks| && NoMissBefore(before, r, window, k)
    requires Part(SweptAt(before, r, window), UnsweptAt(before, window))
    ensures var a := ConsumeAll(SweptAt(before, r, window), r.checks[..k], r.now, window);
      var b := ConsumeAll(UnsweptAt(before, window), r.checks[..k], r.now, window);
      a.1 == b.1 && Part(a.0, b.0)
    decreases k
  {
    if k > 0 {
      TakeTake(r.checks, k);
      ChecksPart(before, r, window, k - 1);
      var a := ConsumeAll(SweptAt(before, r, window), r.checks[..k - 1], r.now, window);
      var b := ConsumeAll(UnsweptAt(before, window), r.checks[..k - 1], r.now, window);
      if b.1 == Allowed {
        assert !Misses(before, r, window, k - 1);
        ConsumePart(a.0, b.0, r.checks[k - 1], r.now, window);
      }
    }
  }

  lemma HandleParts(before: seq<Request>, r: Request, window: int)
    ensures HandleAll(before + [r], window).0.buckets
        == ConsumeAll(SweptAt(before, r, window), r.checks, r.now, window).0
    ensures HandleAll(before + [r], window).1
        == HandleAll(before, window).1 + [ConsumeAll(SweptAt(before, r, window), r.checks, r.now, window).1]
    ensures HandleAll(before + [r], window).0.lastSweep == Sweep(HandleAll(before, window).0, r.now, window).lastSweep
    ensures UnsweptAt(before + [r], window) == ConsumeAll(UnsweptAt(before, window), r.checks, r.now, window).0
    ensures Unswept(before + [r], window).1
        == Unswept(before, window).1 + [ConsumeAll(UnsweptAt(before, window), r.checks, r.now, window).1]
  {
    assert (before + [r])[..|before|] == before;
  }

  lemma MissedInit(requests: seq<Request>, r: Request, window: int)
    ensures Missed(requests + [r], window) <==> Missed(requests, window) || exists k :: Misses(requests, r, window, k)
  {
    var all := requests + [r];
    assert all[..|requests|] == requests && all[|requests|] == r;
    forall n | 0 <= n < |requests| ensures all[..n] == requests[..n] && all[n] == requests[n] {
    }
    if Missed(requests, window) {
      var n, k :| 0 <= n < |requests| && Misses(requests[..n], requests[n], window, k);
      assert Misses(all[..n], all[n], window, k);
    }
    if k :| Misses(requests, r, window, k) {
      assert Misses(all[..|requests|], all[|requests|], window, k);
    }
  }

  lemma {:induction false} NoMissAlike(requests: seq<Request>, window: int)
    requires !Missed(requests, window)
    ensures Alike(requests, window) && Part(HandleAll(requests, window).0.buckets, UnsweptAt(requests, window))
  {
    if requests != [] {
      var init, r := requests[..|requests| - 1], requests[|requests| - 1];
      assert requests == init + [r];
      MissedInit(init, r, window);
      NoMissAlike(init, window);
      ChecksPart(init, r, window, |r.checks|);
      assert r.checks[..|r.checks|] == r.checks;
      HandleParts(init, r, window);
    }
  }

  // ---------- repeating a check without a miss ----------

  lemma {:induction false} KeysStay(buckets: Buckets, checks: seq<Check>, k: nat, now: int, window: int, key: string)
    requires k <= |checks| && key in ConsumeAll(buckets, checks[..k], now, window).0
    ensures key in ConsumeAll(buckets, checks, now, window).0
    decreases |checks|
  {
    if k == |checks| {
      assert checks[..k] == checks;
    } else {
      assert checks[..|checks| - 1][..k] == checks[..k];
      KeysStay(buckets, checks[..|checks| - 1], k, now, window, key);
    }
  }

  /** A check that was reached and did not miss leaves its key in the swept buckets. */
  lemma ReachedIsHeld(before: seq<Request>, r: Request, window: int, k: nat)
    requires !Missed(before + [r], window) && ReachesCheck(before, r, window, k)
    ensures r.checks[k].key in HandleAll(before + [r], window).0.buckets
  {
    MissedInit(before, r, window);
    NoMissAlike(before, window);
    assert !Misses(before, r, window, k);
    ChecksPart(before, r, window, k);
    ConsumePart(ConsumeAll(SweptAt(before, r, window), r.checks[..k], r.now, window).0,
                ConsumeAll(UnsweptAt(before, window), r.checks[..k], r.now, window).0, r.checks[k], r.now, window);
    TakeTake(r.checks, k + 1);
    KeysStay(SweptAt(before, r, window), r.checks, k + 1, r.now, window, r.checks[k].key);
    HandleParts(before, r, window);
  }

  /** Nothing is swept at the time of the last request. */
  lemma NoSweepNow(requests: seq<Request>, c: Check, window: int)
    requires requests != [] && window >= 1
    ensures var r := Request(requests[|requests| - 1].now, [c]);
      Sweep(HandleAll(requests, window).0, r.now, window) == HandleAll(requests, window).0
  {
    var init, last := requests[..|requests| - 1], requests[|requests| - 1];
    assert requests == init + [last];
    HandleParts(init, last, window);
  }

  lemma LastOfRepeats(requests: seq<Request>, c: Check, now: int, j: nat)
    requires requests != [] && requests[|requests| - 1].now == now
    ensures var all := requests + Repeats(c, now, j); all != [] && all[|all| - 1].now == now
  {
  }

  lemma RepeatsAppend(requests: seq<Request>, c: Check, now: int, j: nat)
    ensures requests + Repeats(c, now, j + 1) == (requests + Repeats(c, now, j)) + [Request(now, [c])]
  {
  }

  lemma HeldRepeats(requests: seq<Request>, c: Check, window: int)
    requires requests != [] && window >= 1 && !Missed(requests, window)
    requires c.key in HandleAll(requests, window).0.buckets
    ensures var more := requests + [Request(requests[|requests| - 1].now, [c])];
      !Missed(more, window) && c.key in HandleAll(more, window).0.buckets
  {
    var r := Request(requests[|requests| - 1].now, [c]);
    NoSweepNow(requests, c, window);
    MissedInit(requests, r, window);
    assert r.checks[..0] == [];
    HandleParts(requests, r, window);
    OneCheck(SweptAt(requests, r, window), c, r.now, window);
  }

  lemma {:induction false} RepeatsDoNotMiss(requests: seq<Request>, c: Check, window: int, j: nat)
    requires requests != [] && window >= 1 && !Missed(requests, window)
    requires c.key in HandleAll(requests, window).0.buckets
    ensures var all := requests + Repeats(c, requests[|requests| - 1].now, j);
      !Missed(all, window) && c.key in HandleAll(all, window).0.buckets
    decreases j
  {
    var now := requests[|requests| - 1].now;
    if j == 0 {
      assert requests + Repeats(c, now, 0) == requests;
    } else {
      RepeatsDoNotMiss(requests, c, window, j - 1);
      LastOfRepeats(requests, c, now, j - 1);
      RepeatsAppend(requests, c, now, j - 1);
      HeldRepeats(requests + Repeats(c, now, j - 1), c, window);
    }
  }

  // ---------- what a miss does ----------

  lemma {:induction false} FirstMiss(requests: seq<Request>, window: int) returns (n: nat, k: nat)
    requires Missed(requests, window)
    ensures n < |requests| && Misses(requests[..n], requests[n], window, k) && !Missed(requests[..n], window)
    ensures NoMissBefore(requests[..n], requests[n], window, k)
  {
    var init, r := requests[..|requests| - 1], requests[|requests| - 1];
    assert requests == init + [r];
    MissedInit(init, r, window);
    if Missed(init, window) {
      n, k := FirstMiss(init, window);
      assert init[..n] == requests[..n];
    } else {
      n := |init|;
      var some :| Misses(init, r, window, some);
      k := LeastMiss(init, r, window, some);
    }
  }

  lemma {:induction false} LeastMiss(before: seq<Request>, r: Request, window: int, k: nat) returns (least: nat)
    requires Misses(before, r, window, k)
    ensures Misses(before, r, window, least) && NoMissBefore(before, r, window, least)
  {
    if NoMissBefore(before, r, window, k) {
      least := k;
    } else {
      var i :| 0 <= i < k && Misses(before, r, window, i);
      least := LeastMiss(before, r, window, i);
    }
  }

  /** Buckets are only made by a use. */
  ghost predicate Used(buckets: Buckets) {
    forall key :: key in buckets ==> buckets[key].count >= 1
  }

  lemma {:induction false} ConsumeAllUsed(buckets: Buckets, checks: seq<Check>, now: int, window: int)
    requires Used(buckets)
    ensures Used(ConsumeAll(buckets, checks, now, window).0)
  {
    if checks != [] {
      ConsumeAllUsed(buckets, checks[..|checks| - 1], now, window);
    }
  }

  lemma {:induction false} UnsweptUsed(requests: seq<Request>, window: int)
    ensures Used(UnsweptAt(requests, window))
  {
    if requests != [] {
      var init, r := requests[..|requests| - 1], requests[|requests| - 1];
      UnsweptUsed(init, window);
      ConsumeAllUsed(UnsweptAt(init, window), r.checks, r.now, window);
    }
  }

  /** Where the k-th check misses: the limiter starts a new bucket, the other one goes on with the running one. */
  ghost predicate Parted(swept: Buckets, unswept: Buckets, c: Check, now: int) {
    && Live(swept, c.key, now) && Live(unswept, c.key, now)
    && 1 <= swept[c.key].count < unswept[c.key].count <= c.limit
  }

  /** The checks after the k-th of a request with separate keys and actions leave its key alone. */
  lemma LaterChecks(buckets: Buckets, checks: seq<Check>, k: nat, now: int, window: int)
    requires k < |checks| && Separate(checks)
    requires ConsumeAll(buckets, checks[..k + 1], now, window).1 == Allowed
    ensures var at := ConsumeAll(buckets, checks[..k + 1], now, window);
      var after := ConsumeAll(buckets, checks, now, window);
      && (checks[k].key in after.0 <==> checks[k].key in at.0)
      && (checks[k].key in at.0 ==> after.0[checks[k].key] == at.0[checks[k].key])
      && (after.1.Limited? ==> after.1.action != checks[k].action)
  {
    LaterChecksUpTo(buckets, checks, k, |checks|, now, window);
    assert checks[..|checks|] == checks;
  }

  lemma {:induction false} LaterChecksUpTo(buckets: Buckets, checks: seq<Check>, k: nat, m: nat, now: int, window: int)
    requires k < m <= |checks| && Separate(checks)
    requires ConsumeAll(buckets, checks[..k + 1], now, window).1 == Allowed
    ensures var at := ConsumeAll(buckets, checks[..k + 1], now, window);
      var after := ConsumeAll(buckets, checks[..m], now, window);
      && (checks[k].key in after.0 <==> checks[k].key in at.0)
      && (checks[k].key in at.0 ==> after.0[checks[k].key] == at.0[checks[k].key])
      && (after.1.Limited? ==> after.1.action != checks[k].action)
    decreases m
  {
    if m > k + 1 {
      LaterChecksUpTo(buckets, checks, k, m - 1, now, window);
      TakeTake(checks, m);
      ConsumeFrame(ConsumeAll(buckets, checks[..m - 1], now, window).0, checks[m - 1], now, window, checks[k].key);
    }
  }

  lemma {:induction false} RefusedStays(buckets: Buckets, checks: seq<Check>, k: nat, now: int, window: int)
    requires k < |checks| && ConsumeAll(buckets, checks[..k + 1], now, window).1 != Allowed
    ensures ConsumeAll(buckets, checks, now, window) == ConsumeAll(buckets, checks[..k + 1], now, window)
  {
    Stops(buckets, checks, now, window, k + 1);
  }

  /** The check itself, from buckets that agree but for the missed one. */
  lemma MissedCheck(a: Buckets, b: Buckets, c: Check, now: int, window: int)
    requires Part(a, b) && Used(b) && Live(b, c.key, now) && c.key !in a && window >= 1
    ensures Consume(a, c, now, window).1 == Allowed
    ensures b[c.key].count >= c.limit ==>
        Consume(b, c, now, window).1.Limited? && Consume(b, c, now, window).1.action == c.action
    ensures b[c.key].count < c.limit ==>
        && Consume(b, c, now, window).1 == Allowed
        && Parted(Consume(a, c, now, window).0, Consume(b, c, now, window).0, c, now)
  {
  }

  /** After the request that misses first, the verdicts differ already, or the buckets of that key have parted. */
  lemma MissParts(before: seq<Request>, r: Request, window: int, k: nat)
    requires window >= 1 && Separate(r.checks) && !Missed(before, window)
    requires Misses(before, r, window, k) && NoMissBefore(before, r, window, k)
    ensures !Alike(before + [r], window)
      || Parted(HandleAll(before + [r], window).0.buckets, UnsweptAt(before + [r], window), r.checks[k], r.now)
  {
    var s, u, c := SweptAt(before, r, window), UnsweptAt(before, window), r.checks[k];
    NoMissAlike(before, window);
    HandleParts(before, r, window);
    UnsweptUsed(before, window);
    ConsumeAllUsed(u, r.checks[..k], r.now, window);
    ChecksPart(before, r, window, k);
    TakeTake(r.checks, k + 1);
    MissedCheck(ConsumeAll(s, r.checks[..k], r.now, window).0, ConsumeAll(u, r.checks[..k], r.now, window).0, c, r.now,
                window);
    LaterChecks(s, r.checks, k, r.now, window);
    if ConsumeAll(u, r.checks[..k + 1], r.now, window).1 == Allowed {
      LaterChecks(u, r.checks, k, r.now, window);
    } else {
      RefusedStays(u, r.checks, k, r.now, window);
      DifferentLast(HandleAll(before, window).1, ConsumeAll(s, r.checks, r.now, window).1, Unswept(before, window).1,
                    ConsumeAll(u, r.checks, r.now, window).1);
    }
  }

  lemma DifferentLast(a: seq<Verdict>, x: Verdict, b: seq<Verdict>, y: Verdict)
    requires x != y
    ensures a + [x] != b + [y]
  {
    if |a| == |b| {
      assert (a + [x])[|a|] != (b + [y])[|a|];
    }
  }

  /** From there on repeating the check comes to a verdict that differs. */
  lemma RepeatParted(requests: seq<Request>, c: Check, window: int)
    requires requests != [] && window >= 1
    requires var now := requests[|requests| - 1].now;
      Parted(HandleAll(requests, window).0.buckets, UnsweptAt(requests, window), c, now)
    ensures var now := requests[|requests| - 1].now;
      var more, count := requests + [Request(now, [c])], UnsweptAt(requests, window)[c.key].count;
      && (count == c.limit ==> !Alike(more, window))
      && (count != c.limit ==>
        Parted(HandleAll(more, window).0.buckets, UnsweptAt(more, window), c, now)
        && UnsweptAt(more, window)[c.key].count == count + 1)
  {
    var r := Request(requests[|requests| - 1].now, [c]);
    var s, u := HandleAll(requests, window).0.buckets, UnsweptAt(requests, window);
    NoSweepNow(requests, c, window);
    HandleParts(requests, r, window);
    OneCheck(s, c, r.now, window);
    OneCheck(u, c, r.now, window);
    if u[c.key].count == c.limit {
      DifferentLast(HandleAll(requests, window).1, Consume(s, c, r.now, window).1, Unswept(requests, window).1,
                    Consume(u, c, r.now, window).1);
    }
  }

  lemma {:induction false} PartedShows(requests: seq<Request>, c: Check, window: int) returns (j: nat)
    requires requests != [] && window >= 1
    requires Parted(HandleAll(requests, window).0.buckets, UnsweptAt(requests, window), c, requests[|requests| - 1].now)
    ensures !Alike(requests + Repeats(c, requests[|requests| - 1].now, j), window)
    decreases c.limit - UnsweptAt(requests, window)[c.key].count
  {
    var now := requests[|requests| - 1].now;
    var more := requests + [Request(now, [c])];
    RepeatParted(requests, c, window);
    if UnsweptAt(requests, window)[c.key].count == c.limit {
      j := 1;
      assert Repeats(c, now, 0) == [] && Repeats(c, now, 1) == [Request(now, [c])];
    } else {
      var i := PartedShows(more, c, window);
      j := i + 1;
      RepeatsCons(c, now, i);
      assert more + Repeats(c, now, i) == requests + ([Request(now, [c])] + Repeats(c, now, i));
    }
  }

  lemma {:induction false} RepeatsCons(c: Check, now: int, j: nat)
    ensures Repeats(c, now, j + 1) == [Request(now, [c])] + Repeats(c, now, j)
  {
    if j > 0 {
      RepeatsCons(c, now, j - 1);
    } else {
      assert Repeats(c, now, 0) == [] && Repeats(c, now, 1) == [] + [Request(now, [c])];
    }
  }

  // ---------- main result ----------

  /** After the n-th request, its k-th check was reached, and repeating it never tells the limiters apart. */
  ghost predicate EchoesAlike(requests: seq<Request>, window: int, n: nat, k: nat)
    requires n < |requests| && k < |requests[n].checks|
  {
    forall j: nat :: Alike(requests[..n + 1] + Repeats(requests[n].checks[k], requests[n].now, j), window)
  }

  ghost predicate NeverTold(requests: seq<Request>, window: int) {
    forall n, k :: 0 <= n < |requests| && 0 <= k && ReachesCheck(requests[..n], requests[n], window, k) ==>
      EchoesAlike(requests, window, n, k)
  }

  lemma NoMissPrefix(requests: seq<Request>, window: int, n: nat)
    requires n <= |requests| && !Missed(requests, window)
    ensures !Missed(requests[..n], window)
  {
    forall i, k | 0 <= i < n ensures !Misses(requests[..n][..i], requests[..n][i], window, k) {
      assert requests[..n][..i] == requests[..i];
      assert !Misses(requests[..i], requests[i], window, k);
    }
  }

  /**
   Exactly when the sweep has made a difference, for requests at any times in any order: the verdicts so far, and
   those on repeating at its time any check that was reached, are those of a limiter that never sweeps, if and
   only if no check named a key whose bucket was still running and had been removed by a sweep. What differs
   later, differs after such a miss.
   */
  lemma ToldApartIff(requests: seq<Request>, window: int)
    requires window >= 1 && forall n :: 0 <= n < |requests| ==> Separate(requests[n].checks)
    ensures NeverTold(requests, window) <==> !Missed(requests, window)
    ensures !Missed(requests, window) ==> Alike(requests, window)
  {
    if Missed(requests, window) {
      var n, k := FirstMiss(requests, window);
      var upTo, c, now := requests[..n + 1], requests[n].checks[k], requests[n].now;
      assert upTo == requests[..n] + [requests[n]];
      MissParts(requests[..n], requests[n], window, k);
      if !Alike(upTo, window) {
        assert upTo + Repeats(c, now, 0) == upTo;
      } else {
        var j := PartedShows(upTo, c, window);
      }
    } else {
      NoMissAlike(requests, window);
      forall n, k | 0 <= n < |requests| && 0 <= k && ReachesCheck(requests[..n], requests[n], window, k)
        ensures EchoesAlike(requests, window, n, k)
      {
        EchoesWithoutMiss(requests, window, n, k);
      }
    }
  }

  lemma EchoesWithoutMiss(requests: seq<Request>, window: int, n: nat, k: nat)
    requires window >= 1 && !Missed(requests, window)
    requires n < |requests| && ReachesCheck(requests[..n], requests[n], window, k)
    ensures EchoesAlike(requests, window, n, k)
  {
    var upTo := requests[..n + 1];
    assert upTo == requests[..n] + [requests[n]];
    NoMissPrefix(requests, window, n + 1);
    ReachedIsHeld(requests[..n], requests[n], window, k);
    forall j: nat ensures Alike(upTo + Repeats(requests[n].checks[k], requests[n].now, j), window) {
      RepeatsDoNotMiss(upTo, requests[n].checks[k], window, j);
      NoMissAlike(upTo + Repeats(requests[n].checks[k], requests[n].now, j), window);
    }
  }

  // ---------- what a refusal says ----------

  /** The seconds a refusal names are the least number after which the bucket that refused no longer runs. */
  lemma RetryIsExact(buckets: Buckets, c: Check, now: int, window: int)
    requires Consume(buckets, c, now, window).1.Limited?
    ensures var seconds := Consume(buckets, c, now, window).1.retryAfterSeconds;
      && Consume(buckets, c, now, window).0 == buckets && seconds >= 1
      && (forall later :: later >= now + 1000 * seconds ==> Consume(buckets, c, later, window).1 == Allowed)
      && Consume(buckets, c, now + 1000 * (seconds - 1), window).1.Limited?
  {
  }

  /** The bucket of a key is running and has let its limit through. */
  predicate IsFull(buckets: Buckets, key: string, limit: int, now: int) {
    key in buckets && now < buckets[key].resetAt && limit <= buckets[key].count
  }

  /** How one more use of a key is counted: in its running bucket, or as the first of a new one. */
  function WithUse(buckets: Buckets, key: string, now: int, window: int): Buckets {
    if key in buckets && now < buckets[key].resetAt
    then buckets[key := Bucket(buckets[key].count + 1, buckets[key].resetAt)]
    else buckets[key := Bucket(1, now + window)]
  }

  lemma ConsumeIs(buckets: Buckets, c: Check, now: int, window: int)
    ensures var full := IsFull(buckets, c.key, c.limit, now);
      && (full ==> Consume(buckets, c, now, window).0 == buckets)
      && (full <==> Consume(buckets, c, now, window).1.Limited?)
      && (full ==> Consume(buckets, c, now, window).1.action == c.action)
      && (!full ==> Consume(buckets, c, now, window) == (WithUse(buckets, c.key, now, window), Allowed))
  {
  }

  lemma ThreeChecks(buckets: Buckets, a: Check, b: Check, c: Check, now: int, window: int)
    ensures var one := Consume(buckets, a, now, window);
      var two := if one.1 != Allowed then one else Consume(one.0, b, now, window);
      var three := if two.1 != Allowed then two else Consume(two.0, c, now, window);
      ConsumeAll(buckets, [a, b, c], now, window) == three
  {
    var none: seq<Check> := [];
    assert [a, b, c][..2] == [a, b] && [a, b][..1] == [a] && [a][..0] == none;
    assert ConsumeAll(buckets, none, now, window) == (buckets, Allowed);
    assert ConsumeAll(buckets, [a], now, window) == Consume(buckets, a, now, window);
  }

  /**
   What decides a report: first the bucket of its signer and address, then that of its service, then that of its payer
   with the service, each against its own limit. The first that is full refuses it, and the uses counted before stay.
   */
  lemma ReportDecidedBy(buckets: Buckets, limits: Limits, signer: string, ip: string, service: string, payer: string,
                        now: int, window: int)
    ensures var signerKey := "x402:signer:" + signer + ":" + ip;
      var serviceKey, payerKey := "x402:service:" + service, "x402:payer_service:" + service + ":" + payer;
      var (after, verdict) := ConsumeAll(buckets, SettlementChecks(limits, signer, ip, service, payer), now, window);
      var one := WithUse(buckets, signerKey, now, window);
      var two := WithUse(one, serviceKey, now, window);
      var bySigner := IsFull(buckets, signerKey, limits.signer, now);
      var byService := !bySigner && IsFull(buckets, serviceKey, limits.service, now);
      var byPayer := !bySigner && !byService && IsFull(buckets, payerKey, limits.payerService, now);
      && (bySigner <==> verdict.Limited? && verdict.action == Signer)
      && (byService <==> verdict.Limited? && verdict.action == Service)
      && (byPayer <==> verdict.Limited? && verdict.action == PayerService)
      && after == if bySigner then buckets else if byService then one else if byPayer then two
                  else WithUse(two, payerKey, now, window)
  {
    var checks := SettlementChecks(limits, signer, ip, service, payer);
    SettlementChecksAreSeparate(limits, signer, ip, service, payer);
    ThreeChecks(buckets, checks[0], checks[1], checks[2], now, window);
    assert checks == [checks[0], checks[1], checks[2]];
    assert checks[0].key != checks[1].key && checks[0].key != checks[2].key && checks[1].key != checks[2].key;
    var one := WithUse(buckets, checks[0].key, now, window);
    ConsumeIs(buckets, checks[0], now, window);
    ConsumeIs(one, checks[1], now, window);
    ConsumeIs(WithUse(one, checks[1].key, now, window), checks[2], now, window);
  }
}
