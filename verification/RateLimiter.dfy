/** The windowed limiter of lib/x402-rate-limit.ts, with and without its sweep of expired buckets. */
module RateLimiter {
  import opened Common
  import opened X402Keys

  datatype Bucket = Bucket(count: int, resetAt: int)

  type Buckets = map<string, Bucket>

  datatype Action = Signer | Service | PayerService

  /** One of the checks of a request: what it is about, a key, and how often the key may be used per window. */
  datatype Check = Check(action: Action, key: string, limit: int)

  datatype Request = Request(now: int, checks: seq<Check>)

  datatype Verdict = Allowed | Limited(action: Action, retryAfterSeconds: int)

  datatype Memory = Memory(buckets: Buckets, lastSweep: int)

  const START: Memory := Memory(map[], 0)

  predicate Live(buckets: Buckets, key: string, now: int) {
    key in buckets && buckets[key].resetAt > now
  }

  function RetryAfter(b: Bucket, now: int): int {
    Max(1, (b.resetAt - now + 999) / 1000)
  }

  /** sweepExpiredBuckets. */
  function Sweep(m: Memory, now: int, window: int): Memory {
    if now - m.lastSweep < window then m
    else Memory(map k | k in m.buckets && m.buckets[k].resetAt > now :: m.buckets[k], now)
  }

  /** consumeBucket. */
  function Consume(buckets: Buckets, c: Check, now: int, window: int): (Buckets, Verdict) {
    if !Live(buckets, c.key, now) then (buckets[c.key := Bucket(1, now + window)], Allowed)
    else
      var b := buckets[c.key];
      if b.count >= c.limit then (buckets, Limited(c.action, RetryAfter(b, now)))
      else (buckets[c.key := b.(count := b.count + 1)], Allowed)
  }

  /** The checks of a request in turn; the first that fails ends it, what was consumed before stays consumed. */
  function ConsumeAll(buckets: Buckets, checks: seq<Check>, now: int, window: int): (Buckets, Verdict) {
    if checks == [] then (buckets, Allowed)
    else
      var (after, verdict) := ConsumeAll(buckets, checks[..|checks| - 1], now, window);
      if verdict != Allowed then (after, verdict) else Consume(after, checks[|checks| - 1], now, window)
  }

  /** consumeX402SettlementRateLimit. */
  function Handle(m: Memory, r: Request, window: int): (Memory, Verdict) {
    var swept := Sweep(m, r.now, window);
    var (buckets, verdict) := ConsumeAll(swept.buckets, r.checks, r.now, window);
    (swept.(buckets := buckets), verdict)
  }

  function HandleAll(requests: seq<Request>, window: int): (Memory, seq<Verdict>) {
    if requests == [] then (START, [])
    else
      var (m, verdicts) := HandleAll(requests[..|requests| - 1], window);
      var (m', v) := Handle(m, requests[|requests| - 1], window);
      (m', verdicts + [v])
  }

  /** The same limiter without any sweep. */
  function Unswept(requests: seq<Request>, window: int): (Buckets, seq<Verdict>) {
    if requests == [] then (map[], [])
    else
      var r := requests[|requests| - 1];
      var (buckets, verdicts) := Unswept(requests[..|requests| - 1], window);
      var (after, v) := ConsumeAll(buckets, r.checks, r.now, window);
      (after, verdicts + [v])
  }

  class Limiter {
    var buckets: Buckets
    var lastSweep: int

    constructor ()
      ensures State() == START
    {
      buckets, lastSweep := map[], 0;
    }

    function State(): Memory
      reads this
    {
      Memory(buckets, lastSweep)
    }

    method SweepExpiredBuckets(now: int, window: int)
      modifies this
      ensures State() == Sweep(old(State()), now, window)
    {
      if now - lastSweep < window {
        return;
      }
      lastSweep := now;
      ghost var before := buckets;
      var keys := buckets.Keys;
      while keys != {}
        invariant keys <= before.Keys
        invariant buckets == map k | k in before && (k in keys || before[k].resetAt > now) :: before[k]
        invariant lastSweep == now
        decreases |keys|
      {
        var key :| key in keys;
        if buckets[key].resetAt <= now {
          buckets := buckets - {key};
        }
        keys := keys - {key};
      }
    }

    method ConsumeBucket(c: Check, now: int, window: int) returns (verdict: Verdict)
      modifies this`buckets
      ensures (buckets, verdict) == Consume(old(buckets), c, now, window)
    {
      if c.key !in buckets || buckets[c.key].resetAt <= now {
        buckets := buckets[c.key := Bucket(1, now + window)];
        return Allowed;
      }
      var existing := buckets[c.key];
      if existing.count >= c.limit {
        return Limited(c.action, RetryAfter(existing, now));
      }
      buckets := buckets[c.key := existing.(count := existing.count + 1)];
      verdict := Allowed;
    }

    method ConsumeSettlement(r: Request, window: int) returns (verdict: Verdict)
      modifies this
      ensures (State(), verdict) == Handle(old(State()), r, window)
    {
      SweepExpiredBuckets(r.now, window);
      ghost var swept := buckets;
      for k := 0 to |r.checks|
        invariant lastSweep == Sweep(old(State()), r.now, window).lastSweep
        invariant ConsumeAll(swept, r.checks[..k], r.now, window) == (buckets, Allowed)
      {
        assert r.checks[..k + 1][..k] == r.checks[..k];
        verdict := ConsumeBucket(r.checks[k], r.now, window);
        if verdict != Allowed {
          Stops(swept, r.checks, r.now, window, k + 1);
          return;
        }
      }
      assert r.checks[..|r.checks|] == r.checks;
      verdict := Allowed;
    }
  }

  lemma {:induction false} Stops(buckets: Buckets, checks: seq<Check>, now: int, window: int, n: nat)
    requires n <= |checks| && ConsumeAll(buckets, checks[..n], now, window).1 != Allowed
    ensures ConsumeAll(buckets, checks, now, window) == ConsumeAll(buckets, checks[..n], now, window)
    decreases |checks|
  {
    if n == |checks| {
      assert checks[..n] == checks;
    } else {
      assert checks[..|checks| - 1][..n] == checks[..n];
      Stops(buckets, checks[..|checks| - 1], now, window, n);
    }
  }

  // ---------- sweeping changes no decision ----------

  ghost predicate Chronological(requests: seq<Request>) {
    forall i, j :: 0 <= i < j < |requests| ==> requests[i].now <= requests[j].now
  }

  /** The swept buckets are the unswept ones, less some that have expired by `now`. */
  ghost predicate Refines(swept: Buckets, unswept: Buckets, now: int) {
    && (forall k :: k in swept ==> k in unswept && unswept[k] == swept[k])
    && (forall k :: k in unswept && k !in swept ==> unswept[k].resetAt <= now)
  }

  lemma ConsumeRefines(a: Buckets, b: Buckets, c: Check, now: int, window: int)
    requires Refines(a, b, now)
    ensures Consume(a, c, now, window).1 == Consume(b, c, now, window).1
    ensures Refines(Consume(a, c, now, window).0, Consume(b, c, now, window).0, now)
  {
  }

  lemma {:induction false} ConsumeAllRefines(a: Buckets, b: Buckets, checks: seq<Check>, now: int, window: int)
    requires Refines(a, b, now)
    ensures ConsumeAll(a, checks, now, window).1 == ConsumeAll(b, checks, now, window).1
    ensures Refines(ConsumeAll(a, checks, now, window).0, ConsumeAll(b, checks, now, window).0, now)
  {
    if checks != [] {
      var init := checks[..|checks| - 1];
      ConsumeAllRefines(a, b, init, now, window);
      ConsumeRefines(ConsumeAll(a, init, now, window).0, ConsumeAll(b, init, now, window).0, checks[|checks| - 1], now,
                     window);
    }
  }

  lemma SweepRefines(m: Memory, b: Buckets, before: int, now: int, window: int)
    requires Refines(m.buckets, b, before) && before <= now
    ensures Refines(Sweep(m, now, window).buckets, b, now)
  {
  }

  function LastTime(requests: seq<Request>): int {
    if requests == [] then 0 else requests[|requests| - 1].now
  }

  /** For requests in time order the limiter with the sweep decides exactly like one that never sweeps. */
  lemma {:induction false} SweepIsInvisible(requests: seq<Request>, window: int)
    requires Chronological(requests)
    ensures HandleAll(requests, window).1 == Unswept(requests, window).1
    ensures requests != [] ==>
        Refines(HandleAll(requests, window).0.buckets, Unswept(requests, window).0, LastTime(requests))
  {
    if requests != [] {
      var init, r := requests[..|requests| - 1], requests[|requests| - 1];
      SweepIsInvisible(init, window);
      var m, b := HandleAll(init, window).0, Unswept(init, window).0;
      if init == [] {
        assert Refines(m.buckets, b, r.now);
        SweepRefines(m, b, r.now, r.now, window);
      } else {
        SweepRefines(m, b, LastTime(init), r.now, window);
      }
      ConsumeAllRefines(Sweep(m, r.now, window).buckets, b, r.checks, r.now, window);
    }
  }

  // ---------- a request out of time order ----------

  /** What the sweeps have left: the buckets that run beyond the last sweep. */
  function Remaining(unswept: Buckets, lastSweep: int): Buckets {
    map k | k in unswept && unswept[k].resetAt > lastSweep :: unswept[k]
  }

  lemma ConsumeRemains(b: Buckets, lastSweep: int, c: Check, now: int, window: int)
    requires lastSweep <= now && window >= 1
    ensures Consume(Remaining(b, lastSweep), c, now, window)
        == (Remaining(Consume(b, c, now, window).0, lastSweep), Consume(b, c, now, window).1)
  {
    assert Consume(Remaining(b, lastSweep), c, now, window).0 == Remaining(Consume(b, c, now, window).0, lastSweep);
  }

  lemma {:induction false} ConsumeAllRemains(b: Buckets, lastSweep: int, checks: seq<Check>, now: int, window: int)
    requires lastSweep <= now && window >= 1
    ensures ConsumeAll(Remaining(b, lastSweep), checks, now, window)
        == (Remaining(ConsumeAll(b, checks, now, window).0, lastSweep), ConsumeAll(b, checks, now, window).1)
  {
    if checks != [] {
      var init := checks[..|checks| - 1];
      ConsumeAllRemains(b, lastSweep, init, now, window);
      ConsumeRemains(ConsumeAll(b, init, now, window).0, lastSweep, checks[|checks| - 1], now, window);
    }
  }

  lemma SweepRemains(m: Memory, b: Buckets, now: int, window: int)
    requires m.buckets == Remaining(b, m.lastSweep) && m.lastSweep <= now
    ensures Sweep(m, now, window).buckets == Remaining(b, Sweep(m, now, window).lastSweep)
    ensures Sweep(m, now, window).lastSweep <= now
  {
  }

  /** Times are clock readings, and none is earlier than the one before it. */
  ghost predicate Clocked(requests: seq<Request>) {
    Chronological(requests) && forall n :: 0 <= n < |requests| ==> requests[n].now >= 0
  }

  /** In time order the limiter holds exactly the buckets that run beyond its last sweep. */
  lemma {:induction false} RemainingExactly(requests: seq<Request>, window: int)
    requires Clocked(requests) && window >= 1
    ensures var m := HandleAll(requests, window).0;
      m.buckets == Remaining(Unswept(requests, window).0, m.lastSweep) && 0 <= m.lastSweep <= LastTime(requests)
  {
    if requests != [] {
      var init, r := requests[..|requests| - 1], requests[|requests| - 1];
      RemainingExactly(init, window);
      var m, b := HandleAll(init, window).0, Unswept(init, window).0;
      if init != [] {
        assert init[|init| - 1].now <= r.now;
      }
      SweepRemains(m, b, r.now, window);
      ConsumeAllRemains(b, Sweep(m, r.now, window).lastSweep, r.checks, r.now, window);
    }
  }

  /** Different checks of a request are about different things and use different keys. */
  ghost predicate Separate(checks: seq<Check>) {
    forall i, j :: 0 <= i < j < |checks| ==> checks[i].key != checks[j].key && checks[i].action != checks[j].action
  }

  /** The bucket has run out its limit and is still running, but a sweep at a later time has removed it. */
  predicate SweptFull(unswept: Buckets, c: Check, now: int, lastSweep: int) {
    c.key in unswept && now < unswept[c.key].resetAt <= lastSweep && unswept[c.key].count >= c.limit
  }

  /** The k-th check is reached, that is, the ones before it let the request through. */
  predicate Reaches(unswept: Buckets, r: Request, window: int, k: nat)
    requires k <= |r.checks|
  {
    ConsumeAll(unswept, r.checks[..k], r.now, window).1 == Allowed
  }

  /** The request meets a full bucket that the sweep has removed. */
  ghost predicate MeetsSweptFull(unswept: Buckets, r: Request, window: int, lastSweep: int) {
    exists k :: 0 <= k < |r.checks| && Reaches(unswept, r, window, k)
        && SweptFull(unswept, r.checks[k], r.now, lastSweep)
  }

  lemma ConsumeFrame(buckets: Buckets, c: Check, now: int, window: int, key: string)
    requires c.key != key
    ensures var after := Consume(buckets, c, now, window).0;
      (key in after <==> key in buckets) && (key in buckets ==> after[key] == buckets[key])
  {
  }

  lemma {:induction false} ConsumeAllFrame(buckets: Buckets, checks: seq<Check>, now: int, window: int, key: string)
    requires forall k :: 0 <= k < |checks| ==> checks[k].key != key
    ensures var after := ConsumeAll(buckets, checks, now, window).0;
      (key in after <==> key in buckets) && (key in buckets ==> after[key] == buckets[key])
  {
    if checks != [] {
      var init := checks[..|checks| - 1];
      ConsumeAllFrame(buckets, init, now, window, key);
      ConsumeFrame(ConsumeAll(buckets, init, now, window).0, checks[|checks| - 1], now, window, key);
    }
  }

  /** One check on a bucket that both, or only the unswept limiter, still has. */
  lemma CheckAlike(b: Buckets, lastSweep: int, swept: Buckets, unswept: Buckets, c: Check, now: int, window: int)
    requires (c.key in unswept <==> c.key in b) && (c.key in b ==> unswept[c.key] == b[c.key])
    requires var left := Remaining(b, lastSweep);
      (c.key in swept <==> c.key in left) && (c.key in left ==> swept[c.key] == left[c.key])
    ensures if SweptFull(b, c, now, lastSweep)
      then Consume(swept, c, now, window).1 == Allowed && Consume(unswept, c, now, window).1 != Allowed
      else Consume(swept, c, now, window).1 == Consume(unswept, c, now, window).1
  {
  }

  lemma SplitLast(checks: seq<Check>, c: Check)
    requires Separate(checks + [c])
    ensures Separate(checks) && forall k :: 0 <= k < |checks| ==> checks[k].key != c.key && checks[k].action != c.action
  {
    var all := checks + [c];
    assert all[|checks|] == c;
    assert forall k :: 0 <= k < |checks| ==> all[k] == checks[k];
  }

  /** A refusal names the action of one of the checks. */
  lemma {:induction false} RefusalNames(buckets: Buckets, checks: seq<Check>, now: int, window: int)
    ensures var v := ConsumeAll(buckets, checks, now, window).1;
      v.Limited? ==> exists k :: 0 <= k < |checks| && checks[k].action == v.action
  {
    if checks != [] {
      RefusalNames(buckets, checks[..|checks| - 1], now, window);
    }
  }

  lemma MeetsMore(b: Buckets, init: seq<Check>, c: Check, now: int, window: int, lastSweep: int)
    ensures MeetsSweptFull(b, Request(now, init + [c]), window, lastSweep) <==>
      || MeetsSweptFull(b, Request(now, init), window, lastSweep)
      || (ConsumeAll(b, init, now, window).1 == Allowed && SweptFull(b, c, now, lastSweep))
  {
    var r, r' := Request(now, init), Request(now, init + [c]);
    assert forall k :: 0 <= k <= |init| ==> (init + [c])[..k] == init[..k];
    assert init[..|init|] == init;
    forall k | 0 <= k < |init|
      ensures Reaches(b, r, window, k) == Reaches(b, r', window, k) && r.checks[k] == r'.checks[k]
    {
    }
    assert Reaches(b, r', window, |init|) == (ConsumeAll(b, init, now, window).1 == Allowed);
  }

  /** Either both limiters have said the same so far, or the unswept one has refused at a bucket the other misses. */
  lemma {:induction false} LateChecks(b: Buckets, lastSweep: int, checks: seq<Check>, now: int, window: int)
    requires Separate(checks)
    ensures var v := ConsumeAll(Remaining(b, lastSweep), checks, now, window).1;
      var u := ConsumeAll(b, checks, now, window).1;
      if MeetsSweptFull(b, Request(now, checks), window, lastSweep) then u != v && u != Allowed else u == v
  {
    if checks != [] {
      var init, c := checks[..|checks| - 1], checks[|checks| - 1];
      assert checks == init + [c];
      SplitLast(init, c);
      LateChecks(b, lastSweep, init, now, window);
      MeetsMore(b, init, c, now, window, lastSweep);
      ConsumeAllFrame(b, init, now, window, c.key);
      ConsumeAllFrame(Remaining(b, lastSweep), init, now, window, c.key);
      CheckAlike(b, lastSweep, ConsumeAll(Remaining(b, lastSweep), init, now, window).0,
                 ConsumeAll(b, init, now, window).0, c, now, window);
      RefusalNames(b, init, now, window);
    }
  }

  /**
   Exactly when a request, however late or early its time, is decided as without the sweep: it is, if and only
   if it meets no bucket that still runs at its time, has its limit used up, and was removed by a sweep at a
   later time. A request no earlier than the last sweep never meets one.
   */
  lemma DecidedAlikeIff(requests: seq<Request>, r: Request, window: int)
    requires Clocked(requests) && window >= 1 && Separate(r.checks)
    ensures var m, b := HandleAll(requests, window).0, Unswept(requests, window).0;
      && (Handle(m, r, window).1 == ConsumeAll(b, r.checks, r.now, window).1 <==>
            !MeetsSweptFull(b, r, window, m.lastSweep))
      && (m.lastSweep <= r.now ==> !MeetsSweptFull(b, r, window, m.lastSweep))
  {
    var m, b := HandleAll(requests, window).0, Unswept(requests, window).0;
    RemainingExactly(requests, window);
    if m.lastSweep <= r.now {
      SweepRemains(m, b, r.now, window);
      ConsumeAllRemains(b, Sweep(m, r.now, window).lastSweep, r.checks, r.now, window);
    } else {
      assert Request(r.now, r.checks) == r;
      LateChecks(b, m.lastSweep, r.checks, r.now, window);
    }
  }

  // ---------- the three checks of a settlement report ----------

  datatype Limits = Limits(signer: int, service: int, payerService: int)

  /** Inputs are lower-cased already. */
  function SettlementChecks(limits: Limits, signer: string, ip: string, service: string, payer: string): seq<Check> {
    [Check(Signer, "x402:signer:" + signer + ":" + ip, limits.signer),
     Check(Service, "x402:service:" + service, limits.service),
     Check(PayerService, "x402:payer_service:" + service + ":" + payer, limits.payerService)]
  }

  /**
   When two reports use one bucket: never for checks about different things; a service check for the same service;
   the checks that join two parts with a colon when the joined texts agree.
   */
  lemma BucketsSharedIff(limits: Limits, signer: string, ip: string, service: string, payer: string,
                         signer': string, ip': string, service': string, payer': string)
    ensures var a := SettlementChecks(limits, signer, ip, service, payer);
      var b := SettlementChecks(limits, signer', ip', service', payer');
      && (forall i, j :: 0 <= i < 3 && 0 <= j < 3 && i != j ==> a[i].key != b[j].key)
      && (a[0].key == b[0].key <==> Pair(signer, ip) == Pair(signer', ip'))
      && (a[1].key == b[1].key <==> service == service')
      && (a[2].key == b[2].key <==> Pair(service, payer) == Pair(service', payer'))
  {
    var a := SettlementChecks(limits, signer, ip, service, payer);
    var b := SettlementChecks(limits, signer', ip', service', payer');
    assert a[0].key[6] == b[0].key[6] == 'i' && a[1].key[6] == b[1].key[6] == 'e' && a[2].key[6] == b[2].key[6] == 'a';
    assert a[0].key[12..] == Pair(signer, ip) && b[0].key[12..] == Pair(signer', ip');
    assert a[0].key[..12] == b[0].key[..12] == "x402:signer:";
    assert a[1].key[13..] == service && b[1].key[13..] == service';
    assert a[2].key[19..] == Pair(service, payer) && b[2].key[19..] == Pair(service', payer');
    assert a[2].key[..19] == b[2].key[..19] == "x402:payer_service:";
  }

  lemma SettlementChecksAreSeparate(limits: Limits, signer: string, ip: string, service: string, payer: string)
    ensures Separate(SettlementChecks(limits, signer, ip, service, payer))
  {
    BucketsSharedIff(limits, signer, ip, service, payer, signer, ip, service, payer);
  }

  /** Some payer of one service and some payer of another share a bucket. */
  ghost predicate SharePayerBucket(limits: Limits, s: string, t: string) {
    exists p: string, q: string ::
      SettlementChecks(limits, "", "", s, p)[2].key == SettlementChecks(limits, "", "", t, q)[2].key
  }

  /** Two services share a bucket between their payers exactly when their slugs are related; indexed agents never do. */
  lemma PayersShareIff(limits: Limits, s: string, t: string)
    requires s != t
    ensures SharePayerBucket(limits, s, t) <==> Related(s, t)
    ensures IsIndexedSlug(s) && IsIndexedSlug(t) ==> !SharePayerBucket(limits, s, t)
  {
    forall p, q
      ensures SettlementChecks(limits, "", "", s, p)[2].key == SettlementChecks(limits, "", "", t, q)[2].key
        <==> Pair(s, p) == Pair(t, q)
    {
      BucketsSharedIff(limits, "", "", s, p, "", "", t, q);
    }
    ServicesCollideIff(s, t);
    IndexedSlugsAreUnrelated();
  }

  // A request that is let through a second time: the sweep by the report in between has removed its bucket.

  const LIMITS: Limits := Limits(1000, 5000, 1)

  function Report(now: int, signer: string, service: string, payer: string): Request {
    Request(now, SettlementChecks(LIMITS, signer, "unknown", service, payer))
  }

  lemma HandleAllAppend(requests: seq<Request>, r: Request, window: int)
    ensures HandleAll(requests + [r], window).0 == Handle(HandleAll(requests, window).0, r, window).0
    ensures Unswept(requests + [r], window).0 == ConsumeAll(Unswept(requests, window).0, r.checks, r.now, window).0
  {
    assert (requests + [r])[..|requests|] == requests;
  }

  lemma OneCheck(buckets: Buckets, c: Check, now: int, window: int)
    ensures ConsumeAll(buckets, [c], now, window) == Consume(buckets, c, now, window)
  {
    var none: seq<Check> := [];
    assert [c][..0] == none;
  }

  lemma NextCheck(buckets: Buckets, before: seq<Check>, c: Check, now: int, window: int)
    requires ConsumeAll(buckets, before, now, window).1 == Allowed
    ensures ConsumeAll(buckets, before + [c], now, window)
        == Consume(ConsumeAll(buckets, before, now, window).0, c, now, window)
  {
    assert (before + [c])[..|before|] == before;
  }

  /** Three checks that all start a new bucket. */
  lemma FirstUse(buckets: Buckets, r: Request, window: int)
    requires |r.checks| == 3 && Separate(r.checks) && forall k :: 0 <= k < 3 ==> r.checks[k].key !in buckets
    ensures var (after, verdict) := ConsumeAll(buckets, r.checks, r.now, window);
      && verdict == Allowed
      && (forall k :: 0 <= k < 3 ==> r.checks[k].key in after && after[r.checks[k].key] == Bucket(1, r.now + window))
  {
    var a, b, c := r.checks[0], r.checks[1], r.checks[2];
    assert r.checks == ([a] + [b]) + [c];
    OneCheck(buckets, a, r.now, window);
    NextCheck(buckets, [a], b, r.now, window);
    NextCheck(buckets, [a] + [b], c, r.now, window);
  }

  lemma TwoReports(t: int, window: int)
    requires t >= 0 && window >= 1
    ensures var first, other := Report(t, "0xa", "agent-1", "0xc"), Report(t + window, "0xb", "agent-2", "0xd");
      var m, b := HandleAll([first] + [other], window).0, Unswept([first] + [other], window).0;
      && m.lastSweep == t + window
      && forall k :: 0 <= k < 3 ==> first.checks[k].key in b && b[first.checks[k].key] == Bucket(1, t + window)
  {
    var first, other := Report(t, "0xa", "agent-1", "0xc"), Report(t + window, "0xb", "agent-2", "0xd");
    HandleAllAppend([], first, window);
    HandleAllAppend([first], other, window);
    assert [] + [first] == [first];
    SettlementChecksAreSeparate(LIMITS, "0xa", "unknown", "agent-1", "0xc");
    FirstUse(map[], first, window);
    OtherKeys(first, other, t, window);
    forall k | 0 <= k < 3 {
      ConsumeAllFrame(Unswept([first], window).0, other.checks, other.now, window, first.checks[k].key);
    }
  }

  lemma OtherKeys(first: Request, other: Request, t: int, window: int)
    requires first == Report(t, "0xa", "agent-1", "0xc") && other == Report(t + window, "0xb", "agent-2", "0xd")
    ensures forall j, k :: 0 <= j < 3 && 0 <= k < 3 ==> other.checks[j].key != first.checks[k].key
  {
    SettlementChecksAreSeparate(LIMITS, "0xa", "unknown", "agent-1", "0xc");
    assert first.checks[0].key[14] == 'a' && other.checks[0].key[14] == 'b';
    assert first.checks[1].key[19] == '1' && other.checks[1].key[19] == '2';
    assert first.checks[2].key[25] == '1' && other.checks[2].key[25] == '2';
    assert first.checks[0].key[6] == 'i' == other.checks[0].key[6]
        && first.checks[1].key[6] == 'e' == other.checks[1].key[6];
    assert first.checks[2].key[5] == 'p' == other.checks[2].key[5];
    assert first.checks[0].key[5] == 's' == other.checks[0].key[5]
        && first.checks[1].key[5] == 's' == other.checks[1].key[5];
  }

  /**
   This happens: with a limit of one report per payer and window, a second report by the same payer within the
   window is refused, but let through when another report's sweep came first at a later time.
   */
  lemma LateReportIsLetThrough(t: int, window: int)
    requires t >= 0 && window >= 1
    ensures var first, other := Report(t, "0xa", "agent-1", "0xc"), Report(t + window, "0xb", "agent-2", "0xd");
      var late := first.(now := t + window - 1);
      var unswept := Unswept([first] + [other] + [late], window).1;
      var swept := HandleAll([first] + [other] + [late], window).1;
      |unswept| == |swept| == 3 && unswept[2] == Limited(PayerService, 1) && swept[2] == Allowed
  {
    var first, other := Report(t, "0xa", "agent-1", "0xc"), Report(t + window, "0xb", "agent-2", "0xd");
    var late := first.(now := t + window - 1);
    var both := [first] + [other];
    var m, b := HandleAll(both, window).0, Unswept(both, window).0;
    TwoReports(t, window);
    RemainingExactly(both, window);
    SettlementChecksAreSeparate(LIMITS, "0xa", "unknown", "agent-1", "0xc");
    FirstUse(m.buckets, late, window);
    LateRefused(b, late, t, window);
    Lengths(both, window);
    assert (both + [late])[..2] == both;
  }

  lemma {:induction false} Lengths(requests: seq<Request>, window: int)
    ensures |HandleAll(requests, window).1| == |Unswept(requests, window).1| == |requests|
  {
    if requests != [] {
      Lengths(requests[..|requests| - 1], window);
    }
  }

  lemma LateRefused(b: Buckets, late: Request, t: int, window: int)
    requires late == Report(t + window - 1, "0xa", "agent-1", "0xc") && window >= 1
    requires forall k :: 0 <= k < 3 ==> late.checks[k].key in b && b[late.checks[k].key] == Bucket(1, t + window)
    ensures ConsumeAll(b, late.checks, late.now, window).1 == Limited(PayerService, 1)
  {
    var x, y, z := late.checks[0], late.checks[1], late.checks[2];
    SettlementChecksAreSeparate(LIMITS, "0xa", "unknown", "agent-1", "0xc");
    assert late.checks == ([x] + [y]) + [z];
    OneCheck(b, x, late.now, window);
    NextCheck(b, [x], y, late.now, window);
    NextCheck(b, [x] + [y], z, late.now, window);
  }

  // ---------- how much one key is given ----------

  /** One use of a key that was let through, and when the bucket it was counted in was started. */
  datatype Use = Use(time: int, start: int)

  /** The uses of `key` that the checks of one request let through. */
  function UsesIn(buckets: Buckets, checks: seq<Check>, now: int, window: int, key: string): seq<Use> {
    if checks == [] then []
    else
      var init, c := checks[..|checks| - 1], checks[|checks| - 1];
      var (mid, verdict) := ConsumeAll(buckets, init, now, window);
      UsesIn(buckets, init, now, window, key)
        + (if verdict == Allowed then NewUse(mid, c, now, window, key) else [])
  }

  function NewUse(buckets: Buckets, c: Check, now: int, window: int, key: string): seq<Use> {
    var (after, verdict) := Consume(buckets, c, now, window);
    if c.key == key && verdict == Allowed && key in after then [Use(now, after[key].resetAt - window)] else []
  }

  /** The uses of `key` that the limiter lets through over a whole run. */
  function LimiterUses(requests: seq<Request>, window: int, key: string): seq<Use> {
    if requests == [] then []
    else
      var init, r := requests[..|requests| - 1], requests[|requests| - 1];
      LimiterUses(init, window, key)
        + UsesIn(Sweep(HandleAll(init, window).0, r.now, window).buckets, r.checks, r.now, window, key)
  }

  /** And those that one without a sweep would let through. */
  function Uses(requests: seq<Request>, window: int, key: string): seq<Use> {
    if requests == [] then []
    else
      var init, r := requests[..|requests| - 1], requests[|requests| - 1];
      Uses(init, window, key) + UsesIn(Unswept(init, window).0, r.checks, r.now, window, key)
  }

  lemma UseRefines(a: Buckets, b: Buckets, c: Check, now: int, window: int, key: string)
    requires Refines(a, b, now)
    ensures NewUse(a, c, now, window, key) == NewUse(b, c, now, window, key)
  {
    ConsumeRefines(a, b, c, now, window);
  }

  lemma {:induction false} UsesRefine(a: Buckets, b: Buckets, checks: seq<Check>, now: int, window: int, key: string)
    requires Refines(a, b, now)
    ensures UsesIn(a, checks, now, window, key) == UsesIn(b, checks, now, window, key)
  {
    if checks != [] {
      var init := checks[..|checks| - 1];
      UsesRefine(a, b, init, now, window, key);
      ConsumeAllRefines(a, b, init, now, window);
      UseRefines(ConsumeAll(a, init, now, window).0, ConsumeAll(b, init, now, window).0, checks[|checks| - 1], now,
                 window, key);
    }
  }

  /** In time order the sweep does not change which uses are let through, nor which window they count in. */
  lemma {:induction false} SameUses(requests: seq<Request>, window: int, key: string)
    requires Chronological(requests)
    ensures LimiterUses(requests, window, key) == Uses(requests, window, key)
  {
    if requests != [] {
      var init, r := requests[..|requests| - 1], requests[|requests| - 1];
      var m, b := HandleAll(init, window).0, Unswept(init, window).0;
      SameUses(init, window, key);
      SweepIsInvisible(init, window);
      SweepRefines(m, b, if init == [] then r.now else LastTime(init), r.now, window);
      UsesRefine(Sweep(m, r.now, window).buckets, b, r.checks, r.now, window, key);
    }
  }

  function InWindow(uses: seq<Use>, start: int): nat {
    if uses == [] then 0
    else InWindow(uses[..|uses| - 1], start) + (if uses[|uses| - 1].start == start then 1 else 0)
  }

  function InInterval(uses: seq<Use>, from: int, length: int): nat {
    if uses == [] then 0
    else
      InInterval(uses[..|uses| - 1], from, length)
        + (if from <= uses[|uses| - 1].time <= from + length then 1 else 0)
  }

  /** Windows are start at least one window length apart, and every use lies in its own. */
  ghost predicate WellGranted(uses: seq<Use>, limit: int, window: int, last: int) {
    && (forall k :: 0 <= k < |uses| ==> uses[k].start <= uses[k].time < uses[k].start + window && uses[k].time <= last)
    && (forall i, j :: 0 <= i < j < |uses| ==>
          uses[j].start == uses[i].start || uses[i].start + window <= uses[j].start)
    && (forall o :: InWindow(uses, o) <= limit)
  }

  lemma {:induction false} NewWindow(uses: seq<Use>, start: int)
    requires forall k :: 0 <= k < |uses| ==> uses[k].start != start
    ensures InWindow(uses, start) == 0
  {
    if uses != [] {
      NewWindow(uses[..|uses| - 1], start);
    }
  }

  lemma InWindowAppend(uses: seq<Use>, u: Use, start: int)
    ensures InWindow(uses + [u], start) == InWindow(uses, start) + (if u.start == start then 1 else 0)
  {
    assert (uses + [u])[..|uses|] == uses;
  }

  /** What the bucket of a key remembers about its uses. */
  ghost predicate Tied(buckets: Buckets, uses: seq<Use>, key: string, limit: int, window: int, now: int) {
    && WellGranted(uses, limit, window, now)
    && (key !in buckets ==> uses == [])
    && (key in buckets ==>
          && uses != []
          && buckets[key].resetAt == uses[|uses| - 1].start + window
          && buckets[key].count == InWindow(uses, uses[|uses| - 1].start))
  }

  lemma AppendUse(uses: seq<Use>, u: Use, limit: int, window: int, now: int)
    requires WellGranted(uses, limit, window, now) && window >= 1
    requires u.time == now && u.start <= now < u.start + window
    requires forall k :: 0 <= k < |uses| ==> u.start == uses[k].start || uses[k].start + window <= u.start
    requires InWindow(uses, u.start) < limit
    ensures WellGranted(uses + [u], limit, window, now)
  {
    forall s ensures InWindow(uses + [u], s) <= limit {
      InWindowAppend(uses, u, s);
    }
  }

  /** One more use in the bucket that is still running. */
  lemma JoinTied(buckets: Buckets, uses: seq<Use>, key: string, limit: int, window: int, now: int)
    requires Tied(buckets, uses, key, limit, window, now) && window >= 1
    requires Live(buckets, key, now) && buckets[key].count < limit
    ensures var b := buckets[key];
      Tied(buckets[key := b.(count := b.count + 1)], uses + [Use(now, b.resetAt - window)], key, limit, window, now)
  {
    var u := Use(now, uses[|uses| - 1].start);
    AppendUse(uses, u, limit, window, now);
    InWindowAppend(uses, u, u.start);
  }

  /** The first use of a new bucket. */
  lemma FreshTied(buckets: Buckets, uses: seq<Use>, key: string, limit: int, window: int, now: int)
    requires Tied(buckets, uses, key, limit, window, now) && limit >= 1 && window >= 1
    requires !Live(buckets, key, now)
    ensures Tied(buckets[key := Bucket(1, now + window)], uses + [Use(now, now)], key, limit, window, now)
  {
    var u := Use(now, now);
    forall k | 0 <= k < |uses| ensures uses[k].start + window <= now {
      assert uses[k].start == uses[|uses| - 1].start || uses[k].start + window <= uses[|uses| - 1].start;
    }
    NewWindow(uses, now);
    AppendUse(uses, u, limit, window, now);
    InWindowAppend(uses, u, now);
  }

  lemma OtherTied(buckets: Buckets, buckets': Buckets, uses: seq<Use>, key: string, limit: int, window: int, now: int)
    requires Tied(buckets, uses, key, limit, window, now)
    requires key in buckets' <==> key in buckets
    requires key in buckets ==> buckets'[key] == buckets[key]
    ensures Tied(buckets', uses + [], key, limit, window, now)
  {
    assert uses + [] == uses;
  }

  /** The three ways a check can go, as far as `key` is concerned. */
  lemma ConsumeCases(buckets: Buckets, c: Check, now: int, window: int, key: string)
    ensures var after, uses := Consume(buckets, c, now, window).0, NewUse(buckets, c, now, window, key);
      if c.key != key || Consume(buckets, c, now, window).1 != Allowed then
        uses == [] && (key in after <==> key in buckets) && (key in buckets ==> after[key] == buckets[key])
      else if Live(buckets, key, now) then
        var b := buckets[key];
        b.count < c.limit && after == buckets[key := b.(count := b.count + 1)] && uses == [Use(now, b.resetAt - window)]
      else
        after == buckets[key := Bucket(1, now + window)] && uses == [Use(now, now)]
  {
  }

  lemma ConsumeTied(buckets: Buckets, uses: seq<Use>, c: Check, now: int, window: int, key: string, limit: int)
    requires Tied(buckets, uses, key, limit, window, now) && limit >= 1 && window >= 1
    requires c.key == key ==> c.limit == limit
    ensures Tied(Consume(buckets, c, now, window).0, uses + NewUse(buckets, c, now, window, key), key, limit, window,
                 now)
  {
    ConsumeCases(buckets, c, now, window, key);
    if c.key != key || Consume(buckets, c, now, window).1 != Allowed {
      OtherTied(buckets, Consume(buckets, c, now, window).0, uses, key, limit, window, now);
    } else if Live(buckets, key, now) {
      JoinTied(buckets, uses, key, limit, window, now);
    } else {
      FreshTied(buckets, uses, key, limit, window, now);
    }
  }

  /** A key is refused only while its running bucket has already let the whole limit through. */
  lemma RefusedOnlyWhenFull(buckets: Buckets, uses: seq<Use>, c: Check, now: int, window: int)
    requires Tied(buckets, uses, c.key, c.limit, window, now)
    ensures Consume(buckets, c, now, window).1 != Allowed <==>
      uses != [] && now < uses[|uses| - 1].start + window && InWindow(uses, uses[|uses| - 1].start) == c.limit
  {
  }

  ghost predicate FixedLimit(checks: seq<Check>, key: string, limit: int) {
    forall k :: 0 <= k < |checks| && checks[k].key == key ==> checks[k].limit == limit
  }

  lemma UsesInStep(buckets: Buckets, init: seq<Check>, c: Check, now: int, window: int, key: string)
    ensures var mid := ConsumeAll(buckets, init, now, window);
      if mid.1 == Allowed then
        && ConsumeAll(buckets, init + [c], now, window) == Consume(mid.0, c, now, window)
        && UsesIn(buckets, init + [c], now, window, key)
              == UsesIn(buckets, init, now, window, key) + NewUse(mid.0, c, now, window, key)
      else
        && ConsumeAll(buckets, init + [c], now, window) == mid
        && UsesIn(buckets, init + [c], now, window, key) == UsesIn(buckets, init, now, window, key)
  {
    assert (init + [c])[..|init|] == init;
  }

  lemma {:induction false} RequestTied(buckets: Buckets, uses: seq<Use>, checks: seq<Check>, now: int, window: int,
                                       key: string, limit: int)
    requires Tied(buckets, uses, key, limit, window, now) && limit >= 1 && window >= 1 && FixedLimit(checks, key, limit)
    ensures Tied(ConsumeAll(buckets, checks, now, window).0, uses + UsesIn(buckets, checks, now, window, key), key,
                 limit, window, now)
  {
    if checks == [] {
      assert uses + [] == uses;
    } else {
      var init, c := checks[..|checks| - 1], checks[|checks| - 1];
      assert checks == init + [c];
      RequestTied(buckets, uses, init, now, window, key, limit);
      UsesInStep(buckets, init, c, now, window, key);
      var mid, before := ConsumeAll(buckets, init, now, window), UsesIn(buckets, init, now, window, key);
      if mid.1 == Allowed {
        ConsumeTied(mid.0, uses + before, c, now, window, key, limit);
        Regroup(uses, before, NewUse(mid.0, c, now, window, key));
      }
    }
  }

  lemma Regroup(a: seq<Use>, b: seq<Use>, c: seq<Use>)
    ensures (a + b) + c == a + (b + c)
  {
  }

  ghost predicate FixedLimits(requests: seq<Request>, key: string, limit: int) {
    forall n :: 0 <= n < |requests| ==> FixedLimit(requests[n].checks, key, limit)
  }

  lemma TiedLater(buckets: Buckets, uses: seq<Use>, key: string, limit: int, window: int, now: int, later: int)
    requires Tied(buckets, uses, key, limit, window, now) && now <= later
    ensures Tied(buckets, uses, key, limit, window, later)
  {
  }

  lemma TiedAtStart(key: string, limit: int, window: int, now: int)
    requires limit >= 1
    ensures Tied(map[], [], key, limit, window, now)
  {
    assert forall s :: InWindow([], s) == 0;
  }

  lemma {:induction false} RunTied(requests: seq<Request>, window: int, key: string, limit: int)
    requires Chronological(requests) && FixedLimits(requests, key, limit) && limit >= 1 && window >= 1
    ensures requests != [] ==>
        Tied(Unswept(requests, window).0, Uses(requests, window, key), key, limit, window, LastTime(requests))
  {
    if requests != [] {
      var init, r := requests[..|requests| - 1], requests[|requests| - 1];
      if init == [] {
        TiedAtStart(key, limit, window, r.now);
      } else {
        RunTied(init, window, key, limit);
        TiedLater(Unswept(init, window).0, Uses(init, window, key), key, limit, window, LastTime(init), r.now);
      }
      RequestTied(Unswept(init, window).0, Uses(init, window, key), r.checks, r.now, window, key, limit);
    }
  }

  lemma {:induction false} TwoWindowsCover(uses: seq<Use>, from: int, length: int, u: int, v: int)
    requires forall k :: 0 <= k < |uses| && from <= uses[k].time <= from + length ==>
        uses[k].start == u || uses[k].start == v
    ensures InInterval(uses, from, length) <= InWindow(uses, u) + InWindow(uses, v)
  {
    if uses != [] {
      TwoWindowsCover(uses[..|uses| - 1], from, length, u, v);
    }
  }

  /** An interval of one window length, ends included, touches at most two windows. */
  lemma TouchesTwo(uses: seq<Use>, limit: int, window: int, last: int, from: int) returns (u: int, v: int)
    requires WellGranted(uses, limit, window, last)
    ensures forall k :: 0 <= k < |uses| && from <= uses[k].time <= from + window ==>
        uses[k].start == u || uses[k].start == v
  {
    u, v := 0, 0;
    if i :| 0 <= i < |uses| && from <= uses[i].time <= from + window {
      u, v := uses[i].start, uses[i].start;
      if j :| 0 <= j < |uses| && from <= uses[j].time <= from + window && uses[j].start != u {
        v := uses[j].start;
        forall k | 0 <= k < |uses| && from <= uses[k].time <= from + window
          ensures uses[k].start == u || uses[k].start == v
        {
          ThreeApart(uses, limit, window, last, i, j, k);
        }
      }
    }
  }

  lemma ThreeApart(uses: seq<Use>, limit: int, window: int, last: int, i: nat, j: nat, k: nat)
    requires WellGranted(uses, limit, window, last) && i < |uses| && j < |uses| && k < |uses|
    requires uses[i].time - window <= uses[j].time <= uses[i].time + window
    requires uses[i].time - window <= uses[k].time <= uses[i].time + window
    requires uses[j].time - window <= uses[k].time <= uses[j].time + window
    ensures uses[i].start == uses[j].start || uses[k].start == uses[i].start || uses[k].start == uses[j].start
  {
  }

  /**
   With fixed limits, the limiter lets no more than its limit through in any bucket of a key, and in any interval of
   one window length, wherever it starts, at most twice the limit.
   */
  lemma AtMostTwiceTheLimit(requests: seq<Request>, window: int, key: string, limit: int, from: int)
    requires Chronological(requests) && FixedLimits(requests, key, limit) && limit >= 1 && window >= 1
    ensures var uses := LimiterUses(requests, window, key);
      && InInterval(uses, from, window) <= 2 * limit
      && forall start :: InWindow(uses, start) <= limit
  {
    var uses, last := Uses(requests, window, key), LastTime(requests);
    SameUses(requests, window, key);
    if requests == [] {
      TiedAtStart(key, limit, window, last);
    } else {
      RunTied(requests, window, key, limit);
    }
    var u, v := TouchesTwo(uses, limit, window, last, from);
    TwoWindowsCover(uses, from, window, u, v);
  }
}
