/**
 The usage key of lib/x402-score-rollup.ts joins service, payer and day with colons. When two services can
 share a key, when a payer loses by it, and why the services of indexed agents never do.
 */
module X402Keys {
  import opened AgentIds
  import opened Common
  import opened Decimals
  import opened Text
  import opened X402Rollup

  // ---------- when keys are equal ----------

  function Pair(service: string, payer: string): string {
    service + ":" + payer
  }

  /** One slug followed by a colon starts the other. */
  predicate Related(s: string, t: string) {
    s + ":" <= t || t + ":" <= s
  }

  /** Days are of one length, so they are told apart; services and payers only as far as their joined text is. */
  lemma KeysEqualIff(s: string, p: string, d: string, t: string, q: string, e: string)
    requires |d| == |e|
    ensures UsageKey(s, p, d) == UsageKey(t, q, e) <==> d == e && Pair(s, p) == Pair(t, q)
  {
    var k, l := UsageKey(s, p, d), UsageKey(t, q, e);
    assert k[..|k| - |d| - 1] == Pair(s, p) && k[|k| - |d|..] == d;
    assert l[..|l| - |e| - 1] == Pair(t, q) && l[|l| - |e|..] == e;
  }

  lemma Prefixed(s: string, t: string)
    requires s + ":" <= t
    ensures forall q :: Pair(s, t[|s| + 1..] + ":" + q) == Pair(t, q)
  {
    assert t == s + ":" + t[|s| + 1..];
  }

  lemma ShorterIsPrefix(s: string, p: string, t: string, q: string)
    requires Pair(s, p) == Pair(t, q) && |s| < |t|
    ensures s + ":" <= t
  {
    assert Pair(s, p)[..|s| + 1] == s + ":" && Pair(t, q)[..|t|] == t;
  }

  lemma EqualLengthIsEqual(s: string, p: string, t: string, q: string)
    requires Pair(s, p) == Pair(t, q) && |s| == |t|
    ensures s == t
  {
    assert Pair(s, p)[..|s|] == s && Pair(t, q)[..|t|] == t;
  }

  /** Two different services have payers that share a key exactly when their slugs are related. */
  lemma ServicesCollideIff(s: string, t: string)
    requires s != t
    ensures (exists p, q :: Pair(s, p) == Pair(t, q)) <==> Related(s, t)
  {
    if p, q :| Pair(s, p) == Pair(t, q) {
      if |s| == |t| {
        EqualLengthIsEqual(s, p, t, q);
      } else if |s| < |t| {
        ShorterIsPrefix(s, p, t, q);
      } else {
        ShorterIsPrefix(t, q, s, p);
      }
    }
    if s + ":" <= t {
      Prefixed(s, t);
      assert Pair(s, t[|s| + 1..] + ":" + "") == Pair(t, "");
    } else if t + ":" <= s {
      Prefixed(t, s);
      assert Pair(s, "") == Pair(t, s[|t| + 1..] + ":" + "");
    }
  }

  // ---------- what a payer is owed ----------

  predicate IsOf(row: Row, service: string, payer: string, day: string) {
    Eligible(row) && row.service == service && row.payer == payer && row.day == day
  }

  function EligibleRequests(rows: seq<Row>, service: string, payer: string, day: string): nat {
    if rows == [] then 0
    else
      EligibleRequests(rows[..|rows| - 1], service, payer, day)
        + (if IsOf(rows[|rows| - 1], service, payer, day) then 1 else 0)
  }

  function EligibleAmount(rows: seq<Row>, service: string, payer: string, day: string): int {
    if rows == [] then 0
    else
      var row := rows[|rows| - 1];
      EligibleAmount(rows[..|rows| - 1], service, payer, day)
          + (if IsOf(row, service, payer, day) then row.amount else 0)
  }

  /** What was counted for the payer reaches neither of the payer's own caps. */
  predicate BelowOwnCaps(cfg: Config, rows: seq<Row>, service: string, payer: string, day: string) {
    var log, minima := Rollups(cfg, rows).log, Minima(rows);
    && service in minima && minima[service] > 0
    && RequestsFor(log, service, payer, day) < cfg.countCap
    && AmountFor(log, service, payer, day) < minima[service] * cfg.amountMultiplier
  }

  predicate AllCounted(cfg: Config, rows: seq<Row>, service: string, payer: string, day: string) {
    var log := Rollups(cfg, rows).log;
    && RequestsFor(log, service, payer, day) == EligibleRequests(rows, service, payer, day)
    && AmountFor(log, service, payer, day) == EligibleAmount(rows, service, payer, day)
  }

  /** Every payer below its own caps has every eligible row counted, in full. */
  ghost predicate NothingLost(cfg: Config, rows: seq<Row>) {
    forall k :: 0 <= k < |rows| ==>
      Eligible(rows[k]) && BelowOwnCaps(cfg, rows, rows[k].service, rows[k].payer, rows[k].day) ==>
        AllCounted(cfg, rows, rows[k].service, rows[k].payer, rows[k].day)
  }

  /** Eligible rows are of these services, and days are written YYYY-MM-DD. */
  ghost predicate RowsOf(rows: seq<Row>, slugs: iset<string>) {
    forall k :: 0 <= k < |rows| && Eligible(rows[k]) ==> rows[k].service in slugs && |rows[k].day| == 10
  }

  ghost predicate Unrelated(slugs: iset<string>) {
    forall s, t :: s in slugs && t in slugs && s != t ==> !Related(s, t)
  }

  // ---------- unrelated services lose nothing ----------

  predicate UsesKey(row: Row, key: string) {
    Eligible(row) && UsageKey(row.service, row.payer, row.day) == key
  }

  /** No other eligible row shares the key. */
  ghost predicate Sole(rows: seq<Row>, service: string, payer: string, day: string) {
    forall k :: 0 <= k < |rows| && UsesKey(rows[k], UsageKey(service, payer, day)) ==>
        IsOf(rows[k], service, payer, day)
  }

  /** The key has used exactly what was counted for its one payer. */
  ghost predicate UsageIsOwn(st: State, service: string, payer: string, day: string) {
    UsageOf(st.usage, UsageKey(service, payer, day))
      == Usage(RequestsFor(st.log, service, payer, day), AmountFor(st.log, service, payer, day))
  }

  lemma LogGrows(st: State, row: Row, counted: int, service: string, payer: string, day: string)
    ensures var log := WithRow(st, row, counted).log;
      var own := row.service == service && row.payer == payer && row.day == day;
      && RequestsFor(log, service, payer, day) == RequestsFor(st.log, service, payer, day) + (if own then 1 else 0)
      && AmountFor(log, service, payer, day) == AmountFor(st.log, service, payer, day) + (if own then counted else 0)
  {
    assert WithRow(st, row, counted).log[..|st.log|] == st.log;
  }

  lemma CountRowOwn(cfg: Config, minima: map<string, int>, st: State, row: Row, service: string, payer: string,
                    day: string)
    requires UsageIsOwn(st, service, payer, day) && Sole([row], service, payer, day)
    ensures UsageIsOwn(CountRow(cfg, minima, st, row), service, payer, day)
  {
    var counted := CountRowCases(cfg, minima, st, row);
    var st' := CountRow(cfg, minima, st, row);
    if st' != st {
      assert UsesKey([row][0], UsageKey(service, payer, day)) ==> IsOf(row, service, payer, day);
      LogGrows(st, row, counted, service, payer, day);
    }
  }

  lemma {:induction false} CountAllOwn(cfg: Config, minima: map<string, int>, start: State, rows: seq<Row>,
                                       service: string, payer: string, day: string)
    requires UsageIsOwn(start, service, payer, day) && Sole(rows, service, payer, day)
    ensures UsageIsOwn(CountAll(cfg, minima, start, rows), service, payer, day)
  {
    if rows != [] {
      var init, row := rows[..|rows| - 1], rows[|rows| - 1];
      CountAllOwn(cfg, minima, start, init, service, payer, day);
      assert Sole([row], service, payer, day);
      CountRowOwn(cfg, minima, CountAll(cfg, minima, start, init), row, service, payer, day);
    }
  }

  /** One more row: what was counted never shrinks, and below the caps an own row is counted in full. */
  lemma OneMoreRow(cfg: Config, minima: map<string, int>, st: State, row: Row, service: string, payer: string,
                   day: string)
    requires UsageIsOwn(st, service, payer, day) && Sole([row], service, payer, day)
    requires service in minima && minima[service] > 0
    requires IsOf(row, service, payer, day) ==> row.amount >= minima[service]
    ensures var log, log' := st.log, CountRow(cfg, minima, st, row).log;
      var requests, requests' := RequestsFor(log, service, payer, day), RequestsFor(log', service, payer, day);
      var amount, amount' := AmountFor(log, service, payer, day), AmountFor(log', service, payer, day);
      && requests <= requests' && amount <= amount'
      && (requests' < cfg.countCap && amount' < minima[service] * cfg.amountMultiplier ==>
            && requests' == requests + (if IsOf(row, service, payer, day) then 1 else 0)
            && amount' == amount + (if IsOf(row, service, payer, day) then row.amount else 0))
  {
    assert [row][0] == row;
    var counted := CountRowCases(cfg, minima, st, row);
    if CountRow(cfg, minima, st, row) != st {
      LogGrows(st, row, counted, service, payer, day);
    }
  }

  lemma {:induction false} OwnRowsCounted(cfg: Config, minima: map<string, int>, start: State, rows: seq<Row>,
                                          service: string, payer: string, day: string)
    requires start.log == [] && start.usage == map[] && Sole(rows, service, payer, day)
    requires service in minima && minima[service] > 0
    requires forall k :: 0 <= k < |rows| && IsOf(rows[k], service, payer, day) ==> rows[k].amount >= minima[service]
    requires var log := CountAll(cfg, minima, start, rows).log;
      RequestsFor(log, service, payer, day) < cfg.countCap
      && AmountFor(log, service, payer, day) < minima[service] * cfg.amountMultiplier
    ensures var log := CountAll(cfg, minima, start, rows).log;
      && RequestsFor(log, service, payer, day) == EligibleRequests(rows, service, payer, day)
      && AmountFor(log, service, payer, day) == EligibleAmount(rows, service, payer, day)
  {
    if rows != [] {
      var init, row := rows[..|rows| - 1], rows[|rows| - 1];
      CountAllOwn(cfg, minima, start, init, service, payer, day);
      assert Sole([row], service, payer, day);
      OneMoreRow(cfg, minima, CountAll(cfg, minima, start, init), row, service, payer, day);
      OwnRowsCounted(cfg, minima, start, init, service, payer, day);
    }
  }

  /**
   Below both of its own caps a payer loses nothing: every eligible row of its own with that service on that
   day was counted, in full, unless a row of another service composes the same key.
   */
  lemma BelowCapsNothingIsLost(cfg: Config, rows: seq<Row>, service: string, payer: string, day: string)
    requires Sole(rows, service, payer, day) && BelowOwnCaps(cfg, rows, service, payer, day)
    ensures AllCounted(cfg, rows, service, payer, day)
  {
    MinimaAreLeast(rows, service);
    OwnRowsCounted(cfg, Minima(rows), State(ObserveAll(rows), map[], []), rows, service, payer, day);
  }

  lemma UnrelatedIsSole(rows: seq<Row>, slugs: iset<string>, service: string, payer: string, day: string)
    requires RowsOf(rows, slugs) && Unrelated(slugs) && service in slugs && |day| == 10
    ensures Sole(rows, service, payer, day)
  {
    forall k | 0 <= k < |rows| && UsesKey(rows[k], UsageKey(service, payer, day))
      ensures IsOf(rows[k], service, payer, day)
    {
      var row := rows[k];
      KeysEqualIff(row.service, row.payer, row.day, service, payer, day);
      if row.service != service {
        ServicesCollideIff(row.service, service);
      }
      assert Pair(service, payer)[|service| + 1..] == payer && Pair(service, row.payer)[|service| + 1..] == row.payer;
    }
  }

  lemma UnrelatedLoseNothing(cfg: Config, rows: seq<Row>, slugs: iset<string>)
    requires RowsOf(rows, slugs) && Unrelated(slugs)
    ensures NothingLost(cfg, rows)
  {
    forall k | 0 <= k < |rows| && Eligible(rows[k])
        && BelowOwnCaps(cfg, rows, rows[k].service, rows[k].payer, rows[k].day)
      ensures AllCounted(cfg, rows, rows[k].service, rows[k].payer, rows[k].day)
    {
      UnrelatedIsSole(rows, slugs, rows[k].service, rows[k].payer, rows[k].day);
      BelowCapsNothingIsLost(cfg, rows, rows[k].service, rows[k].payer, rows[k].day);
    }
  }

  // ---------- related services lose rows ----------

  const SOME_DAY := "2026-01-01"

  function UnitRow(service: string, payer: string): Row {
    Row("1", service, payer, SOME_DAY, 1, true, false, true, true)
  }

  /** n requests of one payer for one unit each. */
  function Requests(service: string, payer: string, n: nat): seq<Row> {
    if n == 0 then [] else Requests(service, payer, n - 1) + [UnitRow(service, payer)]
  }

  lemma UnitRowIsEligible(service: string, payer: string)
    ensures Eligible(UnitRow(service, payer))
  {
    TrimFacts("1");
  }

  lemma {:induction false} RequestsAre(service: string, payer: string, n: nat)
    ensures |Requests(service, payer, n)| == n
    ensures forall k :: 0 <= k < n ==> Requests(service, payer, n)[k] == UnitRow(service, payer)
  {
    if n > 0 {
      RequestsAre(service, payer, n - 1);
    }
  }

  /** n requests of the payer p count against its key, and nothing counts for the payer q of service t. */
  ghost predicate UsedUp(st: State, s: string, p: string, n: nat, t: string, q: string) {
    && UsageOf(st.usage, UsageKey(s, p, SOME_DAY)) == Usage(n, n)
    && RequestsFor(st.log, t, q, SOME_DAY) == 0 && AmountFor(st.log, t, q, SOME_DAY) == 0
  }

  lemma UnitCounts(cfg: Config, minima: map<string, int>, st: State, s: string, p: string, n: nat, t: string, q: string)
    requires UsedUp(st, s, p, n, t, q) && s != t
    requires s in minima && minima[s] == 1 && n < cfg.countCap && n < cfg.amountMultiplier
    ensures UsedUp(CountRow(cfg, minima, st, UnitRow(s, p)), s, p, n + 1, t, q)
  {
    UnitRowIsEligible(s, p);
    assert CountedAmount(cfg, 1, Usage(n, n), 1) == 1;
    assert CountRow(cfg, minima, st, UnitRow(s, p)) == WithRow(st, UnitRow(s, p), 1);
    LogGrows(st, UnitRow(s, p), 1, t, q, SOME_DAY);
  }

  /** Up to the caps every request counts, against its key but for no other service. */
  lemma {:induction false} RequestsUseUp(cfg: Config, minima: map<string, int>, start: State, s: string, p: string,
                                         n: nat, t: string, q: string)
    requires start.usage == map[] && start.log == [] && s != t
    requires s in minima && minima[s] == 1 && n <= cfg.countCap && n <= cfg.amountMultiplier
    ensures UsedUp(CountAll(cfg, minima, start, Requests(s, p, n)), s, p, n, t, q)
  {
    if n > 0 {
      var rows := Requests(s, p, n);
      assert rows[..|rows| - 1] == Requests(s, p, n - 1);
      RequestsUseUp(cfg, minima, start, s, p, n - 1, t, q);
      UnitCounts(cfg, minima, CountAll(cfg, minima, start, Requests(s, p, n - 1)), s, p, n - 1, t, q);
    }
  }

  /** The payer of service s uses up the allowance; then q, with service t and the same key, sends one request. */
  function Crowding(s: string, p: string, n: nat, t: string, q: string): seq<Row> {
    Requests(s, p, n) + [UnitRow(t, q)]
  }

  lemma CrowdingMinima(s: string, p: string, n: nat, t: string, q: string)
    requires n >= 1
    ensures var minima := Minima(Crowding(s, p, n, t, q));
      s in minima && t in minima && minima[s] == 1 && minima[t] == 1
  {
    var rows := Crowding(s, p, n, t, q);
    RequestsAre(s, p, n);
    UnitRowIsEligible(s, p);
    UnitRowIsEligible(t, q);
    MinimaAreLeast(rows, s);
    MinimaAreLeast(rows, t);
    assert rows[0].service == s && rows[n].service == t;
  }

  lemma {:induction false} NoOtherRequests(s: string, p: string, n: nat, t: string, q: string)
    requires s != t
    ensures EligibleRequests(Requests(s, p, n), t, q, SOME_DAY) == 0
  {
    if n > 0 {
      var rows := Requests(s, p, n);
      assert rows[..|rows| - 1] == Requests(s, p, n - 1);
      NoOtherRequests(s, p, n - 1, t, q);
    }
  }

  /** The late row is the payer's only one, below both caps, and is not counted. */
  lemma CrowdedOut(cfg: Config, s: string, p: string, t: string, q: string)
    requires s != t && Pair(s, p) == Pair(t, q) && cfg.countCap >= 1 && cfg.amountMultiplier >= 1
    ensures var rows := Crowding(s, p, Min(cfg.countCap, cfg.amountMultiplier), t, q);
      && BelowOwnCaps(cfg, rows, t, q, SOME_DAY) && EligibleRequests(rows, t, q, SOME_DAY) == 1
      && RequestsFor(Rollups(cfg, rows).log, t, q, SOME_DAY) == 0
  {
    var n := Min(cfg.countCap, cfg.amountMultiplier);
    var rows, start := Crowding(s, p, n, t, q), State(ObserveAll(Crowding(s, p, n, t, q)), map[], []);
    assert rows[..|rows| - 1] == Requests(s, p, n);
    CrowdingMinima(s, p, n, t, q);
    RequestsUseUp(cfg, Minima(rows), start, s, p, n, t, q);
    KeysEqualIff(s, p, SOME_DAY, t, q, SOME_DAY);
    UnitRowIsEligible(t, q);
    NoOtherRequests(s, p, n, t, q);
  }

  lemma RelatedLose(cfg: Config, slugs: iset<string>, s: string, t: string)
    requires s in slugs && t in slugs && s + ":" <= t && cfg.countCap >= 1 && cfg.amountMultiplier >= 1
    ensures exists rows :: RowsOf(rows, slugs) && !NothingLost(cfg, rows)
  {
    var p, q := t[|s| + 1..] + ":" + "p", "p";
    var n := Min(cfg.countCap, cfg.amountMultiplier);
    var rows := Crowding(s, p, n, t, q);
    Prefixed(s, t);
    CrowdedOut(cfg, s, p, t, q);
    RequestsAre(s, p, n);
    UnitRowIsEligible(t, q);
    assert rows[n] == UnitRow(t, q) && !AllCounted(cfg, rows, t, q, SOME_DAY);
    assert RowsOf(rows, slugs);
  }

  /**
   Exactly when the joined key is harmless: for a set of services, no list of their rows makes a payer below
   its own caps lose anything if and only if no slug of the set, followed by a colon, starts another.
   */
  lemma NothingIsLostIff(cfg: Config, slugs: iset<string>)
    requires cfg.countCap >= 1 && cfg.amountMultiplier >= 1
    ensures (forall rows :: RowsOf(rows, slugs) ==> NothingLost(cfg, rows)) <==> Unrelated(slugs)
  {
    if Unrelated(slugs) {
      forall rows | RowsOf(rows, slugs) ensures NothingLost(cfg, rows) {
        UnrelatedLoseNothing(cfg, rows, slugs);
      }
    } else {
      var s, t :| s in slugs && t in slugs && s != t && Related(s, t);
      if s + ":" <= t {
        RelatedLose(cfg, slugs, s, t);
      } else {
        RelatedLose(cfg, slugs, t, s);
      }
    }
  }

  // ---------- the services of indexed agents ----------

  /** deriveAgentServiceSlug of an id the indexer allocates: addresses are a fixed prefix and a token number. */
  function IndexedSlug(kind: string, token: nat, used: set<string>): string {
    "agent-" + Allocate(Decimal(token), kind + ":" + Decimal(token), used)
  }

  ghost predicate IsIndexedSlug(slug: string) {
    exists kind: string, token: nat, used: set<string> ::
      (kind == "agent" || kind == "service") && slug == IndexedSlug(kind, token, used)
  }

  /** An allocated id is a number, or starts with its kind and has its only colon right after it. */
  ghost predicate NumberOrKind(id: string, kind: string) {
    || (id != "" && forall i :: 0 <= i < |id| ==> IsDigit(id[i]))
    || (kind + ":" <= id && forall i :: 0 <= i < |id| && id[i] == ':' ==> i == |kind|)
  }

  lemma KindForm(kind: string, rest: string)
    requires ':' !in rest && ':' !in kind
    ensures NumberOrKind(kind + ":" + rest, kind)
  {
    var id := kind + ":" + rest;
    assert id[..|kind| + 1] == kind + ":";
    assert forall i :: 0 <= i < |id| ==>
      id[i] == (if i < |kind| then kind[i] else if i == |kind| then ':' else rest[i - |kind| - 1]);
  }

  lemma LowerAddress(kind: string, digits: string)
    requires kind == "agent" || kind == "service"
    requires forall i :: 0 <= i < |digits| ==> IsDigit(digits[i])
    ensures LowerAscii(kind + ":" + digits) == kind + ":" + digits
  {
  }

  lemma AllocateCases(candidate: string, address: string, used: set<string>) returns (rest: string)
    requires Trim(candidate) == candidate && LowerAscii(address) == address
    ensures ':' !in rest
    ensures Allocate(candidate, address, used) == candidate || Allocate(candidate, address, used) == address + rest
  {
    if address !in used {
      rest := "";
    } else {
      rest := ['-'] + Decimal(FirstFree(address, used, 2));
    }
  }

  lemma AllocatedForm(kind: string, token: nat, used: set<string>)
    requires kind == "agent" || kind == "service"
    ensures NumberOrKind(Allocate(Decimal(token), kind + ":" + Decimal(token), used), kind)
  {
    var digits := Decimal(token);
    TrimFacts(digits);
    LowerAddress(kind, digits);
    var rest := AllocateCases(digits, kind + ":" + digits, used);
    assert (kind + ":" + digits) + rest == kind + ":" + (digits + rest);
    KindForm(kind, digits + rest);
  }

  lemma ColonForces(id1: string, id2: string, kind: string)
    requires NumberOrKind(id2, kind) && id1 + ":" <= id2
    ensures id1 == kind
  {
    assert id2[|id1|] == (id1 + ":")[|id1|] == ':';
    assert id2[..|id1|] == (id1 + ":")[..|id1|] == id1;
    assert id2[..|kind|] == (kind + ":")[..|kind|] == kind;
  }

  lemma KindIsNoId(kind: string, other: string)
    requires kind in {"agent", "service"} && other in {"agent", "service"}
    ensures !NumberOrKind(other, kind)
  {
    assert !IsDigit(other[0]) && ':' !in other;
    assert ':' in kind + ":";
  }

  lemma SlugPrefix(id1: string, id2: string)
    requires "agent-" + id1 + ":" <= "agent-" + id2
    ensures id1 + ":" <= id2
  {
    var slug, other := "agent-" + id1 + ":", "agent-" + id2;
    assert slug[6..] == id1 + ":" && other[6..] == id2;
    assert other[..|slug|][6..] == id2[..|id1| + 1];
  }

  lemma IndexedNotPrefix(slug: string, other: string)
    requires IsIndexedSlug(slug) && IsIndexedSlug(other)
    ensures !(slug + ":" <= other)
  {
    var k1: string, n1: nat, u1: set<string> :| (k1 == "agent" || k1 == "service") && slug == IndexedSlug(k1, n1, u1);
    var k2: string, n2: nat, u2: set<string> :| (k2 == "agent" || k2 == "service") && other == IndexedSlug(k2, n2, u2);
    AllocatedForm(k1, n1, u1);
    AllocatedForm(k2, n2, u2);
    KindIsNoId(k1, k2);
    if slug + ":" <= other {
      var id1 := Allocate(Decimal(n1), k1 + ":" + Decimal(n1), u1);
      var id2 := Allocate(Decimal(n2), k2 + ":" + Decimal(n2), u2);
      SlugPrefix(id1, id2);
      ColonForces(id1, id2, k2);
    }
  }

  /** No two services of indexed agents are related, whatever ids were in use when theirs were allocated. */
  lemma IndexedSlugsAreUnrelated()
    ensures Unrelated(iset s | IsIndexedSlug(s))
  {
    forall s, t | IsIndexedSlug(s) && IsIndexedSlug(t) ensures !Related(s, t) {
      IndexedNotPrefix(s, t);
      IndexedNotPrefix(t, s);
    }
  }

  /** So for the services of indexed agents a payer below its own caps loses nothing. */
  lemma IndexedAgentsLoseNothing(cfg: Config, rows: seq<Row>)
    requires RowsOf(rows, iset s | IsIndexedSlug(s))
    ensures NothingLost(cfg, rows)
  {
    IndexedSlugsAreUnrelated();
    UnrelatedLoseNothing(cfg, rows, iset s | IsIndexedSlug(s));
  }
}
