/** The capped two-pass accumulation of lib/x402-score-rollup.ts, in exact integers. */
module X402Rollup {
  import opened MapSums
  import opened Text

  /** One settlement event; `supported` says that scheme and asset are accepted. */
  datatype Row = Row(agent: string, service: string, payer: string, day: string, amount: int,
                     success: bool, related: bool, counted: bool, supported: bool)

  datatype Config = Config(countCap: int, amountMultiplier: int)

  datatype Accumulator = Accumulator(relatedFiltered: nat, observed: nat, succeeded: nat, qualified: nat,
                                     unique: set<string>, counts: map<string, int>, activeDays: set<string>,
                                     gross: int, net: int, payerNet: map<string, int>)

  datatype Usage = Usage(requests: nat, amount: int)

  /** What was counted, in order; the program keeps only sums of it. */
  datatype Counted = Counted(agent: string, service: string, payer: string, day: string, gross: int, amount: int)

  datatype State = State(agents: map<string, Accumulator>, usage: map<string, Usage>, log: seq<Counted>)

  const EMPTY: Accumulator := Accumulator(0, 0, 0, 0, {}, map[], {}, 0, 0, map[])
  const UNUSED: Usage := Usage(0, 0)

  function AgentOf(row: Row): string {
    Trim(row.agent)
  }

  /** getOrCreateAccumulator. */
  function AccumulatorOf(agents: map<string, Accumulator>, agent: string): Accumulator {
    if agent in agents then agents[agent] else EMPTY
  }

  predicate Eligible(row: Row) {
    AgentOf(row) != "" && !row.related && row.success && row.counted && row.supported
  }

  // ---------- first pass ----------

  function Observe(acc: Accumulator, row: Row): Accumulator {
    if row.related then acc.(relatedFiltered := acc.relatedFiltered + 1)
    else if !row.supported then acc
    else acc.(observed := acc.observed + 1, succeeded := acc.succeeded + (if row.success then 1 else 0))
  }

  function ObserveAll(rows: seq<Row>): map<string, Accumulator> {
    if rows == [] then map[]
    else
      var agents, row := ObserveAll(rows[..|rows| - 1]), rows[|rows| - 1];
      var agent := AgentOf(row);
      if agent == "" then agents else agents[agent := Observe(AccumulatorOf(agents, agent), row)]
  }

  /** The smallest eligible amount of each service. */
  function Minima(rows: seq<Row>): map<string, int> {
    if rows == [] then map[]
    else
      var minima, row := Minima(rows[..|rows| - 1]), rows[|rows| - 1];
      if !Eligible(row) then minima
      else if row.service !in minima || row.amount < minima[row.service] then minima[row.service := row.amount]
      else minima
  }

  // ---------- second pass ----------

  function UsageKey(service: string, payer: string, day: string): string {
    service + ":" + payer + ":" + day
  }

  function UsageOf(usage: map<string, Usage>, key: string): Usage {
    if key in usage then usage[key] else UNUSED
  }

  /** How much of a row counts, given what its key has used; nothing when a cap is reached. */
  function CountedAmount(cfg: Config, unit: int, used: Usage, amount: int): int {
    if unit <= 0 || used.requests >= cfg.countCap then 0
    else
      var remaining := unit * cfg.amountMultiplier - used.amount;
      if remaining <= 0 then 0
      else
        var counted := if amount > remaining then remaining else amount;
        if counted <= 0 then 0 else counted
  }

  function Credit(acc: Accumulator, row: Row, counted: int): Accumulator {
    acc.(qualified := acc.qualified + 1, unique := acc.unique + {row.payer},
         counts := acc.counts[row.payer := ValueAt(acc.counts, row.payer) + 1],
         activeDays := acc.activeDays + {row.day}, gross := acc.gross + row.amount, net := acc.net + counted,
         payerNet := acc.payerNet[row.payer := ValueAt(acc.payerNet, row.payer) + counted])
  }

  function CountRow(cfg: Config, minima: map<string, int>, st: State, row: Row): State {
    if !Eligible(row) || row.service !in minima then st
    else
      var key := UsageKey(row.service, row.payer, row.day);
      var used := UsageOf(st.usage, key);
      var counted := CountedAmount(cfg, minima[row.service], used, row.amount);
      if minima[row.service] <= 0 || counted == 0 then st
      else
        var agent := AgentOf(row);
        State(st.agents[agent := Credit(AccumulatorOf(st.agents, agent), row, counted)],
              st.usage[key := Usage(used.requests + 1, used.amount + counted)],
              st.log + [Counted(agent, row.service, row.payer, row.day, row.amount, counted)])
  }

  function CountAll(cfg: Config, minima: map<string, int>, start: State, rows: seq<Row>): State {
    if rows == [] then start
    else CountRow(cfg, minima, CountAll(cfg, minima, start, rows[..|rows| - 1]), rows[|rows| - 1])
  }

  function Rollups(cfg: Config, rows: seq<Row>): State {
    CountAll(cfg, Minima(rows), State(ObserveAll(rows), map[], []), rows)
  }

  method FirstPass(rows: seq<Row>) returns (agents: map<string, Accumulator>, minima: map<string, int>)
    ensures agents == ObserveAll(rows) && minima == Minima(rows)
  {
    agents, minima := map[], map[];
    for k := 0 to |rows|
      invariant agents == ObserveAll(rows[..k]) && minima == Minima(rows[..k])
    {
      assert rows[..k + 1][..k] == rows[..k];
      var row := rows[k];
      var agent := AgentOf(row);
      if agent == "" {
        continue;
      }
      var acc := AccumulatorOf(agents, agent);
      if row.related {
        agents := agents[agent := acc.(relatedFiltered := acc.relatedFiltered + 1)];
        continue;
      }
      if !row.supported {
        agents := agents[agent := acc];
        continue;
      }
      acc := acc.(observed := acc.observed + 1);
      if row.success {
        acc := acc.(succeeded := acc.succeeded + 1);
      }
      agents := agents[agent := acc];
      if !row.success || !row.counted {
        continue;
      }
      if row.service !in minima || row.amount < minima[row.service] {
        minima := minima[row.service := row.amount];
      }
    }
    assert rows[..|rows|] == rows;
  }

  method SecondPass(cfg: Config, minima: map<string, int>, observed: map<string, Accumulator>, rows: seq<Row>)
    returns (agents: map<string, Accumulator>, usage: map<string, Usage>)
    ensures agents == CountAll(cfg, minima, State(observed, map[], []), rows).agents
    ensures usage == CountAll(cfg, minima, State(observed, map[], []), rows).usage
  {
    agents, usage := observed, map[];
    ghost var log: seq<Counted> := [];
    for k := 0 to |rows|
      invariant State(agents, usage, log) == CountAll(cfg, minima, State(observed, map[], []), rows[..k])
    {
      assert rows[..k + 1][..k] == rows[..k];
      var row := rows[k];
      if !Eligible(row) || row.service !in minima || minima[row.service] <= 0 {
        continue;
      }
      var agent := AgentOf(row);
      var key := UsageKey(row.service, row.payer, row.day);
      var used := UsageOf(usage, key);
      if used.requests >= cfg.countCap {
        continue;
      }
      var remaining := minima[row.service] * cfg.amountMultiplier - used.amount;
      if remaining <= 0 {
        continue;
      }
      var counted := if row.amount > remaining then remaining else row.amount;
      if counted <= 0 {
        continue;
      }
      assert counted == CountedAmount(cfg, minima[row.service], used, row.amount);
      usage := usage[key := Usage(used.requests + 1, used.amount + counted)];
      log := log + [Counted(agent, row.service, row.payer, row.day, row.amount, counted)];
      agents := agents[agent := Credit(AccumulatorOf(agents, agent), row, counted)];
    }
    assert rows[..|rows|] == rows;
  }

  /** fetchX402AgentRollups. */
  method FetchAgentRollups(cfg: Config, rows: seq<Row>)
    returns (agents: map<string, Accumulator>, usage: map<string, Usage>)
    ensures agents == Rollups(cfg, rows).agents && usage == Rollups(cfg, rows).usage
  {
    var observed, minima := FirstPass(rows);
    agents, usage := SecondPass(cfg, minima, observed, rows);
  }

  // ---------- what holds after every row ----------

  ghost predicate AccumulatorOk(acc: Accumulator) {
    && acc.unique == acc.counts.Keys == acc.payerNet.Keys
    && (forall p :: p in acc.counts ==> acc.counts[p] >= 1)
    && SumOver(acc.counts) == acc.qualified
    && SumOver(acc.payerNet) == acc.net
    && 0 <= acc.net <= acc.gross
    && |acc.activeDays| <= acc.qualified
    && acc.succeeded <= acc.observed
  }

  function NetByAgent(agents: map<string, Accumulator>): map<string, int> {
    map a | a in agents :: agents[a].net
  }

  function AmountByKey(usage: map<string, Usage>): map<string, int> {
    map k | k in usage :: usage[k].amount
  }

  predicate Matches(c: Counted, service: string, payer: string, day: string) {
    c.service == service && c.payer == payer && c.day == day
  }

  function AmountFor(log: seq<Counted>, service: string, payer: string, day: string): int {
    if log == [] then 0
    else
      var c := log[|log| - 1];
      AmountFor(log[..|log| - 1], service, payer, day) + (if Matches(c, service, payer, day) then c.amount else 0)
  }

  function RequestsFor(log: seq<Counted>, service: string, payer: string, day: string): nat {
    if log == [] then 0
    else
      var c := log[|log| - 1];
      RequestsFor(log[..|log| - 1], service, payer, day) + (if Matches(c, service, payer, day) then 1 else 0)
  }

  function AmountTotal(log: seq<Counted>): int {
    if log == [] then 0 else AmountTotal(log[..|log| - 1]) + log[|log| - 1].amount
  }

  /** The caps of one payer with one service on one day, and how they relate to the key's usage. */
  ghost predicate Capped(cfg: Config, minima: map<string, int>, st: State, service: string, payer: string,
                         day: string)
  {
    var used := UsageOf(st.usage, UsageKey(service, payer, day));
    var amount, requests := AmountFor(st.log, service, payer, day), RequestsFor(st.log, service, payer, day);
    && 0 <= amount <= used.amount && requests <= used.requests
    && (requests == 0 ==> amount == 0)
    && (requests > 0 ==>
          service in minima && amount <= minima[service] * cfg.amountMultiplier && requests <= cfg.countCap)
  }

  ghost predicate Inv(cfg: Config, minima: map<string, int>, st: State) {
    && (forall a :: a in st.agents ==> AccumulatorOk(st.agents[a]))
    && SumOver(NetByAgent(st.agents)) == SumOver(AmountByKey(st.usage)) == AmountTotal(st.log)
    && (forall s, p, d :: Capped(cfg, minima, st, s, p, d))
  }

  lemma ObserveKeeps(acc: Accumulator, row: Row)
    requires AccumulatorOk(acc)
    ensures AccumulatorOk(Observe(acc, row)) && Observe(acc, row).net == acc.net
  {
  }

  lemma EmptyOk()
    ensures AccumulatorOk(EMPTY)
  {
  }

  lemma SetNet(agents: map<string, Accumulator>, a: string, acc: Accumulator)
    ensures SumOver(NetByAgent(agents[a := acc]))
        == SumOver(NetByAgent(agents)) - AccumulatorOf(agents, a).net + acc.net
  {
    SumOverUpdate(NetByAgent(agents), a, acc.net);
    assert NetByAgent(agents[a := acc]) == NetByAgent(agents)[a := acc.net];
  }

  lemma SetUsage(usage: map<string, Usage>, key: string, u: Usage)
    ensures SumOver(AmountByKey(usage[key := u])) == SumOver(AmountByKey(usage)) - UsageOf(usage, key).amount + u.amount
  {
    SumOverUpdate(AmountByKey(usage), key, u.amount);
    assert AmountByKey(usage[key := u]) == AmountByKey(usage)[key := u.amount];
  }

  /** Watching a row counts nothing. */
  lemma {:induction false} ObserveAllOk(rows: seq<Row>, a: string)
    requires a in ObserveAll(rows)
    ensures AccumulatorOk(ObserveAll(rows)[a]) && ObserveAll(rows)[a].net == 0
  {
    var init, row := rows[..|rows| - 1], rows[|rows| - 1];
    EmptyOk();
    if a in ObserveAll(init) {
      ObserveAllOk(init, a);
    }
    ObserveKeeps(AccumulatorOf(ObserveAll(init), a), row);
  }

  lemma {:induction false} ZeroSum(m: map<string, int>)
    requires forall k :: k in m ==> m[k] == 0
    ensures SumOver(m) == 0
    decreases |m|
  {
    if m != map[] {
      var k :| k in m;
      SumOverRemove(m, k);
      ZeroSum(m - {k});
    }
  }

  lemma CreditKeeps(acc: Accumulator, row: Row, counted: int)
    requires AccumulatorOk(acc) && 0 < counted <= row.amount
    ensures AccumulatorOk(Credit(acc, row, counted))
  {
    SumOverUpdate(acc.counts, row.payer, ValueAt(acc.counts, row.payer) + 1);
    SumOverUpdate(acc.payerNet, row.payer, ValueAt(acc.payerNet, row.payer) + counted);
  }

  lemma CountedIsWithin(cfg: Config, unit: int, used: Usage, amount: int)
    ensures var c := CountedAmount(cfg, unit, used, amount);
      c != 0 ==> 0 < c <= amount && used.amount + c <= unit * cfg.amountMultiplier && used.requests + 1 <= cfg.countCap
  {
  }

  /** A row that counts, and by how much. */
  ghost predicate Counts(cfg: Config, minima: map<string, int>, st: State, row: Row, counted: int) {
    && row.service in minima
    && var used := UsageOf(st.usage, UsageKey(row.service, row.payer, row.day));
       && 0 < counted <= row.amount && used.amount + counted <= minima[row.service] * cfg.amountMultiplier
       && used.requests + 1 <= cfg.countCap
  }

  function WithRow(st: State, row: Row, counted: int): State {
    var agent, key := AgentOf(row), UsageKey(row.service, row.payer, row.day);
    var used := UsageOf(st.usage, key);
    State(st.agents[agent := Credit(AccumulatorOf(st.agents, agent), row, counted)],
          st.usage[key := Usage(used.requests + 1, used.amount + counted)],
          st.log + [Counted(agent, row.service, row.payer, row.day, row.amount, counted)])
  }

  lemma CountRowCases(cfg: Config, minima: map<string, int>, st: State, row: Row) returns (counted: int)
    ensures CountRow(cfg, minima, st, row) == st
      || (Counts(cfg, minima, st, row, counted) && CountRow(cfg, minima, st, row) == WithRow(st, row, counted))
  {
    counted := 0;
    if row.service in minima {
      var used := UsageOf(st.usage, UsageKey(row.service, row.payer, row.day));
      counted := CountedAmount(cfg, minima[row.service], used, row.amount);
      CountedIsWithin(cfg, minima[row.service], used, row.amount);
    }
  }

  lemma WithRowSums(st: State, row: Row, counted: int)
    requires SumOver(NetByAgent(st.agents)) == SumOver(AmountByKey(st.usage)) == AmountTotal(st.log)
    ensures var st' := WithRow(st, row, counted);
      SumOver(NetByAgent(st'.agents)) == SumOver(AmountByKey(st'.usage)) == AmountTotal(st'.log)
  {
    hide AgentOf, UsageKey, SumOver, NetByAgent, AmountByKey;
    var agent, key := AgentOf(row), UsageKey(row.service, row.payer, row.day);
    var used := UsageOf(st.usage, key);
    SetNet(st.agents, agent, Credit(AccumulatorOf(st.agents, agent), row, counted));
    SetUsage(st.usage, key, Usage(used.requests + 1, used.amount + counted));
    assert WithRow(st, row, counted).log[..|st.log|] == st.log;
  }

  lemma WithRowAgents(st: State, row: Row, counted: int, a: string)
    requires forall x :: x in st.agents ==> AccumulatorOk(st.agents[x])
    requires 0 < counted <= row.amount && a in WithRow(st, row, counted).agents
    ensures AccumulatorOk(WithRow(st, row, counted).agents[a])
  {
    EmptyOk();
    CreditKeeps(AccumulatorOf(st.agents, AgentOf(row)), row, counted);
  }

  lemma CappedStep(cfg: Config, minima: map<string, int>, st: State, row: Row, counted: int, st': State,
                   s: string, p: string, d: string)
    requires Counts(cfg, minima, st, row, counted) && st' == WithRow(st, row, counted)
    requires Capped(cfg, minima, st, s, p, d)
    ensures Capped(cfg, minima, st', s, p, d)
  {
    assert st'.log[..|st.log|] == st.log;
  }

  lemma CountRowInv(cfg: Config, minima: map<string, int>, st: State, row: Row)
    requires Inv(cfg, minima, st)
    ensures Inv(cfg, minima, CountRow(cfg, minima, st, row))
  {
    var counted := CountRowCases(cfg, minima, st, row);
    if CountRow(cfg, minima, st, row) != st {
      var st' := WithRow(st, row, counted);
      WithRowSums(st, row, counted);
      forall a | a in st'.agents ensures AccumulatorOk(st'.agents[a]) {
        WithRowAgents(st, row, counted, a);
      }
      forall s, p, d ensures Capped(cfg, minima, st', s, p, d) {
        CappedStep(cfg, minima, st, row, counted, st', s, p, d);
      }
    }
  }

  lemma {:induction false} CountAllInv(cfg: Config, minima: map<string, int>, start: State, rows: seq<Row>)
    requires Inv(cfg, minima, start)
    ensures Inv(cfg, minima, CountAll(cfg, minima, start, rows))
  {
    if rows != [] {
      CountAllInv(cfg, minima, start, rows[..|rows| - 1]);
      CountRowInv(cfg, minima, CountAll(cfg, minima, start, rows[..|rows| - 1]), rows[|rows| - 1]);
    }
  }

  lemma RollupsInv(cfg: Config, rows: seq<Row>)
    ensures Inv(cfg, Minima(rows), Rollups(cfg, rows))
  {
    var start := State(ObserveAll(rows), map[], []);
    forall a | a in start.agents ensures AccumulatorOk(start.agents[a]) && start.agents[a].net == 0 {
      ObserveAllOk(rows, a);
    }
    ZeroSum(NetByAgent(start.agents));
    assert AmountByKey(map[]) == map[];
    assert Inv(cfg, Minima(rows), start);
    CountAllInv(cfg, Minima(rows), start, rows);
  }

  // ---------- main results ----------

  /** No payer counts more than the caps with one service on one day, whatever rows there are in whatever order. */
  lemma CapsHold(cfg: Config, rows: seq<Row>, service: string, payer: string, day: string)
    ensures var log := Rollups(cfg, rows).log;
      RequestsFor(log, service, payer, day) > 0 ==>
        && service in Minima(rows)
        && RequestsFor(log, service, payer, day) <= cfg.countCap
        && AmountFor(log, service, payer, day) <= cfg.amountMultiplier * Minima(rows)[service]
  {
    RollupsInv(cfg, rows);
    assert Capped(cfg, Minima(rows), Rollups(cfg, rows), service, payer, day);
  }

  /** Net volume over all agents is what was counted over all keys, and what was counted row by row. */
  lemma VolumeIsConserved(cfg: Config, rows: seq<Row>)
    ensures var st := Rollups(cfg, rows);
      SumOver(NetByAgent(st.agents)) == SumOver(AmountByKey(st.usage)) == AmountTotal(st.log)
  {
    RollupsInv(cfg, rows);
  }

  /**
   For every agent: net volume is the sum over its payers and at most the gross volume; the qualified count is
   the sum of the counterparty counts; repeat counterparties are counterparties, and each makes for one more.
   */
  lemma AgentFiguresAgree(cfg: Config, rows: seq<Row>, agent: string)
    requires agent in Rollups(cfg, rows).agents
    ensures var acc := Rollups(cfg, rows).agents[agent];
      && SumOver(acc.payerNet) == acc.net && 0 <= acc.net <= acc.gross
      && SumOver(acc.counts) == acc.qualified
      && acc.unique == acc.counts.Keys == acc.payerNet.Keys
      && |Repeated(acc.counts)| <= |acc.unique|
      && |acc.unique| + |Repeated(acc.counts)| <= acc.qualified
      && |acc.activeDays| <= acc.qualified && acc.succeeded <= acc.observed
  {
    RollupsInv(cfg, rows);
    var acc := Rollups(cfg, rows).agents[agent];
    assert AccumulatorOk(acc);
    CountsCover(acc.counts);
    assert |acc.counts| == |acc.counts.Keys|;
  }

  /** How many rows of an agent are filtered, observed and successful. */
  function RowsWhere(rows: seq<Row>, agent: string, f: Row -> bool): nat {
    if rows == [] then 0
    else
      var row := rows[|rows| - 1];
      RowsWhere(rows[..|rows| - 1], agent, f) + (if AgentOf(row) == agent && f(row) then 1 else 0)
  }

  lemma {:induction false} ObservedExactly(rows: seq<Row>, agent: string)
    requires agent != ""
    ensures var acc := AccumulatorOf(ObserveAll(rows), agent);
      && acc.relatedFiltered == RowsWhere(rows, agent, (r: Row) => r.related)
      && acc.observed == RowsWhere(rows, agent, (r: Row) => !r.related && r.supported)
      && acc.succeeded == RowsWhere(rows, agent, (r: Row) => !r.related && r.supported && r.success)
  {
    if rows != [] {
      ObservedExactly(rows[..|rows| - 1], agent);
    }
  }

  lemma {:induction false} CountingKeepsObserved(cfg: Config, minima: map<string, int>, start: State, rows: seq<Row>,
                                                 agent: string)
    ensures var before := AccumulatorOf(start.agents, agent);
      var after := AccumulatorOf(CountAll(cfg, minima, start, rows).agents, agent);
      && after.relatedFiltered == before.relatedFiltered && after.observed == before.observed
      && after.succeeded == before.succeeded
  {
    if rows != [] {
      CountingKeepsObserved(cfg, minima, start, rows[..|rows| - 1], agent);
    }
  }

  /** The success-rate figures of an agent count its rows: related ones apart, then observed, then successful. */
  lemma ObservationsAreExact(cfg: Config, rows: seq<Row>, agent: string)
    requires agent != ""
    ensures var acc := AccumulatorOf(Rollups(cfg, rows).agents, agent);
      && acc.relatedFiltered == RowsWhere(rows, agent, (r: Row) => r.related)
      && acc.observed == RowsWhere(rows, agent, (r: Row) => !r.related && r.supported)
      && acc.succeeded == RowsWhere(rows, agent, (r: Row) => !r.related && r.supported && r.success)
  {
    ObservedExactly(rows, agent);
    CountingKeepsObserved(cfg, Minima(rows), State(ObserveAll(rows), map[], []), rows, agent);
  }

  /** The amount unit of a service is the least eligible amount, and it occurs. */
  lemma {:induction false} MinimaAreLeast(rows: seq<Row>, service: string)
    ensures service in Minima(rows) <==> exists k :: 0 <= k < |rows| && Eligible(rows[k]) && rows[k].service == service
    ensures service in Minima(rows) ==>
      && (exists k :: 0 <= k < |rows| && Eligible(rows[k]) && rows[k].service == service
            && rows[k].amount == Minima(rows)[service])
      && (forall k :: 0 <= k < |rows| && Eligible(rows[k]) && rows[k].service == service ==>
            rows[k].amount >= Minima(rows)[service])
  {
    if rows != [] {
      MinimaAreLeast(rows[..|rows| - 1], service);
    }
  }
}
