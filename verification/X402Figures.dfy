/**
 What the figures of the score rollup are, told from the rows that counted: every agent figure and every usage is a
 count or a sum over them, and which row counts, for how much, follows from the rows before it.
 */
module X402Figures {
  import opened MapSums
  import opened Text
  import opened X402Rollup

  function CountWhere(log: seq<Counted>, f: Counted -> bool): nat {
    if log == [] then 0 else CountWhere(log[..|log| - 1], f) + (if f(log[|log| - 1]) then 1 else 0)
  }

  function AmountWhere(log: seq<Counted>, f: Counted -> bool): int {
    if log == [] then 0
    else AmountWhere(log[..|log| - 1], f) + (if f(log[|log| - 1]) then log[|log| - 1].amount else 0)
  }

  function GrossWhere(log: seq<Counted>, f: Counted -> bool): int {
    if log == [] then 0
    else GrossWhere(log[..|log| - 1], f) + (if f(log[|log| - 1]) then log[|log| - 1].gross else 0)
  }

  lemma WhereMore(log: seq<Counted>, c: Counted, f: Counted -> bool)
    ensures CountWhere(log + [c], f) == CountWhere(log, f) + (if f(c) then 1 else 0)
    ensures AmountWhere(log + [c], f) == AmountWhere(log, f) + (if f(c) then c.amount else 0)
    ensures GrossWhere(log + [c], f) == GrossWhere(log, f) + (if f(c) then c.gross else 0)
  {
    assert (log + [c])[..|log|] == log;
  }

  function ByAgent(agent: string): Counted -> bool {
    (c: Counted) => c.agent == agent
  }

  function ByPayer(agent: string, payer: string): Counted -> bool {
    (c: Counted) => c.agent == agent && c.payer == payer
  }

  function ByKey(key: string): Counted -> bool {
    (c: Counted) => UsageKey(c.service, c.payer, c.day) == key
  }

  // ---------- figures of an agent ----------

  /** The figures of one agent, read off the rows that counted. */
  ghost predicate FiguresAre(acc: Accumulator, log: seq<Counted>, agent: string) {
    && acc.qualified == CountWhere(log, ByAgent(agent))
    && acc.gross == GrossWhere(log, ByAgent(agent)) && acc.net == AmountWhere(log, ByAgent(agent))
    && acc.unique == (set c | c in log && c.agent == agent :: c.payer)
    && acc.activeDays == (set c | c in log && c.agent == agent :: c.day)
    && forall payer :: ValueAt(acc.counts, payer) == CountWhere(log, ByPayer(agent, payer))
         && ValueAt(acc.payerNet, payer) == AmountWhere(log, ByPayer(agent, payer))
  }

  lemma SetsMore(log: seq<Counted>, c: Counted, agent: string)
    ensures (set x | x in log + [c] && x.agent == agent :: x.payer)
         == (set x | x in log && x.agent == agent :: x.payer) + (if c.agent == agent then {c.payer} else {})
    ensures (set x | x in log + [c] && x.agent == agent :: x.day)
         == (set x | x in log && x.agent == agent :: x.day) + (if c.agent == agent then {c.day} else {})
  {
    assert c in log + [c] && forall x :: x in log ==> x in log + [c];
  }

  lemma FiguresStep(st: State, row: Row, counted: int, agent: string)
    requires FiguresAre(AccumulatorOf(st.agents, agent), st.log, agent)
    ensures var st' := WithRow(st, row, counted);
      FiguresAre(AccumulatorOf(st'.agents, agent), st'.log, agent)
  {
    var c := Counted(AgentOf(row), row.service, row.payer, row.day, row.amount, counted);
    SetsMore(st.log, c, agent);
    WhereMore(st.log, c, ByAgent(agent));
    var acc' := AccumulatorOf(WithRow(st, row, counted).agents, agent);
    forall payer
      ensures ValueAt(acc'.counts, payer) == CountWhere(st.log + [c], ByPayer(agent, payer))
      ensures ValueAt(acc'.payerNet, payer) == AmountWhere(st.log + [c], ByPayer(agent, payer))
    {
      WhereMore(st.log, c, ByPayer(agent, payer));
    }
  }

  lemma NoFigures(acc: Accumulator, agent: string)
    requires acc == EMPTY.(relatedFiltered := acc.relatedFiltered, observed := acc.observed, succeeded := acc.succeeded)
    ensures FiguresAre(acc, [], agent)
  {
  }

  lemma {:induction false} NothingQualified(rows: seq<Row>, agent: string)
    ensures var acc := AccumulatorOf(ObserveAll(rows), agent);
      acc == EMPTY.(relatedFiltered := acc.relatedFiltered, observed := acc.observed, succeeded := acc.succeeded)
  {
    if rows != [] {
      NothingQualified(rows[..|rows| - 1], agent);
    }
  }

  lemma {:induction false} CountAllFigures(cfg: Config, minima: map<string, int>, start: State, rows: seq<Row>,
                                           agent: string)
    requires FiguresAre(AccumulatorOf(start.agents, agent), start.log, agent)
    ensures var st := CountAll(cfg, minima, start, rows);
      FiguresAre(AccumulatorOf(st.agents, agent), st.log, agent)
  {
    if rows != [] {
      var init, row := rows[..|rows| - 1], rows[|rows| - 1];
      CountAllFigures(cfg, minima, start, init, agent);
      var st := CountAll(cfg, minima, start, init);
      var counted := CountRowCases(cfg, minima, st, row);
      FiguresStep(st, row, counted, agent);
    }
  }

  /**
   For any rows: an agent's qualified count, gross and net volume, counterparties, active days, and the count and net
   volume of each counterparty are the counts, sums and sets over the agent's rows that counted.
   */
  lemma AgentFiguresAre(cfg: Config, rows: seq<Row>, agent: string)
    ensures var st := Rollups(cfg, rows);
      FiguresAre(AccumulatorOf(st.agents, agent), st.log, agent)
  {
    NothingQualified(rows, agent);
    NoFigures(AccumulatorOf(ObserveAll(rows), agent), agent);
    CountAllFigures(cfg, Minima(rows), State(ObserveAll(rows), map[], []), rows, agent);
  }

  // ---------- usage ----------

  lemma {:induction false} UsageIs(cfg: Config, minima: map<string, int>, agents: map<string, Accumulator>,
                                   rows: seq<Row>, key: string)
    ensures var st := CountAll(cfg, minima, State(agents, map[], []), rows);
      UsageOf(st.usage, key) == Usage(CountWhere(st.log, ByKey(key)), AmountWhere(st.log, ByKey(key)))
  {
    if rows != [] {
      var init, row := rows[..|rows| - 1], rows[|rows| - 1];
      UsageIs(cfg, minima, agents, init, key);
      var st := CountAll(cfg, minima, State(agents, map[], []), init);
      var counted := CountRowCases(cfg, minima, st, row);
      var c := Counted(AgentOf(row), row.service, row.payer, row.day, row.amount, counted);
      WhereMore(st.log, c, ByKey(key));
    }
  }

  // ---------- which row counts ----------

  /** What is left of the amount cap of a row's key when the rows before it have been counted. */
  function Left(cfg: Config, unit: int, log: seq<Counted>, row: Row): int {
    unit * cfg.amountMultiplier - AmountWhere(log, ByKey(UsageKey(row.service, row.payer, row.day)))
  }

  /** The row is a settlement that may count: of a named agent, unrelated, successful, countable and supported. */
  predicate MayCount(row: Row) {
    Trim(row.agent) != "" && !row.related && row.success && row.counted && row.supported
  }

  /**
   One row more: it counts exactly if it may, its service has a positive unit, its key has used less than the request
   cap, and something of its amount fits what is left of the amount cap; it then counts for the part that fits.
   */
  lemma OneMoreRow(cfg: Config, minima: map<string, int>, agents: map<string, Accumulator>, rows: seq<Row>, row: Row)
    ensures var log := CountAll(cfg, minima, State(agents, map[], []), rows).log;
      var log' := CountAll(cfg, minima, State(agents, map[], []), rows + [row]).log;
      var key := UsageKey(row.service, row.payer, row.day);
      if MayCount(row) && row.service in minima && minima[row.service] > 0
         && CountWhere(log, ByKey(key)) < cfg.countCap && Left(cfg, minima[row.service], log, row) > 0 && row.amount > 0
      then
        var left := Left(cfg, minima[row.service], log, row);
        log' == log + [Counted(Trim(row.agent), row.service, row.payer, row.day, row.amount,
                               if row.amount <= left then row.amount else left)]
      else log' == log
  {
    assert (rows + [row])[..|rows|] == rows;
    UsageIs(cfg, minima, agents, rows, UsageKey(row.service, row.payer, row.day));
  }

  /** The unit of a service is the least amount of a row that may count for it; there is none without such a row. */
  lemma UnitIsLeast(rows: seq<Row>, service: string, least: int)
    ensures service in Minima(rows) && Minima(rows)[service] == least
       <==> (exists k :: 0 <= k < |rows| && MayCount(rows[k]) && rows[k].service == service && rows[k].amount == least)
            && (forall k :: 0 <= k < |rows| && MayCount(rows[k]) && rows[k].service == service ==>
                  rows[k].amount >= least)
  {
    MinimaAreLeast(rows, service);
    assert forall row :: MayCount(row) == Eligible(row);
  }
}
