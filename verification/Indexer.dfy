/**
 The incremental indexer of scripts/index-db.ts: chunks of blocks are fetched, resolved and upserted, and the
 cursor is persisted after each. The process may crash at any point; only the table and the cursor survive.
 */
module Indexer {
  import opened Common
  import opened AgentIds
  import opened RangeFetch
  import opened Text
  import Runs
  import Sorting

  datatype Record = Record(address: string, candidate: string, data: string)

  datatype Agent = Agent(agentId: string, data: string)

  type Table = map<string, Agent>

  /** Token metadata as one run of the indexer resolved it. */
  type Resolver = nat -> Option<Record>

  // ---------- upserting ----------

  datatype Rows = Rows(table: Table, used: set<string>)

  function UpsertOne(rows: Rows, r: Record): Rows {
    if r.address in rows.table && rows.table[r.address].agentId != ""
    then rows.(table := rows.table[r.address := Agent(rows.table[r.address].agentId, r.data)])
    else
      var id := Allocate(r.candidate, r.address, rows.used);
      Rows(rows.table[r.address := Agent(id, r.data)], rows.used + {id})
  }

  function UpsertAll(rows: Rows, records: seq<Record>): Rows {
    if records == [] then rows else UpsertOne(UpsertAll(rows, records[..|records| - 1]), records[|records| - 1])
  }

  /** collectUsedAgentIds. */
  function UsedIds(table: Table): set<string> {
    set a | a in table && Trim(table[a].agentId) != "" :: Trim(table[a].agentId)
  }

  /** Ids are proper, and no two agents share one. */
  ghost predicate IdsOk(table: Table) {
    && (forall a :: a in table ==> ProperId(table[a].agentId))
    && (forall a, b :: a in table && b in table && a != b ==> table[a].agentId != table[b].agentId)
  }

  ghost predicate Known(rows: Rows) {
    IdsOk(rows.table) && forall a :: a in rows.table ==> rows.table[a].agentId in rows.used
  }

  lemma LoadedIsKnown(table: Table)
    requires IdsOk(table)
    ensures Known(Rows(table, UsedIds(table)))
  {
    forall a | a in table ensures table[a].agentId in UsedIds(table) {
      TrimFacts(table[a].agentId);
    }
  }

  lemma UpsertOneKeeps(rows: Rows, r: Record)
    requires Known(rows) && ProperId(r.address)
    ensures Known(UpsertOne(rows, r))
    ensures r.address in UpsertOne(rows, r).table
    ensures forall a :: a in rows.table ==>
        a in UpsertOne(rows, r).table && UpsertOne(rows, r).table[a].agentId == rows.table[a].agentId
  {
    AllocatedIsProper(r.candidate, r.address, rows.used);
  }

  ghost predicate ProperRecords(records: seq<Record>) {
    forall k :: 0 <= k < |records| ==> ProperId(records[k].address)
  }

  /** Upserting never gives two agents the same id and never changes an id once given. */
  lemma {:induction false} UpsertKeepsIds(rows: Rows, records: seq<Record>)
    requires Known(rows) && ProperRecords(records)
    ensures Known(UpsertAll(rows, records))
    ensures forall k :: 0 <= k < |records| ==> records[k].address in UpsertAll(rows, records).table
    ensures forall a :: a in rows.table ==>
      a in UpsertAll(rows, records).table && UpsertAll(rows, records).table[a].agentId == rows.table[a].agentId
  {
    if records != [] {
      UpsertKeepsIds(rows, records[..|records| - 1]);
      UpsertOneKeeps(UpsertAll(rows, records[..|records| - 1]), records[|records| - 1]);
    }
  }

  // ---------- one chunk ----------

  predicate HasAddress(records: seq<Record>, address: string) {
    exists k :: 0 <= k < |records| && records[k].address == address
  }

  /** Map.set: a known address keeps its place and gets the new record. */
  function Put(records: seq<Record>, r: Record): seq<Record> {
    if records == [] then [r]
    else if records[0].address == r.address then [r] + records[1..]
    else [records[0]] + Put(records[1..], r)
  }

  predicate NatLeq(a: nat, b: nat) {
    a <= b
  }

  /** The different tokens of the logs, in order of first appearance. */
  function Distinctly(logs: seq<TransferLog>): seq<nat> {
    if logs == [] then []
    else
      var before, t := Distinctly(logs[..|logs| - 1]), logs[|logs| - 1].tokenId;
      if t in before then before else before + [t]
  }

  /** The tokens a chunk resolves: each once, in ascending order. */
  function TokensOf(logs: seq<TransferLog>): seq<nat> {
    Sorting.Sort(NatLeq, Distinctly(logs))
  }

  function Resolved(tokens: seq<nat>, resolve: Resolver): seq<Record> {
    if tokens == [] then []
    else
      var before := Resolved(tokens[..|tokens| - 1], resolve);
      match resolve(tokens[|tokens| - 1])
      case None => before
      case Some(r) => Put(before, r)
  }

  function RecordsOf(logs: seq<TransferLog>, resolve: Resolver): seq<Record> {
    Resolved(TokensOf(logs), resolve)
  }

  lemma {:induction false} DistinctlyFacts(logs: seq<TransferLog>)
    ensures forall t :: t in Distinctly(logs) <==> exists k :: 0 <= k < |logs| && logs[k].tokenId == t
    ensures forall i, j :: 0 <= i < j < |Distinctly(logs)| ==> Distinctly(logs)[i] != Distinctly(logs)[j]
  {
    if logs != [] {
      DistinctlyFacts(logs[..|logs| - 1]);
    }
  }

  /** Every transferred token is resolved, exactly once. */
  lemma TokensFacts(logs: seq<TransferLog>)
    ensures forall t :: t in TokensOf(logs) <==> exists k :: 0 <= k < |logs| && logs[k].tokenId == t
    ensures forall i, j :: 0 <= i < j < |TokensOf(logs)| ==> TokensOf(logs)[i] < TokensOf(logs)[j]
  {
    var some, all := Distinctly(logs), TokensOf(logs);
    var token := (t: nat) => t;
    DistinctlyFacts(logs);
    Sorting.SortFacts(NatLeq, some);
    assert Sorting.DistinctKeys(token, some);
    Sorting.PermutationKeepsKeys(token, some, all);
    forall i, j | 0 <= i < j < |all| ensures all[i] < all[j] {
      assert NatLeq(all[i], all[j]) && token(all[i]) != token(all[j]);
    }
  }

  ghost predicate ProperResolver(resolve: Resolver) {
    forall t :: resolve(t).Some? ==> ProperId(resolve(t).value.address)
  }

  lemma {:induction false} PutFacts(records: seq<Record>, r: Record)
    requires ProperRecords(records) && ProperId(r.address)
    ensures ProperRecords(Put(records, r))
    ensures forall a :: HasAddress(Put(records, r), a) <==> HasAddress(records, a) || a == r.address
  {
    var put := Put(records, r);
    if records == [] {
      assert put[0].address == r.address;
    } else if records[0].address == r.address {
      forall a ensures HasAddress(put, a) <==> HasAddress(records, a) || a == r.address {
        assert put[0].address == records[0].address;
        if k :| 0 <= k < |records| && records[k].address == a { assert put[k].address == a; }
        if k :| 0 <= k < |put| && put[k].address == a { assert records[k].address == a; }
      }
    } else {
      var tail := Put(records[1..], r);
      PutFacts(records[1..], r);
      forall a ensures HasAddress(put, a) <==> HasAddress(records, a) || a == r.address {
        HasAddressCons(records[0], records[1..], a);
        HasAddressCons(records[0], tail, a);
        assert records == [records[0]] + records[1..];
      }
    }
  }

  lemma HasAddressCons(r: Record, records: seq<Record>, a: string)
    ensures HasAddress([r] + records, a) <==> r.address == a || HasAddress(records, a)
  {
    var all := [r] + records;
    assert all[0] == r;
    if k :| 0 <= k < |records| && records[k].address == a { assert all[k + 1].address == a; }
    if k :| 1 <= k < |all| && all[k].address == a { assert records[k - 1].address == a; }
  }

  ghost predicate OnePerAddress(records: seq<Record>) {
    forall i, j :: 0 <= i < j < |records| ==> records[i].address != records[j].address
  }

  lemma {:induction false} PutOnce(records: seq<Record>, r: Record)
    requires OnePerAddress(records)
    ensures OnePerAddress(Put(records, r)) && r in Put(records, r)
    ensures forall x :: x in records && x.address != r.address ==> x in Put(records, r)
    ensures forall x :: x in Put(records, r) ==> x == r || x in records
  {
    if records != [] && records[0].address != r.address {
      PutOnce(records[1..], r);
      assert records == [records[0]] + records[1..];
    }
  }

  lemma {:induction false} ResolvedProper(tokens: seq<nat>, resolve: Resolver)
    requires ProperResolver(resolve)
    ensures ProperRecords(Resolved(tokens, resolve))
  {
    if tokens != [] {
      ResolvedProper(tokens[..|tokens| - 1], resolve);
      var r := resolve(tokens[|tokens| - 1]);
      if r.Some? {
        PutFacts(Resolved(tokens[..|tokens| - 1], resolve), r.value);
      }
    }
  }

  lemma {:induction false} ResolvedOnce(tokens: seq<nat>, resolve: Resolver)
    ensures OnePerAddress(Resolved(tokens, resolve))
  {
    if tokens != [] {
      ResolvedOnce(tokens[..|tokens| - 1], resolve);
      var r := resolve(tokens[|tokens| - 1]);
      if r.Some? {
        PutOnce(Resolved(tokens[..|tokens| - 1], resolve), r.value);
      }
    }
  }

  lemma {:induction false} ResolvedHave(tokens: seq<nat>, resolve: Resolver, k: nat)
    requires ProperResolver(resolve) && k < |tokens| && resolve(tokens[k]).Some?
    ensures HasAddress(Resolved(tokens, resolve), resolve(tokens[k]).value.address)
  {
    var init, r := tokens[..|tokens| - 1], resolve(tokens[|tokens| - 1]);
    if k < |tokens| - 1 {
      ResolvedHave(init, resolve, k);
    }
    if r.Some? {
      ResolvedProper(init, resolve);
      PutFacts(Resolved(init, resolve), r.value);
    }
  }

  /** When several tokens resolve to one address, the last of them is the one that is kept. */
  lemma {:induction false} LastResolvedWins(tokens: seq<nat>, resolve: Resolver, k: nat)
    requires k < |tokens| && resolve(tokens[k]).Some?
    requires forall j :: k < j < |tokens| && resolve(tokens[j]).Some? ==>
      resolve(tokens[j]).value.address != resolve(tokens[k]).value.address
    ensures resolve(tokens[k]).value in Resolved(tokens, resolve)
  {
    var init, r := tokens[..|tokens| - 1], resolve(tokens[|tokens| - 1]);
    ResolvedOnce(init, resolve);
    if k < |tokens| - 1 {
      LastResolvedWins(init, resolve, k);
    }
    if r.Some? {
      PutOnce(Resolved(init, resolve), r.value);
    }
  }

  /** Upserting touches the rows of the records' addresses and no others. */
  lemma {:induction false} UpsertFrame(rows: Rows, records: seq<Record>, a: string)
    requires forall k :: 0 <= k < |records| ==> records[k].address != a
    ensures a in UpsertAll(rows, records).table <==> a in rows.table
    ensures a in rows.table ==> UpsertAll(rows, records).table[a] == rows.table[a]
  {
    if records != [] {
      UpsertFrame(rows, records[..|records| - 1], a);
    }
  }

  /** Each upserted record's data is what the table holds afterwards. */
  lemma {:induction false} UpsertWrites(rows: Rows, records: seq<Record>, k: nat)
    requires OnePerAddress(records) && k < |records|
    ensures var table := UpsertAll(rows, records).table;
      records[k].address in table && table[records[k].address].data == records[k].data
  {
    if k < |records| - 1 {
      UpsertWrites(rows, records[..|records| - 1], k);
    }
  }

  /** After a chunk, the last token that resolves to an address is what the table says about it. */
  lemma ChunkWritesLatest(rows: Rows, logs: seq<TransferLog>, resolve: Resolver, k: nat)
    requires k < |TokensOf(logs)| && resolve(TokensOf(logs)[k]).Some?
    requires forall j :: k < j < |TokensOf(logs)| && resolve(TokensOf(logs)[j]).Some? ==>
      resolve(TokensOf(logs)[j]).value.address != resolve(TokensOf(logs)[k]).value.address
    ensures var r := resolve(TokensOf(logs)[k]).value;
      var table := UpsertAll(rows, RecordsOf(logs, resolve)).table;
      r.address in table && table[r.address].data == r.data
  {
    var records := RecordsOf(logs, resolve);
    LastResolvedWins(TokensOf(logs), resolve, k);
    ResolvedOnce(TokensOf(logs), resolve);
    var i :| 0 <= i < |records| && records[i] == resolve(TokensOf(logs)[k]).value;
    UpsertWrites(rows, records, i);
  }

  lemma RecordsProper(logs: seq<TransferLog>, resolve: Resolver)
    requires ProperResolver(resolve)
    ensures ProperRecords(RecordsOf(logs, resolve))
  {
    ResolvedProper(TokensOf(logs), resolve);
  }

  lemma RecordsHave(logs: seq<TransferLog>, resolve: Resolver, k: nat)
    requires ProperResolver(resolve) && k < |logs| && resolve(logs[k].tokenId).Some?
    ensures HasAddress(RecordsOf(logs, resolve), resolve(logs[k].tokenId).value.address)
  {
    TokensFacts(logs);
    assert logs[k].tokenId in TokensOf(logs);
    var i :| 0 <= i < |TokensOf(logs)| && TokensOf(logs)[i] == logs[k].tokenId;
    ResolvedHave(TokensOf(logs), resolve, i);
  }

  // ---------- runs and crashes ----------

  datatype Position = Position(current: int, last: int)

  type History = map<TransferLog, Option<string>>

  /** `handled` is history: where the record of each transfer's token went when the transfer's chunk was completed. */
  datatype Sys = Sys(table: Table, cursor: Option<int>, handled: History, run: Option<Position>, used: set<string>)

  datatype Settings = Settings(startBlock: int, chunkSize: nat, fetch: Config)

  datatype Event =
    | Begin(head: int)
    | Chunk(net: Network, resolve: Resolver)
    | ChunkCrash(net: Network, resolve: Resolver, rows: nat)
    | Crash

  /** getFromBlock. */
  function FromBlock(st: Settings, cursor: Option<int>): int {
    if cursor.None? || cursor.value <= 0 then st.startBlock else cursor.value + 1
  }

  function ChunkEnd(st: Settings, p: Position): int {
    if p.current + st.chunkSize <= p.last then p.current + st.chunkSize else p.last
  }

  function Handled(logs: seq<TransferLog>, resolve: Resolver): History {
    map k | 0 <= k < |logs| ::
      logs[k] := match resolve(logs[k].tokenId) case None => None case Some(r) => Some(r.address)
  }

  function Next(st: Settings, s: Sys, ev: Event): Sys {
    match ev
    case Begin(head) =>
      var from := FromBlock(st, s.cursor);
      if from > head then s.(cursor := Some(head), run := None)
      else s.(run := Some(Position(from, head)), used := UsedIds(s.table))
    case Chunk(net, resolve) =>
      if s.run.None? || s.run.value.current > s.run.value.last then s
      else
        var p := s.run.value;
        var end := ChunkEnd(st, p);
        (match Fetch(net, st.fetch, p.current, end)
         case None => s.(run := None)
         case Some(logs) =>
           var rows := UpsertAll(Rows(s.table, s.used), RecordsOf(logs, resolve));
           Sys(rows.table, Some(end), s.handled + Handled(logs, resolve), Some(Position(end + 1, p.last)), rows.used))
    case ChunkCrash(net, resolve, n) =>
      if s.run.None? || s.run.value.current > s.run.value.last then s
      else (match Fetch(net, st.fetch, s.run.value.current, ChunkEnd(st, s.run.value))
            case None => s.(run := None)
            case Some(logs) =>
              var records := RecordsOf(logs, resolve);
              s.(table := UpsertAll(Rows(s.table, s.used), records[..Min(n, |records|)]).table, run := None))
    case Crash => s.(run := None)
  }

  function Step(st: Settings): (Sys, Event) -> Sys {
    (s: Sys, ev: Event) => Next(st, s, ev)
  }

  function Run(st: Settings, s: Sys, events: seq<Event>): Sys {
    Runs.Fold(Step(st), s, events)
  }

  ghost predicate Reliable(chain: seq<TransferLog>, ev: Event) {
    match ev
    case Chunk(net, resolve) => Truthful(net, chain) && ProperResolver(resolve)
    case ChunkCrash(net, resolve, _) => Truthful(net, chain) && ProperResolver(resolve)
    case _ => true
  }

  ghost predicate ReliableRun(chain: seq<TransferLog>, events: seq<Event>) {
    forall n :: 0 <= n < |events| ==> Reliable(chain, events[n])
  }

  // ---------- the invariant ----------

  /** Every transfer from the start block up to block `last` has been dealt with. */
  ghost predicate Covered(st: Settings, chain: seq<TransferLog>, handled: History, last: int) {
    forall k :: 0 <= k < |chain| && st.startBlock <= chain[k].block <= last ==> chain[k] in handled
  }

  ghost predicate Stored(table: Table, handled: History) {
    forall t :: t in handled && handled[t].Some? ==> handled[t].value in table
  }

  ghost predicate Inv(st: Settings, chain: seq<TransferLog>, s: Sys) {
    && IdsOk(s.table)
    && Stored(s.table, s.handled)
    && (s.cursor.Some? ==> Covered(st, chain, s.handled, s.cursor.value))
    && (s.run.Some? ==>
          && Known(Rows(s.table, s.used))
          && Covered(st, chain, s.handled, s.run.value.current - 1))
  }

  lemma {:induction false} InRangeHas(chain: seq<TransferLog>, from: int, last: int, k: nat)
    requires k < |chain| && InBlocks(chain[k], from, last)
    ensures chain[k] in InRange(chain, from, last)
  {
    if k < |chain| - 1 {
      InRangeHas(chain[..|chain| - 1], from, last, k);
    }
  }

  lemma ChunkCovers(st: Settings, chain: seq<TransferLog>, handled: History, from: int, end: int, resolve: Resolver)
    requires Covered(st, chain, handled, from - 1)
    ensures Covered(st, chain, handled + Handled(InRange(chain, from, end), resolve), end)
  {
    var logs := InRange(chain, from, end);
    forall k | 0 <= k < |chain| && st.startBlock <= chain[k].block <= end
      ensures chain[k] in handled + Handled(logs, resolve)
    {
      if from <= chain[k].block {
        InRangeHas(chain, from, end, k);
        var i :| 0 <= i < |logs| && logs[i] == chain[k];
        assert logs[i] in Handled(logs, resolve);
      }
    }
  }

  lemma ChunkStores(table: Table, used: set<string>, handled: History, logs: seq<TransferLog>, resolve: Resolver)
    requires Known(Rows(table, used)) && Stored(table, handled) && ProperResolver(resolve)
    ensures var rows := UpsertAll(Rows(table, used), RecordsOf(logs, resolve));
      Known(rows) && Stored(rows.table, handled + Handled(logs, resolve))
  {
    var records := RecordsOf(logs, resolve);
    var rows := UpsertAll(Rows(table, used), records);
    RecordsProper(logs, resolve);
    UpsertKeepsIds(Rows(table, used), records);
    var all := handled + Handled(logs, resolve);
    forall t | t in all && all[t].Some? ensures all[t].value in rows.table {
      if t in Handled(logs, resolve) {
        var k :| 0 <= k < |logs| && logs[k] == t;
        RecordsHave(logs, resolve, k);
      }
    }
  }

  lemma CrashStores(table: Table, used: set<string>, handled: History, records: seq<Record>, n: nat)
    requires Known(Rows(table, used)) && Stored(table, handled) && ProperRecords(records) && n <= |records|
    ensures var rows := UpsertAll(Rows(table, used), records[..n]);
      IdsOk(rows.table) && Stored(rows.table, handled)
  {
    UpsertKeepsIds(Rows(table, used), records[..n]);
  }

  lemma ChunkInv(st: Settings, chain: seq<TransferLog>, s: Sys, net: Network, resolve: Resolver)
    requires Inv(st, chain, s) && InOrder(chain) && Truthful(net, chain) && ProperResolver(resolve)
    ensures Inv(st, chain, Next(st, s, Chunk(net, resolve)))
  {
    if s.run.Some? && s.run.value.current <= s.run.value.last {
      var p := s.run.value;
      var end := ChunkEnd(st, p);
      FetchIsExact(net, st.fetch, chain, p.current, end);
      if Fetch(net, st.fetch, p.current, end).Some? {
        ChunkCovers(st, chain, s.handled, p.current, end, resolve);
        ChunkStores(s.table, s.used, s.handled, InRange(chain, p.current, end), resolve);
      }
    }
  }

  lemma ChunkCrashInv(st: Settings, chain: seq<TransferLog>, s: Sys, net: Network, resolve: Resolver, n: nat)
    requires Inv(st, chain, s) && ProperResolver(resolve)
    ensures Inv(st, chain, Next(st, s, ChunkCrash(net, resolve, n)))
  {
    if s.run.Some? {
      var logs := Fetch(net, st.fetch, s.run.value.current, ChunkEnd(st, s.run.value));
      if logs.Some? {
        var records := RecordsOf(logs.value, resolve);
        RecordsProper(logs.value, resolve);
        CrashStores(s.table, s.used, s.handled, records, Min(n, |records|));
      }
    }
  }

  lemma CoveredBelow(st: Settings, chain: seq<TransferLog>, handled: History, cursor: Option<int>, last: int)
    requires cursor.Some? ==> Covered(st, chain, handled, cursor.value)
    requires last < FromBlock(st, cursor)
    ensures Covered(st, chain, handled, last)
  {
    if cursor.Some? && cursor.value > 0 {
      assert last <= cursor.value;
    } else {
      assert last < st.startBlock;
    }
  }

  lemma BeginInv(st: Settings, chain: seq<TransferLog>, s: Sys, head: int)
    requires Inv(st, chain, s)
    ensures Inv(st, chain, Next(st, s, Begin(head)))
  {
    var from := FromBlock(st, s.cursor);
    var s' := Next(st, s, Begin(head));
    if from > head {
      CoveredBelow(st, chain, s.handled, s.cursor, head);
      assert s' == Sys(s.table, Some(head), s.handled, None, s.used);
    } else {
      LoadedIsKnown(s.table);
      CoveredBelow(st, chain, s.handled, s.cursor, from - 1);
      assert s' == Sys(s.table, s.cursor, s.handled, Some(Position(from, head)), UsedIds(s.table));
    }
  }

  lemma NextInv(st: Settings, chain: seq<TransferLog>, s: Sys, ev: Event)
    requires Inv(st, chain, s) && InOrder(chain) && Reliable(chain, ev)
    ensures Inv(st, chain, Next(st, s, ev))
  {
    match ev
    case Begin(head) => BeginInv(st, chain, s, head);
    case Chunk(net, resolve) => ChunkInv(st, chain, s, net, resolve);
    case ChunkCrash(net, resolve, n) => ChunkCrashInv(st, chain, s, net, resolve, n);
    case Crash =>
  }

  lemma {:induction false} RunInv(st: Settings, chain: seq<TransferLog>, s: Sys, events: seq<Event>)
    requires Inv(st, chain, s) && InOrder(chain) && ReliableRun(chain, events)
    ensures Inv(st, chain, Run(st, s, events))
  {
    if events != [] {
      RunInv(st, chain, s, events[..|events| - 1]);
      NextInv(st, chain, Run(st, s, events[..|events| - 1]), events[|events| - 1]);
    }
  }

  const FRESH: Sys := Sys(map[], None, map[], None, {})

  /**
   Coverage under failure: after any sequence of runs, failed fetches and crashes, every transfer from the start
   block up to the persisted cursor, repeated ones of a token included, has had its token resolved in a chunk of its
   own block and the record, if it resolved to one, upserted.
   */
  lemma CursorIsCovered(st: Settings, chain: seq<TransferLog>, events: seq<Event>, k: nat)
    requires InOrder(chain) && ReliableRun(chain, events) && k < |chain|
    requires var s := Run(st, FRESH, events);
      s.cursor.Some? && st.startBlock <= chain[k].block <= s.cursor.value
    ensures var s := Run(st, FRESH, events);
      var t := chain[k];
      t in s.handled && (s.handled[t].Some? ==> s.handled[t].value in s.table)
  {
    RunInv(st, chain, FRESH, events);
  }

  // ---------- ids, whatever the providers answer ----------

  ghost predicate ProperEvent(ev: Event) {
    ev.Chunk? || ev.ChunkCrash? ==> ProperResolver(ev.resolve)
  }

  ghost predicate ProperRun(events: seq<Event>) {
    forall n :: 0 <= n < |events| ==> ProperEvent(events[n])
  }

  /** Ids are different, and a run in progress knows all of them. */
  ghost predicate TableOk(s: Sys) {
    IdsOk(s.table) && (s.run.Some? ==> Known(Rows(s.table, s.used)))
  }

  lemma RowsKeepIds(rows: Rows, logs: seq<TransferLog>, resolve: Resolver, n: nat)
    requires Known(rows) && ProperResolver(resolve) && n <= |RecordsOf(logs, resolve)|
    ensures Known(UpsertAll(rows, RecordsOf(logs, resolve)[..n]))
  {
    RecordsProper(logs, resolve);
    UpsertKeepsIds(rows, RecordsOf(logs, resolve)[..n]);
  }

  lemma ChunkTableOk(st: Settings, s: Sys, net: Network, resolve: Resolver)
    requires TableOk(s) && ProperResolver(resolve)
    ensures TableOk(Next(st, s, Chunk(net, resolve)))
  {
    if s.run.Some? && s.run.value.current <= s.run.value.last {
      var logs := Fetch(net, st.fetch, s.run.value.current, ChunkEnd(st, s.run.value));
      if logs.Some? {
        var records := RecordsOf(logs.value, resolve);
        assert records[..|records|] == records;
        RowsKeepIds(Rows(s.table, s.used), logs.value, resolve, |records|);
      }
    }
  }

  lemma CrashTableOk(st: Settings, s: Sys, net: Network, resolve: Resolver, n: nat)
    requires TableOk(s) && ProperResolver(resolve)
    ensures TableOk(Next(st, s, ChunkCrash(net, resolve, n)))
  {
    if s.run.Some? && s.run.value.current <= s.run.value.last {
      var logs := Fetch(net, st.fetch, s.run.value.current, ChunkEnd(st, s.run.value));
      if logs.Some? {
        RowsKeepIds(Rows(s.table, s.used), logs.value, resolve, Min(n, |RecordsOf(logs.value, resolve)|));
      }
    }
  }

  lemma NextTableOk(st: Settings, s: Sys, ev: Event)
    requires TableOk(s) && ProperEvent(ev)
    ensures TableOk(Next(st, s, ev))
  {
    match ev
    case Begin(_) => LoadedIsKnown(s.table);
    case Chunk(net, resolve) => ChunkTableOk(st, s, net, resolve);
    case ChunkCrash(net, resolve, n) => CrashTableOk(st, s, net, resolve, n);
    case Crash =>
  }

  /** In every reachable state agent ids are pairwise different, whatever the providers answer. */
  lemma {:induction false} AgentIdsStayDistinct(st: Settings, events: seq<Event>)
    requires ProperRun(events)
    ensures TableOk(Run(st, FRESH, events))
  {
    if events != [] {
      var init, ev := events[..|events| - 1], events[|events| - 1];
      AgentIdsStayDistinct(st, init);
      NextTableOk(st, Run(st, FRESH, init), ev);
    }
  }

  /** A run in progress has nothing left to do at or below the cursor. */
  ghost predicate RunIsAhead(s: Sys) {
    s.run.Some? && s.cursor.Some? && s.run.value.current <= s.run.value.last ==> s.cursor.value <= s.run.value.current
  }

  lemma StepCursor(st: Settings, s: Sys, ev: Event)
    requires st.startBlock >= 0 && RunIsAhead(s)
    ensures RunIsAhead(Next(st, s, ev))
    ensures s.cursor.Some? ==>
      var s' := Next(st, s, ev);
      s'.cursor.Some? && (s'.cursor.value < s.cursor.value <==> ev.Begin? && ev.head < s.cursor.value)
  {
  }

  lemma {:induction false} RunStaysAhead(st: Settings, events: seq<Event>)
    requires st.startBlock >= 0
    ensures RunIsAhead(Run(st, FRESH, events))
  {
    if events != [] {
      RunStaysAhead(st, events[..|events| - 1]);
      StepCursor(st, Run(st, FRESH, events[..|events| - 1]), events[|events| - 1]);
    }
  }

  /**
   In any run a step takes the cursor back exactly when it starts an indexing run with a head below the cursor:
   no chunk, failed fetch or crash ever does, and once there is a cursor it stays.
   */
  lemma CursorGoesBackIff(st: Settings, events: seq<Event>, ev: Event)
    requires st.startBlock >= 0
    ensures var before, after := Run(st, FRESH, events).cursor, Run(st, FRESH, events + [ev]).cursor;
      before.Some? ==> after.Some? && (after.value < before.value <==> ev.Begin? && ev.head < before.value)
  {
    RunStaysAhead(st, events);
    StepCursor(st, Run(st, FRESH, events), ev);
    Runs.FoldAppend(Step(st), FRESH, events, ev);
  }

  // ---------- the program's loops ----------

  /** Chunk after chunk until the run is through or a fetch fails. */
  function ChunkLoop(st: Settings, s: Sys, net: Network, resolve: Resolver): Sys
    decreases if s.run.Some? then Max(0, s.run.value.last + 1 - s.run.value.current) else 0
  {
    if s.run.None? || s.run.value.current > s.run.value.last then s
    else
      var s' := Next(st, s, Chunk(net, resolve));
      if s'.run.None? then s' else ChunkLoop(st, s', net, resolve)
  }

  lemma LoopStep(st: Settings, s: Sys, net: Network, resolve: Resolver, s': Sys)
    requires s.run.Some? && s.run.value.current <= s.run.value.last && s' == Next(st, s, Chunk(net, resolve))
    ensures ChunkLoop(st, s, net, resolve) == if s'.run.None? then s' else ChunkLoop(st, s', net, resolve)
  {
  }

  class Script {
    var table: Table
    var cursor: Option<int>

    constructor ()
      ensures table == map[] && cursor == None
    {
      table, cursor := map[], None;
    }

    method UpsertAgents(records: seq<Record>, usedBefore: set<string>) returns (used: set<string>)
      modifies this`table
      ensures Rows(table, used) == UpsertAll(Rows(old(table), usedBefore), records)
    {
      used := usedBefore;
      for k := 0 to |records|
        invariant Rows(table, used) == UpsertAll(Rows(old(table), usedBefore), records[..k])
      {
        assert records[..k + 1][..k] == records[..k];
        var r := records[k];
        var id := "";
        if r.address in table {
          id := table[r.address].agentId;
        }
        if id == "" {
          id, used := AllocateUniqueAgentId(r.candidate, r.address, used);
        }
        table := table[r.address := Agent(id, r.data)];
      }
      assert records[..|records|] == records;
    }

    /** One chunk: fetch, resolve, upsert, persist the cursor. */
    method ProcessChunk(st: Settings, net: Network, resolve: Resolver, p: Position, usedBefore: set<string>,
                        ghost handled: History) returns (ok: bool, used: set<string>)
      requires p.current <= p.last
      modifies this
      ensures var s := Next(st, Sys(old(table), old(cursor), handled, Some(p), usedBefore), Chunk(net, resolve));
        && s == Sys(table, cursor, s.handled, s.run, used)
        && s.run == if ok then Some(Position(ChunkEnd(st, p) + 1, p.last)) else None
    {
      used := usedBefore;
      var end := if p.current + st.chunkSize <= p.last then p.current + st.chunkSize else p.last;
      var logs := FetchTransferLogsForRange(net, st.fetch, p.current, end);
      if logs.None? {
        return false, used;
      }
      var records := RecordsOf(logs.value, resolve);
      if |records| > 0 {
        used := UpsertAgents(records, used);
      }
      cursor := Some(end);
      ok := true;
    }

    /** The chunk loop; false when a fetch fails, which ends the run. */
    method IndexIncremental(st: Settings, net: Network, resolve: Resolver, from: int, last: int) returns (ok: bool)
      requires from <= last
      modifies this
      ensures var start := Sys(old(table), old(cursor), map[], Some(Position(from, last)), UsedIds(old(table)));
        var end := ChunkLoop(st, start, net, resolve);
        table == end.table && cursor == end.cursor && (ok <==> end.run.Some?)
    {
      var used := UsedIds(table);
      var current := from;
      ghost var s := Sys(table, cursor, map[], Some(Position(from, last)), used);
      ghost var whole := ChunkLoop(st, s, net, resolve);
      while current <= last
        invariant s == Sys(table, cursor, s.handled, Some(Position(current, last)), used)
        invariant ChunkLoop(st, s, net, resolve) == whole
        decreases last - current
      {
        var p := Position(current, last);
        ghost var before := s;
        ok, used := ProcessChunk(st, net, resolve, p, used, s.handled);
        s := Next(st, before, Chunk(net, resolve));
        LoopStep(st, before, net, resolve, s);
        if !ok {
          return;
        }
        current := ChunkEnd(st, p) + 1;
      }
      ok := true;
    }
  }
}
