/** How far a run of the indexer gets: which blocks each chunk takes, and when the cursor reaches the head. */
module IndexerRuns {
  import opened Common
  import opened AgentIds
  import opened RangeFetch
  import opened Indexer
  import Runs

  /** Where a run starts: behind the cursor, or at the start block while there is no cursor to speak of. */
  lemma BeginIs(st: Settings, s: Sys, head: int)
    ensures var from := if s.cursor.GetOr(0) > 0 then s.cursor.value + 1 else st.startBlock;
      var s' := Next(st, s, Begin(head));
      && s'.table == s.table && s'.handled == s.handled
      && (from <= head ==> s'.run == Some(Position(from, head)) && s'.cursor == s.cursor)
      && (from > head ==> s'.run == None && s'.cursor == Some(head))
  {
  }

  /** A chunk's blocks are from where the run stands, `chunkSize` more than one of them, or up to the head. */
  function LastOf(st: Settings, p: Position): int {
    Min(p.current + st.chunkSize, p.last)
  }

  /**
   A chunk whose logs are fetched writes the records of exactly those logs and takes the cursor to its last block; the
   next one starts right behind it. One whose logs are not fetched ends the run and writes nothing.
   */
  lemma ChunkIs(st: Settings, s: Sys, net: Network, resolve: Resolver)
    requires s.run.Some? && s.run.value.current <= s.run.value.last
    ensures var p, s' := s.run.value, Next(st, s, Chunk(net, resolve));
      var logs := Fetch(net, st.fetch, p.current, LastOf(st, p));
      && (logs.None? ==> s' == s.(run := None))
      && (logs.Some? ==>
            && s'.cursor == Some(LastOf(st, p)) && s'.run == Some(Position(LastOf(st, p) + 1, p.last))
            && Rows(s'.table, s'.used) == UpsertAll(Rows(s.table, s.used), RecordsOf(logs.value, resolve)))
  {
  }

  /** A crash in the middle of a chunk leaves the records before it written and the cursor where it was. */
  lemma CrashIs(st: Settings, s: Sys, net: Network, resolve: Resolver, n: nat)
    requires s.run.Some? && s.run.value.current <= s.run.value.last
    ensures var p, s' := s.run.value, Next(st, s, ChunkCrash(net, resolve, n));
      var logs := Fetch(net, st.fetch, p.current, LastOf(st, p));
      && s'.run == None && s'.cursor == s.cursor && s'.handled == s.handled
      && (logs.None? ==> s'.table == s.table)
      && (logs.Some? ==>
            var records := RecordsOf(logs.value, resolve);
            s'.table == UpsertAll(Rows(s.table, s.used), if n < |records| then records[..n] else records).table)
  {
    if Fetch(net, st.fetch, s.run.value.current, LastOf(st, s.run.value)).Some? {
      var records := RecordsOf(Fetch(net, st.fetch, s.run.value.current, LastOf(st, s.run.value)).value, resolve);
      assert records[..|records|] == records;
    }
  }

  /** Every fetch of the network succeeds. */
  ghost predicate Serves(net: Network, cfg: Config) {
    forall from, last :: Fetch(net, cfg, from, last).Some?
  }

  ghost predicate AllServe(st: Settings, chunks: seq<Event>) {
    forall k :: 0 <= k < |chunks| ==> chunks[k].Chunk? && Serves(chunks[k].net, st.fetch)
  }

  /** The first block behind the first n chunks of a run. */
  function Behind(st: Settings, from: int, head: int, n: nat): int {
    Min(from + n * (st.chunkSize + 1), head + 1)
  }

  lemma BehindNext(st: Settings, from: int, head: int, n: nat)
    requires from <= head && n > 0
    ensures var before := Behind(st, from, head, n - 1);
      Behind(st, from, head, n) == if before > head then before else LastOf(st, Position(before, head)) + 1
  {
    assert n * (st.chunkSize + 1) == (n - 1) * (st.chunkSize + 1) + (st.chunkSize + 1);
  }

  lemma BehindNone(st: Settings, from: int, head: int)
    requires from <= head
    ensures Behind(st, from, head, 0) == from
  {
  }

  lemma BehindEnd(st: Settings, from: int, head: int, n: nat)
    ensures var end := n * (st.chunkSize + 1);
      && Behind(st, from, head, n) - 1 == Min(from + end - 1, head)
      && (Behind(st, from, head, n) - 1 == head <==> end >= head - from + 1)
  {
  }

  lemma {:induction false} ChunksAdvance(st: Settings, s: Sys, from: int, head: int, chunks: seq<Event>)
    requires s.run == Some(Position(from, head)) && from <= head && AllServe(st, chunks)
    ensures var s' := Run(st, s, chunks);
      && s'.run == Some(Position(Behind(st, from, head, |chunks|), head))
      && (chunks != [] ==> s'.cursor == Some(Behind(st, from, head, |chunks|) - 1))
  {
    hide Behind;
    if chunks == [] {
      BehindNone(st, from, head);
    } else {
      var init, ev := chunks[..|chunks| - 1], chunks[|chunks| - 1];
      ChunksAdvance(st, s, from, head, init);
      BehindNext(st, from, head, |chunks|);
      var mid := Run(st, s, init);
      if init == [] {
        BehindNone(st, from, head);
      }
      if mid.run.value.current <= head {
        ChunkIs(st, mid, ev.net, ev.resolve);
        assert Fetch(ev.net, st.fetch, mid.run.value.current, LastOf(st, mid.run.value)).Some?;
      }
    }
  }

  lemma BeginFirst(st: Settings, s: Sys, head: int, chunks: seq<Event>)
    ensures Run(st, s, [Begin(head)] + chunks) == Run(st, Next(st, s, Begin(head)), chunks)
  {
    hide Next;
    Runs.FoldJoin(Step(st), s, [Begin(head)], chunks);
    Runs.FoldAppend(Step(st), s, [], Begin(head));
    assert [] + [Begin(head)] == [Begin(head)];
  }

  /**
   How far a run gets when its fetches succeed: after n chunks the cursor is n chunks further, or at the head; so it
   reaches the head with exactly as many chunks as it takes to cover the blocks up to it.
   */
  lemma RunAdvances(st: Settings, s: Sys, head: int, chunks: seq<Event>)
    requires chunks != [] && AllServe(st, chunks)
    requires (if s.cursor.GetOr(0) > 0 then s.cursor.value + 1 else st.startBlock) <= head
    ensures var from := if s.cursor.GetOr(0) > 0 then s.cursor.value + 1 else st.startBlock;
      var s' := Run(st, s, [Begin(head)] + chunks);
      && s'.cursor == Some(Min(from + |chunks| * (st.chunkSize + 1) - 1, head))
      && (s'.cursor == Some(head) <==> |chunks| * (st.chunkSize + 1) >= head - from + 1)
  {
    var from := if s.cursor.GetOr(0) > 0 then s.cursor.value + 1 else st.startBlock;
    hide Next, Run, Behind, AllServe;
    BeginIs(st, s, head);
    BeginFirst(st, s, head, chunks);
    ChunksAdvance(st, Next(st, s, Begin(head)), from, head, chunks);
    BehindEnd(st, from, head, |chunks|);
  }

  /** A new agent gets the id the allocation chooses for it; one that has an id keeps it and gets the new data. */
  lemma UpsertIs(rows: Rows, r: Record)
    ensures var rows' := UpsertOne(rows, r);
      var known := r.address in rows.table && rows.table[r.address].agentId != "";
      var id := if known then rows.table[r.address].agentId else Allocate(r.candidate, r.address, rows.used);
      && rows'.table == rows.table[r.address := Agent(id, r.data)]
      && rows'.used == if known then rows.used else rows.used + {id}
  {
  }
}
