/**
 What a reconcile run does to the rows it read, told from the chain and the tables alone: the last answers the
 chain gave about a row decide what becomes of it, whatever else happens between the read and the write.
 */
module SettlementReconcile {
  import opened Common
  import opened SettlementAmounts
  import opened SettlementState
  import opened SettlementSteps
  import opened SettlementLockstep
  import opened SettlementRun
  import opened SettlementProof
  import opened SettlementTables
  import Runs

  // ---------- the rows of a reconcile run ----------

  predicate Asks(ev: Event, p: nat, k: nat) {
    ev.ReadChain? && !ev.raw && ev.plan == p && ev.row == k
  }

  predicate HasRow(s: Sys, p: nat, k: nat) {
    p < |s.plans| && k < |s.plans[p].rollups|
  }

  lemma StepKeepsRow(s: Sys, ev: Event, p: nat, k: nat)
    requires HasRow(s, p, k)
    ensures HasRow(Next(s, ev), p, k) && |Next(s, ev).plans[p].rollups| == |s.plans[p].rollups|
    ensures var row := s.plans[p].rollups[k];
      Next(s, ev).plans[p].rollups[k] == if Asks(ev, p, k) then Decided(s, row, ev) else row
  {
  }

  /** What was read from the tables stays as it was read. */
  lemma {:induction false} RowAsRead(s: Sys, events: seq<Event>, p: nat, k: nat)
    requires HasRow(s, p, k)
    ensures HasRow(Exec(s, events), p, k) && |Exec(s, events).plans[p].rollups| == |s.plans[p].rollups|
    ensures var row := Exec(s, events).plans[p].rollups[k];
      row == s.plans[p].rollups[k].(outcome := row.outcome)
  {
    if events != [] {
      var init := events[..|events| - 1];
      RowAsRead(s, init, p, k);
      StepKeepsRow(Exec(s, init), events[|events| - 1], p, k);
    }
  }

  /** And nothing else decides it than asking the chain about it. */
  lemma {:induction false} RowNotAsked(s: Sys, events: seq<Event>, p: nat, k: nat)
    requires HasRow(s, p, k)
    requires forall n :: 0 <= n < |events| ==> !Asks(events[n], p, k)
    ensures HasRow(Exec(s, events), p, k) && Exec(s, events).plans[p].rollups[k] == s.plans[p].rollups[k]
  {
    if events != [] {
      var init := events[..|events| - 1];
      RowNotAsked(s, init, p, k);
      StepKeepsRow(Exec(s, init), events[|events| - 1], p, k);
    }
  }

  // ---------- what the chain answers ----------

  /** The contract says that the settlement of rollup r has been processed. */
  predicate SeenProcessed(s: Sys, r: RollupId, ev: Event)
    requires ev.ReadChain?
  {
    ev.sawProcessed && RollupSettlement(r) in s.processed
  }

  /** The recorded transaction has a receipt, which says that it landed or that it reverted. */
  predicate ReceiptSays(s: Sys, tx: Option<TxId>, st: TxStatus, ev: Event)
    requires ev.ReadChain?
  {
    ev.receiptFound && tx.Some? && tx.value < |s.txs| && s.txs[tx.value].status == st
  }

  /** The chain says that rollup r is paid: by the contract's own books, or by a success that is deep enough. */
  predicate SaysPaid(s: Sys, r: RollupId, tx: Option<TxId>, ev: Event)
    requires ev.ReadChain?
  {
    || SeenProcessed(s, r, ev)
    || (ReceiptSays(s, tx, Landed, ev) && ev.confirmations >= ev.minConfirmations)
  }

  /** The chain says that rollup r is not paid and that its transaction reverted. */
  predicate SaysReverted(s: Sys, r: RollupId, tx: Option<TxId>, ev: Event)
    requires ev.ReadChain?
  {
    !SeenProcessed(s, r, ev) && ReceiptSays(s, tx, Reverted, ev)
  }

  lemma OutcomeFollows(s: Sys, row: PlanRow, ev: Event)
    requires ev.ReadChain? && row.settlement == RollupSettlement(row.id)
    ensures Decided(s, row, ev).outcome
         == if SaysPaid(s, row.id, row.tx, ev) then ToConfirm
            else if SaysReverted(s, row.id, row.tx, ev) then ToRequeue
            else KeepSubmitted
  {
  }

  // ---------- what the write does ----------

  /** Rollup r has failed, and each of its earnings is pending and free for another rollup. */
  ghost predicate Frees(db: Db, db': Db, r: RollupId) {
    && r < |db.rollups| == |db'.rollups| && |db.earnings| == |db'.earnings|
    && db'.rollups[r] == db.rollups[r].(status := Failed, batch := None, tx := None)
    && forall i :: i in Members(db.earnings, r) ==>
         db'.earnings[i] == db.earnings[i].(status := Pending, rollup := None, batch := None, tx := None)
  }

  /** Rollup r is confirmed, and so is each of its earnings. */
  ghost predicate Confirms(db: Db, db': Db, r: RollupId) {
    && r < |db.rollups| == |db'.rollups| && |db.earnings| == |db'.earnings|
    && db'.rollups[r] == db.rollups[r].(status := Confirmed)
    && forall i :: i in Members(db.earnings, r) ==> db'.earnings[i] == db.earnings[i].(status := Confirmed)
  }

  /** Neither rollup r nor any of its earnings has changed. */
  ghost predicate Leaves(db: Db, db': Db, r: RollupId) {
    && r < |db.rollups| == |db'.rollups| && |db.earnings| == |db'.earnings|
    && db'.rollups[r] == db.rollups[r]
    && forall i :: i in Members(db.earnings, r) ==> db'.earnings[i] == db.earnings[i]
  }

  ghost predicate OneMove(db: Db, db': Db, ids: seq<RollupId>, rd: RollupData, ed: EarningData) {
    && |db'.rollups| == |db.rollups| && |db'.earnings| == |db.earnings| && |db'.batches| == |db.batches|
    && (forall r :: 0 <= r < |db.rollups| ==>
          db'.rollups[r] == if r in ids then PatchRollup(rd, db.rollups[r]) else db.rollups[r])
    && (forall i :: 0 <= i < |db.earnings| ==>
          var e := db.earnings[i];
          db'.earnings[i] == if e.rollup.Some? && e.rollup.value in ids then PatchEarning(ed, e) else e)
  }

  /** One guarded bulk move rewrites the listed rollups with their earnings, and nothing else. */
  lemma MoveEffect(db: Db, minted: seq<set<EarningId>>, ids: seq<RollupId>, n: nat, rd: RollupData, ed: EarningData)
    requires Lockstep(db, minted) && Matched(rd, ed) && !rd.ClaimRollup?
    requires MoveRollups(db, ids, n, rd, ed).Committed?
    ensures OneMove(db, MoveRollups(db, ids, n, rd, ed).db, ids, rd, ed)
  {
    CountGuardMeans(db.rollups, ids, Submitted);
    forall i | 0 <= i < |db.earnings|
      ensures ids != [] ==> (EarningMatches(OfRollups(SetOf(ids), Submitted), i, db.earnings[i])
        <==> db.earnings[i].rollup.Some? && db.earnings[i].rollup.value in ids)
    {
      assert EarningOk(db, i);
    }
  }

  lemma PlanMoves(db: Db, minted: seq<set<EarningId>>, plan: Plan) returns (mid: Db, db': Db)
    requires Lockstep(db, minted) && PlanIsSnapshot(db, plan) && CommitPlan(db, plan).Committed?
    ensures var rows := plan.rollups;
      && MoveRollups(db, IdsWith(rows, ToConfirm), CountsWith(rows, ToConfirm), ConfirmRollup, Confirm)
           == Committed(mid)
      && MoveRollups(mid, IdsWith(rows, ToRequeue), CountsWith(rows, ToRequeue), FailRollup, Requeue)
           == Committed(db')
      && Lockstep(mid, minted) && Lockstep(db', minted)
      && CommitPlan(db, plan) == Committed(db'.(batches := UpdateBatches(db', rows)))
  {
    var rows := plan.rollups;
    mid := MoveRollups(db, IdsWith(rows, ToConfirm), CountsWith(rows, ToConfirm), ConfirmRollup, Confirm).db;
    MoveRollupsKeeps(db, minted, IdsWith(rows, ToConfirm), CountsWith(rows, ToConfirm), ConfirmRollup, Confirm);
    db' := MoveRollups(mid, IdsWith(rows, ToRequeue), CountsWith(rows, ToRequeue), FailRollup, Requeue).db;
    MoveRollupsKeeps(mid, minted, IdsWith(rows, ToRequeue), CountsWith(rows, ToRequeue), FailRollup, Requeue);
    NothingLegacy(db');
    assert rows + plan.legacy == rows;
  }

  /** Two lists of rollups have been moved, each with its earnings, and nothing else has. */
  ghost predicate Moved(db: Db, db': Db, confirmed: seq<RollupId>, freed: seq<RollupId>) {
    && |db'.rollups| == |db.rollups| && |db'.earnings| == |db.earnings| && |db'.batches| == |db.batches|
    && (forall r :: 0 <= r < |db.rollups| ==>
          db'.rollups[r] == if r in confirmed then PatchRollup(ConfirmRollup, db.rollups[r])
                            else if r in freed then PatchRollup(FailRollup, db.rollups[r])
                            else db.rollups[r])
    && (forall i :: 0 <= i < |db.earnings| ==>
          var e := db.earnings[i];
          db'.earnings[i] == if e.rollup.Some? && e.rollup.value in confirmed then PatchEarning(Confirm, e)
                             else if e.rollup.Some? && e.rollup.value in freed then PatchEarning(Requeue, e)
                             else e)
  }

  lemma NotBoth(rows: seq<PlanRow>, id: nat)
    requires forall j, k :: 0 <= j < k < |rows| ==> rows[j].id != rows[k].id
    requires id in IdsWith(rows, ToConfirm)
    ensures id !in IdsWith(rows, ToRequeue)
  {
    hide IdsWith;
    IdsWithFacts(rows, ToConfirm);
    IdsWithFacts(rows, ToRequeue);
  }

  lemma TwoMoves(db: Db, mid: Db, db': Db, confirmed: seq<RollupId>, freed: seq<RollupId>)
    requires OneMove(db, mid, confirmed, ConfirmRollup, Confirm) && OneMove(mid, db', freed, FailRollup, Requeue)
    requires forall r :: r in confirmed ==> r !in freed
    ensures Moved(db, db', confirmed, freed)
  {
  }

  lemma PlanMoved(db: Db, minted: seq<set<EarningId>>, plan: Plan)
    requires Lockstep(db, minted) && PlanIsSnapshot(db, plan) && CommitPlan(db, plan).Committed?
    ensures var rows := plan.rollups;
      Moved(db, CommitPlan(db, plan).db, IdsWith(rows, ToConfirm), IdsWith(rows, ToRequeue))
  {
    var rows := plan.rollups;
    var confirmed, freed := IdsWith(rows, ToConfirm), IdsWith(rows, ToRequeue);
    var mid, db' := PlanMoves(db, minted, plan);
    MoveEffect(db, minted, confirmed, CountsWith(rows, ToConfirm), ConfirmRollup, Confirm);
    MoveEffect(mid, minted, freed, CountsWith(rows, ToRequeue), FailRollup, Requeue);
    forall r | r in confirmed ensures r !in freed {
      NotBoth(rows, r);
    }
    TwoMoves(db, mid, db', confirmed, freed);
  }

  lemma FateOf(db: Db, db': Db, confirmed: seq<RollupId>, freed: seq<RollupId>, r: RollupId)
    requires Moved(db, db', confirmed, freed) && r < |db.rollups|
    ensures r in confirmed ==> Confirms(db, db', r)
    ensures r !in confirmed && r in freed ==> Frees(db, db', r)
    ensures r !in confirmed && r !in freed ==> Leaves(db, db', r)
  {
  }

  lemma OutcomeOf(rows: seq<PlanRow>, k: nat)
    requires forall i, j :: 0 <= i < j < |rows| ==> rows[i].id != rows[j].id
    requires k < |rows|
    ensures rows[k].id in IdsWith(rows, ToConfirm) <==> rows[k].outcome == ToConfirm
    ensures rows[k].id in IdsWith(rows, ToRequeue) <==> rows[k].outcome == ToRequeue
  {
    IdsWithFacts(rows, ToConfirm);
    IdsWithFacts(rows, ToRequeue);
  }

  /** Every row of the plan meets its fate. */
  lemma RowEffect(db: Db, minted: seq<set<EarningId>>, plan: Plan, k: nat)
    requires Lockstep(db, minted) && PlanIsSnapshot(db, plan) && CommitPlan(db, plan).Committed?
    requires k < |plan.rollups|
    ensures var db', row := CommitPlan(db, plan).db, plan.rollups[k];
      match row.outcome
      case ToConfirm => Confirms(db, db', row.id)
      case ToRequeue => Frees(db, db', row.id)
      case KeepSubmitted => Leaves(db, db', row.id)
  {
    PlanMoved(db, minted, plan);
    OutcomeOf(plan.rollups, k);
    FateOf(db, CommitPlan(db, plan).db, IdsWith(plan.rollups, ToConfirm), IdsWith(plan.rollups, ToRequeue),
           plan.rollups[k].id);
  }

  /** Whatever is not in the plan stays as it is. */
  lemma OthersStay(db: Db, minted: seq<set<EarningId>>, plan: Plan)
    requires Lockstep(db, minted) && PlanIsSnapshot(db, plan) && CommitPlan(db, plan).Committed?
    ensures var db' := CommitPlan(db, plan).db;
      && |db'.rollups| == |db.rollups| && |db'.earnings| == |db.earnings| && |db'.batches| == |db.batches|
      && (forall r: RollupId :: r < |db.rollups| && (forall k :: 0 <= k < |plan.rollups| ==> plan.rollups[k].id != r)
            ==> Leaves(db, db', r))
      && (forall i :: 0 <= i < |db.earnings| && db.earnings[i].rollup == None ==> db'.earnings[i] == db.earnings[i])
  {
    var rows, db' := plan.rollups, CommitPlan(db, plan).db;
    PlanMoved(db, minted, plan);
    IdsWithFacts(rows, ToConfirm);
    IdsWithFacts(rows, ToRequeue);
    forall r: RollupId | r < |db.rollups| && (forall k :: 0 <= k < |rows| ==> rows[k].id != r)
      ensures Leaves(db, db', r)
    {
      FateOf(db, db', IdsWith(rows, ToConfirm), IdsWith(rows, ToRequeue), r);
    }
  }

  // ---------- the statuses of the batches ----------

  lemma {:induction false} RequeuedMeans(rows: seq<PlanRow>, b: BatchId)
    ensures RequeuedIn(rows, b) > 0
       <==> exists k :: 0 <= k < |rows| && rows[k].outcome == ToRequeue && rows[k].batch == Some(b)
  {
    if rows != [] {
      var init := rows[..|rows| - 1];
      RequeuedMeans(init, b);
      if k :| 0 <= k < |rows| && rows[k].outcome == ToRequeue && rows[k].batch == Some(b) {
        if k < |init| {
          assert init[k].outcome == ToRequeue && init[k].batch == Some(b);
        }
      }
    }
  }

  /** Some rollup attached to batch b has the status. */
  ghost predicate Attached(db: Db, b: BatchId, st: Status) {
    exists r :: 0 <= r < |db.rollups| && db.rollups[r].batch == Some(b) && db.rollups[r].status == st
  }

  lemma StatusesOf(db: Db, minted: seq<set<EarningId>>, b: BatchId, st: Status)
    requires Lockstep(db, minted)
    ensures LegacyStatuses(db.earnings, b) == []
    ensures st in RollupStatuses(db.rollups, b) <==> Attached(db, b, st)
    ensures Attached(db, b, st) ==> st in {Submitted, Confirmed}
  {
    forall i | 0 <= i < |db.earnings| ensures db.earnings[i].rollup == None ==> db.earnings[i].batch == None {
      assert EarningOk(db, i);
    }
    NoLegacyStatuses(db.earnings, b);
    RollupStatusesFacts(db.rollups, b);
    forall r | 0 <= r < |db.rollups| && db.rollups[r].batch == Some(b)
      ensures db.rollups[r].status in {Submitted, Confirmed}
    {
      assert RollupOk(db, minted, r);
    }
  }

  /** A list of submitted and confirmed statuses, followed by the failed ones. */
  lemma DerivedFrom(own: seq<Status>, requeued: nat)
    requires forall st :: st in own ==> st in {Submitted, Confirmed}
    ensures DeriveBatchStatus(own + seq(requeued, _ => Failed))
         == if Submitted in own then Some(BatchSubmitted)
            else if requeued > 0 then Some(BatchFailed)
            else if Confirmed in own then Some(BatchConfirmed)
            else None
  {
    var rows := own + seq(requeued, _ => Failed);
    assert forall k :: 0 <= k < |own| ==> rows[k] == own[k] && own[k] in own;
    assert forall k :: |own| <= k < |rows| ==> rows[k] == Failed;
    assert Submitted in own ==> Submitted in rows;
    if own != [] {
      assert own[0] in own;
    }
    assert requeued > 0 ==> rows[|own|] == Failed;
  }

  /** The status derived for a batch whose attached rollups, and whose failed ones, are known. */
  lemma DerivedStatus(db: Db, minted: seq<set<EarningId>>, b: BatchId, requeued: nat)
    requires Lockstep(db, minted)
    ensures NextBatchStatus(db, b, requeued)
         == if Attached(db, b, Submitted) then Some(BatchSubmitted)
            else if requeued > 0 then Some(BatchFailed)
            else if Attached(db, b, Confirmed) then Some(BatchConfirmed)
            else None
  {
    StatusesOf(db, minted, b, Submitted);
    StatusesOf(db, minted, b, Confirmed);
    var own := RollupStatuses(db.rollups, b);
    forall st | st in own ensures st in {Submitted, Confirmed} {
      StatusesOf(db, minted, b, st);
    }
    DerivedFrom(own, requeued);
    assert LegacyStatuses(db.earnings, b) + own == own;
  }

  /** The closing loop, for one batch. */
  lemma BatchDerived(db: Db, minted: seq<set<EarningId>>, rows: seq<PlanRow>, b: BatchId)
    requires Lockstep(db, minted) && b < |db.batches|
    ensures var db' := db.(batches := UpdateBatches(db, rows));
      && |db'.batches| == |db.batches|
      && db'.batches[b].tx == db.batches[b].tx
      && db'.batches[b].status
           == if b !in TouchedBatches(rows) then db.batches[b].status
              else if Attached(db', b, Submitted) then BatchSubmitted
              else if RequeuedIn(rows, b) > 0 then BatchFailed
              else if Attached(db', b, Confirmed) then BatchConfirmed
              else db.batches[b].status
  {
    DerivedStatus(db, minted, b, RequeuedIn(rows, b));
    var db' := db.(batches := UpdateBatches(db, rows));
    assert Attached(db', b, Submitted) == Attached(db, b, Submitted);
    assert Attached(db', b, Confirmed) == Attached(db, b, Confirmed);
  }

  lemma MovesNoBatch(db: Db, ids: seq<RollupId>, n: nat, rd: RollupData, ed: EarningData)
    requires MoveRollups(db, ids, n, rd, ed).Committed?
    ensures MoveRollups(db, ids, n, rd, ed).db.batches == db.batches
  {
  }

  lemma BatchEffect(db: Db, minted: seq<set<EarningId>>, plan: Plan, b: BatchId)
    requires Lockstep(db, minted) && PlanIsSnapshot(db, plan) && CommitPlan(db, plan).Committed?
    requires b < |db.batches|
    ensures var rows, db' := plan.rollups, CommitPlan(db, plan).db;
      && |db'.batches| == |db.batches|
      && db'.batches[b].tx == db.batches[b].tx
      && db'.batches[b].status
           == if b !in TouchedBatches(rows) then db.batches[b].status
              else if Attached(db', b, Submitted) then BatchSubmitted
              else if RequeuedIn(rows, b) > 0 then BatchFailed
              else if Attached(db', b, Confirmed) then BatchConfirmed
              else db.batches[b].status
  {
    var rows := plan.rollups;
    var mid, moved := PlanMoves(db, minted, plan);
    MovesNoBatch(db, IdsWith(rows, ToConfirm), CountsWith(rows, ToConfirm), ConfirmRollup, Confirm);
    MovesNoBatch(mid, IdsWith(rows, ToRequeue), CountsWith(rows, ToRequeue), FailRollup, Requeue);
    BatchDerived(moved, minted, rows, b);
  }

  // ---------- over runs ----------

  /** What the submitted-rows query returns. */
  ghost predicate Listable(db: Db, rollups: seq<RollupId>) {
    && Distinct(rollups)
    && forall k :: 0 <= k < |rollups| ==> rollups[k] < |db.rollups| && db.rollups[rollups[k]].status == Submitted
  }

  /** The run starts reconcile number p at event m, with these rollups. */
  ghost predicate Starts(events: seq<Event>, m: nat, rollups: seq<RollupId>, p: nat) {
    && m < |events| && events[m] == ReadReconcile(rollups, [])
    && Listable(Exec(INIT, events[..m]).db, rollups) && p == |Exec(INIT, events[..m]).plans|
  }

  /** The last time the chain is asked about row k of reconcile p is event n. */
  ghost predicate LastAsked(events: seq<Event>, p: nat, k: nat, n: nat) {
    && n < |events| && Asks(events[n], p, k)
    && forall j :: n < j < |events| ==> !Asks(events[j], p, k)
  }

  lemma ExecSplit(events: seq<Event>, m: nat)
    requires m < |events|
    ensures Exec(INIT, events) == Exec(Next(Exec(INIT, events[..m]), events[m]), events[m + 1..])
    ensures Exec(INIT, events[..m + 1]) == Next(Exec(INIT, events[..m]), events[m])
  {
    assert events[..m + 1] == events[..m] + [events[m]];
    Runs.FoldAppend(Next, INIT, events[..m], events[m]);
    Runs.FoldJoin(Next, INIT, events[..m + 1], events[m + 1..]);
    assert events[..m + 1] + events[m + 1..] == events;
  }

  /** Row k as the query read it. */
  function AsRead(db: Db, r: RollupId): PlanRow
    requires r < |db.rollups|
  {
    PlanRow(r, RollupSettlement(r), db.rollups[r].tx, db.rollups[r].batch, db.rollups[r].count, KeepSubmitted)
  }

  lemma ReadRows(events: seq<Event>, m: nat, rollups: seq<RollupId>, p: nat)
    requires Starts(events, m, rollups, p)
    ensures var s := Exec(INIT, events[..m + 1]);
      && p < |s.plans| && |s.plans[p].rollups| == |rollups| && s.plans[p].legacy == []
      && forall k :: 0 <= k < |rollups| ==> s.plans[p].rollups[k] == AsRead(Exec(INIT, events[..m]).db, rollups[k])
  {
    ExecSplit(events, m);
    SetOfSize(rollups);
  }

  /** The plan just before the write, but for what was decided. */
  lemma PlanAtWrite(events: seq<Event>, m: nat, rollups: seq<RollupId>, p: nat)
    requires Starts(events, m, rollups, p)
    ensures var s := Exec(INIT, events);
      && p < |s.plans| && |s.plans[p].rollups| == |rollups|
      && forall k :: 0 <= k < |rollups| ==>
           && s.plans[p].rollups[k].id == rollups[k]
           && s.plans[p].rollups[k].batch == Exec(INIT, events[..m]).db.rollups[rollups[k]].batch
  {
    ReadRows(events, m, rollups, p);
    ExecSplit(events, m);
    var s0, s := Exec(INIT, events[..m + 1]), Exec(INIT, events);
    PlanStays(s0, events[m + 1..], p);
    forall k | 0 <= k < |rollups|
      ensures s.plans[p].rollups[k] == s0.plans[p].rollups[k].(outcome := s.plans[p].rollups[k].outcome)
    {
      RowAsRead(s0, events[m + 1..], p, k);
    }
  }

  /** What the write does in a run, row by row. */
  lemma RowAtWrite(events: seq<Event>, p: nat, k: nat)
    requires HasRow(Exec(INIT, events), p, k)
    requires CommitPlan(Exec(INIT, events).db, Exec(INIT, events).plans[p]).Committed?
    ensures var s, s' := Exec(INIT, events), Exec(INIT, events + [WriteReconcile(p)]);
      var row := s.plans[p].rollups[k];
      match row.outcome
      case ToConfirm => Confirms(s.db, s'.db, row.id)
      case ToRequeue => Frees(s.db, s'.db, row.id)
      case KeepSubmitted => Leaves(s.db, s'.db, row.id)
  {
    var s := Exec(INIT, events);
    TablesAlways(events);
    assert PlanIsSnapshot(s.db, s.plans[p]);
    RowEffect(s.db, s.minted, s.plans[p], k);
    WriteDb(events, p);
  }

  lemma WriteDb(events: seq<Event>, p: nat)
    requires p < |Exec(INIT, events).plans|
    ensures var s := Exec(INIT, events);
      var o := CommitPlan(s.db, s.plans[p]);
      Exec(INIT, events + [WriteReconcile(p)]).db == if o.Committed? then o.db else s.db
  {
    Runs.FoldAppend(Next, INIT, events, WriteReconcile(p));
  }

  /** And to everything else. */
  lemma RestAtWrite(events: seq<Event>, p: nat)
    requires p < |Exec(INIT, events).plans|
    ensures var s, s' := Exec(INIT, events), Exec(INIT, events + [WriteReconcile(p)]);
      && |s'.db.rollups| == |s.db.rollups| && |s'.db.earnings| == |s.db.earnings|
      && |s'.db.batches| == |s.db.batches|
      && (forall r: RollupId :: r < |s.db.rollups|
            && (forall k :: 0 <= k < |s.plans[p].rollups| ==> s.plans[p].rollups[k].id != r)
            ==> Leaves(s.db, s'.db, r))
      && (forall i :: 0 <= i < |s.db.earnings| && s.db.earnings[i].rollup == None ==>
            s'.db.earnings[i] == s.db.earnings[i])
  {
    var s := Exec(INIT, events);
    TablesAlways(events);
    assert PlanIsSnapshot(s.db, s.plans[p]);
    if CommitPlan(s.db, s.plans[p]).Committed? {
      OthersStay(s.db, s.minted, s.plans[p]);
    }
    WriteDb(events, p);
  }

  lemma {:induction false} PlanStays(s: Sys, events: seq<Event>, p: nat)
    requires p < |s.plans|
    ensures p < |Exec(s, events).plans| && |Exec(s, events).plans[p].rollups| == |s.plans[p].rollups|
  {
    if events != [] {
      PlanStays(s, events[..|events| - 1], p);
    }
  }

  /** A row is decided by the last answers the chain gave about it. */
  lemma DecidedLast(events: seq<Event>, m: nat, rollups: seq<RollupId>, p: nat, k: nat, n: nat)
    requires Starts(events, m, rollups, p) && k < |rollups| && m < n && LastAsked(events, p, k, n)
    ensures var r, tx := rollups[k], Exec(INIT, events[..m]).db.rollups[rollups[k]].tx;
      var asked, s := Exec(INIT, events[..n]), Exec(INIT, events);
      && HasRow(s, p, k)
      && s.plans[p].rollups[k].outcome
           == if SaysPaid(asked, r, tx, events[n]) then ToConfirm
              else if SaysReverted(asked, r, tx, events[n]) then ToRequeue
              else KeepSubmitted
  {
    var s0, asked := Exec(INIT, events[..m + 1]), Exec(INIT, events[..n]);
    ReadRows(events, m, rollups, p);
    assert events[..n][..m] == events[..m] && events[..n][..m + 1] == events[..m + 1];
    ExecSplit(events[..n], m);
    RowAsRead(s0, events[..n][m + 1..], p, k);
    StepKeepsRow(asked, events[n], p, k);
    OutcomeFollows(asked, asked.plans[p].rollups[k], events[n]);
    ExecSplit(events, n);
    RowNotAsked(Next(asked, events[n]), events[n + 1..], p, k);
  }

  /**
   What becomes of a rollup a reconcile read, when its write goes through. It fails, with exactly its earnings
   pending and free again, if and only if the last answers of the chain were that its id is not processed and that
   the transaction recorded for it reverted. It is confirmed with its earnings if and only if they were that its id
   is processed, or that the transaction succeeded with enough confirmations. Otherwise nothing of it changes. Any
   other events may happen between the read of the tables, the answers and the write.
   */
  lemma ReconcileDecides(events: seq<Event>, m: nat, rollups: seq<RollupId>, p: nat, k: nat, n: nat)
    requires Starts(events, m, rollups, p) && k < |rollups| && m < n && LastAsked(events, p, k, n)
    requires p < |Exec(INIT, events).plans|
    requires CommitPlan(Exec(INIT, events).db, Exec(INIT, events).plans[p]).Committed?
    ensures var r, tx := rollups[k], Exec(INIT, events[..m]).db.rollups[rollups[k]].tx;
      var asked, s, s' := Exec(INIT, events[..n]), Exec(INIT, events), Exec(INIT, events + [WriteReconcile(p)]);
      && (SaysPaid(asked, r, tx, events[n]) ==> Confirms(s.db, s'.db, r))
      && (SaysReverted(asked, r, tx, events[n]) ==> Frees(s.db, s'.db, r))
      && (!SaysPaid(asked, r, tx, events[n]) && !SaysReverted(asked, r, tx, events[n]) ==> Leaves(s.db, s'.db, r))
      && (r < |s.db.rollups| && s.db.rollups[r].status == Submitted ==>
            && (SaysPaid(asked, r, tx, events[n]) <==> s'.db.rollups[r].status == Confirmed)
            && (SaysReverted(asked, r, tx, events[n]) <==> s'.db.rollups[r].status == Failed))
  {
    var r := rollups[k];
    PlanAtWrite(events, m, rollups, p);
    DecidedLast(events, m, rollups, p, k, n);
    RowAtWrite(events, p, k);
    PaidOrReverted(Exec(INIT, events[..n]), r, Exec(INIT, events[..m]).db.rollups[r].tx, events[n]);
  }

  lemma PaidOrReverted(s: Sys, r: RollupId, tx: Option<TxId>, ev: Event)
    requires ev.ReadChain?
    ensures !(SaysPaid(s, r, tx, ev) && SaysReverted(s, r, tx, ev))
  {
  }

  /** A rollup the run did not read, or never asked the chain about, is left alone, and so is every free earning. */
  lemma ReconcileTouchesOnly(events: seq<Event>, m: nat, rollups: seq<RollupId>, p: nat)
    requires Starts(events, m, rollups, p)
    ensures var s, s' := Exec(INIT, events), Exec(INIT, events + [WriteReconcile(p)]);
      && |s'.db.rollups| == |s.db.rollups| && |s'.db.earnings| == |s.db.earnings|
      && (forall r: RollupId :: r < |s.db.rollups| && r !in rollups ==> Leaves(s.db, s'.db, r))
      && (forall k :: 0 <= k < |rollups| && (forall j :: m < j < |events| ==> !Asks(events[j], p, k)) ==>
            Leaves(s.db, s'.db, rollups[k]))
      && (forall i :: 0 <= i < |s.db.earnings| && s.db.earnings[i].rollup == None ==>
            s'.db.earnings[i] == s.db.earnings[i])
  {
    PlanAtWrite(events, m, rollups, p);
    RestAtWrite(events, p);
    var s, s' := Exec(INIT, events), Exec(INIT, events + [WriteReconcile(p)]);
    forall r: RollupId | r < |s.db.rollups| && r !in rollups ensures Leaves(s.db, s'.db, r) {
      assert forall k :: 0 <= k < |rollups| ==> rollups[k] != r;
    }
    forall k | 0 <= k < |rollups| && (forall j :: m < j < |events| ==> !Asks(events[j], p, k))
      ensures Leaves(s.db, s'.db, rollups[k])
    {
      NeverAsked(events, m, rollups, p, k);
    }
  }

  lemma NeverAsked(events: seq<Event>, m: nat, rollups: seq<RollupId>, p: nat, k: nat)
    requires Starts(events, m, rollups, p) && k < |rollups|
    requires forall j :: m < j < |events| ==> !Asks(events[j], p, k)
    ensures rollups[k] < |Exec(INIT, events).db.rollups|
    ensures Leaves(Exec(INIT, events).db, Exec(INIT, events + [WriteReconcile(p)]).db, rollups[k])
  {
    var s := Exec(INIT, events);
    ReadRows(events, m, rollups, p);
    ExecSplit(events, m);
    RowNotAsked(Exec(INIT, events[..m + 1]), events[m + 1..], p, k);
    if CommitPlan(s.db, s.plans[p]).Committed? {
      RowAtWrite(events, p, k);
    } else {
      WriteDb(events, p);
      TablesAlways(events);
      assert PlanIsSnapshot(s.db, s.plans[p]);
    }
  }

  /** Batch b is touched by the run: one of the rollups it read was in it then. */
  ghost predicate Touches(db: Db, rollups: seq<RollupId>, b: BatchId)
    requires InRange(rollups, |db.rollups|)
  {
    exists k :: 0 <= k < |rollups| && db.rollups[rollups[k]].batch == Some(b)
  }

  /** Rollup r is submitted before the write and has failed after it. */
  predicate Fails(db: Db, db': Db, r: RollupId) {
    r < |db.rollups| && r < |db'.rollups| && db.rollups[r].status == Submitted && db'.rollups[r].status == Failed
  }

  /** The write fails a rollup that was in batch b when it was read. */
  ghost predicate FailsOne(read: Db, db: Db, db': Db, rollups: seq<RollupId>, b: BatchId)
    requires InRange(rollups, |read.rollups|)
  {
    exists k :: 0 <= k < |rollups| && read.rollups[rollups[k]].batch == Some(b) && Fails(db, db', rollups[k])
  }

  /**
   The statuses of the batches after a reconcile that goes through. A batch it read a rollup of is submitted as long
   as one attached rollup is; else it has failed if the write failed one of its rollups; else it is confirmed if some
   rollup is attached, as then they all are. Every other batch, and every batch's transaction, stays as it was.
   */
  lemma BatchesFollow(events: seq<Event>, m: nat, rollups: seq<RollupId>, p: nat, b: BatchId)
    requires Starts(events, m, rollups, p)
    requires p < |Exec(INIT, events).plans|
    requires CommitPlan(Exec(INIT, events).db, Exec(INIT, events).plans[p]).Committed?
    requires b < |Exec(INIT, events).db.batches|
    ensures var read := Exec(INIT, events[..m]).db;
      var db, db' := Exec(INIT, events).db, Exec(INIT, events + [WriteReconcile(p)]).db;
      && |db'.batches| == |db.batches|
      && db'.batches[b].tx == db.batches[b].tx
      && db'.batches[b].status
           == if !Touches(read, rollups, b) then db.batches[b].status
              else if Attached(db', b, Submitted) then BatchSubmitted
              else if FailsOne(read, db, db', rollups, b) then BatchFailed
              else if Attached(db', b, Confirmed) then BatchConfirmed
              else db.batches[b].status
  {
    var read, s := Exec(INIT, events[..m]).db, Exec(INIT, events);
    var rows := s.plans[p].rollups;
    PlanAtWrite(events, m, rollups, p);
    BatchAtWrite(events, p, b);
    RequeuedMeans(rows, b);
    TouchedMeans(read, rollups, rows, b);
    FailedMeans(events, m, rollups, p, b);
  }

  lemma BatchAtWrite(events: seq<Event>, p: nat, b: BatchId)
    requires p < |Exec(INIT, events).plans| && b < |Exec(INIT, events).db.batches|
    requires CommitPlan(Exec(INIT, events).db, Exec(INIT, events).plans[p]).Committed?
    ensures var s, db' := Exec(INIT, events), Exec(INIT, events + [WriteReconcile(p)]).db;
      var rows := s.plans[p].rollups;
      && |db'.batches| == |s.db.batches|
      && db'.batches[b].tx == s.db.batches[b].tx
      && db'.batches[b].status
           == if b !in TouchedBatches(rows) then s.db.batches[b].status
              else if Attached(db', b, Submitted) then BatchSubmitted
              else if RequeuedIn(rows, b) > 0 then BatchFailed
              else if Attached(db', b, Confirmed) then BatchConfirmed
              else s.db.batches[b].status
  {
    var s := Exec(INIT, events);
    TablesAlways(events);
    assert PlanIsSnapshot(s.db, s.plans[p]);
    WriteDb(events, p);
    BatchEffect(s.db, s.minted, s.plans[p], b);
  }

  lemma TouchedMeans(read: Db, rollups: seq<RollupId>, rows: seq<PlanRow>, b: BatchId)
    requires InRange(rollups, |read.rollups|) && |rows| == |rollups|
    requires forall k :: 0 <= k < |rollups| ==> rows[k].batch == read.rollups[rollups[k]].batch
    ensures b in TouchedBatches(rows) <==> Touches(read, rollups, b)
  {
    if Touches(read, rollups, b) {
      var k :| 0 <= k < |rollups| && read.rollups[rollups[k]].batch == Some(b);
      assert rows[k] in rows;
    }
  }

  lemma FailedMeans(events: seq<Event>, m: nat, rollups: seq<RollupId>, p: nat, b: BatchId)
    requires Starts(events, m, rollups, p)
    requires p < |Exec(INIT, events).plans|
    requires CommitPlan(Exec(INIT, events).db, Exec(INIT, events).plans[p]).Committed?
    ensures var read, s := Exec(INIT, events[..m]).db, Exec(INIT, events);
      (exists k :: 0 <= k < |s.plans[p].rollups| && s.plans[p].rollups[k].outcome == ToRequeue
                && s.plans[p].rollups[k].batch == Some(b))
      <==> FailsOne(read, s.db, Exec(INIT, events + [WriteReconcile(p)]).db, rollups, b)
  {
    var s, s' := Exec(INIT, events), Exec(INIT, events + [WriteReconcile(p)]);
    PlanAtWrite(events, m, rollups, p);
    ReconcileRefusedIff(events, p);
    forall k | 0 <= k < |rollups|
      ensures s.plans[p].rollups[k].outcome == ToRequeue <==> Fails(s.db, s'.db, rollups[k])
    {
      RowAtWrite(events, p, k);
    }
  }

  // ---------- submitted earnings without a rollup ----------

  // No run has such rows (NoLegacyRows); tables written before there were rollups may. What the code does with them:

  /** As long as there is one, nothing is claimed. */
  lemma LegacyStopsClaims(s: Sys, selection: seq<RollupId>, i: EarningId)
    requires i < |s.db.earnings| && s.db.earnings[i].status == Submitted && s.db.earnings[i].rollup == None
    ensures Next(s, Claim(selection)) == s
  {
    assert i in LegacySubmitted(s.db);
  }

  /** Such a row is decided by the same answers as a rollup. */
  lemma LegacyDecided(s: Sys, p: nat, k: nat, ev: Event)
    requires p < |s.plans| && k < |s.plans[p].legacy| && ev.ReadChain? && ev.raw && ev.plan == p && ev.row == k
    ensures p < |Next(s, ev).plans| && |Next(s, ev).plans[p].legacy| == |s.plans[p].legacy|
    ensures var row := s.plans[p].legacy[k];
      var seen := ev.sawProcessed && row.settlement in s.processed;
      Next(s, ev).plans[p].legacy[k].outcome
        == if seen || (ReceiptSays(s, row.tx, Landed, ev) && ev.confirmations >= ev.minConfirmations) then ToConfirm
           else if ReceiptSays(s, row.tx, Reverted, ev) then ToRequeue
           else KeepSubmitted
  {
  }

  lemma MoveLegacyIs(db: Db, ids: seq<EarningId>, ed: EarningData)
    ensures MoveLegacy(db, ids, ed).Committed? <==>
        Distinct(ids) && forall i :: i in ids ==> i < |db.earnings| && db.earnings[i].status == Submitted
    ensures MoveLegacy(db, ids, ed).Committed? ==>
      var db' := MoveLegacy(db, ids, ed).db;
      && |db'.earnings| == |db.earnings| && db'.rollups == db.rollups && db'.batches == db.batches
      && forall i :: 0 <= i < |db.earnings| ==>
           db'.earnings[i] == if i in ids then PatchEarning(ed, db.earnings[i]) else db.earnings[i]
  {
    var hits := EarningHits(db.earnings, ById(SetOf(ids), Submitted));
    SetOfSize(ids);
    SubsetSize(hits, SetOf(ids));
    if |hits| == |ids| {
      forall i | i in ids ensures i < |db.earnings| && db.earnings[i].status == Submitted {
        assert i in SetOf(ids);
      }
    }
    if Distinct(ids) && forall i :: i in ids ==> i < |db.earnings| && db.earnings[i].status == Submitted {
      assert hits == SetOf(ids);
    }
  }

  lemma LegacyPart(db: Db, plan: Plan)
    requires plan.rollups == [] && CommitPlan(db, plan).Committed?
    ensures var mid := MoveLegacy(db, IdsWith(plan.legacy, ToConfirm), Confirm);
      && mid.Committed? && MoveLegacy(mid.db, IdsWith(plan.legacy, ToRequeue), RequeueLegacy).Committed?
      && var last := MoveLegacy(mid.db, IdsWith(plan.legacy, ToRequeue), RequeueLegacy).db;
         CommitPlan(db, plan).db.rollups == last.rollups && CommitPlan(db, plan).db.earnings == last.earnings
  {
    hide MoveLegacy, UpdateBatches;
  }

  /**
   A write that goes through confirms and frees exactly the rows decided that way: a freed one is pending again and in
   no batch, and every other earning and every rollup stays as it was.
   */
  lemma LegacyMoves(db: Db, plan: Plan)
    requires plan.rollups == [] && CommitPlan(db, plan).Committed?
    requires forall j, k :: 0 <= j < k < |plan.legacy| ==> plan.legacy[j].id != plan.legacy[k].id
    ensures var db', confirmed, freed := CommitPlan(db, plan).db, IdsWith(plan.legacy, ToConfirm),
                                         IdsWith(plan.legacy, ToRequeue);
      && db'.rollups == db.rollups && |db'.earnings| == |db.earnings|
      && (forall i :: i in confirmed || i in freed ==> i < |db.earnings| && db.earnings[i].status == Submitted)
      && forall i :: 0 <= i < |db.earnings| ==>
           var e := db.earnings[i];
           db'.earnings[i] == if i in confirmed then e.(status := Confirmed)
                              else if i in freed then e.(status := Pending, batch := None, tx := None)
                              else e
  {
    hide CommitPlan, MoveLegacy, IdsWith;
    var confirmed, freed := IdsWith(plan.legacy, ToConfirm), IdsWith(plan.legacy, ToRequeue);
    LegacyPart(db, plan);
    var mid := MoveLegacy(db, confirmed, Confirm).db;
    MoveLegacyIs(db, confirmed, Confirm);
    MoveLegacyIs(mid, freed, RequeueLegacy);
    forall i | i in confirmed ensures i !in freed {
      NotBoth(plan.legacy, i);
    }
  }
}
