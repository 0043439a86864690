/**
 Each database transaction of the settlement pipeline as a function of the tables
 (lib/db.ts, lib/merchant-settlement-allocator.ts, lib/merchant-settlement-reconcile.ts).
 A thrown error rolls the whole transaction back, so it has no resulting tables.
 */
module SettlementSteps {
  import opened Common
  import opened SettlementAmounts
  import opened SettlementState
  import Selection = RollupSelection

  datatype Outcome = Committed(db: Db) | RolledBack

  function RowOf(db: Db, i: EarningId): Selection.Row
    requires i < |db.earnings|
  {
    var e := db.earnings[i];
    Selection.Row(i, e.merchant, e.amounts, e.createdAt)
  }

  function RowsOf(db: Db, ids: seq<EarningId>): seq<Selection.Row>
    requires InRange(ids, |db.earnings|)
  {
    seq(|ids|, k requires 0 <= k < |ids| => RowOf(db, ids[k]))
  }

  // ---------- createMerchantSettlementRollups ----------

  function NewRollup(c: Selection.Candidate): Rollup {
    Rollup(c.merchant, Pending, c.amounts, c.earningCount, c.oldest, c.newest, c.reason, None, None)
  }

  function AttachOne(db: Db, c: Selection.Candidate): Outcome {
    var where := Unattached(SetOf(c.earningIds));
    if |EarningHits(db.earnings, where)| != |c.earningIds| then RolledBack
    else Committed(db.(rollups := db.rollups + [NewRollup(c)],
                       earnings := UpdateEarnings(db.earnings, where, Attach(|db.rollups|))))
  }

  function AttachAll(db: Db, cs: seq<Selection.Candidate>): Outcome
    decreases |cs|
  {
    if cs == [] then Committed(db)
    else match AttachAll(db, cs[..|cs| - 1])
      case RolledBack => RolledBack
      case Committed(db') => AttachOne(db', cs[|cs| - 1])
  }

  function Selected(db: Db, ids: seq<EarningId>, cfg: Selection.Config, maxRollups: int, now: int)
    : seq<Selection.Candidate>
    requires InRange(ids, |db.earnings|)
  {
    var all := Selection.Candidates(RowsOf(db, ids), cfg, now);
    all[..Min(Max(0, maxRollups), |all|)]
  }

  /** `ids` are the rows the locking query returned. */
  function CreateRollups(db: Db, ids: seq<EarningId>, cfg: Selection.Config, maxRollups: int, now: int): Outcome
    requires InRange(ids, |db.earnings|)
  {
    AttachAll(db, Selected(db, ids, cfg, maxRollups, now))
  }

  // ---------- claimNextMerchantSettlementBatch ----------

  function LegacySubmitted(db: Db): set<EarningId> {
    set i | 0 <= i < |db.earnings| && db.earnings[i].status == Submitted && db.earnings[i].rollup == None
  }

  /** The claiming transaction for a non-empty selection; it opens batch number |db.batches|. */
  function ClaimBatch(db: Db, sel: seq<RollupId>): Outcome {
    var b := |db.batches|;
    var chosen := SetOf(sel);
    var rollupWhere := RollupIds(chosen, Pending);
    var earningWhere := OfRollups(chosen, Pending);
    if |RollupHits(db.rollups, rollupWhere)| != |sel| then RolledBack
    else
      var rollups := UpdateRollups(db.rollups, rollupWhere, ClaimRollup(b));
      if |EarningHits(db.earnings, earningWhere)| != SumCounts(rollups, chosen) then RolledBack
      else Committed(Db(UpdateEarnings(db.earnings, earningWhere, ClaimFor(b)), rollups,
                        db.batches + [Batch(BatchOpen, None)]))
  }

  // ---------- submitMerchantSettlementBatch ----------

  function SetBatch(db: Db, b: BatchId, status: BatchStatus): Db
    requires b < |db.batches|
  {
    db.(batches := db.batches[b := db.batches[b].(status := status)])
  }

  function RevertBatch(db: Db, b: BatchId): Db
    requires b < |db.batches|
  {
    SetBatch(db.(rollups := UpdateRollups(db.rollups, RollupsOfBatch(b, Submitted), FailRollup),
                 earnings := UpdateEarnings(db.earnings, OfBatch(b, Submitted), Requeue)), b, BatchFailed)
  }

  function MarkBatchConfirmed(db: Db, b: BatchId): Db
    requires b < |db.batches|
  {
    SetBatch(db.(rollups := UpdateRollups(db.rollups, RollupsOfBatch(b, Submitted), ConfirmRollup),
                 earnings := UpdateEarnings(db.earnings, OfBatch(b, Submitted), Confirm)), b, BatchConfirmed)
  }

  function RecordSubmission(db: Db, b: BatchId, tx: TxId): Db
    requires b < |db.batches|
  {
    db.(batches := db.batches[b := Batch(BatchSubmitted, Some(tx))],
        rollups := UpdateRollups(db.rollups, RollupsOfBatch(b, Submitted), SetRollupTx(tx)),
        earnings := UpdateEarnings(db.earnings, OfBatch(b, Submitted), SetTx(tx)))
  }

  // ---------- reconcileMerchantSettlementRows ----------

  datatype ReceiptStatus = Missing | Success | RevertedReceipt

  datatype ReconcileOutcome = ToConfirm | KeepSubmitted | ToRequeue

  /** What one read of the chain says about a submitted settlement. */
  function DetermineOutcome(processed: bool, receipt: ReceiptStatus, confirmations: int, minConfirmations: int)
    : ReconcileOutcome
  {
    if processed then ToConfirm
    else match receipt
      case Success => if confirmations >= minConfirmations then ToConfirm else KeepSubmitted
      case RevertedReceipt => ToRequeue
      case Missing => KeepSubmitted
  }

  /** One submitted row as it was read, with the outcome decided for it so far. */
  datatype PlanRow = PlanRow(id: nat, settlement: SettlementId, tx: Option<TxId>, batch: Option<BatchId>, count: nat,
                             outcome: ReconcileOutcome)

  datatype Plan = Plan(rollups: seq<PlanRow>, legacy: seq<PlanRow>)

  function IdsWith(rows: seq<PlanRow>, o: ReconcileOutcome): seq<nat> {
    if rows == [] then []
    else IdsWith(rows[..|rows| - 1], o) + (if rows[|rows| - 1].outcome == o then [rows[|rows| - 1].id] else [])
  }

  function CountsWith(rows: seq<PlanRow>, o: ReconcileOutcome): nat {
    if rows == [] then 0
    else CountsWith(rows[..|rows| - 1], o) + (if rows[|rows| - 1].outcome == o then rows[|rows| - 1].count else 0)
  }

  function TouchedBatches(rows: seq<PlanRow>): set<BatchId> {
    set row | row in rows && row.batch.Some? :: row.batch.value
  }

  function RequeuedIn(rows: seq<PlanRow>, b: BatchId): nat {
    if rows == [] then 0
    else
      var row := rows[|rows| - 1];
      RequeuedIn(rows[..|rows| - 1], b) + (if row.outcome == ToRequeue && row.batch == Some(b) then 1 else 0)
  }

  /** A bulk update of rollups and then of their members, each guarded by its row count. */
  function MoveRollups(db: Db, ids: seq<RollupId>, expectedMembers: nat, rd: RollupData, ed: EarningData): Outcome {
    if ids == [] then Committed(db)
    else
      var rollupWhere := RollupIds(SetOf(ids), Submitted);
      var earningWhere := OfRollups(SetOf(ids), Submitted);
      if |RollupHits(db.rollups, rollupWhere)| != |ids| then RolledBack
      else if |EarningHits(db.earnings, earningWhere)| != expectedMembers then RolledBack
      else Committed(db.(rollups := UpdateRollups(db.rollups, rollupWhere, rd),
                         earnings := UpdateEarnings(db.earnings, earningWhere, ed)))
  }

  function MoveLegacy(db: Db, ids: seq<EarningId>, ed: EarningData): Outcome {
    if ids == [] then Committed(db)
    else
      var where := ById(SetOf(ids), Submitted);
      if |EarningHits(db.earnings, where)| != |ids| then RolledBack
      else Committed(db.(earnings := UpdateEarnings(db.earnings, where, ed)))
  }

  /** Statuses of the rows attached to a batch: raw earnings first, then rollups. */
  function RollupStatuses(rs: seq<Rollup>, b: BatchId): seq<Status> {
    if rs == [] then []
    else
      var x := rs[|rs| - 1];
      RollupStatuses(rs[..|rs| - 1], b) + (if x.batch == Some(b) then [x.status] else [])
  }

  function LegacyStatuses(es: seq<Earning>, b: BatchId): seq<Status> {
    if es == [] then []
    else
      var e := es[|es| - 1];
      LegacyStatuses(es[..|es| - 1], b) + (if e.batch == Some(b) && e.rollup == None then [e.status] else [])
  }

  function DeriveBatchStatus(rows: seq<Status>): Option<BatchStatus> {
    if rows == [] then None
    else if Submitted in rows then Some(BatchSubmitted)
    else if forall k :: 0 <= k < |rows| ==> rows[k] == Confirmed then Some(BatchConfirmed)
    else Some(BatchFailed)
  }

  function NextBatchStatus(db: Db, b: BatchId, requeued: nat): Option<BatchStatus> {
    DeriveBatchStatus(LegacyStatuses(db.earnings, b) + RollupStatuses(db.rollups, b)
                      + seq(requeued, _ => Failed))
  }

  function UpdateBatches(db: Db, rows: seq<PlanRow>): seq<Batch> {
    seq(|db.batches|, b requires 0 <= b < |db.batches| =>
      var next := NextBatchStatus(db, b, RequeuedIn(rows, b));
      if b in TouchedBatches(rows) && next.Some? then db.batches[b].(status := next.value) else db.batches[b])
  }

  function CommitPlan(db: Db, plan: Plan): Outcome {
    match MoveRollups(db, IdsWith(plan.rollups, ToConfirm), CountsWith(plan.rollups, ToConfirm), ConfirmRollup, Confirm)
    case RolledBack => RolledBack
    case Committed(db1) =>
      match MoveRollups(db1, IdsWith(plan.rollups, ToRequeue), CountsWith(plan.rollups, ToRequeue), FailRollup, Requeue)
      case RolledBack => RolledBack
      case Committed(db2) =>
        match MoveLegacy(db2, IdsWith(plan.legacy, ToConfirm), Confirm)
        case RolledBack => RolledBack
        case Committed(db3) =>
          match MoveLegacy(db3, IdsWith(plan.legacy, ToRequeue), RequeueLegacy)
          case RolledBack => RolledBack
          case Committed(db4) => Committed(db4.(batches := UpdateBatches(db4, plan.rollups + plan.legacy)))
  }
}
