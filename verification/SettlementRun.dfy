/**
 The settlement pipeline as a state machine: the tables, the vault contract's processed ids, the
 transactions in flight and the submit and reconcile calls that are half done. Any event may follow
 any other; an event that is not possible in a state changes nothing.
 */
module SettlementRun {
  import opened Common
  import opened SettlementAmounts
  import opened SettlementState
  import opened SettlementSteps
  import opened SettlementLockstep
  import Runs
  import Selection = RollupSelection

  datatype TxStatus = InFlight | Landed | Reverted | Dropped

  /** One allocateMerchantEarningsBatch transaction. */
  datatype ChainTx = ChainTx(batch: BatchId, ids: seq<RollupId>, status: TxStatus)

  /** How far the one submit call of a claimed batch has come. */
  datatype Stage =
    | Claimed
    | Broadcast(tx: TxId)
    | Thrown(cause: Option<TxId>)
    | Judged(allProcessed: bool)
    | Finished

  datatype Sys = Sys(db: Db,
                     minted: seq<set<EarningId>>,      // history: the earnings each rollup was created from
                     claims: seq<seq<RollupId>>,       // history: the rollups each batch was claimed with
                     stage: seq<Stage>,
                     txs: seq<ChainTx>,
                     gaveUp: set<TxId>,                // history: in flight when their submit call asked the chain
                     processed: set<SettlementId>,     // the contract's processedSettlementIds
                     paidOut: Amounts,                 // what the contract has allocated in total
                     plans: seq<Plan>)                 // reconcile runs that have read but not yet written

  const INIT: Sys := Sys(Db([], [], []), [], [], [], [], {}, {}, ZERO, [])

  datatype Event =
    | NewEarning(settlementId: SettlementId, merchant: Merchant, amounts: Amounts, createdAt: int)
    | RollUp(ids: seq<EarningId>, cfg: Selection.Config, maxRollups: int, now: int)
    | Claim(selection: seq<RollupId>)
    | GasTooHigh(batch: BatchId)
    | SendTx(batch: BatchId)
    | SendFails(batch: BatchId)
    | SubmitThrows(batch: BatchId)
    | RecordTx(batch: BatchId)
    | CheckProcessed(batch: BatchId)
    | FinishCatch(batch: BatchId)
    | LandTx(tx: TxId)
    | RevertTx(tx: TxId)
    | DropTx(tx: TxId)
    | ReadReconcile(rollups: seq<RollupId>, legacy: seq<EarningId>)
    | ReadChain(plan: nat, raw: bool, row: nat, sawProcessed: bool, receiptFound: bool, confirmations: int,
                minConfirmations: int)
    | WriteReconcile(plan: nat)

  function SettlementIds(ids: seq<RollupId>): set<SettlementId> {
    set r | r in ids :: RollupSettlement(r)
  }

  predicate StageIs(s: Sys, b: BatchId) {
    b < |s.stage| && b < |s.claims| && b < |s.db.batches|
  }

  function SetStage(s: Sys, b: BatchId, st: Stage): Sys
    requires b < |s.stage|
  {
    s.(stage := s.stage[b := st])
  }

  function SetTxStatus(s: Sys, t: TxId, st: TxStatus): Sys
    requires t < |s.txs|
  {
    s.(txs := s.txs[t := s.txs[t].(status := st)])
  }

  /** The receipt of a recorded transaction; an RPC error looks like a missing receipt. */
  function ReceiptOf(s: Sys, tx: Option<TxId>, found: bool): ReceiptStatus {
    if tx == None || tx.value >= |s.txs| || !found then Missing
    else match s.txs[tx.value].status
      case Landed => Success
      case Reverted => RevertedReceipt
      case _ => Missing
  }

  /** The submitted rows as the tables show them; nothing is decided before the chain is read. */
  function PlanFor(db: Db, rollups: seq<RollupId>, legacy: seq<EarningId>): Plan
    requires InRange(rollups, |db.rollups|) && InRange(legacy, |db.earnings|)
  {
    Plan(seq(|rollups|, k requires 0 <= k < |rollups| =>
           var x := db.rollups[rollups[k]];
           PlanRow(rollups[k], RollupSettlement(rollups[k]), x.tx, x.batch, x.count, KeepSubmitted)),
         seq(|legacy|, k requires 0 <= k < |legacy| =>
           var e := db.earnings[legacy[k]];
           PlanRow(legacy[k], e.settlementId, e.tx, e.batch, 1, KeepSubmitted)))
  }

  /**
   A row is decided by reading the chain, later than the tables and at its own moment. The two answers are from
   different moments too: an id processed by now may not have been when it was asked for, and a receipt that is
   there by now may have been missing.
   */
  function Decided(s: Sys, row: PlanRow, ev: Event): PlanRow
    requires ev.ReadChain?
  {
    var processed := ev.sawProcessed && row.settlement in s.processed;
    var confirmations := if row.tx.Some? && ev.receiptFound then ev.confirmations else 0;
    row.(outcome := DetermineOutcome(processed, ReceiptOf(s, row.tx, ev.receiptFound), confirmations,
                                     ev.minConfirmations))
  }

  function DecideRow(s: Sys, plan: Plan, ev: Event): Plan
    requires ev.ReadChain?
  {
    if !ev.raw && ev.row < |plan.rollups|
    then plan.(rollups := plan.rollups[ev.row := Decided(s, plan.rollups[ev.row], ev)])
    else if ev.raw && ev.row < |plan.legacy|
    then plan.(legacy := plan.legacy[ev.row := Decided(s, plan.legacy[ev.row], ev)])
    else plan
  }

  /** The transaction of a thrown submit call, if it is still in flight. */
  function InDoubt(s: Sys, b: BatchId): set<TxId> {
    if StageIs(s, b) && s.stage[b].Thrown? && s.stage[b].cause.Some? && s.stage[b].cause.value < |s.txs|
       && s.txs[s.stage[b].cause.value].status == InFlight
    then {s.stage[b].cause.value} else {}
  }

  function Next(s: Sys, ev: Event): Sys {
    match ev
    case NewEarning(id, merchant, amounts, createdAt) =>
      if amounts.fee + amounts.net != amounts.gross then s
      else
        var row := Earning(id, merchant, amounts, createdAt, Pending, None, None, None);
        s.(db := s.db.(earnings := s.db.earnings + [row]))
    case RollUp(ids, cfg, maxRollups, now) =>
      if !InRange(ids, |s.db.earnings|) then s
      else (match CreateRollups(s.db, ids, cfg, maxRollups, now)
            case RolledBack => s
            case Committed(db) => s.(db := db,
                                     minted := s.minted + MintedBy(Selected(s.db, ids, cfg, maxRollups, now))))
    case Claim(selection) =>
      if LegacySubmitted(s.db) != {} || selection == [] then s
      else (match ClaimBatch(s.db, selection)
            case RolledBack => s
            case Committed(db) => s.(db := db, claims := s.claims + [selection], stage := s.stage + [Claimed]))
    case GasTooHigh(b) =>
      if StageIs(s, b) && s.stage[b] == Claimed then SetStage(s, b, Finished).(db := RevertBatch(s.db, b)) else s
    case SendTx(b) =>
      if StageIs(s, b) && s.stage[b] == Claimed
      then SetStage(s, b, Broadcast(|s.txs|)).(txs := s.txs + [ChainTx(b, s.claims[b], InFlight)])
      else s
    case SendFails(b) =>
      if StageIs(s, b) && s.stage[b] == Claimed then SetStage(s, b, Thrown(None)) else s
    case SubmitThrows(b) =>
      if StageIs(s, b) && s.stage[b].Broadcast? then SetStage(s, b, Thrown(Some(s.stage[b].tx))) else s
    case RecordTx(b) =>
      if StageIs(s, b) && s.stage[b].Broadcast?
      then SetStage(s, b, Finished).(db := RecordSubmission(s.db, b, s.stage[b].tx))
      else s
    case CheckProcessed(b) =>
      if StageIs(s, b) && s.stage[b].Thrown?
      then SetStage(s, b, Judged(s.claims[b] != [] && SettlementIds(s.claims[b]) <= s.processed))
             .(gaveUp := s.gaveUp + InDoubt(s, b))
      else s
    case FinishCatch(b) =>
      if StageIs(s, b) && s.stage[b].Judged?
      then SetStage(s, b, Finished)
             .(db := if s.stage[b].allProcessed then MarkBatchConfirmed(s.db, b) else RevertBatch(s.db, b))
      else s
    case LandTx(t) =>
      // The contract takes a whole batch or nothing: every id must be new and distinct.
      if t < |s.txs| && s.txs[t].status == InFlight && InRange(s.txs[t].ids, |s.db.rollups|)
         && |SetOf(s.txs[t].ids)| == |s.txs[t].ids| && SettlementIds(s.txs[t].ids) !! s.processed
      then SetTxStatus(s, t, Landed).(processed := s.processed + SettlementIds(s.txs[t].ids),
                                      paidOut := s.paidOut.Add(PayloadTotal(s.db.rollups, s.txs[t].ids)))
      else s
    case RevertTx(t) =>
      if t < |s.txs| && s.txs[t].status == InFlight then SetTxStatus(s, t, Reverted) else s
    case DropTx(t) =>
      if t < |s.txs| && s.txs[t].status == InFlight then SetTxStatus(s, t, Dropped) else s
    case ReadReconcile(rollups, legacy) =>
      if (forall k :: 0 <= k < |rollups| ==>
            rollups[k] < |s.db.rollups| && s.db.rollups[rollups[k]].status == Submitted)
         && |SetOf(rollups)| == |rollups|
         && (forall k :: 0 <= k < |legacy| ==> legacy[k] in LegacySubmitted(s.db))
      then s.(plans := s.plans + [PlanFor(s.db, rollups, legacy)])
      else s
    case ReadChain(p, _, _, _, _, _, _) =>
      if p < |s.plans| then s.(plans := s.plans[p := DecideRow(s, s.plans[p], ev)]) else s
    case WriteReconcile(p) =>
      if p < |s.plans| then
        (match CommitPlan(s.db, s.plans[p])
         case RolledBack => s
         case Committed(db) => s.(db := db))
      else s
  }

  function Exec(s: Sys, events: seq<Event>): Sys {
    Runs.Fold(Next, s, events)
  }

  /**
   The landing hypothesis: when the catch branch of a submit call asks the chain which ids are processed,
   that call's transaction has landed by then or it never will. One that is still in flight may revert or be
   dropped later, but does not land.
   */
  ghost predicate LandsInTime(s: Sys, ev: Event) {
    ev.LandTx? && ev.tx in s.gaveUp ==> Next(s, ev) == s
  }

  ghost predicate SettledRun(s: Sys, events: seq<Event>) {
    forall n :: 0 <= n < |events| ==> LandsInTime(Exec(s, events[..n]), events[n])
  }

  // ---------- the invariant ----------

  ghost predicate HasLanded(s: Sys, b: BatchId) {
    exists t :: 0 <= t < |s.txs| && s.txs[t].batch == b && s.txs[t].status == Landed
  }

  ghost predicate Hopeless(s: Sys, t: TxId)
    requires t < |s.txs|
  {
    s.txs[t].status in {Reverted, Dropped} || (s.txs[t].status == InFlight && t in s.gaveUp)
  }

  /** Nothing of batch b was allocated and nothing of it ever can be. */
  ghost predicate IsDead(s: Sys, b: BatchId)
    requires b < |s.stage|
  {
    && s.stage[b] != Claimed
    && (forall t :: 0 <= t < |s.txs| && s.txs[t].batch == b ==> Hopeless(s, t))
  }

  ghost predicate StageOk(s: Sys, b: BatchId)
    requires b < |s.stage| == |s.claims|
  {
    match s.stage[b]
    case Claimed => forall t :: 0 <= t < |s.txs| ==> s.txs[t].batch != b
    case Broadcast(t) => t < |s.txs| && s.txs[t].batch == b && t !in s.gaveUp
    case Thrown(Some(t)) => t < |s.txs| && s.txs[t].batch == b && t !in s.gaveUp
    case Thrown(None) => forall t :: 0 <= t < |s.txs| ==> s.txs[t].batch != b
    case Judged(all) => if all then HasLanded(s, b) else IsDead(s, b)
    case Finished => true
  }

  /** Claims and transactions; says nothing about the tables. */
  ghost predicate ChainOk(s: Sys) {
    && |s.claims| == |s.stage|
    && (forall b :: 0 <= b < |s.claims| ==> s.claims[b] != [] && Distinct(s.claims[b]))
    && (forall b, c, r :: 0 <= b < c < |s.claims| && r in s.claims[b] ==> r !in s.claims[c])
    && (forall t :: 0 <= t < |s.txs| ==> s.txs[t].batch < |s.claims| && s.txs[t].ids == s.claims[s.txs[t].batch])
    && (forall t, u :: 0 <= t < u < |s.txs| ==> s.txs[t].batch != s.txs[u].batch)
    && (forall t :: t in s.gaveUp ==> t < |s.txs|)
    && (forall b :: 0 <= b < |s.stage| ==> StageOk(s, b))
  }

  ghost predicate ClaimedBy(s: Sys, r: RollupId, b: BatchId) {
    b < |s.claims| == |s.stage| && r in s.claims[b]
  }

  ghost predicate Paid(s: Sys, r: RollupId) {
    exists b: BatchId :: ClaimedBy(s, r, b) && HasLanded(s, b)
  }

  ghost predicate Dead(s: Sys, r: RollupId) {
    exists b: BatchId :: ClaimedBy(s, r, b) && IsDead(s, b)
  }

  ghost predicate LinkOk(s: Sys, r: RollupId)
    requires r < |s.db.rollups|
  {
    var x := s.db.rollups[r];
    && (x.status == Pending <==> forall b: BatchId :: !ClaimedBy(s, r, b))
    && (x.batch.Some? ==> ClaimedBy(s, r, x.batch.value))
    && (x.status == Failed ==> Dead(s, r))
    && (x.status == Confirmed ==> Paid(s, r))
    && (x.tx.Some? ==> x.tx.value < |s.txs| && r in s.txs[x.tx.value].ids)
  }

  ghost predicate ProcessedOk(s: Sys) {
    && (forall id :: id in s.processed ==> id.RollupSettlement? && Paid(s, id.rollupId))
    && (forall r: RollupId :: Paid(s, r) ==> RollupSettlement(r) in s.processed)
  }

  ghost predicate PlanRowOk(s: Sys, row: PlanRow) {
    && row.id < |s.db.rollups|
    && row.count == s.db.rollups[row.id].count
    && row.settlement == RollupSettlement(row.id)
    && (row.tx.Some? ==> row.tx.value < |s.txs| && row.id in s.txs[row.tx.value].ids)
    && (row.outcome == ToConfirm ==> Paid(s, row.id))
    && (row.outcome == ToRequeue ==> Dead(s, row.id))
  }

  ghost predicate PlanOk(s: Sys, plan: Plan) {
    && plan.legacy == []
    && (forall k :: 0 <= k < |plan.rollups| ==> PlanRowOk(s, plan.rollups[k]))
    && (forall j, k :: 0 <= j < k < |plan.rollups| ==> plan.rollups[j].id != plan.rollups[k].id)
  }

  /** A confirmed batch has no attached rollup that is not confirmed. */
  ghost predicate BatchesOk(db: Db) {
    forall b, r :: 0 <= b < |db.batches| && 0 <= r < |db.rollups|
        && db.batches[b].status == BatchConfirmed && db.rollups[r].batch == Some(b)
        ==> db.rollups[r].status == Confirmed
  }

  /** A batch is only ever recorded as confirmed once its transaction has landed. */
  ghost predicate BatchesLanded(s: Sys) {
    forall b :: 0 <= b < |s.db.batches| && s.db.batches[b].status == BatchConfirmed ==> HasLanded(s, b)
  }

  function ProcessedRollups(s: Sys): set<RollupId> {
    set r | 0 <= r < |s.db.rollups| && RollupSettlement(r) in s.processed
  }

  ghost predicate Inv(s: Sys) {
    && Lockstep(s.db, s.minted)
    && |s.db.batches| == |s.claims|
    && ChainOk(s)
    && (forall b: BatchId, r: RollupId :: ClaimedBy(s, r, b) ==> r < |s.db.rollups|)
    && (forall r :: 0 <= r < |s.db.rollups| ==> LinkOk(s, r))
    && ProcessedOk(s)
    && (forall p :: 0 <= p < |s.plans| ==> PlanOk(s, s.plans[p]))
    && BatchesOk(s.db)
    && BatchesLanded(s)
    && s.paidOut == SumRollups(s.db.rollups, ProcessedRollups(s))
  }
}
