/**
 A GhostWire job's row and the transactions that move it (lib/ghostwire-store.ts), driven by what the
 operator sees of the chain (lib/ghostwire-operator.ts).
 */
module WireMirror {
  import opened Common
  import opened LogScan
  import opened Text

  datatype WorkStatus = WorkPending | InProgress | Succeeded | WorkFailed

  datatype Workflow = Workflow(artifact: WorkStatus, create: WorkStatus, fund: WorkStatus, confirmation: WorkStatus,
                               reconcile: WorkStatus, retryCount: nat, nextRetryAt: Option<int>, manualReview: bool)

  datatype Validation = Unrecorded | Partial | Valid | ManualReview

  datatype Artifacts = Artifacts(contractAddress: Option<string>, contractJobId: Option<string>,
                                 createTx: Option<string>, createSender: Option<string>,
                                 fundTx: Option<string>, fundSender: Option<string>)

  datatype Job = Job(contractState: JobState, publicState: JobState, disposition: Option<JobState>,
                     terminalTx: Option<Hash>, artifacts: Artifacts, validation: Validation,
                     workflow: Workflow, hasWebhook: bool)

  /** Transition and webhook rows are keyed by the state reached and the transaction that reached it. */
  datatype EventId = EventId(state: JobState, tx: Hash)

  datatype Transition = Transition(from: JobState, to: JobState, tx: Hash, block: nat, confirmations: nat)

  datatype Delivery = DeliveryPending | DeliveryFailed | Delivered | DeadLetter

  datatype OutboxRow = OutboxRow(state: JobState, delivery: Delivery, attempts: nat, nextAttemptAt: Option<int>)

  datatype Db = Db(job: Job, transitions: map<EventId, Transition>, outbox: map<EventId, OutboxRow>)

  datatype Outcome = Committed(db: Db) | Conflict

  const NEW_WORKFLOW: Workflow :=
      Workflow(WorkPending, WorkPending, WorkPending, WorkPending, WorkPending, 0, None, false)
  const NO_ARTIFACTS: Artifacts := Artifacts(None, None, None, None, None, None)

  /** A prepared job before anything happened on chain. */
  function Prepared(hasWebhook: bool): Db {
    Db(Job(Open, Open, None, None, NO_ARTIFACTS, Unrecorded, NEW_WORKFLOW, hasWebhook), map[], map[])
  }

  function Rank(s: JobState): nat {
    match s
    case Open => 0
    case Funded => 1
    case Submitted => 2
    case _ => 3
  }

  // ---------- recording artifacts ----------

  /** Neither null nor the empty string. */
  predicate Given(x: Option<string>) {
    x.Some? && x.value != ""
  }

  predicate Clash(recorded: Option<string>, input: Option<string>) {
    Given(recorded) && Given(input) && LowerAscii(recorded.value) != LowerAscii(input.value)
  }

  function Prefer(input: Option<string>, recorded: Option<string>): Option<string> {
    if input.Some? then input else recorded
  }

  datatype RecordInput = RecordInput(artifacts: Artifacts, validation: Option<Validation>,
                                     artifact: Option<WorkStatus>, create: Option<WorkStatus>, fund: Option<WorkStatus>,
                                     confirmation: Option<WorkStatus>, reconcile: Option<WorkStatus>)

  predicate AnyClash(a: Artifacts, b: Artifacts) {
    || Clash(a.contractAddress, b.contractAddress)
    || (Given(a.contractJobId) && Given(b.contractJobId) && a.contractJobId != b.contractJobId)
    || Clash(a.createTx, b.createTx)
    || Clash(a.createSender, b.createSender)
    || Clash(a.fundTx, b.fundTx)
    || Clash(a.fundSender, b.fundSender)
  }

  /** recordWireJobExecutionArtifacts. */
  function RecordArtifacts(db: Db, input: RecordInput): Outcome {
    var a, b, wf := db.job.artifacts, input.artifacts, db.job.workflow;
    if AnyClash(a, b) then Conflict
    else
      var merged := Artifacts(Prefer(b.contractAddress, a.contractAddress), Prefer(b.contractJobId, a.contractJobId),
                              Prefer(b.createTx, a.createTx), Prefer(b.createSender, a.createSender),
                              Prefer(b.fundTx, a.fundTx), Prefer(b.fundSender, a.fundSender));
      var workflow := Workflow(input.artifact.GetOr(wf.artifact), input.create.GetOr(wf.create),
                               input.fund.GetOr(wf.fund), input.confirmation.GetOr(wf.confirmation),
                               input.reconcile.GetOr(wf.reconcile), wf.retryCount, None, false);
      Committed(db.(job := db.job.(artifacts := merged, validation := input.validation.GetOr(db.job.validation),
                                   workflow := workflow)))
  }

  datatype Stage = CreateStage | FundStage

  /** failWireJobArtifactValidation. */
  function FailValidation(db: Db, stage: Stage): Db {
    var wf := db.job.workflow;
    db.(job := db.job.(validation := ManualReview,
                       workflow := wf.(artifact := WorkFailed,
                                       create := if stage == CreateStage then WorkFailed else wf.create,
                                       fund := if stage == FundStage then WorkFailed else wf.fund,
                                       nextRetryAt := None, manualReview := true)))
  }

  // ---------- reconciling ----------

  function Done(wf: Workflow): Workflow {
    wf.(artifact := Succeeded, confirmation := Succeeded, reconcile := Succeeded, nextRetryAt := None,
        manualReview := false)
  }

  function UpsertTransition(db: Db, id: EventId, t: Transition): Db {
    db.(transitions := db.transitions[id := t])
  }

  /** Updating a row leaves its delivery alone; only a new row starts pending. */
  function UpsertWebhook(db: Db, id: EventId): Db {
    if !db.job.hasWebhook then db
    else if id in db.outbox then db.(outbox := db.outbox[id := db.outbox[id].(state := id.state)])
    else db.(outbox := db.outbox[id := OutboxRow(id.state, DeliveryPending, 0, None)])
  }

  function Reconcile(db: Db, job: Job, id: EventId, t: Transition): Db {
    UpsertWebhook(UpsertTransition(db.(job := job), id, t), id)
  }

  /** reconcileWireJobFundedState writes FUNDED whatever the recorded state is. */
  function ReconcileFunded(db: Db, tx: Hash, block: nat, confirmations: nat): Db {
    var wf := Done(db.job.workflow).(create := Succeeded, fund := Succeeded);
    Reconcile(db, db.job.(contractState := Funded, publicState := Funded, validation := Valid, workflow := wf),
              EventId(Funded, LowerAscii(tx)), Transition(Open, Funded, tx, block, confirmations))
  }

  /** reconcileWireJobSubmittedState. */
  function ReconcileSubmitted(db: Db, e: Log, confirmations: nat): Db {
    Reconcile(db, db.job.(contractState := Submitted, publicState := Submitted, validation := Valid,
                          workflow := Done(db.job.workflow)),
              EventId(Submitted, LowerAscii(e.tx)),
              Transition(db.job.contractState, Submitted, e.tx, e.block, confirmations))
  }

  /** reconcileWireJobTerminalState. */
  function ReconcileTerminal(db: Db, state: JobState, e: Log, confirmations: nat): Db {
    Reconcile(db, db.job.(contractState := state, publicState := state, disposition := Some(state),
                          terminalTx := Some(e.tx), validation := Valid,
                          workflow := Done(db.job.workflow)),
              EventId(state, LowerAscii(e.tx)), Transition(db.job.contractState, state, e.tx, e.block, confirmations))
  }

  // ---------- one operator visit ----------

  datatype Receipt = NotFound | Found(success: bool, block: nat, confirmations: nat)

  /** Everything one visit reads from outside the database. */
  datatype View = View(receipt: Receipt, status: JobState, latest: Option<Log>, head: nat, minConfirmations: nat,
                       retryAt: int)

  predicate IsHash(h: string) {
    |h| == 66 && h[0] == '0' && h[1] == 'x' && forall k :: 2 <= k < 66 ==> '0' <= h[k] <= '9' || 'a' <= h[k] <= 'f'
  }

  function NormalizeHash(x: Option<string>): Option<Hash> {
    if x.None? then None
    else
      var h := LowerAscii(Trim(x.value));
      if IsHash(h) then Some(h) else None
  }

  function ConfirmationsAt(head: nat, block: nat): nat {
    if head >= block then head - block + 1 else 0
  }

  function Waiting(db: Db, retryAt: int, countRetry: bool): Db {
    var wf := db.job.workflow;
    db.(job := db.job.(workflow := wf.(confirmation := InProgress, nextRetryAt := Some(retryAt), manualReview := false,
                                       retryCount := if countRetry then wf.retryCount + 1 else wf.retryCount)))
  }

  function ToManualReview(db: Db): Db {
    db.(job := db.job.(workflow :=
        db.job.workflow.(reconcile := WorkFailed, nextRetryAt := None, manualReview := true)))
  }

  /** reconcileWireJobFundedConfirmation. */
  function ConfirmFunding(db: Db, v: View): Db {
    match NormalizeHash(db.job.artifacts.fundTx)
    case None => db
    case Some(tx) =>
      if !Given(db.job.artifacts.createTx) then db
      else match v.receipt
        case NotFound => Waiting(db, v.retryAt, true)
        case Found(success, block, confirmations) =>
          if !success then FailValidation(db, FundStage)
          else if confirmations < v.minConfirmations then Waiting(db, v.retryAt, false)
          else ReconcileFunded(db, tx, block, confirmations)
  }

  /** reconcileWireJobDirectLifecycle. */
  function FollowLifecycle(db: Db, v: View): Db {
    if v.status == Open then ToManualReview(db)
    else if v.status == Funded then db
    else if v.latest.None? || v.latest.value.state != v.status then ToManualReview(db)
    else
      var e := v.latest.value;
      var confirmations := ConfirmationsAt(v.head, e.block);
      if confirmations < v.minConfirmations then Waiting(db, v.retryAt, false)
      else if v.status == Submitted then ReconcileSubmitted(db, e, confirmations)
      else ReconcileTerminal(db, v.status, e, confirmations)
  }

  predicate HasArtifacts(a: Artifacts) {
    Given(a.createTx) && Given(a.fundTx) && Given(a.contractAddress) && Given(a.contractJobId)
  }

  /** processGhostWireWorkflowJob. */
  function Visit(db: Db, v: View): Db {
    if !HasArtifacts(db.job.artifacts) then db
    else if db.job.contractState == Open then ConfirmFunding(db, v)
    else FollowLifecycle(db, v)
  }

  predicate Unfinished(s: WorkStatus) {
    s != Succeeded
  }

  /** buildWireOperatorWorkWhere. */
  predicate NeedsWork(job: Job, now: int) {
    var wf := job.workflow;
    && !wf.manualReview
    && (wf.nextRetryAt.None? || wf.nextRetryAt.value <= now)
    && (Unfinished(wf.artifact) || Unfinished(wf.confirmation) || Unfinished(wf.reconcile)
        || job.publicState == Funded || job.publicState == Submitted)
  }

  // ---------- settlement amounts ----------

  datatype Settlement = Settlement(providerPayout: nat, protocolRevenue: nat, actualSpend: nat, unusedReserve: nat)

  function Spent(spends: seq<nat>): nat {
    if spends == [] then 0 else Spent(spends[..|spends| - 1]) + spends[|spends| - 1]
  }

  /** deriveTerminalSettlement. */
  function TerminalSettlement(job: Job, principal: nat, fee: nat, reserve: nat, spends: seq<nat>): Option<Settlement> {
    if !Terminal(job.contractState) then None
    else
      var spent := Spent(spends);
      var completed := job.disposition == Some(Completed);
      Some(Settlement(if completed && principal > fee then principal - fee else 0, if completed then fee else 0,
                      spent, if spent >= reserve then 0 else reserve - spent))
  }
}
