/** The row updates of lib/ghostwire-store.ts in place, each proved to compute the step of WireMirror. */
module WireStore {
  import opened Common
  import opened LogScan
  import opened Text
  import opened WireMirror
  import Webhook = WebhookOutbox

  class Store {
    var job: Job
    var transitions: map<EventId, Transition>
    var outbox: map<EventId, OutboxRow>

    constructor (hasWebhook: bool)
      ensures Tables() == Prepared(hasWebhook)
    {
      job := Job(Open, Open, None, None, NO_ARTIFACTS, Unrecorded, NEW_WORKFLOW, hasWebhook);
      transitions, outbox := map[], map[];
    }

    function Tables(): Db
      reads this
    {
      Db(job, transitions, outbox)
    }

    method RecordExecutionArtifacts(input: RecordInput) returns (ok: bool)
      modifies this`job
      ensures ok <==> RecordArtifacts(old(Tables()), input).Committed?
      ensures Tables() == if ok then RecordArtifacts(old(Tables()), input).db else old(Tables())
    {
      var a, b := job.artifacts, input.artifacts;
      if Clash(a.contractAddress, b.contractAddress) {
        return false;
      }
      if Given(a.contractJobId) && Given(b.contractJobId) && a.contractJobId != b.contractJobId {
        return false;
      }
      if Clash(a.createTx, b.createTx) || Clash(a.createSender, b.createSender) {
        return false;
      }
      if Clash(a.fundTx, b.fundTx) || Clash(a.fundSender, b.fundSender) {
        return false;
      }
      var wf := job.workflow;
      wf := wf.(artifact := input.artifact.GetOr(wf.artifact), create := input.create.GetOr(wf.create),
                fund := input.fund.GetOr(wf.fund), confirmation := input.confirmation.GetOr(wf.confirmation),
                reconcile := input.reconcile.GetOr(wf.reconcile), nextRetryAt := None, manualReview := false);
      job := job.(workflow := wf);
      a := a.(contractAddress := Prefer(b.contractAddress, a.contractAddress),
              contractJobId := Prefer(b.contractJobId, a.contractJobId),
              createTx := Prefer(b.createTx, a.createTx), createSender := Prefer(b.createSender, a.createSender),
              fundTx := Prefer(b.fundTx, a.fundTx), fundSender := Prefer(b.fundSender, a.fundSender));
      job := job.(artifacts := a, validation := input.validation.GetOr(job.validation));
      ok := true;
    }

    method FailArtifactValidation(stage: Stage)
      modifies this`job
      ensures Tables() == FailValidation(old(Tables()), stage)
    {
      job := job.(validation := ManualReview);
      var wf := job.workflow;
      wf := wf.(artifact := WorkFailed, nextRetryAt := None, manualReview := true);
      if stage == CreateStage {
        wf := wf.(create := WorkFailed);
      } else {
        wf := wf.(fund := WorkFailed);
      }
      job := job.(workflow := wf);
    }

    /** The two upserts every reconciliation ends with. */
    method Announce(id: EventId, t: Transition)
      modifies this`transitions, this`outbox
      ensures Tables() == Reconcile(old(Tables()), job, id, t)
    {
      transitions := transitions[id := t];
      if job.hasWebhook {
        if id in outbox {
          outbox := outbox[id := outbox[id].(state := id.state)];
        } else {
          outbox := outbox[id := OutboxRow(id.state, DeliveryPending, 0, None)];
        }
      }
    }

    method FinishWorkflow()
      modifies this`job
      ensures job == old(job).(workflow := Done(old(job).workflow))
    {
      job := job.(workflow := job.workflow.(artifact := Succeeded, confirmation := Succeeded, reconcile := Succeeded,
                                            nextRetryAt := None, manualReview := false));
    }

    method ReconcileFundedState(tx: Hash, block: nat, confirmations: nat)
      modifies this
      ensures Tables() == ReconcileFunded(old(Tables()), tx, block, confirmations)
    {
      job := job.(contractState := Funded, publicState := Funded, validation := Valid);
      FinishWorkflow();
      job := job.(workflow := job.workflow.(create := Succeeded, fund := Succeeded));
      Announce(EventId(Funded, LowerAscii(tx)), Transition(Open, Funded, tx, block, confirmations));
    }

    method ReconcileSubmittedState(e: Log, confirmations: nat)
      modifies this
      ensures Tables() == ReconcileSubmitted(old(Tables()), e, confirmations)
    {
      var from := job.contractState;
      job := job.(contractState := Submitted, publicState := Submitted, validation := Valid);
      FinishWorkflow();
      Announce(EventId(Submitted, LowerAscii(e.tx)), Transition(from, Submitted, e.tx, e.block, confirmations));
    }

    method ReconcileTerminalState(state: JobState, e: Log, confirmations: nat)
      modifies this
      ensures Tables() == ReconcileTerminal(old(Tables()), state, e, confirmations)
    {
      var from := job.contractState;
      job := job.(contractState := state, publicState := state, disposition := Some(state), terminalTx := Some(e.tx),
                  validation := Valid);
      FinishWorkflow();
      Announce(EventId(state, LowerAscii(e.tx)), Transition(from, state, e.tx, e.block, confirmations));
    }

    method StageInProgress(retryAt: int, countRetry: bool)
      modifies this`job
      ensures Tables() == Waiting(old(Tables()), retryAt, countRetry)
    {
      var wf := job.workflow.(confirmation := InProgress, nextRetryAt := Some(retryAt), manualReview := false);
      if countRetry {
        wf := wf.(retryCount := wf.retryCount + 1);
      }
      job := job.(workflow := wf);
    }

    method MarkManualReview()
      modifies this`job
      ensures Tables() == ToManualReview(old(Tables()))
    {
      job := job.(workflow := job.workflow.(reconcile := WorkFailed, nextRetryAt := None, manualReview := true));
    }

    /** processGhostWireWorkflowJob on what the visit read. */
    method ProcessWorkflowJob(v: View)
      modifies this
      ensures Tables() == Visit(old(Tables()), v)
    {
      if !HasArtifacts(job.artifacts) {
        return;
      }
      if job.contractState == Open {
        ConfirmFunded(v);
        return;
      }
      if v.status == Open {
        MarkManualReview();
        return;
      }
      if v.status == Funded {
        return;
      }
      if v.latest.None? || v.latest.value.state != v.status {
        MarkManualReview();
        return;
      }
      var confirmations := ConfirmationsAt(v.head, v.latest.value.block);
      if confirmations < v.minConfirmations {
        StageInProgress(v.retryAt, false);
      } else if v.status == Submitted {
        ReconcileSubmittedState(v.latest.value, confirmations);
      } else {
        ReconcileTerminalState(v.status, v.latest.value, confirmations);
      }
    }

    method ConfirmFunded(v: View)
      modifies this
      ensures Tables() == ConfirmFunding(old(Tables()), v)
    {
      var tx := NormalizeHash(job.artifacts.fundTx);
      if tx.None? || !Given(job.artifacts.createTx) {
        return;
      }
      if v.receipt.NotFound? {
        StageInProgress(v.retryAt, true);
      } else if !v.receipt.success {
        FailArtifactValidation(FundStage);
      } else if v.receipt.confirmations < v.minConfirmations {
        StageInProgress(v.retryAt, false);
      } else {
        ReconcileFundedState(tx.value, v.receipt.block, v.receipt.confirmations);
      }
    }

    /** One delivery attempt on an outbox row. */
    method DeliverWebhook(id: EventId, attempt: Webhook.Attempt, now: int)
      requires id in outbox
      modifies this`outbox
      ensures outbox == old(outbox)[id := Webhook.Deliver(old(outbox)[id], attempt, now)]
    {
      var row := outbox[id];
      var exhausted := row.attempts + 1 >= Webhook.MAX_ATTEMPTS;
      var delivery, next := DeadLetter, None;
      if attempt.Http? && Webhook.IsOk(attempt.status) {
        delivery := Delivered;
      } else if !attempt.TargetMissing? && !exhausted
                && (attempt.NetworkError? || Webhook.IsRetryable(attempt.status)) {
        delivery, next := DeliveryFailed, Some(now + Webhook.RetryDelay(row.attempts + 1));
      }
      outbox := outbox[id := row.(delivery := delivery, attempts := row.attempts + 1, nextAttemptAt := next)];
    }
  }
}
