/**
 The database mirror and the chain together. The chain only grows: one event per state reached, each in a
 later position. Database transactions are sequential; the chain may move while the operator looks at it.
 */
module WireRun {
  import opened Common
  import opened LogScan
  import opened Text
  import opened WireMirror
  import Runs

  datatype Sys = Sys(db: Db, chain: seq<Log>, head: nat, minConfirmations: nat)

  /** What one visit saw: the status after `statusAt` events, the log after `logsAt` events up to block `head`. */
  datatype Sight = Sight(receipt: Receipt, statusAt: nat, logsAt: nat, head: nat, retryAt: int)

  datatype Event =
    | Grow(logs: seq<Log>, head: nat)
    | Record(input: RecordInput)
    | Invalidate(stage: Stage)
    | FundRecovered(tx: Hash, block: nat, confirmations: nat)
    | FundReported(tx: Hash, block: nat, confirmations: nat)
    | OperatorVisit(during: seq<Log>, newHead: nat, now: int, sight: Sight)

  ghost predicate ValidChain(chain: seq<Log>, head: nat) {
    && (forall i :: 0 <= i < |chain| ==> chain[i].state != Open && chain[i].block <= head)
    && (forall i, j :: 0 <= i < j < |chain| ==> Rank(chain[i].state) < Rank(chain[j].state))
    && (forall i, j :: 0 <= i < j < |chain| ==> LogLeq(chain[i], chain[j]) && !LogLeq(chain[j], chain[i]))
  }

  function StateAfter(chain: seq<Log>): JobState {
    if chain == [] then Open else chain[|chain| - 1].state
  }

  /** The newest lifecycle event up to block `head` of a chain in order. */
  function LatestVisible(chain: seq<Log>, head: nat): Option<Log> {
    if chain == [] then None
    else
      var last := chain[|chain| - 1];
      if Lifecycle(last.state) && last.block <= head then Some(last) else LatestVisible(chain[..|chain| - 1], head)
  }

  lemma NewestIsLatest(init: seq<Log>, last: Log, head: nat)
    requires forall f :: f in init ==> LogLeq(f, last)
    requires Lifecycle(last.state) && last.block <= head
    ensures IsLatest(init + [last], head, last) && !NoneUpTo(init + [last], head)
  {
    assert last in init + [last];
  }

  lemma UnseenLast(init: seq<Log>, last: Log, head: nat)
    requires !(Lifecycle(last.state) && last.block <= head)
    ensures NoneUpTo(init + [last], head) <==> NoneUpTo(init, head)
    ensures forall e :: IsLatest(init, head, e) ==> IsLatest(init + [last], head, e)
  {
    assert forall f :: f in init ==> f in init + [last];
  }

  /** This is what the backward scan of the log returns. */
  lemma {:induction false} ScanSeesLatest(chain: seq<Log>, top: nat, head: nat)
    requires ValidChain(chain, top)
    ensures LatestVisible(chain, head).None? <==> NoneUpTo(chain, head)
    ensures LatestVisible(chain, head).Some? ==> IsLatest(chain, head, LatestVisible(chain, head).value)
  {
    if chain != [] {
      var init, last := chain[..|chain| - 1], chain[|chain| - 1];
      assert chain == init + [last];
      if Lifecycle(last.state) && last.block <= head {
        NewestIsLatest(init, last, head);
      } else {
        ScanSeesLatest(init, top, head);
        UnseenLast(init, last, head);
      }
    }
  }

  /** The chain has event `e` in state s, sent by tx, and it is buried deep enough. */
  ghost predicate Confirmed(s: Sys, id: EventId) {
    exists i :: 0 <= i < |s.chain| && s.chain[i].state == id.state && LowerAscii(s.chain[i].tx) == id.tx
      && s.chain[i].block + s.minConfirmations <= s.head + 1
  }

  ghost predicate FundEvidence(s: Sys, tx: Hash, block: nat, confirmations: nat) {
    && confirmations <= ConfirmationsAt(s.head, block)
    && exists i :: 0 <= i < |s.chain| && s.chain[i].state == Funded && LowerAscii(s.chain[i].tx) == LowerAscii(tx)
         && s.chain[i].block == block
  }

  /** A successful receipt of the recorded fund transaction is the receipt of the funding event. */
  ghost predicate HonestReceipt(s: Sys, r: Receipt) {
    r.Found? && r.success && NormalizeHash(s.db.job.artifacts.fundTx).Some? ==>
      FundEvidence(s, NormalizeHash(s.db.job.artifacts.fundTx).value, r.block, r.confirmations)
  }

  ghost predicate CanGrow(s: Sys, logs: seq<Log>, head: nat) {
    && s.head <= head && ValidChain(s.chain + logs, head)
    && forall i :: 0 <= i < |logs| ==> logs[i].block > s.head
  }

  function Grown(s: Sys, logs: seq<Log>, head: nat): Sys {
    s.(chain := s.chain + logs, head := head)
  }

  /** What the operator was shown during the visit really was on the chain at some point of the visit. */
  ghost predicate Plausible(s: Sys, ev: Event)
    requires ev.OperatorVisit?
  {
    var s' := Grown(s, ev.during, ev.newHead);
    && CanGrow(s, ev.during, ev.newHead)
    && |s.chain| <= ev.sight.statusAt <= ev.sight.logsAt <= |s'.chain|
    && ev.sight.head <= ev.newHead
    && HonestReceipt(s', ev.sight.receipt)
    && NeedsWork(s.db.job, ev.now)
  }

  ghost function ViewOf(s: Sys, g: Sight): View
    requires g.statusAt <= |s.chain| && g.logsAt <= |s.chain|
  {
    View(g.receipt, StateAfter(s.chain[..g.statusAt]), LatestVisible(s.chain[..g.logsAt], g.head), g.head,
         s.minConfirmations, g.retryAt)
  }

  ghost function Next(s: Sys, ev: Event): Sys {
    match ev
    case Grow(logs, head) => if CanGrow(s, logs, head) then Grown(s, logs, head) else s
    case Record(input) =>
      (match RecordArtifacts(s.db, input)
       case Conflict => s
       case Committed(db) => s.(db := db))
    case Invalidate(stage) => s.(db := FailValidation(s.db, stage))
    case FundRecovered(tx, block, confirmations) =>
      // The recovery pass only looks at jobs that are still open.
      if s.db.job.publicState == Open && s.minConfirmations <= confirmations
          && FundEvidence(s, tx, block, confirmations)
      then s.(db := ReconcileFunded(s.db, tx, block, confirmations)) else s
    case FundReported(tx, block, confirmations) =>
      // The artifacts route does not look at the recorded state.
      if s.minConfirmations <= confirmations && FundEvidence(s, tx, block, confirmations)
      then s.(db := ReconcileFunded(s.db, tx, block, confirmations)) else s
    case OperatorVisit(during, newHead, _, g) =>
      if Plausible(s, ev)
      then
        var s' := Grown(s, during, newHead);
        s'.(db := Visit(s.db, ViewOf(s', g)))
      else s
  }

  ghost function Run(s: Sys, events: seq<Event>): Sys {
    Runs.Fold(Next, s, events)
  }

  /** A fund report that is accepted although the job is recorded as past funded. */
  ghost predicate LateReport(s: Sys, ev: Event) {
    && ev.FundReported?
    && s.minConfirmations <= ev.confirmations && FundEvidence(s, ev.tx, ev.block, ev.confirmations)
    && s.db.job.contractState != Open && s.db.job.contractState != Funded
  }

  /** The recorded state goes forward only, and stops at a terminal one. */
  ghost predicate Forward(a: JobState, b: JobState) {
    Rank(a) <= Rank(b) && (Terminal(a) ==> b == a)
  }

  // ---------- the invariant ----------

  ghost predicate RowsOk(s: Sys) {
    && (forall id :: id in s.db.outbox ==> Confirmed(s, id) && s.db.outbox[id].state == id.state)
    && (forall id :: id in s.db.transitions ==> Confirmed(s, id) && s.db.transitions[id].to == id.state)
  }

  ghost predicate Recorded(s: Sys, state: JobState) {
    exists id :: id in s.db.transitions && id.state == state && (s.db.job.hasWebhook ==> id in s.db.outbox)
  }

  ghost predicate JobOk(job: Job) {
    && job.publicState == job.contractState
    && job.disposition == (if Terminal(job.contractState) then Some(job.contractState) else None)
  }

  /** The chain has reached this terminal state, with the minimum confirmations. */
  ghost predicate Ended(s: Sys, state: JobState) {
    Terminal(state) && exists id :: Confirmed(s, id) && id.state == state
  }

  /** A terminal job has its disposition, and a disposition is always the state the chain ended in. */
  ghost predicate DispositionOk(s: Sys) {
    && (Terminal(s.db.job.contractState) ==> s.db.job.disposition == Some(s.db.job.contractState))
    && (s.db.job.disposition.Some? ==> Ended(s, s.db.job.disposition.value))
  }

  ghost predicate Inv(s: Sys) {
    && ValidChain(s.chain, s.head)
    && s.db.job.publicState == s.db.job.contractState
    && DispositionOk(s)
    && RowsOk(s)
    && (s.db.job.contractState != Open ==> Recorded(s, s.db.job.contractState))
  }

  lemma ConfirmedStays(s: Sys, s': Sys, id: EventId)
    requires s.chain <= s'.chain && s.head <= s'.head && s'.minConfirmations == s.minConfirmations
    requires Confirmed(s, id)
    ensures Confirmed(s', id)
  {
    var i :| 0 <= i < |s.chain| && s.chain[i].state == id.state && LowerAscii(s.chain[i].tx) == id.tx
      && s.chain[i].block + s.minConfirmations <= s.head + 1;
    assert s'.chain[i] == s.chain[i];
  }

  lemma EndedStays(s: Sys, s': Sys)
    requires s.chain <= s'.chain && s.head <= s'.head && s'.minConfirmations == s.minConfirmations
    ensures forall state :: Ended(s, state) ==> Ended(s', state)
  {
    forall state | Ended(s, state) ensures Ended(s', state) {
      var id :| Confirmed(s, id) && id.state == state;
      ConfirmedStays(s, s', id);
    }
  }

  lemma GrowInv(s: Sys, logs: seq<Log>, head: nat)
    requires Inv(s) && CanGrow(s, logs, head)
    ensures Inv(Grown(s, logs, head))
  {
    var s' := Grown(s, logs, head);
    EndedStays(s, s');
    forall id | Confirmed(s, id) ensures Confirmed(s', id) {
      ConfirmedStays(s, s', id);
    }
    if s.db.job.contractState != Open {
      var id :| id in s.db.transitions && id.state == s.db.job.contractState
          && (s.db.job.hasWebhook ==> id in s.db.outbox);
      assert Recorded(s', s.db.job.contractState);
    }
  }

  lemma ReconcileRows(s: Sys, job: Job, id: EventId, t: Transition)
    requires RowsOk(s) && Confirmed(s, id) && t.to == id.state
    ensures RowsOk(s.(db := Reconcile(s.db, job, id, t)))
  {
    var s' := s.(db := Reconcile(s.db, job, id, t));
    forall x | Confirmed(s, x) ensures Confirmed(s', x) {
      ConfirmedStays(s, s', x);
    }
  }

  lemma ReconcileRecords(db: Db, job: Job, id: EventId, t: Transition)
    ensures var db' := Reconcile(db, job, id, t);
      db'.job == job && id in db'.transitions && (job.hasWebhook ==> id in db'.outbox)
  {
  }

  /** The job may be given a state: its disposition follows, or stays when the state is not terminal. */
  ghost predicate Follows(job: Job, job': Job, state: JobState) {
    && job'.contractState == state && job'.publicState == state && job'.hasWebhook == job.hasWebhook
    && job'.disposition == (if Terminal(state) then Some(state) else job.disposition)
  }

  /** Writing a confirmed event: the job moves to its state, one transition row, one webhook row. */
  lemma ReconcileInv(s: Sys, job: Job, id: EventId, t: Transition)
    requires Inv(s) && Confirmed(s, id) && t.to == id.state && id.state != Open
    requires Follows(s.db.job, job, id.state)
    ensures Inv(s.(db := Reconcile(s.db, job, id, t)))
  {
    var s' := s.(db := Reconcile(s.db, job, id, t));
    EndedStays(s, s');
    ConfirmedStays(s, s', id);
    ReconcileRows(s, job, id, t);
    ReconcileRecords(s.db, job, id, t);
    assert id in s'.db.transitions && id.state == s'.db.job.contractState;
    assert Recorded(s', id.state);
  }

  /** Bookkeeping that leaves the states alone keeps the invariant. */
  lemma WorkflowInv(s: Sys, job: Job)
    requires Inv(s) && job.contractState == s.db.job.contractState && job.publicState == s.db.job.publicState
    requires job.disposition == s.db.job.disposition && job.hasWebhook == s.db.job.hasWebhook
    ensures Inv(s.(db := s.db.(job := job)))
  {
    var s' := s.(db := s.db.(job := job));
    EndedStays(s, s');
    forall x | Confirmed(s, x) ensures Confirmed(s', x) {
      ConfirmedStays(s, s', x);
    }
    if s.db.job.contractState != Open {
      var id :| id in s.db.transitions && id.state == s.db.job.contractState
          && (s.db.job.hasWebhook ==> id in s.db.outbox);
      assert Recorded(s', s.db.job.contractState);
    }
  }

  lemma FundedInv(s: Sys, tx: Hash, block: nat, confirmations: nat)
    requires Inv(s) && s.minConfirmations <= confirmations && FundEvidence(s, tx, block, confirmations)
    ensures Inv(s.(db := ReconcileFunded(s.db, tx, block, confirmations)))
  {
    var i :| 0 <= i < |s.chain| && s.chain[i].state == Funded && LowerAscii(s.chain[i].tx) == LowerAscii(tx)
      && s.chain[i].block == block;
    var id := EventId(Funded, LowerAscii(tx));
    assert s.chain[i].block + s.minConfirmations <= s.head + 1;
    assert Confirmed(s, id);
    var job := ReconcileFunded(s.db, tx, block, confirmations).job;
    ReconcileInv(s, job, id, Transition(Open, Funded, tx, block, confirmations));
  }

  /** A lifecycle event the scan returned is on the chain. */
  lemma {:induction false} VisibleIsOnChain(chain: seq<Log>, n: nat, head: nat)
    requires n <= |chain| && LatestVisible(chain[..n], head).Some?
    ensures exists i :: 0 <= i < n && chain[i] == LatestVisible(chain[..n], head).value
    ensures LatestVisible(chain[..n], head).value.block <= head
        && Lifecycle(LatestVisible(chain[..n], head).value.state)
    decreases n
  {
    if n > 0 {
      var last := chain[n - 1];
      assert chain[..n][n - 1] == last && chain[..n][..n - 1] == chain[..n - 1];
      if !(Lifecycle(last.state) && last.block <= head) {
        VisibleIsOnChain(chain, n - 1, head);
      }
    }
  }

  lemma SeenIsConfirmed(s: Sys, g: Sight, e: Log)
    requires g.logsAt <= |s.chain| && g.head <= s.head
    requires LatestVisible(s.chain[..g.logsAt], g.head) == Some(e)
    requires s.minConfirmations <= ConfirmationsAt(g.head, e.block)
    ensures Confirmed(s, EventId(e.state, LowerAscii(e.tx)))
  {
    VisibleIsOnChain(s.chain, g.logsAt, g.head);
    var i :| 0 <= i < g.logsAt && s.chain[i] == e;
    assert s.chain[i].block + s.minConfirmations <= s.head + 1;
  }

  /** Either the lifecycle visit writes the confirmed event it saw, or it only touches the workflow. */
  lemma LifecycleCases(db: Db, v: View)
    ensures var db' := FollowLifecycle(db, v);
      var writes := v.status != Open && v.status != Funded && v.latest.Some? && v.latest.value.state == v.status
        && v.minConfirmations <= ConfirmationsAt(v.head, v.latest.value.block);
      if writes then
        var e := v.latest.value;
        db' == Reconcile(db, db'.job, EventId(v.status, LowerAscii(e.tx)),
                         Transition(db.job.contractState, v.status, e.tx, e.block, ConfirmationsAt(v.head, e.block)))
          && db'.job.contractState == db'.job.publicState == v.status && db'.job.hasWebhook == db.job.hasWebhook
          && db'.job.disposition == (if v.status == Submitted then db.job.disposition else Some(v.status))
      else
        db' == db.(job := db'.job) && db'.job == db.job.(workflow := db'.job.workflow)
  {
  }

  lemma LifecycleInv(s: Sys, g: Sight)
    requires Inv(s) && g.statusAt <= g.logsAt <= |s.chain| && g.head <= s.head
    requires s.db.job.contractState != Open
    requires Forward(s.db.job.contractState, StateAfter(s.chain[..g.statusAt]))
    ensures Inv(s.(db := FollowLifecycle(s.db, ViewOf(s, g))))
    ensures Forward(s.db.job.contractState, FollowLifecycle(s.db, ViewOf(s, g)).job.contractState)
  {
    var v := ViewOf(s, g);
    var db' := FollowLifecycle(s.db, v);
    LifecycleCases(s.db, v);
    if v.latest.Some? && v.latest.value.state == v.status && v.status != Open && v.status != Funded
       && v.minConfirmations <= ConfirmationsAt(v.head, v.latest.value.block) {
      var e := v.latest.value;
      SeenIsConfirmed(s, g, e);
      ReconcileInv(s, db'.job, EventId(v.status, LowerAscii(e.tx)),
                   Transition(s.db.job.contractState, v.status, e.tx, e.block, ConfirmationsAt(v.head, e.block)));
    } else {
      WorkflowInv(s, db'.job);
    }
  }

  lemma RecordedWasReached(s: Sys) returns (i: nat)
    requires Inv(s) && s.db.job.contractState != Open
    ensures i < |s.chain| && s.chain[i].state == s.db.job.contractState
  {
    var id :| id in s.db.transitions && id.state == s.db.job.contractState
        && (s.db.job.hasWebhook ==> id in s.db.outbox);
    assert Confirmed(s, id);
    i :| 0 <= i < |s.chain| && s.chain[i].state == id.state && LowerAscii(s.chain[i].tx) == id.tx
      && s.chain[i].block + s.minConfirmations <= s.head + 1;
  }

  lemma ReachedStays(chain: seq<Log>, head: nat, i: nat, n: nat)
    requires ValidChain(chain, head) && i < n <= |chain|
    ensures Forward(chain[i].state, StateAfter(chain[..n]))
  {
    assert chain[..n][n - 1] == chain[n - 1];
    if i < n - 1 {
      assert Rank(chain[i].state) < Rank(chain[n - 1].state);
    }
  }

  /** What has been recorded was reached before the visit started, so the visit cannot see less. */
  lemma SeesAtLeast(s: Sys, s': Sys, n: nat)
    requires Inv(s) && ValidChain(s'.chain, s'.head) && s.chain <= s'.chain && |s.chain| <= n <= |s'.chain|
    requires s.db.job.contractState != Open
    ensures Forward(s.db.job.contractState, StateAfter(s'.chain[..n]))
  {
    var i := RecordedWasReached(s);
    assert s'.chain[i] == s.chain[i];
    ReachedStays(s'.chain, s'.head, i, n);
  }

  lemma VisitInv(s: Sys, ev: Event)
    requires Inv(s) && ev.OperatorVisit? && Plausible(s, ev)
    ensures Inv(Next(s, ev))
    ensures Forward(s.db.job.contractState, Next(s, ev).db.job.contractState)
  {
    var s1 := Grown(s, ev.during, ev.newHead);
    GrowInv(s, ev.during, ev.newHead);
    var v := ViewOf(s1, ev.sight);
    var db' := Visit(s.db, v);
    assert Next(s, ev) == s1.(db := db');
    if !HasArtifacts(s.db.job.artifacts) {
      assert s1.(db := db') == s1;
    } else if s.db.job.contractState == Open {
      FundingInv(s1, v);
    } else {
      SeesAtLeast(s, s1, ev.sight.statusAt);
      LifecycleInv(s1, ev.sight);
    }
  }

  lemma FundingInv(s: Sys, v: View)
    requires Inv(s) && s.db.job.contractState == Open && v.minConfirmations == s.minConfirmations
    requires HonestReceipt(s, v.receipt)
    ensures Inv(s.(db := ConfirmFunding(s.db, v)))
  {
    var tx := NormalizeHash(s.db.job.artifacts.fundTx);
    var r := v.receipt;
    if tx.Some? && Given(s.db.job.artifacts.createTx) && r.Found? && r.success
       && v.minConfirmations <= r.confirmations {
      FundedInv(s, tx.value, r.block, r.confirmations);
    } else {
      WorkflowInv(s, ConfirmFunding(s.db, v).job);
    }
  }

  /**
   Every operation keeps the mirror true, and takes the recorded state forward, except that a late fund report
   takes it back.
   */
  lemma NextInv(s: Sys, ev: Event)
    requires Inv(s)
    ensures Inv(Next(s, ev))
    ensures Forward(s.db.job.contractState, Next(s, ev).db.job.contractState) <==> !LateReport(s, ev)
  {
    match ev
    case Grow(logs, head) =>
      if CanGrow(s, logs, head) {
        GrowInv(s, logs, head);
      }
    case Record(input) =>
      if RecordArtifacts(s.db, input).Committed? {
        WorkflowInv(s, RecordArtifacts(s.db, input).db.job);
      }
    case Invalidate(stage) => WorkflowInv(s, FailValidation(s.db, stage).job);
    case FundRecovered(tx, block, confirmations) =>
      if Next(s, ev) != s {
        FundedInv(s, tx, block, confirmations);
      }
    case FundReported(_, _, _) => ReportInv(s, ev);
    case OperatorVisit(_, _, _, _) =>
      if Plausible(s, ev) {
        VisitInv(s, ev);
      }
  }

  lemma ReportInv(s: Sys, ev: Event)
    requires Inv(s) && ev.FundReported?
    ensures Inv(Next(s, ev))
    ensures Forward(s.db.job.contractState, Next(s, ev).db.job.contractState) <==> !LateReport(s, ev)
  {
    if s.minConfirmations <= ev.confirmations && FundEvidence(s, ev.tx, ev.block, ev.confirmations) {
      FundedInv(s, ev.tx, ev.block, ev.confirmations);
    }
  }

  /** Writing FUNDED leaves the disposition alone. */
  lemma FundedJobOk(db: Db, tx: Hash, block: nat, confirmations: nat)
    requires JobOk(db.job)
    ensures JobOk(ReconcileFunded(db, tx, block, confirmations).job) <==> !Terminal(db.job.contractState)
  {
  }

  /** Apart from visits and the funded write, nothing touches states and disposition. */
  lemma QuietJobOk(s: Sys, ev: Event)
    requires ev.Grow? || ev.Record? || ev.Invalidate?
    ensures JobOk(Next(s, ev).db.job) <==> JobOk(s.db.job)
  {
  }

  /** The disposition is set exactly in terminal states until a fund report comes after the end. */
  lemma NextJobOk(s: Sys, ev: Event)
    requires Inv(s) && JobOk(s.db.job)
    ensures JobOk(Next(s, ev).db.job) <==> !(LateReport(s, ev) && Terminal(s.db.job.contractState))
  {
    match ev
    case FundRecovered(tx, block, confirmations) => FundedJobOk(s.db, tx, block, confirmations);
    case FundReported(tx, block, confirmations) => FundedJobOk(s.db, tx, block, confirmations);
    case OperatorVisit(during, newHead, _, g) =>
      if Plausible(s, ev) {
        VisitInv(s, ev);
        VisitJobOk(s.db, ViewOf(Grown(s, during, newHead), g), Next(s, ev).db);
      }
    case _ => QuietJobOk(s, ev);
  }

  lemma VisitJobOk(db: Db, v: View, db': Db)
    requires JobOk(db.job) && db' == Visit(db, v) && Forward(db.job.contractState, db'.job.contractState)
    ensures JobOk(db'.job)
  {
    LifecycleCases(db, v);
  }
}
