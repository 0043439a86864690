/**
 What each write to a GhostWire job leaves behind, what a visit decides, and what a terminal settlement pays: told
 from the recorded job, the chain and what was seen of it.
 */
module WireVisits {
  import opened Common
  import opened LogScan
  import opened Text
  import opened WireMirror
  import opened WireRun
  import opened WireTheorems

  // ---------- settlement amounts ----------

  /** Spending adds up, in whatever pieces it was recorded. */
  lemma {:induction false} SpentJoin(a: seq<nat>, b: seq<nat>)
    ensures Spent(a + b) == Spent(a) + Spent(b)
    ensures Spent([]) == 0 && forall x: nat :: Spent([x]) == x
  {
    forall x: nat ensures Spent([x]) == x {
      assert [x][..0] == [];
    }
    if b == [] {
      assert a + b == a;
    } else {
      SpentJoin(a, b[..|b| - 1]);
      assert (a + b)[..|a + b| - 1] == a + b[..|b| - 1];
    }
  }

  lemma EndsOnce(s: Sys, a: JobState, b: JobState)
    requires Inv(s) && Ended(s, a) && Ended(s, b)
    ensures a == b
  {
    var x :| Confirmed(s, x) && x.state == a;
    var y :| Confirmed(s, y) && y.state == b;
    LastState(s, x);
    LastState(s, y);
  }

  /** A terminal state is the last one the chain reaches. */
  lemma LastState(s: Sys, id: EventId)
    requires Inv(s) && Confirmed(s, id) && Terminal(id.state)
    ensures s.chain != [] && s.chain[|s.chain| - 1].state == id.state
  {
    var i :| 0 <= i < |s.chain| && s.chain[i].state == id.state && LowerAscii(s.chain[i].tx) == id.tx
      && s.chain[i].block + s.minConfirmations <= s.head + 1;
    ReachedStays(s.chain, s.head, i, |s.chain|);
    assert s.chain[..|s.chain|] == s.chain;
  }

  /**
   After any run, what a derived settlement pays, amount by amount: the provider gets the principal less the fee, and
   the protocol its fee, exactly if the chain completed the job with the minimum confirmations, and neither gets
   anything if it ended otherwise; spending is what was recorded, and the rest of the reserve goes back.
   */
  lemma PaidForCompletion(hasWebhook: bool, head: nat, minConfirmations: nat, events: seq<Event>, principal: nat,
                          fee: nat, reserve: nat, spends: seq<nat>)
    ensures var s := Run(Start(hasWebhook, head, minConfirmations), events);
      var r := TerminalSettlement(s.db.job, principal, fee, reserve, spends);
      r.Some? ==>
        && Ended(s, s.db.job.contractState)
        && r.value.protocolRevenue == (if Ended(s, Completed) then fee else 0)
        && (Ended(s, Completed) && fee <= principal ==> r.value.providerPayout + fee == principal)
        && (!Ended(s, Completed) || fee > principal ==> r.value.providerPayout == 0)
        && r.value.actualSpend == Spent(spends)
        && r.value.unusedReserve == Max(0, reserve - Spent(spends))
  {
    StartInv(hasWebhook, head, minConfirmations);
    RunInv(Start(hasWebhook, head, minConfirmations), events);
    var s := Run(Start(hasWebhook, head, minConfirmations), events);
    if Terminal(s.db.job.contractState) && Ended(s, Completed) {
      EndsOnce(s, Completed, s.db.job.contractState);
    }
  }

  // ---------- what is written ----------

  /** The row of the outbox after a state was reached; a row that is there keeps its deliveries. */
  ghost predicate Announced(db: Db, db': Db, id: EventId) {
    db'.outbox == if !db.job.hasWebhook then db.outbox
                  else if id in db.outbox then db.outbox[id := db.outbox[id].(state := id.state)]
                  else db.outbox[id := OutboxRow(id.state, DeliveryPending, 0, None)]
  }

  /** The job is recorded in a state: one transition row and one announcement under the event that reached it. */
  ghost predicate Reaches(db: Db, db': Db, state: JobState, from: JobState, tx: Hash, block: nat, confirmations: nat) {
    var job, wf, id := db.job, db.job.workflow, EventId(state, LowerAscii(tx));
    && db'.job == Job(state, state, if Terminal(state) then Some(state) else job.disposition,
                      if Terminal(state) then Some(tx) else job.terminalTx, job.artifacts, Valid,
                      Workflow(Succeeded, if state == Funded then Succeeded else wf.create,
                               if state == Funded then Succeeded else wf.fund, Succeeded, Succeeded, wf.retryCount,
                               None, false),
                      job.hasWebhook)
    && db'.transitions == db.transitions[id := Transition(from, state, tx, block, confirmations)]
    && Announced(db, db', id)
  }

  lemma WritesReach(db: Db, state: JobState, tx: Hash, e: Log, block: nat, confirmations: nat)
    ensures Reaches(db, ReconcileFunded(db, tx, block, confirmations), Funded, Open, tx, block, confirmations)
    ensures Reaches(db, ReconcileSubmitted(db, e, confirmations), Submitted, db.job.contractState, e.tx, e.block,
                    confirmations)
    ensures Terminal(state) ==>
        Reaches(db, ReconcileTerminal(db, state, e, confirmations), state, db.job.contractState, e.tx, e.block,
                confirmations)
  {
  }

  /** A job recorded as funded or submitted is due again at once; a finished one never. */
  lemma ReachedIsDue(db: Db, db': Db, state: JobState, from: JobState, tx: Hash, block: nat, confirmations: nat,
                     now: int)
    requires Reaches(db, db', state, from, tx, block, confirmations)
    ensures NeedsWork(db'.job, now) <==> state in {Funded, Submitted}
  {
  }

  /**
   A job is on the operator's list exactly if nobody has to look at it by hand, it is due, and it is not through: one of
   the three stages the operator drives has not succeeded, or the contract can still move.
   */
  lemma OnTheListIff(job: Job, now: int)
    ensures var wf := job.workflow;
      var driven := [wf.artifact, wf.confirmation, wf.reconcile];
      NeedsWork(job, now) <==>
        && !wf.manualReview && wf.nextRetryAt.GetOr(now) <= now
        && ((exists k :: 0 <= k < 3 && driven[k] != Succeeded) || job.publicState in {Funded, Submitted})
  {
    var wf := job.workflow;
    var driven := [wf.artifact, wf.confirmation, wf.reconcile];
    assert driven[0] == wf.artifact && driven[1] == wf.confirmation && driven[2] == wf.reconcile;
  }

  /** Nothing but the workflow changes: the stage waits, for one more retry or without counting one. */
  ghost predicate Waits(db: Db, db': Db, retryAt: int, counted: nat) {
    var wf := db.job.workflow;
    db' == db.(job := db.job.(workflow := Workflow(wf.artifact, wf.create, wf.fund, InProgress, wf.reconcile,
                                                   wf.retryCount + counted, Some(retryAt), false)))
  }

  /** A human has to look at the job. */
  ghost predicate Reviewed(db: Db, db': Db) {
    var wf := db.job.workflow;
    db' == db.(job := db.job.(workflow := Workflow(wf.artifact, wf.create, wf.fund, wf.confirmation, WorkFailed,
                                                   wf.retryCount, None, true)))
  }

  /** The artifacts of a stage are found invalid, and a human has to look at the job. */
  ghost predicate Invalidates(db: Db, db': Db, stage: Stage) {
    var wf := db.job.workflow;
    db' == db.(job := db.job.(validation := ManualReview,
                              workflow := Workflow(WorkFailed, if stage == CreateStage then WorkFailed else wf.create,
                                                   if stage == FundStage then WorkFailed else wf.fund,
                                                   wf.confirmation, wf.reconcile, wf.retryCount, None, true)))
  }

  lemma InvalidationIs(db: Db, stage: Stage)
    ensures Invalidates(db, FailValidation(db, stage), stage)
  {
  }

  // ---------- recording artifacts ----------

  function Fields(a: Artifacts): seq<Option<string>> {
    [a.contractAddress, a.contractJobId, a.createTx, a.createSender, a.fundTx, a.fundSender]
  }

  /** Two given values of one field are the same: the job id to the letter, the others up to case. */
  predicate SameValue(k: nat, x: string, y: string) {
    if k == 1 then x == y else LowerAscii(x) == LowerAscii(y)
  }

  /**
   A recording is refused exactly if it gives a different value for a field that has one; otherwise it replaces
   exactly the fields and stages it names, and the job is due again.
   */
  lemma RecordingAnswers(db: Db, input: RecordInput)
    ensures var r, was, given := RecordArtifacts(db, input), Fields(db.job.artifacts), Fields(input.artifacts);
      && (r == Conflict <==> exists k :: 0 <= k < 6 && Given(was[k]) && Given(given[k])
                                         && !SameValue(k, was[k].value, given[k].value))
      && (r.Committed? ==>
            var job, wf := r.db.job, db.job.workflow;
            && r.db == db.(job := db.job.(artifacts := job.artifacts, validation := job.validation,
                                          workflow := job.workflow))
            && (forall k :: 0 <= k < 6 ==> Fields(job.artifacts)[k] == if given[k].Some? then given[k] else was[k])
            && job.validation == input.validation.GetOr(db.job.validation)
            && job.workflow == Workflow(input.artifact.GetOr(wf.artifact), input.create.GetOr(wf.create),
                                        input.fund.GetOr(wf.fund), input.confirmation.GetOr(wf.confirmation),
                                        input.reconcile.GetOr(wf.reconcile), wf.retryCount, None, false))
  {
    var was, given := Fields(db.job.artifacts), Fields(input.artifacts);
    if RecordArtifacts(db, input) == Conflict {
      var k := if Clash(was[0], given[0]) then 0 else if Clash(was[2], given[2]) then 2
               else if Clash(was[3], given[3]) then 3 else if Clash(was[4], given[4]) then 4
               else if Clash(was[5], given[5]) then 5 else 1;
      assert Given(was[k]) && Given(given[k]) && !SameValue(k, was[k].value, given[k].value);
    }
  }

  // ---------- what a visit decides ----------

  /** The contract, its job, and both transactions are recorded. */
  predicate Complete(a: Artifacts) {
    forall k :: k in {0, 1, 2, 4} ==> Given(Fields(a)[k])
  }

  lemma CompleteMeans(a: Artifacts)
    ensures HasArtifacts(a) <==> Complete(a)
  {
    assert Complete(a) ==> Given(Fields(a)[0]) && Given(Fields(a)[1]) && Given(Fields(a)[2]) && Given(Fields(a)[4]);
  }

  /** A job without its artifacts is left alone. */
  lemma NothingRecorded(db: Db, v: View)
    requires !Complete(db.job.artifacts)
    ensures Visit(db, v) == db
  {
    CompleteMeans(db.job.artifacts);
  }

  /** A job that is still open: its fund transaction decides, if it is one. */
  lemma FundingAnswers(db: Db, v: View)
    requires Complete(db.job.artifacts) && db.job.contractState == Open
    ensures var tx, r, db' := NormalizeHash(db.job.artifacts.fundTx), v.receipt, Visit(db, v);
      && (tx.None? ==> db' == db)
      && (tx.Some? && r.NotFound? ==> Waits(db, db', v.retryAt, 1))
      && (tx.Some? && r.Found? && !r.success ==> Invalidates(db, db', FundStage))
      && (tx.Some? && r.Found? && r.success && r.confirmations < v.minConfirmations ==> Waits(db, db', v.retryAt, 0))
      && (tx.Some? && r.Found? && r.success && v.minConfirmations <= r.confirmations ==>
            Reaches(db, db', Funded, Open, tx.value, r.block, r.confirmations))
  {
    CompleteMeans(db.job.artifacts);
  }

  /** What is usable as a transaction hash: 0x and 64 hex digits, up to outer white space and the case of letters. */
  lemma HashForms(x: Option<string>, h: Hash)
    ensures NormalizeHash(x) == Some(h)
       <==> x.Some? && LowerAscii(Trim(x.value)) == h && |h| == 66 && h[..2] == "0x"
            && forall k :: 2 <= k < 66 ==> h[k] in "0123456789abcdef"
  {
    if |h| == 66 {
      assert h[..2] == "0x" <==> h[0] == '0' && h[1] == 'x';
      assert forall k :: 2 <= k < 66 ==>
          (h[k] in "0123456789abcdef" <==> '0' <= h[k] <= '9' || 'a' <= h[k] <= 'f');
    }
  }

  /** How deep an event in block `block` is buried when the chain is seen up to block `head`. */
  function Depth(head: nat, block: nat): int {
    Max(0, head + 1 - block)
  }

  /** A job recorded past open: the contract's status and the newest event of the log decide. */
  lemma LifecycleAnswers(db: Db, v: View)
    requires Complete(db.job.artifacts) && db.job.contractState != Open
    ensures var db' := Visit(db, v);
      var found := v.latest.Some? && v.latest.value.state == v.status;
      && (v.status == Funded ==> db' == db)
      && (v.status == Open || (v.status != Funded && !found) ==> Reviewed(db, db'))
      && (v.status !in {Open, Funded} && found ==>
            var e := v.latest.value;
            if Depth(v.head, e.block) < v.minConfirmations then Waits(db, db', v.retryAt, 0)
            else Reaches(db, db', v.status, db.job.contractState, e.tx, e.block, Depth(v.head, e.block)))
  {
    CompleteMeans(db.job.artifacts);
  }

  /** A visit that misses nothing: it sees the whole chain as it is, and the chain does not move meanwhile. */
  function FullVisit(s: Sys, now: int, receipt: Receipt, retryAt: int): Event {
    OperatorVisit([], s.head, now, Sight(receipt, |s.chain|, |s.chain|, s.head, retryAt))
  }

  lemma WholeChain(s: Sys)
    requires Inv(s) && s.chain != []
    ensures var last := s.chain[|s.chain| - 1];
      last.state != Funded ==> LatestVisible(s.chain, s.head) == Some(last) && last.state != Open
  {
  }

  /**
   In every reachable state, a visit that misses nothing brings a job that is recorded past open up to date: the last
   event of the chain is recorded if it is buried deep enough, waited for if not, and never sent to manual review.
   */
  lemma FullVisitCatchesUp(hasWebhook: bool, head: nat, minConfirmations: nat, events: seq<Event>, now: int,
                           receipt: Receipt, retryAt: int)
    requires var s := Run(Start(hasWebhook, head, minConfirmations), events);
      && Complete(s.db.job.artifacts) && s.db.job.contractState != Open && NeedsWork(s.db.job, now)
      && HonestReceipt(s, receipt)
    ensures var s := Run(Start(hasWebhook, head, minConfirmations), events);
      var s' := Run(Start(hasWebhook, head, minConfirmations), events + [FullVisit(s, now, receipt, retryAt)]);
      && s.chain != [] && s' == s.(db := s'.db)
      && var e := s.chain[|s.chain| - 1];
         if e.state == Funded then s'.db == s.db
         else if Depth(s.head, e.block) < s.minConfirmations then Waits(s.db, s'.db, retryAt, 0)
         else Reaches(s.db, s'.db, e.state, s.db.job.contractState, e.tx, e.block, Depth(s.head, e.block))
  {
    var s0 := Start(hasWebhook, head, minConfirmations);
    var s := Run(s0, events);
    StartInv(hasWebhook, head, minConfirmations);
    RunInv(s0, events);
    RunStep(s0, events, FullVisit(s, now, receipt, retryAt));
    FullVisitOn(s, now, receipt, retryAt);
  }

  lemma FullVisitOn(s: Sys, now: int, receipt: Receipt, retryAt: int)
    requires Inv(s) && Complete(s.db.job.artifacts) && s.db.job.contractState != Open
    requires NeedsWork(s.db.job, now) && HonestReceipt(s, receipt)
    ensures var s' := Next(s, FullVisit(s, now, receipt, retryAt));
      && s.chain != [] && s' == s.(db := s'.db)
      && var e := s.chain[|s.chain| - 1];
         if e.state == Funded then s'.db == s.db
         else if Depth(s.head, e.block) < s.minConfirmations then Waits(s.db, s'.db, retryAt, 0)
         else Reaches(s.db, s'.db, e.state, s.db.job.contractState, e.tx, e.block, Depth(s.head, e.block))
  {
    var i := RecordedWasReached(s);
    WholeChain(s);
    FullSight(s, now, receipt, retryAt);
    LifecycleAnswers(s.db, FullView(s, receipt, retryAt));
  }

  ghost function FullView(s: Sys, receipt: Receipt, retryAt: int): View {
    View(receipt, StateAfter(s.chain), LatestVisible(s.chain, s.head), s.head, s.minConfirmations, retryAt)
  }

  lemma FullSight(s: Sys, now: int, receipt: Receipt, retryAt: int)
    requires Inv(s) && NeedsWork(s.db.job, now) && HonestReceipt(s, receipt)
    ensures Next(s, FullVisit(s, now, receipt, retryAt)) == s.(db := Visit(s.db, FullView(s, receipt, retryAt)))
  {
    var ev := FullVisit(s, now, receipt, retryAt);
    assert s.chain + [] == s.chain;
    assert s.chain[..|s.chain|] == s.chain;
    assert Plausible(s, ev) && Grown(s, ev.during, ev.newHead) == s;
  }

  // ---------- the transition rows ----------

  /** A row about the event it names: same block, at least the required and at most the possible confirmations. */
  ghost predicate RowTrue(s: Sys, id: EventId, t: Transition) {
    && t.to == id.state && LowerAscii(t.tx) == id.tx && Rank(t.from) <= Rank(t.to)
    && s.minConfirmations <= t.confirmations <= Depth(s.head, t.block)
    && exists i :: 0 <= i < |s.chain| && s.chain[i].state == id.state && LowerAscii(s.chain[i].tx) == id.tx
         && s.chain[i].block == t.block
  }

  ghost predicate RowsTrue(s: Sys) {
    forall id :: id in s.db.transitions ==> RowTrue(s, id, s.db.transitions[id])
  }

  lemma RowStays(s: Sys, s': Sys, id: EventId, t: Transition)
    requires s.chain <= s'.chain && s.head <= s'.head && s'.minConfirmations == s.minConfirmations
    requires RowTrue(s, id, t)
    ensures RowTrue(s', id, t)
  {
    var i :| 0 <= i < |s.chain| && s.chain[i].state == id.state && LowerAscii(s.chain[i].tx) == id.tx
      && s.chain[i].block == t.block;
    assert s'.chain[i] == s.chain[i];
  }

  lemma FundedRowTrue(s: Sys, tx: Hash, block: nat, confirmations: nat)
    requires RowsTrue(s) && s.minConfirmations <= confirmations && FundEvidence(s, tx, block, confirmations)
    ensures RowsTrue(s.(db := ReconcileFunded(s.db, tx, block, confirmations)))
  {
    var s' := s.(db := ReconcileFunded(s.db, tx, block, confirmations));
    WritesReach(s.db, Funded, tx, Log(Funded, tx, block, 0), block, confirmations);
    forall id | id in s.db.transitions ensures RowTrue(s', id, s.db.transitions[id]) {
      RowStays(s, s', id, s.db.transitions[id]);
    }
  }

  lemma SeenRowTrue(s: Sys, g: Sight, db': Db)
    requires RowsTrue(s) && g.statusAt <= g.logsAt <= |s.chain| && g.head <= s.head
    requires Complete(s.db.job.artifacts) && s.db.job.contractState != Open && db' == Visit(s.db, ViewOf(s, g))
    requires Rank(s.db.job.contractState) <= Rank(ViewOf(s, g).status)
    ensures RowsTrue(s.(db := db'))
  {
    var v, s' := ViewOf(s, g), s.(db := db');
    LifecycleAnswers(s.db, v);
    forall id | id in s.db.transitions ensures RowTrue(s', id, s.db.transitions[id]) {
      RowStays(s, s', id, s.db.transitions[id]);
    }
    if v.latest.Some? {
      VisibleIsOnChain(s.chain, g.logsAt, g.head);
    }
  }

  lemma GrownRowsTrue(s: Sys, logs: seq<Log>, head: nat)
    requires RowsTrue(s) && CanGrow(s, logs, head)
    ensures RowsTrue(Grown(s, logs, head))
  {
    forall id | id in s.db.transitions ensures RowTrue(Grown(s, logs, head), id, s.db.transitions[id]) {
      RowStays(s, Grown(s, logs, head), id, s.db.transitions[id]);
    }
  }

  lemma VisitRowsTrue(s: Sys, ev: Event)
    requires Inv(s) && RowsTrue(s) && ev.OperatorVisit? && Plausible(s, ev)
    ensures RowsTrue(Next(s, ev))
  {
    var s1 := Grown(s, ev.during, ev.newHead);
    var v := ViewOf(s1, ev.sight);
    GrownRowsTrue(s, ev.during, ev.newHead);
    if !Complete(s.db.job.artifacts) {
      NothingRecorded(s.db, v);
    } else if s.db.job.contractState == Open {
      FundingRowsTrue(s1, v);
    } else {
      SeesAtLeast(s, s1, ev.sight.statusAt);
      SeenRowTrue(s1, ev.sight, Visit(s.db, v));
    }
  }

  lemma FundingRowsTrue(s: Sys, v: View)
    requires RowsTrue(s) && v.minConfirmations == s.minConfirmations && HonestReceipt(s, v.receipt)
    requires Complete(s.db.job.artifacts) && s.db.job.contractState == Open
    ensures RowsTrue(s.(db := Visit(s.db, v)))
  {
    var tx, r, s' := NormalizeHash(s.db.job.artifacts.fundTx), v.receipt, s.(db := Visit(s.db, v));
    CompleteMeans(s.db.job.artifacts);
    if tx.Some? && r.Found? && r.success && v.minConfirmations <= r.confirmations {
      FundedRowTrue(s, tx.value, r.block, r.confirmations);
    } else {
      FundingAnswers(s.db, v);
      forall id | id in s.db.transitions ensures RowTrue(s', id, s.db.transitions[id]) {
        RowStays(s, s', id, s.db.transitions[id]);
      }
    }
  }

  lemma SameRowsTrue(s: Sys, s': Sys)
    requires RowsTrue(s) && s'.db.transitions == s.db.transitions
    requires s.chain == s'.chain && s.head == s'.head && s'.minConfirmations == s.minConfirmations
    ensures RowsTrue(s')
  {
    forall id | id in s.db.transitions ensures RowTrue(s', id, s.db.transitions[id]) {
      RowStays(s, s', id, s.db.transitions[id]);
    }
  }

  lemma NextRowsTrue(s: Sys, ev: Event)
    requires Inv(s) && RowsTrue(s)
    ensures RowsTrue(Next(s, ev))
  {
    match ev
    case Grow(logs, head) =>
      if CanGrow(s, logs, head) {
        GrownRowsTrue(s, logs, head);
      }
    case FundRecovered(tx, block, confirmations) =>
      if Next(s, ev) != s {
        FundedRowTrue(s, tx, block, confirmations);
      }
    case FundReported(tx, block, confirmations) =>
      if Next(s, ev) != s {
        FundedRowTrue(s, tx, block, confirmations);
      }
    case OperatorVisit(_, _, _, _) =>
      if Plausible(s, ev) {
        VisitRowsTrue(s, ev);
      }
    case _ => SameRowsTrue(s, Next(s, ev));
  }

  /**
   After any run, late fund reports included, every transition row tells the truth about an event of the chain: its
   state, transaction and block, with at least the required confirmations, from a state no later than the one reached.
   */
  lemma {:induction false} TransitionsTellTheTruth(hasWebhook: bool, head: nat, minConfirmations: nat,
                                                   events: seq<Event>)
    ensures RowsTrue(Run(Start(hasWebhook, head, minConfirmations), events))
  {
    if events != [] {
      var s0, init := Start(hasWebhook, head, minConfirmations), events[..|events| - 1];
      StartInv(hasWebhook, head, minConfirmations);
      RunInv(s0, init);
      TransitionsTellTheTruth(hasWebhook, head, minConfirmations, init);
      NextRowsTrue(Run(s0, init), events[|events| - 1]);
    }
  }
}
