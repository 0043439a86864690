/**
 What one claimed batch goes through, told from the rollups it was claimed with: claiming, giving up on gas,
 recording the transaction, and how a submit call that threw ends. Other events may happen at any moment.
 */
module SettlementSubmit {
  import opened Common
  import opened SettlementAmounts
  import opened SettlementState
  import opened SettlementSteps
  import opened SettlementLockstep
  import opened SettlementRun
  import opened SettlementProof
  import opened SettlementReconcile
  import Runs
  import SettlementTables
  import Theorems = SettlementTheorems

  /** Rollup r carries transaction t, and so does each of its earnings. */
  ghost predicate Records(db: Db, db': Db, r: RollupId, t: TxId) {
    && r < |db.rollups| == |db'.rollups| && |db.earnings| == |db'.earnings|
    && db'.rollups[r] == db.rollups[r].(tx := Some(t))
    && forall i :: i in Members(db.earnings, r) ==> db'.earnings[i] == db.earnings[i].(tx := Some(t))
  }

  /** Rollup r is submitted with batch b, and so is each of its earnings; no transaction is known yet. */
  ghost predicate Takes(db: Db, db': Db, r: RollupId, b: BatchId) {
    && r < |db.rollups| == |db'.rollups| && |db.earnings| == |db'.earnings|
    && db'.rollups[r] == db.rollups[r].(status := Submitted, batch := Some(b), tx := None)
    && forall i :: i in Members(db.earnings, r) ==>
         db'.earnings[i] == db.earnings[i].(status := Submitted, batch := Some(b), tx := None)
  }

  /** No batch but b is rewritten, and no rollup, nor its earnings, but those listed; free earnings stay free. */
  ghost predicate RestLeft(db: Db, db': Db, b: BatchId, rollups: seq<RollupId>) {
    && |db.rollups| == |db'.rollups| && |db.earnings| == |db'.earnings| && |db.batches| <= |db'.batches|
    && (forall c :: 0 <= c < |db.batches| && c != b ==> db'.batches[c] == db.batches[c])
    && (forall r: RollupId :: r < |db.rollups| && r !in rollups ==> Leaves(db, db', r))
    && (forall i :: 0 <= i < |db.earnings| && db.earnings[i].rollup == None ==> db'.earnings[i] == db.earnings[i])
  }

  // ---------- moving the submitted rollups of one batch ----------

  predicate InBatch(db: Db, b: BatchId, r: RollupId) {
    r < |db.rollups| && db.rollups[r].batch == Some(b) && db.rollups[r].status == Submitted
  }

  /** Rewriting the submitted rollups and earnings of a batch rewrites each such rollup with exactly its earnings. */
  lemma BatchMoves(db: Db, minted: seq<set<EarningId>>, db': Db, b: BatchId, rd: RollupData, ed: EarningData)
    requires Lockstep(db, minted)
    requires db'.rollups == UpdateRollups(db.rollups, RollupsOfBatch(b, Submitted), rd)
    requires db'.earnings == UpdateEarnings(db.earnings, OfBatch(b, Submitted), ed)
    ensures forall r: RollupId :: r < |db.rollups| && !InBatch(db, b, r) ==> Leaves(db, db', r)
    ensures forall r: RollupId :: InBatch(db, b, r) ==>
        && db'.rollups[r] == PatchRollup(rd, db.rollups[r])
        && forall i :: i in Members(db.earnings, r) ==> db'.earnings[i] == PatchEarning(ed, db.earnings[i])
    ensures forall i :: 0 <= i < |db.earnings| && db.earnings[i].rollup == None ==> db'.earnings[i] == db.earnings[i]
  {
    forall i | 0 <= i < |db.earnings|
      ensures EarningMatches(OfBatch(b, Submitted), i, db.earnings[i])
        <==> db.earnings[i].rollup.Some? && InBatch(db, b, db.earnings[i].rollup.value)
    {
      assert EarningOk(db, i);
    }
  }

  lemma RevertEffect(db: Db, minted: seq<set<EarningId>>, b: BatchId, rollups: seq<RollupId>)
    requires Lockstep(db, minted) && b < |db.batches|
    requires forall r: RollupId :: InBatch(db, b, r) ==> r in rollups
    ensures var db' := RevertBatch(db, b);
      && RestLeft(db, db', b, rollups)
      && (forall r: RollupId :: InBatch(db, b, r) ==> Frees(db, db', r))
      && (forall r: RollupId :: r < |db.rollups| && !InBatch(db, b, r) ==> Leaves(db, db', r))
      && |db'.batches| == |db.batches| && db'.batches[b] == db.batches[b].(status := BatchFailed)
  {
    BatchMoves(db, minted, RevertBatch(db, b), b, FailRollup, Requeue);
  }

  lemma ConfirmEffect(db: Db, minted: seq<set<EarningId>>, b: BatchId, rollups: seq<RollupId>)
    requires Lockstep(db, minted) && b < |db.batches|
    requires forall r: RollupId :: InBatch(db, b, r) ==> r in rollups
    ensures var db' := MarkBatchConfirmed(db, b);
      && RestLeft(db, db', b, rollups)
      && (forall r: RollupId :: InBatch(db, b, r) ==> Confirms(db, db', r))
      && (forall r: RollupId :: r < |db.rollups| && !InBatch(db, b, r) ==> Leaves(db, db', r))
      && |db'.batches| == |db.batches| && db'.batches[b] == db.batches[b].(status := BatchConfirmed)
  {
    BatchMoves(db, minted, MarkBatchConfirmed(db, b), b, ConfirmRollup, Confirm);
  }

  lemma RecordEffect(db: Db, minted: seq<set<EarningId>>, b: BatchId, t: TxId, rollups: seq<RollupId>)
    requires Lockstep(db, minted) && b < |db.batches|
    requires forall r: RollupId :: InBatch(db, b, r) ==> r in rollups
    ensures var db' := RecordSubmission(db, b, t);
      && RestLeft(db, db', b, rollups)
      && (forall r: RollupId :: InBatch(db, b, r) ==> Records(db, db', r, t))
      && (forall r: RollupId :: r < |db.rollups| && !InBatch(db, b, r) ==> Leaves(db, db', r))
      && |db'.batches| == |db.batches| && db'.batches[b] == Batch(BatchSubmitted, Some(t))
  {
    BatchMoves(db, minted, RecordSubmission(db, b, t), b, SetRollupTx(t), SetTx(t));
  }

  // ---------- the rollups a batch was claimed with ----------

  /** A rollup in the batch was claimed for it; one that was claimed for it is in it, or has met its fate. */
  lemma ClaimedRollups(s: Sys, b: BatchId)
    requires Inv(s) && StageIs(s, b)
    ensures forall r: RollupId :: InBatch(s.db, b, r) ==> r in s.claims[b]
    ensures forall r :: r in s.claims[b] ==>
        && r < |s.db.rollups|
        && (InBatch(s.db, b, r)
            || (s.db.rollups[r].status == Confirmed && HasLanded(s, b))
            || (s.db.rollups[r].status == Failed && IsDead(s, b)))
  {
    forall r: RollupId | InBatch(s.db, b, r) ensures r in s.claims[b] {
      assert LinkOk(s, r);
    }
    forall r | r in s.claims[b]
      ensures r < |s.db.rollups|
      ensures InBatch(s.db, b, r)
           || (s.db.rollups[r].status == Confirmed && HasLanded(s, b))
           || (s.db.rollups[r].status == Failed && IsDead(s, b))
    {
      ClaimedRollup(s, b, r);
    }
  }

  lemma ClaimedRollup(s: Sys, b: BatchId, r: RollupId)
    requires Inv(s) && StageIs(s, b) && r in s.claims[b]
    ensures r < |s.db.rollups|
    ensures InBatch(s.db, b, r)
         || (s.db.rollups[r].status == Confirmed && HasLanded(s, b))
         || (s.db.rollups[r].status == Failed && IsDead(s, b))
  {
    assert ClaimedBy(s, r, b);
    assert LinkOk(s, r) && RollupOk(s.db, s.minted, r);
    var x := s.db.rollups[r];
    if x.batch.Some? {
      OneClaim(s, r, b, x.batch.value);
    }
    if x.status == Confirmed {
      var c: BatchId :| ClaimedBy(s, r, c) && HasLanded(s, c);
      OneClaim(s, r, b, c);
    }
    if x.status == Failed {
      var c: BatchId :| ClaimedBy(s, r, c) && IsDead(s, c);
      OneClaim(s, r, b, c);
    }
  }

  /** A landed batch is not dead. */
  lemma LandedNotDead(s: Sys, b: BatchId)
    requires b < |s.stage| && HasLanded(s, b)
    ensures !IsDead(s, b)
  {
  }

  // ---------- over runs ----------

  /**
   Claiming, where it is not refused: exactly the selected rollups, each with exactly its earnings, are submitted with
   the new batch, which is open and has no transaction.
   */
  lemma ClaimTakes(events: seq<Event>, selection: seq<RollupId>)
    requires selection != [] && Distinct(selection)
    requires forall r :: r in selection ==>
        r < |Exec(INIT, events).db.rollups| && Exec(INIT, events).db.rollups[r].status == Pending
    ensures var s, s' := Exec(INIT, events), Exec(INIT, events + [Claim(selection)]);
      var b := |s.db.batches|;
      && s'.db.batches == s.db.batches + [Batch(BatchOpen, None)]
      && (forall r :: r in selection ==> Takes(s.db, s'.db, r, b))
      && RestLeft(s.db, s'.db, b, selection)
      && s'.claims == s.claims + [selection] && s'.stage == s.stage + [Claimed]
  {
    var s := Exec(INIT, events);
    SettlementTables.TablesAlways(events);
    NoLegacyRows(s.db, s.minted);
    Runs.FoldAppend(Next, INIT, events, Claim(selection));
    ClaimEffect(s.db, s.minted, selection);
  }

  lemma ClaimEffect(db: Db, minted: seq<set<EarningId>>, selection: seq<RollupId>)
    requires Lockstep(db, minted) && Distinct(selection)
    requires forall r :: r in selection ==> r < |db.rollups| && db.rollups[r].status == Pending
    ensures ClaimBatch(db, selection).Committed?
    ensures var db', b := ClaimBatch(db, selection).db, |db.batches|;
      && db'.batches == db.batches + [Batch(BatchOpen, None)]
      && (forall r :: r in selection ==> Takes(db, db', r, b))
      && RestLeft(db, db', b, selection)
  {
    ClaimRefusedIff(db, minted, selection);
    forall i | 0 <= i < |db.earnings|
      ensures EarningMatches(OfRollups(SetOf(selection), Pending), i, db.earnings[i])
        <==> db.earnings[i].rollup.Some? && db.earnings[i].rollup.value in selection
    {
      assert EarningOk(db, i);
    }
  }

  /** Giving up because gas is too high: the whole batch fails, and exactly its earnings are free again. */
  lemma GasTooHighFrees(events: seq<Event>, b: BatchId)
    requires SettledRun(INIT, events) && StageIs(Exec(INIT, events), b)
    requires Exec(INIT, events).stage[b] == Claimed
    ensures var s, s' := Exec(INIT, events), Exec(INIT, events + [GasTooHigh(b)]);
      && (forall r :: r in s.claims[b] ==> Frees(s.db, s'.db, r))
      && RestLeft(s.db, s'.db, b, s.claims[b])
      && |s'.db.batches| == |s.db.batches| && s'.db.batches[b] == s.db.batches[b].(status := BatchFailed)
  {
    var s := Exec(INIT, events);
    Theorems.InitInv();
    Theorems.RunKeepsInv(INIT, events);
    Runs.FoldAppend(Next, INIT, events, GasTooHigh(b));
    ClaimedRollups(s, b);
    assert StageOk(s, b);
    RevertEffect(s.db, s.minted, b, s.claims[b]);
  }

  /**
   Recording the transaction of a batch: those of its rollups that are still submitted, each with exactly its
   earnings, get the transaction that was sent for this very claim; one that is not has met its fate and is left alone.
   */
  lemma SubmissionIsRecorded(events: seq<Event>, b: BatchId)
    requires SettledRun(INIT, events) && StageIs(Exec(INIT, events), b)
    requires Exec(INIT, events).stage[b].Broadcast?
    ensures var s, s' := Exec(INIT, events), Exec(INIT, events + [RecordTx(b)]);
      var t := s.stage[b].tx;
      && t < |s.txs| && s.txs[t].batch == b && s.txs[t].ids == s.claims[b]
      && (forall r :: r in s.claims[b] ==>
            && r < |s.db.rollups|
            && if s.db.rollups[r].status == Submitted then Records(s.db, s'.db, r, t) else Leaves(s.db, s'.db, r))
      && RestLeft(s.db, s'.db, b, s.claims[b])
      && |s'.db.batches| == |s.db.batches| && s'.db.batches[b] == Batch(BatchSubmitted, Some(t))
  {
    hide RecordSubmission, RestLeft, Lockstep, LinkOk;
    var s := Exec(INIT, events);
    Theorems.InitInv();
    Theorems.RunKeepsInv(INIT, events);
    Runs.FoldAppend(Next, INIT, events, RecordTx(b));
    ClaimedRollups(s, b);
    assert StageOk(s, b);
    RecordEffect(s.db, s.minted, b, s.stage[b].tx, s.claims[b]);
  }

  // ---------- how a submit call that threw ends ----------

  lemma {:induction false} JudgedStays(s: Sys, events: seq<Event>, b: BatchId)
    requires b < |s.stage| && b < |s.claims| && s.stage[b].Judged?
    requires forall n :: 0 <= n < |events| ==> events[n] != FinishCatch(b)
    ensures var s' := Exec(s, events);
      b < |s'.stage| && b < |s'.claims| && s'.stage[b] == s.stage[b] && s'.claims[b] == s.claims[b]
  {
    if events != [] {
      var init := events[..|events| - 1];
      JudgedStays(s, init, b);
      JudgedStep(Exec(s, init), events[|events| - 1], b);
    }
  }

  lemma JudgedStep(s: Sys, ev: Event, b: BatchId)
    requires b < |s.stage| && b < |s.claims| && s.stage[b].Judged? && ev != FinishCatch(b)
    ensures var s' := Next(s, ev);
      b < |s'.stage| && b < |s'.claims| && s'.stage[b] == s.stage[b] && s'.claims[b] == s.claims[b]
  {
  }

  /** The verdict waits for its branch, whatever happens in between. */
  lemma VerdictWaits(before: seq<Event>, between: seq<Event>, b: BatchId)
    requires StageIs(Exec(INIT, before), b) && Exec(INIT, before).stage[b].Thrown?
    requires forall n :: 0 <= n < |between| ==> between[n] != FinishCatch(b)
    ensures var s, s' := Exec(INIT, before), Exec(INIT, before + [CheckProcessed(b)] + between);
      && b < |s'.stage| && b < |s'.claims| && s'.claims[b] == s.claims[b]
      && s'.stage[b] == Judged(s.claims[b] != [] && SettlementIds(s.claims[b]) <= s.processed)
  {
    Runs.FoldAppend(Next, INIT, before, CheckProcessed(b));
    Runs.FoldJoin(Next, INIT, before + [CheckProcessed(b)], between);
    JudgedStays(Exec(INIT, before + [CheckProcessed(b)]), between, b);
  }

  lemma FinishEffect(s: Sys, b: BatchId)
    requires Inv(s) && StageIs(s, b) && s.stage[b].Judged?
    ensures var s', all := Next(s, FinishCatch(b)), s.stage[b].allProcessed;
      && (forall r :: r in s.claims[b] ==>
            && r < |s.db.rollups|
            && (if s.db.rollups[r].status != Submitted then Leaves(s.db, s'.db, r)
                else if all then Confirms(s.db, s'.db, r)
                else Frees(s.db, s'.db, r))
            && s'.db.rollups[r].status == if all then Confirmed else Failed)
      && RestLeft(s.db, s'.db, b, s.claims[b])
      && |s'.db.batches| == |s.db.batches|
      && s'.db.batches[b] == s.db.batches[b].(status := if all then BatchConfirmed else BatchFailed)
  {
    ClaimedRollups(s, b);
    assert StageOk(s, b);
    if s.stage[b].allProcessed {
      LandedNotDead(s, b);
      ConfirmEffect(s.db, s.minted, b, s.claims[b]);
    } else {
      RevertEffect(s.db, s.minted, b, s.claims[b]);
    }
  }

  /**
   A submit call that threw asks the chain about the ids of its claim and finishes later. If all of them were
   processed when it asked, every rollup of the claim ends confirmed with its earnings, and so does the batch;
   otherwise every one ends failed, with its earnings pending and free, and the batch has failed. A rollup that is no
   longer submitted by then already is what it would become.
   */
  lemma ThrownCallEnds(before: seq<Event>, between: seq<Event>, b: BatchId)
    requires SettledRun(INIT, before + [CheckProcessed(b)] + between)
    requires StageIs(Exec(INIT, before), b) && Exec(INIT, before).stage[b].Thrown?
    requires forall n :: 0 <= n < |between| ==> between[n] != FinishCatch(b)
    ensures var run := before + [CheckProcessed(b)] + between;
      var asked, s, s' := Exec(INIT, before), Exec(INIT, run), Exec(INIT, run + [FinishCatch(b)]);
      var all := forall r :: r in asked.claims[b] ==> RollupSettlement(r) in asked.processed;
      && StageIs(s, b) && s.claims[b] == asked.claims[b] != []
      && (forall r :: r in s.claims[b] ==>
            && r < |s.db.rollups|
            && (if s.db.rollups[r].status != Submitted then Leaves(s.db, s'.db, r)
                else if all then Confirms(s.db, s'.db, r)
                else Frees(s.db, s'.db, r))
            && s'.db.rollups[r].status == if all then Confirmed else Failed)
      && RestLeft(s.db, s'.db, b, s.claims[b])
      && |s'.db.batches| == |s.db.batches|
      && s'.db.batches[b] == s.db.batches[b].(status := if all then BatchConfirmed else BatchFailed)
  {
    var run := before + [CheckProcessed(b)] + between;
    VerdictWaits(before, between, b);
    Theorems.InitInv();
    Theorems.RunKeepsInv(INIT, run);
    Runs.FoldAppend(Next, INIT, run, FinishCatch(b));
    FinishEffect(Exec(INIT, run), b);
    AllProcessedMeans(Exec(INIT, before), b);
  }

  lemma AllProcessedMeans(s: Sys, b: BatchId)
    requires StageIs(s, b)
    ensures SettlementIds(s.claims[b]) <= s.processed
       <==> forall r :: r in s.claims[b] ==> RollupSettlement(r) in s.processed
  {
    forall r | r in s.claims[b] ensures RollupSettlement(r) in SettlementIds(s.claims[b]) {}
  }
}
