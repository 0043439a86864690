/** Every event keeps the invariant of the settlement pipeline. */
module SettlementProof {
  import opened Common
  import opened SettlementAmounts
  import opened SettlementState
  import opened SettlementSteps
  import opened SettlementLockstep
  import opened SettlementRun
  import Selection = RollupSelection

  // ---------- what the chain can no longer undo ----------

  /** Claims and transactions are only added; a settled transaction stays settled. */
  ghost predicate ChainGrows(s: Sys, s': Sys) {
    && |s.claims| == |s.stage| <= |s'.stage| == |s'.claims|
    && s'.claims[..|s.claims|] == s.claims
    && (forall b :: 0 <= b < |s.stage| && s.stage[b] != Claimed ==> s'.stage[b] != Claimed)
    && |s.txs| <= |s'.txs|
    && (forall t :: 0 <= t < |s.txs| ==>
          && s'.txs[t].batch == s.txs[t].batch && s'.txs[t].ids == s.txs[t].ids
          && (s.txs[t].status != InFlight ==> s'.txs[t].status == s.txs[t].status)
          && (s.txs[t].status == InFlight && t in s.gaveUp ==> s'.txs[t].status != Landed))
    && s.gaveUp <= s'.gaveUp
    && (forall t :: |s.txs| <= t < |s'.txs| && s'.txs[t].batch < |s.stage| ==> s.stage[s'.txs[t].batch] == Claimed)
  }

  lemma LandedStays(s: Sys, s': Sys, b: BatchId)
    requires ChainGrows(s, s')
    ensures HasLanded(s, b) ==> HasLanded(s', b)
    ensures b < |s.stage| && IsDead(s, b) ==> IsDead(s', b)
  {
    if HasLanded(s, b) {
      var t :| 0 <= t < |s.txs| && s.txs[t].batch == b && s.txs[t].status == Landed;
      assert s'.txs[t].status == Landed;
    }
  }

  /** Paid and dead are both for ever. */
  lemma FateStays(s: Sys, s': Sys, r: RollupId)
    requires ChainGrows(s, s')
    ensures Paid(s, r) ==> Paid(s', r)
    ensures Dead(s, r) ==> Dead(s', r)
  {
    if Paid(s, r) {
      var b: BatchId :| ClaimedBy(s, r, b) && HasLanded(s, b);
      LandedStays(s, s', b);
      assert s'.claims[b] == s.claims[b];
      assert ClaimedBy(s', r, b);
    }
    if Dead(s, r) {
      var b: BatchId :| ClaimedBy(s, r, b) && IsDead(s, b);
      LandedStays(s, s', b);
      assert s'.claims[b] == s.claims[b];
      assert ClaimedBy(s', r, b);
    }
  }

  lemma OneClaim(s: Sys, r: RollupId, b: BatchId, c: BatchId)
    requires ChainOk(s) && ClaimedBy(s, r, b) && ClaimedBy(s, r, c)
    ensures b == c
  {
  }

  /** The two fates exclude each other. */
  lemma NotPaidAndDead(s: Sys, r: RollupId)
    requires ChainOk(s) && Dead(s, r)
    ensures !Paid(s, r)
  {
    var b: BatchId :| ClaimedBy(s, r, b) && IsDead(s, b);
    assert forall c: BatchId :: ClaimedBy(s, r, c) ==> c == b;
  }

  lemma PlansStay(s: Sys, s': Sys)
    requires ChainGrows(s, s') && s'.plans == s.plans
    requires |s.db.rollups| <= |s'.db.rollups|
    requires forall r :: 0 <= r < |s.db.rollups| ==> s'.db.rollups[r].count == s.db.rollups[r].count
    requires forall p :: 0 <= p < |s.plans| ==> PlanOk(s, s.plans[p])
    ensures forall p :: 0 <= p < |s'.plans| ==> PlanOk(s', s'.plans[p])
  {
    forall p | 0 <= p < |s.plans| ensures PlanOk(s', s'.plans[p]) {
      assert PlanOk(s, s.plans[p]);
      forall k | 0 <= k < |s.plans[p].rollups| ensures PlanRowOk(s', s.plans[p].rollups[k]) {
        assert PlanRowOk(s, s.plans[p].rollups[k]);
        FateStays(s, s', s.plans[p].rollups[k].id);
      }
    }
  }

  // ---------- tables changed, chain untouched ----------

  /** One bulk update of a group of rollups, allowed by what the chain says about each of them. */
  ghost predicate Allowed(s: Sys, r: RollupId, rd: RollupData)
    requires r < |s.db.rollups|
  {
    match rd
    case ClaimRollup(b) => ClaimedBy(s, r, b)
    case SetRollupTx(t) => t < |s.txs| && r in s.txs[t].ids
    case ConfirmRollup => Paid(s, r)
    case FailRollup => Dead(s, r)
  }

  lemma MoveKeepsLinks(s: Sys, s': Sys, w: RollupWhere, we: EarningWhere, rd: RollupData, ed: EarningData)
    requires Inv(s) && MovesGroup(s.db, s'.db, w, we, rd, ed)
    requires s' == s.(db := s'.db) && !rd.ClaimRollup?
    requires forall r :: r in RollupHits(s.db.rollups, w) ==> Allowed(s, r, rd)
    ensures forall r :: 0 <= r < |s'.db.rollups| ==> LinkOk(s', r)
  {
    forall r | 0 <= r < |s'.db.rollups| ensures LinkOk(s', r) {
      assert LinkOk(s, r) && RollupOk(s.db, s.minted, r);
      assert RollupMatches(w, r, s.db.rollups[r]) <==> r in RollupHits(s.db.rollups, w);
      assert forall b: BatchId :: ClaimedBy(s', r, b) == ClaimedBy(s, r, b);
    }
  }

  lemma {:induction false} SumRollupsFrame(rs: seq<Rollup>, rs': seq<Rollup>, p: set<RollupId>, q: set<RollupId>)
    requires |rs| <= |rs'|
    requires forall r :: 0 <= r < |rs| ==> rs'[r].amounts == rs[r].amounts && (r in p <==> r in q)
    requires forall r :: |rs| <= r < |rs'| ==> r !in q
    ensures SumRollups(rs', q) == SumRollups(rs, p)
  {
    if |rs'| > |rs| {
      SumRollupsFrame(rs, rs'[..|rs'| - 1], p, q);
    } else if rs' != [] {
      SumRollupsFrame(rs[..|rs| - 1], rs'[..|rs'| - 1], p, q);
    }
  }

  /** Only rollup status, batch and transaction differ; then the paid total still matches. */
  lemma PayoutFrame(s: Sys, s': Sys)
    requires Inv(s) && s'.processed == s.processed && s'.paidOut == s.paidOut
    requires |s.db.rollups| <= |s'.db.rollups|
    requires forall r :: 0 <= r < |s.db.rollups| ==> s'.db.rollups[r].amounts == s.db.rollups[r].amounts
    ensures s'.paidOut == SumRollups(s'.db.rollups, ProcessedRollups(s'))
  {
    assert forall r :: |s.db.rollups| <= r < |s'.db.rollups| ==> RollupSettlement(r) !in s.processed;
    SumRollupsFrame(s.db.rollups, s'.db.rollups, ProcessedRollups(s), ProcessedRollups(s'));
  }

  lemma SubmittedMoveKeepsBatches(db: Db, db': Db, w: RollupWhere, we: EarningWhere, rd: RollupData, ed: EarningData)
    requires BatchesOk(db) && MovesGroup(db, db', w, we, rd, ed) && !rd.ClaimRollup?
    requires db'.batches == db.batches
    ensures BatchesOk(db')
  {
    forall b, r | 0 <= b < |db'.batches| && 0 <= r < |db'.rollups|
        && db'.batches[b].status == BatchConfirmed && db'.rollups[r].batch == Some(b)
      ensures db'.rollups[r].status == Confirmed
    {
      assert RollupMatches(w, r, db.rollups[r]) <==> r in RollupHits(db.rollups, w);
    }
  }

  /** A group move that the chain allows keeps the whole invariant. */
  lemma MoveKeepsInv(s: Sys, s': Sys, w: RollupWhere, we: EarningWhere, rd: RollupData, ed: EarningData)
    requires Inv(s) && MovesGroup(s.db, s'.db, w, we, rd, ed)
    requires s' == s.(db := s'.db) && !rd.ClaimRollup? && s'.db.batches == s.db.batches
    requires forall r :: r in RollupHits(s.db.rollups, w) ==> Allowed(s, r, rd)
    ensures Inv(s')
  {
    MoveKeepsLockstep(s.db, s'.db, w, we, rd, ed, s.minted);
    MoveKeepsLinks(s, s', w, we, rd, ed);
    PayoutFrame(s, s');
    SubmittedMoveKeepsBatches(s.db, s'.db, w, we, rd, ed);
    PlansStay(s, s');
    ChainSame(s, s');
  }

  lemma ChainSame(s: Sys, s': Sys)
    requires s'.claims == s.claims && s'.stage == s.stage && s'.txs == s.txs && s'.processed == s.processed
    requires s'.gaveUp == s.gaveUp
    ensures ChainOk(s) ==> ChainOk(s')
    ensures ProcessedOk(s) ==> ProcessedOk(s')
    ensures forall b: BatchId, r: RollupId :: ClaimedBy(s', r, b) == ClaimedBy(s, r, b)
    ensures forall b: BatchId :: HasLanded(s', b) == HasLanded(s, b)
  {
    assert forall b: BatchId :: HasLanded(s', b) == HasLanded(s, b);
    assert forall b: BatchId, r: RollupId :: ClaimedBy(s', r, b) == ClaimedBy(s, r, b);
    assert forall r: RollupId :: Paid(s', r) == Paid(s, r);
    if ChainOk(s) {
      forall b | 0 <= b < |s'.stage| ensures StageOk(s', b) {
        assert StageOk(s, b);
      }
    }
  }

  /** Which status a batch row may be given. */
  lemma SetBatchInv(s: Sys, batches: seq<Batch>)
    requires Inv(s) && |batches| == |s.db.batches|
    requires BatchesOk(s.db.(batches := batches))
    requires forall b :: 0 <= b < |batches| && batches[b].status == BatchConfirmed ==> HasLanded(s, b)
    ensures Inv(s.(db := s.db.(batches := batches)))
  {
    var s' := s.(db := s.db.(batches := batches));
    SetBatchKeeps(s.db, s.minted, batches);
    ChainSame(s, s');
    PlansStay(s, s');
    PayoutFrame(s, s');
    forall r | 0 <= r < |s'.db.rollups| ensures LinkOk(s', r) {
      assert LinkOk(s, r);
      assert forall b: BatchId :: ClaimedBy(s', r, b) == ClaimedBy(s, r, b);
    }
  }

  /** Rollups of a batch that are still submitted were claimed for it. */
  lemma BatchRollups(s: Sys, b: BatchId, r: RollupId)
    requires Inv(s) && r in RollupHits(s.db.rollups, RollupsOfBatch(b, Submitted))
    ensures ClaimedBy(s, r, b)
  {
    assert LinkOk(s, r);
  }

  lemma RevertInv(s: Sys, b: BatchId)
    requires Inv(s) && b < |s.db.batches| && IsDead(s, b)
    ensures Inv(s.(db := RevertBatch(s.db, b)))
  {
    var w, we := RollupsOfBatch(b, Submitted), OfBatch(b, Submitted);
    FiltersAgree(s.db, s.minted, {}, b, Submitted);
    var mid := s.(db := s.db.(rollups := UpdateRollups(s.db.rollups, w, FailRollup),
                              earnings := UpdateEarnings(s.db.earnings, we, Requeue)));
    forall r | r in RollupHits(s.db.rollups, w) ensures Allowed(s, r, FailRollup) {
      BatchRollups(s, b, r);
    }
    MoveKeepsInv(s, mid, w, we, FailRollup, Requeue);
    SetBatchInv(mid, RevertBatch(s.db, b).batches);
  }

  lemma MarkConfirmedInv(s: Sys, b: BatchId)
    requires Inv(s) && b < |s.db.batches| && HasLanded(s, b)
    ensures Inv(s.(db := MarkBatchConfirmed(s.db, b)))
  {
    var w, we := RollupsOfBatch(b, Submitted), OfBatch(b, Submitted);
    FiltersAgree(s.db, s.minted, {}, b, Submitted);
    var mid := s.(db := s.db.(rollups := UpdateRollups(s.db.rollups, w, ConfirmRollup),
                              earnings := UpdateEarnings(s.db.earnings, we, Confirm)));
    forall r | r in RollupHits(s.db.rollups, w) ensures Allowed(s, r, ConfirmRollup) {
      BatchRollups(s, b, r);
    }
    MoveKeepsInv(s, mid, w, we, ConfirmRollup, Confirm);
    forall r | 0 <= r < |mid.db.rollups| && mid.db.rollups[r].batch == Some(b)
      ensures mid.db.rollups[r].status == Confirmed
    {
      assert RollupOk(s.db, s.minted, r) && RollupOk(mid.db, mid.minted, r);
    }
    SetBatchInv(mid, MarkBatchConfirmed(s.db, b).batches);
  }

  lemma RecordInv(s: Sys, b: BatchId, t: TxId)
    requires Inv(s) && b < |s.db.batches| && t < |s.txs| && s.txs[t].batch == b
    ensures Inv(s.(db := RecordSubmission(s.db, b, t)))
  {
    var w, we := RollupsOfBatch(b, Submitted), OfBatch(b, Submitted);
    FiltersAgree(s.db, s.minted, {}, b, Submitted);
    var mid := s.(db := s.db.(rollups := UpdateRollups(s.db.rollups, w, SetRollupTx(t)),
                              earnings := UpdateEarnings(s.db.earnings, we, SetTx(t))));
    forall r | r in RollupHits(s.db.rollups, w) ensures Allowed(s, r, SetRollupTx(t)) {
      BatchRollups(s, b, r);
    }
    MoveKeepsInv(s, mid, w, we, SetRollupTx(t), SetTx(t));
    SetBatchInv(mid, RecordSubmission(s.db, b, t).batches);
  }

  // ---------- reconcile ----------

  lemma {:induction false} IdsWithFacts(rows: seq<PlanRow>, o: ReconcileOutcome)
    ensures forall id :: id in IdsWith(rows, o) <==>
        exists k :: 0 <= k < |rows| && rows[k].id == id && rows[k].outcome == o
  {
    if rows != [] {
      var init := rows[..|rows| - 1];
      IdsWithFacts(init, o);
      forall id
        ensures id in IdsWith(rows, o) <==>
          exists k :: 0 <= k < |rows| && rows[k].id == id && rows[k].outcome == o
      {
        if k :| 0 <= k < |rows| && rows[k].id == id && rows[k].outcome == o {
          if k < |init| {
            assert init[k].id == id && init[k].outcome == o;
          }
        }
        if id in IdsWith(init, o) {
          var k :| 0 <= k < |init| && init[k].id == id && init[k].outcome == o;
          assert rows[k].id == id && rows[k].outcome == o;
        }
      }
    }
  }

  lemma MoveRollupsInv(s: Sys, ids: seq<RollupId>, n: nat, rd: RollupData, ed: EarningData)
    requires Inv(s) && Matched(rd, ed) && rd in {ConfirmRollup, FailRollup}
    requires forall r :: r in ids ==> r < |s.db.rollups| && Allowed(s, r, rd)
    ensures MoveRollups(s.db, ids, n, rd, ed).Committed? ==>
      var db' := MoveRollups(s.db, ids, n, rd, ed).db;
      && Inv(s.(db := db'))
      && |db'.rollups| == |s.db.rollups| && |db'.batches| == |s.db.batches|
  {
    if ids != [] && MoveRollups(s.db, ids, n, rd, ed).Committed? {
      var w, we := RollupIds(SetOf(ids), Submitted), OfRollups(SetOf(ids), Submitted);
      FiltersAgree(s.db, s.minted, SetOf(ids), 0, Submitted);
      MoveKeepsInv(s, s.(db := MoveRollups(s.db, ids, n, rd, ed).db), w, we, rd, ed);
    }
  }

  lemma {:induction false} RollupStatusesFacts(rs: seq<Rollup>, b: BatchId)
    ensures forall r :: 0 <= r < |rs| && rs[r].batch == Some(b) ==> rs[r].status in RollupStatuses(rs, b)
    ensures forall st :: st in RollupStatuses(rs, b) ==>
        exists r :: 0 <= r < |rs| && rs[r].batch == Some(b) && rs[r].status == st
  {
    if rs != [] {
      RollupStatusesFacts(rs[..|rs| - 1], b);
      forall r | 0 <= r < |rs| && rs[r].batch == Some(b) ensures rs[r].status in RollupStatuses(rs, b) {
        if r < |rs| - 1 {
          assert rs[..|rs| - 1][r].status in RollupStatuses(rs[..|rs| - 1], b);
        }
      }
    }
  }

  /** The derived status is "confirmed" only when every attached rollup is. */
  lemma DerivedConfirmed(db: Db, b: BatchId, requeued: nat, r: RollupId)
    requires NextBatchStatus(db, b, requeued) == Some(BatchConfirmed)
    requires r < |db.rollups| && db.rollups[r].batch == Some(b)
    ensures db.rollups[r].status == Confirmed
  {
    RollupStatusesFacts(db.rollups, b);
    var rows := LegacyStatuses(db.earnings, b) + RollupStatuses(db.rollups, b) + seq(requeued, _ => Failed);
    assert db.rollups[r].status in rows;
  }

  lemma {:induction false} NoLegacyStatuses(es: seq<Earning>, b: BatchId)
    requires forall i :: 0 <= i < |es| ==> es[i].rollup == None ==> es[i].batch == None
    ensures LegacyStatuses(es, b) == []
  {
    if es != [] {
      NoLegacyStatuses(es[..|es| - 1], b);
    }
  }

  /** And then the batch has landed, since it needs at least one confirmed rollup. */
  lemma DerivedLanded(s: Sys, b: BatchId, requeued: nat)
    requires Inv(s) && NextBatchStatus(s.db, b, requeued) == Some(BatchConfirmed)
    ensures HasLanded(s, b)
  {
    forall i | 0 <= i < |s.db.earnings| ensures s.db.earnings[i].rollup == None ==> s.db.earnings[i].batch == None {
      assert EarningOk(s.db, i);
    }
    NoLegacyStatuses(s.db.earnings, b);
    RollupStatusesFacts(s.db.rollups, b);
    var own := RollupStatuses(s.db.rollups, b);
    var rows := LegacyStatuses(s.db.earnings, b) + own + seq(requeued, _ => Failed);
    assert |rows| == |own| + requeued && forall k :: |own| <= k < |rows| ==> rows[k] == Failed;
    assert rows[0] == Confirmed;
    assert rows[0] == own[0] && own[0] in own;
    var r :| 0 <= r < |s.db.rollups| && s.db.rollups[r].batch == Some(b) && s.db.rollups[r].status == own[0];
    assert LinkOk(s, r);
    var c: BatchId :| ClaimedBy(s, r, c) && HasLanded(s, c);
    OneClaim(s, r, b, c);
  }

  /** Deriving the batch statuses after the rows have moved. */
  lemma UpdateBatchesInv(s: Sys, rows: seq<PlanRow>)
    requires Inv(s)
    ensures Inv(s.(db := s.db.(batches := UpdateBatches(s.db, rows))))
  {
    var batches := UpdateBatches(s.db, rows);
    forall b, r | 0 <= b < |batches| && 0 <= r < |s.db.rollups| && batches[b].status == BatchConfirmed
        && s.db.rollups[r].batch == Some(b)
      ensures s.db.rollups[r].status == Confirmed
    {
      if NextBatchStatus(s.db, b, RequeuedIn(rows, b)) == Some(BatchConfirmed) {
        DerivedConfirmed(s.db, b, RequeuedIn(rows, b), r);
      }
    }
    forall b | 0 <= b < |batches| && batches[b].status == BatchConfirmed ensures HasLanded(s, b) {
      if s.db.batches[b].status != BatchConfirmed {
        DerivedLanded(s, b, RequeuedIn(rows, b));
      }
    }
    SetBatchInv(s, batches);
  }

  lemma MovePlanInv(s: Sys, plan: Plan) returns (o: Outcome)
    requires Inv(s) && PlanOk(s, plan)
    ensures o.Committed? ==> Inv(s.(db := o.db))
    ensures CommitPlan(s.db, plan) == if o.RolledBack? then o
        else Committed(o.db.(batches := UpdateBatches(o.db, plan.rollups + plan.legacy)))
  {
    var confirm, requeue := IdsWith(plan.rollups, ToConfirm), IdsWith(plan.rollups, ToRequeue);
    var n, m := CountsWith(plan.rollups, ToConfirm), CountsWith(plan.rollups, ToRequeue);
    IdsWithFacts(plan.rollups, ToConfirm);
    IdsWithFacts(plan.rollups, ToRequeue);
    assert forall k :: 0 <= k < |plan.rollups| ==> PlanRowOk(s, plan.rollups[k]);
    MoveRollupsInv(s, confirm, n, ConfirmRollup, Confirm);
    o := MoveRollups(s.db, confirm, n, ConfirmRollup, Confirm);
    if o.Committed? {
      var s1 := s.(db := o.db);
      assert ChainGrows(s, s1);
      forall r | r in requeue ensures r < |s1.db.rollups| && Allowed(s1, r, FailRollup) {
        FateStays(s, s1, r);
      }
      MoveRollupsInv(s1, requeue, m, FailRollup, Requeue);
      o := MoveRollups(o.db, requeue, m, FailRollup, Requeue);
    }
  }

  lemma WriteReconcileInv(s: Sys, plan: Plan)
    requires Inv(s) && PlanOk(s, plan)
    ensures CommitPlan(s.db, plan).Committed? ==> Inv(s.(db := CommitPlan(s.db, plan).db))
  {
    var o := MovePlanInv(s, plan);
    if o.Committed? {
      UpdateBatchesInv(s.(db := o.db), plan.rollups + plan.legacy);
    }
  }

  // ---------- rows added ----------

  lemma NewEarningInv(s: Sys, e: Earning)
    requires Inv(s)
    requires e.amounts.fee + e.amounts.net == e.amounts.gross
    requires e.status == Pending && e.rollup == None && e.batch == None && e.tx == None
    ensures Inv(s.(db := s.db.(earnings := s.db.earnings + [e])))
  {
    NewEarningKeeps(s.db, s.minted, e);
    RollupsKept(s, s.(db := s.db.(earnings := s.db.earnings + [e])));
  }

  /** Tables that gain rows but keep their rollups, batches and the chain. */
  lemma RollupsKept(s: Sys, s': Sys)
    requires Inv(s) && Lockstep(s'.db, s'.minted)
    requires s'.claims == s.claims && s'.stage == s.stage && s'.txs == s.txs && s'.plans == s.plans
    requires s'.gaveUp == s.gaveUp && s'.processed == s.processed && s'.paidOut == s.paidOut
        && s'.db.batches == s.db.batches
    requires |s.db.rollups| <= |s'.db.rollups| && s'.db.rollups[..|s.db.rollups|] == s.db.rollups
    requires forall r :: |s.db.rollups| <= r < |s'.db.rollups| ==>
        s'.db.rollups[r].status == Pending && s'.db.rollups[r].batch == None && s'.db.rollups[r].tx == None
    ensures Inv(s')
  {
    ChainSame(s, s');
    PlansStay(s, s');
    PayoutFrame(s, s');
    forall r | 0 <= r < |s'.db.rollups| ensures LinkOk(s', r) {
      if r < |s.db.rollups| {
        assert LinkOk(s, r);
        FateStays(s, s', r);
      }
    }
  }

  lemma RollUpInv(s: Sys, ids: seq<EarningId>, cfg: Selection.Config, maxRollups: int, now: int)
    requires Inv(s)
    ensures Inv(Next(s, RollUp(ids, cfg, maxRollups, now)))
  {
    if InRange(ids, |s.db.earnings|) && CreateRollups(s.db, ids, cfg, maxRollups, now).Committed? {
      var s' := Next(s, RollUp(ids, cfg, maxRollups, now));
      SelectedDescribe(s.db, ids, cfg, maxRollups, now);
      AttachAllKeeps(s.db, s.minted, Selected(s.db, ids, cfg, maxRollups, now));
      RollupsKept(s, s');
    }
  }

  // ---------- claiming ----------

  lemma ClaimChain(s: Sys, selection: seq<RollupId>, s': Sys)
    requires Inv(s) && s' == Next(s, Claim(selection)) && s' != s
    ensures ChainOk(s') && ChainGrows(s, s')
    ensures forall r: RollupId, b: BatchId :: ClaimedBy(s', r, b) <==>
        if b == |s.claims| then r in selection else ClaimedBy(s, r, b)
    ensures forall b :: 0 <= b < |s.claims| ==> HasLanded(s', b) == HasLanded(s, b)
    ensures !HasLanded(s', |s.claims|)
    ensures forall r :: r in selection ==> r < |s.db.rollups| && s.db.rollups[r].status == Pending
  {
    CountGuardMeans(s.db.rollups, selection, Pending);
    forall b, r | 0 <= b < |s.claims| && r in s.claims[b] ensures r !in selection {
      assert ClaimedBy(s, r, b);
      assert LinkOk(s, r);
    }
    forall b | 0 <= b < |s'.stage| ensures StageOk(s', b) {
      if b < |s.stage| {
        assert StageOk(s, b);
      }
    }
  }

  /** A claim pays nothing. */
  lemma ClaimFates(s: Sys, selection: seq<RollupId>, s': Sys)
    requires Inv(s) && s' == Next(s, Claim(selection)) && s' != s && ChainGrows(s, s')
    ensures forall r: RollupId :: Paid(s', r) <==> Paid(s, r)
  {
    forall r: RollupId ensures Paid(s', r) <==> Paid(s, r) {
      FateStays(s, s', r);
      if Paid(s', r) {
        var b: BatchId :| ClaimedBy(s', r, b) && HasLanded(s', b);
        assert ClaimedBy(s, r, b) && HasLanded(s, b);
      }
    }
  }

  lemma ClaimLinks(s: Sys, selection: seq<RollupId>, s': Sys)
    requires Inv(s) && s' == Next(s, Claim(selection)) && s' != s && ChainGrows(s, s')
    requires forall r: RollupId, b: BatchId :: ClaimedBy(s', r, b) <==>
        if b == |s.claims| then r in selection else ClaimedBy(s, r, b)
    requires forall r :: r in selection ==> r < |s.db.rollups| && s.db.rollups[r].status == Pending
    ensures forall r :: 0 <= r < |s'.db.rollups| ==> LinkOk(s', r)
  {
    forall r | 0 <= r < |s'.db.rollups| ensures LinkOk(s', r) {
      assert LinkOk(s, r) && RollupOk(s.db, s.minted, r);
      FateStays(s, s', r);
      assert ClaimedBy(s', r, |s.claims|) <==> r in selection;
    }
  }

  lemma ClaimInv(s: Sys, selection: seq<RollupId>)
    requires Inv(s)
    ensures Inv(Next(s, Claim(selection)))
  {
    var s' := Next(s, Claim(selection));
    if s' != s {
      ClaimChain(s, selection, s');
      ClaimKeeps(s.db, s.minted, selection);
      PlansStay(s, s');
      PayoutFrame(s, s');
      ClaimFates(s, selection, s');
      ClaimLinks(s, selection, s');
    }
  }

  // ---------- the chain moves ----------

  /** Stage and transaction changes that settle nothing new as landed. */
  lemma ChainStepInv(s: Sys, s': Sys)
    requires Inv(s) && s' == s.(stage := s'.stage, txs := s'.txs, gaveUp := s'.gaveUp) && |s'.stage| == |s.stage|
    requires ChainOk(s') && ChainGrows(s, s')
    requires forall b: BatchId :: HasLanded(s', b) ==> HasLanded(s, b)
    ensures Inv(s')
  {
    assert forall b: BatchId, r: RollupId :: ClaimedBy(s', r, b) == ClaimedBy(s, r, b);
    forall r: RollupId ensures Paid(s', r) <==> Paid(s, r) {
      FateStays(s, s', r);
      if Paid(s', r) {
        var b: BatchId :| ClaimedBy(s', r, b) && HasLanded(s', b);
        assert ClaimedBy(s, r, b) && HasLanded(s, b);
      }
    }
    forall r | 0 <= r < |s'.db.rollups| ensures LinkOk(s', r) {
      assert LinkOk(s, r);
      FateStays(s, s', r);
    }
    PlansStay(s, s');
    PayoutFrame(s, s');
  }

  lemma SetStageInv(s: Sys, b: BatchId, st: Stage)
    requires Inv(s) && b < |s.stage| && st != Claimed
    requires StageOk(SetStage(s, b, st), b)
    ensures Inv(SetStage(s, b, st))
  {
    var s' := SetStage(s, b, st);
    forall c | 0 <= c < |s'.stage| ensures StageOk(s', c) {
      assert StageOk(s, c);
      assert HasLanded(s, c) ==> HasLanded(s', c);
    }
    assert forall c: BatchId :: HasLanded(s', c) ==> HasLanded(s, c);
    ChainStepInv(s, s');
  }

  lemma LandedCarries(s: Sys, s': Sys, b: BatchId)
    requires |s.txs| <= |s'.txs| && forall t :: 0 <= t < |s.txs| ==> s'.txs[t] == s.txs[t]
    ensures HasLanded(s, b) ==> HasLanded(s', b)
  {
    if HasLanded(s, b) {
      var t :| 0 <= t < |s.txs| && s.txs[t].batch == b && s.txs[t].status == Landed;
      assert s'.txs[t].status == Landed;
    }
  }

  lemma SentLandsNothing(s: Sys, b: BatchId, c: BatchId)
    requires StageIs(s, b) && s.stage[b] == Claimed && HasLanded(Next(s, SendTx(b)), c)
    ensures HasLanded(s, c)
  {
    var s' := Next(s, SendTx(b));
    var t :| 0 <= t < |s'.txs| && s'.txs[t].batch == c && s'.txs[t].status == Landed;
    assert s.txs[t] == s'.txs[t];
  }

  lemma SentStages(s: Sys, b: BatchId, c: BatchId)
    requires Inv(s) && StageIs(s, b) && s.stage[b] == Claimed && c < |s.stage|
    ensures StageOk(Next(s, SendTx(b)), c)
  {
    assert StageOk(s, b) && StageOk(s, c);
    LandedCarries(s, Next(s, SendTx(b)), c);
  }

  lemma SendTxInv(s: Sys, b: BatchId)
    requires Inv(s) && StageIs(s, b) && s.stage[b] == Claimed
    ensures Inv(Next(s, SendTx(b)))
  {
    var s' := Next(s, SendTx(b));
    assert StageOk(s, b);
    forall c | 0 <= c < |s'.stage| ensures StageOk(s', c) {
      SentStages(s, b, c);
    }
    forall c: BatchId ensures HasLanded(s', c) ==> HasLanded(s, c) {
      if HasLanded(s', c) {
        SentLandsNothing(s, b, c);
      }
    }
    ChainStepInv(s, s');
  }

  lemma SettleTxLandsNothing(s: Sys, t: TxId, st: TxStatus, b: BatchId)
    requires t < |s.txs| && s.txs[t].status == InFlight && st in {Reverted, Dropped}
    ensures HasLanded(SetTxStatus(s, t, st), b) <==> HasLanded(s, b)
  {
    var s' := SetTxStatus(s, t, st);
    if HasLanded(s', b) {
      var u :| 0 <= u < |s'.txs| && s'.txs[u].batch == b && s'.txs[u].status == Landed;
      assert s.txs[u] == s'.txs[u];
    }
    if HasLanded(s, b) {
      var u :| 0 <= u < |s.txs| && s.txs[u].batch == b && s.txs[u].status == Landed;
      assert s.txs[u] == s'.txs[u];
    }
  }

  /** A transaction that reverts or is dropped makes its batch dead, never paid. */
  lemma SettleTxInv(s: Sys, t: TxId, st: TxStatus)
    requires Inv(s) && t < |s.txs| && s.txs[t].status == InFlight && st in {Reverted, Dropped}
    ensures Inv(SetTxStatus(s, t, st))
  {
    var s' := SetTxStatus(s, t, st);
    forall b: BatchId ensures HasLanded(s', b) <==> HasLanded(s, b) {
      SettleTxLandsNothing(s, t, st, b);
    }
    forall b | 0 <= b < |s'.stage| ensures StageOk(s', b) {
      assert StageOk(s, b);
      if s.stage[b].Judged? && !s.stage[b].allProcessed {
        assert IsDead(s', b);
      }
    }
    ChainStepInv(s, s');
  }

  // ---------- a transaction lands ----------

  lemma {:induction false} PayloadIsSum(rs: seq<Rollup>, ids: seq<RollupId>)
    requires InRange(ids, |rs|) && Distinct(ids)
    ensures PayloadTotal(rs, ids) == SumRollups(rs, SetOf(ids))
  {
    if ids == [] {
      assert SetOf(ids) == {};
      SumRollupsEmpty(rs);
    } else {
      var init, x := ids[..|ids| - 1], ids[|ids| - 1];
      assert ids == init + [x];
      PayloadIsSum(rs, init);
      assert SetOf(ids) == SetOf(init) + {x};
      SumRollupsAdd(rs, SetOf(init), {x});
      SumRollupsOne(rs, x);
    }
  }

  lemma {:induction false} SumRollupsEmpty(rs: seq<Rollup>)
    ensures SumRollups(rs, {}) == ZERO
  {
    if rs != [] {
      SumRollupsEmpty(rs[..|rs| - 1]);
    }
  }

  lemma {:induction false} SumRollupsAdd(rs: seq<Rollup>, p: set<RollupId>, q: set<RollupId>)
    requires p !! q
    ensures SumRollups(rs, p + q) == SumRollups(rs, p).Add(SumRollups(rs, q))
  {
    if rs != [] {
      SumRollupsAdd(rs[..|rs| - 1], p, q);
    }
  }

  lemma {:induction false} SumRollupsOne(rs: seq<Rollup>, r: RollupId)
    requires r < |rs|
    ensures SumRollups(rs, {r}) == rs[r].amounts
  {
    var last := |rs| - 1;
    if r == last {
      SumRollupsFrame(rs[..last], rs[..last], {}, {r});
      SumRollupsEmpty(rs[..last]);
    } else {
      SumRollupsOne(rs[..last], r);
    }
  }

  lemma LandedBatches(s: Sys, t: TxId, s': Sys)
    requires Inv(s) && s' == Next(s, LandTx(t)) && s' != s
    ensures forall b: BatchId :: HasLanded(s', b) <==> HasLanded(s, b) || b == s.txs[t].batch
  {
    var batch := s.txs[t].batch;
    assert s'.txs[t].status == Landed && s'.txs[t].batch == batch;
    forall b: BatchId ensures HasLanded(s', b) <==> HasLanded(s, b) || b == batch {
      if HasLanded(s, b) {
        var u :| 0 <= u < |s.txs| && s.txs[u].batch == b && s.txs[u].status == Landed;
        assert s'.txs[u] == s.txs[u];
      }
      if HasLanded(s', b) && b != batch {
        var u :| 0 <= u < |s'.txs| && s'.txs[u].batch == b && s'.txs[u].status == Landed;
        assert s'.txs[u] == s.txs[u];
      }
    }
  }

  lemma LandedChainOk(s: Sys, t: TxId, s': Sys)
    requires Inv(s) && s' == Next(s, LandTx(t)) && s' != s && t !in s.gaveUp
    ensures ChainOk(s') && ChainGrows(s, s')
  {
    LandedBatches(s, t, s');
    forall b | 0 <= b < |s'.stage| ensures StageOk(s', b) {
      LandedStageOk(s, t, s', b);
    }
  }

  lemma LandedStageOk(s: Sys, t: TxId, s': Sys, b: BatchId)
    requires Inv(s) && s' == Next(s, LandTx(t)) && s' != s && t !in s.gaveUp && b < |s.stage|
    requires HasLanded(s, b) ==> HasLanded(s', b)
    ensures StageOk(s', b)
  {
    assert StageOk(s, b);
  }

  lemma LandedFates(s: Sys, t: TxId, s': Sys)
    requires Inv(s) && s' == Next(s, LandTx(t)) && s' != s && t !in s.gaveUp
    ensures ChainOk(s') && ChainGrows(s, s')
    ensures forall r: RollupId :: Paid(s', r) <==> Paid(s, r) || r in s.txs[t].ids
  {
    var batch := s.txs[t].batch;
    LandedBatches(s, t, s');
    LandedChainOk(s, t, s');
    forall r: RollupId ensures Paid(s', r) <==> Paid(s, r) || r in s.txs[t].ids {
      FateStays(s, s', r);
      if r in s.txs[t].ids {
        assert ClaimedBy(s', r, batch) && HasLanded(s', batch);
      }
      if Paid(s', r) {
        var b: BatchId :| ClaimedBy(s', r, b) && HasLanded(s', b);
        assert ClaimedBy(s, r, b);
      }
    }
  }

  /** The contract pays the landed payload on top of what it had paid. */
  lemma LandedPayout(s: Sys, t: TxId, s': Sys)
    requires Inv(s) && s' == Next(s, LandTx(t)) && s' != s
    ensures s'.paidOut == SumRollups(s'.db.rollups, ProcessedRollups(s'))
  {
    var ids := s.txs[t].ids;
    assert forall r :: r in ids <==> RollupSettlement(r) in SettlementIds(ids);
    SetOfSize(ids);
    PayloadIsSum(s.db.rollups, ids);
    assert ProcessedRollups(s') == ProcessedRollups(s) + SetOf(ids);
    SumRollupsAdd(s.db.rollups, ProcessedRollups(s), SetOf(ids));
  }

  lemma LandTxInv(s: Sys, t: TxId)
    requires Inv(s) && LandsInTime(s, LandTx(t))
    ensures Inv(Next(s, LandTx(t)))
  {
    var s' := Next(s, LandTx(t));
    if s' != s {
      LandedFates(s, t, s');
      assert forall b: BatchId, r: RollupId :: ClaimedBy(s', r, b) == ClaimedBy(s, r, b);
      forall r | 0 <= r < |s'.db.rollups| ensures LinkOk(s', r) {
        assert LinkOk(s, r);
        FateStays(s, s', r);
      }
      PlansStay(s, s');
      LandedPayout(s, t, s');
    }
  }

  // ---------- the catch branch ----------

  lemma LandedMeansProcessed(s: Sys, b: BatchId)
    requires Inv(s) && b < |s.claims| && HasLanded(s, b)
    ensures SettlementIds(s.claims[b]) <= s.processed
  {
    forall x | x in s.claims[b] ensures RollupSettlement(x) in s.processed {
      assert ClaimedBy(s, x, b);
      assert Paid(s, x);
    }
  }

  /** Writing a transaction off changes nothing yet. */
  lemma GiveUpInv(s: Sys, b: BatchId)
    requires Inv(s) && StageIs(s, b) && s.stage[b].Thrown?
    ensures Inv(SetStage(s, b, Finished).(gaveUp := s.gaveUp + InDoubt(s, b)))
  {
    var s' := SetStage(s, b, Finished).(gaveUp := s.gaveUp + InDoubt(s, b));
    forall c: BatchId ensures HasLanded(s', c) <==> HasLanded(s, c) {
      if HasLanded(s, c) {
        var t :| 0 <= t < |s.txs| && s.txs[t].batch == c && s.txs[t].status == Landed;
        assert s'.txs[t].status == Landed;
      }
    }
    assert StageOk(s, b);
    forall c | 0 <= c < |s'.stage| ensures StageOk(s', c) {
      assert StageOk(s, c);
    }
    ChainStepInv(s, s');
  }

  lemma AllProcessedLanded(s: Sys, b: BatchId)
    requires Inv(s) && b < |s.claims| && SettlementIds(s.claims[b]) <= s.processed
    ensures HasLanded(s, b)
  {
    var r := s.claims[b][0];
    assert r in s.claims[b] && ClaimedBy(s, r, b);
    assert RollupSettlement(r) in SettlementIds(s.claims[b]);
    assert Paid(s, r);
    var c: BatchId :| ClaimedBy(s, r, c) && HasLanded(s, c);
    OneClaim(s, r, b, c);
  }

  lemma NotLanded(s: Sys, b: BatchId)
    requires Inv(s) && b < |s.claims| && !(SettlementIds(s.claims[b]) <= s.processed)
    ensures !HasLanded(s, b)
  {
    if HasLanded(s, b) {
      LandedMeansProcessed(s, b);
    }
  }

  lemma JudgedOk(s: Sys, b: BatchId)
    requires Inv(s) && StageIs(s, b) && s.stage[b].Thrown?
    ensures StageOk(Next(s, CheckProcessed(b)), b)
  {
    var s' := Next(s, CheckProcessed(b));
    assert StageOk(s, b);
    if SettlementIds(s.claims[b]) <= s.processed {
      AllProcessedLanded(s, b);
      LandedCarries(s, s', b);
    } else {
      NotLanded(s, b);
      assert IsDead(s', b);
    }
  }

  /** What the catch branch concludes is final under the landing hypothesis. */
  lemma CheckProcessedInv(s: Sys, b: BatchId)
    requires Inv(s)
    ensures Inv(Next(s, CheckProcessed(b)))
  {
    if StageIs(s, b) && s.stage[b].Thrown? {
      var all := s.claims[b] != [] && SettlementIds(s.claims[b]) <= s.processed;
      var s1 := SetStage(s, b, Finished).(gaveUp := s.gaveUp + InDoubt(s, b));
      GiveUpInv(s, b);
      JudgedOk(s, b);
      assert Next(s, CheckProcessed(b)) == SetStage(s1, b, Judged(all));
      SetStageInv(s1, b, Judged(all));
    }
  }

  // ---------- reconcile reads ----------

  /** What one row is decided on is true by then, and stays true. */
  lemma DecidedOk(s: Sys, row: PlanRow, ev: Event)
    requires Inv(s) && ev.ReadChain? && PlanRowOk(s, row)
    ensures PlanRowOk(s, Decided(s, row, ev))
  {
    var receipt := ReceiptOf(s, row.tx, ev.receiptFound);
    if receipt in {Success, RevertedReceipt} {
      var t := row.tx.value;
      var b := s.txs[t].batch;
      assert ClaimedBy(s, row.id, b);
      assert StageOk(s, b);
      if receipt == Success {
        assert HasLanded(s, b) && Paid(s, row.id);
      } else {
        assert IsDead(s, b) && Dead(s, row.id);
      }
    }
  }

  lemma ReadChainInv(s: Sys, ev: Event)
    requires Inv(s) && ev.ReadChain?
    ensures Inv(Next(s, ev))
  {
    if ev.plan < |s.plans| {
      var plan := s.plans[ev.plan];
      var plan' := DecideRow(s, plan, ev);
      assert PlanOk(s, plan);
      if !ev.raw && ev.row < |plan.rollups| {
        assert PlanRowOk(s, plan.rollups[ev.row]);
        DecidedOk(s, plan.rollups[ev.row], ev);
        forall k | 0 <= k < |plan'.rollups| ensures PlanRowOk(s, plan'.rollups[k]) {
          assert PlanRowOk(s, plan.rollups[k]);
        }
      }
      assert PlanOk(s, plan');
      PlansOnlyAdded(s, Next(s, ev));
    }
  }

  lemma NothingFrom(xs: seq<nat>, pool: set<nat>)
    requires forall k :: 0 <= k < |xs| ==> xs[k] in pool
    ensures pool == {} ==> xs == []
  {
    if xs != [] {
      assert xs[0] in pool;
    }
  }

  lemma ReadReconcileInv(s: Sys, ev: Event)
    requires Inv(s) && ev.ReadReconcile?
    ensures Inv(Next(s, ev))
  {
    var s' := Next(s, ev);
    if s' != s {
      NoLegacyRows(s.db, s.minted);
      NothingFrom(ev.legacy, LegacySubmitted(s.db));
      SetOfSize(ev.rollups);
      var plan := PlanFor(s.db, ev.rollups, ev.legacy);
      forall k | 0 <= k < |ev.rollups| ensures PlanRowOk(s, plan.rollups[k]) {
        assert LinkOk(s, ev.rollups[k]);
      }
      assert PlanOk(s, plan);
      PlansOnlyAdded(s, s');
    }
  }

  lemma PlansOnlyAdded(s: Sys, s': Sys)
    requires Inv(s) && s' == s.(plans := s'.plans)
    requires forall p :: 0 <= p < |s'.plans| ==> PlanOk(s, s'.plans[p])
    ensures Inv(s')
  {
    ChainSame(s, s');
    forall r: RollupId ensures Paid(s', r) == Paid(s, r) && Dead(s', r) == Dead(s, r) {
      FateStays(s, s', r);
      FateStays(s', s, r);
    }
    forall p | 0 <= p < |s'.plans| ensures PlanOk(s', s'.plans[p]) {
      assert PlanOk(s, s'.plans[p]);
      forall k | 0 <= k < |s'.plans[p].rollups| ensures PlanRowOk(s', s'.plans[p].rollups[k]) {
        assert PlanRowOk(s, s'.plans[p].rollups[k]);
      }
    }
    forall r | 0 <= r < |s'.db.rollups| ensures LinkOk(s', r) {
      assert LinkOk(s, r);
    }
    assert ProcessedRollups(s') == ProcessedRollups(s);
  }

  // ---------- every event ----------

  /** The events of one submit call. */
  predicate SubmitEvent(ev: Event) {
    || ev.GasTooHigh? || ev.SendTx? || ev.SendFails? || ev.SubmitThrows? || ev.RecordTx? || ev.CheckProcessed?
    || ev.FinishCatch?
  }

  lemma FinishCatchInv(s: Sys, b: BatchId)
    requires Inv(s)
    ensures Inv(Next(s, FinishCatch(b)))
  {
    if StageIs(s, b) && s.stage[b].Judged? {
      assert StageOk(s, b);
      var s1 := SetStage(s, b, Finished);
      SetStageInv(s, b, Finished);
      LandedCarries(s, s1, b);
      if s.stage[b].allProcessed {
        MarkConfirmedInv(s1, b);
      } else {
        RevertInv(s1, b);
      }
    }
  }

  lemma GasTooHighInv(s: Sys, b: BatchId)
    requires Inv(s)
    ensures Inv(Next(s, GasTooHigh(b)))
  {
    if StageIs(s, b) && s.stage[b] == Claimed {
      assert StageOk(s, b);
      SetStageInv(s, b, Finished);
      RevertInv(SetStage(s, b, Finished), b);
    }
  }

  lemma RecordTxInv(s: Sys, b: BatchId)
    requires Inv(s)
    ensures Inv(Next(s, RecordTx(b)))
  {
    if StageIs(s, b) && s.stage[b].Broadcast? {
      assert StageOk(s, b);
      SetStageInv(s, b, Finished);
      RecordInv(SetStage(s, b, Finished), b, s.stage[b].tx);
    }
  }

  lemma ThrowsInv(s: Sys, b: BatchId)
    requires Inv(s)
    ensures Inv(Next(s, SendFails(b))) && Inv(Next(s, SubmitThrows(b)))
  {
    if StageIs(s, b) && s.stage[b] == Claimed {
      assert StageOk(s, b);
      SetStageInv(s, b, Thrown(None));
    } else if StageIs(s, b) && s.stage[b].Broadcast? {
      assert StageOk(s, b);
      SetStageInv(s, b, Thrown(Some(s.stage[b].tx)));
    }
  }

  lemma SubmitInv(s: Sys, ev: Event)
    requires Inv(s) && SubmitEvent(ev)
    ensures Inv(Next(s, ev))
  {
    match ev
    case GasTooHigh(b) => GasTooHighInv(s, b);
    case SendTx(b) =>
      if StageIs(s, b) && s.stage[b] == Claimed {
        SendTxInv(s, b);
      }
    case SendFails(b) => ThrowsInv(s, b);
    case SubmitThrows(b) => ThrowsInv(s, b);
    case RecordTx(b) => RecordTxInv(s, b);
    case CheckProcessed(b) => CheckProcessedInv(s, b);
    case FinishCatch(b) => FinishCatchInv(s, b);
  }

  lemma TxInv(s: Sys, ev: Event)
    requires Inv(s) && LandsInTime(s, ev) && (ev.LandTx? || ev.RevertTx? || ev.DropTx?)
    ensures Inv(Next(s, ev))
  {
    if ev.LandTx? {
      LandTxInv(s, ev.tx);
    } else if ev.tx < |s.txs| && s.txs[ev.tx].status == InFlight {
      SettleTxInv(s, ev.tx, if ev.RevertTx? then Reverted else Dropped);
    }
  }

  lemma NextKeepsInv(s: Sys, ev: Event)
    requires Inv(s) && LandsInTime(s, ev)
    ensures Inv(Next(s, ev))
  {
    match ev
    case NewEarning(id, merchant, amounts, createdAt) =>
      if amounts.fee + amounts.net == amounts.gross {
        NewEarningInv(s, Earning(id, merchant, amounts, createdAt, Pending, None, None, None));
      }
    case RollUp(ids, cfg, maxRollups, now) => RollUpInv(s, ids, cfg, maxRollups, now);
    case Claim(selection) => ClaimInv(s, selection);
    case LandTx(_) => TxInv(s, ev);
    case RevertTx(_) => TxInv(s, ev);
    case DropTx(_) => TxInv(s, ev);
    case ReadReconcile(_, _) => ReadReconcileInv(s, ev);
    case ReadChain(_, _, _, _, _, _, _) => ReadChainInv(s, ev);
    case WriteReconcile(p) =>
      if p < |s.plans| {
        WriteReconcileInv(s, s.plans[p]);
      }
    case _ => SubmitInv(s, ev);
  }
}
