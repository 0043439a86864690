/**
 The settlement transactions as the program runs them: bulk updates that rewrite rows in place and
 report how many they hit, guards on those counts, and a rollback when a guard throws. Each method is
 proved to compute the corresponding step of SettlementSteps.
 */
module SettlementStore {
  import opened Common
  import opened SettlementAmounts
  import opened SettlementState
  import opened SettlementSteps
  import Selection = RollupSelection

  datatype TxResult = Done | Threw

  datatype ClaimResult = NothingSelected | LegacyRowsPresent | ClaimedBatch(batch: BatchId) | ClaimThrew

  /** What `db` becomes when the transaction ends with `o`. */
  function After(db: Db, o: Outcome): Db {
    match o
    case Committed(db') => db'
    case RolledBack => db
  }

  lemma EarningHitsStep(es: seq<Earning>, i: EarningId, w: EarningWhere)
    requires i < |es|
    ensures |EarningHits(es[..i + 1], w)| == |EarningHits(es[..i], w)| + (if EarningMatches(w, i, es[i]) then 1 else 0)
  {
    assert EarningHits(es[..i + 1], w) == EarningHits(es[..i], w) + (if EarningMatches(w, i, es[i]) then {i} else {});
  }

  lemma RollupHitsStep(rs: seq<Rollup>, r: RollupId, w: RollupWhere)
    requires r < |rs|
    ensures |RollupHits(rs[..r + 1], w)| == |RollupHits(rs[..r], w)| + (if RollupMatches(w, r, rs[r]) then 1 else 0)
  {
    assert RollupHits(rs[..r + 1], w) == RollupHits(rs[..r], w) + (if RollupMatches(w, r, rs[r]) then {r} else {});
  }

  class Store {
    var earnings: seq<Earning>
    var rollups: seq<Rollup>
    var batches: seq<Batch>

    constructor ()
      ensures Tables() == Db([], [], [])
    {
      earnings, rollups, batches := [], [], [];
    }

    function Tables(): Db
      reads this
    {
      Db(earnings, rollups, batches)
    }

    /** Throwing inside a transaction puts every table back. */
    method Restore(db: Db)
      modifies this
      ensures Tables() == db
    {
      earnings, rollups, batches := db.earnings, db.rollups, db.batches;
    }

    method UpdateManyEarnings(w: EarningWhere, d: EarningData) returns (count: nat)
      modifies this`earnings
      ensures earnings == UpdateEarnings(old(earnings), w, d)
      ensures count == |EarningHits(old(earnings), w)|
    {
      ghost var before, after := earnings, UpdateEarnings(earnings, w, d);
      count := 0;
      var i := 0;
      while i < |earnings|
        invariant |earnings| == |before| && 0 <= i <= |before|
        invariant forall k :: 0 <= k < i ==> earnings[k] == after[k]
        invariant forall k :: i <= k < |before| ==> earnings[k] == before[k]
        invariant count == |EarningHits(before[..i], w)|
      {
        EarningHitsStep(before, i, w);
        if EarningMatches(w, i, earnings[i]) {
          earnings := earnings[i := PatchEarning(d, earnings[i])];
          count := count + 1;
        }
        i := i + 1;
      }
      assert before[..i] == before;
    }

    method UpdateManyRollups(w: RollupWhere, d: RollupData) returns (count: nat)
      modifies this`rollups
      ensures rollups == UpdateRollups(old(rollups), w, d)
      ensures count == |RollupHits(old(rollups), w)|
    {
      ghost var before, after := rollups, UpdateRollups(rollups, w, d);
      count := 0;
      var r := 0;
      while r < |rollups|
        invariant |rollups| == |before| && 0 <= r <= |before|
        invariant forall k :: 0 <= k < r ==> rollups[k] == after[k]
        invariant forall k :: r <= k < |before| ==> rollups[k] == before[k]
        invariant count == |RollupHits(before[..r], w)|
      {
        RollupHitsStep(before, r, w);
        if RollupMatches(w, r, rollups[r]) {
          rollups := rollups[r := PatchRollup(d, rollups[r])];
          count := count + 1;
        }
        r := r + 1;
      }
      assert before[..r] == before;
    }

    /** One turn of the creation loop: insert the rollup, then attach its earnings. */
    method AttachCandidate(candidate: Selection.Candidate) returns (ok: bool)
      modifies this`rollups, this`earnings
      ensures ok <==> AttachOne(old(Tables()), candidate).Committed?
      ensures ok ==> Tables() == AttachOne(old(Tables()), candidate).db
    {
      var rollupId := |rollups|;
      rollups := rollups + [NewRollup(candidate)];
      var updated := UpdateManyEarnings(Unattached(SetOf(candidate.earningIds)), Attach(rollupId));
      ok := updated == |candidate.earningIds|;
    }

    /** createMerchantSettlementRollups, on the rows its locking query returned. */
    method RollUp(ids: seq<EarningId>, cfg: Selection.Config, maxRollups: int, now: int)
      returns (result: TxResult, createdCount: nat)
      requires InRange(ids, |earnings|)
      modifies this
      ensures Tables() == After(old(Tables()), CreateRollups(old(Tables()), ids, cfg, maxRollups, now))
      ensures result == Threw <==> CreateRollups(old(Tables()), ids, cfg, maxRollups, now).RolledBack?
      ensures result == Done ==> createdCount == |Selected(old(Tables()), ids, cfg, maxRollups, now)|
    {
      var saved := Tables();
      var candidates := Selection.BuildCandidates(RowsOf(saved, ids), cfg, now);
      var selected := candidates[..Min(Max(0, maxRollups), |candidates|)];
      createdCount := 0;
      while createdCount < |selected|
        invariant createdCount <= |selected|
        invariant AttachAll(saved, selected[..createdCount]) == Committed(Tables())
      {
        assert selected[..createdCount + 1][..createdCount] == selected[..createdCount];
        var ok := AttachCandidate(selected[createdCount]);
        if !ok {
          AbortedLater(saved, selected, createdCount + 1);
          Restore(saved);
          return Threw, 0;
        }
        createdCount := createdCount + 1;
      }
      assert selected[..createdCount] == selected;
      result := Done;
    }

    /** claimNextMerchantSettlementBatch: the early return on legacy rows and the claiming transaction. */
    method Claim(selectedIds: seq<RollupId>) returns (r: ClaimResult)
      modifies this
      ensures Tables() == if r.ClaimedBatch? then After(old(Tables()), ClaimBatch(old(Tables()), selectedIds))
        else old(Tables())
      ensures r == LegacyRowsPresent <==> LegacySubmitted(old(Tables())) != {}
      ensures r == NothingSelected <==> LegacySubmitted(old(Tables())) == {} && selectedIds == []
      ensures LegacySubmitted(old(Tables())) == {} && selectedIds != [] ==>
          (r == ClaimThrew <==> ClaimBatch(old(Tables()), selectedIds).RolledBack?)
      ensures r.ClaimedBatch? ==> r.batch == |old(batches)|
    {
      if exists i :: 0 <= i < |earnings| && earnings[i].status == Submitted && earnings[i].rollup == None {
        ghost var i :| 0 <= i < |earnings| && earnings[i].status == Submitted && earnings[i].rollup == None;
        assert i in LegacySubmitted(Tables());
        return LegacyRowsPresent;
      }
      assert LegacySubmitted(Tables()) == {};
      if selectedIds == [] {
        return NothingSelected;
      }
      var saved := Tables();
      var chosen := SetOf(selectedIds);
      var batch := |batches|;
      batches := batches + [Batch(BatchOpen, None)];
      var updatedRollups := UpdateManyRollups(RollupIds(chosen, Pending), ClaimRollup(batch));
      if updatedRollups != |selectedIds| {
        Restore(saved);
        return ClaimThrew;
      }
      var totalEarningCount := CountRows(chosen);
      var updatedEarnings := UpdateManyEarnings(OfRollups(chosen, Pending), ClaimFor(batch));
      if updatedEarnings != totalEarningCount {
        Restore(saved);
        return ClaimThrew;
      }
      r := ClaimedBatch(batch);
    }

    method CountRows(chosen: set<RollupId>) returns (total: nat)
      ensures total == SumCounts(rollups, chosen)
    {
      total := 0;
      for r := 0 to |rollups|
        invariant total == SumCounts(rollups[..r], chosen)
      {
        assert rollups[..r + 1][..r] == rollups[..r];
        if r in chosen {
          total := total + rollups[r].count;
        }
      }
      assert rollups[..|rollups|] == rollups;
    }

    method Revert(batchId: BatchId)
      requires batchId < |batches|
      modifies this
      ensures Tables() == RevertBatch(old(Tables()), batchId)
    {
      var _ := UpdateManyRollups(RollupsOfBatch(batchId, Submitted), FailRollup);
      var _ := UpdateManyEarnings(OfBatch(batchId, Submitted), Requeue);
      batches := batches[batchId := batches[batchId].(status := BatchFailed)];
    }

    method MarkConfirmed(batchId: BatchId)
      requires batchId < |batches|
      modifies this
      ensures Tables() == MarkBatchConfirmed(old(Tables()), batchId)
    {
      var _ := UpdateManyRollups(RollupsOfBatch(batchId, Submitted), ConfirmRollup);
      var _ := UpdateManyEarnings(OfBatch(batchId, Submitted), Confirm);
      batches := batches[batchId := batches[batchId].(status := BatchConfirmed)];
    }

    method Record(batchId: BatchId, txHash: TxId)
      requires batchId < |batches|
      modifies this
      ensures Tables() == RecordSubmission(old(Tables()), batchId, txHash)
    {
      batches := batches[batchId := Batch(BatchSubmitted, Some(txHash))];
      var _ := UpdateManyRollups(RollupsOfBatch(batchId, Submitted), SetRollupTx(txHash));
      var _ := UpdateManyEarnings(OfBatch(batchId, Submitted), SetTx(txHash));
    }

    /** One guarded pair of bulk updates inside the reconcile transaction. */
    method Move(ids: seq<RollupId>, expectedMembers: nat, rd: RollupData, ed: EarningData) returns (ok: bool)
      modifies this`rollups, this`earnings
      ensures ok <==> MoveRollups(old(Tables()), ids, expectedMembers, rd, ed).Committed?
      ensures ok ==> Tables() == MoveRollups(old(Tables()), ids, expectedMembers, rd, ed).db
    {
      if ids == [] {
        return true;
      }
      var updatedRollups := UpdateManyRollups(RollupIds(SetOf(ids), Submitted), rd);
      if updatedRollups != |ids| {
        return false;
      }
      var updatedEarnings := UpdateManyEarnings(OfRollups(SetOf(ids), Submitted), ed);
      ok := updatedEarnings == expectedMembers;
    }

    method MoveRaw(ids: seq<EarningId>, ed: EarningData) returns (ok: bool)
      modifies this`earnings
      ensures ok <==> MoveLegacy(old(Tables()), ids, ed).Committed?
      ensures ok ==> Tables() == MoveLegacy(old(Tables()), ids, ed).db
    {
      if ids == [] {
        return true;
      }
      var updated := UpdateManyEarnings(ById(SetOf(ids), Submitted), ed);
      ok := updated == |ids|;
    }

    method MoveAll(rolls: Decisions, raw: Decisions) returns (ok: bool)
      modifies this`rollups, this`earnings
      ensures var o1 := MoveRollups(old(Tables()), rolls.confirmed, rolls.confirmedMembers, ConfirmRollup, Confirm);
        var o2 := if o1.RolledBack? then o1
                  else MoveRollups(o1.db, rolls.requeued, rolls.requeuedMembers, FailRollup, Requeue);
        var o3 := if o2.RolledBack? then o2 else MoveLegacy(o2.db, raw.confirmed, Confirm);
        var o4 := if o3.RolledBack? then o3 else MoveLegacy(o3.db, raw.requeued, RequeueLegacy);
        (ok <==> o4.Committed?) && (ok ==> Tables() == o4.db)
    {
      ok := Move(rolls.confirmed, rolls.confirmedMembers, ConfirmRollup, Confirm);
      if ok {
        ok := Move(rolls.requeued, rolls.requeuedMembers, FailRollup, Requeue);
      }
      if ok {
        ok := MoveRaw(raw.confirmed, Confirm);
      }
      if ok {
        ok := MoveRaw(raw.requeued, RequeueLegacy);
      }
    }

    /** The closing loop: the status of every touched batch is derived again from its attached rows. */
    method RefreshBatches(rows: seq<PlanRow>)
      modifies this`batches
      ensures batches == UpdateBatches(old(Tables()), rows)
    {
      var db := Tables();
      var touched := TouchedBatches(rows);
      var b := 0;
      while b < |batches|
        invariant 0 <= b <= |batches| == |db.batches|
        invariant forall c :: 0 <= c < b ==> batches[c] == UpdateBatches(db, rows)[c]
        invariant forall c :: b <= c < |batches| ==> batches[c] == db.batches[c]
      {
        var status := NextBatchStatus(db, b, RequeuedIn(rows, b));
        if b in touched && status.Some? {
          batches := batches[b := batches[b].(status := status.value)];
        }
        b := b + 1;
      }
    }

    /** The write half of reconcileMerchantSettlementRows. */
    method WriteReconcile(plan: Plan) returns (result: TxResult)
      modifies this
      ensures Tables() == After(old(Tables()), CommitPlan(old(Tables()), plan))
      ensures result == Threw <==> CommitPlan(old(Tables()), plan).RolledBack?
    {
      var saved := Tables();
      var rolls := Decide(plan.rollups);
      var raw := Decide(plan.legacy);
      var ok := MoveAll(rolls, raw);
      if !ok {
        Restore(saved);
        return Threw;
      }
      RefreshBatches(plan.rollups + plan.legacy);
      result := Done;
    }
  }

  /** Once one attach step throws, the whole creation does. */
  lemma {:induction false} AbortedLater(db: Db, cs: seq<Selection.Candidate>, k: nat)
    requires k <= |cs| && AttachAll(db, cs[..k]).RolledBack?
    ensures AttachAll(db, cs).RolledBack?
    decreases |cs| - k
  {
    if k == |cs| {
      assert cs[..k] == cs;
    } else {
      assert cs[..k + 1][..k] == cs[..k];
      AbortedLater(db, cs, k + 1);
    }
  }

  /** The arrays and counters the outcome handler fills. */
  datatype Decisions = Decisions(confirmed: seq<nat>, requeued: seq<nat>, confirmedMembers: nat, requeuedMembers: nat,
                                 confirmedCount: nat, requeuedCount: nat, stillSubmittedCount: nat)

  /** Every selected row is counted once, and the id lists are exactly the rows decided that way. */
  method Decide(rows: seq<PlanRow>) returns (d: Decisions)
    ensures d.confirmed == IdsWith(rows, ToConfirm) && d.requeued == IdsWith(rows, ToRequeue)
    ensures d.confirmedMembers == CountsWith(rows, ToConfirm) && d.requeuedMembers == CountsWith(rows, ToRequeue)
    ensures d.confirmedCount + d.requeuedCount + d.stillSubmittedCount == |rows|
    ensures d.confirmedCount == |d.confirmed| && d.requeuedCount == |d.requeued|
  {
    d := Decisions([], [], 0, 0, 0, 0, 0);
    for k := 0 to |rows|
      invariant d.confirmed == IdsWith(rows[..k], ToConfirm) && d.requeued == IdsWith(rows[..k], ToRequeue)
      invariant d.confirmedMembers == CountsWith(rows[..k], ToConfirm)
      invariant d.requeuedMembers == CountsWith(rows[..k], ToRequeue)
      invariant d.confirmedCount + d.requeuedCount + d.stillSubmittedCount == k
      invariant d.confirmedCount == |d.confirmed| && d.requeuedCount == |d.requeued|
    {
      assert rows[..k + 1][..k] == rows[..k];
      var row := rows[k];
      match row.outcome
      case ToConfirm =>
        d := d.(confirmed := d.confirmed + [row.id], confirmedMembers := d.confirmedMembers + row.count,
                confirmedCount := d.confirmedCount + 1);
      case ToRequeue =>
        d := d.(requeued := d.requeued + [row.id], requeuedMembers := d.requeuedMembers + row.count,
                requeuedCount := d.requeuedCount + 1);
      case KeepSubmitted =>
        d := d.(stillSubmittedCount := d.stillSubmittedCount + 1);
    }
    assert rows[..|rows|] == rows;
  }

  // ---------- selection limit and contract payload ----------

  /** resolveAllocatorSelectionLimit. */
  function SelectionLimit(maxBatchSize: int, gasBudgetPerRun: int, gasEstimatePerSettlement: int): (limit: int) {
    if maxBatchSize <= 0 then 0
    else if gasBudgetPerRun <= 0 || gasEstimatePerSettlement <= 0 then 0
    else
      var budgetLimited := gasBudgetPerRun / gasEstimatePerSettlement;
      if budgetLimited <= 0 then 0 else Max(0, Min(maxBatchSize, budgetLimited))
  }

  /** The limit is the largest number of settlements that fits both the batch size and the gas budget. */
  lemma SelectionLimitIsLargest(maxBatchSize: int, budget: int, estimate: int, n: int)
    requires n >= 0
    ensures n <= SelectionLimit(maxBatchSize, budget, estimate)
       <==> n == 0 || (n <= maxBatchSize && budget > 0 && estimate > 0 && n * estimate <= budget)
  {
    if estimate > 0 && budget > 0 {
      var q := budget / estimate;
      assert q * estimate <= budget < (q + 1) * estimate;
      if n <= q {
        MulLeq(n, q, estimate);
      } else {
        MulLeq(q + 1, n, estimate);
      }
    }
  }

  lemma MulLeq(a: int, b: int, c: int)
    requires a <= b && c >= 0
    ensures a * c <= b * c
  {
  }

  datatype Payload = Payload(merchants: seq<Merchant>, gross: seq<int>, fees: seq<int>,
                             settlementIds: seq<SettlementId>, total: Amounts)

  /** buildMerchantAllocationBatch: four parallel arrays, one entry per claimed rollup, and their totals. */
  method BuildAllocationBatch(rs: seq<Rollup>, ids: seq<RollupId>) returns (p: Payload)
    requires InRange(ids, |rs|)
    ensures |p.merchants| == |p.gross| == |p.fees| == |p.settlementIds| == |ids|
    ensures forall k :: 0 <= k < |ids| ==>
        && p.merchants[k] == rs[ids[k]].merchant && p.gross[k] == rs[ids[k]].amounts.gross
        && p.fees[k] == rs[ids[k]].amounts.fee && p.settlementIds[k] == RollupSettlement(ids[k])
    ensures p.total == PayloadTotal(rs, ids)
  {
    p := Payload([], [], [], [], ZERO);
    for k := 0 to |ids|
      invariant |p.merchants| == |p.gross| == |p.fees| == |p.settlementIds| == k
      invariant forall j :: 0 <= j < k ==>
          && p.merchants[j] == rs[ids[j]].merchant && p.gross[j] == rs[ids[j]].amounts.gross
          && p.fees[j] == rs[ids[j]].amounts.fee && p.settlementIds[j] == RollupSettlement(ids[j])
      invariant p.total == PayloadTotal(rs, ids[..k])
    {
      assert ids[..k + 1][..k] == ids[..k];
      var x := rs[ids[k]];
      p := Payload(p.merchants + [x.merchant], p.gross + [x.amounts.gross], p.fees + [x.amounts.fee],
                   p.settlementIds + [RollupSettlement(ids[k])], p.total.Add(x.amounts));
    }
    assert ids[..|ids|] == ids;
  }
}
