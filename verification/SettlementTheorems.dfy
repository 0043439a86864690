/**
 What the settlement pipeline and the vault guarantee together over whole runs: any events, in any order,
 interrupted anywhere. What is about the chain needs the landing hypothesis; what the tables alone keep is in
 SettlementTables.
 */
module SettlementTheorems {
  import opened Common
  import opened SettlementAmounts
  import opened SettlementState
  import opened SettlementSteps
  import opened SettlementLockstep
  import opened SettlementRun
  import opened SettlementProof
  import Runs
  import Selection = RollupSelection

  lemma InitInv()
    ensures Inv(INIT)
  {
    assert forall r: RollupId :: !Paid(INIT, r);
  }

  lemma SettledPrefix(s: Sys, events: seq<Event>, n: nat)
    requires n <= |events| && SettledRun(s, events)
    ensures SettledRun(s, events[..n])
  {
    forall k | 0 <= k < n ensures LandsInTime(Exec(s, events[..n][..k]), events[..n][k]) {
      assert events[..n][..k] == events[..k];
    }
  }

  lemma {:induction false} RunKeepsInv(s: Sys, events: seq<Event>)
    requires Inv(s) && SettledRun(s, events)
    ensures Inv(Exec(s, events))
  {
    if events != [] {
      var n := |events| - 1;
      SettledPrefix(s, events, n);
      RunKeepsInv(s, events[..n]);
      NextKeepsInv(Exec(s, events[..n]), events[n]);
    }
  }

  /** No earning was minted into two rollups that were both processed on-chain. */
  ghost predicate PaidAtMostOnce(s: Sys) {
    forall i: EarningId, r: RollupId, q: RollupId |
        r < |s.minted| && q < |s.minted| && i in s.minted[r] && i in s.minted[q]
        && RollupSettlement(r) in s.processed && RollupSettlement(q) in s.processed :: r == q
  }

  lemma ProcessedIsLive(s: Sys, r: RollupId)
    requires Inv(s) && r < |s.db.rollups| && RollupSettlement(r) in s.processed
    ensures s.db.rollups[r].status in {Submitted, Confirmed}
    ensures Members(s.db.earnings, r) == s.minted[r]
  {
    assert Paid(s, r);
    assert LinkOk(s, r) && RollupOk(s.db, s.minted, r);
    if s.db.rollups[r].status == Failed {
      NotPaidAndDead(s, r);
    }
  }

  lemma AtMostOnce(events: seq<Event>)
    requires SettledRun(INIT, events)
    ensures PaidAtMostOnce(Exec(INIT, events))
  {
    InitInv();
    RunKeepsInv(INIT, events);
    var s := Exec(INIT, events);
    forall i: EarningId, r: RollupId, q: RollupId |
        r < |s.minted| && q < |s.minted| && i in s.minted[r] && i in s.minted[q]
        && RollupSettlement(r) in s.processed && RollupSettlement(q) in s.processed
      ensures r == q
    {
      ProcessedIsLive(s, r);
      ProcessedIsLive(s, q);
      assert i in Members(s.db.earnings, r) && i in Members(s.db.earnings, q);
    }
  }

  /**
   Conservation on the contract: everything it ever allocated is the sum over exactly the earnings that
   sit in processed rollups, each counted once, and splits exactly into fees and merchant amounts.
   */
  lemma PayoutConservation(events: seq<Event>)
    requires SettledRun(INIT, events)
    ensures var s := Exec(INIT, events);
      && s.paidOut == SumOver(s.db.earnings, AttachedTo(s.db.earnings, ProcessedRollups(s)))
      && s.paidOut.fee + s.paidOut.net == s.paidOut.gross
  {
    InitInv();
    RunKeepsInv(INIT, events);
    var s := Exec(INIT, events);
    var live := ProcessedRollups(s);
    forall r | r in live ensures SumOver(s.db.earnings, Members(s.db.earnings, r)) == s.db.rollups[r].amounts {
      ProcessedIsLive(s, r);
      assert RollupOk(s.db, s.minted, r);
    }
    SumAttached(s.db.earnings, s.db.rollups, live);
    assert Below(live, |s.db.rollups|) == live;
    forall i | 0 <= i < |s.db.earnings|
      ensures s.db.earnings[i].amounts.fee + s.db.earnings[i].amounts.net == s.db.earnings[i].amounts.gross
    {
      assert EarningOk(s.db, i);
    }
    SumOverExact(s.db.earnings, AttachedTo(s.db.earnings, live));
  }

  lemma {:induction false} SumOverExact(es: seq<Earning>, ids: set<EarningId>)
    requires forall i :: 0 <= i < |es| ==> es[i].amounts.fee + es[i].amounts.net == es[i].amounts.gross
    ensures SumOver(es, ids).fee + SumOver(es, ids).net == SumOver(es, ids).gross
  {
    if es != [] {
      SumOverExact(es[..|es| - 1], ids);
    }
  }

  /** A batch recorded as confirmed has every single rollup it was claimed with confirmed. */
  lemma ConfirmedBatchIsComplete(events: seq<Event>, b: BatchId, r: RollupId)
    requires SettledRun(INIT, events)
    requires var s := Exec(INIT, events);
      b < |s.db.batches| && s.db.batches[b].status == BatchConfirmed && ClaimedBy(s, r, b)
    ensures var s := Exec(INIT, events);
      r < |s.db.rollups| && s.db.rollups[r].status == Confirmed && RollupSettlement(r) in s.processed
  {
    InitInv();
    RunKeepsInv(INIT, events);
    var s := Exec(INIT, events);
    assert HasLanded(s, b) && Paid(s, r);
    ProcessedIsLive(s, r);
    assert LinkOk(s, r) && RollupOk(s.db, s.minted, r);
    OneClaim(s, r, b, s.db.rollups[r].batch.value);
  }

  // ---------- what never changes again ----------

  /** Rows and history are only added, and confirmed rows are never rewritten. */
  ghost predicate Preserves(s: Sys, s': Sys) {
    && |s.db.earnings| <= |s'.db.earnings|
    && |s.db.rollups| <= |s'.db.rollups|
    && s.minted <= s'.minted
    && s.processed <= s'.processed
    && (forall i :: 0 <= i < |s.db.earnings| && s.db.earnings[i].status == Confirmed ==>
          s'.db.earnings[i] == s.db.earnings[i])
    && (forall r :: 0 <= r < |s.db.rollups| && s.db.rollups[r].status == Confirmed ==>
          s'.db.rollups[r] == s.db.rollups[r])
  }

  lemma {:induction false} AttachAllPreserves(db: Db, cs: seq<Selection.Candidate>)
    ensures AttachAll(db, cs).Committed? ==>
      var db' := AttachAll(db, cs).db;
      && |db.earnings| == |db'.earnings| && |db.rollups| <= |db'.rollups|
      && (forall i :: 0 <= i < |db.earnings| && db.earnings[i].status == Confirmed ==>
            db'.earnings[i] == db.earnings[i])
      && (forall r :: 0 <= r < |db.rollups| ==> db'.rollups[r] == db.rollups[r])
  {
    if cs != [] {
      AttachAllPreserves(db, cs[..|cs| - 1]);
    }
  }

  ghost predicate DbPreserves(db: Db, db': Db) {
    && |db.earnings| == |db'.earnings| && |db.rollups| == |db'.rollups|
    && (forall i :: 0 <= i < |db.earnings| && db.earnings[i].status == Confirmed ==> db'.earnings[i] == db.earnings[i])
    && (forall r :: 0 <= r < |db.rollups| && db.rollups[r].status == Confirmed ==> db'.rollups[r] == db.rollups[r])
  }

  lemma MoveRollupsPreserves(db: Db, ids: seq<RollupId>, count: nat, d: RollupData, e: EarningData)
    ensures MoveRollups(db, ids, count, d, e).Committed? ==> DbPreserves(db, MoveRollups(db, ids, count, d, e).db)
  {
  }

  lemma MoveLegacyPreserves(db: Db, ids: seq<EarningId>, d: EarningData)
    ensures MoveLegacy(db, ids, d).Committed? ==> DbPreserves(db, MoveLegacy(db, ids, d).db)
  {
  }

  lemma CommitPlanPreserves(db: Db, plan: Plan)
    ensures CommitPlan(db, plan).Committed? ==> DbPreserves(db, CommitPlan(db, plan).db)
  {
    var o1 := MoveRollups(db, IdsWith(plan.rollups, ToConfirm), CountsWith(plan.rollups, ToConfirm), ConfirmRollup,
                          Confirm);
    MoveRollupsPreserves(db, IdsWith(plan.rollups, ToConfirm), CountsWith(plan.rollups, ToConfirm), ConfirmRollup,
                         Confirm);
    if o1.Committed? {
      var o2 := MoveRollups(o1.db, IdsWith(plan.rollups, ToRequeue), CountsWith(plan.rollups, ToRequeue), FailRollup,
                            Requeue);
      MoveRollupsPreserves(o1.db, IdsWith(plan.rollups, ToRequeue), CountsWith(plan.rollups, ToRequeue), FailRollup,
                           Requeue);
      if o2.Committed? {
        var o3 := MoveLegacy(o2.db, IdsWith(plan.legacy, ToConfirm), Confirm);
        MoveLegacyPreserves(o2.db, IdsWith(plan.legacy, ToConfirm), Confirm);
        if o3.Committed? {
          MoveLegacyPreserves(o3.db, IdsWith(plan.legacy, ToRequeue), RequeueLegacy);
        }
      }
    }
  }

  lemma ClaimPreserves(db: Db, selection: seq<RollupId>)
    ensures ClaimBatch(db, selection).Committed? ==> DbPreserves(db, ClaimBatch(db, selection).db)
  {
  }

  lemma BatchPreserves(db: Db, b: BatchId, tx: TxId)
    requires b < |db.batches|
    ensures DbPreserves(db, RevertBatch(db, b)) && DbPreserves(db, MarkBatchConfirmed(db, b))
    ensures DbPreserves(db, RecordSubmission(db, b, tx))
  {
  }

  /** The events that write no table. */
  predicate ChainEvent(ev: Event) {
    || ev.SendTx? || ev.SendFails? || ev.SubmitThrows? || ev.CheckProcessed? || ev.LandTx? || ev.RevertTx?
    || ev.DropTx? || ev.ReadReconcile? || ev.ReadChain?
  }

  lemma ChainEventPreserves(s: Sys, ev: Event)
    requires ChainEvent(ev)
    ensures Preserves(s, Next(s, ev))
  {
    assert Next(s, ev).db == s.db && Next(s, ev).minted == s.minted;
  }

  lemma NextPreserves(s: Sys, ev: Event)
    ensures Preserves(s, Next(s, ev))
  {
    hide AttachAll, ClaimBatch, CommitPlan, RevertBatch, MarkBatchConfirmed, RecordSubmission, Selected;
    match ev
    case NewEarning(_, _, _, _) =>
    case RollUp(ids, cfg, maxRollups, now) =>
      if InRange(ids, |s.db.earnings|) {
        AttachAllPreserves(s.db, Selected(s.db, ids, cfg, maxRollups, now));
      }
    case Claim(selection) => ClaimPreserves(s.db, selection);
    case GasTooHigh(b) => if StageIs(s, b) { BatchPreserves(s.db, b, 0); }
    case FinishCatch(b) => if StageIs(s, b) { BatchPreserves(s.db, b, 0); }
    case RecordTx(b) =>
      if StageIs(s, b) && s.stage[b].Broadcast? {
        BatchPreserves(s.db, b, s.stage[b].tx);
      }
    case WriteReconcile(p) =>
      if p < |s.plans| {
        CommitPlanPreserves(s.db, s.plans[p]);
      }
    case _ => ChainEventPreserves(s, ev);
  }

  lemma ExecAppend(s: Sys, a: seq<Event>, ev: Event)
    ensures Exec(s, a + [ev]) == Next(Exec(s, a), ev)
  {
    Runs.FoldAppend(Next, s, a, ev);
  }

  lemma PreservesChain(a: Sys, b: Sys, c: Sys)
    requires Preserves(a, b) && Preserves(b, c)
    ensures Preserves(a, c)
  {
  }

  lemma RunPreserves(s: Sys, before: seq<Event>, after: seq<Event>)
    ensures Preserves(Exec(s, before), Exec(s, before + after))
  {
    forall x: Sys, ev: Event ensures Preserves(x, Next(x, ev)) {
      NextPreserves(x, ev);
    }
    forall x: Sys, y: Sys, z: Sys | Preserves(x, y) && Preserves(y, z) ensures Preserves(x, z) {
      PreservesChain(x, y, z);
    }
    Runs.FoldRelates(Next, Preserves, s, before, after);
  }

  /** Confirmed is final, for earnings and for rollups, in every continuation of every run. */
  lemma ConfirmedIsFinal(before: seq<Event>, after: seq<Event>)
    ensures var s, s' := Exec(INIT, before), Exec(INIT, before + after);
      && (forall i :: 0 <= i < |s.db.earnings| && s.db.earnings[i].status == Confirmed ==>
            i < |s'.db.earnings| && s'.db.earnings[i] == s.db.earnings[i])
      && (forall r :: 0 <= r < |s.db.rollups| && s.db.rollups[r].status == Confirmed ==>
            r < |s'.db.rollups| && s'.db.rollups[r] == s.db.rollups[r])
  {
    RunPreserves(INIT, before, after);
  }

  /** An earning whose settlement was processed stays with that rollup and never goes back to pending. */
  lemma PaidIsNeverRequeued(before: seq<Event>, after: seq<Event>, i: EarningId, r: RollupId)
    requires SettledRun(INIT, before + after)
    requires var s := Exec(INIT, before);
      i < |s.db.earnings| && s.db.earnings[i].rollup == Some(r) && RollupSettlement(r) in s.processed
    ensures var s' := Exec(INIT, before + after);
      && i < |s'.db.earnings| && s'.db.earnings[i].rollup == Some(r)
      && s'.db.earnings[i].status in {Submitted, Confirmed}
  {
    InitInv();
    SettledPrefix(INIT, before + after, |before|);
    assert (before + after)[..|before|] == before;
    RunKeepsInv(INIT, before);
    RunKeepsInv(INIT, before + after);
    RunPreserves(INIT, before, after);
    var s, s' := Exec(INIT, before), Exec(INIT, before + after);
    assert EarningOk(s.db, i);
    ProcessedIsLive(s, r);
    ProcessedIsLive(s', r);
    assert i in Members(s.db.earnings, r);
    assert s'.minted[r] == s.minted[r];
    assert i in Members(s'.db.earnings, r);
    assert EarningOk(s'.db, i);
  }
}
