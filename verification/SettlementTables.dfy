/**
 What the settlement tables keep whatever the chain does: lockstep, and what follows from it. No hypothesis about
 when transactions land is needed here.
 */
module SettlementTables {
  import opened Common
  import opened SettlementState
  import opened SettlementSteps
  import opened SettlementLockstep
  import opened SettlementRun
  import opened SettlementProof
  import Selection = RollupSelection

  /** Rows of different rollups, with counts that are still the recorded ones. */
  ghost predicate SnapshotOf(rs: seq<Rollup>, rows: seq<PlanRow>) {
    && (forall k :: 0 <= k < |rows| ==> rows[k].id < |rs| && rows[k].count == rs[rows[k].id].count)
    && (forall j, k :: 0 <= j < k < |rows| ==> rows[j].id != rows[k].id)
  }

  ghost predicate PlanIsSnapshot(db: Db, plan: Plan) {
    plan.legacy == [] && SnapshotOf(db.rollups, plan.rollups)
  }

  ghost predicate TablesOk(s: Sys) {
    && Lockstep(s.db, s.minted)
    && BatchesOk(s.db)
    && forall p :: 0 <= p < |s.plans| ==> PlanIsSnapshot(s.db, s.plans[p])
  }

  /** How a statement may change the tables. */
  ghost predicate Kept(db: Db, db': Db, minted': seq<set<EarningId>>) {
    && Lockstep(db', minted') && BatchesOk(db')
    && |db.rollups| <= |db'.rollups|
    && forall r :: 0 <= r < |db.rollups| ==> db'.rollups[r].count == db.rollups[r].count
  }

  lemma KeptChain(a: Db, b: Db, c: Db, minted: seq<set<EarningId>>, minted': seq<set<EarningId>>)
    requires Kept(a, b, minted) && Kept(b, c, minted')
    ensures Kept(a, c, minted')
  {
  }

  lemma TablesStep(s: Sys, s': Sys)
    requires TablesOk(s) && Kept(s.db, s'.db, s'.minted) && s'.plans == s.plans
    ensures TablesOk(s')
  {
    forall p | 0 <= p < |s'.plans| ensures PlanIsSnapshot(s'.db, s'.plans[p]) {
      assert PlanIsSnapshot(s.db, s.plans[p]);
    }
  }

  // ---------- rows added ----------

  lemma RollUpKept(s: Sys, ids: seq<EarningId>, cfg: Selection.Config, maxRollups: int, now: int)
    requires TablesOk(s) && InRange(ids, |s.db.earnings|)
    ensures var r := CreateRollups(s.db, ids, cfg, maxRollups, now);
      r.Committed? ==> Kept(s.db, r.db, s.minted + MintedBy(Selected(s.db, ids, cfg, maxRollups, now)))
  {
    SelectedDescribe(s.db, ids, cfg, maxRollups, now);
    AttachAllKeeps(s.db, s.minted, Selected(s.db, ids, cfg, maxRollups, now));
  }

  // ---------- groups of rollups moved with their members ----------

  lemma GroupKept(db: Db, db': Db, w: RollupWhere, we: EarningWhere, rd: RollupData, ed: EarningData,
                  minted: seq<set<EarningId>>)
    requires Lockstep(db, minted) && BatchesOk(db) && MovesGroup(db, db', w, we, rd, ed)
    requires !rd.ClaimRollup? && db'.batches == db.batches
    ensures Kept(db, db', minted)
  {
    MoveKeepsLockstep(db, db', w, we, rd, ed, minted);
    SubmittedMoveKeepsBatches(db, db', w, we, rd, ed);
  }

  lemma BatchGroupKept(db: Db, minted: seq<set<EarningId>>, b: BatchId, rd: RollupData, ed: EarningData)
    requires Lockstep(db, minted) && BatchesOk(db) && Matched(rd, ed) && !rd.ClaimRollup?
    ensures Kept(db, db.(rollups := UpdateRollups(db.rollups, RollupsOfBatch(b, Submitted), rd),
                         earnings := UpdateEarnings(db.earnings, OfBatch(b, Submitted), ed)), minted)
  {
    var w, we := RollupsOfBatch(b, Submitted), OfBatch(b, Submitted);
    var db' := db.(rollups := UpdateRollups(db.rollups, w, rd), earnings := UpdateEarnings(db.earnings, we, ed));
    FiltersAgree(db, minted, {}, b, Submitted);
    GroupKept(db, db', w, we, rd, ed, minted);
  }

  /** A batch row may be confirmed only when all its rollups are. */
  lemma StatusesKept(db: Db, minted: seq<set<EarningId>>, batches: seq<Batch>)
    requires Lockstep(db, minted) && BatchesOk(db) && |batches| == |db.batches|
    requires BatchesOk(db.(batches := batches))
    ensures Kept(db, db.(batches := batches), minted)
  {
    SetBatchKeeps(db, minted, batches);
  }

  lemma RevertKept(db: Db, minted: seq<set<EarningId>>, b: BatchId)
    requires Lockstep(db, minted) && BatchesOk(db) && b < |db.batches|
    ensures Kept(db, RevertBatch(db, b), minted)
  {
    var mid := RevertBatch(db, b).(batches := db.batches);
    BatchGroupKept(db, minted, b, FailRollup, Requeue);
    StatusesKept(mid, minted, RevertBatch(db, b).batches);
    KeptChain(db, mid, RevertBatch(db, b), minted, minted);
  }

  lemma RecordKept(db: Db, minted: seq<set<EarningId>>, b: BatchId, t: TxId)
    requires Lockstep(db, minted) && BatchesOk(db) && b < |db.batches|
    ensures Kept(db, RecordSubmission(db, b, t), minted)
  {
    var mid := RecordSubmission(db, b, t).(batches := db.batches);
    BatchGroupKept(db, minted, b, SetRollupTx(t), SetTx(t));
    StatusesKept(mid, minted, RecordSubmission(db, b, t).batches);
    KeptChain(db, mid, RecordSubmission(db, b, t), minted, minted);
  }

  lemma MarkConfirmedKept(db: Db, minted: seq<set<EarningId>>, b: BatchId)
    requires Lockstep(db, minted) && BatchesOk(db) && b < |db.batches|
    ensures Kept(db, MarkBatchConfirmed(db, b), minted)
  {
    var mid := MarkBatchConfirmed(db, b).(batches := db.batches);
    BatchGroupKept(db, minted, b, ConfirmRollup, Confirm);
    forall r | 0 <= r < |mid.rollups| && mid.rollups[r].batch == Some(b) ensures mid.rollups[r].status == Confirmed {
      assert RollupOk(db, minted, r) && RollupOk(mid, minted, r);
    }
    StatusesKept(mid, minted, MarkBatchConfirmed(db, b).batches);
    KeptChain(db, mid, MarkBatchConfirmed(db, b), minted, minted);
  }

  lemma ClaimKept(db: Db, minted: seq<set<EarningId>>, selection: seq<RollupId>)
    requires Lockstep(db, minted) && BatchesOk(db)
    ensures ClaimBatch(db, selection).Committed? ==> Kept(db, ClaimBatch(db, selection).db, minted)
  {
    ClaimKeeps(db, minted, selection);
    if ClaimBatch(db, selection).Committed? {
      var db' := ClaimBatch(db, selection).db;
      forall b, r | 0 <= b < |db'.batches| && 0 <= r < |db'.rollups|
          && db'.batches[b].status == BatchConfirmed && db'.rollups[r].batch == Some(b)
        ensures db'.rollups[r].status == Confirmed
      {
        assert b < |db.batches| && db'.batches[b] == db.batches[b];
      }
    }
  }

  // ---------- reconcile ----------

  lemma MoveKept(db: Db, minted: seq<set<EarningId>>, ids: seq<RollupId>, n: nat, rd: RollupData, ed: EarningData)
    requires Lockstep(db, minted) && BatchesOk(db) && Matched(rd, ed) && !rd.ClaimRollup?
    ensures MoveRollups(db, ids, n, rd, ed).Committed? ==> Kept(db, MoveRollups(db, ids, n, rd, ed).db, minted)
  {
    FiltersAgree(db, minted, SetOf(ids), 0, Submitted);
    if ids != [] && MoveRollups(db, ids, n, rd, ed).Committed? {
      GroupKept(db, MoveRollups(db, ids, n, rd, ed).db, RollupIds(SetOf(ids), Submitted),
                OfRollups(SetOf(ids), Submitted), rd, ed, minted);
    }
  }

  lemma BatchesDerivedKept(db: Db, minted: seq<set<EarningId>>, rows: seq<PlanRow>)
    requires Lockstep(db, minted) && BatchesOk(db)
    ensures Kept(db, db.(batches := UpdateBatches(db, rows)), minted)
  {
    var batches := UpdateBatches(db, rows);
    forall b, r | 0 <= b < |batches| && 0 <= r < |db.rollups| && batches[b].status == BatchConfirmed
        && db.rollups[r].batch == Some(b)
      ensures db.rollups[r].status == Confirmed
    {
      if NextBatchStatus(db, b, RequeuedIn(rows, b)) == Some(BatchConfirmed) {
        DerivedConfirmed(db, b, RequeuedIn(rows, b), r);
      }
    }
    StatusesKept(db, minted, batches);
  }

  lemma PlanKept(db: Db, minted: seq<set<EarningId>>, plan: Plan)
    requires Lockstep(db, minted) && BatchesOk(db) && plan.legacy == []
    ensures CommitPlan(db, plan).Committed? ==> Kept(db, CommitPlan(db, plan).db, minted)
  {
    var confirm, requeue := IdsWith(plan.rollups, ToConfirm), IdsWith(plan.rollups, ToRequeue);
    var n, m := CountsWith(plan.rollups, ToConfirm), CountsWith(plan.rollups, ToRequeue);
    MoveKept(db, minted, confirm, n, ConfirmRollup, Confirm);
    var o1 := MoveRollups(db, confirm, n, ConfirmRollup, Confirm);
    if o1.Committed? {
      MoveKept(o1.db, minted, requeue, m, FailRollup, Requeue);
      var o2 := MoveRollups(o1.db, requeue, m, FailRollup, Requeue);
      if o2.Committed? {
        BatchesDerivedKept(o2.db, minted, plan.rollups + plan.legacy);
        KeptChain(db, o1.db, o2.db, minted, minted);
        KeptChain(db, o2.db, CommitPlan(db, plan).db, minted, minted);
      }
    }
  }

  lemma ReadKept(s: Sys, ev: Event)
    requires TablesOk(s) && ev.ReadReconcile?
    ensures TablesOk(Next(s, ev))
  {
    var s' := Next(s, ev);
    if s' != s {
      NoLegacyRows(s.db, s.minted);
      NothingFrom(ev.legacy, LegacySubmitted(s.db));
      SetOfSize(ev.rollups);
      assert PlanIsSnapshot(s.db, PlanFor(s.db, ev.rollups, ev.legacy));
    }
  }

  lemma DecideKept(s: Sys, ev: Event)
    requires TablesOk(s) && ev.ReadChain?
    ensures TablesOk(Next(s, ev))
  {
    if ev.plan < |s.plans| {
      assert PlanIsSnapshot(s.db, s.plans[ev.plan]);
      assert PlanIsSnapshot(s.db, DecideRow(s, s.plans[ev.plan], ev));
    }
  }

  // ---------- every event ----------

  lemma SubmitKept(s: Sys, ev: Event)
    requires TablesOk(s) && SubmitEvent(ev)
    ensures TablesOk(Next(s, ev))
  {
    var b := ev.batch;
    if StageIs(s, b) {
      RevertKept(s.db, s.minted, b);
      MarkConfirmedKept(s.db, s.minted, b);
      if s.stage[b].Broadcast? {
        RecordKept(s.db, s.minted, b, s.stage[b].tx);
      }
    }
    TablesStep(s, Next(s, ev));
  }

  lemma NextKeepsTables(s: Sys, ev: Event)
    requires TablesOk(s)
    ensures TablesOk(Next(s, ev))
  {
    match ev
    case NewEarning(id, merchant, amounts, createdAt) =>
      if amounts.fee + amounts.net == amounts.gross {
        NewEarningKeeps(s.db, s.minted, Earning(id, merchant, amounts, createdAt, Pending, None, None, None));
        TablesStep(s, Next(s, ev));
      }
    case RollUp(ids, cfg, maxRollups, now) =>
      if InRange(ids, |s.db.earnings|) && CreateRollups(s.db, ids, cfg, maxRollups, now).Committed? {
        RollUpKept(s, ids, cfg, maxRollups, now);
        TablesStep(s, Next(s, ev));
      }
    case Claim(selection) =>
      ClaimKept(s.db, s.minted, selection);
      TablesStep(s, Next(s, ev));
    case LandTx(_) => TablesStep(s, Next(s, ev));
    case RevertTx(_) => TablesStep(s, Next(s, ev));
    case DropTx(_) => TablesStep(s, Next(s, ev));
    case ReadReconcile(_, _) => ReadKept(s, ev);
    case ReadChain(_, _, _, _, _, _, _) => DecideKept(s, ev);
    case WriteReconcile(p) =>
      if p < |s.plans| {
        assert PlanIsSnapshot(s.db, s.plans[p]);
        PlanKept(s.db, s.minted, s.plans[p]);
      }
      TablesStep(s, Next(s, ev));
    case _ => SubmitKept(s, ev);
  }

  lemma {:induction false} TablesAlways(events: seq<Event>)
    ensures TablesOk(Exec(INIT, events))
  {
    if events != [] {
      var init := events[..|events| - 1];
      TablesAlways(init);
      NextKeepsTables(Exec(INIT, init), events[|events| - 1]);
    }
  }

  /**
   Lockstep in every reachable state, whenever transactions land: an attached earning has its rollup's status,
   batch and transaction; a live rollup's gross, fee, net and count are those of its members; a failed rollup has
   none; nothing is submitted without a rollup; and a confirmed batch has no rollup that is not confirmed.
   */
  lemma LockstepAlways(events: seq<Event>)
    ensures Lockstep(Exec(INIT, events).db, Exec(INIT, events).minted)
    ensures LegacySubmitted(Exec(INIT, events).db) == {}
    ensures BatchesOk(Exec(INIT, events).db)
  {
    TablesAlways(events);
    NoLegacyRows(Exec(INIT, events).db, Exec(INIT, events).minted);
  }

  // ---------- when a reconcile write is refused ----------

  lemma OneMoreId(rs: seq<Rollup>, ids: seq<RollupId>, id: RollupId)
    requires Distinct(ids) && InRange(ids, |rs|) && id < |rs| && id !in ids
    ensures Distinct(ids + [id]) && InRange(ids + [id], |rs|)
    ensures SumCounts(rs, SetOf(ids + [id])) == SumCounts(rs, SetOf(ids)) + rs[id].count
  {
    assert SetOf(ids + [id]) == SetOf(ids) + {id};
    SumCountsInsert(rs, SetOf(ids), id);
  }

  lemma {:induction false} CountsAreSnapshot(rs: seq<Rollup>, rows: seq<PlanRow>, o: ReconcileOutcome)
    requires SnapshotOf(rs, rows)
    ensures Distinct(IdsWith(rows, o)) && InRange(IdsWith(rows, o), |rs|)
    ensures CountsWith(rows, o) == SumCounts(rs, SetOf(IdsWith(rows, o)))
  {
    if rows == [] {
      assert SetOf(IdsWith(rows, o)) == {};
      SumCountsEmpty(rs);
    } else {
      var init, row := rows[..|rows| - 1], rows[|rows| - 1];
      CountsAreSnapshot(rs, init, o);
      if row.outcome == o {
        IdsWithFacts(init, o);
        OneMoreId(rs, IdsWith(init, o), row.id);
      } else {
        assert IdsWith(rows, o) == IdsWith(init, o);
      }
    }
  }

  lemma {:induction false} SumCountsEmpty(rs: seq<Rollup>)
    ensures SumCounts(rs, {}) == 0
  {
    if rs != [] {
      SumCountsEmpty(rs[..|rs| - 1]);
    }
  }

  lemma {:induction false} SumCountsInsert(rs: seq<Rollup>, ids: set<RollupId>, r: RollupId)
    requires r < |rs| && r !in ids
    ensures SumCounts(rs, ids + {r}) == SumCounts(rs, ids) + rs[r].count
  {
    var last := |rs| - 1;
    if r < last {
      SumCountsInsert(rs[..last], ids, r);
    } else {
      SumCountsOutside(rs[..last], ids, r);
    }
  }

  lemma {:induction false} SumCountsOutside(rs: seq<Rollup>, ids: set<RollupId>, r: RollupId)
    requires r >= |rs|
    ensures SumCounts(rs, ids + {r}) == SumCounts(rs, ids)
  {
    if rs != [] {
      SumCountsOutside(rs[..|rs| - 1], ids, r);
    }
  }

  /** One guarded bulk move goes through exactly when all its rollups are still submitted. */
  lemma MoveRefusedIff(db: Db, minted: seq<set<EarningId>>, rows: seq<PlanRow>, o: ReconcileOutcome, rd: RollupData,
                       ed: EarningData)
    requires Lockstep(db, minted) && SnapshotOf(db.rollups, rows)
    ensures MoveRollups(db, IdsWith(rows, o), CountsWith(rows, o), rd, ed).Committed?
       <==> forall k :: 0 <= k < |rows| && rows[k].outcome == o ==> db.rollups[rows[k].id].status == Submitted
  {
    var ids := IdsWith(rows, o);
    CountsAreSnapshot(db.rollups, rows, o);
    IdsWithFacts(rows, o);
    CountGuardMeans(db.rollups, ids, Submitted);
    if |RollupHits(db.rollups, RollupIds(SetOf(ids), Submitted))| == |ids| {
      MemberCountMatches(db, minted, SetOf(ids), Submitted);
    }
    forall k | 0 <= k < |rows| && rows[k].outcome == o ensures rows[k].id in ids {}
  }

  /**
   In every run the write half of a reconcile is rolled back exactly when some rollup it decided about has left
   the submitted state since it was read; otherwise all of it is applied.
   */
  lemma ReconcileRefusedIff(events: seq<Event>, p: nat)
    requires p < |Exec(INIT, events).plans|
    ensures var s := Exec(INIT, events);
      CommitPlan(s.db, s.plans[p]).Committed? <==> StillAsRead(s.db, s.plans[p])
  {
    var s := Exec(INIT, events);
    TablesAlways(events);
    assert PlanIsSnapshot(s.db, s.plans[p]);
    PlanRefusedIff(s.db, s.minted, s.plans[p]);
  }

  /** Every rollup that is to be confirmed or requeued is still submitted. */
  ghost predicate StillAsRead(db: Db, plan: Plan) {
    forall k :: 0 <= k < |plan.rollups| && plan.rollups[k].outcome != KeepSubmitted ==>
      plan.rollups[k].id < |db.rollups| && db.rollups[plan.rollups[k].id].status == Submitted
  }

  /** Confirming some rows of the list leaves the others as they are. */
  lemma ConfirmLeavesOthers(db: Db, minted: seq<set<EarningId>>, rows: seq<PlanRow>)
    requires Lockstep(db, minted) && SnapshotOf(db.rollups, rows)
    ensures var o := MoveRollups(db, IdsWith(rows, ToConfirm), CountsWith(rows, ToConfirm), ConfirmRollup, Confirm);
      o.Committed? ==>
        && Lockstep(o.db, minted) && SnapshotOf(o.db.rollups, rows)
        && forall k :: 0 <= k < |rows| && rows[k].outcome == ToRequeue ==>
             o.db.rollups[rows[k].id] == db.rollups[rows[k].id]
  {
    MoveRollupsKeeps(db, minted, IdsWith(rows, ToConfirm), CountsWith(rows, ToConfirm), ConfirmRollup, Confirm);
    IdsWithFacts(rows, ToConfirm);
    forall k | 0 <= k < |rows| && rows[k].outcome == ToRequeue ensures rows[k].id !in IdsWith(rows, ToConfirm) {
    }
  }

  lemma NothingLegacy(db: Db)
    ensures MoveLegacy(db, IdsWith([], ToConfirm), Confirm) == Committed(db)
    ensures MoveLegacy(db, IdsWith([], ToRequeue), RequeueLegacy) == Committed(db)
  {
  }

  lemma PlanRefusedIff(db: Db, minted: seq<set<EarningId>>, plan: Plan)
    requires Lockstep(db, minted) && PlanIsSnapshot(db, plan)
    ensures CommitPlan(db, plan).Committed? <==> StillAsRead(db, plan)
  {
    var rows := plan.rollups;
    MoveRefusedIff(db, minted, rows, ToConfirm, ConfirmRollup, Confirm);
    ConfirmLeavesOthers(db, minted, rows);
    var o1 := MoveRollups(db, IdsWith(rows, ToConfirm), CountsWith(rows, ToConfirm), ConfirmRollup, Confirm);
    if o1.Committed? {
      MoveRefusedIff(o1.db, minted, rows, ToRequeue, FailRollup, Requeue);
      var o2 := MoveRollups(o1.db, IdsWith(rows, ToRequeue), CountsWith(rows, ToRequeue), FailRollup, Requeue);
      if o2.Committed? {
        NothingLegacy(o2.db);
      }
    }
  }
}
