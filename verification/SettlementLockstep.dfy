/**
 Lockstep: whatever the settlement transactions do, and in whatever order, an earning attached to a
 rollup carries that rollup's status, batch and transaction, and a live rollup's totals are the sums
 over its members.
 */
module SettlementLockstep {
  import opened Common
  import opened SettlementState
  import opened SettlementSteps
  import Selection = RollupSelection

  ghost predicate EarningOk(db: Db, i: EarningId)
    requires i < |db.earnings|
  {
    var e := db.earnings[i];
    && e.amounts.fee + e.amounts.net == e.amounts.gross
    && match e.rollup
       case None => e.status == Pending && e.batch == None && e.tx == None
       case Some(r) =>
         && r < |db.rollups|
         && e.status == db.rollups[r].status
         && e.batch == db.rollups[r].batch
         && e.tx == db.rollups[r].tx
         && e.merchant == db.rollups[r].merchant
  }

  /** `minted[r]` is the set of earnings rollup r was created from. */
  ghost predicate RollupOk(db: Db, minted: seq<set<EarningId>>, r: RollupId)
    requires r < |db.rollups| == |minted|
  {
    var x := db.rollups[r];
    && (x.status == Failed ==> Members(db.earnings, r) == {})
    && (x.status != Failed ==>
          && Members(db.earnings, r) == minted[r]
          && SumOver(db.earnings, minted[r]) == x.amounts
          && |minted[r]| == x.count > 0)
    && (x.status in {Pending, Failed} ==> x.batch == None && x.tx == None)
    && (x.status in {Submitted, Confirmed} ==> x.batch.Some? && x.batch.value < |db.batches|)
    && x.amounts.fee + x.amounts.net == x.amounts.gross
  }

  ghost predicate Lockstep(db: Db, minted: seq<set<EarningId>>) {
    && |minted| == |db.rollups|
    && (forall i :: 0 <= i < |db.earnings| ==> EarningOk(db, i))
    && (forall r :: 0 <= r < |db.rollups| ==> RollupOk(db, minted, r))
  }

  /** Under lockstep there is no submitted earning without a rollup. */
  lemma NoLegacyRows(db: Db, minted: seq<set<EarningId>>)
    requires Lockstep(db, minted)
    ensures LegacySubmitted(db) == {}
  {
    forall i | 0 <= i < |db.earnings| ensures db.earnings[i].rollup == None ==> db.earnings[i].status != Submitted {
      assert EarningOk(db, i);
    }
  }

  /** A new earning belongs to no rollup. */
  lemma NewEarningKeeps(db: Db, minted: seq<set<EarningId>>, e: Earning)
    requires Lockstep(db, minted) && e.amounts.fee + e.amounts.net == e.amounts.gross
    requires e.status == Pending && e.rollup == None && e.batch == None && e.tx == None
    ensures Lockstep(db.(earnings := db.earnings + [e]), minted)
  {
    var db' := db.(earnings := db.earnings + [e]);
    forall i | 0 <= i < |db'.earnings| ensures EarningOk(db', i) {
      if i < |db.earnings| {
        assert EarningOk(db, i);
      }
    }
    forall r | 0 <= r < |db'.rollups| ensures RollupOk(db', minted, r) {
      assert RollupOk(db, minted, r);
      assert Members(db'.earnings, r) == Members(db.earnings, r);
      if db.rollups[r].status != Failed {
        SumOverFrame(db.earnings, db'.earnings, minted[r]);
      }
    }
  }

  // ---------- moving a group of rollups with their members ----------

  predicate Matched(rd: RollupData, ed: EarningData) {
    match rd
    case ClaimRollup(b) => ed == ClaimFor(b)
    case SetRollupTx(t) => ed == SetTx(t)
    case ConfirmRollup => ed == Confirm
    case FailRollup => ed == Requeue
  }

  function StatusBefore(rd: RollupData): Status {
    if rd.ClaimRollup? then Pending else Submitted
  }

  /** `db'` is `db` with one group of rollups and exactly the earnings attached to them rewritten. */
  ghost predicate MovesGroup(db: Db, db': Db, w: RollupWhere, we: EarningWhere, rd: RollupData, ed: EarningData) {
    && Matched(rd, ed)
    && db'.rollups == UpdateRollups(db.rollups, w, rd)
    && db'.earnings == UpdateEarnings(db.earnings, we, ed)
    && EarningHits(db.earnings, we) == AttachedTo(db.earnings, RollupHits(db.rollups, w))
    && |db.batches| <= |db'.batches|
    && (rd.ClaimRollup? ==> rd.batch < |db'.batches|)
    && (forall r :: r in RollupHits(db.rollups, w) ==> db.rollups[r].status == StatusBefore(rd))
  }

  lemma MovedEarning(db: Db, db': Db, w: RollupWhere, we: EarningWhere, rd: RollupData, ed: EarningData,
                     minted: seq<set<EarningId>>, i: EarningId)
    requires MovesGroup(db, db', w, we, rd, ed)
    requires Lockstep(db, minted) && i < |db.earnings|
    ensures EarningOk(db', i)
  {
    assert EarningOk(db, i);
    var e := db.earnings[i];
    assert EarningMatches(we, i, e) <==> i in EarningHits(db.earnings, we);
    if e.rollup.Some? {
      var r := e.rollup.value;
      assert RollupMatches(w, r, db.rollups[r]) <==> r in RollupHits(db.rollups, w);
      assert i in EarningHits(db.earnings, we) <==> r in RollupHits(db.rollups, w);
    }
  }

  lemma MovedMembers(db: Db, db': Db, w: RollupWhere, we: EarningWhere, rd: RollupData, ed: EarningData, r: RollupId)
    requires MovesGroup(db, db', w, we, rd, ed)
    ensures Members(db'.earnings, r)
         == if ed == Requeue && r in RollupHits(db.rollups, w) then {} else Members(db.earnings, r)
  {
    var hits := EarningHits(db.earnings, we);
    forall i | 0 <= i < |db.earnings|
      ensures db'.earnings[i].rollup == if ed == Requeue && i in hits then None else db.earnings[i].rollup
    {
      assert EarningMatches(we, i, db.earnings[i]) <==> i in hits;
    }
    assert forall i :: 0 <= i < |db.earnings| && db.earnings[i].rollup == Some(r) ==>
        (i in hits <==> r in RollupHits(db.rollups, w));
  }

  lemma MovedRollup(db: Db, db': Db, w: RollupWhere, we: EarningWhere, rd: RollupData, ed: EarningData,
                    minted: seq<set<EarningId>>, r: RollupId)
    requires MovesGroup(db, db', w, we, rd, ed)
    requires Lockstep(db, minted) && r < |db.rollups|
    ensures RollupOk(db', minted, r)
  {
    assert RollupOk(db, minted, r);
    assert RollupMatches(w, r, db.rollups[r]) <==> r in RollupHits(db.rollups, w);
    MovedMembers(db, db', w, we, rd, ed, r);
    if db.rollups[r].status != Failed {
      SumOverFrame(db.earnings, db'.earnings, minted[r]);
    }
  }

  lemma MoveKeepsLockstep(db: Db, db': Db, w: RollupWhere, we: EarningWhere, rd: RollupData, ed: EarningData,
                          minted: seq<set<EarningId>>)
    requires MovesGroup(db, db', w, we, rd, ed)
    requires Lockstep(db, minted)
    ensures Lockstep(db', minted)
  {
    forall i | 0 <= i < |db'.earnings| ensures EarningOk(db', i) {
      MovedEarning(db, db', w, we, rd, ed, minted, i);
    }
    forall r | 0 <= r < |db'.rollups| ensures RollupOk(db', minted, r) {
      MovedRollup(db, db', w, we, rd, ed, minted, r);
    }
  }

  /** The two filters of one statement pair pick matching rows: by rollup ids, and by batch. */
  lemma FiltersAgree(db: Db, minted: seq<set<EarningId>>, ids: set<RollupId>, b: BatchId, st: Status)
    requires Lockstep(db, minted)
    ensures EarningHits(db.earnings, OfRollups(ids, st))
         == AttachedTo(db.earnings, RollupHits(db.rollups, RollupIds(ids, st)))
    ensures st == Submitted ==>
        EarningHits(db.earnings, OfBatch(b, st))
            == AttachedTo(db.earnings, RollupHits(db.rollups, RollupsOfBatch(b, st)))
  {
    forall i | 0 <= i < |db.earnings|
      ensures EarningMatches(OfRollups(ids, st), i, db.earnings[i])
         <==> i in AttachedTo(db.earnings, RollupHits(db.rollups, RollupIds(ids, st)))
      ensures st == Submitted ==> (EarningMatches(OfBatch(b, st), i, db.earnings[i])
         <==> i in AttachedTo(db.earnings, RollupHits(db.rollups, RollupsOfBatch(b, st))))
    {
      assert EarningOk(db, i);
    }
  }

  /** When every listed rollup still has the status read earlier, the member count is the expected one. */
  lemma MemberCountMatches(db: Db, minted: seq<set<EarningId>>, ids: set<RollupId>, st: Status)
    requires Lockstep(db, minted) && st != Failed
    requires RollupHits(db.rollups, RollupIds(ids, st)) == ids
    ensures |EarningHits(db.earnings, OfRollups(ids, st))| == SumCounts(db.rollups, ids)
  {
    FiltersAgree(db, minted, ids, 0, st);
    forall r | r in ids && r < |db.rollups| ensures |Members(db.earnings, r)| == db.rollups[r].count {
      assert RollupOk(db, minted, r);
      assert RollupMatches(RollupIds(ids, st), r, db.rollups[r]);
    }
    CountAttached(db.earnings, db.rollups, ids);
    assert Below(ids, |db.rollups|) == ids;
  }

  /** A row count equal to the length of the id list means: no repeats, and every id matched. */
  lemma CountGuardMeans(rs: seq<Rollup>, ids: seq<RollupId>, st: Status)
    ensures |RollupHits(rs, RollupIds(SetOf(ids), st))| == |ids|
       <==> Distinct(ids) && (forall r :: r in ids ==> r < |rs| && rs[r].status == st)
    ensures |RollupHits(rs, RollupIds(SetOf(ids), st))| == |ids| ==>
            RollupHits(rs, RollupIds(SetOf(ids), st)) == SetOf(ids)
  {
    var hits := RollupHits(rs, RollupIds(SetOf(ids), st));
    SetOfSize(ids);
    SubsetSize(hits, SetOf(ids));
    if |hits| == |ids| {
      forall r | r in ids ensures r < |rs| && rs[r].status == st {
        assert r in SetOf(ids);
      }
    }
    if Distinct(ids) && (forall r :: r in ids ==> r < |rs| && rs[r].status == st) {
      assert hits == SetOf(ids);
    }
  }

  // ---------- the transactions ----------

  lemma SetBatchKeeps(db: Db, minted: seq<set<EarningId>>, batches: seq<Batch>)
    requires Lockstep(db, minted)
    requires |batches| >= |db.batches|
    ensures Lockstep(db.(batches := batches), minted)
  {
    var db' := db.(batches := batches);
    forall i | 0 <= i < |db.earnings| ensures EarningOk(db', i) {
      assert EarningOk(db, i);
    }
    forall r | 0 <= r < |db.rollups| ensures RollupOk(db', minted, r) {
      assert RollupOk(db, minted, r);
    }
  }

  lemma RevertKeeps(db: Db, minted: seq<set<EarningId>>, b: BatchId)
    requires Lockstep(db, minted) && b < |db.batches|
    ensures Lockstep(RevertBatch(db, b), minted)
  {
    FiltersAgree(db, minted, {}, b, Submitted);
    var w, we := RollupsOfBatch(b, Submitted), OfBatch(b, Submitted);
    MoveKeepsLockstep(db, RevertBatch(db, b), w, we, FailRollup, Requeue, minted);
  }

  lemma MarkConfirmedKeeps(db: Db, minted: seq<set<EarningId>>, b: BatchId)
    requires Lockstep(db, minted) && b < |db.batches|
    ensures Lockstep(MarkBatchConfirmed(db, b), minted)
  {
    FiltersAgree(db, minted, {}, b, Submitted);
    var w, we := RollupsOfBatch(b, Submitted), OfBatch(b, Submitted);
    MoveKeepsLockstep(db, MarkBatchConfirmed(db, b), w, we, ConfirmRollup, Confirm, minted);
  }

  lemma ClaimKeeps(db: Db, minted: seq<set<EarningId>>, sel: seq<RollupId>)
    requires Lockstep(db, minted)
    ensures ClaimBatch(db, sel).Committed? ==> Lockstep(ClaimBatch(db, sel).db, minted)
  {
    FiltersAgree(db, minted, SetOf(sel), 0, Pending);
    if ClaimBatch(db, sel).Committed? {
      MoveKeepsLockstep(db, ClaimBatch(db, sel).db, RollupIds(SetOf(sel), Pending), OfRollups(SetOf(sel), Pending),
                        ClaimRollup(|db.batches|), ClaimFor(|db.batches|), minted);
    }
  }

  lemma {:induction false} SumCountsFrame(rs: seq<Rollup>, rs': seq<Rollup>, s: set<RollupId>)
    requires |rs| == |rs'|
    requires forall r :: 0 <= r < |rs| ==> rs'[r].count == rs[r].count
    ensures SumCounts(rs', s) == SumCounts(rs, s)
  {
    if rs != [] {
      SumCountsFrame(rs[..|rs| - 1], rs'[..|rs| - 1], s);
    }
  }

  /** Claiming is refused exactly when the selection repeats an id or holds a rollup that is no longer pending. */
  lemma ClaimRefusedIff(db: Db, minted: seq<set<EarningId>>, sel: seq<RollupId>)
    requires Lockstep(db, minted)
    ensures ClaimBatch(db, sel).Committed?
       <==> Distinct(sel) && forall r :: r in sel ==> r < |db.rollups| && db.rollups[r].status == Pending
  {
    CountGuardMeans(db.rollups, sel, Pending);
    var where := RollupIds(SetOf(sel), Pending);
    if |RollupHits(db.rollups, where)| == |sel| {
      MemberCountMatches(db, minted, SetOf(sel), Pending);
      SumCountsFrame(db.rollups, UpdateRollups(db.rollups, where, ClaimRollup(|db.batches|)), SetOf(sel));
    }
  }

  lemma MoveRollupsKeeps(db: Db, minted: seq<set<EarningId>>, ids: seq<RollupId>, n: nat, rd: RollupData,
                         ed: EarningData)
    requires Lockstep(db, minted) && Matched(rd, ed) && !rd.ClaimRollup?
    ensures MoveRollups(db, ids, n, rd, ed).Committed? ==> Lockstep(MoveRollups(db, ids, n, rd, ed).db, minted)
  {
    FiltersAgree(db, minted, SetOf(ids), 0, Submitted);
    if ids != [] && MoveRollups(db, ids, n, rd, ed).Committed? {
      MoveKeepsLockstep(db, MoveRollups(db, ids, n, rd, ed).db,
                        RollupIds(SetOf(ids), Submitted), OfRollups(SetOf(ids), Submitted), rd, ed, minted);
    }
  }

  lemma CommitPlanKeeps(db: Db, minted: seq<set<EarningId>>, plan: Plan)
    requires Lockstep(db, minted) && plan.legacy == []
    ensures CommitPlan(db, plan).Committed? ==> Lockstep(CommitPlan(db, plan).db, minted)
  {
    var confirm, requeue := IdsWith(plan.rollups, ToConfirm), IdsWith(plan.rollups, ToRequeue);
    var n, m := CountsWith(plan.rollups, ToConfirm), CountsWith(plan.rollups, ToRequeue);
    MoveRollupsKeeps(db, minted, confirm, n, ConfirmRollup, Confirm);
    var o1 := MoveRollups(db, confirm, n, ConfirmRollup, Confirm);
    if o1.Committed? {
      MoveRollupsKeeps(o1.db, minted, requeue, m, FailRollup, Requeue);
      var o2 := MoveRollups(o1.db, requeue, m, FailRollup, Requeue);
      if o2.Committed? {
        SetBatchKeeps(o2.db, minted, UpdateBatches(o2.db, plan.rollups + plan.legacy));
      }
    }
  }

  // ---------- rollup creation ----------

  /** Candidate `c` describes rows of `es` truthfully. */
  ghost predicate Describes(es: seq<Earning>, c: Selection.Candidate) {
    && InRange(c.earningIds, |es|)
    && c.earningCount == |c.earningIds| > 0
    && c.amounts == SumList(es, c.earningIds)
    && (forall i :: i in c.earningIds ==> es[i].merchant == c.merchant)
  }

  lemma {:induction false} SumListFrame(es: seq<Earning>, es': seq<Earning>, ids: seq<EarningId>)
    requires |es| == |es'| && InRange(ids, |es|)
    requires forall i :: 0 <= i < |es| ==> es'[i].amounts == es[i].amounts
    ensures SumList(es', ids) == SumList(es, ids)
  {
    if ids != [] {
      SumListFrame(es, es', ids[..|ids| - 1]);
    }
  }

  lemma {:induction false} SumListExact(es: seq<Earning>, ids: seq<EarningId>)
    requires InRange(ids, |es|)
    requires forall i :: 0 <= i < |es| ==> es[i].amounts.fee + es[i].amounts.net == es[i].amounts.gross
    ensures SumList(es, ids).fee + SumList(es, ids).net == SumList(es, ids).gross
  {
    if ids != [] {
      SumListExact(es, ids[..|ids| - 1]);
    }
  }

  /** What the attach guard establishes: the ids are distinct and every one was pending and free. */
  lemma AttachGuardMeans(es: seq<Earning>, ids: seq<EarningId>)
    ensures |EarningHits(es, Unattached(SetOf(ids)))| == |ids|
       <==> Distinct(ids) && (forall i :: i in ids ==> i < |es| && es[i].status == Pending && es[i].rollup == None)
    ensures |EarningHits(es, Unattached(SetOf(ids)))| == |ids| ==>
            EarningHits(es, Unattached(SetOf(ids))) == SetOf(ids)
  {
    var hits := EarningHits(es, Unattached(SetOf(ids)));
    SetOfSize(ids);
    SubsetSize(hits, SetOf(ids));
    if |hits| == |ids| {
      forall i | i in ids ensures i < |es| && es[i].status == Pending && es[i].rollup == None {
        assert i in SetOf(ids);
      }
    }
    if Distinct(ids) && (forall i :: i in ids ==> i < |es| && es[i].status == Pending && es[i].rollup == None) {
      assert hits == SetOf(ids);
    }
  }

  lemma AttachedMembers(db: Db, db': Db, c: Selection.Candidate, minted: seq<set<EarningId>>, r: RollupId)
    requires Lockstep(db, minted) && AttachOne(db, c) == Committed(db')
    ensures Members(db'.earnings, r) == if r == |db.rollups| then SetOf(c.earningIds) else Members(db.earnings, r)
  {
    AttachGuardMeans(db.earnings, c.earningIds);
    forall i | 0 <= i < |db.earnings|
      ensures db'.earnings[i].rollup == if i in SetOf(c.earningIds) then Some(|db.rollups|) else db.earnings[i].rollup
    {
      assert i in EarningHits(db.earnings, Unattached(SetOf(c.earningIds)))
        <==> EarningMatches(Unattached(SetOf(c.earningIds)), i, db.earnings[i]);
      assert EarningOk(db, i);
    }
    forall i | 0 <= i < |db.earnings| ensures db.earnings[i].rollup != Some(|db.rollups|) {
      assert EarningOk(db, i);
    }
  }

  lemma AttachOneKeeps(db: Db, db': Db, minted: seq<set<EarningId>>, c: Selection.Candidate)
    requires Lockstep(db, minted) && Describes(db.earnings, c)
    requires AttachOne(db, c) == Committed(db')
    ensures Lockstep(db', minted + [SetOf(c.earningIds)])
  {
    var minted' := minted + [SetOf(c.earningIds)];
    AttachGuardMeans(db.earnings, c.earningIds);
    SetOfSize(c.earningIds);
    forall i | 0 <= i < |db.earnings| ensures EarningOk(db', i) {
      assert EarningOk(db, i);
      assert i in EarningHits(db.earnings, Unattached(SetOf(c.earningIds)))
        <==> EarningMatches(Unattached(SetOf(c.earningIds)), i, db.earnings[i]);
    }
    SumListExact(db.earnings, c.earningIds) by {
      forall i | 0 <= i < |db.earnings|
        ensures db.earnings[i].amounts.fee + db.earnings[i].amounts.net == db.earnings[i].amounts.gross
      {
        assert EarningOk(db, i);
      }
    }
    SumListIsSumOver(db.earnings, c.earningIds);
    forall r | 0 <= r < |db'.rollups| ensures RollupOk(db', minted', r) {
      AttachedMembers(db, db', c, minted, r);
      if r < |db.rollups| {
        assert RollupOk(db, minted, r);
        if db.rollups[r].status != Failed {
          SumOverFrame(db.earnings, db'.earnings, minted[r]);
        }
      } else {
        SumOverFrame(db.earnings, db'.earnings, SetOf(c.earningIds));
      }
    }
  }

  function MintedBy(cs: seq<Selection.Candidate>): seq<set<EarningId>> {
    seq(|cs|, k requires 0 <= k < |cs| => SetOf(cs[k].earningIds))
  }

  /** Creating rollups only appends rollups and attaches free earnings. */
  ghost predicate OnlyAttaches(db: Db, db': Db, cs: seq<Selection.Candidate>) {
    && |db'.earnings| == |db.earnings|
    && db'.batches == db.batches
    && db'.rollups == db.rollups + seq(|cs|, k requires 0 <= k < |cs| => NewRollup(cs[k]))
    && (forall i :: 0 <= i < |db.earnings| ==> EarningKept(db.earnings[i], db'.earnings[i]))
  }

  ghost predicate EarningKept(e: Earning, e': Earning) {
    e' == e || (e.status == Pending && e.rollup == None && e' == e.(rollup := e'.rollup))
  }

  lemma AttachOneOnlyAttaches(db: Db, db1: Db, db2: Db, cs: seq<Selection.Candidate>, c: Selection.Candidate)
    requires OnlyAttaches(db, db1, cs) && AttachOne(db1, c) == Committed(db2)
    ensures OnlyAttaches(db, db2, cs + [c])
  {
    forall i | 0 <= i < |db.earnings| ensures EarningKept(db.earnings[i], db2.earnings[i]) {
      assert EarningKept(db.earnings[i], db1.earnings[i]);
    }
    var added := seq(|cs|, k requires 0 <= k < |cs| => NewRollup(cs[k]));
    var all := cs + [c];
    assert seq(|all|, k requires 0 <= k < |all| => NewRollup(all[k])) == added + [NewRollup(c)];
  }

  lemma DescribesFrame(db: Db, db': Db, cs: seq<Selection.Candidate>, c: Selection.Candidate)
    requires OnlyAttaches(db, db', cs) && Describes(db.earnings, c)
    ensures Describes(db'.earnings, c)
  {
    forall i | 0 <= i < |db.earnings|
      ensures db'.earnings[i].amounts == db.earnings[i].amounts && db'.earnings[i].merchant == db.earnings[i].merchant
    {
      assert EarningKept(db.earnings[i], db'.earnings[i]);
    }
    SumListFrame(db.earnings, db'.earnings, c.earningIds);
  }

  lemma {:induction false} AttachAllKeeps(db: Db, minted: seq<set<EarningId>>, cs: seq<Selection.Candidate>)
    requires Lockstep(db, minted)
    requires forall k :: 0 <= k < |cs| ==> Describes(db.earnings, cs[k])
    ensures AttachAll(db, cs).Committed? ==>
        Lockstep(AttachAll(db, cs).db, minted + MintedBy(cs)) && OnlyAttaches(db, AttachAll(db, cs).db, cs)
  {
    if cs == [] {
      assert minted + MintedBy(cs) == minted;
    } else {
      var init, c := cs[..|cs| - 1], cs[|cs| - 1];
      AttachAllKeeps(db, minted, init);
      if AttachAll(db, cs).Committed? {
        var mid := AttachAll(db, init).db;
        DescribesFrame(db, mid, init, c);
        AttachOneKeeps(mid, AttachAll(db, cs).db, minted + MintedBy(init), c);
        assert minted + MintedBy(init) + [SetOf(c.earningIds)] == minted + MintedBy(cs);
        AttachOneOnlyAttaches(db, mid, AttachAll(db, cs).db, init, c);
        assert init + [c] == cs;
      }
    }
  }

  lemma {:induction false} TotalIsSumList(db: Db, rows: seq<Selection.Row>)
    requires forall k :: 0 <= k < |rows| ==> rows[k].id < |db.earnings| && rows[k] == RowOf(db, rows[k].id)
    ensures InRange(Selection.Ids(rows), |db.earnings|)
    ensures Selection.Total(rows) == SumList(db.earnings, Selection.Ids(rows))
  {
    if rows != [] {
      var init := rows[..|rows| - 1];
      TotalIsSumList(db, init);
      assert Selection.Ids(rows)[..|rows| - 1] == Selection.Ids(init);
    }
  }

  /** Every selected candidate describes the rows it was built from. */
  lemma SelectedDescribe(db: Db, ids: seq<EarningId>, cfg: Selection.Config, maxRollups: int, now: int)
    requires InRange(ids, |db.earnings|)
    ensures forall c :: c in Selected(db, ids, cfg, maxRollups, now) ==> Describes(db.earnings, c)
  {
    var rows := RowsOf(db, ids);
    if cfg.maxEarningsPerRollup > 0 {
      Selection.CandidatesCharacterised(rows, cfg, now);
      forall c | c in Selected(db, ids, cfg, maxRollups, now) ensures Describes(db.earnings, c) {
        assert c in Selection.Candidates(rows, cfg, now);
        var taken := Selection.Taken(Selection.Oldest(rows), c.merchant, cfg.maxEarningsPerRollup);
        Selection.TakenAreOldest(rows, c.merchant, cfg.maxEarningsPerRollup);
        forall k | 0 <= k < |taken| ensures taken[k].id < |db.earnings| && taken[k] == RowOf(db, taken[k].id) {
          assert taken[k] in taken && taken[k] in rows;
        }
        TotalIsSumList(db, taken);
        forall i | i in c.earningIds ensures db.earnings[i].merchant == c.merchant {
          var k :| 0 <= k < |taken| && taken[k].id == i;
          assert taken[k] in taken;
        }
      }
    }
  }

  /** What the locking query of rollup creation returns: distinct earnings that are pending and free. */
  ghost predicate FreeRows(db: Db, ids: seq<EarningId>) {
    && InRange(ids, |db.earnings|)
    && Distinct(ids)
    && (forall i :: i in ids ==> db.earnings[i].status == Pending && db.earnings[i].rollup == None)
  }

  lemma {:induction false} AttachAllCommits(db: Db, minted: seq<set<EarningId>>, cs: seq<Selection.Candidate>)
    requires Lockstep(db, minted)
    requires forall k :: 0 <= k < |cs| ==> Describes(db.earnings, cs[k]) && FreeRows(db, cs[k].earningIds)
    requires forall j, k, i :: 0 <= j < k < |cs| && i in cs[j].earningIds ==> i !in cs[k].earningIds
    ensures AttachAll(db, cs).Committed? && |AttachAll(db, cs).db.earnings| == |db.earnings|
    ensures forall i | 0 <= i < |db.earnings| && (forall k :: 0 <= k < |cs| ==> i !in cs[k].earningIds) ::
        AttachAll(db, cs).db.earnings[i] == db.earnings[i]
  {
    if cs != [] {
      var init, c := cs[..|cs| - 1], cs[|cs| - 1];
      AttachAllKeeps(db, minted, init);
      AttachAllCommits(db, minted, init);
      var mid := AttachAll(db, init).db;
      forall i | i in c.earningIds ensures i < |mid.earnings| && mid.earnings[i] == db.earnings[i] {
        assert forall k :: 0 <= k < |init| ==> i !in init[k].earningIds;
      }
      AttachGuardMeans(mid.earnings, c.earningIds);
    }
  }

  /** On the rows the locking query returns, the attach guard never fires. */
  lemma CreateRollupsCommits(db: Db, minted: seq<set<EarningId>>, ids: seq<EarningId>, cfg: Selection.Config,
                             maxRollups: int, now: int)
    requires Lockstep(db, minted) && FreeRows(db, ids)
    ensures CreateRollups(db, ids, cfg, maxRollups, now).Committed?
  {
    var cs := Selected(db, ids, cfg, maxRollups, now);
    var rows := RowsOf(db, ids);
    SelectedDescribe(db, ids, cfg, maxRollups, now);
    if cfg.maxEarningsPerRollup > 0 {
      Selection.CandidatesAreDisjoint(rows, cfg, now);
      forall k | 0 <= k < |cs| ensures Describes(db.earnings, cs[k]) && FreeRows(db, cs[k].earningIds) {
        var c := cs[k];
        assert c in cs && c in Selection.Candidates(rows, cfg, now);
        CandidateIdsAreRead(db, ids, cfg, now, c);
      }
      AttachAllCommits(db, minted, cs);
    }
  }

  lemma CandidateIdsAreRead(db: Db, ids: seq<EarningId>, cfg: Selection.Config, now: int, c: Selection.Candidate)
    requires InRange(ids, |db.earnings|) && cfg.maxEarningsPerRollup > 0
    requires c in Selection.Candidates(RowsOf(db, ids), cfg, now)
    ensures forall i :: i in c.earningIds ==> i in ids
  {
    var rows := RowsOf(db, ids);
    Selection.CandidatesCharacterised(rows, cfg, now);
    var taken := Selection.Taken(Selection.Oldest(rows), c.merchant, cfg.maxEarningsPerRollup);
    Selection.TakenAreOldest(rows, c.merchant, cfg.maxEarningsPerRollup);
    forall i | i in c.earningIds ensures i in ids {
      var k :| 0 <= k < |taken| && taken[k].id == i;
      assert taken[k] in taken && taken[k] in rows;
      var j :| 0 <= j < |rows| && rows[j] == taken[k];
      assert rows[j].id == ids[j];
    }
  }
}
