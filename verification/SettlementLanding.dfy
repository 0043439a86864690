/**
 The landing hypothesis is needed: wherever a submit call asks the chain while its transaction is still in
 flight, the run can go on to pay an earning twice.
 */
module SettlementLanding {
  import opened Common
  import opened SettlementAmounts
  import opened SettlementState
  import opened SettlementSteps
  import opened SettlementLockstep
  import opened SettlementRun
  import opened SettlementProof
  import opened SettlementTheorems
  import Runs
  import Selection = RollupSelection
  import Sorting

  // ---------- one earning is rolled up ----------

  /** Old enough, an earning is released whatever the fee threshold. */
  function ReleaseTime(db: Db, i: EarningId, cfg: Selection.Config): int
    requires i < |db.earnings|
  {
    db.earnings[i].createdAt + cfg.maxAgeMs
  }

  lemma OneRowGroups(row: Selection.Row, cap: nat)
    requires cap >= 1
    ensures Selection.Oldest([row]) == [row] && Selection.Merchants([row]) == [row.merchant]
    ensures Selection.OfMerchant([row], row.merchant) == [row] && Selection.Taken([row], row.merchant, cap) == [row]
  {
    Sorting.SortSingle(Selection.RowLeq, row);
    assert [row][..0] == [];
    assert Selection.OfMerchant([], row.merchant) == [] && Selection.Merchants([]) == [];
    assert [row][..1] == [row];
  }

  lemma OldEnough(row: Selection.Row, cfg: Selection.Config)
    ensures var c := Selection.CandidateOf(row.merchant, [row], cfg, row.createdAt + cfg.maxAgeMs);
      c.Some? && c.value.earningIds == [row.id]
  {
    assert Selection.Ids([row]) == [row.id];
  }

  lemma OneRowReleased(row: Selection.Row, cfg: Selection.Config) returns (c: Selection.Candidate)
    requires cfg.maxEarningsPerRollup >= 1
    ensures Selection.Candidates([row], cfg, row.createdAt + cfg.maxAgeMs) == [c] && c.earningIds == [row.id]
  {
    var m, now := row.merchant, row.createdAt + cfg.maxAgeMs;
    OneRowGroups(row, cfg.maxEarningsPerRollup);
    OldEnough(row, cfg);
    c := Selection.CandidateOf(m, [row], cfg, now).value;
    Selection.ReleasedStep([row], [m], 0, cfg, now);
    assert [m][..0] == [] && [m][..1] == [m];
    assert Selection.Released([row], [], cfg, now) == [];
    assert Selection.Released([row], [m], cfg, now) == [c];
    Sorting.SortSingle(Selection.CandidateLeq, c);
  }

  lemma OneCandidate(db: Db, i: EarningId, cfg: Selection.Config) returns (c: Selection.Candidate)
    requires i < |db.earnings| && cfg.maxEarningsPerRollup >= 1
    ensures Selected(db, [i], cfg, 1, ReleaseTime(db, i, cfg)) == [c] && c.earningIds == [i]
  {
    c := OneRowReleased(RowOf(db, i), cfg);
    assert RowsOf(db, [i]) == [RowOf(db, i)];
    assert [c][..1] == [c];
  }

  lemma AttachesOne(db: Db, i: EarningId, cfg: Selection.Config, now: int)
    requires cfg.maxEarningsPerRollup >= 1
    requires i < |db.earnings| && db.earnings[i].status == Pending && db.earnings[i].rollup == None
    requires now == ReleaseTime(db, i, cfg)
    ensures var r := CreateRollups(db, [i], cfg, 1, now);
      && r.Committed? && |r.db.rollups| == |db.rollups| + 1 && r.db.rollups[|db.rollups|].status == Pending
      && r.db.batches == db.batches
    ensures MintedBy(Selected(db, [i], cfg, 1, now)) == [{i}]
  {
    var c := OneCandidate(db, i, cfg);
    assert Distinct([i]) && SetOf([i]) == {i};
    AttachGuardMeans(db.earnings, [i]);
    assert [c][..0] == [];
    assert AttachAll(db, []) == Committed(db);
    assert AttachAll(db, [c]) == AttachOne(db, c);
    assert MintedBy([c]) == [{i}];
  }

  /** A free earning gets a new rollup of its own. */
  lemma RollUpOne(s: Sys, i: EarningId, cfg: Selection.Config, now: int)
    requires Inv(s) && cfg.maxEarningsPerRollup >= 1
    requires i < |s.db.earnings| && s.db.earnings[i].status == Pending && s.db.earnings[i].rollup == None
    requires now == ReleaseTime(s.db, i, cfg)
    ensures var s' := Next(s, RollUp([i], cfg, 1, now));
      && Inv(s') && s'.minted == s.minted + [{i}]
      && |s'.db.rollups| == |s.db.rollups| + 1 && s'.db.rollups[|s.db.rollups|].status == Pending
      && s'.claims == s.claims && s'.stage == s.stage && s'.txs == s.txs && s'.db.batches == s.db.batches
  {
    AttachesOne(s.db, i, cfg, now);
    RollUpInv(s, [i], cfg, 1, now);
  }

  // ---------- and settled ----------

  /** A pending rollup is claimed on its own and its transaction sent and landed. */
  function SettleAlone(q: RollupId, b: BatchId, t: TxId): seq<Event> {
    [Claim([q])] + [SendTx(b)] + [LandTx(t)]
  }

  lemma ClaimOne(s: Sys, q: RollupId)
    requires Inv(s) && q < |s.db.rollups| && s.db.rollups[q].status == Pending
    ensures var s' := Next(s, Claim([q]));
      && Inv(s') && s' == s.(db := s'.db, claims := s.claims + [[q]], stage := s.stage + [Claimed])
      && |s'.db.rollups| == |s.db.rollups| && |s'.db.batches| == |s.db.batches| + 1
  {
    NoLegacyRows(s.db, s.minted);
    assert Distinct([q]);
    ClaimRefusedIff(s.db, s.minted, [q]);
    ClaimInv(s, [q]);
  }

  /** A transaction in flight whose call has not thrown yet can land. */
  lemma CanLand(s: Sys, t: TxId)
    requires Inv(s) && t < |s.txs| && s.txs[t].status == InFlight
    ensures var s' := Next(s, LandTx(t));
      && s'.processed == s.processed + SettlementIds(s.txs[t].ids)
      && s'.minted == s.minted && |s'.txs| == |s.txs| && s'.gaveUp == s.gaveUp
      && forall u :: 0 <= u < |s.txs| && u != t ==> s'.txs[u] == s.txs[u]
  {
    var b := s.txs[t].batch;
    var ids := s.txs[t].ids;
    assert forall k :: 0 <= k < |ids| ==> ids[k] in ids && ClaimedBy(s, ids[k], b);
    SetOfSize(ids);
    forall r | r in ids ensures RollupSettlement(r) !in s.processed {
      PaidWithItsBatch(s, r, b);
    }
  }

  lemma PaidWithItsBatch(s: Sys, r: RollupId, b: BatchId)
    requires Inv(s) && ClaimedBy(s, r, b)
    ensures RollupSettlement(r) in s.processed ==> HasLanded(s, b)
  {
    if RollupSettlement(r) in s.processed {
      var c: BatchId :| ClaimedBy(s, r, c) && HasLanded(s, c);
      OneClaim(s, r, b, c);
    }
  }

  lemma SendOne(s: Sys, b: BatchId)
    requires Inv(s) && StageIs(s, b) && s.stage[b] == Claimed
    ensures var s' := Next(s, SendTx(b));
      && Inv(s') && s'.txs == s.txs + [ChainTx(b, s.claims[b], InFlight)]
      && s' == s.(stage := s.stage[b := Broadcast(|s.txs|)], txs := s'.txs)
  {
    SendTxInv(s, b);
  }

  lemma ExecTwo(s: Sys, a: Event, b: Event)
    ensures Exec(s, [a] + [b]) == Next(Next(s, a), b)
  {
    ExecAppend(s, [], a);
    assert [] + [a] == [a];
    ExecAppend(s, [a], b);
  }

  /** Claimed and sent. */
  lemma SentAlone(s: Sys, q: RollupId)
    requires Inv(s) && q < |s.db.rollups| && s.db.rollups[q].status == Pending
    ensures var s' := Exec(s, [Claim([q])] + [SendTx(|s.claims|)]);
      && Inv(s') && s'.minted == s.minted && s'.txs == s.txs + [ChainTx(|s.claims|, [q], InFlight)]
      && |s.txs| !in s'.gaveUp
  {
    var s1 := Next(s, Claim([q]));
    ClaimOne(s, q);
    SendOne(s1, |s.claims|);
    ExecTwo(s, Claim([q]), SendTx(|s.claims|));
  }

  /** A pending rollup can be settled whatever else is going on; other transactions stay as they are. */
  lemma SettledAlone(s: Sys, q: RollupId)
    requires Inv(s) && q < |s.db.rollups| && s.db.rollups[q].status == Pending
    ensures var s' := Exec(s, SettleAlone(q, |s.claims|, |s.txs|));
      && Inv(s') && s'.minted == s.minted && RollupSettlement(q) in s'.processed
      && |s.txs| < |s'.txs| && s'.txs[..|s.txs|] == s.txs
  {
    var b, t := |s.claims|, |s.txs|;
    var s2 := Exec(s, [Claim([q])] + [SendTx(b)]);
    SentAlone(s, q);
    CanLand(s2, t);
    LandTxInv(s2, t);
    assert q in [q] && RollupSettlement(q) in SettlementIds([q]);
    ExecAppend(s, [Claim([q])] + [SendTx(b)], LandTx(t));
  }

  // ---------- a check while the transaction is in flight ----------

  ghost predicate AsksInFlight(s: Sys, b: BatchId) {
    && StageIs(s, b) && s.stage[b].Thrown? && s.stage[b].cause.Some?
    && s.stage[b].cause.value < |s.txs| && s.txs[s.stage[b].cause.value].status == InFlight
  }

  /** Earning i was rolled up into the first rollup of the batch. */
  ghost predicate InFirst(s: Sys, b: BatchId, i: EarningId) {
    && b < |s.claims| && s.claims[b] != [] && s.claims[b][0] < |s.minted|
    && i in s.minted[s.claims[b][0]] && i < |s.db.earnings|
  }

  /** The rollups of such a batch are all still submitted with it. */
  lemma StillSubmitted(s: Sys, b: BatchId, r: RollupId)
    requires Inv(s) && AsksInFlight(s, b) && r in s.claims[b]
    ensures r < |s.db.rollups| && s.db.rollups[r].status == Submitted && s.db.rollups[r].batch == Some(b)
    ensures RollupSettlement(r) !in s.processed
  {
    var t := s.stage[b].cause.value;
    assert ClaimedBy(s, r, b);
    assert LinkOk(s, r) && StageOk(s, b) && RollupOk(s.db, s.minted, r);
    forall c: BatchId | ClaimedBy(s, r, c) ensures c == b && !HasLanded(s, c) && !IsDead(s, c) {
      OneClaim(s, r, b, c);
      assert !Hopeless(s, t);
    }
    OneClaim(s, r, b, s.db.rollups[r].batch.value);
  }

  /** The check reads nothing processed. */
  lemma JudgesUnpaid(s: Sys, b: BatchId)
    requires Inv(s) && AsksInFlight(s, b)
    ensures var s' := Next(s, CheckProcessed(b));
      && Inv(s') && StageIs(s', b) && s'.stage[b] == Judged(false)
      && s' == s.(stage := s'.stage, gaveUp := s'.gaveUp)
  {
    var r := s.claims[b][0];
    StillSubmitted(s, b, r);
    assert RollupSettlement(r) in SettlementIds(s.claims[b]);
    CheckProcessedInv(s, b);
  }

  lemma MemberOfBatch(s: Sys, b: BatchId, i: EarningId)
    requires Inv(s) && AsksInFlight(s, b) && InFirst(s, b, i)
    ensures s.db.earnings[i].status == Submitted && s.db.earnings[i].batch == Some(b)
  {
    var r := s.claims[b][0];
    StillSubmitted(s, b, r);
    assert RollupOk(s.db, s.minted, r) && i in Members(s.db.earnings, r) && EarningOk(s.db, i);
  }

  /** So the batch is reverted, and its earnings are free again. */
  lemma RevertFrees(s: Sys, b: BatchId, i: EarningId)
    requires Inv(s) && StageIs(s, b) && s.stage[b] == Judged(false) && i < |s.db.earnings|
    requires s.db.earnings[i].status == Submitted && s.db.earnings[i].batch == Some(b)
    ensures var s' := Next(s, FinishCatch(b));
      && Inv(s') && s' == s.(db := s'.db, stage := s'.stage)
      && |s'.db.rollups| == |s.db.rollups| && |s'.db.earnings| == |s.db.earnings|
      && s'.db.earnings[i] == s.db.earnings[i].(status := Pending, rollup := None, batch := None, tx := None)
  {
    FinishCatchInv(s, b);
  }

  function CheckAndRevert(b: BatchId): seq<Event> {
    [CheckProcessed(b)] + [FinishCatch(b)]
  }

  lemma RevertsInFlight(s: Sys, b: BatchId, i: EarningId)
    requires Inv(s) && AsksInFlight(s, b) && InFirst(s, b, i)
    ensures var s' := Exec(s, CheckAndRevert(b));
      && Inv(s') && s'.minted == s.minted && s'.claims == s.claims && s'.txs == s.txs
      && |s'.db.rollups| == |s.db.rollups| && |s'.db.earnings| == |s.db.earnings|
      && s'.db.earnings[i].status == Pending && s'.db.earnings[i].rollup == None
      && s'.db.earnings[i].createdAt == s.db.earnings[i].createdAt
  {
    JudgesUnpaid(s, b);
    MemberOfBatch(s, b, i);
    RevertFrees(Next(s, CheckProcessed(b)), b, i);
    ExecTwo(s, CheckProcessed(b), FinishCatch(b));
  }

  /** How such a run goes on: revert, roll the earning up again, settle it, and let the first transaction land. */
  function Reroll(s: Sys, b: BatchId, i: EarningId, cfg: Selection.Config): seq<Event>
    requires i < |s.db.earnings|
  {
    CheckAndRevert(b) + [RollUp([i], cfg, 1, ReleaseTime(s.db, i, cfg))]
  }

  function PayTwice(s: Sys, b: BatchId, i: EarningId, cfg: Selection.Config): seq<Event>
    requires i < |s.db.earnings| && AsksInFlight(s, b)
  {
    (Reroll(s, b, i, cfg) + SettleAlone(|s.db.rollups|, |s.claims|, |s.txs|)) + [LandTx(s.stage[b].cause.value)]
  }

  lemma ExecJoin(s: Sys, a: seq<Event>, b: seq<Event>)
    ensures Exec(s, a + b) == Exec(Exec(s, a), b)
  {
    Runs.FoldJoin(Next, s, a, b);
  }

  /** The earning is pending again in a new rollup, and the chain has not moved. */
  lemma Rerolled(s: Sys, b: BatchId, i: EarningId, cfg: Selection.Config)
    requires Inv(s) && AsksInFlight(s, b) && InFirst(s, b, i) && cfg.maxEarningsPerRollup >= 1
    ensures var s' := Exec(s, Reroll(s, b, i, cfg));
      && Inv(s') && s'.minted == s.minted + [{i}] && s'.claims == s.claims && s'.txs == s.txs
      && |s'.db.rollups| == |s.db.rollups| + 1 && s'.db.rollups[|s.db.rollups|].status == Pending
  {
    var now := ReleaseTime(s.db, i, cfg);
    RevertsInFlight(s, b, i);
    RollUpOne(Exec(s, CheckAndRevert(b)), i, cfg, now);
    ExecAppend(s, CheckAndRevert(b), RollUp([i], cfg, 1, now));
  }

  /** The state before the last step of PayTwice: everything has gone by the hypothesis, and both can be paid. */
  lemma BeforeLast(s: Sys, b: BatchId, i: EarningId, cfg: Selection.Config)
    requires Inv(s) && AsksInFlight(s, b) && InFirst(s, b, i) && cfg.maxEarningsPerRollup >= 1
    ensures var t := s.stage[b].cause.value;
      var s' := Exec(s, Reroll(s, b, i, cfg) + SettleAlone(|s.db.rollups|, |s.claims|, |s.txs|));
      && Inv(s') && t < |s'.txs| && s'.txs[t] == s.txs[t]
      && s'.minted == s.minted + [{i}] && RollupSettlement(|s.db.rollups|) in s'.processed
  {
    var alone := SettleAlone(|s.db.rollups|, |s.claims|, |s.txs|);
    var s2 := Exec(s, Reroll(s, b, i, cfg));
    Rerolled(s, b, i, cfg);
    SettledAlone(s2, |s.db.rollups|);
    ExecJoin(s, Reroll(s, b, i, cfg), alone);
    assert Exec(s2, alone).txs[..|s.txs|][s.stage[b].cause.value] == s.txs[s.stage[b].cause.value];
  }

  /** The earning has been paid with its old rollup and with its new one. */
  lemma PaidTwice(s: Sys, b: BatchId, i: EarningId, cfg: Selection.Config)
    requires Inv(s) && AsksInFlight(s, b) && InFirst(s, b, i) && cfg.maxEarningsPerRollup >= 1
    ensures !PaidAtMostOnce(Exec(s, PayTwice(s, b, i, cfg)))
  {
    var t, r, q := s.stage[b].cause.value, s.claims[b][0], |s.db.rollups|;
    var events := Reroll(s, b, i, cfg) + SettleAlone(q, |s.claims|, |s.txs|);
    BeforeLast(s, b, i, cfg);
    assert StageOk(s, b);
    CanLand(Exec(s, events), t);
    StillSubmitted(s, b, r);
    assert RollupSettlement(r) in SettlementIds(s.txs[t].ids);
    ExecAppend(s, events, LandTx(t));
    var end := Exec(s, events + [LandTx(t)]);
    assert i in end.minted[r] && i in end.minted[q];
  }

  /** The landing hypothesis for every transaction but one. */
  ghost predicate SettledBut(t: TxId, s: Sys, events: seq<Event>) {
    forall n :: 0 <= n < |events| ==> events[n] == LandTx(t) || LandsInTime(Exec(s, events[..n]), events[n])
  }

  lemma ShapeOfPayTwice(s: Sys, b: BatchId, i: EarningId, cfg: Selection.Config)
    requires AsksInFlight(s, b) && i < |s.db.earnings|
    ensures var events := PayTwice(s, b, i, cfg);
      && |events| == 7 && (forall n :: 0 <= n < 5 ==> !events[n].LandTx?)
      && events[5] == LandTx(|s.txs|) && events[6] == LandTx(s.stage[b].cause.value)
      && events[..5] == Reroll(s, b, i, cfg) + ([Claim([|s.db.rollups|])] + [SendTx(|s.claims|)])
  {
    var first, sent := Reroll(s, b, i, cfg), [Claim([|s.db.rollups|])] + [SendTx(|s.claims|)];
    var events := PayTwice(s, b, i, cfg);
    assert |first| == 3 && |sent| == 2;
    assert events == (first + sent) + ([LandTx(|s.txs|)] + [LandTx(s.stage[b].cause.value)]);
    assert forall n :: 0 <= n < 3 ==> events[n] == first[n];
    assert forall n :: 0 <= n < 2 ==> events[n + 3] == sent[n];
  }

  lemma PayTwiceSettles(s: Sys, b: BatchId, i: EarningId, cfg: Selection.Config)
    requires Inv(s) && AsksInFlight(s, b) && InFirst(s, b, i) && cfg.maxEarningsPerRollup >= 1
    ensures SettledBut(s.stage[b].cause.value, s, PayTwice(s, b, i, cfg))
  {
    var first, sent := Reroll(s, b, i, cfg), [Claim([|s.db.rollups|])] + [SendTx(|s.claims|)];
    var events := PayTwice(s, b, i, cfg);
    ShapeOfPayTwice(s, b, i, cfg);
    Rerolled(s, b, i, cfg);
    SentAlone(Exec(s, first), |s.db.rollups|);
    ExecJoin(s, first, sent);
    forall n | 0 <= n < |events| && events[n] != LandTx(s.stage[b].cause.value)
      ensures LandsInTime(Exec(s, events[..n]), events[n])
    {
      if n == 5 {
        assert |s.txs| !in Exec(s, events[..5]).gaveUp;
      }
    }
  }

  lemma SomeMember(s: Sys, b: BatchId) returns (i: EarningId)
    requires Inv(s) && AsksInFlight(s, b)
    ensures InFirst(s, b, i)
  {
    var r := s.claims[b][0];
    StillSubmitted(s, b, r);
    assert RollupOk(s.db, s.minted, r);
    i :| i in s.minted[r];
    assert i in Members(s.db.earnings, r);
  }

  lemma {:induction false} SettledJoin(s: Sys, a: seq<Event>, b: seq<Event>)
    requires SettledRun(s, a) && SettledRun(Exec(s, a), b)
    ensures SettledRun(s, a + b)
  {
    forall n | 0 <= n < |a + b| ensures LandsInTime(Exec(s, (a + b)[..n]), (a + b)[n]) {
      if n < |a| {
        assert (a + b)[..n] == a[..n];
      } else {
        assert (a + b)[..n] == a + b[..n - |a|];
        ExecJoin(s, a, b[..n - |a|]);
      }
    }
  }

  /** A transaction that has landed, reverted or been dropped stays so. */
  lemma SettledStatus(s: Sys, ev: Event, t: TxId)
    requires t < |s.txs| && s.txs[t].status != InFlight
    ensures t < |Next(s, ev).txs| && Next(s, ev).txs[t] == s.txs[t]
  {
  }

  lemma {:induction false} StatusStays(s: Sys, events: seq<Event>, t: TxId)
    requires t < |s.txs| && s.txs[t].status != InFlight
    ensures t < |Exec(s, events).txs| && Exec(s, events).txs[t] == s.txs[t]
  {
    if events != [] {
      StatusStays(s, events[..|events| - 1], t);
      SettledStatus(Exec(s, events[..|events| - 1]), events[|events| - 1], t);
    }
  }

  lemma SettledWithoutIt(s: Sys, events: seq<Event>, t: TxId)
    requires t < |s.txs| && s.txs[t].status != InFlight && SettledBut(t, s, events)
    ensures SettledRun(s, events)
  {
    forall n | 0 <= n < |events| ensures LandsInTime(Exec(s, events[..n]), events[n]) {
      StatusStays(s, events[..n], t);
    }
  }

  lemma SafeWhenSettled(before: seq<Event>, t: TxId, events: seq<Event>)
    requires SettledRun(INIT, before) && t < |Exec(INIT, before).txs|
    requires Exec(INIT, before).txs[t].status != InFlight && SettledBut(t, Exec(INIT, before), events)
    ensures PaidAtMostOnce(Exec(Exec(INIT, before), events))
  {
    SettledWithoutIt(Exec(INIT, before), events, t);
    SettledJoin(INIT, before, events);
    ExecJoin(INIT, before, events);
    AtMostOnce(before + events);
  }

  lemma UnsafeInFlight(s: Sys, b: BatchId) returns (after: seq<Event>)
    requires Inv(s) && AsksInFlight(s, b)
    ensures SettledBut(s.stage[b].cause.value, s, [CheckProcessed(b)] + after)
    ensures !PaidAtMostOnce(Exec(s, [CheckProcessed(b)] + after))
  {
    var cfg := Selection.Config(0, 0, 1);
    var i := SomeMember(s, b);
    var events := PayTwice(s, b, i, cfg);
    PayTwiceSettles(s, b, i, cfg);
    PaidTwice(s, b, i, cfg);
    after := events[1..];
    assert events == [CheckProcessed(b)] + after;
  }

  /**
   However the run goes on from the check, no earning is ever paid twice, as long as no other transaction lands
   late.
   */
  ghost predicate CheckIsSafe(s: Sys, b: BatchId, t: TxId) {
    forall after :: SettledBut(t, s, [CheckProcessed(b)] + after) ==>
        PaidAtMostOnce(Exec(s, [CheckProcessed(b)] + after))
  }

  /**
   The hypothesis, exactly: take any run that keeps it up to a submit call that has thrown with transaction t,
   and suppose every other transaction keeps it from then on. The catch branch can go ahead and ask the chain
   without any earning ever being paid twice if and only if t is no longer in flight at that moment.
   */
  lemma CheckIsSafeIff(before: seq<Event>, b: BatchId)
    requires SettledRun(INIT, before)
    requires var s := Exec(INIT, before);
      StageIs(s, b) && s.stage[b].Thrown? && s.stage[b].cause.Some?
    ensures var s := Exec(INIT, before);
      var t := s.stage[b].cause.value;
      t < |s.txs| && (CheckIsSafe(s, b, t) <==> s.txs[t].status != InFlight)
  {
    var s := Exec(INIT, before);
    var t := s.stage[b].cause.value;
    InitInv();
    RunKeepsInv(INIT, before);
    assert StageOk(s, b);
    if s.txs[t].status != InFlight {
      forall after | SettledBut(t, s, [CheckProcessed(b)] + after)
        ensures PaidAtMostOnce(Exec(s, [CheckProcessed(b)] + after))
      {
        SafeWhenSettled(before, t, [CheckProcessed(b)] + after);
      }
    } else {
      var after := UnsafeInFlight(s, b);
    }
  }

  // ---------- such runs exist ----------

  const ONE: Amounts := Amounts(40, 1, 39)
  const EAGER: Selection.Config := Selection.Config(0, 0, 1)
  const CREATED: Event := NewEarning(CaptureSettlement("t"), 0, ONE, 0)

  /** One earning, rolled up, claimed and sent, and the submit call has thrown with the transaction in flight. */
  const IN_DOUBT: seq<Event> := [CREATED] + [RollUp([0], EAGER, 1, 0)] + [Claim([0])] + [SendTx(0)] + [SubmitThrows(0)]

  lemma NoLandings(events: seq<Event>)
    requires forall n :: 0 <= n < |events| ==> !events[n].LandTx?
    ensures SettledRun(INIT, events)
  {
  }

  /** The earning is there and rolled up. */
  lemma ReachRolledUp()
    ensures var s := Exec(INIT, [CREATED] + [RollUp([0], EAGER, 1, 0)]);
      && Inv(s) && |s.db.rollups| == 1 && s.db.rollups[0].status == Pending
      && s.claims == [] && s.stage == [] && s.txs == [] && s.db.batches == []
  {
    InitInv();
    NewEarningInv(INIT, Earning(CaptureSettlement("t"), 0, ONE, 0, Pending, None, None, None));
    RollUpOne(Next(INIT, CREATED), 0, EAGER, 0);
    ExecTwo(INIT, CREATED, RollUp([0], EAGER, 1, 0));
  }

  lemma ThrowsNext(s: Sys)
    requires s.stage == [Broadcast(0)] && |s.txs| == 1 && s.txs[0].status == InFlight
    requires |s.claims| == 1 && |s.db.batches| == 1
    ensures AsksInFlight(Next(s, SubmitThrows(0)), 0)
  {
  }

  lemma ThrowsInFlight(s: Sys)
    requires Inv(s) && |s.db.rollups| == 1 && s.db.rollups[0].status == Pending
    requires s.claims == [] && s.stage == [] && s.txs == [] && s.db.batches == []
    ensures AsksInFlight(Next(Next(Next(s, Claim([0])), SendTx(0)), SubmitThrows(0)), 0)
  {
    ClaimOne(s, 0);
    SendOne(Next(s, Claim([0])), 0);
    ThrowsNext(Next(Next(s, Claim([0])), SendTx(0)));
  }

  lemma InDoubtSteps(rolled: seq<Event>)
    requires rolled == [CREATED] + [RollUp([0], EAGER, 1, 0)]
    ensures Exec(INIT, IN_DOUBT) == Next(Next(Next(Exec(INIT, rolled), Claim([0])), SendTx(0)), SubmitThrows(0))
  {
    ExecAppend(INIT, rolled, Claim([0]));
    ExecAppend(INIT, rolled + [Claim([0])], SendTx(0));
    ExecAppend(INIT, rolled + [Claim([0])] + [SendTx(0)], SubmitThrows(0));
  }

  lemma InDoubtLandsNothing()
    ensures SettledRun(INIT, IN_DOUBT)
  {
    NoLandings(IN_DOUBT);
  }

  lemma ReachInDoubt()
    ensures SettledRun(INIT, IN_DOUBT) && AsksInFlight(Exec(INIT, IN_DOUBT), 0)
  {
    var rolled := [CREATED] + [RollUp([0], EAGER, 1, 0)];
    var s2 := Exec(INIT, rolled);
    ReachRolledUp();
    ThrowsInFlight(s2);
    InDoubtSteps(rolled);
    InDoubtLandsNothing();
  }

  /** Without the hypothesis the guarantee is lost: some run pays an earning twice. */
  lemma HypothesisIsNeeded()
    ensures exists events :: !PaidAtMostOnce(Exec(INIT, events))
  {
    ReachInDoubt();
    CheckIsSafeIff(IN_DOUBT, 0);
    var s := Exec(INIT, IN_DOUBT);
    var after :| !PaidAtMostOnce(Exec(s, [CheckProcessed(0)] + after));
    ExecJoin(INIT, IN_DOUBT, [CheckProcessed(0)] + after);
    assert !PaidAtMostOnce(Exec(INIT, IN_DOUBT + ([CheckProcessed(0)] + after)));
  }
}
