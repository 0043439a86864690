/**
 The credit machine and the settlement pipeline on one database. An earning is written by the transaction that
 captures a hold or debits at a gate, and is then a row of the pipeline: what the vault allocates in the end is
 traced back to the credits that were granted.
 */
module MoneyPath {
  import opened Common
  import opened SettlementAmounts
  import opened MapSums
  import CI = CreditInvariants
  import CP = CreditProof
  import CS = CreditState
  import CT = CreditTheorems
  import Credit = CreditSteps
  import Runs
  import Selection = RollupSelection
  import SR = SettlementRun
  import SS = SettlementState
  import ST = SettlementTheorems
  import SX = SettlementSteps

  datatype World = World(credits: CS.Db, settlement: SR.Sys)

  const START: World := World(CS.EMPTY, SR.INIT)

  /** A credit transaction at a time, or anything that happens to the pipeline. */
  datatype Op = Spend(ev: Credit.Event, at: int) | Payout(step: SR.Event)

  /** Owner addresses as the pipeline normalises them. */
  type Owners = string -> SS.Merchant

  function Row(e: CS.Earning, owners: Owners, at: int): SR.Event {
    SR.NewEarning(e.settlementId, owners(e.owner), e.amounts, at)
  }

  /** The earnings behind those that were there before. */
  function NewRows(had: nat, has: seq<CS.Earning>, owners: Owners, at: int): seq<SR.Event> {
    if |has| <= had then []
    else NewRows(had, has[..|has| - 1], owners, at) + [Row(has[|has| - 1], owners, at)]
  }

  /** What one operation does to the pipeline: the rows a credit transaction adds, or the step itself. */
  function Arrives(cfg: CS.Config, owners: Owners, w: World, op: Op): seq<SR.Event> {
    match op
    case Spend(ev, at) => NewRows(|w.credits.earnings|, Credit.Apply(cfg, w.credits, ev).earnings, owners, at)
    case Payout(step) => if step.NewEarning? then [] else [step]
  }

  function Next(cfg: CS.Config, owners: Owners): (World, Op) -> World {
    (w: World, op: Op) =>
      World(if op.Spend? then Credit.Apply(cfg, w.credits, op.ev) else w.credits,
            SR.Exec(w.settlement, Arrives(cfg, owners, w, op)))
  }

  function Run(cfg: CS.Config, owners: Owners, ops: seq<Op>): World {
    Runs.Fold(Next(cfg, owners), START, ops)
  }

  // ---------- the two machines inside ----------

  function CreditEvents(ops: seq<Op>): seq<Credit.Event> {
    if ops == [] then []
    else
      var op := ops[|ops| - 1];
      CreditEvents(ops[..|ops| - 1]) + (if op.Spend? then [op.ev] else [])
  }

  function PipelineEvents(cfg: CS.Config, owners: Owners, ops: seq<Op>): seq<SR.Event> {
    if ops == [] then []
    else
      var init := ops[..|ops| - 1];
      PipelineEvents(cfg, owners, init) + Arrives(cfg, owners, Run(cfg, owners, init), ops[|ops| - 1])
  }

  lemma {:induction false} RunsAreRuns(cfg: CS.Config, owners: Owners, ops: seq<Op>)
    ensures Run(cfg, owners, ops).credits == Credit.Run(cfg, CS.EMPTY, CreditEvents(ops))
    ensures Run(cfg, owners, ops).settlement == SR.Exec(SR.INIT, PipelineEvents(cfg, owners, ops))
  {
    if ops != [] {
      var init, op := ops[..|ops| - 1], ops[|ops| - 1];
      RunsAreRuns(cfg, owners, init);
      if op.Spend? {
        CT.RunStep(cfg, CS.EMPTY, CreditEvents(init), op.ev);
      } else {
        assert CreditEvents(ops) == CreditEvents(init);
      }
      Runs.FoldJoin(SR.Next, SR.INIT, PipelineEvents(cfg, owners, init),
                    Arrives(cfg, owners, Run(cfg, owners, init), op));
    }
  }

  lemma CreditsInv(cfg: CS.Config, owners: Owners, ops: seq<Op>)
    ensures CI.Inv(cfg, Run(cfg, owners, ops).credits)
  {
    RunsAreRuns(cfg, owners, ops);
    CT.EmptyInv(cfg);
    CT.RunInv(cfg, CS.EMPTY, CreditEvents(ops));
  }

  // ---------- one row for each earning ----------

  predicate SameEarning(e: CS.Earning, row: SS.Earning, owners: Owners) {
    row.settlementId == e.settlementId && row.amounts == e.amounts && row.merchant == owners(e.owner)
  }

  ghost predicate RowsAgree(earnings: seq<CS.Earning>, rows: seq<SS.Earning>, owners: Owners) {
    |rows| == |earnings| && forall k :: 0 <= k < |rows| ==> SameEarning(earnings[k], rows[k], owners)
  }

  /** What no step of the pipeline changes about a row. */
  ghost predicate SameRows(rows: seq<SS.Earning>, rows': seq<SS.Earning>) {
    |rows'| == |rows| && forall k :: 0 <= k < |rows| ==>
      rows'[k].settlementId == rows[k].settlementId && rows'[k].amounts == rows[k].amounts
      && rows'[k].merchant == rows[k].merchant
  }

  lemma {:induction false} AttachAllSameRows(db: SS.Db, cs: seq<Selection.Candidate>)
    ensures SX.AttachAll(db, cs).Committed? ==> SameRows(db.earnings, SX.AttachAll(db, cs).db.earnings)
  {
    if cs != [] {
      AttachAllSameRows(db, cs[..|cs| - 1]);
    }
  }

  lemma MoveSameRows(db: SS.Db, ids: seq<nat>, members: nat, rd: SS.RollupData, ed: SS.EarningData)
    ensures SX.MoveRollups(db, ids, members, rd, ed).Committed? ==>
        SameRows(db.earnings, SX.MoveRollups(db, ids, members, rd, ed).db.earnings)
    ensures SX.MoveLegacy(db, ids, ed).Committed? ==> SameRows(db.earnings, SX.MoveLegacy(db, ids, ed).db.earnings)
  {
  }

  lemma CommitPlanSameRows(db: SS.Db, plan: SX.Plan)
    ensures SX.CommitPlan(db, plan).Committed? ==> SameRows(db.earnings, SX.CommitPlan(db, plan).db.earnings)
  {
    var confirm, requeue := SX.IdsWith(plan.rollups, SX.ToConfirm), SX.IdsWith(plan.rollups, SX.ToRequeue);
    var o1 := SX.MoveRollups(db, confirm, SX.CountsWith(plan.rollups, SX.ToConfirm), SS.ConfirmRollup, SS.Confirm);
    MoveSameRows(db, confirm, SX.CountsWith(plan.rollups, SX.ToConfirm), SS.ConfirmRollup, SS.Confirm);
    if o1.Committed? {
      MoveSameRows(o1.db, requeue, SX.CountsWith(plan.rollups, SX.ToRequeue), SS.FailRollup, SS.Requeue);
      var o2 := SX.MoveRollups(o1.db, requeue, SX.CountsWith(plan.rollups, SX.ToRequeue), SS.FailRollup, SS.Requeue);
      if o2.Committed? {
        MoveSameRows(o2.db, SX.IdsWith(plan.legacy, SX.ToConfirm), 0, SS.ConfirmRollup, SS.Confirm);
        var o3 := SX.MoveLegacy(o2.db, SX.IdsWith(plan.legacy, SX.ToConfirm), SS.Confirm);
        if o3.Committed? {
          MoveSameRows(o3.db, SX.IdsWith(plan.legacy, SX.ToRequeue), 0, SS.ConfirmRollup, SS.RequeueLegacy);
        }
      }
    }
  }

  lemma BatchSameRows(db: SS.Db, b: SS.BatchId, tx: SS.TxId)
    requires b < |db.batches|
    ensures SameRows(db.earnings, SX.RevertBatch(db, b).earnings)
    ensures SameRows(db.earnings, SX.MarkBatchConfirmed(db, b).earnings)
    ensures SameRows(db.earnings, SX.RecordSubmission(db, b, tx).earnings)
  {
  }

  lemma ClaimSameRows(db: SS.Db, selection: seq<SS.RollupId>)
    ensures SX.ClaimBatch(db, selection).Committed? ==> SameRows(db.earnings, SX.ClaimBatch(db, selection).db.earnings)
  {
  }

  lemma NextSameRows(s: SR.Sys, ev: SR.Event)
    requires !ev.NewEarning?
    ensures SameRows(s.db.earnings, SR.Next(s, ev).db.earnings)
  {
    match ev
    case RollUp(ids, cfg, maxRollups, now) =>
      if SS.InRange(ids, |s.db.earnings|) {
        AttachAllSameRows(s.db, SX.Selected(s.db, ids, cfg, maxRollups, now));
      }
    case Claim(selection) => ClaimSameRows(s.db, selection);
    case GasTooHigh(b) => if SR.StageIs(s, b) { BatchSameRows(s.db, b, 0); }
    case FinishCatch(b) => if SR.StageIs(s, b) { BatchSameRows(s.db, b, 0); }
    case RecordTx(b) =>
      if SR.StageIs(s, b) && s.stage[b].Broadcast? {
        BatchSameRows(s.db, b, s.stage[b].tx);
      }
    case WriteReconcile(p) =>
      if p < |s.plans| {
        CommitPlanSameRows(s.db, s.plans[p]);
      }
    case _ =>
  }

  lemma ExecOne(s: SR.Sys, ev: SR.Event)
    ensures SR.Exec(s, [ev]) == SR.Next(s, ev)
  {
    Runs.FoldAppend(SR.Next, s, [], ev);
    assert [] + [ev] == [ev];
  }

  ghost predicate AllExact(earnings: seq<CS.Earning>) {
    forall k :: 0 <= k < |earnings| ==>
      earnings[k].amounts.fee + earnings[k].amounts.net == earnings[k].amounts.gross
  }

  lemma OneRowAgrees(s: SR.Sys, had: seq<CS.Earning>, e: CS.Earning, owners: Owners, at: int)
    requires RowsAgree(had, s.db.earnings, owners) && e.amounts.fee + e.amounts.net == e.amounts.gross
    ensures RowsAgree(had + [e], SR.Next(s, Row(e, owners, at)).db.earnings, owners)
  {
  }

  lemma RowArrives(s: SR.Sys, more: seq<SR.Event>, had: seq<CS.Earning>, e: CS.Earning, owners: Owners, at: int)
    requires RowsAgree(had, SR.Exec(s, more).db.earnings, owners)
    requires e.amounts.fee + e.amounts.net == e.amounts.gross
    ensures RowsAgree(had + [e], SR.Exec(s, more + [Row(e, owners, at)]).db.earnings, owners)
  {
    ST.ExecAppend(s, more, Row(e, owners, at));
    OneRowAgrees(SR.Exec(s, more), had, e, owners, at);
  }

  /** The rows a transaction adds arrive in order behind those that are there. */
  lemma {:induction false} NewRowsAgree(s: SR.Sys, had: nat, has: seq<CS.Earning>, owners: Owners, at: int)
    requires had <= |has| && RowsAgree(has[..had], s.db.earnings, owners) && AllExact(has)
    ensures RowsAgree(has, SR.Exec(s, NewRows(had, has, owners, at)).db.earnings, owners)
    decreases |has|
  {
    if had == |has| {
      assert has[..had] == has;
    } else {
      var init, e := has[..|has| - 1], has[|has| - 1];
      assert init[..had] == has[..had];
      NewRowsAgree(s, had, init, owners, at);
      RowArrives(s, NewRows(had, init, owners, at), init, e, owners, at);
      assert has == init + [e];
    }
  }

  lemma AmountsExact(cfg: CS.Config, db: CS.Db)
    requires CI.Inv(cfg, db)
    ensures forall k :: 0 <= k < |db.earnings| ==>
        && db.earnings[k].amounts.fee + db.earnings[k].amounts.net == db.earnings[k].amounts.gross
        && db.earnings[k].amounts.gross == CREDIT_PRICE_WEI * db.earnings[k].grossCredits
        && db.earnings[k].grossCredits > 0
  {
    forall k | 0 <= k < |db.earnings|
      ensures db.earnings[k].amounts.fee + db.earnings[k].amounts.net == db.earnings[k].amounts.gross
        && db.earnings[k].amounts.gross == CREDIT_PRICE_WEI * db.earnings[k].grossCredits
        && db.earnings[k].grossCredits > 0
    {
      SplitIsExact(db.earnings[k].grossCredits, PROTOCOL_FEE_BPS, CREDIT_PRICE_WEI);
    }
  }

  lemma SpendKeeps(cfg: CS.Config, db: CS.Db, ev: Credit.Event)
    requires CI.Inv(cfg, db)
    ensures CI.Inv(cfg, Credit.Apply(cfg, db, ev)) && CT.HistoryKept(db, Credit.Apply(cfg, db, ev))
  {
    CT.ApplyHistory(cfg, db, ev);
    CT.ApplyInv(cfg, db, ev);
  }

  lemma AddedAgree(cfg: CS.Config, db: CS.Db, db': CS.Db, s: SR.Sys, owners: Owners, at: int)
    requires CI.Inv(cfg, db') && CT.HistoryKept(db, db') && RowsAgree(db.earnings, s.db.earnings, owners)
    ensures RowsAgree(db'.earnings, SR.Exec(s, NewRows(|db.earnings|, db'.earnings, owners, at)).db.earnings, owners)
  {
    AmountsExact(cfg, db');
    NewRowsAgree(s, |db.earnings|, db'.earnings, owners, at);
  }

  lemma SpendAgrees(cfg: CS.Config, owners: Owners, w: World, op: Op)
    requires op.Spend? && CI.Inv(cfg, w.credits) && RowsAgree(w.credits.earnings, w.settlement.db.earnings, owners)
    ensures var w' := Next(cfg, owners)(w, op); RowsAgree(w'.credits.earnings, w'.settlement.db.earnings, owners)
  {
    SpendKeeps(cfg, w.credits, op.ev);
    AddedAgree(cfg, w.credits, Credit.Apply(cfg, w.credits, op.ev), w.settlement, owners, op.at);
  }

  lemma PayoutAgrees(cfg: CS.Config, owners: Owners, w: World, op: Op)
    requires op.Payout? && RowsAgree(w.credits.earnings, w.settlement.db.earnings, owners)
    ensures var w' := Next(cfg, owners)(w, op); RowsAgree(w'.credits.earnings, w'.settlement.db.earnings, owners)
  {
    if !op.step.NewEarning? {
      ExecOne(w.settlement, op.step);
      NextSameRows(w.settlement, op.step);
    }
  }

  /** The pipeline's rows are the earnings of the credit machine, in every run. */
  lemma {:induction false} RowsAreEarnings(cfg: CS.Config, owners: Owners, ops: seq<Op>)
    ensures var w := Run(cfg, owners, ops); RowsAgree(w.credits.earnings, w.settlement.db.earnings, owners)
  {
    if ops != [] {
      var init, op := ops[..|ops| - 1], ops[|ops| - 1];
      RowsAreEarnings(cfg, owners, init);
      if op.Spend? {
        CreditsInv(cfg, owners, init);
        SpendAgrees(cfg, owners, Run(cfg, owners, init), op);
      } else {
        PayoutAgrees(cfg, owners, Run(cfg, owners, init), op);
      }
    }
  }

  // ---------- what is paid, in credits ----------

  /** Rows in rollups the vault has processed. */
  function Paid(w: World): set<nat> {
    SS.AttachedTo(w.settlement.db.earnings, SR.ProcessedRollups(w.settlement))
  }

  /** Credits of the earnings that are, or are not, among some rows. */
  function CreditsOf(earnings: seq<CS.Earning>, rows: set<nat>, among: bool): int {
    if earnings == [] then 0
    else
      var last := |earnings| - 1;
      CreditsOf(earnings[..last], rows, among) + (if (last in rows) == among then earnings[last].grossCredits else 0)
  }

  lemma {:induction false} GrossIsPrice(earnings: seq<CS.Earning>, rows: seq<SS.Earning>, ids: set<nat>, owners: Owners)
    requires RowsAgree(earnings, rows, owners)
    requires forall k :: 0 <= k < |earnings| ==>
        earnings[k].amounts.gross == CREDIT_PRICE_WEI * earnings[k].grossCredits
    ensures SS.SumOver(rows, ids).gross == CREDIT_PRICE_WEI * CreditsOf(earnings, ids, true)
  {
    if earnings != [] {
      var last := |earnings| - 1;
      GrossIsPrice(earnings[..last], rows[..last], ids, owners);
      assert SameEarning(earnings[last], rows[last], owners);
    }
  }

  /** Credits of gate earnings. */
  function GateCredits(earnings: seq<CS.Earning>): int {
    if earnings == [] then 0
    else
      var e := earnings[|earnings| - 1];
      GateCredits(earnings[..|earnings| - 1]) + (if e.settlementId.CaptureSettlement? then 0 else e.grossCredits)
  }

  /** All earnings together are the captures and the gate debits. */
  lemma {:induction false} EarnedParts(earnings: seq<CS.Earning>, rows: set<nat>)
    requires forall k :: 0 <= k < |earnings| ==>
        earnings[k].amounts.gross == CREDIT_PRICE_WEI * earnings[k].grossCredits
    ensures CREDIT_PRICE_WEI * (CreditsOf(earnings, rows, true) + CreditsOf(earnings, rows, false))
        == CS.CaptureGross(earnings) + CREDIT_PRICE_WEI * GateCredits(earnings)
  {
    if earnings != [] {
      EarnedParts(earnings[..|earnings| - 1], rows);
    }
  }

  lemma {:induction false} CreditsOfPositive(earnings: seq<CS.Earning>, rows: set<nat>, among: bool)
    requires forall k :: 0 <= k < |earnings| ==> earnings[k].grossCredits > 0
    ensures CreditsOf(earnings, rows, among) >= 0
  {
    if earnings != [] {
      CreditsOfPositive(earnings[..|earnings| - 1], rows, among);
    }
  }

  // ---------- what is granted and spent, over all wallets ----------

  function WalletOf(ev: Credit.Event): CS.Wallet {
    match ev
    case DoSync(i) => i.wallet
    case DoConsume(w, _, _) => w
    case DoGate(i) => i.wallet
    case DoAdd(w, _) => w
    case _ => ""
  }

  /** Credits the events report as granted, to any wallet. */
  function Granted(cfg: CS.Config, events: seq<Credit.Event>): int {
    if events == [] then 0
    else
      var init, ev := events[..|events| - 1], events[|events| - 1];
      Granted(cfg, init) + CT.Granted(cfg, Credit.Run(cfg, CS.EMPTY, init), ev, WalletOf(ev))
  }

  function Spent(cfg: CS.Config, events: seq<Credit.Event>): int {
    if events == [] then 0
    else
      var init, ev := events[..|events| - 1], events[|events| - 1];
      Spent(cfg, init) + CT.Spent(cfg, Credit.Run(cfg, CS.EMPTY, init), ev, WalletOf(ev))
  }

  /** Credits of a gate debit that pays a merchant. */
  function EarnedAtGate(cfg: CS.Config, db: CS.Db, ev: Credit.Event): int {
    if !ev.DoGate? || ev.gate.owner.None? then 0
    else
      var tx := Credit.GateConsume(cfg, db, ev.gate);
      if tx.Commit? && tx.result.GateOk? then ev.gate.cost else 0
  }

  /** Credits spent on nothing a merchant earns: consumption, and gate debits without an owner. */
  function SpentFree(cfg: CS.Config, events: seq<Credit.Event>): int {
    if events == [] then 0
    else
      var init, ev := events[..|events| - 1], events[|events| - 1];
      var db := Credit.Run(cfg, CS.EMPTY, init);
      SpentFree(cfg, init) + CT.Spent(cfg, db, ev, WalletOf(ev)) - EarnedAtGate(cfg, db, ev)
  }

  lemma GateStep(cfg: CS.Config, db: CS.Db, input: Credit.GateInput)
    ensures GateCredits(Credit.AfterTx(db, Credit.GateConsume(cfg, db, input)).earnings)
        == GateCredits(db.earnings) + EarnedAtGate(cfg, db, Credit.DoGate(input))
  {
    CP.GateEarning(cfg, db, input);
    var tx := Credit.GateConsume(cfg, db, input);
    if tx.Commit? && tx.result.GateOk? && input.owner.Some? {
      assert tx.db.earnings[..|db.earnings|] == db.earnings;
    }
  }

  lemma CaptureStep(cfg: CS.Config, db: CS.Db, input: Credit.CaptureInput)
    requires CI.Inv(cfg, db)
    ensures GateCredits(Credit.AfterTx(db, Credit.Capture(cfg, db, input)).earnings) == GateCredits(db.earnings)
  {
    if Credit.FindTicket(db.holds, input.ticket).Some? {
      var id := Credit.FindTicket(db.holds, input.ticket).value;
      if db.holds[id].state == CS.Held {
        CP.FinalizeShape(cfg, db, id, input);
        var tx := Credit.FinalizeCapture(cfg, db, id, input);
        if tx.Commit? {
          assert tx.db.earnings[..|db.earnings|] == db.earnings;
        }
      }
    }
  }

  lemma HoldStep(cfg: CS.Config, db: CS.Db, input: Credit.HoldInput, now: int)
    requires CI.Inv(cfg, db)
    ensures Credit.AfterTx(db, Credit.CreateHold(cfg, db, input, now)).earnings == db.earnings
  {
    if Credit.CreateHold(cfg, db, input, now).Commit? && input.wallet in db.balances {
      CI.SweepWalletInv(cfg, db, input.wallet, now);
      var swept := Credit.SweepWallet(cfg, db, input.wallet, now).db;
      if 0 < input.cost <= swept.balances[input.wallet].credits {
        CP.IssueHoldShape(cfg, db, swept, input);
      }
    }
  }

  lemma OtherStep(cfg: CS.Config, db: CS.Db, ev: Credit.Event)
    requires CI.Inv(cfg, db) && !ev.DoGate? && !ev.DoCapture?
    ensures Credit.Apply(cfg, db, ev).earnings == db.earnings
  {
    match ev
    case DoCreateHold(input, now) => HoldStep(cfg, db, input, now);
    case DoExpire(id, at) =>
      if id < |db.holds| && db.holds[id].state == CS.Held {
        CI.ExpireHeldEffect(cfg, db, id, at);
      }
    case _ =>
  }

  lemma SpentCovers(cfg: CS.Config, db: CS.Db, ev: Credit.Event)
    requires CI.Inv(cfg, db)
    ensures CT.Spent(cfg, db, ev, WalletOf(ev)) >= EarnedAtGate(cfg, db, ev)
  {
    if ev.DoGate? {
      CP.GateInv(cfg, db, ev.gate);
    }
    if ev.DoConsume? {
      CP.ConsumeInv(cfg, db, ev.wallet, ev.cost, ev.requestId);
    }
  }

  lemma {:induction false} SpentSplits(cfg: CS.Config, events: seq<Credit.Event>)
    ensures Spent(cfg, events) == SpentFree(cfg, events) + GateCredits(Credit.Run(cfg, CS.EMPTY, events).earnings)
    ensures SpentFree(cfg, events) >= 0
  {
    if events != [] {
      var init, ev := events[..|events| - 1], events[|events| - 1];
      var db := Credit.Run(cfg, CS.EMPTY, init);
      SpentSplits(cfg, init);
      CT.EmptyInv(cfg);
      CT.RunInv(cfg, CS.EMPTY, init);
      SpentCovers(cfg, db, ev);
      match ev
      case DoGate(input) => GateStep(cfg, db, input);
      case DoCapture(input) => CaptureStep(cfg, db, input);
      case _ => OtherStep(cfg, db, ev);
    }
  }

  function Totals(db: CS.Db, wallets: set<CS.Wallet>): map<CS.Wallet, int> {
    map w | w in wallets :: CI.Total(db, w)
  }

  /** Keys with value zero make no difference to a sum. */
  lemma {:induction false} SumWider(narrow: map<CS.Wallet, int>, wide: map<CS.Wallet, int>)
    requires narrow.Keys <= wide.Keys
    requires forall w :: w in wide ==> wide[w] == ValueAt(narrow, w)
    ensures SumOver(wide) == SumOver(narrow)
    decreases |wide|
  {
    if w :| w in wide && w !in narrow {
      SumOverRemove(wide, w);
      SumWider(narrow, wide - {w});
    } else {
      assert wide == narrow;
    }
  }

  /** Wallets without a balance have nothing. */
  lemma NothingHeld(cfg: CS.Config, db: CS.Db, w: CS.Wallet)
    requires CI.Inv(cfg, db) && w !in db.balances
    ensures CI.Total(db, w) == 0
  {
    forall k | 0 <= k < |db.holds| ensures db.holds[k].wallet != w {
      assert CI.HoldOkay(db.holds[k], db.balances.Keys);
    }
    CI.NoHoldsNoCost(db.holds, w, CS.Held);
    CI.NoHoldsNoCost(db.holds, w, CS.Captured);
  }

  lemma TotalsOver(cfg: CS.Config, db: CS.Db, wallets: set<CS.Wallet>)
    requires CI.Inv(cfg, db) && db.balances.Keys <= wallets
    ensures SumOver(Totals(db, wallets)) == SumOver(Totals(db, db.balances.Keys))
  {
    forall w | w in wallets ensures Totals(db, wallets)[w] == ValueAt(Totals(db, db.balances.Keys), w) {
      if w !in db.balances {
        NothingHeld(cfg, db, w);
      }
    }
    SumWider(Totals(db, db.balances.Keys), Totals(db, wallets));
  }

  lemma SumShift(before: map<CS.Wallet, int>, after: map<CS.Wallet, int>, w: CS.Wallet, delta: int)
    requires w in before && after.Keys == before.Keys
    requires forall x :: x in before ==> after[x] == before[x] + (if x == w then delta else 0)
    ensures SumOver(after) == SumOver(before) + delta
  {
    assert after == before[w := after[w]];
    SumOverUpdate(before, w, after[w]);
  }

  lemma TotalsShift(cfg: CS.Config, db: CS.Db, db': CS.Db, w: CS.Wallet, delta: int)
    requires CI.Inv(cfg, db) && CI.Inv(cfg, db')
    requires forall x :: CI.Total(db', x) == CI.Total(db, x) + (if x == w then delta else 0)
    ensures SumOver(Totals(db', db'.balances.Keys)) == SumOver(Totals(db, db.balances.Keys)) + delta
  {
    var all := db.balances.Keys + db'.balances.Keys + {w};
    TotalsOver(cfg, db, all);
    TotalsOver(cfg, db', all);
    SumShift(Totals(db, all), Totals(db', all), w, delta);
  }

  lemma OthersGetNothing(cfg: CS.Config, db: CS.Db, ev: Credit.Event, x: CS.Wallet)
    ensures x != WalletOf(ev) ==> CT.Granted(cfg, db, ev, x) == 0 && CT.Spent(cfg, db, ev, x) == 0
  {
  }

  lemma TotalsStep(cfg: CS.Config, db: CS.Db, ev: Credit.Event)
    requires CI.Inv(cfg, db)
    ensures var db' := Credit.Apply(cfg, db, ev);
      SumOver(Totals(db', db'.balances.Keys)) == SumOver(Totals(db, db.balances.Keys))
        + CT.Granted(cfg, db, ev, WalletOf(ev)) - CT.Spent(cfg, db, ev, WalletOf(ev))
  {
    var db', w := Credit.Apply(cfg, db, ev), WalletOf(ev);
    var delta := CT.Granted(cfg, db, ev, w) - CT.Spent(cfg, db, ev, w);
    CT.ApplyInv(cfg, db, ev);
    forall x ensures CI.Total(db', x) == CI.Total(db, x) + (if x == w then delta else 0) {
      OthersGetNothing(cfg, db, ev, x);
    }
    TotalsShift(cfg, db, db', w, delta);
  }

  lemma {:induction false} TotalsConserved(cfg: CS.Config, events: seq<Credit.Event>)
    ensures var db := Credit.Run(cfg, CS.EMPTY, events);
      SumOver(Totals(db, db.balances.Keys)) == Granted(cfg, events) - Spent(cfg, events)
  {
    if events == [] {
      assert Totals(CS.EMPTY, CS.EMPTY.balances.Keys) == map[];
    } else {
      var init, ev := events[..|events| - 1], events[|events| - 1];
      TotalsConserved(cfg, init);
      CT.EmptyInv(cfg);
      CT.RunInv(cfg, CS.EMPTY, init);
      TotalsStep(cfg, Credit.Run(cfg, CS.EMPTY, init), ev);
    }
  }

  function BalanceOf(db: CS.Db): map<CS.Wallet, int> {
    map w | w in db.balances :: db.balances[w].credits + db.balances[w].held
  }

  /** All credits that are still available or held. */
  ghost function InWallets(db: CS.Db): int {
    SumOver(BalanceOf(db))
  }

  lemma {:induction false} SumPositive(m: map<CS.Wallet, int>)
    requires forall w :: w in m ==> m[w] >= 0
    ensures SumOver(m) >= 0
    decreases |m|
  {
    if m != map[] {
      var w :| w in m;
      SumOverRemove(m, w);
      SumPositive(m - {w});
    }
  }

  lemma WalletsAndCaptures(cfg: CS.Config, db: CS.Db)
    requires CI.Inv(cfg, db)
    ensures SumOver(Totals(db, db.balances.Keys)) == InWallets(db) + CS.CapturedTotal(db.holds)
    ensures InWallets(db) >= 0
  {
    var wallets := db.balances.Keys;
    forall k | 0 <= k < |db.holds| ensures db.holds[k].wallet in wallets {
      assert CI.HoldOkay(db.holds[k], wallets);
    }
    CT.CapturesAddUp(db.holds, wallets);
    CT.SumOfDifferences(BalanceOf(db), Totals(db, wallets), CT.CapturedByWallet(db.holds, wallets));
    SumPositive(BalanceOf(db));
  }

  // ---------- from credits to the vault ----------

  /**
   Every credit is accounted for, up to the chain: the price of all credits ever granted is what the vault has
   allocated, before fees, plus the price of what is still in wallets, of earnings it has not paid, and of
   what was spent on nothing a merchant earns.
   */
  lemma EveryCreditIsAccountedFor(cfg: CS.Config, owners: Owners, ops: seq<Op>)
    requires SR.SettledRun(SR.INIT, PipelineEvents(cfg, owners, ops))
    ensures var w, events := Run(cfg, owners, ops), CreditEvents(ops);
      var unpaid := CreditsOf(w.credits.earnings, Paid(w), false);
      && CREDIT_PRICE_WEI * Granted(cfg, events) == w.settlement.paidOut.gross
            + CREDIT_PRICE_WEI * (InWallets(w.credits) + unpaid + SpentFree(cfg, events))
      && w.settlement.paidOut.gross >= 0 && InWallets(w.credits) >= 0 && unpaid >= 0 && SpentFree(cfg, events) >= 0
  {
    var w, events := Run(cfg, owners, ops), CreditEvents(ops);
    var db := w.credits;
    RunsAreRuns(cfg, owners, ops);
    CreditsInv(cfg, owners, ops);
    RowsAreEarnings(cfg, owners, ops);
    AmountsExact(cfg, db);
    ST.PayoutConservation(PipelineEvents(cfg, owners, ops));
    GrossIsPrice(db.earnings, w.settlement.db.earnings, Paid(w), owners);
    EarnedParts(db.earnings, Paid(w));
    CreditsOfPositive(db.earnings, Paid(w), true);
    CreditsOfPositive(db.earnings, Paid(w), false);
    TotalsConserved(cfg, events);
    SpentSplits(cfg, events);
    WalletsAndCaptures(cfg, db);
  }

  /** A capture or a gate request is paid for by one processed rollup at most; a hold that is not captured by none. */
  lemma PaidOncePerSettlement(cfg: CS.Config, owners: Owners, ops: seq<Op>, i: nat, r: nat, j: nat, q: nat)
    requires SR.SettledRun(SR.INIT, PipelineEvents(cfg, owners, ops))
    requires var s := Run(cfg, owners, ops).settlement;
      && r < |s.minted| && q < |s.minted| && i in s.minted[r] && j in s.minted[q]
      && RollupSettlement(r) in s.processed && RollupSettlement(q) in s.processed
    ensures var w := Run(cfg, owners, ops);
      && i < |w.credits.earnings| && j < |w.credits.earnings|
      && (w.credits.earnings[i].settlementId == w.credits.earnings[j].settlementId ==> i == j && r == q)
      && (forall id :: 0 <= id < |w.credits.holds| && w.credits.holds[id].state != CS.Captured ==>
            w.credits.earnings[i].settlementId != CaptureSettlement(w.credits.holds[id].ticket))
  {
    var w, events := Run(cfg, owners, ops), PipelineEvents(cfg, owners, ops);
    RunsAreRuns(cfg, owners, ops);
    CreditsInv(cfg, owners, ops);
    RowsAreEarnings(cfg, owners, ops);
    ST.InitInv();
    ST.RunKeepsInv(SR.INIT, events);
    ST.ProcessedIsLive(w.settlement, r);
    ST.ProcessedIsLive(w.settlement, q);
    assert i in SS.Members(w.settlement.db.earnings, r) && j in SS.Members(w.settlement.db.earnings, q);
    forall id | 0 <= id < |w.credits.holds| && w.credits.holds[id].state != CS.Captured
      ensures w.credits.earnings[i].settlementId != CaptureSettlement(w.credits.holds[id].ticket)
    {
      CT.EarningIffCaptured(cfg, CreditEvents(ops), id);
    }
  }

  // ---------- from deposits to the vault ----------

  /** Credits come from deposits at the deployed price, and from nothing else. */
  ghost predicate OnlyDeposits(events: seq<Credit.Event>) {
    forall n :: 0 <= n < |events| ==>
      !events[n].DoAdd? && (events[n].DoSync? ==> events[n].sync.creditPriceWei == CREDIT_PRICE_WEI)
  }

  /** Wei of the syncs that were applied. */
  function Deposited(cfg: CS.Config, events: seq<Credit.Event>): int {
    if events == [] then 0
    else
      var init, ev := events[..|events| - 1], events[|events| - 1];
      var db := Credit.Run(cfg, CS.EMPTY, init);
      Deposited(cfg, init) + (
        if !ev.DoSync? then 0
        else
          var tx := Credit.Sync(cfg, db, ev.sync);
          if tx.Commit? && tx.result.applied then Max(0, ev.sync.depositedWei) else 0)
  }

  lemma {:induction false} GrantedIsDeposited(cfg: CS.Config, events: seq<Credit.Event>)
    requires OnlyDeposits(events)
    ensures CREDIT_PRICE_WEI * Granted(cfg, events) <= Deposited(cfg, events)
  {
    if events != [] {
      var init, ev := events[..|events| - 1], events[|events| - 1];
      assert OnlyDeposits(init);
      GrantedIsDeposited(cfg, init);
    }
  }

  /**
   What merchants were allocated, and the price of all credits still in wallets, was deposited before: the vault
   never allocates more than the deposits that syncs have counted.
   */
  lemma PayoutsAreDeposited(cfg: CS.Config, owners: Owners, ops: seq<Op>)
    requires SR.SettledRun(SR.INIT, PipelineEvents(cfg, owners, ops)) && OnlyDeposits(CreditEvents(ops))
    ensures var w := Run(cfg, owners, ops);
      w.settlement.paidOut.gross + CREDIT_PRICE_WEI * InWallets(w.credits) <= Deposited(cfg, CreditEvents(ops))
  {
    EveryCreditIsAccountedFor(cfg, owners, ops);
    GrantedIsDeposited(cfg, CreditEvents(ops));
  }
}
