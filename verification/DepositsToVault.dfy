/**
 From the blocks of the chain to the vault: with the sync route as the only source of credits, and no call of it
 that goes back, merchants are never allocated more than was deposited.
 */
module DepositsToVault {
  import opened Common
  import opened SettlementAmounts
  import opened MapSums
  import CS = CreditState
  import CT = CreditTheorems
  import Credit = CreditSteps
  import DR = DepositRoute
  import DS = DepositSync
  import MP = MoneyPath
  import SR = SettlementRun

  /** The run as one wallet's calls see it: its deposits, and when each call read what. */
  datatype View = View(world: DR.World, ops: seq<DR.Op>)

  /** The credit events are the wallet's calls of the route, none of which goes back, among other operations. */
  ghost predicate Seen(cfg: CS.Config, events: seq<Credit.Event>, w: CS.Wallet, v: View) {
    && v.world.wallet == w && v.world.cfg == cfg && v.world.price == CREDIT_PRICE_WEI && DR.Proper(v.world)
    && DR.Quiet(v.world, v.ops, 0) && DR.EventsFor(v.world, v.ops) == events
  }

  /** What was deposited for the wallet up to its cursor. */
  function OnChain(v: View): int {
    DS.Deposited(v.world.deposits, 0, DR.Cursor(v.world, DR.End(v.world, v.ops)))
  }

  // ---------- one wallet ----------

  function Counted(cfg: CS.Config, db: CS.Db, ev: Credit.Event, w: CS.Wallet): int {
    if !ev.DoSync? || ev.sync.wallet != w then 0
    else
      var tx := Credit.Sync(cfg, db, ev.sync);
      if tx.Commit? && tx.result.applied then Max(0, ev.sync.depositedWei) else 0
  }

  /** Wei of the wallet's syncs that were applied. */
  function CountedFor(cfg: CS.Config, events: seq<Credit.Event>, w: CS.Wallet): int {
    if events == [] then 0
    else
      var init := events[..|events| - 1];
      CountedFor(cfg, init, w) + Counted(cfg, Credit.Run(cfg, CS.EMPTY, init), events[|events| - 1], w)
  }

  /** A window that starts at the cursor, or at the block before the first one. */
  lemma WindowJoins(x: DR.World, cursor: int, v: DR.Window)
    requires DR.Proper(x) && 0 <= cursor && v.start < v.end && v.start == Max(cursor, x.route.startBlock - 1)
    ensures DS.Deposited(x.deposits, 0, v.end)
        == DS.Deposited(x.deposits, 0, cursor) + DS.Deposited(x.deposits, v.start, v.end)
  {
    DS.NoDeposits(x.deposits, cursor, v.start);
    DS.DepositedJoin(x.deposits, 0, cursor, v.start);
    DS.DepositedJoin(x.deposits, 0, v.start, v.end);
  }

  lemma CallCounts(x: DR.World, s: DR.Snap, k: DR.Look)
    requires DR.Proper(x) && DR.SnapOk(x, s) && DR.Applies(x, s, k) && !DR.Ahead(k)
    requires k.persisted == DR.Cursor(x, s) && k.historical == s.historical <= DR.Cursor(x, s)
    ensures DS.Deposited(x.deposits, 0, DR.Cursor(x, DR.CallStep(x, s, k)))
        == DS.Deposited(x.deposits, 0, DR.Cursor(x, s)) + DR.InputFor(x, k).depositedWei
  {
    var v := DR.WindowFor(x, k);
    DR.ForwardLooks(x, k);
    DR.ForwardCall(x, s, k);
    if v.start < v.end {
      WindowJoins(x, DR.Cursor(x, s), v);
    }
  }

  lemma CountedCall(x: DR.World, s: DR.Snap, k: DR.Look)
    ensures Counted(x.cfg, s.db, Credit.DoSync(DR.InputFor(x, k)), x.wallet)
        == if DR.Applies(x, s, k) then DR.InputFor(x, k).depositedWei else 0
  {
  }

  lemma FreshCall(x: DR.World, init: seq<DR.Op>, op: DR.Op, s: DR.Snap, k: DR.Look)
    requires DR.Proper(x) && DR.Quiet(x, init, 0) && op.Call? && DR.QuietAt(x, DR.Trace(x, init), op, 0)
    requires s == DR.End(x, init) && k == DR.LookOf(x, DR.Trace(x, init), op) && DR.Applies(x, s, k)
    ensures DR.SnapOk(x, s) && !DR.Ahead(k)
    ensures k.persisted == DR.Cursor(x, s) && k.historical == s.historical <= DR.Cursor(x, s)
  {
    DR.TraceOk(x, init);
    DR.CallApplied(x, s, k);
    DR.CountedOnce(x, init);
    DR.SteadyRun(x, init, 0);
    DR.ReadsFresh(x, DR.Trace(x, init), op, 0);
  }

  lemma CallStepCounts(x: DR.World, init: seq<DR.Op>, op: DR.Op)
    requires DR.Proper(x) && DR.Quiet(x, init, 0) && op.Call? && DR.QuietAt(x, DR.Trace(x, init), op, 0)
    ensures DS.Deposited(x.deposits, 0, DR.Cursor(x, DR.End(x, init + [op])))
        == DS.Deposited(x.deposits, 0, DR.Cursor(x, DR.End(x, init)))
         + Counted(x.cfg, DR.End(x, init).db, DR.EventFor(x, DR.Trace(x, init), op), x.wallet)
  {
    var s, k := DR.End(x, init), DR.LookOf(x, DR.Trace(x, init), op);
    DR.EndAppend(x, init, op);
    CountedCall(x, s, k);
    if DR.Applies(x, s, k) {
      FreshCall(x, init, op, s, k);
      CallCounts(x, s, k);
    } else {
      DR.CallUnapplied(x, s, k);
    }
  }

  lemma OtherStepCounts(x: DR.World, init: seq<DR.Op>, op: DR.Op)
    requires DR.Proper(x) && op.Other?
    ensures DR.Cursor(x, DR.End(x, init + [op])) == DR.Cursor(x, DR.End(x, init))
    ensures Counted(x.cfg, DR.End(x, init).db, DR.EventFor(x, DR.Trace(x, init), op), x.wallet) == 0
  {
    DR.EndAppend(x, init, op);
    DR.TraceOk(x, init);
    if !(op.ev.DoSync? && op.ev.sync.wallet == x.wallet) {
      DR.OtherOk(x, DR.End(x, init), op.ev);
    }
  }

  lemma CountedAppend(cfg: CS.Config, events: seq<Credit.Event>, ev: Credit.Event, w: CS.Wallet)
    ensures CountedFor(cfg, events + [ev], w)
        == CountedFor(cfg, events, w) + Counted(cfg, Credit.Run(cfg, CS.EMPTY, events), ev, w)
  {
    assert (events + [ev])[..|events|] == events;
  }

  /** One more step adds its event. */
  lemma CountsMore(x: DR.World, init: seq<DR.Op>, op: DR.Op)
    requires DR.Proper(x)
    ensures CountedFor(x.cfg, DR.EventsFor(x, init + [op]), x.wallet)
        == CountedFor(x.cfg, DR.EventsFor(x, init), x.wallet)
         + Counted(x.cfg, DR.End(x, init).db, DR.EventFor(x, DR.Trace(x, init), op), x.wallet)
  {
    DR.RunsAreCreditRuns(x, init);
    CountedAppend(x.cfg, DR.EventsFor(x, init), DR.EventFor(x, DR.Trace(x, init), op), x.wallet);
    assert (init + [op])[..|init|] == init;
  }

  /** The applied syncs of a wallet add up to what was deposited up to its cursor. */
  lemma {:induction false} RouteCounts(x: DR.World, ops: seq<DR.Op>)
    requires DR.Proper(x) && DR.Quiet(x, ops, 0)
    ensures CountedFor(x.cfg, DR.EventsFor(x, ops), x.wallet)
        == DS.Deposited(x.deposits, 0, DR.Cursor(x, DR.End(x, ops)))
  {
    if ops != [] {
      var init, op := ops[..|ops| - 1], ops[|ops| - 1];
      assert ops == init + [op];
      DR.QuietInit(x, ops, 0);
      RouteCounts(x, init);
      CountsMore(x, init, op);
      if op.Call? {
        CallStepCounts(x, init, op);
      } else {
        OtherStepCounts(x, init, op);
      }
    }
  }

  // ---------- all wallets ----------

  function CountedByWallet(cfg: CS.Config, events: seq<Credit.Event>, wallets: set<CS.Wallet>): map<CS.Wallet, int> {
    map w | w in wallets :: CountedFor(cfg, events, w)
  }

  ghost predicate SyncsAmong(events: seq<Credit.Event>, wallets: set<CS.Wallet>) {
    forall n :: 0 <= n < |events| && events[n].DoSync? ==> events[n].sync.wallet in wallets
  }

  lemma {:induction false} CountsAddUp(cfg: CS.Config, events: seq<Credit.Event>, wallets: set<CS.Wallet>)
    requires SyncsAmong(events, wallets)
    ensures SumOver(CountedByWallet(cfg, events, wallets)) == MP.Deposited(cfg, events)
  {
    if events == [] {
      CT.SumZero(CountedByWallet(cfg, events, wallets));
    } else {
      var init, ev := events[..|events| - 1], events[|events| - 1];
      var before, after := CountedByWallet(cfg, init, wallets), CountedByWallet(cfg, events, wallets);
      assert SyncsAmong(init, wallets);
      CountsAddUp(cfg, init, wallets);
      if ev.DoSync? {
        var w := ev.sync.wallet;
        assert w in wallets;
        assert after == before[w := CountedFor(cfg, events, w)];
        SumOverUpdate(before, w, CountedFor(cfg, events, w));
      } else {
        assert after == before;
      }
    }
  }

  function OnChainByWallet(views: map<CS.Wallet, View>): map<CS.Wallet, int> {
    map w | w in views :: OnChain(views[w])
  }

  /**
   Every deposit once, every credit once, every earning once: when each wallet's syncs are calls of the route at the
   deployed price, none of which goes back, and nothing else grants credits, what the vault has allocated and the
   price of all credits still in wallets is at most what was deposited on the chain up to the wallets' cursors.
   */
  lemma VaultPaysOnlyDeposits(cfg: CS.Config, owners: MP.Owners, ops: seq<MP.Op>, views: map<CS.Wallet, View>)
    requires SR.SettledRun(SR.INIT, MP.PipelineEvents(cfg, owners, ops)) && MP.OnlyDeposits(MP.CreditEvents(ops))
    requires SyncsAmong(MP.CreditEvents(ops), views.Keys)
    requires forall w :: w in views ==> Seen(cfg, MP.CreditEvents(ops), w, views[w])
    ensures var world := MP.Run(cfg, owners, ops);
      world.settlement.paidOut.gross + CREDIT_PRICE_WEI * MP.InWallets(world.credits) <= SumOver(OnChainByWallet(views))
  {
    var events := MP.CreditEvents(ops);
    MP.PayoutsAreDeposited(cfg, owners, ops);
    CountsAddUp(cfg, events, views.Keys);
    forall w | w in views ensures CountedFor(cfg, events, w) == OnChain(views[w]) {
      assert Seen(cfg, events, w, views[w]);
      RouteCounts(views[w].world, views[w].ops);
    }
    assert CountedByWallet(cfg, events, views.Keys) == OnChainByWallet(views);
  }
}
