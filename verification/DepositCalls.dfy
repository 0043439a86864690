/** What one call of the deposit route scans, what it asks the database to write, and what the ledger keeps of it. */
module DepositCalls {
  import opened Common
  import opened CreditState
  import opened CreditSteps
  import opened CreditTheorems
  import opened DepositSync
  import opened DepositRoute

  /** The highest block the call may use: the head it sees, or the block its client names if that is lower. */
  function Top(k: Look): nat {
    match k.target
    case None => k.latest
    case Some(t) => if t <= k.latest then t else k.latest
  }

  /**
   What a call scans. If the cursor, or the historical one, is beyond the top it takes the last blocks up to the block
   its client names, or up to the top, as many as one call may; otherwise it goes on behind the later of the two. It
   never starts before the start block, takes no more blocks than one call may, and stops at the top.
   */
  lemma ScanIs(route: Route, k: Look)
    requires route.maxBlocks >= 1 && k.persisted >= 0 && k.historical >= 0
    ensures var from, upTo := FromBlock(route, k), ToBlock(route, k);
      var cursor := Max(k.persisted, k.historical);
      var anchor := k.target.GetOr(Top(k));
      && (Ahead(k) <==> cursor > Top(k))
      && from == (if cursor > Top(k) then Max(route.startBlock, anchor - route.maxBlocks + 1)
                  else Max(route.startBlock, cursor + 1))
      && (Scannable(route, k) <==> from <= Top(k))
      && (Scannable(route, k) ==> upTo == Min(from + route.maxBlocks - 1, Top(k)))
  {
  }

  /**
   What it asks for: the deposits of exactly those blocks at the given price, against the cursor it read. The cursor
   goes to the last of them; if there are none it stays where it was recovered, or is given up when that is beyond the
   top. Only then may the cursor go back.
   */
  lemma SyncIs(route: Route, k: Look, w: Wallet, d: Deposits, price: nat)
    ensures var input := RouteSync(route, k, w, d, price);
      && input.wallet == w && input.creditPriceWei == price && input.expected == Some(k.persisted)
      && input.depositedWei == Deposited(d, FromBlock(route, k) - 1, ToBlock(route, k))
      && (input.allowRollback <==> Max(k.persisted, k.historical) > Top(k))
      && input.syncedToBlock == (if Scannable(route, k) then ToBlock(route, k)
                                 else if Max(k.persisted, k.historical) > Top(k) then 0
                                 else Max(k.persisted, k.historical))
  {
  }

  lemma StepHistory(x: World, s: Snap, k: Look)
    requires Proper(x) && SnapOk(x, s)
    ensures var s' := CallStep(x, s, k);
      s'.historical
        == if x.cfg.ledgerEnabled && CreditsOf(s'.db, x.wallet) > CreditsOf(s.db, x.wallet)
           then Max(s.historical, Max(ToBlock(x.route, k), Cursor(x, s)))
           else s.historical
  {
    hide CallStep;
    if Applies(x, s, k) {
      CallApplied(x, s, k);
      if InputFor(x, k).depositedWei > 0 {
        var b := SomeDeposit(x.deposits, FromBlock(x.route, k) - 1, ToBlock(x.route, k));
      }
    } else {
      CallUnapplied(x, s, k);
    }
  }

  /**
   The historical cursor over a run: a call that grants credits writes a ledger row with the last block it scanned and
   the cursor it found, and the historical cursor is the highest block any row names. Nothing else changes it.
   */
  lemma HistoryIsRecorded(x: World, ops: seq<Op>, op: Op)
    requires Proper(x)
    ensures var s, s' := End(x, ops), End(x, ops + [op]);
      s'.historical
        == if op.Call? && x.cfg.ledgerEnabled && CreditsOf(s'.db, x.wallet) > CreditsOf(s.db, x.wallet)
           then Max(s.historical, Max(ToBlock(x.route, LookOf(x, Trace(x, ops), op)), Cursor(x, s)))
           else s.historical
  {
    TraceOk(x, ops);
    EndAppend(x, ops, op);
    if op.Call? {
      StepHistory(x, End(x, ops), LookOf(x, Trace(x, ops), op));
    }
  }
}
