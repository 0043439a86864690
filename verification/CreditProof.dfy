/** Every operation keeps the credit invariant and changes a wallet's total only by what it reports. */
module CreditProof {
  import opened Common
  import opened SettlementAmounts
  import opened CreditState
  import opened Text
  import opened CreditSteps
  import opened CreditInvariants

  lemma AppendCosts(holds: seq<Hold>, h: Hold, w: Wallet, st: HoldState)
    ensures CostIn(holds + [h], w, st) == CostIn(holds, w, st) + CostOf(h, w, st)
    ensures CapturedTotal(holds + [h]) == CapturedTotal(holds) + (if h.state == Captured then h.cost else 0)
    ensures CountIn(holds + [h], w, st) == CountIn(holds, w, st) + (if h.wallet == w && h.state == st then 1 else 0)
  {
    assert (holds + [h])[..|holds|] == holds;
  }

  lemma EarningsAppend(holds: seq<Hold>, earnings: seq<Earning>, h: Hold)
    requires EarningsOkay(holds, earnings) && h.state == Held
    ensures EarningsOkay(holds + [h], earnings)
  {
    AppendCosts(holds, h, "", Held);
    var holds' := holds + [h];
    forall k | 0 <= k < |earnings| && earnings[k].settlementId.CaptureSettlement?
      ensures CapturedAs(holds', earnings[k])
    {
      var e := earnings[k];
      var i :| 0 <= i < |holds| && holds[i].state == Captured && holds[i].ticket == e.settlementId.ticketId
        && holds[i].cost == e.grossCredits && holds[i].wallet == e.wallet;
      assert holds'[i] == holds[i];
    }
  }

  // ---------- issuing ----------

  /** The tables after a hold was issued on top of the swept state `db`. */
  ghost predicate Issued(db: Db, db': Db, input: HoldInput)
    requires input.wallet in db.balances
  {
    var b := db.balances[input.wallet];
    && db'.holds == db.holds + [NewHold(input)]
    && db'.balances == db.balances[input.wallet := b.(credits := b.credits - input.cost, held := b.held + input.cost)]
    && db'.earnings == db.earnings && db'.attempts == db.attempts && db'.activeSigners == db.activeSigners
  }

  lemma IssueHoldShape(cfg: Config, original: Db, db: Db, input: HoldInput)
    requires Inv(cfg, db) && input.wallet in db.balances
    requires 0 < input.cost <= db.balances[input.wallet].credits
    ensures var tx := IssueHold(cfg, original, db, input);
      && (tx.Abort? ==> tx.error in {IntOutOfRange, UniqueConflict})
      && (tx.Commit? && tx.result.HoldOk? ==>
            && Issued(db, tx.db, input)
            && !TicketUsed(db.holds, input.ticket) && !ServiceHeld(db.holds, input.wallet, input.service)
            && db.balances[input.wallet].held + input.cost <= MAX_INT
            && tx.result == HoldOk(|db.holds|, db.balances[input.wallet], tx.db.balances[input.wallet])
            && tx.db.nonces == (if cfg.nonceStoreEnabled then db.nonces + {TicketNonce(input)} else db.nonces)
            && tx.db.ledger == (if cfg.ledgerEnabled
                  then db.ledger + [LedgerRow(input.wallet, Debit, input.cost, db.balances[input.wallet].credits,
                                             db.balances[input.wallet].credits - input.cost, HoldCreated,
                                             Some(input.ticket))]
                 else db.ledger))
      && (tx.Commit? && !tx.result.HoldOk? ==> tx.db == original && tx.result in {Replay, WalletServiceHoldExists})
  {
  }

  lemma IssuedHoldsOkay(db: Db, input: HoldInput)
    requires HoldsOkay(db.holds, db.balances.Keys) && input.wallet in db.balances && 0 < input.cost <= MAX_INT
    requires !TicketUsed(db.holds, input.ticket) && !ServiceHeld(db.holds, input.wallet, input.service)
    ensures HoldsOkay(db.holds + [NewHold(input)], db.balances.Keys)
  {
  }

  lemma IssuedCosts(db: Db, db': Db, input: HoldInput, w: Wallet)
    requires input.wallet in db.balances && Issued(db, db', input)
    ensures CostIn(db'.holds, w, Held) == CostIn(db.holds, w, Held) + CostOf(NewHold(input), w, Held)
    ensures CostIn(db'.holds, w, Captured) == CostIn(db.holds, w, Captured)
    ensures Total(db', w) == Total(db, w)
  {
    AppendCosts(db.holds, NewHold(input), w, Held);
    AppendCosts(db.holds, NewHold(input), w, Captured);
  }

  function IssueRow(db: Db, input: HoldInput): LedgerRow {
    var credits := CreditsOf(db, input.wallet);
    LedgerRow(input.wallet, Debit, input.cost, credits, credits - input.cost, HoldCreated, Some(input.ticket))
  }

  /** The same tables, described by what changed instead of by the transaction. */
  lemma IssuedInv(cfg: Config, db: Db, db': Db, input: HoldInput)
    requires Inv(cfg, db) && input.wallet in db.balances && Issued(db, db', input)
    requires 0 < input.cost <= db.balances[input.wallet].credits
    requires db.balances[input.wallet].held + input.cost <= MAX_INT
    requires !TicketUsed(db.holds, input.ticket) && !ServiceHeld(db.holds, input.wallet, input.service)
    requires db'.ledger == if cfg.ledgerEnabled then db.ledger + [IssueRow(db, input)] else db.ledger
    ensures Inv(cfg, db')
  {
    var h := NewHold(input);
    IssuedHoldsOkay(db, input);
    EarningsAppend(db.holds, db.earnings, h);
    forall w ensures CostIn(db'.holds, w, Held) == CostIn(db.holds, w, Held) + CostOf(h, w, Held)
      && CostIn(db'.holds, w, Captured) == CostIn(db.holds, w, Captured)
    {
      IssuedCosts(db, db', input, w);
    }
    assert db'.balances.Keys == db.balances.Keys;
    BooksStep(cfg, db, db', IssueRow(db, input));
  }

  lemma IssueHoldInv(cfg: Config, original: Db, db: Db, input: HoldInput)
    requires Inv(cfg, db) && input.wallet in db.balances
    requires 0 < input.cost <= db.balances[input.wallet].credits
    requires IssueHold(cfg, original, db, input).Commit? && IssueHold(cfg, original, db, input).result.HoldOk?
    ensures Inv(cfg, IssueHold(cfg, original, db, input).db)
    ensures forall w :: Total(IssueHold(cfg, original, db, input).db, w) == Total(db, w)
  {
    var db' := IssueHold(cfg, original, db, input).db;
    IssueHoldShape(cfg, original, db, input);
    IssuedInv(cfg, db, db', input);
    forall w ensures Total(db', w) == Total(db, w) {
      IssuedCosts(db, db', input, w);
    }
  }

  lemma CreateHoldInv(cfg: Config, db: Db, input: HoldInput, now: int)
    requires Inv(cfg, db)
    ensures var tx := CreateHold(cfg, db, input, now);
      && (tx.Abort? ==> tx.error in {InvalidInput, IntOutOfRange, UniqueConflict})
      && (tx.Commit? ==> Inv(cfg, tx.db) && forall w :: Total(tx.db, w) == Total(db, w))
  {
    if input.cost > 0 && input.walletHoldCap > 0 && input.cost <= MAX_INT && input.wallet in db.balances {
      SweepWalletInv(cfg, db, input.wallet, now);
      var sweep := SweepWallet(cfg, db, input.wallet, now);
      if sweep.Written? && input.cost <= sweep.db.balances[input.wallet].credits
         && CountIn(sweep.db.holds, input.wallet, Held) < input.walletHoldCap {
        IssueHoldShape(cfg, db, sweep.db, input);
        var tx := IssueHold(cfg, db, sweep.db, input);
        if tx.Commit? && tx.result.HoldOk? {
          IssueHoldInv(cfg, db, sweep.db, input);
        }
      }
    }
  }

  // ---------- capturing ----------

  ghost predicate Finalized(db: Db, db': Db, id: HoldId, input: CaptureInput)
    requires id < |db.holds| && db.holds[id].wallet in db.balances
  {
    var hold := db.holds[id];
    var b := db.balances[hold.wallet];
    && db'.holds == db.holds[id := hold.(state := Captured, capturedAt := Some(input.completedAt),
                                        proof := Some(input.proof), releasedAt := None)]
    && db'.balances == db.balances[hold.wallet := b.(held := b.held - hold.cost)]
    && db'.nonces == db.nonces && db'.activeSigners == db.activeSigners
    && db'.attempts == db.attempts + [Attempt(id, input.proof, input.signer, true, 200)]
  }

  function CaptureEarning(hold: Hold, amounts: Amounts): Earning {
    Earning(CaptureSettlement(hold.ticket), hold.wallet, hold.owner, Trim(hold.service), hold.cost, amounts)
  }

  lemma FinalizeShape(cfg: Config, db: Db, id: HoldId, input: CaptureInput)
    requires Inv(cfg, db) && id < |db.holds| && db.holds[id].state == Held
    ensures db.holds[id].wallet in db.balances
    ensures var tx := FinalizeCapture(cfg, db, id, input);
      var hold := db.holds[id];
      var b := db.balances[hold.wallet];
      var split := CalculateSettlementAmounts(hold.cost, PROTOCOL_FEE_BPS, CREDIT_PRICE_WEI);
      && (tx.Abort? ==> tx.error in {InvalidInput, UniqueConflict})
      && (tx.Commit? ==>
            && Finalized(db, tx.db, id, input)
            && split.Split? && !Settled(db.earnings, CaptureSettlement(hold.ticket))
            && tx.db.earnings == db.earnings + [CaptureEarning(hold, split.amounts)]
            && tx.result == CapturedNow(id, b, b.(held := b.held - hold.cost))
            && tx.db.ledger == (if cfg.ledgerEnabled
                  then db.ledger + [LedgerRow(hold.wallet, Debit, hold.cost, b.credits, b.credits, CaptureFinalized,
                                             Some(CaptureSuffix(hold.ticket)))]
                 else db.ledger))
  {
    HeldCovers(cfg, db, id);
    SplitIsExact(db.holds[id].cost, PROTOCOL_FEE_BPS, CREDIT_PRICE_WEI);
    assert HoldOkay(db.holds[id], db.balances.Keys);
  }

  lemma CaptureEarnings(holds: seq<Hold>, earnings: seq<Earning>, wallets: set<Wallet>, id: HoldId, h: Hold,
                        amounts: Amounts)
    requires HoldsOkay(holds, wallets) && EarningsOkay(holds, earnings) && id < |holds| && holds[id].state == Held
    requires h.state == Captured && h.ticket == holds[id].ticket && h.cost == holds[id].cost
        && h.wallet == holds[id].wallet
    requires !Settled(earnings, CaptureSettlement(h.ticket))
    requires CalculateSettlementAmounts(h.cost, PROTOCOL_FEE_BPS, CREDIT_PRICE_WEI) == Split(amounts)
    ensures EarningsOkay(holds[id := h], earnings + [CaptureEarning(h, amounts)])
  {
    var holds' := holds[id := h];
    var e := CaptureEarning(h, amounts);
    var earnings' := earnings + [e];
    CapturedUpdate(holds, id, h);
    SplitIsExact(h.cost, PROTOCOL_FEE_BPS, CREDIT_PRICE_WEI);
    assert earnings'[..|earnings|] == earnings;
    forall k | 0 <= k < |earnings'| && earnings'[k].settlementId.CaptureSettlement?
      ensures CapturedAs(holds', earnings'[k])
    {
      if k < |earnings| {
        var x := earnings[k];
        var i :| 0 <= i < |holds| && holds[i].state == Captured && holds[i].ticket == x.settlementId.ticketId
          && holds[i].cost == x.grossCredits && holds[i].wallet == x.wallet;
        assert holds'[i] == holds[i];
      } else {
        assert holds'[id] == h;
      }
    }
    forall i | 0 <= i < |holds'| && holds'[i].state == Captured
      ensures Settled(earnings', CaptureSettlement(holds'[i].ticket))
    {
      if i == id {
        assert earnings'[|earnings|] == e;
      } else {
        var k :| 0 <= k < |earnings| && earnings[k].settlementId == CaptureSettlement(holds[i].ticket);
        assert earnings'[k] == earnings[k];
      }
    }
    forall j, k | 0 <= j < k < |earnings'| ensures earnings'[j].settlementId != earnings'[k].settlementId {
      if k == |earnings| {
        assert earnings[j].settlementId != e.settlementId;
      }
    }
  }

  lemma FinalizedCosts(db: Db, db': Db, id: HoldId, input: CaptureInput, w: Wallet)
    requires id < |db.holds| && db.holds[id].state == Held && db.holds[id].wallet in db.balances
    requires Finalized(db, db', id, input)
    ensures CostIn(db'.holds, w, Held) == CostIn(db.holds, w, Held) - CostOf(db.holds[id], w, Held)
    ensures CostIn(db'.holds, w, Captured) == CostIn(db.holds, w, Captured) + CostOf(db.holds[id], w, Held)
    ensures Total(db', w) == Total(db, w)
  {
    CostUpdate(db.holds, id, db'.holds[id], w, Held);
    CostUpdate(db.holds, id, db'.holds[id], w, Captured);
  }

  function CaptureRow(db: Db, hold: Hold): LedgerRow {
    var credits := CreditsOf(db, hold.wallet);
    LedgerRow(hold.wallet, Debit, hold.cost, credits, credits, CaptureFinalized, Some(CaptureSuffix(hold.ticket)))
  }

  /** The same tables, described by what changed instead of by the transaction. */
  lemma FinalizedInv(cfg: Config, db: Db, db': Db, id: HoldId, input: CaptureInput, amounts: Amounts)
    requires Inv(cfg, db) && id < |db.holds| && db.holds[id].state == Held && db.holds[id].wallet in db.balances
    requires Finalized(db, db', id, input)
    requires CalculateSettlementAmounts(db.holds[id].cost, PROTOCOL_FEE_BPS, CREDIT_PRICE_WEI) == Split(amounts)
    requires !Settled(db.earnings, CaptureSettlement(db.holds[id].ticket))
    requires db'.earnings == db.earnings + [CaptureEarning(db.holds[id], amounts)]
    requires db'.ledger == if cfg.ledgerEnabled then db.ledger + [CaptureRow(db, db.holds[id])] else db.ledger
    ensures Inv(cfg, db')
  {
    var hold := db.holds[id];
    HeldCovers(cfg, db, id);
    forall w ensures CostIn(db'.holds, w, Held) == CostIn(db.holds, w, Held) - CostOf(hold, w, Held)
      && CostIn(db'.holds, w, Captured) == CostIn(db.holds, w, Captured) + CostOf(hold, w, Held)
    {
      FinalizedCosts(db, db', id, input, w);
    }
    HoldLeaves(db.holds, db.balances.Keys, id, db'.holds[id]);
    CaptureEarnings(db.holds, db.earnings, db.balances.Keys, id, db'.holds[id], amounts);
    assert db'.balances.Keys == db.balances.Keys;
    BooksStep(cfg, db, db', CaptureRow(db, hold));
  }

  lemma FinalizeInv(cfg: Config, db: Db, id: HoldId, input: CaptureInput)
    requires Inv(cfg, db) && id < |db.holds| && db.holds[id].state == Held
    requires FinalizeCapture(cfg, db, id, input).Commit?
    ensures Inv(cfg, FinalizeCapture(cfg, db, id, input).db)
    ensures forall w :: Total(FinalizeCapture(cfg, db, id, input).db, w) == Total(db, w)
  {
    var db' := FinalizeCapture(cfg, db, id, input).db;
    FinalizeShape(cfg, db, id, input);
    var split := CalculateSettlementAmounts(db.holds[id].cost, PROTOCOL_FEE_BPS, CREDIT_PRICE_WEI);
    FinalizedInv(cfg, db, db', id, input, split.amounts);
    forall w ensures Total(db', w) == Total(db, w) {
      FinalizedCosts(db, db', id, input, w);
    }
  }

  /** Attempts are not money. */
  lemma AttemptsInv(cfg: Config, db: Db, db': Db)
    requires Inv(cfg, db) && db' == db.(attempts := db'.attempts)
    ensures Inv(cfg, db') && forall w :: Total(db', w) == Total(db, w)
  {
  }

  /** A capture that is not the first one, or is refused, only logs. */
  lemma CaptureLogs(cfg: Config, db: Db, input: CaptureInput)
    requires Capture(cfg, db, input).Commit? && !Capture(cfg, db, input).result.CapturedNow?
    ensures Capture(cfg, db, input).db == db.(attempts := Capture(cfg, db, input).db.attempts)
  {
  }

  lemma CaptureInv(cfg: Config, db: Db, input: CaptureInput)
    requires Inv(cfg, db)
    ensures var tx := Capture(cfg, db, input);
      && (tx.Abort? ==> tx.error in {InvalidInput, UniqueConflict})
      && (tx.Commit? ==> Inv(cfg, tx.db) && forall w :: Total(tx.db, w) == Total(db, w))
  {
    var tx := Capture(cfg, db, input);
    if tx.Commit? && !tx.result.CapturedNow? {
      CaptureLogs(cfg, db, input);
      AttemptsInv(cfg, db, tx.db);
    } else if FindTicket(db.holds, input.ticket).Some? {
      var id := FindTicket(db.holds, input.ticket).value;
      if db.holds[id].state == Held {
        FinalizeShape(cfg, db, id, input);
        if FinalizeCapture(cfg, db, id, input).Commit? {
          FinalizeInv(cfg, db, id, input);
        }
      }
    }
  }

  lemma ExpireOneInv(cfg: Config, db: Db, id: HoldId, now: int)
    requires Inv(cfg, db)
    ensures var tx := ExpireOne(cfg, db, id, now);
      && (tx.Abort? ==> tx.error in {HoldNotFound, IntOutOfRange, UniqueConflict})
      && (tx.Commit? ==> Inv(cfg, tx.db) && forall w :: Total(tx.db, w) == Total(db, w))
  {
    if id < |db.holds| && db.holds[id].state == Held && db.holds[id].expiresAt <= now {
      ExpireHeldEffect(cfg, db, id, now);
      if ExpireHeld(cfg, db, id, now).Written? {
        ExpireHeldInv(cfg, db, id, now);
        forall w ensures Total(ExpireHeld(cfg, db, id, now).db, w) == Total(db, w) {
          RefundCosts(db, ExpireHeld(cfg, db, id, now).db, id, now, w);
        }
      }
    }
  }

  // ---------- debits and credits ----------

  /** The available balance of one wallet moves by `delta`; holds and captures stay. */
  ghost predicate CreditsMoved(db: Db, db': Db, w: Wallet, delta: int) {
    && w in db'.balances && db'.balances.Keys == db.balances.Keys + {w}
    && CreditsOf(db', w) == CreditsOf(db, w) + delta
    && db'.balances[w].held == (if w in db.balances then db.balances[w].held else 0)
    && (forall x :: x in db.balances && x != w ==> db'.balances[x] == db.balances[x])
    && db'.holds == db.holds
  }

  lemma MovedInv(cfg: Config, db: Db, db': Db, row: LedgerRow, delta: int)
    requires Inv(cfg, db) && CreditsMoved(db, db', row.wallet, delta)
    requires db'.ledger == if cfg.ledgerEnabled && row.amount > 0 then db.ledger + [row] else db.ledger
    requires row.before == CreditsOf(db, row.wallet) && row.after == CreditsOf(db', row.wallet)
    requires row.amount >= 0 && delta == if row.direction == Credit then row.amount else -row.amount
    requires 0 <= row.after <= MAX_INT
    requires EarningsOkay(db'.holds, db'.earnings)
    ensures Inv(cfg, db')
    ensures forall w :: Total(db', w) == Total(db, w) + (if w == row.wallet then delta else 0)
  {
    forall i | 0 <= i < |db'.holds| ensures HoldOkay(db'.holds[i], db'.balances.Keys) {
      assert HoldOkay(db.holds[i], db.balances.Keys);
    }
    if row.wallet !in db.balances {
      NoHoldsNoCost(db.holds, row.wallet, Held);
    }
    assert MoneyOkay(db'.balances, db'.holds);
    if row.amount > 0 {
      BooksStep(cfg, db, db', row);
    } else {
      BooksSame(cfg, db, db', row.wallet);
    }
  }

  /** Opening a wallet with nothing in it, or not moving anything, leaves the books as they are. */
  lemma BooksSame(cfg: Config, db: Db, db': Db, w: Wallet)
    requires BooksOkay(cfg, db) && CreditsMoved(db, db', w, 0) && db'.ledger == db.ledger
    requires forall i :: 0 <= i < |db.holds| ==> db.holds[i].wallet in db.balances
    ensures BooksOkay(cfg, db')
  {
    if cfg.ledgerEnabled && w !in db.balances {
      NoRowsNoFlow(db.ledger, w);
      NoHoldsNoCost(db.holds, w, Captured);
    }
  }

  lemma ConsumeInv(cfg: Config, db: Db, w: Wallet, cost: int, requestId: Option<string>)
    requires Inv(cfg, db)
    ensures var tx := Consume(cfg, db, w, cost, requestId);
      tx.Commit? ==>
        && Inv(cfg, tx.db)
        && (tx.result == None ==> tx.db == db)
        && (tx.result.Some? ==> tx.result.value == (CreditsOf(db, w), CreditsOf(db, w) - cost) && cost > 0)
        && forall x :: Total(tx.db, x) == Total(db, x) - (if x == w && tx.result.Some? then cost else 0)
  {
    var tx := Consume(cfg, db, w, cost, requestId);
    if tx.Commit? && tx.result.Some? {
      var before := CreditsOf(db, w);
      MovedInv(cfg, db, tx.db, LedgerRow(w, Debit, cost, before, before - cost, CreditConsume, requestId), -cost);
    }
  }

  lemma AddShape(cfg: Config, db: Db, w: Wallet, amount: int)
    requires Inv(cfg, db)
    ensures var tx := AddCredits(cfg, db, w, amount);
      var before := CreditsOf(db, w);
      tx.Commit? ==>
        && (tx.result == None ==> tx.db == db)
        && (tx.result.Some? ==>
              && amount > 0 && before + amount <= MAX_INT && tx.result.value == (before, before + amount)
              && CreditsMoved(db, tx.db, w, amount) && tx.db.earnings == db.earnings
              && tx.db.ledger == (if cfg.ledgerEnabled
                    then db.ledger + [LedgerRow(w, Credit, amount, before, before + amount, ManualAdd, None)]
                   else db.ledger))
  {
  }

  lemma AddInv(cfg: Config, db: Db, w: Wallet, amount: int)
    requires Inv(cfg, db)
    ensures var tx := AddCredits(cfg, db, w, amount);
      tx.Commit? ==>
        && Inv(cfg, tx.db)
        && (tx.result == None ==> tx.db == db)
        && (tx.result.Some? ==> tx.result.value == (CreditsOf(db, w), CreditsOf(db, w) + amount) && amount > 0)
        && forall x :: Total(tx.db, x) == Total(db, x) + (if x == w && tx.result.Some? then amount else 0)
  {
    hide AddCredits;
    AddShape(cfg, db, w, amount);
    var tx := AddCredits(cfg, db, w, amount);
    if tx.Commit? && tx.result.Some? {
      var before := CreditsOf(db, w);
      MovedInv(cfg, db, tx.db, LedgerRow(w, Credit, amount, before, before + amount, ManualAdd, None), amount);
    }
  }

  lemma SyncShape(cfg: Config, db: Db, input: SyncInput)
    requires Inv(cfg, db)
    ensures var tx := Sync(cfg, db, input);
      var before := CreditsOf(db, input.wallet);
      tx.Commit? ==>
        && (!tx.result.applied ==> tx.db == db && tx.result.added == 0)
        && (tx.result.applied ==>
              && tx.result.added >= 0 && before + tx.result.added <= MAX_INT
              && CreditsMoved(db, tx.db, input.wallet, tx.result.added) && tx.db.earnings == db.earnings
              && tx.db.ledger == (if cfg.ledgerEnabled && tx.result.added > 0
                   then db.ledger + [SyncRow(db, input.wallet, tx.result.added)] else db.ledger))
  {
  }

  function SyncRow(db: Db, w: Wallet, added: int): LedgerRow {
    LedgerRow(w, Credit, added, CreditsOf(db, w), CreditsOf(db, w) + added, VaultSync, None)
  }

  lemma SyncInv(cfg: Config, db: Db, input: SyncInput)
    requires Inv(cfg, db)
    ensures var tx := Sync(cfg, db, input);
      tx.Commit? ==>
        && Inv(cfg, tx.db)
        && (!tx.result.applied ==> tx.db == db && tx.result.added == 0)
        && forall x :: Total(tx.db, x) == Total(db, x) + (if x == input.wallet then tx.result.added else 0)
  {
    var tx := Sync(cfg, db, input);
    SyncShape(cfg, db, input);
    if tx.Commit? && tx.result.applied {
      MovedInv(cfg, db, tx.db, SyncRow(db, input.wallet, tx.result.added), tx.result.added);
    }
  }

  lemma GateEarnings(holds: seq<Hold>, earnings: seq<Earning>, e: Earning)
    requires EarningsOkay(holds, earnings) && e.settlementId.GateSettlement? && !Settled(earnings, e.settlementId)
    requires CalculateSettlementAmounts(e.grossCredits, PROTOCOL_FEE_BPS, CREDIT_PRICE_WEI) == Split(e.amounts)
    ensures EarningsOkay(holds, earnings + [e])
  {
    var earnings' := earnings + [e];
    assert earnings'[..|earnings|] == earnings;
    forall i | 0 <= i < |holds| && holds[i].state == Captured
      ensures Settled(earnings', CaptureSettlement(holds[i].ticket))
    {
      var k :| 0 <= k < |earnings| && earnings[k].settlementId == CaptureSettlement(holds[i].ticket);
      assert earnings'[k] == earnings[k];
    }
    forall j, k | 0 <= j < k < |earnings'| ensures earnings'[j].settlementId != earnings'[k].settlementId {
      if k == |earnings| {
        assert earnings[j].settlementId != e.settlementId;
      }
    }
  }

  function GateRow(db: Db, input: GateInput): LedgerRow {
    var before := CreditsOf(db, input.wallet);
    LedgerRow(input.wallet, Debit, input.cost, before, before - input.cost, GateDebit, input.requestId)
  }

  ghost predicate GateEarned(db: Db, db': Db, e: Earning) {
    && db'.earnings == db.earnings + [e]
    && e.settlementId.GateSettlement? && !Settled(db.earnings, e.settlementId)
    && CalculateSettlementAmounts(e.grossCredits, PROTOCOL_FEE_BPS, CREDIT_PRICE_WEI) == Split(e.amounts)
  }

  lemma GateMoney(cfg: Config, db: Db, input: GateInput)
    requires Inv(cfg, db)
    ensures var tx := GateConsume(cfg, db, input);
      tx.Commit? ==>
        && (!tx.result.GateOk? ==> tx.db == db)
        && (tx.result.GateOk? ==>
              && 0 < input.cost <= CreditsOf(db, input.wallet)
              && tx.result.before == CreditsOf(db, input.wallet)
              && tx.result.after == CreditsOf(db, input.wallet) - input.cost
              && CreditsMoved(db, tx.db, input.wallet, -input.cost)
              && tx.db.ledger == (if cfg.ledgerEnabled then db.ledger + [GateRow(db, input)] else db.ledger))
  {
  }

  lemma GateEarning(cfg: Config, db: Db, input: GateInput)
    ensures var tx := GateConsume(cfg, db, input);
      tx.Commit? && tx.result.GateOk? ==>
        if input.owner.None? then tx.db.earnings == db.earnings
        else |tx.db.earnings| > |db.earnings| && GateEarned(db, tx.db, tx.db.earnings[|db.earnings|])
  {
  }

  lemma GateInv(cfg: Config, db: Db, input: GateInput)
    requires Inv(cfg, db)
    ensures var tx := GateConsume(cfg, db, input);
      tx.Commit? ==>
        && Inv(cfg, tx.db)
        && (!tx.result.GateOk? ==> tx.db == db)
        && (tx.result.GateOk? ==> tx.result.before == CreditsOf(db, input.wallet) && input.cost > 0
                                  && tx.result.after == CreditsOf(db, input.wallet) - input.cost)
        && forall x :: Total(tx.db, x)
            == Total(db, x) - (if x == input.wallet && tx.result.GateOk? then input.cost else 0)
  {
    GateMoney(cfg, db, input);
    GateEarning(cfg, db, input);
    var tx := GateConsume(cfg, db, input);
    if tx.Commit? && tx.result.GateOk? {
      GateMoved(cfg, db, tx.db, input);
    }
  }

  lemma GateMoved(cfg: Config, db: Db, db': Db, input: GateInput)
    requires Inv(cfg, db) && 0 < input.cost <= CreditsOf(db, input.wallet)
    requires CreditsMoved(db, db', input.wallet, -input.cost)
    requires db'.ledger == if cfg.ledgerEnabled then db.ledger + [GateRow(db, input)] else db.ledger
    requires db'.earnings == db.earnings
        || (|db'.earnings| > |db.earnings| && GateEarned(db, db', db'.earnings[|db.earnings|]))
    ensures Inv(cfg, db')
    ensures forall x :: Total(db', x) == Total(db, x) - (if x == input.wallet then input.cost else 0)
  {
    if db'.earnings != db.earnings {
      GateEarnings(db.holds, db.earnings, db'.earnings[|db.earnings|]);
    }
    MovedInv(cfg, db, db', GateRow(db, input), -input.cost);
  }
}
