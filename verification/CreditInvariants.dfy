/** What every credit operation keeps, whatever the order in which operations run. */
module CreditInvariants {
  import opened Common
  import opened SettlementAmounts
  import opened CreditState
  import opened CreditSteps

  // ---------- the invariant ----------

  ghost predicate HoldOkay(h: Hold, wallets: set<Wallet>) {
    && 0 < h.cost <= MAX_INT
    && h.wallet in wallets
    && h.state != Released
    && (h.state == Captured <==> h.proof.Some?)
    && (h.state == Captured <==> h.capturedAt.Some?)
  }

  ghost predicate HoldsOkay(holds: seq<Hold>, wallets: set<Wallet>) {
    && (forall i :: 0 <= i < |holds| ==> HoldOkay(holds[i], wallets))
    && (forall i, j :: 0 <= i < j < |holds| ==> holds[i].ticket != holds[j].ticket)
    && (forall i, j :: 0 <= i < j < |holds| && holds[i].state == Held && holds[j].state == Held ==>
          holds[i].wallet != holds[j].wallet || holds[i].service != holds[j].service)
  }

  /** heldCredits is exactly what the held holds add up to. */
  ghost predicate MoneyOkay(balances: map<Wallet, Balance>, holds: seq<Hold>) {
    forall w :: w in balances ==>
      && 0 <= balances[w].credits <= MAX_INT
      && 0 <= balances[w].held <= MAX_INT
      && balances[w].held == CostIn(holds, w, Held)
  }

  ghost predicate CapturedAs(holds: seq<Hold>, e: Earning)
    requires e.settlementId.CaptureSettlement?
  {
    exists i :: 0 <= i < |holds| && holds[i].state == Captured && holds[i].ticket == e.settlementId.ticketId
      && holds[i].cost == e.grossCredits && holds[i].wallet == e.wallet
  }

  /** Captured holds and capture earnings match one to one, and the money agrees. */
  ghost predicate EarningsOkay(holds: seq<Hold>, earnings: seq<Earning>) {
    && (forall k :: 0 <= k < |earnings| ==>
          CalculateSettlementAmounts(earnings[k].grossCredits, PROTOCOL_FEE_BPS, CREDIT_PRICE_WEI)
              == Split(earnings[k].amounts))
    && (forall j, k :: 0 <= j < k < |earnings| ==> earnings[j].settlementId != earnings[k].settlementId)
    && (forall k :: 0 <= k < |earnings| && earnings[k].settlementId.CaptureSettlement? ==>
          CapturedAs(holds, earnings[k]))
    && (forall i :: 0 <= i < |holds| && holds[i].state == Captured ==>
          Settled(earnings, CaptureSettlement(holds[i].ticket)))
    && CaptureGross(earnings) == CREDIT_PRICE_WEI * CapturedTotal(holds)
  }

  ghost predicate Chained(ledger: seq<LedgerRow>) {
    ledger == [] ||
      var row := ledger[|ledger| - 1];
      Chained(ledger[..|ledger| - 1]) && row.before == LastAfter(ledger[..|ledger| - 1], row.wallet).GetOr(0)
  }

  /** With the ledger on: rows telescope, the last one is the balance, and the net flow is accounted for. */
  ghost predicate BooksOkay(cfg: Config, db: Db) {
    cfg.ledgerEnabled ==>
      && Chained(db.ledger)
      && (forall k :: 0 <= k < |db.ledger| ==> db.ledger[k].wallet in db.balances)
      && (forall w :: w in db.balances ==>
            && LastAfter(db.ledger, w).GetOr(0) == db.balances[w].credits
            && NetFlow(db.ledger, w) == db.balances[w].credits - CostIn(db.holds, w, Captured))
  }

  ghost predicate Inv(cfg: Config, db: Db) {
    && HoldsOkay(db.holds, db.balances.Keys)
    && MoneyOkay(db.balances, db.holds)
    && EarningsOkay(db.holds, db.earnings)
    && BooksOkay(cfg, db)
  }

  /** Everything of a wallet that was neither debited by a gate nor consumed. */
  function Total(db: Db, w: Wallet): int {
    CreditsOf(db, w) + CostIn(db.holds, w, Held) + CostIn(db.holds, w, Captured)
  }

  // ---------- frames ----------

  lemma {:induction false} NoHoldsNoCost(holds: seq<Hold>, w: Wallet, st: HoldState)
    requires forall i :: 0 <= i < |holds| ==> holds[i].wallet != w
    ensures CostIn(holds, w, st) == 0
  {
    if holds != [] {
      NoHoldsNoCost(holds[..|holds| - 1], w, st);
    }
  }

  lemma {:induction false} NoRowsNoFlow(ledger: seq<LedgerRow>, w: Wallet)
    requires forall k :: 0 <= k < |ledger| ==> ledger[k].wallet != w
    ensures LastAfter(ledger, w) == None && NetFlow(ledger, w) == 0
  {
    if ledger != [] {
      NoRowsNoFlow(ledger[..|ledger| - 1], w);
    }
  }

  /** One more ledger row, booked against the balance it changes, keeps the books. */
  lemma BooksStep(cfg: Config, db: Db, db': Db, row: LedgerRow)
    requires BooksOkay(cfg, db) && row.amount > 0
    requires db'.ledger == if cfg.ledgerEnabled then db.ledger + [row] else db.ledger
    requires row.wallet in db'.balances && db.balances.Keys <= db'.balances.Keys
    requires row.wallet !in db.balances ==> forall k :: 0 <= k < |db.holds| ==> db.holds[k].wallet != row.wallet
    requires row.before == CreditsOf(db, row.wallet) && row.after == db'.balances[row.wallet].credits
    requires forall w :: w in db'.balances && w != row.wallet ==>
        && w in db.balances && db'.balances[w].credits == db.balances[w].credits
        && CostIn(db'.holds, w, Captured) == CostIn(db.holds, w, Captured)
    requires (if row.direction == Credit then row.amount else -row.amount)
        == (row.after - CostIn(db'.holds, row.wallet, Captured)) - (row.before - CostIn(db.holds, row.wallet, Captured))
    ensures BooksOkay(cfg, db')
  {
    if cfg.ledgerEnabled {
      var w := row.wallet;
      assert db'.ledger[..|db.ledger|] == db.ledger;
      if w !in db.balances {
        NoRowsNoFlow(db.ledger, w);
        NoHoldsNoCost(db.holds, w, Captured);
      }
    }
  }

  /** A held hold leaves the held state for good. */
  lemma HoldLeaves(holds: seq<Hold>, wallets: set<Wallet>, id: HoldId, h: Hold)
    requires HoldsOkay(holds, wallets) && id < |holds| && holds[id].state == Held && h.state != Held
    requires HoldOkay(h, wallets) && h.ticket == holds[id].ticket && h.wallet == holds[id].wallet
    ensures HoldsOkay(holds[id := h], wallets)
  {
  }

  /** Expiring a hold touches no earning. */
  lemma EarningsFrame(holds: seq<Hold>, earnings: seq<Earning>, id: HoldId, h: Hold)
    requires EarningsOkay(holds, earnings) && id < |holds|
    requires holds[id].state == Held && h.state != Captured
    ensures EarningsOkay(holds[id := h], earnings)
  {
    var holds' := holds[id := h];
    CapturedUpdate(holds, id, h);
    forall k | 0 <= k < |earnings| && earnings[k].settlementId.CaptureSettlement?
      ensures CapturedAs(holds', earnings[k])
    {
      var e := earnings[k];
      var i :| 0 <= i < |holds| && holds[i].state == Captured && holds[i].ticket == e.settlementId.ticketId
        && holds[i].cost == e.grossCredits && holds[i].wallet == e.wallet;
      assert holds'[i] == holds[i];
    }
  }

  lemma HeldCovers(cfg: Config, db: Db, id: HoldId)
    requires Inv(cfg, db) && id < |db.holds| && db.holds[id].state == Held
    ensures db.holds[id].wallet in db.balances
    ensures db.balances[db.holds[id].wallet].held >= db.holds[id].cost > 0
  {
    assert HoldOkay(db.holds[id], db.balances.Keys);
    forall k | 0 <= k < |db.holds| ensures db.holds[k].cost > 0 {
      assert HoldOkay(db.holds[k], db.balances.Keys);
    }
    CostCovers(db.holds, id, db.holds[id].wallet, Held);
  }

  // ---------- expiry ----------

  /** The tables after a refund, up to the ledger. */
  ghost predicate Refunded(db: Db, db': Db, id: HoldId, now: int)
    requires id < |db.holds| && db.holds[id].wallet in db.balances
  {
    var hold := db.holds[id];
    var b := db.balances[hold.wallet];
    && db'.holds == db.holds[id := hold.(state := Expired, releasedAt := Some(now))]
    && db'.balances == db.balances[hold.wallet := b.(credits := b.credits + hold.cost, held := b.held - hold.cost)]
    && db' == db.(holds := db'.holds, balances := db'.balances, ledger := db'.ledger)
  }

  lemma RefundCosts(db: Db, db': Db, id: HoldId, now: int, w: Wallet)
    requires id < |db.holds| && db.holds[id].wallet in db.balances && db.holds[id].state == Held
    requires Refunded(db, db', id, now)
    ensures CostIn(db'.holds, w, Held) == CostIn(db.holds, w, Held) - CostOf(db.holds[id], w, Held)
    ensures CostIn(db'.holds, w, Captured) == CostIn(db.holds, w, Captured)
    ensures Total(db', w) == Total(db, w)
  {
    CostUpdate(db.holds, id, db'.holds[id], w, Held);
    CostUpdate(db.holds, id, db'.holds[id], w, Captured);
  }

  /** The "heldCredits invariant violation" throw is unreachable; what can fail is a column overflow or a unique key. */
  lemma ExpireHeldEffect(cfg: Config, db: Db, id: HoldId, now: int)
    requires Inv(cfg, db) && id < |db.holds| && db.holds[id].state == Held
    ensures db.holds[id].wallet in db.balances
    ensures ExpireHeld(cfg, db, id, now).Refused? ==>
        ExpireHeld(cfg, db, id, now).error in {IntOutOfRange, UniqueConflict}
    ensures ExpireHeld(cfg, db, id, now).Written? ==>
        && Refunded(db, ExpireHeld(cfg, db, id, now).db, id, now)
        && db.balances[db.holds[id].wallet].credits + db.holds[id].cost <= MAX_INT
  {
    HeldCovers(cfg, db, id);
  }

  function RefundRow(db: Db, id: HoldId): LedgerRow
    requires id < |db.holds| && db.holds[id].wallet in db.balances
  {
    var hold, b := db.holds[id], db.balances[db.holds[id].wallet];
    LedgerRow(hold.wallet, Credit, hold.cost, b.credits, b.credits + hold.cost, HoldExpired,
              Some(ExpireSuffix(hold.ticket)))
  }

  /** A refund moves a cost from held to available and nothing else. */
  lemma RefundInv(cfg: Config, db: Db, db': Db, id: HoldId, now: int)
    requires Inv(cfg, db) && id < |db.holds| && db.holds[id].state == Held
    requires db.holds[id].wallet in db.balances && Refunded(db, db', id, now)
    requires db.balances[db.holds[id].wallet].credits + db.holds[id].cost <= MAX_INT
    requires db'.ledger == if cfg.ledgerEnabled then db.ledger + [RefundRow(db, id)] else db.ledger
    ensures Inv(cfg, db')
  {
    var hold := db.holds[id];
    HeldCovers(cfg, db, id);
    forall w ensures CostIn(db'.holds, w, Held) == CostIn(db.holds, w, Held) - CostOf(hold, w, Held)
      && CostIn(db'.holds, w, Captured) == CostIn(db.holds, w, Captured)
    {
      RefundCosts(db, db', id, now, w);
    }
    HoldLeaves(db.holds, db.balances.Keys, id, db'.holds[id]);
    EarningsFrame(db.holds, db.earnings, id, db'.holds[id]);
    assert db'.balances.Keys == db.balances.Keys;
    BooksStep(cfg, db, db', RefundRow(db, id));
  }

  lemma ExpireHeldInv(cfg: Config, db: Db, id: HoldId, now: int)
    requires Inv(cfg, db) && id < |db.holds| && db.holds[id].state == Held
    requires ExpireHeld(cfg, db, id, now).Written?
    ensures Inv(cfg, ExpireHeld(cfg, db, id, now).db)
  {
    HeldCovers(cfg, db, id);
    ExpireHeldEffect(cfg, db, id, now);
    RefundInv(cfg, db, ExpireHeld(cfg, db, id, now).db, id, now);
  }

  predicate InDue(due: seq<Due>, i: HoldId) {
    exists k :: 0 <= k < |due| && due[k].id == i
  }

  /** The sweep, described without its loop. */
  ghost predicate Swept(db: Db, db': Db, due: seq<Due>, w: Wallet, now: int) {
    && |db'.holds| == |db.holds|
    && (forall i :: 0 <= i < |db.holds| ==>
          db'.holds[i]
            == if InDue(due, i) then db.holds[i].(state := Expired, releasedAt := Some(now)) else db.holds[i])
    && db'.balances.Keys == db.balances.Keys
    && (forall x :: x in db.balances && x != w ==> db'.balances[x] == db.balances[x])
    && (w in db.balances ==> db'.balances[w].cursor == db.balances[w].cursor)
    && db' == db.(holds := db'.holds, balances := db'.balances, ledger := db'.ledger)
    && (forall x :: Total(db', x) == Total(db, x))
  }

  lemma SweptStep(db: Db, mid: Db, db': Db, init: seq<Due>, last: Due, w: Wallet, now: int)
    requires Swept(db, mid, init, w, now)
    requires last.id < |db.holds| && mid.holds[last.id] == db.holds[last.id] && mid.holds[last.id].wallet == w
    requires w in mid.balances && mid.holds[last.id].state == Held
    requires Refunded(mid, db', last.id, now)
    ensures Swept(db, db', init + [last], w, now)
  {
    var due := init + [last];
    forall i: HoldId | i < |db.holds| ensures InDue(due, i) <==> i == last.id || InDue(init, i) {
      if InDue(init, i) {
        var k :| 0 <= k < |init| && init[k].id == i;
        assert due[k].id == i;
      }
      if i == last.id {
        assert due[|init|].id == i;
      }
    }
    forall x ensures Total(db', x) == Total(db, x) {
      RefundCosts(mid, db', last.id, now, x);
    }
  }

  /** A list of overdue holds of wallet w, none twice. */
  ghost predicate DueFor(holds: seq<Hold>, due: seq<Due>, w: Wallet, now: int) {
    && (forall k :: 0 <= k < |due| ==> due[k].id < |holds| && IsOverdue(holds[due[k].id], w, now))
    && (forall j, k :: 0 <= j < k < |due| ==> due[j].id != due[k].id)
  }

  lemma SweepNext(cfg: Config, db: Db, mid: Db, init: seq<Due>, last: Due, w: Wallet, now: int)
    requires DueFor(db.holds, init + [last], w, now)
    requires Swept(db, mid, init, w, now) && Inv(cfg, mid)
    ensures last.id < |mid.holds|
    ensures ExpireHeld(cfg, mid, last.id, now).Refused? ==>
        ExpireHeld(cfg, mid, last.id, now).error in {IntOutOfRange, UniqueConflict}
    ensures ExpireHeld(cfg, mid, last.id, now).Written? ==>
        && Inv(cfg, ExpireHeld(cfg, mid, last.id, now).db)
        && Swept(db, ExpireHeld(cfg, mid, last.id, now).db, init + [last], w, now)
  {
    var due := init + [last];
    assert due[|init|] == last;
    assert !InDue(init, last.id) by {
      assert forall k :: 0 <= k < |init| ==> init[k] == due[k];
    }
    ExpireHeldEffect(cfg, mid, last.id, now);
    if ExpireHeld(cfg, mid, last.id, now).Written? {
      ExpireHeldInv(cfg, mid, last.id, now);
      SweptStep(db, mid, ExpireHeld(cfg, mid, last.id, now).db, init, last, w, now);
    }
  }

  lemma {:induction false} SweepInv(cfg: Config, db: Db, due: seq<Due>, w: Wallet, now: int)
    requires Inv(cfg, db) && DueFor(db.holds, due, w, now)
    ensures Sweep(cfg, db, due, now).Refused? ==> Sweep(cfg, db, due, now).error in {IntOutOfRange, UniqueConflict}
    ensures Sweep(cfg, db, due, now).Written? ==>
        Inv(cfg, Sweep(cfg, db, due, now).db) && Swept(db, Sweep(cfg, db, due, now).db, due, w, now)
  {
    if due == [] {
      assert Sweep(cfg, db, due, now) == Written(db);
      assert Swept(db, db, due, w, now);
    } else {
      var init, last := due[..|due| - 1], due[|due| - 1];
      assert due == init + [last];
      assert DueFor(db.holds, init, w, now);
      SweepInv(cfg, db, init, w, now);
      if Sweep(cfg, db, init, now).Written? {
        SweepNext(cfg, db, Sweep(cfg, db, init, now).db, init, last, w, now);
      }
    }
  }

  /** The list of the sweep is the overdue holds of the wallet. */
  lemma OverdueIsDue(holds: seq<Hold>, w: Wallet, now: int)
    ensures DueFor(holds, Overdue(holds, w, now), w, now)
    ensures forall i: HoldId :: i < |holds| ==> (InDue(Overdue(holds, w, now), i) <==> IsOverdue(holds[i], w, now))
  {
    var due := Overdue(holds, w, now);
    OverdueFacts(holds, w, now);
    assert forall k :: 0 <= k < |due| ==> due[k] in due;
    forall i: HoldId | i < |holds| ensures InDue(due, i) <==> IsOverdue(holds[i], w, now) {
      if IsOverdue(holds[i], w, now) {
        assert Due(holds[i].expiresAt, i) in due;
      }
    }
  }

  /** After the sweep the wallet has no overdue held hold, and what was refunded is what stopped being held. */
  lemma SweepWalletInv(cfg: Config, db: Db, w: Wallet, now: int)
    requires Inv(cfg, db)
    ensures SweepWallet(cfg, db, w, now).Refused? ==>
        SweepWallet(cfg, db, w, now).error in {IntOutOfRange, UniqueConflict}
    ensures SweepWallet(cfg, db, w, now).Written? ==>
      var db' := SweepWallet(cfg, db, w, now).db;
      && Inv(cfg, db')
      && Swept(db, db', Overdue(db.holds, w, now), w, now)
      && (forall i :: 0 <= i < |db'.holds| ==> !IsOverdue(db'.holds[i], w, now))
      && (forall i :: 0 <= i < |db.holds| && !IsOverdue(db.holds[i], w, now) ==> db'.holds[i] == db.holds[i])
  {
    OverdueIsDue(db.holds, w, now);
    SweepInv(cfg, db, Overdue(db.holds, w, now), w, now);
  }
}
