/** What the credit machine guarantees over whole runs, with any operations interleaved in any order. */
module CreditTheorems {
  import opened Common
  import opened SettlementAmounts
  import opened CreditState
  import opened CreditSteps
  import opened CreditInvariants
  import opened CreditProof
  import opened MapSums
  import Runs
  import Text

  lemma EmptyInv(cfg: Config)
    ensures Inv(cfg, EMPTY)
  {
  }

  // ---------- conservation ----------

  /** Credits an event reports as granted to wallet w: synced deposits and manual additions. */
  function Granted(cfg: Config, db: Db, ev: Event, w: Wallet): int {
    match ev
    case DoSync(i) =>
      var tx := Sync(cfg, db, i);
      if i.wallet == w && tx.Commit? then tx.result.added else 0
    case DoAdd(to, amount) =>
      var tx := AddCredits(cfg, db, to, amount);
      if to == w && tx.Commit? && tx.result.Some? then tx.result.value.1 - tx.result.value.0 else 0
    case _ => 0
  }

  /** Credits an event reports as taken from wallet w: gate debits and plain consumption. */
  function Spent(cfg: Config, db: Db, ev: Event, w: Wallet): int {
    match ev
    case DoConsume(from, cost, requestId) =>
      var tx := Consume(cfg, db, from, cost, requestId);
      if from == w && tx.Commit? && tx.result.Some? then tx.result.value.0 - tx.result.value.1 else 0
    case DoGate(i) =>
      var tx := GateConsume(cfg, db, i);
      if i.wallet == w && tx.Commit? && tx.result.GateOk? then tx.result.before - tx.result.after else 0
    case _ => 0
  }

  function TotalGranted(cfg: Config, db: Db, events: seq<Event>, w: Wallet): int {
    if events == [] then 0
    else
      var init := events[..|events| - 1];
      TotalGranted(cfg, db, init, w) + Granted(cfg, Run(cfg, db, init), events[|events| - 1], w)
  }

  function TotalSpent(cfg: Config, db: Db, events: seq<Event>, w: Wallet): int {
    if events == [] then 0
    else
      var init := events[..|events| - 1];
      TotalSpent(cfg, db, init, w) + Spent(cfg, Run(cfg, db, init), events[|events| - 1], w)
  }

  lemma ApplyInv(cfg: Config, db: Db, ev: Event)
    requires Inv(cfg, db)
    ensures Inv(cfg, Apply(cfg, db, ev))
    ensures forall w :: Total(Apply(cfg, db, ev), w) == Total(db, w) + Granted(cfg, db, ev, w) - Spent(cfg, db, ev, w)
  {
    hide Sync, CreateHold, Capture, ExpireOne, Consume, GateConsume, AddCredits;
    match ev
    case DoSync(i) => SyncInv(cfg, db, i);
    case DoCreateHold(i, now) => CreateHoldInv(cfg, db, i, now);
    case DoCapture(i) => CaptureInv(cfg, db, i);
    case DoExpire(id, at) => ExpireOneInv(cfg, db, id, at);
    case DoConsume(w, cost, r) => ConsumeInv(cfg, db, w, cost, r);
    case DoGate(i) => GateInv(cfg, db, i);
    case DoAdd(w, amount) => AddInv(cfg, db, w, amount);
    case SignersChange(active) =>
  }

  /** The invariant holds in every reachable state. */
  lemma {:induction false} RunInv(cfg: Config, db: Db, events: seq<Event>)
    requires Inv(cfg, db)
    ensures Inv(cfg, Run(cfg, db, events))
  {
    if events != [] {
      RunInv(cfg, db, events[..|events| - 1]);
      ApplyInv(cfg, Run(cfg, db, events[..|events| - 1]), events[|events| - 1]);
    }
  }

  /**
   Conservation: everything ever granted to a wallet is still available, held, captured, or was taken by
   a gate debit or a consumption. Holds, captures, refunds and sweeps create and destroy nothing.
   */
  lemma {:induction false} CreditsAreConserved(cfg: Config, events: seq<Event>, w: Wallet)
    ensures var db := Run(cfg, EMPTY, events);
      TotalGranted(cfg, EMPTY, events, w)
        == CreditsOf(db, w) + CostIn(db.holds, w, Held) + CostIn(db.holds, w, Captured)
         + TotalSpent(cfg, EMPTY, events, w)
  {
    EmptyInv(cfg);
    if events != [] {
      var init := events[..|events| - 1];
      CreditsAreConserved(cfg, init, w);
      RunInv(cfg, EMPTY, init);
      ApplyInv(cfg, Run(cfg, EMPTY, init), events[|events| - 1]);
    }
  }

  /** Merchants earn, before fees, exactly the price of the credits captured from wallets. */
  lemma CapturedCreditsAreEarned(cfg: Config, events: seq<Event>)
    ensures CaptureGross(Run(cfg, EMPTY, events).earnings)
        == CREDIT_PRICE_WEI * CapturedTotal(Run(cfg, EMPTY, events).holds)
  {
    EmptyInv(cfg);
    RunInv(cfg, EMPTY, events);
  }

  // ---------- held balance ----------

  /** heldCredits is always the sum of the held holds, no balance is negative, one hold per service. */
  lemma HeldBalanceAlways(cfg: Config, events: seq<Event>)
    ensures var db := Run(cfg, EMPTY, events);
      && (forall w :: w in db.balances ==>
            && db.balances[w].credits >= 0 && db.balances[w].held >= 0
            && db.balances[w].held == CostIn(db.holds, w, Held))
      && (forall i, j :: 0 <= i < j < |db.holds| && db.holds[i].state == Held && db.holds[j].state == Held ==>
            db.holds[i].wallet != db.holds[j].wallet || db.holds[i].service != db.holds[j].service)
  {
    EmptyInv(cfg);
    RunInv(cfg, EMPTY, events);
  }

  /** The three "heldCredits invariant violation" throws, and the missing-balance throws, are unreachable. */
  lemma InvariantThrowsUnreachable(cfg: Config, events: seq<Event>, hold: HoldInput, capture: CaptureInput, id: HoldId,
                                   now: int)
    ensures var db := Run(cfg, EMPTY, events);
      && CreateHold(cfg, db, hold, now) != Abort(HeldInvariantViolation)
      && CreateHold(cfg, db, hold, now) != Abort(BalanceMissing)
      && Capture(cfg, db, capture) != Abort(HeldInvariantViolation)
      && Capture(cfg, db, capture) != Abort(BalanceMissing)
      && ExpireOne(cfg, db, id, now) != Abort(HeldInvariantViolation)
      && ExpireOne(cfg, db, id, now) != Abort(BalanceMissing)
  {
    EmptyInv(cfg);
    RunInv(cfg, EMPTY, events);
    var db := Run(cfg, EMPTY, events);
    CreateHoldInv(cfg, db, hold, now);
    CaptureInv(cfg, db, capture);
    ExpireOneInv(cfg, db, id, now);
  }

  // ---------- a hold's row ----------

  /** Hold rows are only added, and a hold that is no longer held is never written again. */
  ghost predicate HoldsKept(db: Db, db': Db) {
    && |db.holds| <= |db'.holds|
    && (forall i :: 0 <= i < |db.holds| ==> HoldMoves(db.holds[i], db'.holds[i]))
  }

  /** Held may become captured or expired; captured and expired are final. */
  ghost predicate HoldMoves(h: Hold, h': Hold) {
    || h' == h
    || (h.state == Held && h'.state in {Captured, Expired}
        && h' == h.(state := h'.state, capturedAt := h'.capturedAt, proof := h'.proof, releasedAt := h'.releasedAt))
  }

  lemma SweepLowersCounts(cfg: Config, db: Db, w: Wallet, now: int, x: Wallet)
    requires Inv(cfg, db) && SweepWallet(cfg, db, w, now).Written?
    ensures HoldsKept(db, SweepWallet(cfg, db, w, now).db)
    ensures CountIn(SweepWallet(cfg, db, w, now).db.holds, x, Held) <= CountIn(db.holds, x, Held)
  {
    SweepWalletInv(cfg, db, w, now);
    CountDown(db.holds, SweepWallet(cfg, db, w, now).db.holds, x);
  }

  lemma CreateHoldKeeps(cfg: Config, db: Db, input: HoldInput, now: int)
    requires Inv(cfg, db)
    ensures CreateHold(cfg, db, input, now).Commit? ==> HoldsKept(db, CreateHold(cfg, db, input, now).db)
  {
    if CreateHold(cfg, db, input, now).Commit? && input.wallet in db.balances {
      SweepWalletInv(cfg, db, input.wallet, now);
      var swept := SweepWallet(cfg, db, input.wallet, now).db;
      if 0 < input.cost <= swept.balances[input.wallet].credits {
        IssueHoldShape(cfg, db, swept, input);
      }
    }
  }

  /** Issuing raises the count of the wallet by at most one, and not beyond the cap it was checked against. */
  lemma CreateHoldCounts(cfg: Config, db: Db, input: HoldInput, now: int, w: Wallet)
    requires Inv(cfg, db) && CreateHold(cfg, db, input, now).Commit?
    ensures CountIn(CreateHold(cfg, db, input, now).db.holds, w, Held)
        <= Max(CountIn(db.holds, w, Held), if w == input.wallet then input.walletHoldCap else 0)
  {
    if input.wallet in db.balances {
      SweepWalletInv(cfg, db, input.wallet, now);
      SweepLowersCounts(cfg, db, input.wallet, now, w);
      var swept := SweepWallet(cfg, db, input.wallet, now).db;
      if 0 < input.cost <= swept.balances[input.wallet].credits
         && CountIn(swept.holds, input.wallet, Held) < input.walletHoldCap {
        IssueHoldShape(cfg, db, swept, input);
        AppendCosts(swept.holds, NewHold(input), w, Held);
      }
    }
  }

  /** Fewer rows in the held state, none new: the count does not grow. */
  lemma {:induction false} CountDown(holds: seq<Hold>, holds': seq<Hold>, w: Wallet)
    requires |holds| == |holds'|
    requires forall i :: 0 <= i < |holds| ==> HoldMoves(holds[i], holds'[i])
    ensures CountIn(holds', w, Held) <= CountIn(holds, w, Held)
  {
    if holds != [] {
      CountDown(holds[..|holds| - 1], holds'[..|holds| - 1], w);
    }
  }

  lemma CaptureKeeps(cfg: Config, db: Db, input: CaptureInput)
    requires Inv(cfg, db)
    ensures HoldsKept(db, AfterTx(db, Capture(cfg, db, input)))
        && |AfterTx(db, Capture(cfg, db, input)).holds| == |db.holds|
  {
    if FindTicket(db.holds, input.ticket).Some? {
      var id := FindTicket(db.holds, input.ticket).value;
      if db.holds[id].state == Held {
        FinalizeShape(cfg, db, id, input);
      }
    }
  }

  lemma ExpireKeeps(cfg: Config, db: Db, id: HoldId, now: int)
    requires Inv(cfg, db)
    ensures HoldsKept(db, AfterTx(db, ExpireOne(cfg, db, id, now)))
        && |AfterTx(db, ExpireOne(cfg, db, id, now)).holds| == |db.holds|
  {
    if id < |db.holds| && db.holds[id].state == Held {
      ExpireHeldEffect(cfg, db, id, now);
    }
  }

  lemma MoneyKeeps(cfg: Config, db: Db, ev: Event)
    requires Inv(cfg, db)
    requires ev.DoSync? || ev.DoConsume? || ev.DoGate? || ev.DoAdd? || ev.SignersChange?
    ensures Apply(cfg, db, ev).holds == db.holds
  {
    if ev.DoGate? {
      GateMoney(cfg, db, ev.gate);
    }
  }

  lemma ApplyKeepsHolds(cfg: Config, db: Db, ev: Event)
    requires Inv(cfg, db)
    ensures HoldsKept(db, Apply(cfg, db, ev))
    ensures !ev.DoCreateHold? ==> |Apply(cfg, db, ev).holds| == |db.holds|
  {
    match ev
    case DoCreateHold(i, now) => CreateHoldKeeps(cfg, db, i, now);
    case DoCapture(i) => CaptureKeeps(cfg, db, i);
    case DoExpire(id, at) => ExpireKeeps(cfg, db, id, at);
    case _ => MoneyKeeps(cfg, db, ev);
  }

  lemma HoldsKeptChain(a: Db, b: Db, c: Db)
    requires HoldsKept(a, b) && HoldsKept(b, c)
    ensures HoldsKept(a, c)
  {
    forall i | 0 <= i < |a.holds| ensures HoldMoves(a.holds[i], c.holds[i]) {
      assert HoldMoves(a.holds[i], b.holds[i]) && HoldMoves(b.holds[i], c.holds[i]);
    }
  }

  lemma StepKeepsHolds(cfg: Config, events: seq<Event>, ev: Event)
    ensures HoldsKept(Run(cfg, EMPTY, events), Apply(cfg, Run(cfg, EMPTY, events), ev))
  {
    EmptyInv(cfg);
    RunInv(cfg, EMPTY, events);
    ApplyKeepsHolds(cfg, Run(cfg, EMPTY, events), ev);
  }

  lemma RunStep(cfg: Config, db: Db, events: seq<Event>, ev: Event)
    ensures Run(cfg, db, events + [ev]) == Apply(cfg, Run(cfg, db, events), ev)
  {
    Runs.FoldAppend(Step(cfg), db, events, ev);
  }

  lemma {:induction false} RunKeepsHolds(cfg: Config, before: seq<Event>, after: seq<Event>)
    ensures HoldsKept(Run(cfg, EMPTY, before), Run(cfg, EMPTY, before + after))
    decreases |after|
  {
    if after == [] {
      assert before + after == before;
    } else {
      var init, last := after[..|after| - 1], after[|after| - 1];
      RunKeepsHolds(cfg, before, init);
      assert before + after == (before + init) + [last];
      RunStep(cfg, EMPTY, before + init, last);
      StepKeepsHolds(cfg, before + init, last);
      HoldsKeptChain(Run(cfg, EMPTY, before), Run(cfg, EMPTY, before + init), Run(cfg, EMPTY, before + after));
    }
  }

  /** Captured and expired are absorbing: no race of capture, expiry and sweep changes the outcome or the proof. */
  lemma HoldOutcomeIsFinal(cfg: Config, before: seq<Event>, after: seq<Event>, id: HoldId)
    requires id < |Run(cfg, EMPTY, before).holds| && Run(cfg, EMPTY, before).holds[id].state != Held
    ensures var db' := Run(cfg, EMPTY, before + after);
      id < |db'.holds| && db'.holds[id] == Run(cfg, EMPTY, before).holds[id]
  {
    RunKeepsHolds(cfg, before, after);
    assert HoldMoves(Run(cfg, EMPTY, before).holds[id], Run(cfg, EMPTY, before + after).holds[id]);
  }

  /**
   Exactly one outcome: a captured hold has exactly one earning, for its full cost and its own wallet;
   a held or expired hold has none.
   */
  lemma EarningIffCaptured(cfg: Config, events: seq<Event>, id: HoldId)
    requires id < |Run(cfg, EMPTY, events).holds|
    ensures var db := Run(cfg, EMPTY, events);
      var hold := db.holds[id];
      && hold.state != Released
      && (hold.state == Captured <==> Settled(db.earnings, CaptureSettlement(hold.ticket)))
      && (forall j, k :: 0 <= j < k < |db.earnings| ==>
            || db.earnings[j].settlementId != CaptureSettlement(hold.ticket)
            || db.earnings[k].settlementId != CaptureSettlement(hold.ticket))
      && (forall k :: 0 <= k < |db.earnings| && db.earnings[k].settlementId == CaptureSettlement(hold.ticket) ==>
            db.earnings[k].grossCredits == hold.cost && db.earnings[k].wallet == hold.wallet)
  {
    EmptyInv(cfg);
    RunInv(cfg, EMPTY, events);
    var db := Run(cfg, EMPTY, events);
    var hold := db.holds[id];
    assert HoldOkay(hold, db.balances.Keys);
    forall k | 0 <= k < |db.earnings| && db.earnings[k].settlementId == CaptureSettlement(hold.ticket)
      ensures hold.state == Captured && db.earnings[k].grossCredits == hold.cost && db.earnings[k].wallet == hold.wallet
    {
      assert CapturedAs(db.holds, db.earnings[k]);
      var i :| 0 <= i < |db.holds| && db.holds[i].state == Captured && db.holds[i].ticket == hold.ticket
        && db.holds[i].cost == db.earnings[k].grossCredits && db.holds[i].wallet == db.earnings[k].wallet;
      assert i == id;
    }
  }

  ghost predicate RefundedInFull(db: Db, db': Db, id: HoldId)
    requires id < |db.holds|
  {
    var w, cost := db.holds[id].wallet, db.holds[id].cost;
    && id < |db'.holds| && db'.holds[id].state == Expired
    && w in db.balances && w in db'.balances
    && db'.balances[w].credits == db.balances[w].credits + cost
    && db'.balances[w].held == db.balances[w].held - cost
    && db'.earnings == db.earnings
  }

  ghost predicate EarnedOnce(db: Db, db': Db, id: HoldId, proof: string)
    requires id < |db.holds|
  {
    var w, cost := db.holds[id].wallet, db.holds[id].cost;
    && id < |db'.holds| && db'.holds[id].state == Captured && db'.holds[id].proof == Some(proof)
    && w in db.balances && w in db'.balances
    && db'.balances[w].credits == db.balances[w].credits
    && db'.balances[w].held == db.balances[w].held - cost
    && |db'.earnings| == |db.earnings| + 1 && db'.earnings[..|db.earnings|] == db.earnings
    && db'.earnings[|db.earnings|].settlementId == CaptureSettlement(db.holds[id].ticket)
    && db'.earnings[|db.earnings|].amounts.gross == CREDIT_PRICE_WEI * cost
  }

  /** One way a held hold ends: a refund of its full cost, and no earning. */
  lemma ExpiryRefunds(cfg: Config, db: Db, id: HoldId, now: int)
    requires Inv(cfg, db) && id < |db.holds| && db.holds[id].state == Held
    ensures var tx := ExpireOne(cfg, db, id, now);
      tx.Commit? && tx.result.ExpiredNow? ==> RefundedInFull(db, tx.db, id)
  {
    ExpireHeldEffect(cfg, db, id, now);
  }

  /** The other way: one earning over its full price, and no refund. */
  lemma CaptureEarns(cfg: Config, db: Db, id: HoldId, capture: CaptureInput)
    requires Inv(cfg, db) && id < |db.holds| && db.holds[id].state == Held
    ensures var tx := Capture(cfg, db, capture);
      tx.Commit? && tx.result.CapturedNow? && tx.result.id == id ==> EarnedOnce(db, tx.db, id, capture.proof)
  {
    FinalizeShape(cfg, db, id, capture);
    SplitIsExact(db.holds[id].cost, PROTOCOL_FEE_BPS, CREDIT_PRICE_WEI);
  }

  /** An overdue held hold fails to expire exactly when the refund overflows the balance or its ledger id is taken. */
  lemma ExpiryFailsIff(cfg: Config, db: Db, id: HoldId, now: int)
    requires Inv(cfg, db) && id < |db.holds| && db.holds[id].state == Held && db.holds[id].expiresAt <= now
    ensures var hold := db.holds[id];
      ExpireOne(cfg, db, id, now).Abort? <==>
        || CreditsOf(db, hold.wallet) + hold.cost > MAX_INT
        || (cfg.ledgerEnabled && LedgerHas(db.ledger, hold.wallet, ExpireSuffix(hold.ticket)))
  {
    assert HoldOkay(db.holds[id], db.balances.Keys);
    CostCovers(db.holds, id, db.holds[id].wallet, Held);
  }

  lemma NotYetSettled(cfg: Config, db: Db, id: HoldId)
    requires Inv(cfg, db) && id < |db.holds| && db.holds[id].state == Held
    ensures !Settled(db.earnings, CaptureSettlement(db.holds[id].ticket))
  {
    forall k | 0 <= k < |db.earnings| ensures db.earnings[k].settlementId != CaptureSettlement(db.holds[id].ticket) {
      assert db.earnings[k].settlementId.CaptureSettlement? ==> CapturedAs(db.holds, db.earnings[k]);
    }
  }

  /** A capture that passes every check fails exactly when its ledger id is taken or the service is blank. */
  lemma CaptureFailsIff(cfg: Config, db: Db, id: HoldId, input: CaptureInput)
    requires Inv(cfg, db) && id < |db.holds| && db.holds[id].state == Held
    ensures var hold := db.holds[id];
      FinalizeCapture(cfg, db, id, input).Abort? <==>
        || (cfg.ledgerEnabled && LedgerHas(db.ledger, hold.wallet, CaptureSuffix(hold.ticket)))
        || Text.Trim(hold.service) == ""
  {
    assert HoldOkay(db.holds[id], db.balances.Keys);
    CostCovers(db.holds, id, db.holds[id].wallet, Held);
    SplitIsExact(db.holds[id].cost, PROTOCOL_FEE_BPS, CREDIT_PRICE_WEI);
    NotYetSettled(cfg, db, id);
  }

  lemma {:induction false} FindOnly(holds: seq<Hold>, id: HoldId)
    requires id < |holds|
    requires forall i, j :: 0 <= i < j < |holds| ==> holds[i].ticket != holds[j].ticket
    ensures FindTicket(holds, holds[id].ticket) == Some(id)
  {
    if id < |holds| - 1 {
      FindOnly(holds[..|holds| - 1], id);
    }
  }

  /**
   Repeating a capture: with the same proof it is answered idempotently, with another it is refused, and
   either way no balance, hold, earning, nonce or ledger row changes.
   */
  lemma RecaptureChangesNothing(cfg: Config, events: seq<Event>, id: HoldId, again: CaptureInput)
    requires var db := Run(cfg, EMPTY, events);
      && id < |db.holds| && db.holds[id].state == Captured
      && again.ticket == db.holds[id].ticket && again.ticket != "" && again.proof != "" && again.service != ""
      && again.statusCode >= 0 && again.latencyMs >= 0
      && again.service == db.holds[id].service && db.holds[id].gateway.Some?
      && (db.holds[id].gateway.value, again.signer) in db.activeSigners
    ensures var db := Run(cfg, EMPTY, events);
      var tx := Capture(cfg, db, again);
      && tx.Commit?
      && tx.db == db.(attempts := tx.db.attempts)
      && (db.holds[id].proof == Some(again.proof) ==> tx.result.IdempotentReplay? && tx.result.id == id)
      && (db.holds[id].proof != Some(again.proof) ==> tx.result == CaptureConflict(db.holds[id].proof))
  {
    EmptyInv(cfg);
    RunInv(cfg, EMPTY, events);
    var db := Run(cfg, EMPTY, events);
    FindOnly(db.holds, id);
    assert HoldOkay(db.holds[id], db.balances.Keys);
  }

  // ---------- nothing is accepted twice ----------

  /** Nonces and earnings are only ever added. */
  ghost predicate HistoryKept(db: Db, db': Db) {
    && db.nonces <= db'.nonces
    && |db.earnings| <= |db'.earnings| && db'.earnings[..|db.earnings|] == db.earnings
  }

  lemma HistoryChain(a: Db, b: Db, c: Db)
    requires HistoryKept(a, b) && HistoryKept(b, c)
    ensures HistoryKept(a, c)
  {
    assert c.earnings[..|a.earnings|] == c.earnings[..|b.earnings|][..|a.earnings|];
  }

  lemma HoldHistory(cfg: Config, db: Db, input: HoldInput, now: int)
    requires Inv(cfg, db)
    ensures HistoryKept(db, AfterTx(db, CreateHold(cfg, db, input, now)))
  {
    if CreateHold(cfg, db, input, now).Commit? && input.wallet in db.balances {
      SweepWalletInv(cfg, db, input.wallet, now);
      var swept := SweepWallet(cfg, db, input.wallet, now).db;
      if 0 < input.cost <= swept.balances[input.wallet].credits {
        IssueHoldShape(cfg, db, swept, input);
      }
    }
  }

  lemma CaptureHistory(cfg: Config, db: Db, input: CaptureInput)
    requires Inv(cfg, db)
    ensures HistoryKept(db, AfterTx(db, Capture(cfg, db, input)))
  {
    if FindTicket(db.holds, input.ticket).Some? {
      var id := FindTicket(db.holds, input.ticket).value;
      if db.holds[id].state == Held {
        FinalizeShape(cfg, db, id, input);
      }
    }
  }

  lemma GateHistory(cfg: Config, db: Db, input: GateInput)
    ensures HistoryKept(db, AfterTx(db, GateConsume(cfg, db, input)))
  {
  }

  lemma ExpireHistory(cfg: Config, db: Db, id: HoldId, at: int)
    requires Inv(cfg, db)
    ensures HistoryKept(db, AfterTx(db, ExpireOne(cfg, db, id, at)))
  {
    if id < |db.holds| && db.holds[id].state == Held {
      ExpireHeldEffect(cfg, db, id, at);
    }
  }

  lemma MoneyHistory(cfg: Config, db: Db, ev: Event)
    requires ev.DoSync? || ev.DoConsume? || ev.DoAdd? || ev.SignersChange?
    ensures HistoryKept(db, Apply(cfg, db, ev))
  {
  }

  lemma ApplyHistory(cfg: Config, db: Db, ev: Event)
    requires Inv(cfg, db)
    ensures HistoryKept(db, Apply(cfg, db, ev))
  {
    match ev
    case DoCreateHold(i, now) => HoldHistory(cfg, db, i, now);
    case DoCapture(i) => CaptureHistory(cfg, db, i);
    case DoGate(i) => GateHistory(cfg, db, i);
    case DoExpire(id, at) => ExpireHistory(cfg, db, id, at);
    case _ => MoneyHistory(cfg, db, ev);
  }

  lemma {:induction false} RunHistory(cfg: Config, before: seq<Event>, after: seq<Event>)
    ensures HistoryKept(Run(cfg, EMPTY, before), Run(cfg, EMPTY, before + after))
    decreases |after|
  {
    if after == [] {
      assert before + after == before;
    } else {
      var init, last := after[..|after| - 1], after[|after| - 1];
      var mid := Run(cfg, EMPTY, before + init);
      RunHistory(cfg, before, init);
      EmptyInv(cfg);
      RunInv(cfg, EMPTY, before + init);
      ApplyHistory(cfg, mid, last);
      HistoryChain(Run(cfg, EMPTY, before), mid, Apply(cfg, mid, last));
      RunStep(cfg, EMPTY, before + init, last);
      assert before + after == (before + init) + [last];
    }
  }

  lemma IssuedMarksNonce(cfg: Config, db: Db, input: HoldInput, now: int)
    requires Inv(cfg, db) && cfg.nonceStoreEnabled
    ensures var tx := CreateHold(cfg, db, input, now);
      tx.Commit? && tx.result.HoldOk? ==> TicketNonce(input) !in db.nonces && TicketNonce(input) in tx.db.nonces
  {
    if CreateHold(cfg, db, input, now).Commit? && input.wallet in db.balances {
      SweepWalletInv(cfg, db, input.wallet, now);
      var swept := SweepWallet(cfg, db, input.wallet, now).db;
      if 0 < input.cost <= swept.balances[input.wallet].credits {
        IssueHoldShape(cfg, db, swept, input);
      }
    }
  }

  /**
   A signed ticket request is honoured once: after a hold was issued for a nonce, no later request with the
   same wallet, service and nonce is, whatever happens in between.
   */
  lemma TicketNonceHonouredOnce(cfg: Config, before: seq<Event>, first: HoldInput, at: int, between: seq<Event>,
                                again: HoldInput, now: int)
    requires cfg.nonceStoreEnabled && TicketNonce(again) == TicketNonce(first)
    requires var tx := CreateHold(cfg, Run(cfg, EMPTY, before), first, at); tx.Commit? && tx.result.HoldOk?
    ensures var tx := CreateHold(cfg, Run(cfg, EMPTY, before + [DoCreateHold(first, at)] + between), again, now);
      tx.Commit? ==> !tx.result.HoldOk?
  {
    var issued := before + [DoCreateHold(first, at)];
    EmptyInv(cfg);
    RunInv(cfg, EMPTY, before);
    RunInv(cfg, EMPTY, issued + between);
    IssuedMarksNonce(cfg, Run(cfg, EMPTY, before), first, at);
    RunStep(cfg, EMPTY, before, DoCreateHold(first, at));
    RunHistory(cfg, issued, between);
    IssuedMarksNonce(cfg, Run(cfg, EMPTY, issued + between), again, now);
  }

  /** The settlement id of a gate debit that pays a merchant. */
  function GateId(input: GateInput): SettlementId
    requires input.requestId.Some?
  {
    GateSettlement(input.wallet, Text.Trim(input.requestId.value))
  }

  lemma GateSettles(cfg: Config, db: Db, input: GateInput)
    requires input.owner.Some? && input.requestId.Some?
    ensures var tx := GateConsume(cfg, db, input);
      tx.Commit? && tx.result.GateOk? ==> !Settled(db.earnings, GateId(input)) && Settled(tx.db.earnings, GateId(input))
  {
    var tx := GateConsume(cfg, db, input);
    if tx.Commit? && tx.result.GateOk? {
      assert tx.db.earnings[|db.earnings|].settlementId == GateId(input);
    }
  }

  lemma SettledStays(a: seq<Earning>, b: seq<Earning>, id: SettlementId)
    requires |a| <= |b| && b[..|a|] == a && Settled(a, id)
    ensures Settled(b, id)
  {
    var k :| 0 <= k < |a| && a[k].settlementId == id;
    assert b[..|a|][k] == b[k];
  }

  /**
   A wallet is charged once per merchant request: after a gate debit with an earning, a repetition of the same
   request id by the same wallet is never accepted again, with or without ledger and nonce store, and changes nothing.
   */
  lemma GateChargesOnce(cfg: Config, before: seq<Event>, first: GateInput, between: seq<Event>, again: GateInput)
    requires first.owner.Some? && first.requestId.Some? && again.owner.Some? && again.requestId.Some?
    requires GateId(again) == GateId(first)
    requires var tx := GateConsume(cfg, Run(cfg, EMPTY, before), first); tx.Commit? && tx.result.GateOk?
    ensures var db := Run(cfg, EMPTY, before + [DoGate(first)] + between);
      var tx := GateConsume(cfg, db, again);
      tx.Commit? ==> !tx.result.GateOk? && tx.db == db
  {
    var charged := before + [DoGate(first)];
    var db0, db1 := Run(cfg, EMPTY, before), Run(cfg, EMPTY, charged);
    GateSettles(cfg, db0, first);
    RunStep(cfg, EMPTY, before, DoGate(first));
    RunHistory(cfg, charged, between);
    var db := Run(cfg, EMPTY, charged + between);
    SettledStays(db1.earnings, db.earnings, GateId(first));
    GateSettles(cfg, db, again);
    EmptyInv(cfg);
    RunInv(cfg, EMPTY, charged + between);
    GateInv(cfg, db, again);
  }

  /**
   A refused ticket request leaves no trace but refunds: replays and duplicate holds undo even those, the other
   refusals keep exactly the expiry of the wallet's overdue holds.
   */
  lemma RefusalsOnlyRefund(cfg: Config, db: Db, input: HoldInput, now: int)
    requires Inv(cfg, db)
    ensures var tx := CreateHold(cfg, db, input, now);
      tx.Commit? && !tx.result.HoldOk? ==>
        && (tx.result in {Replay, WalletServiceHoldExists} || input.wallet !in db.balances ==> tx.db == db)
        && (tx.db == db || Swept(db, tx.db, Overdue(db.holds, input.wallet, now), input.wallet, now))
        && tx.db.nonces == db.nonces && tx.db.earnings == db.earnings && |tx.db.holds| == |db.holds|
  {
    if CreateHold(cfg, db, input, now).Commit? && input.wallet in db.balances {
      SweepWalletInv(cfg, db, input.wallet, now);
      var swept := SweepWallet(cfg, db, input.wallet, now).db;
      if 0 < input.cost <= swept.balances[input.wallet].credits {
        IssueHoldShape(cfg, db, swept, input);
      }
    }
  }

  // ---------- the cap on held holds ----------

  ghost predicate CapsAtMost(events: seq<Event>, cap: nat) {
    forall n :: 0 <= n < |events| && events[n].DoCreateHold? ==> events[n].hold.walletHoldCap <= cap
  }

  /** With a fixed configured cap, no wallet ever has more held holds than the cap. */
  lemma {:induction false} HeldCountNeverExceedsCap(cfg: Config, events: seq<Event>, cap: nat, w: Wallet)
    requires CapsAtMost(events, cap)
    ensures CountIn(Run(cfg, EMPTY, events).holds, w, Held) <= cap
  {
    if events != [] {
      var n := |events| - 1;
      var db := Run(cfg, EMPTY, events[..n]);
      assert CapsAtMost(events[..n], cap);
      HeldCountNeverExceedsCap(cfg, events[..n], cap, w);
      EmptyInv(cfg);
      RunInv(cfg, EMPTY, events[..n]);
      if events[n].DoCreateHold? {
        if CreateHold(cfg, db, events[n].hold, events[n].now).Commit? {
          CreateHoldCounts(cfg, db, events[n].hold, events[n].now, w);
        }
      } else {
        ApplyKeepsHolds(cfg, db, events[n]);
        CountDown(db.holds, Apply(cfg, db, events[n]).holds, w);
      }
    }
  }

  // ---------- the audit ----------

  /** The wallets scripts/reconcile-credits.ts reports: last ledger row and balance differ. */
  function Drift(db: Db): set<Wallet> {
    set w | w in db.balances && LastAfter(db.ledger, w).Some? && LastAfter(db.ledger, w).value != db.balances[w].credits
  }

  function HeldDrift(db: Db): set<Wallet> {
    set w | w in db.balances && db.balances[w].held != CostIn(db.holds, w, Held)
  }

  function MissingLedger(db: Db): set<Wallet> {
    set w | w in db.balances && LastAfter(db.ledger, w).None?
  }

  /**
   With the ledger on from the start both audits find nothing in every reachable state, a wallet without
   ledger rows has no credits, and each wallet's CREDIT minus DEBIT flow is its credits minus what was
   captured from it (a captured credit is debited once when held and once more when captured).
   */
  lemma AuditFindsNothing(cfg: Config, events: seq<Event>)
    requires cfg.ledgerEnabled
    ensures var db := Run(cfg, EMPTY, events);
      && Drift(db) == {} && HeldDrift(db) == {}
      && (forall w :: w in MissingLedger(db) ==> db.balances[w].credits == 0)
      && Chained(db.ledger)
      && (forall w :: w in db.balances ==>
            NetFlow(db.ledger, w) == db.balances[w].credits - CostIn(db.holds, w, Captured))
  {
    EmptyInv(cfg);
    RunInv(cfg, EMPTY, events);
  }

  /** CREDIT minus DEBIT amounts of all rows, as the summary prints it. */
  function TotalFlow(ledger: seq<LedgerRow>): int {
    if ledger == [] then 0
    else
      var row := ledger[|ledger| - 1];
      TotalFlow(ledger[..|ledger| - 1]) + (if row.direction == Credit then row.amount else -row.amount)
  }

  function CreditsByWallet(db: Db): map<Wallet, int> {
    map w | w in db.balances :: db.balances[w].credits
  }

  function FlowByWallet(ledger: seq<LedgerRow>, wallets: set<Wallet>): map<Wallet, int> {
    map w | w in wallets :: NetFlow(ledger, w)
  }

  function CapturedByWallet(holds: seq<Hold>, wallets: set<Wallet>): map<Wallet, int> {
    map w | w in wallets :: CostIn(holds, w, Captured)
  }

  lemma {:induction false} SumZero(m: map<Wallet, int>)
    requires forall w :: w in m ==> m[w] == 0
    ensures SumOver(m) == 0
    decreases |m|
  {
    if m != map[] {
      var w :| w in m;
      SumOverRemove(m, w);
      SumZero(m - {w});
    }
  }

  lemma {:induction false} FlowsAddUp(ledger: seq<LedgerRow>, wallets: set<Wallet>)
    requires forall k :: 0 <= k < |ledger| ==> ledger[k].wallet in wallets
    ensures SumOver(FlowByWallet(ledger, wallets)) == TotalFlow(ledger)
  {
    if ledger == [] {
      SumZero(FlowByWallet(ledger, wallets));
    } else {
      var init, row := ledger[..|ledger| - 1], ledger[|ledger| - 1];
      FlowsAddUp(init, wallets);
      SumOverUpdate(FlowByWallet(init, wallets), row.wallet, NetFlow(ledger, row.wallet));
      assert FlowByWallet(ledger, wallets) == FlowByWallet(init, wallets)[row.wallet := NetFlow(ledger, row.wallet)];
    }
  }

  lemma {:induction false} CapturesAddUp(holds: seq<Hold>, wallets: set<Wallet>)
    requires forall k :: 0 <= k < |holds| ==> holds[k].wallet in wallets
    ensures SumOver(CapturedByWallet(holds, wallets)) == CapturedTotal(holds)
  {
    if holds == [] {
      SumZero(CapturedByWallet(holds, wallets));
    } else {
      var init, hold := holds[..|holds| - 1], holds[|holds| - 1];
      CapturesAddUp(init, wallets);
      SumOverUpdate(CapturedByWallet(init, wallets), hold.wallet, CostIn(holds, hold.wallet, Captured));
      assert CapturedByWallet(holds, wallets)
          == CapturedByWallet(init, wallets)[hold.wallet := CostIn(holds, hold.wallet, Captured)];
    }
  }

  lemma {:induction false} SumOfDifferences(a: map<Wallet, int>, b: map<Wallet, int>, c: map<Wallet, int>)
    requires a.Keys == b.Keys == c.Keys && forall w :: w in a ==> a[w] == b[w] - c[w]
    ensures SumOver(a) == SumOver(b) - SumOver(c)
    decreases |a|
  {
    if a == map[] {
      assert b == map[] && c == map[];
    } else {
      var w :| w in a;
      SumOverRemove(a, w);
      SumOverRemove(b, w);
      SumOverRemove(c, w);
      SumOfDifferences(a - {w}, b - {w}, c - {w});
    }
  }

  /**
   Over all wallets: with the ledger on, the net flow the audit prints is the total of all balances less the
   captured costs, so the two printed totals agree exactly as long as nothing was captured.
   */
  lemma TotalsAgree(cfg: Config, events: seq<Event>)
    requires cfg.ledgerEnabled
    ensures var db := Run(cfg, EMPTY, events);
      && TotalFlow(db.ledger) == SumOver(CreditsByWallet(db)) - CapturedTotal(db.holds)
      && (TotalFlow(db.ledger) == SumOver(CreditsByWallet(db)) <==>
            forall k :: 0 <= k < |db.holds| ==> db.holds[k].state != Captured)
  {
    EmptyInv(cfg);
    RunInv(cfg, EMPTY, events);
    var db := Run(cfg, EMPTY, events);
    var wallets := db.balances.Keys;
    forall k | 0 <= k < |db.holds| ensures db.holds[k].wallet in wallets && db.holds[k].cost > 0 {
      assert HoldOkay(db.holds[k], wallets);
    }
    FlowsAddUp(db.ledger, wallets);
    CapturesAddUp(db.holds, wallets);
    SumOfDifferences(FlowByWallet(db.ledger, wallets), CreditsByWallet(db), CapturedByWallet(db.holds, wallets));
    NoneCapturedIff(db.holds);
  }

  lemma {:induction false} NoneCapturedIff(holds: seq<Hold>)
    requires forall k :: 0 <= k < |holds| ==> holds[k].cost > 0
    ensures CapturedTotal(holds) >= 0
    ensures CapturedTotal(holds) == 0 <==> forall k :: 0 <= k < |holds| ==> holds[k].state != Captured
  {
    if holds != [] {
      NoneCapturedIff(holds[..|holds| - 1]);
    }
  }

  /** The held audit needs no ledger at all. */
  lemma HeldAuditFindsNothing(cfg: Config, events: seq<Event>)
    ensures HeldDrift(Run(cfg, EMPTY, events)) == {}
  {
    EmptyInv(cfg);
    RunInv(cfg, EMPTY, events);
  }

  /** The loop of the audit script over the wallets it loaded. */
  method Audit(db: Db, wallets: seq<Wallet>)
    returns (missing: seq<Wallet>, drift: seq<Wallet>, heldDrift: seq<Wallet>)
    requires forall k :: 0 <= k < |wallets| ==> wallets[k] in db.balances
    requires forall w :: w in db.balances ==> w in wallets
    ensures SetOf(missing) == MissingLedger(db) && SetOf(drift) == Drift(db) && SetOf(heldDrift) == HeldDrift(db)
  {
    missing, drift, heldDrift := [], [], [];
    for k := 0 to |wallets|
      invariant forall w :: w in missing <==> w in wallets[..k] && w in MissingLedger(db)
      invariant forall w :: w in drift <==> w in wallets[..k] && w in Drift(db)
      invariant forall w :: w in heldDrift <==> w in wallets[..k] && w in HeldDrift(db)
    {
      var w := wallets[k];
      var latest := LastAfter(db.ledger, w);
      if latest.None? {
        missing := missing + [w];
      } else if latest.value != db.balances[w].credits {
        drift := drift + [w];
      }
      if db.balances[w].held != CostIn(db.holds, w, Held) {
        heldDrift := heldDrift + [w];
      }
    }
    assert wallets[..|wallets|] == wallets;
  }
}
