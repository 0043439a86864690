/**
 What each credit operation answers in every reachable state, exactly when, and what it leaves in the tables.
 Together the conditions of one operation cover every input once, in the order in which the program checks them.
 */
module CreditAnswers {
  import opened Common
  import opened SettlementAmounts
  import opened CreditState
  import opened CreditSteps
  import opened CreditInvariants
  import opened CreditProof
  import opened CreditTheorems
  import opened Text

  // ---------- captureFulfillmentHold ----------

  predicate WellFormed(input: CaptureInput) {
    input.ticket != "" && input.proof != "" && input.service != "" && input.statusCode >= 0 && input.latencyMs >= 0
  }

  /** The signer is active for the gateway of the hold; nobody is for a hold without a gateway. */
  predicate SignerActive(db: Db, hold: Hold, signer: string) {
    hold.gateway.Some? && (hold.gateway.value, signer) in db.activeSigners
  }

  /** The answer is given, one attempt is recorded with it, and nothing else changes. */
  ghost predicate Answers(db: Db, tx: Tx<CaptureResult>, id: HoldId, input: CaptureInput, result: CaptureResult,
                          success: bool, httpStatus: int)
  {
    tx == Commit(db.(attempts := db.attempts + [Attempt(id, input.proof, input.signer, success, httpStatus)]), result)
  }

  /**
   What an accepted capture leaves: the hold with its proof, its cost no longer held, one ledger row, one earning over
   the whole price for the owner the hold names, and the attempt.
   */
  ghost predicate CapturedInto(cfg: Config, db: Db, db': Db, id: HoldId, input: CaptureInput)
    requires id < |db.holds|
  {
    var hold, w := db.holds[id], db.holds[id].wallet;
    && w in db.balances
    && db'.holds == db.holds[id := hold.(state := Captured, capturedAt := Some(input.completedAt),
                                        proof := Some(input.proof), releasedAt := None)]
    && db'.balances == db.balances[w := db.balances[w].(held := db.balances[w].held - hold.cost)]
    && db'.nonces == db.nonces && db'.activeSigners == db.activeSigners
    && db'.attempts == db.attempts + [Attempt(id, input.proof, input.signer, true, 200)]
    && db'.ledger == (if cfg.ledgerEnabled
         then db.ledger + [LedgerRow(w, Debit, hold.cost, db.balances[w].credits, db.balances[w].credits,
                                     CaptureFinalized, Some(hold.ticket + ":capture"))]
         else db.ledger)
    && CalculateSettlementAmounts(hold.cost, PROTOCOL_FEE_BPS, CREDIT_PRICE_WEI).Split?
    && db'.earnings == db.earnings + [Earning(
         CaptureSettlement(hold.ticket), w, hold.owner, Trim(hold.service), hold.cost,
         CalculateSettlementAmounts(hold.cost, PROTOCOL_FEE_BPS, CREDIT_PRICE_WEI).amounts)]
  }

  /** A capture is accepted for the named service, by an active signer, before the hold expires; never otherwise. */
  predicate MayCapture(db: Db, hold: Hold, input: CaptureInput) {
    hold.state == Held && hold.service == input.service && SignerActive(db, hold, input.signer)
    && input.completedAt < hold.expiresAt
  }

  /** A malformed capture throws, and one for an unknown ticket is answered and leaves nothing. */
  lemma CaptureOfNothing(cfg: Config, db: Db, input: CaptureInput)
    ensures !WellFormed(input) ==> Capture(cfg, db, input) == Abort(InvalidInput)
    ensures WellFormed(input) ==>
        (Capture(cfg, db, input) == Commit(db, NoSuchHold) <==> !TicketUsed(db.holds, input.ticket))
  {
  }

  /** Exactly when a capture of an existing hold is accepted, in every reachable state. */
  lemma CapturedIff(cfg: Config, events: seq<Event>, id: HoldId, input: CaptureInput)
    requires WellFormed(input)
    requires id < |Run(cfg, EMPTY, events).holds| && Run(cfg, EMPTY, events).holds[id].ticket == input.ticket
    ensures var db, hold := Run(cfg, EMPTY, events), Run(cfg, EMPTY, events).holds[id];
      var tx := Capture(cfg, db, input);
      && (tx.Commit? ==>
            && (tx.result.CapturedNow? <==> MayCapture(db, hold, input))
            && (tx.result.CapturedNow? ==>
                  && CapturedInto(cfg, db, tx.db, id, input)
                  && tx.result == CapturedNow(id, db.balances[hold.wallet], tx.db.balances[hold.wallet])))
      && (tx.Abort? <==>
            && MayCapture(db, hold, input)
            && ((cfg.ledgerEnabled && LedgerHas(db.ledger, hold.wallet, hold.ticket + ":capture"))
                || Trim(hold.service) == ""))
  {
    EmptyInv(cfg);
    RunInv(cfg, EMPTY, events);
    var db := Run(cfg, EMPTY, events);
    FindOnly(db.holds, id);
    if db.holds[id].state == Held {
      FinalizeShape(cfg, db, id, input);
      CaptureFailsIff(cfg, db, id, input);
    }
  }

  /**
   Every other answer, in order of precedence: another service (409), a signer that is not active (403), the same
   proof again (200) or another one (409) on a captured hold, a hold that ended otherwise (409), one that is due (409).
   */
  lemma CaptureRefusals(cfg: Config, events: seq<Event>, id: HoldId, input: CaptureInput)
    requires WellFormed(input)
    requires id < |Run(cfg, EMPTY, events).holds| && Run(cfg, EMPTY, events).holds[id].ticket == input.ticket
    ensures var db, hold := Run(cfg, EMPTY, events), Run(cfg, EMPTY, events).holds[id];
      var tx := Capture(cfg, db, input);
      var known := hold.service == input.service;
      var allowed := known && SignerActive(db, hold, input.signer);
      && (!known <==> Answers(db, tx, id, input, ServiceMismatch, false, 409))
      && (known && !allowed <==> Answers(db, tx, id, input, UnauthorizedSigner, false, 403))
      && (allowed && hold.state == Captured && hold.proof == Some(input.proof)
          <==> hold.capturedAt.Some?
               && Answers(db, tx, id, input, IdempotentReplay(id, hold.capturedAt.value), true, 200))
      && (allowed && hold.state == Captured && hold.proof != Some(input.proof)
          <==> Answers(db, tx, id, input, CaptureConflict(hold.proof), false, 409))
      && (allowed && hold.state == Expired <==> Answers(db, tx, id, input, Terminal(Expired), false, 409))
      && (allowed && hold.state == Held && hold.expiresAt <= input.completedAt
          <==> Answers(db, tx, id, input, ExpiredDue, false, 409))
  {
    EmptyInv(cfg);
    RunInv(cfg, EMPTY, events);
    var db := Run(cfg, EMPTY, events);
    FindOnly(db.holds, id);
    assert HoldOkay(db.holds[id], db.balances.Keys);
    RefusalsOf(cfg, db, id, input);
  }

  /** The answers differ, and each case gives one. */
  lemma RefusalsOf(cfg: Config, db: Db, id: HoldId, input: CaptureInput)
    requires WellFormed(input) && id < |db.holds| && FindTicket(db.holds, input.ticket) == Some(id)
    requires HoldOkay(db.holds[id], db.balances.Keys)
    ensures var hold, tx := db.holds[id], Capture(cfg, db, input);
      var known := hold.service == input.service;
      var allowed := known && SignerActive(db, hold, input.signer);
      && (!known <==> Answers(db, tx, id, input, ServiceMismatch, false, 409))
      && (known && !allowed <==> Answers(db, tx, id, input, UnauthorizedSigner, false, 403))
      && (allowed && hold.state == Captured && hold.proof == Some(input.proof)
          <==> hold.capturedAt.Some?
               && Answers(db, tx, id, input, IdempotentReplay(id, hold.capturedAt.value), true, 200))
      && (allowed && hold.state == Captured && hold.proof != Some(input.proof)
          <==> Answers(db, tx, id, input, CaptureConflict(hold.proof), false, 409))
      && (allowed && hold.state == Expired <==> Answers(db, tx, id, input, Terminal(Expired), false, 409))
      && (allowed && hold.state == Held && hold.expiresAt <= input.completedAt
          <==> Answers(db, tx, id, input, ExpiredDue, false, 409))
  {
    var tx := FinalizeCapture(cfg, db, id, input);
    assert tx.Commit? ==> tx.result.CapturedNow?;
  }

  // ---------- consumeUserCreditsForGate ----------

  function GateNonce(input: GateInput): Nonce {
    Nonce(input.wallet, input.service, input.nonce)
  }

  /** The request id a merchant is paid under; there is none when it is missing or blank. */
  function MerchantRequest(input: GateInput): Option<string> {
    if input.requestId.Some? && Trim(input.requestId.value) != "" then Some(Trim(input.requestId.value)) else None
  }

  /** The nonce is one that must be new and is not. */
  predicate NonceRepeats(cfg: Config, db: Db, input: GateInput) {
    cfg.nonceStoreEnabled && input.enforceUnique && GateNonce(input) in db.nonces
  }

  /** When a request id is taken, for one wallet, and when a settlement has its earning. */
  lemma TakenWhen(db: Db, w: Wallet, requestId: string, id: SettlementId)
    ensures LedgerHas(db.ledger, w, requestId)
       <==> exists row :: row in db.ledger && row.wallet == w && row.requestId == Some(requestId)
    ensures Settled(db.earnings, id) <==> exists e :: e in db.earnings && e.settlementId == id
  {
    if LedgerHas(db.ledger, w, requestId) {
      var i :| 0 <= i < |db.ledger| && db.ledger[i].wallet == w && db.ledger[i].requestId == Some(requestId);
      assert db.ledger[i] in db.ledger;
    }
    if Settled(db.earnings, id) {
      var k :| 0 <= k < |db.earnings| && db.earnings[k].settlementId == id;
      assert db.earnings[k] in db.earnings;
    }
  }

  /** The request has a ledger row already. */
  predicate BookedBefore(cfg: Config, db: Db, input: GateInput) {
    cfg.ledgerEnabled && input.requestId.Some? && LedgerHas(db.ledger, input.wallet, input.requestId.value)
  }

  /** A merchant is to be paid, but not under a usable request id or service. */
  predicate CannotEarn(input: GateInput) {
    input.owner.Some? && (MerchantRequest(input).None? || Trim(input.service) == "")
  }

  /** The merchant has been paid for this request already. */
  predicate PaidBefore(db: Db, input: GateInput) {
    input.owner.Some? && MerchantRequest(input).Some?
    && Settled(db.earnings, GateSettlement(input.wallet, MerchantRequest(input).value))
  }

  /** What an accepted gate debit leaves: the debit, its ledger row, the nonce, and the merchant's earning. */
  ghost predicate GateCharged(cfg: Config, db: Db, db': Db, input: GateInput) {
    var w, before := input.wallet, CreditsOf(db, input.wallet);
    && w in db.balances
    && db'.balances == db.balances[w := db.balances[w].(credits := before - input.cost)]
    && db'.nonces == (if cfg.nonceStoreEnabled then db.nonces + {GateNonce(input)} else db.nonces)
    && db'.ledger == (if cfg.ledgerEnabled
         then db.ledger + [LedgerRow(w, Debit, input.cost, before, before - input.cost, GateDebit, input.requestId)]
         else db.ledger)
    && db'.holds == db.holds && db'.attempts == db.attempts && db'.activeSigners == db.activeSigners
    && match input.owner
       case None => db'.earnings == db.earnings
       case Some(owner) =>
         && MerchantRequest(input).Some?
         && CalculateSettlementAmounts(input.cost, PROTOCOL_FEE_BPS, CREDIT_PRICE_WEI).Split?
         && db'.earnings == db.earnings + [Earning(
              GateSettlement(w, MerchantRequest(input).value), w, owner, Trim(input.service), input.cost,
              CalculateSettlementAmounts(input.cost, PROTOCOL_FEE_BPS, CREDIT_PRICE_WEI).amounts)]
  }

  /** The exact condition of every answer of a gate debit, in every reachable state. */
  lemma GateAnswers(cfg: Config, events: seq<Event>, input: GateInput)
    ensures var db := Run(cfg, EMPTY, events);
      var tx := GateConsume(cfg, db, input);
      var enough := 0 < input.cost <= MAX_INT && input.cost <= CreditsOf(db, input.wallet);
      var repeats := NonceRepeats(cfg, db, input) || BookedBefore(cfg, db, input);
      && (tx == Commit(db, GateInsufficient)
          <==> input.cost <= 0 || (input.cost <= MAX_INT && CreditsOf(db, input.wallet) < input.cost))
      && (tx == Commit(db, GateReplay)
          <==> enough && (repeats || (!CannotEarn(input) && PaidBefore(db, input))))
      && (tx.Abort? <==> input.cost > MAX_INT || (enough && !repeats && CannotEarn(input)))
      && (tx.Commit? && tx.result.GateOk?
          <==> enough && !repeats && !CannotEarn(input) && !PaidBefore(db, input))
      && (tx.Commit? && tx.result.GateOk? ==>
            && tx.result.before == CreditsOf(db, input.wallet)
            && tx.result.after == tx.result.before - input.cost
            && (tx.result.nonceAccepted <==> cfg.nonceStoreEnabled ==> GateNonce(input) !in db.nonces)
            && GateCharged(cfg, db, tx.db, input))
  {
    EmptyInv(cfg);
    RunInv(cfg, EMPTY, events);
    GateAnswersIn(cfg, Run(cfg, EMPTY, events), input);
  }

  lemma GateAnswersIn(cfg: Config, db: Db, input: GateInput)
    requires Inv(cfg, db)
    ensures var tx := GateConsume(cfg, db, input);
      var enough := 0 < input.cost <= MAX_INT && input.cost <= CreditsOf(db, input.wallet);
      var repeats := NonceRepeats(cfg, db, input) || BookedBefore(cfg, db, input);
      && (tx == Commit(db, GateInsufficient)
          <==> input.cost <= 0 || (input.cost <= MAX_INT && CreditsOf(db, input.wallet) < input.cost))
      && (tx == Commit(db, GateReplay)
          <==> enough && (repeats || (!CannotEarn(input) && PaidBefore(db, input))))
      && (tx.Abort? <==> input.cost > MAX_INT || (enough && !repeats && CannotEarn(input)))
      && (tx.Commit? && tx.result.GateOk?
          <==> enough && !repeats && !CannotEarn(input) && !PaidBefore(db, input))
      && (tx.Commit? && tx.result.GateOk? ==>
            && tx.result.before == CreditsOf(db, input.wallet)
            && tx.result.after == tx.result.before - input.cost
            && (tx.result.nonceAccepted <==> cfg.nonceStoreEnabled ==> GateNonce(input) !in db.nonces)
            && GateCharged(cfg, db, tx.db, input))
  {
    hide CalculateSettlementAmounts, LedgerHas, Settled;
    SplitIsExact(input.cost, PROTOCOL_FEE_BPS, CREDIT_PRICE_WEI);
  }

  /**
   A signed gate request is charged once: with the nonce store on, after a debit was accepted for a wallet, service and
   nonce, a later one that asks for the nonce to be new is never accepted and changes nothing, whatever happened in
   between, under whatever request id, and whether or not a merchant is paid.
   */
  lemma GateNonceHonouredOnce(cfg: Config, before: seq<Event>, first: GateInput, between: seq<Event>, again: GateInput)
    requires cfg.nonceStoreEnabled && again.enforceUnique && GateNonce(again) == GateNonce(first)
    requires var tx := GateConsume(cfg, Run(cfg, EMPTY, before), first); tx.Commit? && tx.result.GateOk?
    ensures var db := Run(cfg, EMPTY, before + [DoGate(first)] + between);
      var tx := GateConsume(cfg, db, again);
      AfterTx(db, tx) == db && !(tx.Commit? && tx.result.GateOk?)
  {
    var charged := before + [DoGate(first)];
    GateAnswers(cfg, before, first);
    RunStep(cfg, EMPTY, before, DoGate(first));
    RunHistory(cfg, charged, between);
    GateAnswers(cfg, charged + between, again);
  }

  // ---------- consumeUserCredits, addUserCredits, syncDeposits ----------

  /** The credits of one wallet become `after`, with one ledger row about it; nothing else changes. */
  ghost predicate Booked(cfg: Config, db: Db, db': Db, w: Wallet, direction: Direction, after: int, reason: Reason,
                         requestId: Option<string>)
  {
    var before := CreditsOf(db, w);
    var amount := if direction == Credit then after - before else before - after;
    && w in db'.balances
    && db'.balances == db.balances[w := db'.balances[w]]
    && db'.balances[w].credits == after
    && db'.balances[w].held == (if w in db.balances then db.balances[w].held else 0)
    && db'.ledger == (if cfg.ledgerEnabled && amount > 0
         then db.ledger + [LedgerRow(w, direction, amount, before, after, reason, requestId)] else db.ledger)
    && db' == db.(balances := db'.balances, ledger := db'.ledger)
  }

  /** The exact condition of every answer of a plain consumption. */
  lemma ConsumeAnswers(cfg: Config, events: seq<Event>, w: Wallet, cost: int, requestId: Option<string>)
    ensures var db := Run(cfg, EMPTY, events);
      var tx, before := Consume(cfg, db, w, cost, requestId), CreditsOf(db, w);
      var repeats := cfg.ledgerEnabled && requestId.Some? && LedgerHas(db.ledger, w, requestId.value);
      && (tx == Commit(db, None) <==> cost <= 0 || before < cost <= MAX_INT)
      && (tx.Abort? <==> cost > MAX_INT || (0 < cost <= before && repeats))
      && (tx.Commit? && tx.result.Some? ==>
            && tx.result.value == (before, before - cost)
            && Booked(cfg, db, tx.db, w, Debit, before - cost, CreditConsume, requestId)
            && tx.db.balances[w].cursor == CursorOf(db, w))
  {
    EmptyInv(cfg);
    RunInv(cfg, EMPTY, events);
  }

  /** Adding credits opens the wallet where needed; it throws exactly when the balance would overflow. */
  lemma AddAnswers(cfg: Config, events: seq<Event>, w: Wallet, amount: int)
    ensures var db := Run(cfg, EMPTY, events);
      var tx, before := AddCredits(cfg, db, w, amount), CreditsOf(db, w);
      && (tx == Commit(db, None) <==> amount <= 0)
      && (tx.Abort? <==> amount > 0 && before + amount > MAX_INT)
      && (tx.Commit? && tx.result.Some? ==>
            && tx.result.value == (before, before + amount)
            && Booked(cfg, db, tx.db, w, Credit, before + amount, ManualAdd, None)
            && tx.db.balances[w].cursor == CursorOf(db, w))
  {
    EmptyInv(cfg);
    RunInv(cfg, EMPTY, events);
  }

  /** A sync is refused exactly when the cursor is not the expected one, and applied otherwise unless it throws. */
  lemma SyncAnswers(cfg: Config, events: seq<Event>, input: SyncInput)
    ensures var db := Run(cfg, EMPTY, events);
      var tx, w, before := Sync(cfg, db, input), input.wallet, CreditsOf(Run(cfg, EMPTY, events), input.wallet);
      var valid := input.creditPriceWei > 0 && input.syncedToBlock >= 0 && input.expected.GetOr(0) >= 0;
      var stale := input.expected.Some? && input.expected.value != CursorOf(db, w);
      && (valid && stale <==> tx == Commit(db, SyncResult(before, 0, before, CursorOf(db, w), false)))
      && (tx.Abort? <==> !valid || (!stale && before + AddedCredits(input) > MAX_INT))
      && (tx.Commit? && !stale ==>
            && tx.result == SyncResult(before, AddedCredits(input), before + AddedCredits(input),
                                       CursorOf(tx.db, w), true)
            && Booked(cfg, db, tx.db, w, Credit, before + AddedCredits(input), VaultSync, None)
            && CursorOf(tx.db, w) == if input.allowRollback || input.syncedToBlock >= CursorOf(db, w)
                                     then input.syncedToBlock else CursorOf(db, w))
  {
    EmptyInv(cfg);
    RunInv(cfg, EMPTY, events);
  }

  // ---------- expiry ----------

  /** What the expiry of a hold leaves: the hold expired at that moment, its cost available again, one ledger row. */
  ghost predicate ExpiredInto(cfg: Config, db: Db, db': Db, id: HoldId, now: int)
    requires id < |db.holds|
  {
    var hold, w := db.holds[id], db.holds[id].wallet;
    && w in db.balances
    && db'.holds == db.holds[id := hold.(state := Expired, releasedAt := Some(now))]
    && db'.balances == db.balances[w := db.balances[w].(credits := db.balances[w].credits + hold.cost,
                                                        held := db.balances[w].held - hold.cost)]
    && db'.ledger == (if cfg.ledgerEnabled
         then db.ledger + [LedgerRow(w, Credit, hold.cost, db.balances[w].credits, db.balances[w].credits + hold.cost,
                                     HoldExpired, Some(hold.ticket + ":expire"))]
         else db.ledger)
    && db' == db.(holds := db'.holds, balances := db'.balances, ledger := db'.ledger)
  }

  /** A hold that is not held, or not due, is skipped and nothing changes; one that is due expires unless it throws. */
  lemma ExpiryAnswers(cfg: Config, events: seq<Event>, id: HoldId, now: int)
    requires id < |Run(cfg, EMPTY, events).holds|
    ensures var db, hold := Run(cfg, EMPTY, events), Run(cfg, EMPTY, events).holds[id];
      var tx := ExpireOne(cfg, db, id, now);
      && (hold.state != Held <==> tx == Commit(db, SkippedTerminal(hold.state)))
      && (hold.state == Held && now < hold.expiresAt <==> tx == Commit(db, SkippedNotDue))
      && (tx.Commit? && tx.result.ExpiredNow? ==>
            && hold.state == Held && hold.expiresAt <= now
            && ExpiredInto(cfg, db, tx.db, id, now)
            && tx.result == ExpiredNow(db.balances[hold.wallet], tx.db.balances[hold.wallet]))
      && (tx.Abort? <==>
            && hold.state == Held && hold.expiresAt <= now
            && (CreditsOf(db, hold.wallet) + hold.cost > MAX_INT
                || (cfg.ledgerEnabled && LedgerHas(db.ledger, hold.wallet, hold.ticket + ":expire"))))
  {
    EmptyInv(cfg);
    RunInv(cfg, EMPTY, events);
    var db := Run(cfg, EMPTY, events);
    if db.holds[id].state == Held {
      ExpireHeldEffect(cfg, db, id, now);
      if db.holds[id].expiresAt <= now {
        ExpiryFailsIff(cfg, db, id, now);
      }
    }
  }

  /** An unknown hold cannot be expired. */
  lemma ExpiryOfNothing(cfg: Config, db: Db, id: HoldId, now: int)
    ensures ExpireOne(cfg, db, id, now) == Abort(HoldNotFound) <==> id >= |db.holds|
  {
  }

  // ---------- createFulfillmentHold ----------

  /** A hold of the wallet that is held and not yet due: the sweep of a ticket request leaves it alone. */
  predicate IsLive(h: Hold, w: Wallet, now: int) {
    h.wallet == w && h.state == Held && now < h.expiresAt
  }

  function LiveCost(holds: seq<Hold>, w: Wallet, now: int): int {
    if holds == [] then 0
    else
      var h := holds[|holds| - 1];
      LiveCost(holds[..|holds| - 1], w, now) + (if IsLive(h, w, now) then h.cost else 0)
  }

  function LiveCount(holds: seq<Hold>, w: Wallet, now: int): nat {
    if holds == [] then 0
    else
      var h := holds[|holds| - 1];
      LiveCount(holds[..|holds| - 1], w, now) + (if IsLive(h, w, now) then 1 else 0)
  }

  predicate LiveService(holds: seq<Hold>, w: Wallet, service: string, now: int) {
    exists i :: 0 <= i < |holds| && IsLive(holds[i], w, now) && holds[i].service == service
  }

  /** What the wallet can spend on a ticket: its credits, and the cost of its holds that are due. */
  function Spendable(db: Db, w: Wallet, now: int): int {
    CreditsOf(db, w) + CostIn(db.holds, w, Held) - LiveCost(db.holds, w, now)
  }

  /** Expiring what is due leaves exactly the live holds held. */
  ghost predicate OnlyLive(holds: seq<Hold>, holds': seq<Hold>, w: Wallet, now: int) {
    && |holds'| == |holds|
    && forall i :: 0 <= i < |holds| ==>
         && holds'[i].wallet == holds[i].wallet && holds'[i].service == holds[i].service
         && holds'[i].cost == holds[i].cost && holds'[i].ticket == holds[i].ticket
         && (holds[i].wallet == w ==> (holds'[i].state == Held <==> IsLive(holds[i], w, now)))
         && (holds'[i].state == Captured <==> holds[i].state == Captured)
  }

  lemma {:induction false} LiveSums(holds: seq<Hold>, holds': seq<Hold>, w: Wallet, now: int)
    requires OnlyLive(holds, holds', w, now)
    ensures CostIn(holds', w, Held) == LiveCost(holds, w, now)
    ensures CountIn(holds', w, Held) == LiveCount(holds, w, now)
    ensures CostIn(holds', w, Captured) == CostIn(holds, w, Captured)
  {
    if holds != [] {
      LiveSums(holds[..|holds| - 1], holds'[..|holds| - 1], w, now);
    }
  }

  /** The state the checks of a ticket request see, in terms of the state it started from. */
  lemma SweptMeans(cfg: Config, db: Db, w: Wallet, now: int)
    requires Inv(cfg, db) && SweepWallet(cfg, db, w, now).Written? && w in db.balances
    ensures var swept := SweepWallet(cfg, db, w, now).db;
      && Inv(cfg, swept) && |swept.holds| == |db.holds| && swept.nonces == db.nonces
      && w in swept.balances && swept.balances[w].credits == Spendable(db, w, now)
      && swept.balances[w].held == LiveCost(db.holds, w, now)
      && CountIn(swept.holds, w, Held) == LiveCount(db.holds, w, now)
      && (forall ticket :: TicketUsed(swept.holds, ticket) <==> TicketUsed(db.holds, ticket))
      && (forall service :: ServiceHeld(swept.holds, w, service) <==> LiveService(db.holds, w, service, now))
  {
    SweepWalletInv(cfg, db, w, now);
    OverdueIsDue(db.holds, w, now);
    var swept := SweepWallet(cfg, db, w, now).db;
    assert OnlyLive(db.holds, swept.holds, w, now);
    LiveSums(db.holds, swept.holds, w, now);
    assert Total(swept, w) == Total(db, w);
    SameTickets(db.holds, swept.holds, w, now);
  }

  lemma SameTickets(holds: seq<Hold>, holds': seq<Hold>, w: Wallet, now: int)
    requires OnlyLive(holds, holds', w, now)
    ensures forall ticket :: TicketUsed(holds', ticket) <==> TicketUsed(holds, ticket)
    ensures forall service :: ServiceHeld(holds', w, service) <==> LiveService(holds, w, service, now)
  {
    forall ticket ensures TicketUsed(holds', ticket) <==> TicketUsed(holds, ticket) {
      if i :| 0 <= i < |holds| && holds[i].ticket == ticket {
        assert holds'[i].ticket == ticket;
      }
    }
    forall service ensures ServiceHeld(holds', w, service) <==> LiveService(holds, w, service, now) {
      if i :| 0 <= i < |holds| && IsLive(holds[i], w, now) && holds[i].service == service {
        assert holds'[i].wallet == w && holds'[i].service == service && holds'[i].state == Held;
      }
    }
  }

  /** What an issued ticket leaves on top of the swept state: the hold as asked for, the cost held, one ledger row. */
  ghost predicate IssuedInto(cfg: Config, swept: Db, db': Db, input: HoldInput) {
    var w := input.wallet;
    && w in swept.balances
    && db'.holds == swept.holds + [Hold(input.ticket, w, input.service, input.owner, input.gateway, input.cost, Held,
                                        input.expiresAt, None, None, None)]
    && db'.balances == swept.balances[w := swept.balances[w].(credits := swept.balances[w].credits - input.cost,
                                                              held := swept.balances[w].held + input.cost)]
    && db'.nonces == (if cfg.nonceStoreEnabled
         then swept.nonces + {Nonce(w, "fulfillment_ticket:" + input.service, input.requestNonce)} else swept.nonces)
    && db'.ledger == (if cfg.ledgerEnabled
         then swept.ledger + [LedgerRow(w, Debit, input.cost, swept.balances[w].credits,
                                        swept.balances[w].credits - input.cost, HoldCreated, Some(input.ticket))]
         else swept.ledger)
    && db'.earnings == swept.earnings && db'.attempts == swept.attempts && db'.activeSigners == swept.activeSigners
  }

  /** Issuing on top of the swept state: what stops it, in this order, and what it leaves. */
  lemma IssueAnswers(cfg: Config, original: Db, swept: Db, input: HoldInput)
    requires Inv(cfg, swept) && input.wallet in swept.balances
    requires 0 < input.cost <= swept.balances[input.wallet].credits
    ensures var tx, w := IssueHold(cfg, original, swept, input), input.wallet;
      var repeats := cfg.nonceStoreEnabled && TicketNonce(input) in swept.nonces;
      var full := swept.balances[w].held + input.cost > MAX_INT;
      var used := TicketUsed(swept.holds, input.ticket);
      var booked := cfg.ledgerEnabled && LedgerHas(swept.ledger, w, input.ticket);
      var held := ServiceHeld(swept.holds, w, input.service);
      && (repeats <==> tx == Commit(original, Replay))
      && (tx.Abort? <==> !repeats && (full || used || (!held && booked)))
      && (tx == Commit(original, WalletServiceHoldExists) <==> !repeats && !full && !used && held)
      && (tx.Commit? && tx.result.HoldOk? <==> !repeats && !full && !used && !held && !booked)
      && (tx.Commit? && tx.result.HoldOk? ==>
            && IssuedInto(cfg, swept, tx.db, input)
            && tx.result == HoldOk(|swept.holds|, swept.balances[w], tx.db.balances[w]))
  {
  }

  /** A ticket request with a bad cost or cap throws; an unknown wallet has nothing to spend. */
  lemma TicketOfNothing(cfg: Config, db: Db, input: HoldInput, now: int)
    ensures input.cost <= 0 || input.walletHoldCap <= 0 || input.cost > MAX_INT ==>
        CreateHold(cfg, db, input, now).Abort?
    ensures 0 < input.cost <= MAX_INT && input.walletHoldCap > 0 && input.wallet !in db.balances ==>
        CreateHold(cfg, db, input, now) == Commit(db, InsufficientCredits(0, input.cost))
  {
  }

  /**
   The exact condition of every answer of a ticket request, in every reachable state. `credits` is what the wallet can
   spend once its due holds are expired and `active` is how many holds it still has then; an answer that keeps the
   sweep commits `swept`, one that undoes it commits the state it started from.
   */
  lemma TicketAnswers(cfg: Config, events: seq<Event>, input: HoldInput, now: int)
    requires input.walletHoldCap > 0 && 0 < input.cost <= MAX_INT
    requires input.wallet in Run(cfg, EMPTY, events).balances
    requires SweepWallet(cfg, Run(cfg, EMPTY, events), input.wallet, now).Written?
    ensures var db, w := Run(cfg, EMPTY, events), input.wallet;
      var tx, swept := CreateHold(cfg, db, input, now), SweepWallet(cfg, db, w, now).db;
      var credits, active := Spendable(db, w, now), LiveCount(db.holds, w, now);
      var may := input.cost <= credits && active < input.walletHoldCap
                 && !(cfg.nonceStoreEnabled && TicketNonce(input) in db.nonces);
      var full := LiveCost(db.holds, w, now) + input.cost > MAX_INT;
      var used, live := TicketUsed(db.holds, input.ticket), LiveService(db.holds, w, input.service, now);
      var booked := cfg.ledgerEnabled && LedgerHas(swept.ledger, w, input.ticket);
      && (credits < input.cost <==> tx == Commit(swept, InsufficientCredits(credits, input.cost)))
      && (input.cost <= credits && active >= input.walletHoldCap
          <==> tx == Commit(swept, WalletHoldCapExceeded(active, input.walletHoldCap)))
      && (input.cost <= credits && active < input.walletHoldCap && !may <==> tx == Commit(db, Replay))
      && (tx.Abort? <==> may && (full || used || (!live && booked)))
      && (tx == Commit(db, WalletServiceHoldExists) <==> may && !full && !used && live)
      && (tx.Commit? && tx.result.HoldOk? <==> may && !full && !used && !live && !booked)
      && (tx.Commit? && tx.result.HoldOk? ==>
            && IssuedInto(cfg, swept, tx.db, input)
            && tx.result == HoldOk(|db.holds|, swept.balances[w], tx.db.balances[w]))
  {
    EmptyInv(cfg);
    RunInv(cfg, EMPTY, events);
    var db := Run(cfg, EMPTY, events);
    var swept := SweepWallet(cfg, db, input.wallet, now).db;
    SweptMeans(cfg, db, input.wallet, now);
    if input.cost <= swept.balances[input.wallet].credits {
      IssueAnswers(cfg, db, swept, input);
    }
  }

  /** A request whose sweep throws throws with it, and leaves nothing. */
  lemma TicketSweepThrows(cfg: Config, db: Db, input: HoldInput, now: int)
    requires input.walletHoldCap > 0 && 0 < input.cost <= MAX_INT && input.wallet in db.balances
    requires SweepWallet(cfg, db, input.wallet, now).Refused?
    ensures CreateHold(cfg, db, input, now).Abort?
  {
  }
}
