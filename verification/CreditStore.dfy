/**
 The credit transactions as the program runs them: rows rewritten one statement at a time, running
 totals carried in local variables, and everything put back when a statement throws. Each method is
 proved to compute the corresponding step of CreditSteps.
 */
module CreditStore {
  import opened Common
  import opened CreditState
  import opened CreditSteps
  import opened SettlementAmounts
  import opened Text

  /** What a caller of a transaction sees. */
  datatype Answer<+R> = Returned(result: R) | Thrown(error: Error)

  function AnswerOf<R>(tx: Tx<R>): Answer<R> {
    match tx
    case Commit(_, r) => Returned(r)
    case Abort(e) => Thrown(e)
  }

  /** A statement either did its write or reported why it could not and wrote nothing. */
  ghost predicate Performed(before: Db, w: Write, after: Db, error: Option<Error>) {
    match w
    case Written(db) => error == None && after == db
    case Refused(e) => error == Some(e) && after == before
  }

  datatype SweepCounts = SweepCounts(selected: nat, processed: nat, released: nat, skippedTerminal: nat,
                                     skippedNotDue: nat, errors: nat)

  function ExpiryEvents(ids: seq<HoldId>, now: int): seq<Event> {
    seq(|ids|, k requires 0 <= k < |ids| => DoExpire(ids[k], now))
  }

  /** The sweep leaves every hold that is not on its list alone, and the owner and cost of every hold. */
  lemma {:induction false} SweepKeepsRows(cfg: Config, db: Db, due: seq<Due>, now: int)
    requires forall k :: 0 <= k < |due| ==> due[k].id < |db.holds|
    requires Sweep(cfg, db, due, now).Written?
    ensures var holds := Sweep(cfg, db, due, now).db.holds;
      && |holds| == |db.holds|
      && (forall i :: 0 <= i < |holds| && (forall k :: 0 <= k < |due| ==> due[k].id != i) ==> holds[i] == db.holds[i])
    ensures forall w :: w in db.balances <==> w in Sweep(cfg, db, due, now).db.balances
  {
    if due != [] {
      SweepKeepsRows(cfg, db, due[..|due| - 1], now);
    }
  }

  lemma {:induction false} SweepStops(cfg: Config, db: Db, due: seq<Due>, now: int, n: nat)
    requires n <= |due|
    requires forall k :: 0 <= k < |due| ==> due[k].id < |db.holds|
    requires Sweep(cfg, db, due[..n], now).Refused?
    ensures Sweep(cfg, db, due, now) == Sweep(cfg, db, due[..n], now)
    decreases |due|
  {
    if n == |due| {
      assert due[..n] == due;
    } else {
      assert due[..|due| - 1][..n] == due[..n];
      SweepStops(cfg, db, due[..|due| - 1], now, n);
    }
  }

  lemma OverdueInRange(holds: seq<Hold>, w: Wallet, now: int)
    ensures var due := Overdue(holds, w, now);
      forall k :: 0 <= k < |due| ==> due[k].id < |holds| && IsOverdue(holds[due[k].id], w, now)
  {
    var due := Overdue(holds, w, now);
    OverdueFacts(holds, w, now);
    assert forall k :: 0 <= k < |due| ==> due[k] in due;
  }

  /** The next row of the sweep is still as it was read, and is what the next turn expires. */
  lemma SweepTurn(cfg: Config, db: Db, w: Wallet, now: int, k: nat)
    requires k < |Overdue(db.holds, w, now)|
    ensures var due := Overdue(db.holds, w, now);
      && (forall j :: 0 <= j < |due| ==> due[j].id < |db.holds|)
      && (Sweep(cfg, db, due[..k], now).Written? ==>
            var mid, id := Sweep(cfg, db, due[..k], now).db, due[k].id;
            && |mid.holds| == |db.holds| && mid.holds[id] == db.holds[id] && db.holds[id].wallet == w
            && Sweep(cfg, db, due[..k + 1], now) == ExpireHeld(cfg, mid, id, now))
  {
    var due := Overdue(db.holds, w, now);
    OverdueInRange(db.holds, w, now);
    OverdueFacts(db.holds, w, now);
    assert due[..k + 1][..k] == due[..k];
    if Sweep(cfg, db, due[..k], now).Written? {
      SweepKeepsRows(cfg, db, due[..k], now);
    }
  }

  class Store {
    const cfg: Config
    var balances: map<Wallet, Balance>
    var holds: seq<Hold>
    var nonces: set<Nonce>
    var earnings: seq<Earning>
    var ledger: seq<LedgerRow>
    var attempts: seq<Attempt>
    var activeSigners: set<(string, string)>

    constructor (cfg: Config)
      ensures this.cfg == cfg && Tables() == EMPTY
    {
      this.cfg := cfg;
      balances, holds, nonces, earnings, ledger, attempts, activeSigners := map[], [], {}, [], [], [], {};
    }

    function Tables(): Db
      reads this
    {
      Db(balances, holds, nonces, earnings, ledger, attempts, activeSigners)
    }

    // ---------- statements ----------

    /** A throw inside a transaction puts every table back. */
    method Rollback(db: Db)
      modifies this
      ensures Tables() == db
    {
      balances, holds, nonces, earnings := db.balances, db.holds, db.nonces, db.earnings;
      ledger, attempts, activeSigners := db.ledger, db.attempts, db.activeSigners;
    }

    method AdjustBalance(w: Wallet, credits: int, held: int) returns (error: Option<Error>)
      modifies this`balances
      ensures Performed(old(Tables()), Adjust(old(Tables()), w, credits, held), Tables(), error)
    {
      if w !in balances {
        return Some(BalanceMissing);
      }
      var b := balances[w];
      var c, h := b.credits + credits, b.held + held;
      if c < MIN_INT || c > MAX_INT || h < MIN_INT || h > MAX_INT {
        return Some(IntOutOfRange);
      }
      balances := balances[w := b.(credits := c, held := h)];
      error := None;
    }

    method WriteCreditLedger(row: LedgerRow) returns (error: Option<Error>)
      modifies this`ledger
      ensures Performed(old(Tables()), WriteLedger(cfg, old(Tables()), row), Tables(), error)
    {
      error := None;
      if !cfg.ledgerEnabled || row.amount <= 0 {
        return;
      }
      if !InInt(row.amount) || !InInt(row.before) || !InInt(row.after) {
        return Some(IntOutOfRange);
      }
      if row.requestId.Some? && LedgerHas(ledger, row.wallet, row.requestId.value) {
        return Some(UniqueConflict);
      }
      ledger := ledger + [row];
    }

    /** createMany with skipDuplicates: says whether the nonce was new. */
    method PersistAccessNonce(nonce: Nonce) returns (accepted: bool)
      modifies this`nonces
      ensures accepted == (!cfg.nonceStoreEnabled || nonce !in old(nonces))
      ensures nonces == if cfg.nonceStoreEnabled then old(nonces) + {nonce} else old(nonces)
    {
      if !cfg.nonceStoreEnabled {
        return true;
      }
      accepted := nonce !in nonces;
      nonces := nonces + {nonce};
    }

    method CreateMerchantEarning(id: SettlementId, w: Wallet, owner: string, service: string, credits: int)
      returns (error: Option<Error>)
      modifies this`earnings
      ensures Performed(old(Tables()), CreateEarning(old(Tables()), id, w, owner, service, credits), Tables(), error)
    {
      var split := CalculateSettlementAmounts(credits, PROTOCOL_FEE_BPS, CREDIT_PRICE_WEI);
      if !split.Split? || Trim(service) == "" {
        return Some(InvalidInput);
      }
      if !InInt(credits) {
        return Some(IntOutOfRange);
      }
      if Settled(earnings, id) {
        return Some(UniqueConflict);
      }
      earnings := earnings + [Earning(id, w, owner, Trim(service), credits, split.amounts)];
      error := None;
    }

    // ---------- holds ----------

    /** One turn of the sweep: the row is expired, its cost refunded and booked. */
    method ExpireRow(id: HoldId, row: Hold, now: int, credits: int, held: int) returns (error: Option<Error>)
      requires id < |holds| && holds[id] == row
      requires row.wallet in balances && balances[row.wallet].credits == credits && balances[row.wallet].held == held
      modifies this
      ensures match ExpireHeld(cfg, old(Tables()), id, now)
        case Written(db) => error == None && Tables() == db && row.wallet in balances
        case Refused(e) => error == Some(e)
    {
      if held < row.cost {
        return Some(HeldInvariantViolation);
      }
      holds := holds[id := row.(state := Expired, releasedAt := Some(now))];
      error := AdjustBalance(row.wallet, row.cost, -row.cost);
      if error.None? {
        var after := balances[row.wallet].credits;
        var ledgerRow := LedgerRow(row.wallet, Credit, row.cost, credits, after, HoldExpired,
                                   Some(ExpireSuffix(row.ticket)));
        error := WriteCreditLedger(ledgerRow);
      }
    }

    /** The sweep inside ticket issuance; `credits` and `held` are carried along instead of read again. */
    method SweepOverdue(w: Wallet, now: int, creditsBefore: int, heldBefore: int)
      returns (credits: int, held: int, error: Option<Error>)
      requires w in balances && balances[w].credits == creditsBefore && balances[w].held == heldBefore
      modifies this
      ensures match SweepWallet(cfg, old(Tables()), w, now)
        case Written(db) =>
          && error == None && Tables() == db
          && w in balances && balances[w].credits == credits && balances[w].held == held
        case Refused(e) => error == Some(e)
    {
      ghost var before := Tables();
      var due := Overdue(holds, w, now);
      OverdueInRange(holds, w, now);
      credits, held, error := creditsBefore, heldBefore, None;
      var rows := holds;
      var k := 0;
      while k < |due|
        invariant 0 <= k <= |due| && error == None
        invariant Sweep(cfg, before, due[..k], now) == Written(Tables())
        invariant w in balances && balances[w].credits == credits && balances[w].held == held
      {
        var id := due[k].id;
        var row := rows[id];
        SweepTurn(cfg, before, w, now, k);
        error := ExpireRow(id, row, now, credits, held);
        if error.Some? {
          SweepStops(cfg, before, due, now, k + 1);
          return;
        }
        credits, held := balances[w].credits, balances[w].held;
        k := k + 1;
      }
      assert due[..k] == due;
    }

    method CreateFulfillmentHold(input: HoldInput, now: int) returns (answer: Answer<HoldResult>)
      modifies this
      ensures Tables() == AfterTx(old(Tables()), CreateHold(cfg, old(Tables()), input, now))
      ensures answer == AnswerOf(CreateHold(cfg, old(Tables()), input, now))
    {
      var saved := Tables();
      var w := input.wallet;
      if input.cost <= 0 || input.walletHoldCap <= 0 {
        return Thrown(InvalidInput);
      }
      if input.cost > MAX_INT {
        return Thrown(IntOutOfRange);
      }
      if w !in balances {
        return Returned(InsufficientCredits(0, input.cost));
      }
      var credits, held, error := SweepOverdue(w, now, balances[w].credits, balances[w].held);
      if error.Some? {
        Rollback(saved);
        return Thrown(error.value);
      }
      if credits < input.cost {
        return Returned(InsufficientCredits(credits, input.cost));
      }
      var active := CountIn(holds, w, Held);
      if active >= input.walletHoldCap {
        return Returned(WalletHoldCapExceeded(active, input.walletHoldCap));
      }
      answer := Issue(saved, input, credits, held);
    }

    /** The rest of the transaction, once the sweep is done and the checks have passed. */
    method Issue(saved: Db, input: HoldInput, credits: int, held: int) returns (answer: Answer<HoldResult>)
      requires input.wallet in balances
      requires balances[input.wallet].credits == credits && balances[input.wallet].held == held
      modifies this
      ensures Tables() == AfterTx(saved, IssueHold(cfg, saved, old(Tables()), input))
      ensures answer == AnswerOf(IssueHold(cfg, saved, old(Tables()), input))
    {
      var w, id := input.wallet, |holds|;
      var before := balances[w];
      var accepted := PersistAccessNonce(TicketNonce(input));
      if !accepted {
        Rollback(saved);
        return Returned(Replay);
      }
      var error := AdjustBalance(w, -input.cost, input.cost);
      if error.Some? {
        Rollback(saved);
        return Thrown(error.value);
      }
      if TicketUsed(holds, input.ticket) {
        Rollback(saved);
        return Thrown(UniqueConflict);
      }
      if ServiceHeld(holds, w, input.service) {
        Rollback(saved);
        return Returned(WalletServiceHoldExists);
      }
      holds := holds + [NewHold(input)];
      var after := balances[w];
      var row := LedgerRow(w, Debit, input.cost, credits, after.credits, HoldCreated, Some(input.ticket));
      error := WriteCreditLedger(row);
      if error.Some? {
        Rollback(saved);
        return Thrown(error.value);
      }
      answer := Returned(HoldOk(id, before, after));
    }

    method ExpireFulfillmentHoldById(id: HoldId, now: int) returns (answer: Answer<ExpireResult>)
      modifies this
      ensures Tables() == AfterTx(old(Tables()), ExpireOne(cfg, old(Tables()), id, now))
      ensures answer == AnswerOf(ExpireOne(cfg, old(Tables()), id, now))
    {
      var saved := Tables();
      if id >= |holds| {
        return Thrown(HoldNotFound);
      }
      var hold := holds[id];
      if hold.state != Held {
        return Returned(SkippedTerminal(hold.state));
      }
      if hold.expiresAt > now {
        return Returned(SkippedNotDue);
      }
      if hold.wallet !in balances {
        return Thrown(BalanceMissing);
      }
      var before := balances[hold.wallet];
      if before.held < hold.cost {
        return Thrown(HeldInvariantViolation);
      }
      holds := holds[id := hold.(state := Expired, releasedAt := Some(now))];
      var error := AdjustBalance(hold.wallet, hold.cost, -hold.cost);
      if error.Some? {
        Rollback(saved);
        return Thrown(error.value);
      }
      var after := balances[hold.wallet];
      var row := LedgerRow(hold.wallet, Credit, hold.cost, before.credits, after.credits, HoldExpired,
                           Some(ExpireSuffix(hold.ticket)));
      error := WriteCreditLedger(row);
      if error.Some? {
        Rollback(saved);
        return Thrown(error.value);
      }
      answer := Returned(ExpiredNow(before, after));
    }

    /** The background sweep: one transaction per candidate, a failing one does not stop the others. */
    method ExpireFulfillmentHolds(candidates: seq<HoldId>, now: int) returns (counts: SweepCounts)
      modifies this
      ensures Tables() == Run(cfg, old(Tables()), ExpiryEvents(candidates, now))
      ensures counts.selected == |candidates| == counts.processed + counts.errors
      ensures counts.processed == counts.released + counts.skippedTerminal + counts.skippedNotDue
    {
      ghost var before := Tables();
      counts := SweepCounts(|candidates|, 0, 0, 0, 0, 0);
      for k := 0 to |candidates|
        invariant Tables() == Run(cfg, before, ExpiryEvents(candidates[..k], now))
        invariant counts.selected == |candidates| && k == counts.processed + counts.errors
        invariant counts.processed == counts.released + counts.skippedTerminal + counts.skippedNotDue
      {
        ghost var events := ExpiryEvents(candidates[..k + 1], now);
        assert events[..k] == ExpiryEvents(candidates[..k], now) && events[k] == DoExpire(candidates[k], now);
        var answer := ExpireFulfillmentHoldById(candidates[k], now);
        match answer {
          case Returned(ExpiredNow(_, _)) =>
            counts := counts.(processed := counts.processed + 1, released := counts.released + 1);
          case Returned(SkippedTerminal(_)) =>
            counts := counts.(processed := counts.processed + 1, skippedTerminal := counts.skippedTerminal + 1);
          case Returned(SkippedNotDue) =>
            counts := counts.(processed := counts.processed + 1, skippedNotDue := counts.skippedNotDue + 1);
          case Thrown(_) =>
            counts := counts.(errors := counts.errors + 1);
        }
      }
      assert candidates[..|candidates|] == candidates;
    }

    method CreateAttempt(id: HoldId, input: CaptureInput, success: bool, httpStatus: int)
      modifies this`attempts
      ensures Tables() == Log(old(Tables()), id, input, success, httpStatus)
    {
      attempts := attempts + [Attempt(id, input.proof, input.signer, success, httpStatus)];
    }

    method CaptureFulfillmentHold(input: CaptureInput) returns (answer: Answer<CaptureResult>)
      modifies this
      ensures Tables() == AfterTx(old(Tables()), Capture(cfg, old(Tables()), input))
      ensures answer == AnswerOf(Capture(cfg, old(Tables()), input))
    {
      if input.ticket == "" || input.proof == "" || input.service == "" || input.statusCode < 0 || input.latencyMs < 0 {
        return Thrown(InvalidInput);
      }
      var found := FindTicket(holds, input.ticket);
      if found.None? {
        return Returned(NoSuchHold);
      }
      var id := found.value;
      var hold := holds[id];
      if hold.service != input.service {
        CreateAttempt(id, input, false, 409);
        return Returned(ServiceMismatch);
      }
      if hold.gateway.None? || (hold.gateway.value, input.signer) !in activeSigners {
        CreateAttempt(id, input, false, 403);
        return Returned(UnauthorizedSigner);
      }
      if hold.state == Captured {
        if hold.proof == Some(input.proof) && hold.capturedAt.Some? {
          CreateAttempt(id, input, true, 200);
          return Returned(IdempotentReplay(id, hold.capturedAt.value));
        }
        CreateAttempt(id, input, false, 409);
        return Returned(CaptureConflict(hold.proof));
      }
      if hold.state == Released || hold.state == Expired {
        CreateAttempt(id, input, false, 409);
        return Returned(Terminal(hold.state));
      }
      if hold.expiresAt <= input.completedAt {
        CreateAttempt(id, input, false, 409);
        return Returned(ExpiredDue);
      }
      answer := Finalize(id, input);
    }

    method Finalize(id: HoldId, input: CaptureInput) returns (answer: Answer<CaptureResult>)
      requires id < |holds|
      modifies this
      ensures Tables() == AfterTx(old(Tables()), FinalizeCapture(cfg, old(Tables()), id, input))
      ensures answer == AnswerOf(FinalizeCapture(cfg, old(Tables()), id, input))
    {
      var saved := Tables();
      var hold := holds[id];
      var w := hold.wallet;
      if w !in balances {
        return Thrown(BalanceMissing);
      }
      var before := balances[w];
      if before.held < hold.cost {
        return Thrown(HeldInvariantViolation);
      }
      holds := holds[id := hold.(state := Captured, capturedAt := Some(input.completedAt),
                                 proof := Some(input.proof), releasedAt := None)];
      var error := AdjustBalance(w, 0, -hold.cost);
      if error.Some? {
        Rollback(saved);
        return Thrown(error.value);
      }
      var after := balances[w];
      var row := LedgerRow(w, Debit, hold.cost, before.credits, after.credits, CaptureFinalized,
                           Some(CaptureSuffix(hold.ticket)));
      error := WriteCreditLedger(row);
      if error.Some? {
        Rollback(saved);
        return Thrown(error.value);
      }
      error := CreateMerchantEarning(CaptureSettlement(hold.ticket), w, hold.owner, hold.service, hold.cost);
      if error.Some? {
        Rollback(saved);
        return Thrown(error.value);
      }
      CreateAttempt(id, input, true, 200);
      answer := Returned(CapturedNow(id, before, after));
    }

    // ---------- plain debits, credits and deposits ----------

    method ConsumeUserCredits(w: Wallet, cost: int, requestId: Option<string>) returns (answer: Answer<Moved>)
      modifies this
      ensures Tables() == AfterTx(old(Tables()), Consume(cfg, old(Tables()), w, cost, requestId))
      ensures answer == AnswerOf(Consume(cfg, old(Tables()), w, cost, requestId))
    {
      var saved := Tables();
      if cost <= 0 {
        return Returned(None);
      }
      if cost > MAX_INT {
        return Thrown(IntOutOfRange);
      }
      if w !in balances || balances[w].credits < cost {
        return Returned(None);
      }
      var before := balances[w].credits;
      var error := AdjustBalance(w, -cost, 0);
      if error.None? {
        var row := LedgerRow(w, Debit, cost, before, balances[w].credits, CreditConsume, requestId);
        error := WriteCreditLedger(row);
      }
      if error.Some? {
        Rollback(saved);
        return Thrown(error.value);
      }
      answer := Returned(Some((before, balances[w].credits)));
    }

    method AddUserCredits(w: Wallet, amount: int) returns (answer: Answer<Moved>)
      modifies this
      ensures Tables() == AfterTx(old(Tables()), AddCredits(cfg, old(Tables()), w, amount))
      ensures answer == AnswerOf(AddCredits(cfg, old(Tables()), w, amount))
    {
      var saved := Tables();
      if amount <= 0 {
        return Returned(None);
      }
      if amount > MAX_INT {
        return Thrown(IntOutOfRange);
      }
      if w !in balances {
        balances := balances[w := Balance(0, 0, 0)];
      }
      var error := AdjustBalance(w, amount, 0);
      if error.None? {
        var after := balances[w].credits;
        var row := LedgerRow(w, Credit, amount, after - amount, after, ManualAdd, None);
        error := WriteCreditLedger(row);
      }
      if error.Some? {
        Rollback(saved);
        return Thrown(error.value);
      }
      answer := Returned(Some((balances[w].credits - amount, balances[w].credits)));
    }

    method ConsumeUserCreditsForGate(input: GateInput) returns (answer: Answer<GateResult>)
      modifies this
      ensures Tables() == AfterTx(old(Tables()), GateConsume(cfg, old(Tables()), input))
      ensures answer == AnswerOf(GateConsume(cfg, old(Tables()), input))
    {
      var saved := Tables();
      var w := input.wallet;
      if input.cost <= 0 {
        return Returned(GateInsufficient);
      }
      if input.cost > MAX_INT {
        return Thrown(IntOutOfRange);
      }
      if w !in balances || balances[w].credits < input.cost {
        return Returned(GateInsufficient);
      }
      var before := balances[w].credits;
      var error := AdjustBalance(w, -input.cost, 0);
      if error.Some? {
        Rollback(saved);
        return Thrown(error.value);
      }
      var after := balances[w].credits;
      var accepted := PersistAccessNonce(Nonce(w, input.service, input.nonce));
      if input.enforceUnique && !accepted {
        Rollback(saved);
        return Returned(GateReplay);
      }
      error := BookGateDebit(input, before, after);
      if error.Some? {
        Rollback(saved);
        return if error.value == UniqueConflict then Returned(GateReplay) else Thrown(error.value);
      }
      answer := Returned(GateOk(before, after, accepted));
    }

    /** The ledger row and the earning of a gate debit; any unique key they hit means a replay. */
    method BookGateDebit(input: GateInput, before: int, after: int) returns (error: Option<Error>)
      modifies this
      ensures var row := LedgerRow(input.wallet, Debit, input.cost, before, after, GateDebit, input.requestId);
        match WriteLedger(cfg, old(Tables()), row)
        case Refused(e) => error == Some(e)
        case Written(booked) =>
          if input.owner.None? then error == None && Tables() == booked
          else if input.requestId.None? || Trim(input.requestId.value) == "" then error == Some(RequestIdMissing)
          else match CreateEarning(booked, GateSettlement(input.wallet, Trim(input.requestId.value)), input.wallet,
                                   input.owner.value, input.service, input.cost)
            case Refused(e) => error == Some(e)
            case Written(earned) => error == None && Tables() == earned
    {
      var row := LedgerRow(input.wallet, Debit, input.cost, before, after, GateDebit, input.requestId);
      error := WriteCreditLedger(row);
      if error.Some? || input.owner.None? {
        return;
      }
      if input.requestId.None? || Trim(input.requestId.value) == "" {
        return Some(RequestIdMissing);
      }
      var id := GateSettlement(input.wallet, Trim(input.requestId.value));
      error := CreateMerchantEarning(id, input.wallet, input.owner.value, input.service, input.cost);
    }

    method SyncDeposits(input: SyncInput) returns (answer: Answer<SyncResult>)
      modifies this
      ensures Tables() == AfterTx(old(Tables()), Sync(cfg, old(Tables()), input))
      ensures answer == AnswerOf(Sync(cfg, old(Tables()), input))
    {
      var saved := Tables();
      if input.creditPriceWei <= 0 || input.syncedToBlock < 0 || (input.expected.Some? && input.expected.value < 0) {
        return Thrown(InvalidInput);
      }
      var safeDeposited := if input.depositedWei > 0 then input.depositedWei else 0;
      var added := safeDeposited / input.creditPriceWei;
      var w := input.wallet;
      var known := w in balances;
      var before := if known then balances[w].credits else 0;
      var cursor := if known then balances[w].cursor else 0;
      if input.expected.Some? && cursor != input.expected.value {
        return Returned(SyncResult(before, 0, before, cursor, false));
      }
      var after := before + added;
      if !InInt(after) {
        return Thrown(IntOutOfRange);
      }
      if !known {
        balances := balances[w := Balance(after, 0, input.syncedToBlock)];
      } else {
        var next := if input.allowRollback && input.syncedToBlock < cursor then input.syncedToBlock
                    else if input.syncedToBlock > cursor then input.syncedToBlock
                    else cursor;
        balances := balances[w := balances[w].(credits := after, cursor := next)];
      }
      var error: Option<Error> := None;
      if added > 0 {
        error := WriteCreditLedger(LedgerRow(w, Credit, added, before, after, VaultSync, None));
      }
      if error.Some? {
        Rollback(saved);
        return Thrown(error.value);
      }
      answer := Returned(SyncResult(before, added, after, balances[w].cursor, true));
    }
  }
}
