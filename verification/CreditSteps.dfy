/** Each exported credit operation of lib/db.ts as one atomic step with rollback. */
module CreditSteps {
  import opened Common
  import opened SettlementAmounts
  import opened CreditState
  import opened Text
  import Runs
  import Sorting

  // ---------- hold expiry ----------

  function ExpireSuffix(ticket: string): string { ticket + ":expire" }

  function CaptureSuffix(ticket: string): string { ticket + ":capture" }

  /** A held hold is expired and its cost returned to the available balance. */
  function ExpireHeld(cfg: Config, db: Db, id: HoldId, now: int): Write
    requires id < |db.holds|
  {
    var hold := db.holds[id];
    if hold.wallet !in db.balances then Refused(BalanceMissing)
    else
      var b := db.balances[hold.wallet];
      if b.held < hold.cost then Refused(HeldInvariantViolation)
      else
        var marked := db.(holds := db.holds[id := hold.(state := Expired, releasedAt := Some(now))]);
        match Adjust(marked, hold.wallet, hold.cost, -hold.cost)
        case Refused(e) => Refused(e)
        case Written(moved) =>
          WriteLedger(cfg, moved, LedgerRow(hold.wallet, Credit, hold.cost, b.credits, b.credits + hold.cost,
                                            HoldExpired, Some(ExpireSuffix(hold.ticket))))
  }

  /** expireFulfillmentHoldById. */
  datatype ExpireResult =
    | ExpiredNow(before: Balance, after: Balance)
    | SkippedTerminal(state: HoldState)
    | SkippedNotDue

  function ExpireOne(cfg: Config, db: Db, id: HoldId, now: int): Tx<ExpireResult> {
    if id >= |db.holds| then Abort(HoldNotFound)
    else if db.holds[id].state != Held then Commit(db, SkippedTerminal(db.holds[id].state))
    else if db.holds[id].expiresAt > now then Commit(db, SkippedNotDue)
    else match ExpireHeld(cfg, db, id, now)
      case Refused(e) => Abort(e)
      case Written(db') =>
        var w := db.holds[id].wallet;
        if w in db.balances && w in db'.balances then Commit(db', ExpiredNow(db.balances[w], db'.balances[w]))
        else Abort(BalanceMissing)
  }

  // ---------- the sweep inside ticket issuance ----------

  /** ORDER BY expiresAt, createdAt; rows are numbered in creation order. */
  datatype Due = Due(expiresAt: int, id: HoldId)

  predicate DueLeq(a: Due, b: Due) {
    a.expiresAt < b.expiresAt || (a.expiresAt == b.expiresAt && a.id <= b.id)
  }

  predicate IsOverdue(h: Hold, w: Wallet, now: int) {
    h.wallet == w && h.state == Held && h.expiresAt <= now
  }

  function DueRows(holds: seq<Hold>, w: Wallet, now: int): seq<Due> {
    if holds == [] then []
    else
      var last := |holds| - 1;
      DueRows(holds[..last], w, now)
        + (if IsOverdue(holds[last], w, now) then [Due(holds[last].expiresAt, last)] else [])
  }

  function Overdue(holds: seq<Hold>, w: Wallet, now: int): seq<Due> {
    Sorting.Sort(DueLeq, DueRows(holds, w, now))
  }

  function Sweep(cfg: Config, db: Db, due: seq<Due>, now: int): Write
    requires forall k :: 0 <= k < |due| ==> due[k].id < |db.holds|
    ensures Sweep(cfg, db, due, now).Written? ==> |Sweep(cfg, db, due, now).db.holds| == |db.holds|
  {
    if due == [] then Written(db)
    else match Sweep(cfg, db, due[..|due| - 1], now)
      case Refused(e) => Refused(e)
      case Written(db') => ExpireHeld(cfg, db', due[|due| - 1].id, now)
  }

  lemma {:induction false} DueRowsFacts(holds: seq<Hold>, w: Wallet, now: int)
    ensures forall d :: d in DueRows(holds, w, now) <==>
        d.id < |holds| && IsOverdue(holds[d.id], w, now) && d.expiresAt == holds[d.id].expiresAt
    ensures forall i, j :: 0 <= i < j < |DueRows(holds, w, now)| ==>
        DueRows(holds, w, now)[i].id != DueRows(holds, w, now)[j].id
  {
    if holds != [] {
      var last := |holds| - 1;
      DueRowsFacts(holds[..last], w, now);
      assert forall d :: d in DueRows(holds[..last], w, now) ==> d.id < last && holds[..last][d.id] == holds[d.id];
    }
  }

  /** The sweep visits every overdue held hold of the wallet exactly once, oldest expiry first. */
  lemma OverdueFacts(holds: seq<Hold>, w: Wallet, now: int)
    ensures Sorting.Sorted(DueLeq, Overdue(holds, w, now))
    ensures forall i, j :: 0 <= i < j < |Overdue(holds, w, now)| ==>
        var a, b := Overdue(holds, w, now)[i], Overdue(holds, w, now)[j];
        a.expiresAt < b.expiresAt || (a.expiresAt == b.expiresAt && a.id < b.id)
    ensures forall d :: d in Overdue(holds, w, now) <==>
        d.id < |holds| && IsOverdue(holds[d.id], w, now) && d.expiresAt == holds[d.id].expiresAt
    ensures forall i, j :: 0 <= i < j < |Overdue(holds, w, now)| ==>
        Overdue(holds, w, now)[i].id != Overdue(holds, w, now)[j].id
  {
    var rows := DueRows(holds, w, now);
    var sorted := Overdue(holds, w, now);
    var id := (d: Due) => d.id;
    DueRowsFacts(holds, w, now);
    Sorting.SortFacts(DueLeq, rows);
    assert Sorting.DistinctKeys(id, rows);
    Sorting.PermutationKeepsKeys(id, rows, sorted);
    forall i, j | 0 <= i < j < |sorted| ensures sorted[i].id != sorted[j].id && DueLeq(sorted[i], sorted[j]) {
      assert id(sorted[i]) != id(sorted[j]);
    }
  }

  function SweepWallet(cfg: Config, db: Db, w: Wallet, now: int): Write {
    OverdueFacts(db.holds, w, now);
    assert forall k :: 0 <= k < |Overdue(db.holds, w, now)| ==>
        Overdue(db.holds, w, now)[k] in Overdue(db.holds, w, now);
    Sweep(cfg, db, Overdue(db.holds, w, now), now)
  }

  // ---------- createFulfillmentHold ----------

  datatype HoldInput = HoldInput(wallet: Wallet, service: string, owner: string, gateway: Option<string>, cost: int,
                                 ticket: string, expiresAt: int, requestNonce: string, walletHoldCap: int)

  datatype HoldResult =
    | HoldOk(id: HoldId, before: Balance, after: Balance)
    | InsufficientCredits(balance: int, required: int)
    | WalletHoldCapExceeded(active: nat, cap: int)
    | WalletServiceHoldExists
    | Replay

  predicate TicketUsed(holds: seq<Hold>, ticket: string) {
    exists i :: 0 <= i < |holds| && holds[i].ticket == ticket
  }

  /** The partial unique index on (wallet, service) over held rows. */
  predicate ServiceHeld(holds: seq<Hold>, w: Wallet, service: string) {
    exists i :: 0 <= i < |holds| && holds[i].wallet == w && holds[i].service == service && holds[i].state == Held
  }

  function TicketNonce(input: HoldInput): Nonce {
    Nonce(input.wallet, "fulfillment_ticket:" + input.service, input.requestNonce)
  }

  function NewHold(input: HoldInput): Hold {
    Hold(input.ticket, input.wallet, input.service, input.owner, input.gateway, input.cost, Held, input.expiresAt,
         None, None, None)
  }

  /** The writes after every check has passed; `db` is the swept state of the same transaction. */
  function IssueHold(cfg: Config, original: Db, db: Db, input: HoldInput): Tx<HoldResult>
    requires input.wallet in db.balances
  {
    var w := input.wallet;
    var b := db.balances[w];
    if cfg.nonceStoreEnabled && TicketNonce(input) in db.nonces then Commit(original, Replay)
    else
      var marked := if cfg.nonceStoreEnabled then db.(nonces := db.nonces + {TicketNonce(input)}) else db;
      match Adjust(marked, w, -input.cost, input.cost)
      case Refused(e) => Abort(e)
      case Written(moved) =>
        if TicketUsed(db.holds, input.ticket) then Abort(UniqueConflict)
        else if ServiceHeld(db.holds, w, input.service) then Commit(original, WalletServiceHoldExists)
        else
          var issued := moved.(holds := moved.holds + [NewHold(input)]);
          match WriteLedger(cfg, issued, LedgerRow(w, Debit, input.cost, b.credits, b.credits - input.cost,
                                                   HoldCreated, Some(input.ticket)))
          case Refused(e) => Abort(e)
          case Written(db') =>
            Commit(db', HoldOk(|db.holds|, b, b.(credits := b.credits - input.cost, held := b.held + input.cost)))
  }

  /** Early returns keep the sweep; replays and duplicate holds roll it back with everything else. */
  function CreateHold(cfg: Config, db: Db, input: HoldInput, now: int): Tx<HoldResult> {
    if input.cost <= 0 || input.walletHoldCap <= 0 then Abort(InvalidInput)
    else if input.cost > MAX_INT then Abort(IntOutOfRange)
    else if input.wallet !in db.balances then Commit(db, InsufficientCredits(0, input.cost))
    else match SweepWallet(cfg, db, input.wallet, now)
      case Refused(e) => Abort(e)
      case Written(swept) =>
        if input.wallet !in swept.balances then Abort(BalanceMissing)
        else if swept.balances[input.wallet].credits < input.cost
        then Commit(swept, InsufficientCredits(swept.balances[input.wallet].credits, input.cost))
        else
          var active := CountIn(swept.holds, input.wallet, Held);
          if active >= input.walletHoldCap then Commit(swept, WalletHoldCapExceeded(active, input.walletHoldCap))
          else IssueHold(cfg, db, swept, input)
  }

  // ---------- captureFulfillmentHold ----------

  datatype CaptureInput = CaptureInput(ticket: string, proof: string, signer: string, service: string,
                                       completedAt: int, statusCode: int, latencyMs: int)

  datatype CaptureResult =
    | CapturedNow(id: HoldId, before: Balance, after: Balance)
    | IdempotentReplay(id: HoldId, capturedAt: int)
    | NoSuchHold
    | UnauthorizedSigner
    | ServiceMismatch
    | ExpiredDue
    | Terminal(state: HoldState)
    | CaptureConflict(existing: Option<string>)

  function FindTicket(holds: seq<Hold>, ticket: string): (r: Option<HoldId>)
    ensures r.Some? ==> r.value < |holds| && holds[r.value].ticket == ticket
    ensures r.None? ==> !TicketUsed(holds, ticket)
  {
    if holds == [] then None
    else if holds[|holds| - 1].ticket == ticket then Some(|holds| - 1)
    else FindTicket(holds[..|holds| - 1], ticket)
  }

  function Log(db: Db, id: HoldId, input: CaptureInput, success: bool, httpStatus: int): Db {
    db.(attempts := db.attempts + [Attempt(id, input.proof, input.signer, success, httpStatus)])
  }

  function FinalizeCapture(cfg: Config, db: Db, id: HoldId, input: CaptureInput): Tx<CaptureResult>
    requires id < |db.holds|
  {
    var hold := db.holds[id];
    if hold.wallet !in db.balances then Abort(BalanceMissing)
    else
      var b := db.balances[hold.wallet];
      if b.held < hold.cost then Abort(HeldInvariantViolation)
      else
        var captured := hold.(state := Captured, capturedAt := Some(input.completedAt), proof := Some(input.proof),
                              releasedAt := None);
        match Adjust(db.(holds := db.holds[id := captured]), hold.wallet, 0, -hold.cost)
        case Refused(e) => Abort(e)
        case Written(moved) =>
          match WriteLedger(cfg, moved, LedgerRow(hold.wallet, Debit, hold.cost, b.credits, b.credits, CaptureFinalized,
                                                  Some(CaptureSuffix(hold.ticket))))
          case Refused(e) => Abort(e)
          case Written(booked) =>
            match CreateEarning(booked, CaptureSettlement(hold.ticket), hold.wallet, hold.owner, hold.service,
                                hold.cost)
            case Refused(e) => Abort(e)
            case Written(earned) =>
              Commit(Log(earned, id, input, true, 200), CapturedNow(id, b, b.(held := b.held - hold.cost)))
  }

  function Capture(cfg: Config, db: Db, input: CaptureInput): Tx<CaptureResult> {
    if input.ticket == "" || input.proof == "" || input.service == "" then Abort(InvalidInput)
    else if input.statusCode < 0 || input.latencyMs < 0 then Abort(InvalidInput)
    else match FindTicket(db.holds, input.ticket)
      case None => Commit(db, NoSuchHold)
      case Some(id) =>
        var hold := db.holds[id];
        if hold.service != input.service then Commit(Log(db, id, input, false, 409), ServiceMismatch)
        else if hold.gateway.None? || (hold.gateway.value, input.signer) !in db.activeSigners
        then Commit(Log(db, id, input, false, 403), UnauthorizedSigner)
        else match hold.state
          case Captured =>
            if hold.proof == Some(input.proof) && hold.capturedAt.Some?
            then Commit(Log(db, id, input, true, 200), IdempotentReplay(id, hold.capturedAt.value))
            else Commit(Log(db, id, input, false, 409), CaptureConflict(hold.proof))
          case Released => Commit(Log(db, id, input, false, 409), Terminal(Released))
          case Expired => Commit(Log(db, id, input, false, 409), Terminal(Expired))
          case Held =>
            if hold.expiresAt <= input.completedAt then Commit(Log(db, id, input, false, 409), ExpiredDue)
            else FinalizeCapture(cfg, db, id, input)
  }

  // ---------- plain debits and credits ----------

  /** `before` and `after` credits, or null. */
  type Moved = Option<(int, int)>

  function CreditsOf(db: Db, w: Wallet): int {
    if w in db.balances then db.balances[w].credits else 0
  }

  /** consumeUserCredits. */
  function Consume(cfg: Config, db: Db, w: Wallet, cost: int, requestId: Option<string>): Tx<Moved> {
    if cost <= 0 then Commit(db, None)
    else if cost > MAX_INT then Abort(IntOutOfRange)
    else if CreditsOf(db, w) < cost then Commit(db, None)
    else match Adjust(db, w, -cost, 0)
      case Refused(e) => Abort(e)
      case Written(moved) =>
        var before := CreditsOf(db, w);
        match WriteLedger(cfg, moved, LedgerRow(w, Debit, cost, before, before - cost, CreditConsume, requestId))
        case Refused(e) => Abort(e)
        case Written(db') => Commit(db', Some((before, before - cost)))
  }

  datatype GateInput = GateInput(wallet: Wallet, cost: int, service: string, nonce: string, enforceUnique: bool,
                                 requestId: Option<string>, owner: Option<string>)

  datatype GateResult = GateOk(before: int, after: int, nonceAccepted: bool) | GateInsufficient | GateReplay

  /** consumeUserCreditsForGate: unique-key conflicts of the ledger or the earning mean a replay. */
  function GateConsume(cfg: Config, db: Db, input: GateInput): Tx<GateResult> {
    var w := input.wallet;
    if input.cost <= 0 then Commit(db, GateInsufficient)
    else if input.cost > MAX_INT then Abort(IntOutOfRange)
    else if CreditsOf(db, w) < input.cost then Commit(db, GateInsufficient)
    else match Adjust(db, w, -input.cost, 0)
      case Refused(e) => Abort(e)
      case Written(moved) =>
        var before := CreditsOf(db, w);
        var nonce := Nonce(w, input.service, input.nonce);
        var accepted := !cfg.nonceStoreEnabled || nonce !in db.nonces;
        if input.enforceUnique && !accepted then Commit(db, GateReplay)
        else
          var marked := if cfg.nonceStoreEnabled then moved.(nonces := moved.nonces + {nonce}) else moved;
          match WriteLedger(cfg, marked,
                            LedgerRow(w, Debit, input.cost, before, before - input.cost, GateDebit, input.requestId))
          case Refused(e) => if e == UniqueConflict then Commit(db, GateReplay) else Abort(e)
          case Written(booked) =>
            if input.owner.None? then Commit(booked, GateOk(before, before - input.cost, accepted))
            else if input.requestId.None? || Trim(input.requestId.value) == "" then Abort(RequestIdMissing)
            else match CreateEarning(booked, GateSettlement(w, Trim(input.requestId.value)), w, input.owner.value,
                                     input.service, input.cost)
              case Refused(e) => if e == UniqueConflict then Commit(db, GateReplay) else Abort(e)
              case Written(earned) => Commit(earned, GateOk(before, before - input.cost, accepted))
  }

  /** addUserCredits. */
  function AddCredits(cfg: Config, db: Db, w: Wallet, amount: int): Tx<Moved> {
    if amount <= 0 then Commit(db, None)
    else if amount > MAX_INT then Abort(IntOutOfRange)
    else
      var upserted := if w in db.balances then db else db.(balances := db.balances[w := Balance(0, 0, 0)]);
      match Adjust(upserted, w, amount, 0)
      case Refused(e) => Abort(e)
      case Written(moved) =>
        var before := CreditsOf(db, w);
        match WriteLedger(cfg, moved, LedgerRow(w, Credit, amount, before, before + amount, ManualAdd, None))
        case Refused(e) => Abort(e)
        case Written(db') => Commit(db', Some((before, before + amount)))
  }

  // ---------- syncDeposits ----------

  datatype SyncInput = SyncInput(wallet: Wallet, depositedWei: int, creditPriceWei: int, syncedToBlock: int,
                                 expected: Option<int>, allowRollback: bool)

  datatype SyncResult = SyncResult(before: int, added: int, after: int, cursor: int, applied: bool)

  function AddedCredits(input: SyncInput): int
    requires input.creditPriceWei > 0
  {
    Max(0, input.depositedWei) / input.creditPriceWei
  }

  function CursorOf(db: Db, w: Wallet): int {
    if w in db.balances then db.balances[w].cursor else 0
  }

  function NextCursor(current: int, input: SyncInput): int {
    if input.allowRollback && input.syncedToBlock < current then input.syncedToBlock
    else Max(input.syncedToBlock, current)
  }

  function Sync(cfg: Config, db: Db, input: SyncInput): Tx<SyncResult> {
    var w := input.wallet;
    if input.creditPriceWei <= 0 || input.syncedToBlock < 0 then Abort(InvalidInput)
    else if input.expected.Some? && input.expected.value < 0 then Abort(InvalidInput)
    else if input.expected.Some? && CursorOf(db, w) != input.expected.value
    then Commit(db, SyncResult(CreditsOf(db, w), 0, CreditsOf(db, w), CursorOf(db, w), false))
    else
      var added := AddedCredits(input);
      var before := CreditsOf(db, w);
      var after := before + added;
      if !InInt(after) then Abort(IntOutOfRange)
      else
        var b := if w in db.balances
                 then db.balances[w].(credits := after, cursor := NextCursor(db.balances[w].cursor, input))
                 else Balance(after, 0, input.syncedToBlock);
        match WriteLedger(cfg, db.(balances := db.balances[w := b]),
                          LedgerRow(w, Credit, added, before, after, VaultSync, None))
        case Refused(e) => Abort(e)
        case Written(db') => Commit(db', SyncResult(before, added, after, b.cursor, true))
  }

  // ---------- any operation ----------

  datatype Event =
    | DoSync(sync: SyncInput)
    | DoCreateHold(hold: HoldInput, now: int)
    | DoCapture(capture: CaptureInput)
    | DoExpire(id: HoldId, at: int)
    | DoConsume(wallet: Wallet, cost: int, requestId: Option<string>)
    | DoGate(gate: GateInput)
    | DoAdd(to: Wallet, amount: int)
    | SignersChange(active: set<(string, string)>)

  function AfterTx<R>(db: Db, tx: Tx<R>): Db {
    if tx.Commit? then tx.db else db
  }

  function Apply(cfg: Config, db: Db, ev: Event): Db {
    match ev
    case DoSync(i) => AfterTx(db, Sync(cfg, db, i))
    case DoCreateHold(i, now) => AfterTx(db, CreateHold(cfg, db, i, now))
    case DoCapture(i) => AfterTx(db, Capture(cfg, db, i))
    case DoExpire(id, at) => AfterTx(db, ExpireOne(cfg, db, id, at))
    case DoConsume(w, cost, r) => AfterTx(db, Consume(cfg, db, w, cost, r))
    case DoGate(i) => AfterTx(db, GateConsume(cfg, db, i))
    case DoAdd(w, amount) => AfterTx(db, AddCredits(cfg, db, w, amount))
    case SignersChange(active) => db.(activeSigners := active)
  }

  function Step(cfg: Config): (Db, Event) -> Db {
    (db: Db, ev: Event) => Apply(cfg, db, ev)
  }

  function Run(cfg: Config, db: Db, events: seq<Event>): Db {
    Runs.Fold(Step(cfg), db, events)
  }
}
