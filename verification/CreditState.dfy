/** The credit tables of lib/db.ts and the writes every transaction is made of. */
module CreditState {
  import opened Common
  import opened SettlementAmounts
  import opened Text

  const MAX_INT: int := 2_147_483_647
  const MIN_INT: int := -2_147_483_648

  type Wallet = string
  type HoldId = nat

  datatype Balance = Balance(credits: int, held: int, cursor: int)

  datatype HoldState = Held | Captured | Released | Expired

  datatype Hold = Hold(ticket: string, wallet: Wallet, service: string, owner: string, gateway: Option<string>,
                       cost: int, state: HoldState, expiresAt: int, capturedAt: Option<int>, proof: Option<string>,
                       releasedAt: Option<int>)

  datatype Direction = Credit | Debit

  datatype Reason = VaultSync | HoldCreated | HoldExpired | CaptureFinalized | CreditConsume | GateDebit | ManualAdd

  datatype LedgerRow = LedgerRow(wallet: Wallet, direction: Direction, amount: int, before: int, after: int,
                                 reason: Reason, requestId: Option<string>)

  datatype Earning = Earning(settlementId: SettlementId, wallet: Wallet, owner: string, service: string,
                             grossCredits: int, amounts: Amounts)

  datatype Nonce = Nonce(signer: string, service: string, nonce: string)

  datatype Attempt = Attempt(hold: HoldId, proof: string, signer: string, success: bool, httpStatus: int)

  datatype Db = Db(balances: map<Wallet, Balance>, holds: seq<Hold>, nonces: set<Nonce>, earnings: seq<Earning>,
                   ledger: seq<LedgerRow>, attempts: seq<Attempt>, activeSigners: set<(string, string)>)

  /** Feature switches read from the environment. */
  datatype Config = Config(ledgerEnabled: bool, nonceStoreEnabled: bool)

  datatype Error =
    | InvalidInput
    | IntOutOfRange
    | UniqueConflict
    | HeldInvariantViolation
    | BalanceMissing
    | HoldNotFound
    | RequestIdMissing

  /** How a transaction ends: committed with a result, or thrown and rolled back. */
  datatype Tx<+R> = Commit(db: Db, result: R) | Abort(error: Error)

  /** One write inside a transaction. */
  datatype Write = Written(db: Db) | Refused(error: Error)

  const EMPTY: Db := Db(map[], [], {}, [], [], [], {})

  predicate InInt(n: int) {
    0 <= n <= MAX_INT
  }

  /** `credits` and `heldCredits` are 32-bit columns; an increment that leaves their range throws. */
  function Adjust(db: Db, w: Wallet, credits: int, held: int): Write {
    if w !in db.balances then Refused(BalanceMissing)
    else
      var b := db.balances[w];
      if MIN_INT <= b.credits + credits <= MAX_INT && MIN_INT <= b.held + held <= MAX_INT
      then Written(db.(balances := db.balances[w := b.(credits := b.credits + credits, held := b.held + held)]))
      else Refused(IntOutOfRange)
  }

  predicate LedgerHas(ledger: seq<LedgerRow>, w: Wallet, requestId: string) {
    exists i :: 0 <= i < |ledger| && ledger[i].wallet == w && ledger[i].requestId == Some(requestId)
  }

  /** Nothing is written when the ledger is off or nothing moved; a repeated request id violates the unique key. */
  function WriteLedger(cfg: Config, db: Db, row: LedgerRow): Write {
    if !cfg.ledgerEnabled || row.amount <= 0 then Written(db)
    else if !(InInt(row.amount) && InInt(row.before) && InInt(row.after)) then Refused(IntOutOfRange)
    else if row.requestId.Some? && LedgerHas(db.ledger, row.wallet, row.requestId.value) then Refused(UniqueConflict)
    else Written(db.(ledger := db.ledger + [row]))
  }

  predicate Settled(earnings: seq<Earning>, id: SettlementId) {
    exists k :: 0 <= k < |earnings| && earnings[k].settlementId == id
  }

  function CreateEarning(db: Db, id: SettlementId, w: Wallet, owner: string, service: string, credits: int): Write {
    match CalculateSettlementAmounts(credits, PROTOCOL_FEE_BPS, CREDIT_PRICE_WEI)
    case Split(amounts) =>
      if Trim(service) == "" then Refused(InvalidInput)
      else if !InInt(credits) then Refused(IntOutOfRange)
      else if Settled(db.earnings, id) then Refused(UniqueConflict)
      else Written(db.(earnings := db.earnings + [Earning(id, w, owner, Trim(service), credits, amounts)]))
    case _ => Refused(InvalidInput)
  }

  // ---------- aggregates ----------

  function CostOf(h: Hold, w: Wallet, st: HoldState): int {
    if h.wallet == w && h.state == st then h.cost else 0
  }

  function CostIn(holds: seq<Hold>, w: Wallet, st: HoldState): int {
    if holds == [] then 0 else CostIn(holds[..|holds| - 1], w, st) + CostOf(holds[|holds| - 1], w, st)
  }

  function CountIn(holds: seq<Hold>, w: Wallet, st: HoldState): nat {
    if holds == [] then 0
    else
      var h := holds[|holds| - 1];
      CountIn(holds[..|holds| - 1], w, st) + (if h.wallet == w && h.state == st then 1 else 0)
  }

  /** Sum of captured costs over all wallets. */
  function CapturedTotal(holds: seq<Hold>): int {
    if holds == [] then 0
    else
      var h := holds[|holds| - 1];
      CapturedTotal(holds[..|holds| - 1]) + (if h.state == Captured then h.cost else 0)
  }

  /** Gross wei of the earnings that came from captures. */
  function CaptureGross(earnings: seq<Earning>): int {
    if earnings == [] then 0
    else
      var e := earnings[|earnings| - 1];
      CaptureGross(earnings[..|earnings| - 1]) + (if e.settlementId.CaptureSettlement? then e.amounts.gross else 0)
  }

  function LastAfter(ledger: seq<LedgerRow>, w: Wallet): Option<int> {
    if ledger == [] then None
    else
      var row := ledger[|ledger| - 1];
      if row.wallet == w then Some(row.after) else LastAfter(ledger[..|ledger| - 1], w)
  }

  /** CREDIT minus DEBIT amounts of one wallet. */
  function NetFlow(ledger: seq<LedgerRow>, w: Wallet): int {
    if ledger == [] then 0
    else
      var row := ledger[|ledger| - 1];
      NetFlow(ledger[..|ledger| - 1], w)
        + (if row.wallet != w then 0 else if row.direction == Credit then row.amount else -row.amount)
  }

  lemma {:induction false} CostUpdate(holds: seq<Hold>, i: HoldId, h: Hold, w: Wallet, st: HoldState)
    requires i < |holds|
    ensures CostIn(holds[i := h], w, st) == CostIn(holds, w, st) - CostOf(holds[i], w, st) + CostOf(h, w, st)
  {
    var last := |holds| - 1;
    if i < last {
      CostUpdate(holds[..last], i, h, w, st);
      assert holds[i := h][..last] == holds[..last][i := h];
    } else {
      assert holds[i := h][..last] == holds[..last];
    }
  }

  lemma {:induction false} CapturedUpdate(holds: seq<Hold>, i: HoldId, h: Hold)
    requires i < |holds|
    ensures CapturedTotal(holds[i := h]) == CapturedTotal(holds)
        - (if holds[i].state == Captured then holds[i].cost else 0) + (if h.state == Captured then h.cost else 0)
  {
    var last := |holds| - 1;
    if i < last {
      CapturedUpdate(holds[..last], i, h);
      assert holds[i := h][..last] == holds[..last][i := h];
    } else {
      assert holds[i := h][..last] == holds[..last];
    }
  }

  /** With positive costs, any one hold in a state is covered by the sum over that state. */
  lemma {:induction false} CostCovers(holds: seq<Hold>, i: HoldId, w: Wallet, st: HoldState)
    requires forall k :: 0 <= k < |holds| ==> holds[k].cost > 0
    ensures CostIn(holds, w, st) >= 0
    ensures i < |holds| && holds[i].wallet == w && holds[i].state == st ==> CostIn(holds, w, st) >= holds[i].cost
  {
    if holds != [] {
      CostCovers(holds[..|holds| - 1], i, w, st);
    }
  }
}
