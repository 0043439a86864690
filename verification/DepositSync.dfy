/**
 Deposit synchronisation over whole runs. A caller reads the cursor, adds up the deposits after it and
 syncs with the cursor it read as the expected one; any other credit operation may run in between, and
 any number of such callers may race. What is at stake: no deposit counts twice, and rounding each
 interval down loses little.
 */
module DepositSync {
  import opened Common
  import opened CreditState
  import opened CreditSteps
  import opened CreditInvariants
  import opened CreditProof
  import opened CreditTheorems

  /** Wei deposited by one wallet in each block. */
  type Deposits = int -> nat

  /** What was deposited in the blocks after `from`, up to and including `to`. */
  function Deposited(d: Deposits, from: int, to: int): nat
    decreases to - from
  {
    if to <= from then 0 else Deposited(d, from, to - 1) + d(to)
  }

  lemma {:induction false} NoDeposits(d: Deposits, from: int, last: int)
    requires forall b :: from < b <= last ==> d(b) == 0
    ensures Deposited(d, from, last) == 0
    decreases last - from
  {
    if from < last {
      NoDeposits(d, from, last - 1);
    }
  }

  lemma {:induction false} DepositedJoin(d: Deposits, a: int, b: int, c: int)
    requires a <= b <= c
    ensures Deposited(d, a, c) == Deposited(d, a, b) + Deposited(d, b, c)
    decreases c - b
  {
    if b < c {
      DepositedJoin(d, a, b, c - 1);
    }
  }

  /** The sync carries the deposits since the cursor it expects, and does not go back behind it. */
  ghost predicate HonestSync(input: SyncInput, d: Deposits, price: nat) {
    && input.creditPriceWei == price > 0
    && input.expected.Some? && input.expected.value <= input.syncedToBlock
    && input.depositedWei == Deposited(d, input.expected.value, input.syncedToBlock)
  }

  /** Every sync of wallet w in the run passes the cursor it started from and the deposits since then. */
  ghost predicate Honest(events: seq<Event>, w: Wallet, d: Deposits, price: nat) {
    forall n :: 0 <= n < |events| && events[n].DoSync? && events[n].sync.wallet == w ==>
      HonestSync(events[n].sync, d, price)
  }

  /** Every sync of wallet w in the run uses this price. */
  ghost predicate OnePrice(events: seq<Event>, w: Wallet, price: nat) {
    forall n :: 0 <= n < |events| && events[n].DoSync? && events[n].sync.wallet == w ==>
        events[n].sync.creditPriceWei == price
  }

  datatype Interval = Interval(from: int, to: int, wei: nat, added: int)

  /** The intervals of the syncs of w that were applied, in order, with what was deposited and the credits added. */
  function Applied(cfg: Config, events: seq<Event>, w: Wallet): seq<Interval> {
    if events == [] then []
    else
      var init, ev := events[..|events| - 1], events[|events| - 1];
      Applied(cfg, init, w) + AppliedBy(cfg, Run(cfg, EMPTY, init), ev, w)
  }

  function AppliedBy(cfg: Config, db: Db, ev: Event, w: Wallet): seq<Interval> {
    if !ev.DoSync? || ev.sync.wallet != w then []
    else match Sync(cfg, db, ev.sync)
      case Abort(_) => []
      case Commit(_, r) =>
        if r.applied then [Interval(CursorOf(db, w), r.cursor, Max(0, ev.sync.depositedWei), r.added)] else []
  }

  function AddedBy(xs: seq<Interval>): int {
    if xs == [] then 0 else AddedBy(xs[..|xs| - 1]) + xs[|xs| - 1].added
  }

  function WeiOf(xs: seq<Interval>): nat {
    if xs == [] then 0 else WeiOf(xs[..|xs| - 1]) + xs[|xs| - 1].wei
  }

  /** How many of the intervals contain block b. */
  function Times(xs: seq<Interval>, b: int): nat {
    if xs == [] then 0
    else
      var x := xs[|xs| - 1];
      Times(xs[..|xs| - 1], b) + (if x.from < b <= x.to then 1 else 0)
  }

  /** Each interval starts where the one before it ended, the first one at block 0. */
  ghost predicate Adjacent(xs: seq<Interval>, end: int) {
    if xs == [] then end == 0
    else
      var last := xs[|xs| - 1];
      last.to == end && last.from <= last.to && Adjacent(xs[..|xs| - 1], last.from)
  }

  lemma {:induction false} AdjacentIsOnce(xs: seq<Interval>, end: int, b: int)
    requires Adjacent(xs, end)
    ensures 0 <= end && Times(xs, b) == if 0 < b <= end then 1 else 0
  {
    if xs != [] {
      AdjacentIsOnce(xs[..|xs| - 1], xs[|xs| - 1].from, b);
    }
  }

  // ---------- when a sync can count only once ----------

  /** There are states in which the sync is applied: its arguments are valid and its credits fit their column. */
  predicate CanApply(input: SyncInput) {
    && input.creditPriceWei > 0 && input.syncedToBlock >= 0
    && (input.expected.Some? ==> input.expected.value >= 0)
    && InInt(AddedCredits(input))
  }

  lemma HonestSyncEffect(cfg: Config, db: Db, input: SyncInput, d: Deposits, price: nat)
    requires HonestSync(input, d, price)
    ensures var tx := Sync(cfg, db, input);
      var w := input.wallet;
      tx.Commit? && tx.result.applied ==>
        && CursorOf(db, w) == input.expected.value <= input.syncedToBlock
        && CursorOf(tx.db, w) == tx.result.cursor == input.syncedToBlock
        && tx.result.added == Deposited(d, CursorOf(db, w), CursorOf(tx.db, w)) / price
  {
  }

  // ---------- nothing else moves the cursor ----------

  lemma HoldsKeepCursor(cfg: Config, db: Db, input: HoldInput, now: int, w: Wallet)
    requires Inv(cfg, db)
    ensures CursorOf(AfterTx(db, CreateHold(cfg, db, input, now)), w) == CursorOf(db, w)
  {
    var tx := CreateHold(cfg, db, input, now);
    if tx.Commit? && input.wallet in db.balances {
      SweepWalletInv(cfg, db, input.wallet, now);
      var swept := SweepWallet(cfg, db, input.wallet, now).db;
      if input.cost <= swept.balances[input.wallet].credits {
        IssueHoldShape(cfg, db, swept, input);
      }
    }
  }

  lemma CaptureKeepsCursor(cfg: Config, db: Db, input: CaptureInput, w: Wallet)
    requires Inv(cfg, db)
    ensures CursorOf(AfterTx(db, Capture(cfg, db, input)), w) == CursorOf(db, w)
  {
    if FindTicket(db.holds, input.ticket).Some? {
      var id := FindTicket(db.holds, input.ticket).value;
      if db.holds[id].state == Held {
        FinalizeShape(cfg, db, id, input);
      }
    }
  }

  lemma ExpiryKeepsCursor(cfg: Config, db: Db, id: HoldId, now: int, w: Wallet)
    requires Inv(cfg, db)
    ensures CursorOf(AfterTx(db, ExpireOne(cfg, db, id, now)), w) == CursorOf(db, w)
  {
    if id < |db.holds| && db.holds[id].state == Held {
      ExpireHeldEffect(cfg, db, id, now);
    }
  }

  lemma GateKeepsCursor(cfg: Config, db: Db, input: GateInput, w: Wallet)
    ensures CursorOf(AfterTx(db, GateConsume(cfg, db, input)), w) == CursorOf(db, w)
  {
  }

  lemma OthersKeepCursor(cfg: Config, db: Db, ev: Event, w: Wallet)
    requires Inv(cfg, db)
    requires !(ev.DoSync? && ev.sync.wallet == w)
    ensures CursorOf(Apply(cfg, db, ev), w) == CursorOf(db, w)
  {
    hide CreateHold, Capture, ExpireOne, GateConsume;
    match ev
    case DoCreateHold(i, now) => HoldsKeepCursor(cfg, db, i, now, w);
    case DoCapture(i) => CaptureKeepsCursor(cfg, db, i, w);
    case DoExpire(id, at) => ExpiryKeepsCursor(cfg, db, id, at, w);
    case DoGate(i) => GateKeepsCursor(cfg, db, i, w);
    case _ =>
  }

  // ---------- whole runs ----------

  /** After n intervals with `added` credits, `total` wei deposited: each interval lost less than one price. */
  ghost predicate Accounted(total: int, added: int, price: nat, n: nat) {
    price * added <= total <= price * added + n * (price - 1)
  }

  lemma AccountedStep(total: int, added: int, price: nat, n: nat, wei: nat)
    requires price > 0 && Accounted(total, added, price, n)
    ensures Accounted(total + wei, added + wei / price, price, n + 1)
  {
    var q, r := wei / price, wei % price;
    assert wei == price * q + r && 0 <= r <= price - 1;
    assert price * (added + q) == price * added + price * q;
    assert (n + 1) * (price - 1) == n * (price - 1) + (price - 1);
  }

  lemma CancelLess(p: nat, x: int, y: int)
    requires p > 0 && p * x < p * y
    ensures x < y
  {
  }

  lemma AccountedBounds(total: nat, added: int, price: nat, n: nat)
    requires price > 0 && Accounted(total, added, price, n)
    ensures n >= 1 ==> total / price - (n - 1) <= added <= total / price
    ensures n == 0 ==> added == total / price && total % price == 0
  {
    var q, r := total / price, total % price;
    assert total == price * q + r && 0 <= r < price;
    assert price * (q + 1) == price * q + price;
    CancelLess(price, added, q + 1);
    if n >= 1 {
      assert price * (added + n) == price * added + n * price;
      assert n * (price - 1) == n * price - n;
      CancelLess(price, q, added + n);
    } else {
      assert price * (added + 1) == price * added + price;
      CancelLess(price, q, added + 1);
    }
  }

  lemma AppliedStep(cfg: Config, events: seq<Event>, w: Wallet, d: Deposits, price: nat)
    requires events != [] && price > 0 && Honest(events, w, d, price)
    ensures var init, ev := events[..|events| - 1], events[|events| - 1];
      var db, db' := Run(cfg, EMPTY, init), Run(cfg, EMPTY, events);
      var more := AppliedBy(cfg, db, ev, w);
      || (more == [] && CursorOf(db', w) == CursorOf(db, w))
      || (|more| == 1 && more[0].from == CursorOf(db, w) <= more[0].to == CursorOf(db', w)
          && more[0].wei == Deposited(d, more[0].from, more[0].to))
  {
    var init, ev := events[..|events| - 1], events[|events| - 1];
    var db := Run(cfg, EMPTY, init);
    EmptyInv(cfg);
    RunInv(cfg, EMPTY, init);
    if ev.DoSync? && ev.sync.wallet == w {
      HonestSyncEffect(cfg, db, ev.sync, d, price);
    } else {
      OthersKeepCursor(cfg, db, ev, w);
    }
  }

  /** The statement carried along the run: adjacent intervals, each with the deposits of its blocks. */
  ghost predicate CoveredOnce(d: Deposits, applied: seq<Interval>, cursor: int) {
    0 <= cursor && Adjacent(applied, cursor) && WeiOf(applied) == Deposited(d, 0, cursor)
  }

  lemma CoverOneMore(d: Deposits, before: seq<Interval>, x: Interval)
    requires CoveredOnce(d, before, x.from) && x.from <= x.to && x.wei == Deposited(d, x.from, x.to)
    ensures CoveredOnce(d, before + [x], x.to)
  {
    assert (before + [x])[..|before|] == before;
    DepositedJoin(d, 0, x.from, x.to);
  }

  lemma {:induction false} RunCovers(cfg: Config, events: seq<Event>, w: Wallet, d: Deposits, price: nat)
    requires price > 0 && Honest(events, w, d, price)
    ensures CoveredOnce(d, Applied(cfg, events, w), CursorOf(Run(cfg, EMPTY, events), w))
  {
    if events != [] {
      var init, ev := events[..|events| - 1], events[|events| - 1];
      RunCovers(cfg, init, w, d, price);
      AppliedStep(cfg, events, w, d, price);
      var before, more := Applied(cfg, init, w), AppliedBy(cfg, Run(cfg, EMPTY, init), ev, w);
      if more != [] {
        assert more == [more[0]];
        CoverOneMore(d, before, more[0]);
      } else {
        assert before + more == before;
      }
    }
  }

  /**
   If every sync passes the cursor it read and the deposits since then, and goes forward, then whatever else
   runs in between, every block up to the cursor lies in exactly one applied sync, and no later block in any.
   */
  lemma SyncsCoverDepositsOnce(cfg: Config, events: seq<Event>, w: Wallet, d: Deposits, price: nat)
    requires price > 0 && Honest(events, w, d, price)
    ensures var cursor, applied := CursorOf(Run(cfg, EMPTY, events), w), Applied(cfg, events, w);
      && (forall b :: Times(applied, b) == if 0 < b <= cursor then 1 else 0)
      && WeiOf(applied) == Deposited(d, 0, cursor)
  {
    RunCovers(cfg, events, w, d, price);
    var cursor, applied := CursorOf(Run(cfg, EMPTY, events), w), Applied(cfg, events, w);
    forall b ensures Times(applied, b) == if 0 < b <= cursor then 1 else 0 {
      AdjacentIsOnce(applied, cursor, b);
    }
  }

  lemma AddedByOne(cfg: Config, db: Db, ev: Event, w: Wallet, price: nat)
    requires price > 0 && (ev.DoSync? && ev.sync.wallet == w ==> ev.sync.creditPriceWei == price)
    ensures var more := AppliedBy(cfg, db, ev, w);
      more == [] || (|more| == 1 && more[0].added == more[0].wei / price)
  {
  }

  lemma AccountsOneMore(before: seq<Interval>, x: Interval, price: nat)
    requires price > 0 && Accounted(WeiOf(before), AddedBy(before), price, |before|) && x.added == x.wei / price
    ensures Accounted(WeiOf(before + [x]), AddedBy(before + [x]), price, |before| + 1)
  {
    assert (before + [x])[..|before|] == before;
    AccountedStep(WeiOf(before), AddedBy(before), price, |before|, x.wei);
  }

  lemma {:induction false} RunAccounts(cfg: Config, events: seq<Event>, w: Wallet, price: nat)
    requires price > 0 && OnePrice(events, w, price)
    ensures var applied := Applied(cfg, events, w);
      Accounted(WeiOf(applied), AddedBy(applied), price, |applied|)
  {
    if events != [] {
      var init, ev := events[..|events| - 1], events[|events| - 1];
      RunAccounts(cfg, init, w, price);
      var before, more := Applied(cfg, init, w), AppliedBy(cfg, Run(cfg, EMPTY, init), ev, w);
      AddedByOne(cfg, Run(cfg, EMPTY, init), ev, w, price);
      if more != [] {
        assert more == [more[0]];
        AccountsOneMore(before, more[0], price);
      } else {
        assert before + more == before;
      }
    }
  }

  /**
   Rounding, for any syncs at one price, whichever blocks they cover: after n applied ones the credits granted
   are within n - 1 of what one sync of all their deposits would have granted, and never above it.
   */
  lemma RoundingIsBounded(cfg: Config, events: seq<Event>, w: Wallet, price: nat)
    requires price > 0 && OnePrice(events, w, price)
    ensures var applied := Applied(cfg, events, w);
      var n, granted, atOnce := |applied|, AddedBy(applied), WeiOf(applied) / price;
      && (n >= 1 ==> atOnce - (n - 1) <= granted <= atOnce)
      && (n == 0 ==> granted == 0 && WeiOf(applied) == 0)
  {
    RunAccounts(cfg, events, w, price);
    var applied := Applied(cfg, events, w);
    AccountedBounds(WeiOf(applied), AddedBy(applied), price, |applied|);
  }

  // ---------- when a sync can be applied twice ----------

  function CursorAfter(cfg: Config, events: seq<Event>, w: Wallet): int {
    CursorOf(Run(cfg, EMPTY, events), w)
  }

  /** No step of the run takes the wallet's cursor back. */
  ghost predicate NeverLowers(cfg: Config, events: seq<Event>, w: Wallet) {
    forall n :: 0 <= n < |events| ==> CursorAfter(cfg, events[..n], w) <= CursorAfter(cfg, events[..n + 1], w)
  }

  predicate AppliesAt(cfg: Config, db: Db, input: SyncInput) {
    var tx := Sync(cfg, db, input);
    tx.Commit? && tx.result.applied
  }

  /** How often the run applies exactly this sync. */
  function TimesApplied(cfg: Config, events: seq<Event>, input: SyncInput): nat {
    if events == [] then 0
    else
      var init, ev := events[..|events| - 1], events[|events| - 1];
      TimesApplied(cfg, init, input)
          + (if ev == DoSync(input) && AppliesAt(cfg, Run(cfg, EMPTY, init), input) then 1 else 0)
  }

  /** The sync starts from a cursor it names and moves the cursor away from it. */
  predicate MovesCursor(input: SyncInput) {
    && input.expected.Some?
    && (input.expected.value < input.syncedToBlock
          || (input.allowRollback && input.syncedToBlock < input.expected.value))
  }

  lemma AppliedMoves(cfg: Config, db: Db, input: SyncInput)
    requires AppliesAt(cfg, db, input)
    ensures CursorOf(Sync(cfg, db, input).db, input.wallet)
        == if input.wallet in db.balances then NextCursor(CursorOf(db, input.wallet), input) else input.syncedToBlock
    ensures input.expected.Some? ==> CursorOf(db, input.wallet) == input.expected.value
  {
  }

  lemma {:induction false} NeverLowersInit(cfg: Config, events: seq<Event>, w: Wallet)
    requires events != [] && NeverLowers(cfg, events, w)
    ensures NeverLowers(cfg, events[..|events| - 1], w)
    ensures CursorAfter(cfg, events[..|events| - 1], w) <= CursorAfter(cfg, events, w)
  {
    var init := events[..|events| - 1];
    forall n | 0 <= n < |init| ensures CursorAfter(cfg, init[..n], w) <= CursorAfter(cfg, init[..n + 1], w) {
      assert init[..n] == events[..n] && init[..n + 1] == events[..n + 1];
    }
    assert events[..|events| - 1 + 1] == events;
  }

  /** Once applied, such a sync has left its starting cursor behind, and the cursor does not come back. */
  lemma {:induction false} LeftBehind(cfg: Config, events: seq<Event>, input: SyncInput)
    requires NeverLowers(cfg, events, input.wallet) && MovesCursor(input)
    ensures TimesApplied(cfg, events, input) <= 1
    ensures TimesApplied(cfg, events, input) == 1 ==> CursorAfter(cfg, events, input.wallet) > input.expected.value
  {
    if events != [] {
      var init, ev := events[..|events| - 1], events[|events| - 1];
      NeverLowersInit(cfg, events, input.wallet);
      LeftBehind(cfg, init, input);
      if ev == DoSync(input) && AppliesAt(cfg, Run(cfg, EMPTY, init), input) {
        AppliedMoves(cfg, Run(cfg, EMPTY, init), input);
      }
    }
  }

  /** A run that applies a sync which does not move the cursor twice: brought to its cursor, synced, spent, synced. */
  function Twice(input: SyncInput): seq<Event>
    requires CanApply(input)
  {
    [DoSync(SyncInput(input.wallet, 0, 1, input.expected.GetOr(0), None, false))]
      + [DoSync(input)] + [DoConsume(input.wallet, AddedCredits(input), None)] + [DoSync(input)]
  }

  const LEDGER_OFF: Config := Config(false, false)

  function At(w: Wallet, credits: int, cursor: int): Db {
    EMPTY.(balances := map[w := Balance(credits, 0, cursor)])
  }

  lemma SyncAt(input: SyncInput, credits: int, cursor: int)
    requires CanApply(input) && InInt(credits + AddedCredits(input))
    requires input.expected.Some? ==> input.expected.value == cursor
    ensures Sync(LEDGER_OFF, At(input.wallet, credits, cursor), input)
        == Commit(At(input.wallet, credits + AddedCredits(input), NextCursor(cursor, input)),
                  SyncResult(credits, AddedCredits(input), credits + AddedCredits(input), NextCursor(cursor, input),
                             true))
  {
    var w, after := input.wallet, credits + AddedCredits(input);
    assert At(w, credits, cursor).balances[w := Balance(after, 0, NextCursor(cursor, input))]
      == At(w, after, NextCursor(cursor, input)).balances;
  }

  lemma BringTo(w: Wallet, cursor: int)
    requires cursor >= 0
    ensures Apply(LEDGER_OFF, EMPTY, DoSync(SyncInput(w, 0, 1, cursor, None, false))) == At(w, 0, cursor)
  {
  }

  lemma SpendAll(w: Wallet, credits: int, cursor: int)
    requires InInt(credits)
    ensures Apply(LEDGER_OFF, At(w, credits, cursor), DoConsume(w, credits, None)) == At(w, 0, cursor)
  {
    if credits > 0 {
      assert At(w, credits, cursor).balances[w := Balance(0, 0, cursor)] == At(w, 0, cursor).balances;
    }
  }

  /** The states Twice goes through. */
  lemma TwiceRuns(input: SyncInput)
    requires CanApply(input) && !MovesCursor(input)
    ensures var e, events, w := input.expected.GetOr(0), Twice(input), input.wallet;
      var cursor, added := Max(e, input.syncedToBlock), AddedCredits(input);
      && Run(LEDGER_OFF, EMPTY, events[..1]) == At(w, 0, e)
      && Run(LEDGER_OFF, EMPTY, events[..2]) == At(w, added, cursor)
      && Run(LEDGER_OFF, EMPTY, events[..3]) == At(w, 0, cursor)
      && Run(LEDGER_OFF, EMPTY, events[..4]) == At(w, added, cursor)
  {
    var e, events, w := input.expected.GetOr(0), Twice(input), input.wallet;
    var cursor, added := Max(e, input.syncedToBlock), AddedCredits(input);
    BringTo(w, e);
    SyncAt(input, 0, e);
    SpendAll(w, added, cursor);
    SyncAt(input, 0, cursor);
    forall n | 0 <= n < 4
      ensures Run(LEDGER_OFF, EMPTY, events[..n + 1])
          == Apply(LEDGER_OFF, Run(LEDGER_OFF, EMPTY, events[..n]), events[n])
    {
      assert events[..n + 1] == events[..n] + [events[n]];
      RunStep(LEDGER_OFF, EMPTY, events[..n], events[n]);
    }
    assert Run(LEDGER_OFF, EMPTY, events[..0]) == EMPTY;
  }

  lemma TimesAppliedStep(cfg: Config, events: seq<Event>, n: nat, input: SyncInput)
    requires n < |events|
    ensures TimesApplied(cfg, events[..n + 1], input) == TimesApplied(cfg, events[..n], input)
        + (if events[n] == DoSync(input) && AppliesAt(cfg, Run(cfg, EMPTY, events[..n]), input) then 1 else 0)
  {
    assert events[..n + 1][..n] == events[..n];
  }

  lemma TwiceApplies(input: SyncInput)
    requires CanApply(input) && !MovesCursor(input)
    ensures NeverLowers(LEDGER_OFF, Twice(input), input.wallet)
    ensures TimesApplied(LEDGER_OFF, Twice(input), input) >= 2
  {
    var events := Twice(input);
    var e, cursor := input.expected.GetOr(0), Max(input.expected.GetOr(0), input.syncedToBlock);
    TwiceRuns(input);
    SyncAt(input, 0, e);
    SyncAt(input, 0, cursor);
    TimesAppliedStep(LEDGER_OFF, events, 0, input);
    TimesAppliedStep(LEDGER_OFF, events, 1, input);
    TimesAppliedStep(LEDGER_OFF, events, 2, input);
    TimesAppliedStep(LEDGER_OFF, events, 3, input);
    assert events[..4] == events && CursorAfter(LEDGER_OFF, events[..0], input.wallet) == 0;
  }

  /**
   Exactly when a sync can be applied only once: in every run that takes the cursor of its wallet never back, one
   and the same sync is applied at most once, if and only if it names the cursor it starts from and moves it, on
   to a later block, or back, which such runs exclude. One that leaves the cursor where it is passes its own check
   again.
   */
  lemma AppliedOnceIff(input: SyncInput)
    requires CanApply(input)
    ensures (forall cfg: Config, events: seq<Event> ::
               NeverLowers(cfg, events, input.wallet) ==> TimesApplied(cfg, events, input) <= 1)
        <==> MovesCursor(input)
  {
    if MovesCursor(input) {
      forall cfg: Config, events: seq<Event> | NeverLowers(cfg, events, input.wallet)
        ensures TimesApplied(cfg, events, input) <= 1
      {
        LeftBehind(cfg, events, input);
      }
    } else {
      TwiceApplies(input);
    }
  }

  lemma RunTwo(cfg: Config, first: Event, second: Event)
    ensures Run(cfg, EMPTY, [first] + [second]) == Apply(cfg, Apply(cfg, EMPTY, first), second)
  {
    RunStep(cfg, EMPTY, [], first);
    RunStep(cfg, EMPTY, [first], second);
    assert [] + [first] == [first];
  }

  /** Without an expected cursor: two syncs of one and the same interval. */
  lemma MissingCursorCountsAgain(cfg: Config, w: Wallet)
    ensures var once := DoSync(SyncInput(w, 1, 1, 1, None, false));
      CreditsOf(Run(cfg, EMPTY, [once] + [once]), w) == 2
  {
    var once := DoSync(SyncInput(w, 1, 1, 1, None, false));
    RunTwo(cfg, once, once);
  }

  /** With the expected cursor, but going back in between: the caller's first sync applies a second time. */
  lemma RollbackCountsAgain(cfg: Config, w: Wallet)
    ensures var once := DoSync(SyncInput(w, 1, 1, 1, Some(0), false));
      var back := DoSync(SyncInput(w, 0, 1, 0, Some(1), true));
      CreditsOf(Run(cfg, EMPTY, ([once] + [back]) + [once]), w) == 2
  {
    var once, back := DoSync(SyncInput(w, 1, 1, 1, Some(0), false)), DoSync(SyncInput(w, 0, 1, 0, Some(1), true));
    RunTwo(cfg, once, back);
    RunStep(cfg, EMPTY, [once] + [back], once);
  }
}
