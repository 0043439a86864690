/**
 The one caller of the deposit sync, app/api/sync-credits/route.ts, over whole runs. A call reads the cursor,
 then the historical cursor from the ledger, then the chain up to a head or to a block its client names, and
 syncs what it found. Other credit operations and other calls run in between.
 */
module DepositRoute {
  import opened Common
  import opened CreditState
  import opened CreditSteps
  import opened CreditInvariants
  import opened CreditProof
  import opened CreditTheorems
  import opened DepositSync

  // ---------- one call ----------

  /** Settings of app/api/sync-credits/route.ts, and what one step of it reads before it syncs. */
  datatype Route = Route(startBlock: nat, maxBlocks: nat)
  datatype Look = Look(persisted: int, historical: int, latest: nat, target: Option<nat>)

  function HeadOf(k: Look): nat {
    if k.target.Some? && k.target.value < k.latest then k.target.value else k.latest
  }

  function Recovered(k: Look): int {
    if k.historical > k.persisted then k.historical else k.persisted
  }

  /** chainCursorAheadOfHead. */
  predicate Ahead(k: Look) {
    Recovered(k) > HeadOf(k)
  }

  function FallbackBlock(route: Route, k: Look): nat {
    var anchor := k.target.GetOr(HeadOf(k));
    if anchor <= route.startBlock then route.startBlock
    else Max(if anchor >= route.maxBlocks - 1 then anchor - (route.maxBlocks - 1) else 0, route.startBlock)
  }

  function FromBlock(route: Route, k: Look): int {
    if Ahead(k) then FallbackBlock(route, k) else Max(Recovered(k) + 1, route.startBlock)
  }

  function ToBlock(route: Route, k: Look): int {
    if FromBlock(route, k) <= HeadOf(k) then Min(FromBlock(route, k) + route.maxBlocks - 1, HeadOf(k)) else HeadOf(k)
  }

  predicate Scannable(route: Route, k: Look) {
    FromBlock(route, k) <= ToBlock(route, k)
  }

  function Scanned(route: Route, k: Look, d: Deposits): nat {
    Deposited(d, FromBlock(route, k) - 1, ToBlock(route, k))
  }

  function RouteSync(route: Route, k: Look, w: Wallet, d: Deposits, price: nat): SyncInput {
    SyncInput(w, Scanned(route, k, d), price,
              if Scannable(route, k) then ToBlock(route, k) else if Ahead(k) then 0 else Recovered(k),
              Some(k.persisted), Ahead(k))
  }

  // ---------- runs ----------

  datatype World = World(cfg: Config, route: Route, wallet: Wallet, deposits: Deposits, price: nat)

  /** The vault exists from the start block on, which is not the first block of the chain. */
  ghost predicate Proper(x: World) {
    && x.price > 0 && x.route.maxBlocks >= 1
    && forall b :: b < Max(1, x.route.startBlock) ==> x.deposits(b) == 0
  }

  /**
   A call with the head it sees and the block its client names, and after how many steps of the run it read the
   cursor and then the historical cursor. The syncs of other wallets are among the other operations.
   */
  datatype Op = Call(latest: nat, target: Option<nat>, cursorAt: nat, historyAt: nat) | Other(ev: Event)

  /** The blocks after `start` up to `end`. */
  datatype Window = Window(start: int, end: int)

  /** `historical` is what the ledger says; `windows` is history: the blocks of the applied calls. */
  datatype Snap = Snap(db: Db, historical: int, windows: seq<Window>)

  const START: Snap := Snap(EMPTY, 0, [])

  function LookOf(x: World, before: seq<Snap>, op: Op): Look
    requires before != [] && op.Call?
  {
    var last := |before| - 1;
    var i := if op.cursorAt < last then op.cursorAt else last;
    var j := if op.historyAt < i then i else if op.historyAt < last then op.historyAt else last;
    Look(CursorOf(before[i].db, x.wallet), before[j].historical, op.latest, op.target)
  }

  function InputFor(x: World, k: Look): SyncInput {
    RouteSync(x.route, k, x.wallet, x.deposits, x.price)
  }

  function WindowFor(x: World, k: Look): Window {
    Window(FromBlock(x.route, k) - 1, ToBlock(x.route, k))
  }

  /** The ledger row of a sync records where it synced to and where the cursor was; none is written for no credits. */
  function HistoryAfter(x: World, s: Snap, input: SyncInput, added: int): int {
    if x.cfg.ledgerEnabled && added > 0
    then Max(s.historical, Max(input.syncedToBlock, CursorOf(s.db, x.wallet)))
    else s.historical
  }

  function CallStep(x: World, s: Snap, k: Look): Snap {
    match Sync(x.cfg, s.db, InputFor(x, k))
    case Abort(_) => s
    case Commit(db, r) =>
      if r.applied then Snap(db, HistoryAfter(x, s, InputFor(x, k), r.added), s.windows + [WindowFor(x, k)]) else s
  }

  function Step(x: World, before: seq<Snap>, op: Op): Snap
    requires before != []
  {
    var s := before[|before| - 1];
    match op
    case Call(_, _, _, _) => CallStep(x, s, LookOf(x, before, op))
    case Other(ev) => if ev.DoSync? && ev.sync.wallet == x.wallet then s else s.(db := Apply(x.cfg, s.db, ev))
  }

  /** The states after 0, 1, 2, ... steps. */
  function Trace(x: World, ops: seq<Op>): (t: seq<Snap>)
    ensures |t| == |ops| + 1
  {
    if ops == [] then [START]
    else
      var before := Trace(x, ops[..|ops| - 1]);
      before + [Step(x, before, ops[|ops| - 1])]
  }

  function End(x: World, ops: seq<Op>): Snap {
    Trace(x, ops)[|ops|]
  }

  function Cursor(x: World, s: Snap): int {
    CursorOf(s.db, x.wallet)
  }

  lemma EndAppend(x: World, ops: seq<Op>, op: Op)
    ensures Trace(x, ops + [op]) == Trace(x, ops) + [Step(x, Trace(x, ops), op)]
    ensures End(x, ops + [op]) == Step(x, Trace(x, ops), op)
  {
    assert (ops + [op])[..|ops|] == ops;
  }

  /** How many applied calls scanned block b. */
  function Scans(windows: seq<Window>, b: int): nat {
    if windows == [] then 0
    else
      var last := windows[|windows| - 1];
      Scans(windows[..|windows| - 1], b) + (if last.start < b <= last.end then 1 else 0)
  }

  lemma ScansAppend(windows: seq<Window>, v: Window, b: int)
    ensures Scans(windows + [v], b) == Scans(windows, b) + (if v.start < b <= v.end then 1 else 0)
  {
    assert (windows + [v])[..|windows|] == windows;
  }

  // ---------- what every run keeps ----------

  lemma {:induction false} SomeDeposit(d: Deposits, from: int, last: int) returns (b: int)
    requires Deposited(d, from, last) > 0
    ensures from < b <= last && d(b) > 0
    decreases last - from
  {
    if d(last) > 0 {
      b := last;
    } else {
      b := SomeDeposit(d, from, last - 1);
    }
  }

  /** The blocks of an applied call hold no more than fits the credit column. */
  ghost predicate Fits(x: World, v: Window)
    requires x.price > 0
  {
    Deposited(x.deposits, v.start, v.end) / x.price <= MAX_INT
  }

  ghost predicate SnapOk(x: World, s: Snap)
    requires x.price > 0
  {
    && Inv(x.cfg, s.db) && Cursor(x, s) >= 0 && s.historical >= 0
    && forall i :: 0 <= i < |s.windows| ==> Fits(x, s.windows[i])
  }

  lemma OtherOk(x: World, s: Snap, ev: Event)
    requires Proper(x) && SnapOk(x, s) && !(ev.DoSync? && ev.sync.wallet == x.wallet)
    ensures SnapOk(x, s.(db := Apply(x.cfg, s.db, ev))) && Cursor(x, s.(db := Apply(x.cfg, s.db, ev))) == Cursor(x, s)
  {
    ApplyInv(x.cfg, s.db, ev);
    OthersKeepCursor(x.cfg, s.db, ev, x.wallet);
  }

  predicate Applies(x: World, s: Snap, k: Look) {
    AppliesAt(x.cfg, s.db, InputFor(x, k))
  }

  lemma CallUnapplied(x: World, s: Snap, k: Look)
    requires !Applies(x, s, k)
    ensures CallStep(x, s, k) == s
  {
  }

  /** What an applied call did: the cursor it read was the cursor, and its window and ledger entry are added. */
  ghost predicate Moved(x: World, s: Snap, k: Look, s': Snap)
    requires x.price > 0
  {
    var input := InputFor(x, k);
    && k.persisted == Cursor(x, s) && s'.windows == s.windows + [WindowFor(x, k)] && input.syncedToBlock >= 0
    && Cursor(x, s') == (if x.wallet in s.db.balances then NextCursor(Cursor(x, s), input) else input.syncedToBlock)
    && s'.historical == HistoryAfter(x, s, input, input.depositedWei / x.price)
  }

  lemma CallApplied(x: World, s: Snap, k: Look)
    requires Proper(x) && SnapOk(x, s) && Applies(x, s, k)
    ensures var s' := CallStep(x, s, k);
      && Moved(x, s, k, s') && Inv(x.cfg, s'.db) && Fits(x, WindowFor(x, k))
      && CreditsOf(s'.db, x.wallet) == CreditsOf(s.db, x.wallet) + InputFor(x, k).depositedWei / x.price
  {
    SyncInv(x.cfg, s.db, InputFor(x, k));
  }

  lemma CallOk(x: World, s: Snap, k: Look)
    requires Proper(x) && SnapOk(x, s)
    ensures SnapOk(x, CallStep(x, s, k))
  {
    if Applies(x, s, k) {
      CallApplied(x, s, k);
    } else {
      CallUnapplied(x, s, k);
    }
  }

  lemma StepOk(x: World, before: seq<Snap>, op: Op)
    requires Proper(x) && before != [] && SnapOk(x, before[|before| - 1])
    ensures SnapOk(x, Step(x, before, op))
  {
    var s := before[|before| - 1];
    match op
    case Call(_, _, _, _) => CallOk(x, s, LookOf(x, before, op));
    case Other(ev) =>
      if !(ev.DoSync? && ev.sync.wallet == x.wallet) {
        OtherOk(x, s, ev);
      }
  }

  lemma {:induction false} TraceOk(x: World, ops: seq<Op>)
    requires Proper(x)
    ensures forall i :: 0 <= i <= |ops| ==> SnapOk(x, Trace(x, ops)[i])
  {
    if ops == [] {
      EmptyInv(x.cfg);
    } else {
      var init := ops[..|ops| - 1];
      TraceOk(x, init);
      StepOk(x, Trace(x, init), ops[|ops| - 1]);
    }
  }

  // ---------- the ledger's cursor is read in time ----------

  /** From state `base` on the cursor only grows, and while it stands still nothing is written about it. */
  ghost predicate Steady(x: World, t: seq<Snap>, base: nat) {
    forall i, j :: base <= i <= j < |t| ==>
      Cursor(x, t[i]) <= Cursor(x, t[j]) && (Cursor(x, t[i]) == Cursor(x, t[j]) ==> t[i].historical == t[j].historical)
  }

  /** What a call reads that starts and is applied now. */
  function FreshLook(x: World, s: Snap, op: Op): Look
    requires op.Call?
  {
    Look(Cursor(x, s), s.historical, op.latest, op.target)
  }

  lemma ReadsFresh(x: World, before: seq<Snap>, op: Op, base: nat)
    requires op.Call? && base < |before| && Steady(x, before, base) && op.cursorAt >= base
    requires LookOf(x, before, op).persisted == Cursor(x, before[|before| - 1])
    ensures LookOf(x, before, op) == FreshLook(x, before[|before| - 1], op)
  {
    var last := |before| - 1;
    var i := if op.cursorAt < last then op.cursorAt else last;
    var j := if op.historyAt < i then i else if op.historyAt < last then op.historyAt else last;
    assert Cursor(x, before[i]) <= Cursor(x, before[j]) <= Cursor(x, before[last]);
  }

  /** The calls from step `base` on start there or later and see a head that is not behind the cursor. */
  ghost predicate QuietAt(x: World, before: seq<Snap>, op: Op, base: nat)
    requires before != []
  {
    op.Call? ==> op.cursorAt >= base && !Ahead(LookOf(x, before, op))
  }

  ghost predicate Quiet(x: World, ops: seq<Op>, base: nat) {
    forall n :: base <= n < |ops| ==> QuietAt(x, Trace(x, ops[..n]), ops[n], base)
  }

  function Reached(x: World, s: Snap): int {
    Max(Cursor(x, s), s.historical)
  }

  lemma ForwardLooks(x: World, k: Look)
    requires Proper(x) && !Ahead(k)
    ensures var v, input := WindowFor(x, k), InputFor(x, k);
      if v.start < v.end
      then Recovered(k) <= v.start == Max(Recovered(k), x.route.startBlock - 1) && input.syncedToBlock == v.end
      else input.depositedWei == 0 && input.syncedToBlock == Recovered(k)
  {
  }

  lemma BackLooks(x: World, k: Look)
    requires Proper(x) && Ahead(k)
    ensures x.route.startBlock - 1 <= WindowFor(x, k).start && WindowFor(x, k).end < Recovered(k)
    ensures 0 <= InputFor(x, k).syncedToBlock < Recovered(k) && InputFor(x, k).allowRollback
  {
  }

  /** A call that goes forward scans blocks beyond all that was reached, up to its new cursor, or none. */
  ghost predicate WentForward(x: World, s: Snap, v: Window, s': Snap) {
    || (v.end <= v.start && Cursor(x, s') == Reached(x, s) && s'.historical == s.historical)
    || (Reached(x, s) <= v.start < v.end == Cursor(x, s') && v.start == Max(Reached(x, s), x.route.startBlock - 1)
        && (s'.historical == s.historical || s'.historical == v.end))
  }

  lemma ForwardMoves(x: World, s: Snap, k: Look, s': Snap)
    requires Proper(x) && !Ahead(k) && Moved(x, s, k, s')
    requires k.historical == s.historical >= 0 && Cursor(x, s) >= 0
    ensures WentForward(x, s, WindowFor(x, k), s')
  {
    ForwardLooks(x, k);
  }

  lemma ForwardCall(x: World, s: Snap, k: Look)
    requires Proper(x) && SnapOk(x, s) && Applies(x, s, k) && !Ahead(k)
    requires k.persisted == Cursor(x, s) && k.historical == s.historical
    ensures WentForward(x, s, WindowFor(x, k), CallStep(x, s, k))
  {
    CallApplied(x, s, k);
    ForwardMoves(x, s, k, CallStep(x, s, k));
  }

  lemma {:induction false} SteadyRun(x: World, ops: seq<Op>, base: nat)
    requires Proper(x) && base <= |ops| && Quiet(x, ops, base)
    ensures Steady(x, Trace(x, ops), base)
    decreases |ops|
  {
    if base < |ops| {
      var init, op := ops[..|ops| - 1], ops[|ops| - 1];
      var before := Trace(x, init);
      QuietInit(x, ops, base);
      SteadyRun(x, init, base);
      TraceOk(x, init);
      SteadyStep(x, before, op, base);
    }
  }

  lemma QuietInit(x: World, ops: seq<Op>, base: nat)
    requires ops != [] && Quiet(x, ops, base) && base < |ops|
    ensures Quiet(x, ops[..|ops| - 1], base)
    ensures QuietAt(x, Trace(x, ops[..|ops| - 1]), ops[|ops| - 1], base)
  {
    var init := ops[..|ops| - 1];
    forall n | base <= n < |init| ensures QuietAt(x, Trace(x, init[..n]), init[n], base) {
      assert init[..n] == ops[..n];
    }
  }

  lemma SteadyStep(x: World, before: seq<Snap>, op: Op, base: nat)
    requires Proper(x) && base < |before| && Steady(x, before, base) && SnapOk(x, before[|before| - 1])
    requires QuietAt(x, before, op, base)
    ensures Steady(x, before + [Step(x, before, op)], base)
  {
    var s, s' := before[|before| - 1], Step(x, before, op);
    StepGrows(x, before, op, base);
    forall i | base <= i < |before|
      ensures Cursor(x, before[i]) <= Cursor(x, s')
          && (Cursor(x, before[i]) == Cursor(x, s') ==> before[i].historical == s'.historical)
    {
      assert Cursor(x, before[i]) <= Cursor(x, s);
    }
  }

  lemma StepGrows(x: World, before: seq<Snap>, op: Op, base: nat)
    requires Proper(x) && base < |before| && Steady(x, before, base) && SnapOk(x, before[|before| - 1])
    requires QuietAt(x, before, op, base)
    ensures var s, s' := before[|before| - 1], Step(x, before, op);
      Cursor(x, s) <= Cursor(x, s') && (Cursor(x, s) == Cursor(x, s') ==> s.historical == s'.historical)
  {
    var s := before[|before| - 1];
    match op
    case Call(_, _, _, _) =>
      var k := LookOf(x, before, op);
      if Applies(x, s, k) {
        CallApplied(x, s, k);
        ReadsFresh(x, before, op, base);
        ForwardCall(x, s, k);
      } else {
        CallUnapplied(x, s, k);
      }
    case Other(ev) =>
      if !(ev.DoSync? && ev.sync.wallet == x.wallet) {
        OtherOk(x, s, ev);
      }
  }

  // ---------- as long as no call goes back ----------

  /** Every block from the start up to the cursor has been scanned once, and no other block at all. */
  ghost predicate ScannedOnce(x: World, s: Snap) {
    && s.historical <= Cursor(x, s)
    && forall b :: Scans(s.windows, b) == if Max(1, x.route.startBlock) <= b <= Cursor(x, s) then 1 else 0
  }

  lemma ForwardScansOnce(x: World, s: Snap, k: Look)
    requires Proper(x) && SnapOk(x, s) && Applies(x, s, k) && !Ahead(k) && ScannedOnce(x, s)
    requires k.persisted == Cursor(x, s) && k.historical == s.historical
    ensures ScannedOnce(x, CallStep(x, s, k))
  {
    var s', v := CallStep(x, s, k), WindowFor(x, k);
    CallApplied(x, s, k);
    ForwardCall(x, s, k);
    forall b ensures Scans(s'.windows, b) == if Max(1, x.route.startBlock) <= b <= Cursor(x, s') then 1 else 0 {
      ScansAppend(s.windows, v, b);
    }
  }

  /**
   The caller counts every deposit exactly once, in any run of its calls and any other operations, reads and
   races included, as long as no call sees a head behind the cursor: each block from the start up to the cursor
   lies in the scan of exactly one applied call, and later blocks in none.
   */
  lemma {:induction false} CountedOnce(x: World, ops: seq<Op>)
    requires Proper(x) && Quiet(x, ops, 0)
    ensures ScannedOnce(x, End(x, ops))
  {
    if ops != [] {
      var init, op := ops[..|ops| - 1], ops[|ops| - 1];
      var before := Trace(x, init);
      var s := before[|init|];
      QuietInit(x, ops, 0);
      CountedOnce(x, init);
      TraceOk(x, init);
      SteadyRun(x, init, 0);
      match op
      case Call(_, _, _, _) =>
        var k := LookOf(x, before, op);
        if Applies(x, s, k) {
          CallApplied(x, s, k);
          ReadsFresh(x, before, op, 0);
          ForwardScansOnce(x, s, k);
        } else {
          CallUnapplied(x, s, k);
        }
      case Other(ev) =>
        if !(ev.DoSync? && ev.sync.wallet == x.wallet) {
          OtherOk(x, s, ev);
        }
    }
  }

  // ---------- no deposit is missed, whatever the calls do ----------

  function First(x: World): int {
    Max(1, x.route.startBlock)
  }

  /** From the first block on, those up to `top` have been scanned and no others; what was reached is not beyond. */
  ghost predicate CoveredTo(x: World, s: Snap, top: int) {
    Reached(x, s) <= top && forall b :: First(x) <= b ==> (Scans(s.windows, b) >= 1 <==> b <= top)
  }

  lemma {:induction false} HistoryGrows(x: World, ops: seq<Op>, i: nat)
    requires Proper(x) && i <= |ops|
    ensures 0 <= Trace(x, ops)[i].historical <= End(x, ops).historical
    decreases |ops|
  {
    TraceOk(x, ops);
    if i < |ops| {
      HistoryGrows(x, ops[..|ops| - 1], i);
    }
  }

  lemma LooksBehind(x: World, ops: seq<Op>, op: Op)
    requires Proper(x) && op.Call?
    ensures 0 <= LookOf(x, Trace(x, ops), op).historical <= End(x, ops).historical
  {
    var last := |ops|;
    var i := if op.cursorAt < last then op.cursorAt else last;
    var j := if op.historyAt < i then i else if op.historyAt < last then op.historyAt else last;
    HistoryGrows(x, ops, j);
  }

  lemma CallCovers(x: World, s: Snap, k: Look, top: int) returns (top': int)
    requires Proper(x) && SnapOk(x, s) && Applies(x, s, k) && CoveredTo(x, s, top)
    requires 0 <= k.historical <= s.historical
    ensures CoveredTo(x, CallStep(x, s, k), top')
  {
    var s', v := CallStep(x, s, k), WindowFor(x, k);
    CallApplied(x, s, k);
    if Ahead(k) {
      top' := top;
      BackLooks(x, k);
    } else {
      top' := if v.start < v.end then Max(top, v.end) else top;
      ForwardLooks(x, k);
    }
    forall b | First(x) <= b ensures Scans(s'.windows, b) >= 1 <==> b <= top' {
      ScansAppend(s.windows, v, b);
    }
  }

  /**
   In every run, whatever heads and targets its calls see and however they race, no block up to the cursor, or up
   to what the ledger remembers, is ever left out: the blocks scanned so far are those from the first one to some
   last one, without a gap.
   */
  lemma {:induction false} NothingIsMissed(x: World, ops: seq<Op>) returns (top: int)
    requires Proper(x)
    ensures CoveredTo(x, End(x, ops), top)
  {
    top := 0;
    if ops != [] {
      var init, op := ops[..|ops| - 1], ops[|ops| - 1];
      var s := End(x, init);
      top := NothingIsMissed(x, init);
      TraceOk(x, init);
      match op
      case Call(_, _, _, _) =>
        var k := LookOf(x, Trace(x, init), op);
        LooksBehind(x, init, op);
        if Applies(x, s, k) {
          top := CallCovers(x, s, k, top);
        } else {
          CallUnapplied(x, s, k);
        }
      case Other(ev) =>
        if !(ev.DoSync? && ev.sync.wallet == x.wallet) {
          OtherOk(x, s, ev);
        }
    }
  }

  // ---------- when a deposit can be counted again ----------

  /** Some deposit lies in the scans of two applied calls. */
  ghost predicate SomeCountedTwice(x: World, s: Snap) {
    exists b :: x.deposits(b) > 0 && Scans(s.windows, b) >= 2
  }

  /** One has been counted twice, or one that has been counted lies beyond what was reached. */
  ghost predicate Exposed(x: World, s: Snap) {
    exists b :: x.deposits(b) > 0
      && (Scans(s.windows, b) >= 2 || (Scans(s.windows, b) >= 1 && b > Reached(x, s)))
  }

  /** Some course of calls that start from here on, and see no head behind the cursor, ends with one counted twice. */
  ghost predicate CanCountAgain(x: World, ops: seq<Op>) {
    exists more :: Quiet(x, ops + more, |ops|) && SomeCountedTwice(x, End(x, ops + more))
  }

  // If none is exposed, calls that go forward expose none.

  lemma ForwardExposesNothing(x: World, s: Snap, k: Look)
    requires Proper(x) && SnapOk(x, s) && Applies(x, s, k) && !Ahead(k) && !Exposed(x, s)
    requires k.persisted == Cursor(x, s) && k.historical == s.historical
    ensures !Exposed(x, CallStep(x, s, k))
  {
    var s', v := CallStep(x, s, k), WindowFor(x, k);
    CallApplied(x, s, k);
    ForwardCall(x, s, k);
    forall b | x.deposits(b) > 0
      ensures Scans(s'.windows, b) <= 1 && (b > Reached(x, s') ==> Scans(s'.windows, b) == 0)
    {
      ScansAppend(s.windows, v, b);
    }
  }

  lemma {:induction false} StaysUnexposed(x: World, ops: seq<Op>, base: nat)
    requires Proper(x) && base <= |ops| && Quiet(x, ops, base) && !Exposed(x, Trace(x, ops)[base])
    ensures !Exposed(x, End(x, ops))
    decreases |ops|
  {
    if base < |ops| {
      var init, op := ops[..|ops| - 1], ops[|ops| - 1];
      var before := Trace(x, init);
      var s := before[|init|];
      QuietInit(x, ops, base);
      StaysUnexposed(x, init, base);
      TraceOk(x, init);
      SteadyRun(x, init, base);
      match op
      case Call(_, _, _, _) =>
        var k := LookOf(x, before, op);
        if Applies(x, s, k) {
          CallApplied(x, s, k);
          ReadsFresh(x, before, op, base);
          ForwardExposesNothing(x, s, k);
        } else {
          CallUnapplied(x, s, k);
        }
      case Other(ev) =>
        if !(ev.DoSync? && ev.sync.wallet == x.wallet) {
          OtherOk(x, s, ev);
        }
    }
  }

  // If one is, the next calls can count it again: they go forward block by block, with the balance spent in between.

  ghost predicate BlockFits(x: World, b: int)
    requires x.price > 0
  {
    x.deposits(b) / x.price <= MAX_INT
  }

  lemma {:induction false} ScannedFits(x: World, windows: seq<Window>, b: int)
    requires x.price > 0 && (forall i :: 0 <= i < |windows| ==> Fits(x, windows[i])) && Scans(windows, b) >= 1
    ensures BlockFits(x, b)
  {
    var init, v := windows[..|windows| - 1], windows[|windows| - 1];
    if v.start < b <= v.end {
      DepositedJoin(x.deposits, v.start, b - 1, v.end);
      DepositedJoin(x.deposits, b - 1, b, v.end);
      assert Deposited(x.deposits, b - 1, b - 1) == 0;
      DivLeq(x.deposits(b), Deposited(x.deposits, v.start, v.end), x.price);
    } else {
      ScannedFits(x, init, b);
    }
  }

  lemma DivLeq(a: nat, b: nat, p: nat)
    requires a <= b && p > 0
    ensures a / p <= b / p
  {
    assert p * (a / p) <= a && b < p * (b / p + 1);
    if a / p > b / p {
      CancelLess(p, a / p, b / p + 1);
    }
  }

  /** Everything available is spent. */
  function Spend(x: World, s: Snap): Op {
    Other(DoConsume(x.wallet, CreditsOf(s.db, x.wallet), None))
  }

  lemma SpendStep(x: World, s: Snap)
    requires Proper(x) && SnapOk(x, s)
    ensures var s' := s.(db := Apply(x.cfg, s.db, DoConsume(x.wallet, CreditsOf(s.db, x.wallet), None)));
      SnapOk(x, s') && CreditsOf(s'.db, x.wallet) == 0 && Cursor(x, s') == Cursor(x, s)
  {
    OtherOk(x, s, DoConsume(x.wallet, CreditsOf(s.db, x.wallet), None));
  }

  /** A call for one block beyond all that was reached. */
  function Ask(latest: nat, block: nat, now: nat): Op {
    Call(latest, Some(block), now, now)
  }

  lemma AskLooks(x: World, k: Look)
    requires Proper(x) && k.persisted >= 0 && k.historical >= 0
    requires k.target.Some? && k.target.value == Max(Recovered(k) + 1, x.route.startBlock) && k.target.value <= k.latest
    ensures var t := k.target.value;
      && !Ahead(k) && WindowFor(x, k) == Window(t - 1, t)
      && InputFor(x, k) == SyncInput(x.wallet, x.deposits(t), x.price, t, Some(k.persisted), false)
  {
    var t := k.target.value;
    assert HeadOf(k) == t && FromBlock(x.route, k) == t && ToBlock(x.route, k) == t;
    assert Deposited(x.deposits, t - 1, t) == x.deposits(t);
  }

  lemma AskBlock(x: World, s: Snap, k: Look)
    requires Proper(x) && SnapOk(x, s) && CreditsOf(s.db, x.wallet) == 0
    requires k.persisted == Cursor(x, s) && k.historical == s.historical
    requires k.target.Some? && k.target.value == Max(Reached(x, s) + 1, x.route.startBlock)
        && k.target.value <= k.latest
    requires BlockFits(x, k.target.value)
    ensures !Ahead(k)
    ensures var s', t := CallStep(x, s, k), k.target.value;
      && s'.windows == s.windows + [Window(t - 1, t)] && Reached(x, s') == t
  {
    AskLooks(x, k);
    assert Applies(x, s, k);
    CallApplied(x, s, k);
  }

  lemma QuietJoin(x: World, a: seq<Op>, b: seq<Op>, base: nat)
    requires base <= |a| && Quiet(x, a, base) && Quiet(x, a + b, |a|)
    ensures Quiet(x, a + b, base)
  {
    forall n | base <= n < |a + b| ensures QuietAt(x, Trace(x, (a + b)[..n]), (a + b)[n], base) {
      if n < |a| {
        assert (a + b)[..n] == a[..n];
      }
    }
  }

  lemma QuietTwo(x: World, ops: seq<Op>, first: Op, second: Op)
    requires QuietAt(x, Trace(x, ops), first, |ops|) && QuietAt(x, Trace(x, ops + [first]), second, |ops|)
    ensures Quiet(x, ops + [first] + [second], |ops|)
  {
    var all := ops + [first] + [second];
    forall n | |ops| <= n < |all| ensures QuietAt(x, Trace(x, all[..n]), all[n], |ops|) {
      if n == |ops| {
        assert all[..n] == ops;
      } else {
        assert all[..n] == ops + [first];
      }
    }
  }

  /** Spending and asking for the next block, as two steps of the run. */
  lemma OneBlock(x: World, ops: seq<Op>, latest: nat) returns (more: seq<Op>)
    requires Proper(x)
    requires var t := Max(Reached(x, End(x, ops)) + 1, x.route.startBlock);
      0 <= t <= latest && BlockFits(x, t)
    ensures |more| == 2 && Quiet(x, ops + more, |ops|)
    ensures var s, s', t := End(x, ops), End(x, ops + more), Max(Reached(x, End(x, ops)) + 1, x.route.startBlock);
      s'.windows == s.windows + [Window(t - 1, t)] && Reached(x, s') == t
  {
    var s, t := End(x, ops), Max(Reached(x, End(x, ops)) + 1, x.route.startBlock);
    var spend, ask := Spend(x, s), Ask(latest, t, |ops| + 1);
    var mid := ops + [spend];
    more := [spend] + [ask];
    TraceOk(x, ops);
    SpendStep(x, s);
    EndAppend(x, ops, spend);
    var s1 := End(x, mid);
    assert LookOf(x, Trace(x, mid), ask) == FreshLook(x, s1, ask);
    AskBlock(x, s1, FreshLook(x, s1, ask));
    EndAppend(x, mid, ask);
    QuietTwo(x, ops, spend, ask);
    assert ops + more == mid + [ask];
  }

  lemma NextBlock(x: World, ops: seq<Op>, b: int) returns (one: seq<Op>)
    requires Proper(x) && Max(Reached(x, End(x, ops)) + 1, x.route.startBlock) <= b
    requires BlockFits(x, Max(Reached(x, End(x, ops)) + 1, x.route.startBlock))
    ensures Quiet(x, ops + one, |ops|)
    ensures var s, s', t := End(x, ops), End(x, ops + one), Max(Reached(x, End(x, ops)) + 1, x.route.startBlock);
      Reached(x, s') == t > Reached(x, s) && Scans(s'.windows, b) == Scans(s.windows, b) + (if t == b then 1 else 0)
  {
    var t := Max(Reached(x, End(x, ops)) + 1, x.route.startBlock);
    one := OneBlock(x, ops, b);
    ScansAppend(End(x, ops).windows, Window(t - 1, t), b);
  }

  lemma QuietThen(x: World, ops: seq<Op>, one: seq<Op>, rest: seq<Op>)
    requires Quiet(x, ops + one, |ops|) && Quiet(x, (ops + one) + rest, |ops + one|)
    ensures ops + (one + rest) == (ops + one) + rest && Quiet(x, ops + (one + rest), |ops|)
  {
    assert ops + (one + rest) == (ops + one) + rest;
    QuietJoin(x, ops + one, rest, |ops|);
  }

  lemma {:induction false} ForwardTo(x: World, ops: seq<Op>, b: int) returns (more: seq<Op>)
    requires Proper(x) && Max(Reached(x, End(x, ops)) + 1, x.route.startBlock) <= b
    requires forall t :: Reached(x, End(x, ops)) < t <= b ==> BlockFits(x, t)
    ensures Quiet(x, ops + more, |ops|)
    ensures Scans(End(x, ops + more).windows, b) > Scans(End(x, ops).windows, b)
    decreases b - Reached(x, End(x, ops))
  {
    more := NextBlock(x, ops, b);
    if Max(Reached(x, End(x, ops)) + 1, x.route.startBlock) < b {
      var rest := ForwardTo(x, ops + more, b);
      QuietThen(x, ops, more, rest);
      more := more + rest;
    }
  }

  /** A deposit beyond what was reached that was scanned before: the next calls reach it. */
  lemma ScannedAhead(x: World, ops: seq<Op>, b: int) returns (more: seq<Op>)
    requires Proper(x) && x.deposits(b) > 0 && Scans(End(x, ops).windows, b) >= 1 && b > Reached(x, End(x, ops))
    ensures Quiet(x, ops + more, |ops|) && SomeCountedTwice(x, End(x, ops + more))
  {
    var s := End(x, ops);
    var top := NothingIsMissed(x, ops);
    TraceOk(x, ops);
    forall t | Reached(x, s) < t <= b ensures BlockFits(x, t) {
      if t >= First(x) {
        ScannedFits(x, s.windows, t);
      }
    }
    more := ForwardTo(x, ops, b);
  }

  /**
   From any state of any run, calls that go forward can end with a deposit counted twice if and only if one has
   been already, or one that has been counted lies beyond what was reached.
   */
  lemma CountsAgainIff(x: World, ops: seq<Op>)
    requires Proper(x)
    ensures CanCountAgain(x, ops) <==> Exposed(x, End(x, ops))
  {
    var s := End(x, ops);
    if b :| x.deposits(b) > 0 && Scans(s.windows, b) >= 1 && (Scans(s.windows, b) >= 2 || b > Reached(x, s)) {
      if Scans(s.windows, b) >= 2 {
        assert ops + [] == ops;
        assert Quiet(x, ops + [], |ops|) && SomeCountedTwice(x, End(x, ops + []));
      } else {
        var more := ScannedAhead(x, ops, b);
      }
    } else {
      forall more | Quiet(x, ops + more, |ops|) ensures !SomeCountedTwice(x, End(x, ops + more)) {
        TracePrefix(x, ops, more);
        StaysUnexposed(x, ops + more, |ops|);
      }
    }
  }

  lemma {:induction false} TracePrefix(x: World, a: seq<Op>, b: seq<Op>)
    ensures Trace(x, a + b)[|a|] == End(x, a)
    decreases |b|
  {
    if b == [] {
      assert a + b == a;
    } else {
      var init := b[..|b| - 1];
      assert a + b == (a + init) + [b[|b| - 1]];
      TracePrefix(x, a, init);
      EndAppend(x, a + init, b[|b| - 1]);
    }
  }

  // ---------- a call that goes back ----------

  /** What a call that goes back from s puts at stake: the blocks it scans, and those the next calls scan again. */
  predicate AtStake(x: World, s: Snap, k: Look, b: int) {
    || FromBlock(x.route, k) <= b <= ToBlock(x.route, k)
    || Max(InputFor(x, k).syncedToBlock, s.historical) < b <= Cursor(x, s)
  }

  ghost predicate DepositAtStake(x: World, s: Snap, k: Look) {
    exists b :: x.deposits(b) > 0 && AtStake(x, s, k, b)
  }

  /** What is reached only gets less, and stays as far as the ledger remembers. */
  lemma BackReaches(x: World, s: Snap, k: Look)
    requires Proper(x) && SnapOk(x, s) && Applies(x, s, k) && Ahead(k) && 0 <= k.historical <= s.historical
    ensures var s' := CallStep(x, s, k);
      && s.historical <= s'.historical && InputFor(x, k).syncedToBlock <= Cursor(x, s')
      && Reached(x, s') <= Reached(x, s)
      && (InputFor(x, k).depositedWei == 0 && InputFor(x, k).syncedToBlock < Cursor(x, s) ==>
            Reached(x, s') == Max(InputFor(x, k).syncedToBlock, s.historical))
  {
    hide Sync, SnapOk, Scanned;
    CallApplied(x, s, k);
    BackLooks(x, k);
  }

  lemma StakeIsExposed(x: World, s: Snap, k: Look, top: int, b: int)
    requires Proper(x) && SnapOk(x, s) && Applies(x, s, k) && Ahead(k) && 0 <= k.historical <= s.historical
    requires CoveredTo(x, s, top) && x.deposits(b) > 0 && AtStake(x, s, k, b)
    ensures Exposed(x, CallStep(x, s, k))
  {
    CallApplied(x, s, k);
    BackLooks(x, k);
    BackReaches(x, s, k);
    ScannedIff(x.route, k, x.deposits);
    if c :| FromBlock(x.route, k) <= c <= ToBlock(x.route, k) && x.deposits(c) > 0 {
      ScansAppend(s.windows, WindowFor(x, k), c);
    } else {
      ScansAppend(s.windows, WindowFor(x, k), b);
    }
  }

  lemma ExposedStays(x: World, s: Snap, k: Look)
    requires Proper(x) && SnapOk(x, s) && Applies(x, s, k) && Ahead(k) && 0 <= k.historical <= s.historical
    ensures Exposed(x, s) ==> Exposed(x, CallStep(x, s, k))
  {
    CallApplied(x, s, k);
    BackReaches(x, s, k);
    if Exposed(x, s) {
      var b :| x.deposits(b) > 0
        && (Scans(s.windows, b) >= 2 || (Scans(s.windows, b) >= 1 && b > Reached(x, s)));
      ScansAppend(s.windows, WindowFor(x, k), b);
    }
  }

  lemma ExposedByStake(x: World, s: Snap, k: Look)
    requires Proper(x) && SnapOk(x, s) && Applies(x, s, k) && Ahead(k) && 0 <= k.historical <= s.historical
    ensures Exposed(x, CallStep(x, s, k)) ==> Exposed(x, s) || DepositAtStake(x, s, k)
  {
    var s' := CallStep(x, s, k);
    CallApplied(x, s, k);
    BackReaches(x, s, k);
    if Exposed(x, s') {
      var b :| x.deposits(b) > 0
        && (Scans(s'.windows, b) >= 2 || (Scans(s'.windows, b) >= 1 && b > Reached(x, s')));
      ScansAppend(s.windows, WindowFor(x, k), b);
      assert AtStake(x, s, k, b) || Scans(s.windows, b) >= 2 || b > Reached(x, s);
    }
  }

  lemma BackExposesIff(x: World, s: Snap, k: Look, top: int)
    requires Proper(x) && SnapOk(x, s) && Applies(x, s, k) && Ahead(k) && 0 <= k.historical <= s.historical
    requires CoveredTo(x, s, top)
    ensures Exposed(x, CallStep(x, s, k)) <==> Exposed(x, s) || DepositAtStake(x, s, k)
  {
    ExposedStays(x, s, k);
    ExposedByStake(x, s, k);
    if DepositAtStake(x, s, k) {
      var b :| x.deposits(b) > 0 && AtStake(x, s, k, b);
      StakeIsExposed(x, s, k, top, b);
    }
  }

  /**
   A call that goes back, in any run, after any earlier ones: some course of calls that go forward again counts a
   deposit twice if and only if one was exposed before, or lies in the blocks this call scans, or between where it
   puts the cursor, or what the ledger remembers, and where the cursor stood. None was exposed if this call is the
   first to go back.
   */
  lemma GoingBackCountsAgainIff(x: World, ops: seq<Op>, back: Op)
    requires Proper(x) && back.Call?
    requires var k := LookOf(x, Trace(x, ops), back); Ahead(k) && Applies(x, End(x, ops), k)
    ensures CanCountAgain(x, ops + [back])
       <==> Exposed(x, End(x, ops)) || DepositAtStake(x, End(x, ops), LookOf(x, Trace(x, ops), back))
    ensures Quiet(x, ops, 0) ==> !Exposed(x, End(x, ops))
  {
    hide Exposed, DepositAtStake, CanCountAgain, Quiet, Trace, SnapOk;
    TraceOk(x, ops);
    LooksBehind(x, ops, back);
    EndAppend(x, ops, back);
    var top := NothingIsMissed(x, ops);
    BackExposesIff(x, End(x, ops), LookOf(x, Trace(x, ops), back), top);
    CountsAgainIff(x, ops + [back]);
    if Quiet(x, ops, 0) {
      QuietNotExposed(x, ops);
    }
  }

  lemma QuietNotExposed(x: World, ops: seq<Op>)
    requires Proper(x) && Quiet(x, ops, 0)
    ensures !Exposed(x, End(x, ops))
  {
    hide Quiet, Trace;
    CountedOnce(x, ops);
  }

  lemma ScannedIff(route: Route, k: Look, d: Deposits)
    ensures Scanned(route, k, d) > 0 <==> exists b :: FromBlock(route, k) <= b <= ToBlock(route, k) && d(b) > 0
  {
    var from, last := FromBlock(route, k), ToBlock(route, k);
    if Scanned(route, k, d) > 0 {
      var b := SomeDeposit(d, from - 1, last);
    } else if b :| from <= b <= last && d(b) > 0 {
      DepositedJoin(d, from - 1, b, last);
    }
  }

  // ---------- the runs are runs of the credit machine ----------

  function EventFor(x: World, before: seq<Snap>, op: Op): Event
    requires before != []
  {
    match op
    case Call(_, _, _, _) => DoSync(InputFor(x, LookOf(x, before, op)))
    case Other(ev) => if ev.DoSync? && ev.sync.wallet == x.wallet then DoConsume(x.wallet, 0, None) else ev
  }

  function EventsFor(x: World, ops: seq<Op>): seq<Event> {
    if ops == [] then []
    else EventsFor(x, ops[..|ops| - 1]) + [EventFor(x, Trace(x, ops[..|ops| - 1]), ops[|ops| - 1])]
  }

  lemma StepIsApply(x: World, before: seq<Snap>, op: Op)
    requires Proper(x) && before != [] && SnapOk(x, before[|before| - 1])
    ensures Step(x, before, op).db == Apply(x.cfg, before[|before| - 1].db, EventFor(x, before, op))
  {
    if op.Call? {
      SyncInv(x.cfg, before[|before| - 1].db, InputFor(x, LookOf(x, before, op)));
    }
  }

  /** Calls are syncs with what they read, so all that holds of every run of credit operations holds here. */
  lemma {:induction false} RunsAreCreditRuns(x: World, ops: seq<Op>)
    requires Proper(x)
    ensures End(x, ops).db == Run(x.cfg, EMPTY, EventsFor(x, ops))
  {
    if ops != [] {
      var init, op := ops[..|ops| - 1], ops[|ops| - 1];
      RunsAreCreditRuns(x, init);
      TraceOk(x, init);
      StepIsApply(x, Trace(x, init), op);
      RunStep(x.cfg, EMPTY, EventsFor(x, init), EventFor(x, Trace(x, init), op));
    }
  }

  // ---------- such runs ----------

  const IN_BLOCK_1: Deposits := (b: int) => if b == 1 then 1 else 0

  /** One deposit of one credit, in block 1. */
  function OneDeposit(cfg: Config, w: Wallet): World {
    World(cfg, Route(1, 500), w, IN_BLOCK_1, 1)
  }

  lemma OneDepositFacts(cfg: Config, w: Wallet)
    ensures Proper(OneDeposit(cfg, w))
    ensures Deposited(IN_BLOCK_1, 0, 0) == 0 && Deposited(IN_BLOCK_1, 0, 1) == 1 && Deposited(IN_BLOCK_1, 0, 2) == 1
  {
    var d := IN_BLOCK_1;
    assert Deposited(d, 0, 0) == 0 && Deposited(d, 0, 1) == d(1) && Deposited(d, 0, 2) == Deposited(d, 0, 1) + d(2);
  }

  /** What an applied call does to the credits, the cursor and the ledger. */
  lemma OneCall(x: World, s: Snap, k: Look, credits: int)
    requires Proper(x) && SnapOk(x, s) && CreditsOf(s.db, x.wallet) == credits
    requires k.persisted == Cursor(x, s) && InputFor(x, k).syncedToBlock >= 0
    requires credits + InputFor(x, k).depositedWei / x.price <= MAX_INT
    ensures var input, s' := InputFor(x, k), CallStep(x, s, k);
      && SnapOk(x, s') && CreditsOf(s'.db, x.wallet) == credits + input.depositedWei / x.price
      && Cursor(x, s') == (if x.wallet in s.db.balances then NextCursor(Cursor(x, s), input) else input.syncedToBlock)
      && s'.historical == HistoryAfter(x, s, input, input.depositedWei / x.price)
      && s'.windows == s.windows + [WindowFor(x, k)] && Applies(x, s, k)
  {
    assert Applies(x, s, k);
    CallApplied(x, s, k);
  }

  /** An ordinary call that goes up to block 2, and calls whose client names block 1, over and over. */
  function OverAndOver(n: nat): seq<Op> {
    if n == 0 then [Call(2, None, 0, 0)] else OverAndOver(n - 1) + [Call(10, Some(1), n, n)]
  }

  lemma FirstCall(cfg: Config, w: Wallet)
    ensures var x, s := OneDeposit(cfg, w), End(OneDeposit(cfg, w), [Call(2, None, 0, 0)]);
      && SnapOk(x, s) && CreditsOf(s.db, w) == 1 && Cursor(x, s) == 2 && w in s.db.balances
      && s.historical == (if cfg.ledgerEnabled then 2 else 0) && s.windows == [Window(0, 2)]
  {
    hide SnapOk, Sync;
    var x := OneDeposit(cfg, w);
    OneDepositFacts(cfg, w);
    StartOk(x);
    var k := Look(0, 0, 2, None);
    assert InputFor(x, k) == SyncInput(w, 1, 1, 2, Some(0), false);
    OneCall(x, START, k, 0);
    EndAppend(x, [], Call(2, None, 0, 0));
    assert [] + [Call(2, None, 0, 0)] == [Call(2, None, 0, 0)];
  }

  lemma StartOk(x: World)
    requires Proper(x)
    ensures SnapOk(x, START)
  {
    EmptyInv(x.cfg);
  }

  /** After n calls that name block 1. */
  ghost predicate CountedOver(cfg: Config, w: Wallet, s: Snap, n: nat) {
    && w in s.db.balances && s.historical == 2
    && CreditsOf(s.db, w) == 1 + n && Cursor(OneDeposit(cfg, w), s) == if n == 0 then 2 else 1
  }

  lemma NamedBlock(cfg: Config, w: Wallet, s: Snap, k: Look, n: nat)
    requires cfg.ledgerEnabled && SnapOk(OneDeposit(cfg, w), s) && CountedOver(cfg, w, s, n) && n + 1 < MAX_INT
    requires k == Look(Cursor(OneDeposit(cfg, w), s), 2, 10, Some(1))
    ensures CountedOver(cfg, w, CallStep(OneDeposit(cfg, w), s, k), n + 1)
  {
    var x := OneDeposit(cfg, w);
    OneDepositFacts(cfg, w);
    assert InputFor(x, k) == SyncInput(w, 1, 1, 1, Some(k.persisted), true);
    OneCall(x, s, k, 1 + n);
  }

  lemma FirstNamed(cfg: Config, w: Wallet) returns (s: Snap)
    requires cfg.ledgerEnabled
    ensures s == End(OneDeposit(cfg, w), OverAndOver(0)) && CountedOver(cfg, w, s, 0)
  {
    FirstCall(cfg, w);
    s := End(OneDeposit(cfg, w), [Call(2, None, 0, 0)]);
  }

  lemma NamedNext(cfg: Config, w: Wallet, before: seq<Op>, s: Snap, n: nat) returns (s': Snap)
    requires cfg.ledgerEnabled && 0 < n < MAX_INT && |before| == n
    requires s == End(OneDeposit(cfg, w), before) && CountedOver(cfg, w, s, n - 1)
    ensures s' == End(OneDeposit(cfg, w), before + [Call(10, Some(1), n, n)]) && CountedOver(cfg, w, s', n)
  {
    var x, op := OneDeposit(cfg, w), Call(10, Some(1), n, n);
    OneDepositFacts(cfg, w);
    TraceOk(x, before);
    EndAppend(x, before, op);
    NamedBlock(cfg, w, s, LookOf(x, Trace(x, before), op), n - 1);
    s' := CallStep(x, s, LookOf(x, Trace(x, before), op));
  }

  lemma OverStep(n: nat)
    requires n > 0
    ensures OverAndOver(n) == OverAndOver(n - 1) + [Call(10, Some(1), n, n)]
  {
  }

  /**
   It does not end after one time. With the ledger on, its cursor stays ahead of the block the client names, so
   every further call goes back and counts the one deposit again.
   */
  lemma CountsOverAndOver(cfg: Config, w: Wallet, n: nat)
    requires cfg.ledgerEnabled && n < MAX_INT
    ensures CountedOver(cfg, w, End(OneDeposit(cfg, w), OverAndOver(n)), n)
  {
    var s := OverRuns(cfg, w, n);
  }

  lemma {:induction false} OverRuns(cfg: Config, w: Wallet, n: nat) returns (s: Snap)
    requires cfg.ledgerEnabled && n < MAX_INT
    ensures |OverAndOver(n)| == n + 1
    ensures s == End(OneDeposit(cfg, w), OverAndOver(n)) && CountedOver(cfg, w, s, n)
  {
    hide End, OneDeposit, CountedOver;
    if n == 0 {
      s := FirstNamed(cfg, w);
    } else {
      s := OverRuns(cfg, w, n - 1);
      s := NamedNext(cfg, w, OverAndOver(n - 1), s, n);
      OverStep(n);
    }
  }

  /** A head that lags behind the cursor does it too, with the ledger on or off. */
  lemma LaggingHeadCountsAgain(cfg: Config, w: Wallet)
    ensures CreditsOf(End(OneDeposit(cfg, w), [Call(2, None, 0, 0)] + [Call(1, None, 1, 1)]).db, w) == 2
  {
    var x, first, lagging := OneDeposit(cfg, w), [Call(2, None, 0, 0)], Call(1, None, 1, 1);
    OneDepositFacts(cfg, w);
    FirstCall(cfg, w);
    var s := End(x, first);
    var k := Look(2, s.historical, 1, None);
    assert LookOf(x, Trace(x, first), lagging) == k;
    assert InputFor(x, k) == SyncInput(w, 1, 1, 1, Some(2), true);
    OneCall(x, s, k, 1);
    EndAppend(x, first, lagging);
  }

  /** A call takes the cursor back to 0; with the ledger off nothing remembers where it was. */
  lemma BackWithoutLedger(cfg: Config, w: Wallet)
    requires !cfg.ledgerEnabled
    ensures var x := OneDeposit(cfg, w);
      var s := End(x, [Call(2, None, 0, 0)] + [Call(10, Some(0), 1, 1)]);
      && SnapOk(x, s) && CreditsOf(s.db, w) == 1 && Cursor(x, s) == 0 && w in s.db.balances && s.historical == 0
  {
    var x, first, back := OneDeposit(cfg, w), [Call(2, None, 0, 0)], Call(10, Some(0), 1, 1);
    OneDepositFacts(cfg, w);
    FirstCall(cfg, w);
    var k := Look(2, 0, 10, Some(0));
    assert LookOf(x, Trace(x, first), back) == k;
    assert InputFor(x, k) == SyncInput(w, 0, 1, 0, Some(2), true);
    OneCall(x, End(x, first), k, 1);
    EndAppend(x, first, back);
  }

  /** And with the ledger off, a call that finds nothing takes the cursor back, and an ordinary one counts again. */
  lemma OrdinaryCallCountsAgain(cfg: Config, w: Wallet)
    requires !cfg.ledgerEnabled
    ensures var x, ops := OneDeposit(cfg, w), [Call(2, None, 0, 0)] + [Call(10, Some(0), 1, 1)];
      && CreditsOf(End(x, ops).db, w) == 1
      && !Ahead(LookOf(x, Trace(x, ops), Call(2, None, 2, 2)))
      && CreditsOf(End(x, ops + [Call(2, None, 2, 2)]).db, w) == 2
  {
    var x, ops, next := OneDeposit(cfg, w), [Call(2, None, 0, 0)] + [Call(10, Some(0), 1, 1)], Call(2, None, 2, 2);
    OneDepositFacts(cfg, w);
    BackWithoutLedger(cfg, w);
    var k := Look(0, 0, 2, None);
    assert LookOf(x, Trace(x, ops), next) == k;
    assert InputFor(x, k) == SyncInput(w, 1, 1, 2, Some(0), false);
    OneCall(x, End(x, ops), k, 1);
    EndAppend(x, ops, next);
  }
}
