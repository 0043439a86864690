/**
 Calls of the sync route that were in flight when another one took the cursor back: they may be applied once the
 cursor is again where they read it, with what the ledger said at that time.
 */
module DepositRaces {
  import opened Common
  import opened CreditState
  import opened CreditSteps
  import opened CreditInvariants
  import CreditTheorems
  import opened DepositSync
  import opened DepositRoute

  /** The first state of a run whose cursor was c. */
  function FirstAt(x: World, t: seq<Snap>, c: int): (i: nat)
    ensures i <= |t| && (i < |t| ==> Cursor(x, t[i]) == c)
    ensures forall j :: 0 <= j < i ==> Cursor(x, t[j]) != c
  {
    if t == [] then 0
    else
      var init, s := t[..|t| - 1], t[|t| - 1];
      var i := FirstAt(x, init, c);
      if i < |init| || Cursor(x, s) == c then i else i + 1
  }

  /** What every call that can be applied now has read: the cursor, and the ledger since the cursor was first here. */
  function Low(x: World, ops: seq<Op>): int {
    var t, c := Trace(x, ops), Cursor(x, End(x, ops));
    var i := FirstAt(x, t, c);
    if i < |t| then Max(c, t[i].historical) else c
  }

  /** No deposit has been counted twice, and none that has been counted lies beyond `low`. */
  ghost predicate Tight(x: World, s: Snap, low: int) {
    forall b :: x.deposits(b) > 0 ==> Scans(s.windows, b) <= 1 && (b > low ==> Scans(s.windows, b) == 0)
  }

  /** From step `base` on no call sees a head behind the cursor it recovered, whenever it started. */
  ghost predicate Forward(x: World, ops: seq<Op>, base: nat) {
    forall n :: base <= n < |ops| && ops[n].Call? ==> !Ahead(LookOf(x, Trace(x, ops[..n]), ops[n]))
  }

  /** Some course of such calls, those in flight included, ends with a deposit counted twice. */
  ghost predicate CanRaceAgain(x: World, ops: seq<Op>) {
    exists more :: Forward(x, ops + more, |ops|) && SomeCountedTwice(x, End(x, ops + more))
  }

  // ---------- what a call has read at least ----------

  lemma {:induction false} HistoryInOrder(x: World, ops: seq<Op>, i: nat, j: nat)
    requires Proper(x) && i <= j <= |ops|
    ensures Trace(x, ops)[i].historical <= Trace(x, ops)[j].historical
    decreases |ops|
  {
    if j < |ops| {
      HistoryInOrder(x, ops[..|ops| - 1], i, j);
    } else {
      HistoryGrows(x, ops, i);
    }
  }

  lemma ReadsAtLeast(x: World, ops: seq<Op>, op: Op)
    requires Proper(x) && op.Call?
    requires LookOf(x, Trace(x, ops), op).persisted == Cursor(x, End(x, ops))
    ensures Low(x, ops) <= Recovered(LookOf(x, Trace(x, ops), op))
  {
    var t, c, last := Trace(x, ops), Cursor(x, End(x, ops)), |ops|;
    var i := if op.cursorAt < last then op.cursorAt else last;
    var j := if op.historyAt < i then i else if op.historyAt < last then op.historyAt else last;
    HistoryInOrder(x, ops, FirstAt(x, t, c), j);
  }

  /** While the cursor stands still, so does the bound. */
  lemma LowStays(x: World, ops: seq<Op>, op: Op)
    requires Cursor(x, End(x, ops + [op])) == Cursor(x, End(x, ops))
    ensures Low(x, ops + [op]) == Low(x, ops)
  {
    EndAppend(x, ops, op);
    var t, c := Trace(x, ops), Cursor(x, End(x, ops));
    var t' := Trace(x, ops + [op]);
    assert t'[..|t'| - 1] == t;
    assert FirstAt(x, t, c) < |t| by {
      assert Cursor(x, t[|t| - 1]) == c;
    }
  }

  // ---------- racing calls that count nothing again ----------

  lemma TightForward(x: World, s: Snap, k: Look, s': Snap, low: int)
    requires Proper(x) && !Ahead(k) && DepositRoute.Moved(x, s, k, s') && low <= Recovered(k) && Tight(x, s, low)
    ensures Tight(x, s', Cursor(x, s'))
  {
    var v := WindowFor(x, k);
    ForwardLooks(x, k);
    forall b | x.deposits(b) > 0
      ensures Scans(s'.windows, b) <= 1 && (b > Cursor(x, s') ==> Scans(s'.windows, b) == 0)
    {
      ScansAppend(s.windows, v, b);
    }
  }

  lemma StepStaysTight(x: World, ops: seq<Op>, op: Op)
    requires Proper(x) && Tight(x, End(x, ops), Low(x, ops))
    requires op.Call? ==> !Ahead(LookOf(x, Trace(x, ops), op))
    ensures Tight(x, End(x, ops + [op]), Low(x, ops + [op]))
  {
    var s := End(x, ops);
    TraceOk(x, ops);
    EndAppend(x, ops, op);
    if op.Call? && Applies(x, s, LookOf(x, Trace(x, ops), op)) {
      var k := LookOf(x, Trace(x, ops), op);
      CallApplied(x, s, k);
      ReadsAtLeast(x, ops, op);
      TightForward(x, s, k, CallStep(x, s, k), Low(x, ops));
    } else {
      if op.Call? {
        CallUnapplied(x, s, LookOf(x, Trace(x, ops), op));
      } else if !(op.ev.DoSync? && op.ev.sync.wallet == x.wallet) {
        OtherOk(x, s, op.ev);
      }
      LowStays(x, ops, op);
    }
  }

  lemma ForwardInit(x: World, ops: seq<Op>, base: nat)
    requires ops != [] && Forward(x, ops, base) && base < |ops|
    ensures Forward(x, ops[..|ops| - 1], base)
    ensures var op := ops[|ops| - 1]; op.Call? ==> !Ahead(LookOf(x, Trace(x, ops[..|ops| - 1]), op))
  {
    var init := ops[..|ops| - 1];
    forall n | base <= n < |init| && init[n].Call? ensures !Ahead(LookOf(x, Trace(x, init[..n]), init[n])) {
      assert init[..n] == ops[..n] && init[n] == ops[n];
    }
  }

  lemma {:induction false} StaysTight(x: World, ops: seq<Op>, more: seq<Op>)
    requires Proper(x) && Tight(x, End(x, ops), Low(x, ops)) && Forward(x, ops + more, |ops|)
    ensures Tight(x, End(x, ops + more), Low(x, ops + more))
    decreases |more|
  {
    hide End, Low, Tight;
    if more == [] {
      assert ops + more == ops;
    } else {
      var init, op := more[..|more| - 1], more[|more| - 1];
      var all := ops + more;
      assert all == (ops + init) + [op] && all[..|all| - 1] == ops + init;
      ForwardInit(x, all, |ops|);
      StaysTight(x, ops, init);
      StepStaysTight(x, ops + init, op);
    }
  }

  // ---------- and those that do ----------

  /** The first block a call can scan that read as little as any. */
  function NextFrom(x: World, ops: seq<Op>): int {
    Max(Low(x, ops) + 1, x.route.startBlock)
  }

  /** A deposit that has been counted lies among the blocks of a single call from there. */
  ghost predicate SomeInReach(x: World, ops: seq<Op>) {
    exists b: nat :: x.deposits(b) > 0 && InReach(x, ops, b)
  }

  ghost predicate InReach(x: World, ops: seq<Op>, b: nat) {
    NextFrom(x, ops) <= b < NextFrom(x, ops) + x.route.maxBlocks && Scans(End(x, ops).windows, b) >= 1
  }

  /** And one of them is the first: the blocks before it were scanned, so they hold nothing. */
  lemma {:induction false} FirstInReach(x: World, ops: seq<Op>, top: int, b: nat) returns (first: nat)
    requires Proper(x) && CoveredTo(x, End(x, ops), top) && x.deposits(b) > 0 && InReach(x, ops, b)
    ensures x.deposits(first) > 0 && InReach(x, ops, first)
    ensures forall t :: NextFrom(x, ops) <= t < first ==> x.deposits(t) == 0
    decreases b
  {
    first := b;
    if t :| NextFrom(x, ops) <= t < b && x.deposits(t) > 0 {
      assert First(x) <= t;
      first := FirstInReach(x, ops, top, t);
    }
  }

  lemma ScannedBlockFits(x: World, ops: seq<Op>, b: nat)
    requires Proper(x) && Scans(End(x, ops).windows, b) >= 1
    ensures BlockFits(x, b)
  {
    TraceOk(x, ops);
    ScannedFits(x, End(x, ops).windows, b);
  }

  /** So a call that ends with it fits. */
  lemma LoneFits(x: World, from: int, b: nat)
    requires x.price > 0 && from <= b && BlockFits(x, b) && forall t :: from <= t < b ==> x.deposits(t) == 0
    ensures Fits(x, Window(from - 1, b))
  {
    NoDeposits(x.deposits, from - 1, b - 1);
  }

  /** A call that started when the cursor was first here, with a head at block b. */
  function LateCall(x: World, ops: seq<Op>, b: nat): Op {
    var i := FirstAt(x, Trace(x, ops), Cursor(x, End(x, ops)));
    Call(b, None, i, i)
  }

  lemma LateLooks(x: World, ops: seq<Op>, b: nat, spent: seq<Op>, late: Op) returns (s: Snap, k: Look)
    requires Proper(x) && spent == ops + [Spend(x, End(x, ops))] && late == LateCall(x, ops, b)
    ensures s == End(x, spent) && k == LookOf(x, Trace(x, spent), late)
    ensures CreditsOf(s.db, x.wallet) == 0 && s.windows == End(x, ops).windows
    ensures k.persisted == Cursor(x, s) && Recovered(k) == Low(x, ops) && k.latest == b && k.target == None
  {
    var before, t := End(x, ops), Trace(x, ops);
    TraceOk(x, ops);
    SpendStep(x, before);
    EndAppend(x, ops, Spend(x, before));
    assert FirstAt(x, t, Cursor(x, before)) < |t| by {
      assert Cursor(x, t[|t| - 1]) == Cursor(x, before);
    }
    s, k := End(x, spent), LookOf(x, Trace(x, spent), late);
  }

  lemma LateMoves(x: World, s: Snap, k: Look, from: int, b: nat)
    requires Proper(x) && SnapOk(x, s) && CreditsOf(s.db, x.wallet) == 0 && k.persisted == Cursor(x, s)
    requires k.latest == b && k.target == None && from == Max(Recovered(k) + 1, x.route.startBlock)
    requires from <= b < from + x.route.maxBlocks && Fits(x, Window(from - 1, b))
    ensures !Ahead(k) && CallStep(x, s, k).windows == s.windows + [Window(from - 1, b)]
  {
    assert WindowFor(x, k) == Window(from - 1, b);
    assert Applies(x, s, k);
    CallApplied(x, s, k);
  }

  lemma ForwardTwo(x: World, ops: seq<Op>, first: Op, second: Op)
    requires !first.Call? && second.Call? && !Ahead(LookOf(x, Trace(x, ops + [first]), second))
    ensures ops + ([first] + [second]) == ops + [first] + [second]
    ensures Forward(x, ops + [first] + [second], |ops|)
  {
    var all := ops + [first] + [second];
    forall n | |ops| <= n < |all| && all[n].Call? ensures !Ahead(LookOf(x, Trace(x, all[..n]), all[n])) {
      assert n == |ops| + 1 && all[..n] == ops + [first];
    }
  }

  lemma CountsOnceMore(x: World, ops: seq<Op>, s: Snap, k: Look, from: int, b: nat)
    requires Proper(x) && s == End(x, ops) && CreditsOf(s.db, x.wallet) == 0 && k.persisted == Cursor(x, s)
    requires k.latest == b && k.target == None && from == Max(Recovered(k) + 1, x.route.startBlock)
    requires from <= b < from + x.route.maxBlocks && Fits(x, Window(from - 1, b))
    requires x.deposits(b) > 0 && Scans(s.windows, b) >= 1
    ensures !Ahead(k) && SomeCountedTwice(x, CallStep(x, s, k))
  {
    TraceOk(x, ops);
    LateMoves(x, s, k, from, b);
    ScansAppend(s.windows, Window(from - 1, b), b);
  }

  lemma CallEnds(x: World, ops: seq<Op>, op: Op, s: Snap, k: Look)
    requires op.Call? && s == End(x, ops) && k == LookOf(x, Trace(x, ops), op)
    ensures End(x, ops + [op]) == CallStep(x, s, k)
  {
    EndAppend(x, ops, op);
  }

  /** The late call goes forward and scans the block once more. */
  lemma LateCounts(x: World, ops: seq<Op>, b: nat, spent: seq<Op>, late: Op) returns (s: Snap, k: Look)
    requires Proper(x) && spent == ops + [Spend(x, End(x, ops))] && late == LateCall(x, ops, b)
    requires x.deposits(b) > 0 && InReach(x, ops, b) && Fits(x, Window(NextFrom(x, ops) - 1, b))
    ensures s == End(x, spent) && k == LookOf(x, Trace(x, spent), late)
    ensures !Ahead(k) && SomeCountedTwice(x, CallStep(x, s, k))
  {
    s, k := LateLooks(x, ops, b, spent, late);
    CountsOnceMore(x, spent, s, k, NextFrom(x, ops), b);
  }

  lemma LateScans(x: World, ops: seq<Op>, b: nat, spent: seq<Op>, late: Op)
    requires Proper(x) && spent == ops + [Spend(x, End(x, ops))] && late == LateCall(x, ops, b)
    requires x.deposits(b) > 0 && InReach(x, ops, b) && Fits(x, Window(NextFrom(x, ops) - 1, b))
    ensures !Ahead(LookOf(x, Trace(x, spent), late)) && SomeCountedTwice(x, End(x, spent + [late]))
  {
    var s, k := LateCounts(x, ops, b, spent, late);
    CallEnds(x, spent, late, s, k);
  }

  lemma RacesAgain(x: World, ops: seq<Op>, b: nat)
    requires Proper(x) && x.deposits(b) > 0 && InReach(x, ops, b) && Fits(x, Window(NextFrom(x, ops) - 1, b))
    ensures CanRaceAgain(x, ops)
  {
    var spend, late := Spend(x, End(x, ops)), LateCall(x, ops, b);
    LateScans(x, ops, b, ops + [spend], late);
    ForwardTwo(x, ops, spend, late);
    assert SomeCountedTwice(x, End(x, ops + ([spend] + [late])));
  }

  /**
   From any state of any run, calls in flight included: as long as none sees a head behind the cursor it recovered,
   no deposit is counted twice if none has been and none that was counted lies beyond the bound; and one can be if one
   has been already, or one that was counted lies beyond the bound where a single call reaches it. If a single call
   reaches all that was counted, this is an equivalence.
   */
  lemma RacingCalls(x: World, ops: seq<Op>)
    requires Proper(x)
    ensures Tight(x, End(x, ops), Low(x, ops)) ==> !CanRaceAgain(x, ops)
    ensures SomeCountedTwice(x, End(x, ops)) || SomeInReach(x, ops) ==> CanRaceAgain(x, ops)
    ensures (forall b :: Scans(End(x, ops).windows, b) >= 1 ==> b < NextFrom(x, ops) + x.route.maxBlocks) ==>
        (CanRaceAgain(x, ops) <==> !Tight(x, End(x, ops), Low(x, ops)))
  {
    var s := End(x, ops);
    if Tight(x, s, Low(x, ops)) {
      forall more | Forward(x, ops + more, |ops|) ensures !SomeCountedTwice(x, End(x, ops + more)) {
        StaysTight(x, ops, more);
      }
    } else if forall b :: Scans(s.windows, b) >= 1 ==> b < NextFrom(x, ops) + x.route.maxBlocks {
      LooseIsInReach(x, ops);
    }
    if SomeCountedTwice(x, s) {
      assert ops + [] == ops;
      assert Forward(x, ops + [], |ops|) && SomeCountedTwice(x, End(x, ops + []));
    } else if SomeInReach(x, ops) {
      ReachedAgain(x, ops);
    }
  }

  lemma ReachedAgain(x: World, ops: seq<Op>)
    requires Proper(x) && SomeInReach(x, ops)
    ensures CanRaceAgain(x, ops)
  {
    var b: nat :| x.deposits(b) > 0 && InReach(x, ops, b);
    var top := NothingIsMissed(x, ops);
    var first := FirstInReach(x, ops, top, b);
    ScannedBlockFits(x, ops, first);
    LoneFits(x, NextFrom(x, ops), first);
    RacesAgain(x, ops, first);
  }

  lemma LooseIsInReach(x: World, ops: seq<Op>)
    requires Proper(x) && !Tight(x, End(x, ops), Low(x, ops))
    requires forall b :: Scans(End(x, ops).windows, b) >= 1 ==> b < NextFrom(x, ops) + x.route.maxBlocks
    ensures SomeCountedTwice(x, End(x, ops)) || SomeInReach(x, ops)
  {
    var b :| x.deposits(b) > 0
      && (Scans(End(x, ops).windows, b) >= 2 || (b > Low(x, ops) && Scans(End(x, ops).windows, b) >= 1));
    if Scans(End(x, ops).windows, b) < 2 {
      assert InReach(x, ops, b);
    }
  }

  // ---------- such a race ----------

  /** A call to block 2, one that goes back to the start, and the first one's twin, in flight all the time. */
  const TWIN: Op := Call(2, None, 0, 0)
  const BACK: Op := Call(10, Some(0), 1, 1)

  lemma TwinScans(cfg: Config, w: Wallet)
    requires cfg.ledgerEnabled
    ensures var x, s := OneDeposit(cfg, w), End(OneDeposit(cfg, w), [TWIN]);
      && SnapOk(x, s) && CreditsOf(s.db, w) == 1 && Cursor(x, s) == 2 && s.historical == 2 && w in s.db.balances
      && s.windows == [Window(0, 2)]
  {
    hide SnapOk, End, OneDeposit;
    FirstCall(cfg, w);
  }

  lemma BackScans(cfg: Config, w: Wallet)
    requires cfg.ledgerEnabled
    ensures var x := OneDeposit(cfg, w);
      var k, s := LookOf(x, Trace(x, [TWIN]), BACK), End(x, [TWIN] + [BACK]);
      && k == Look(2, 2, 10, Some(0))
      && SnapOk(x, s) && CreditsOf(s.db, w) == 1 && Cursor(x, s) == 0 && s.historical == 2 && w in s.db.balances
      && s.windows == [Window(0, 2)] + [Window(0, 0)]
  {
    var x, k := OneDeposit(cfg, w), Look(2, 2, 10, Some(0));
    TwinScans(cfg, w);
    OneDepositFacts(cfg, w);
    assert LookOf(x, Trace(x, [TWIN]), BACK) == k;
    assert InputFor(x, k) == SyncInput(w, 0, 1, 0, Some(2), true);
    OneCall(x, End(x, [TWIN]), k, 1);
    EndAppend(x, [TWIN], BACK);
  }

  lemma NothingAtStake(cfg: Config, w: Wallet, s: Snap, k: Look)
    requires k == Look(2, 2, 10, Some(0)) && s.historical == 2 && Cursor(OneDeposit(cfg, w), s) == 2
    ensures !DepositAtStake(OneDeposit(cfg, w), s, k)
  {
    var x := OneDeposit(cfg, w);
    assert FromBlock(x.route, k) == 1 && ToBlock(x.route, k) == 0;
  }

  lemma OnlyScanned(cfg: Config, w: Wallet, s: Snap)
    requires s.windows == [Window(0, 2)] + [Window(0, 0)] && s.historical == 2
    ensures !Exposed(OneDeposit(cfg, w), s) && Scans(s.windows, 1) == 1
  {
    forall b: int ensures Scans(s.windows, b) == if 0 < b <= 2 then 1 else 0 {
      assert [Window(0, 2)] == [] + [Window(0, 2)];
      ScansAppend([], Window(0, 2), b);
      ScansAppend([Window(0, 2)], Window(0, 0), b);
    }
  }

  /**
   The call that goes back puts nothing at stake and leaves nothing exposed, and no call that starts later can count
   the deposit again. The twin read its cursor before both, is not ahead of anything, and does.
   */
  lemma RaceCountsAgain(cfg: Config, w: Wallet)
    requires cfg.ledgerEnabled
    ensures var x, ops := OneDeposit(cfg, w), [TWIN] + [BACK];
      && !DepositAtStake(x, End(x, [TWIN]), LookOf(x, Trace(x, [TWIN]), BACK))
      && !Exposed(x, End(x, ops)) && !CanCountAgain(x, ops)
      && !Ahead(LookOf(x, Trace(x, ops), TWIN))
      && SomeCountedTwice(x, End(x, ops + [TWIN])) && CreditsOf(End(x, ops + [TWIN]).db, w) == 2
  {
    var x, ops, k := OneDeposit(cfg, w), [TWIN] + [BACK], Look(0, 0, 2, None);
    TwinScans(cfg, w);
    BackScans(cfg, w);
    NothingAtStake(cfg, w, End(x, [TWIN]), LookOf(x, Trace(x, [TWIN]), BACK));
    OnlyScanned(cfg, w, End(x, ops));
    OneDepositFacts(cfg, w);
    CountsAgainIff(x, ops);
    assert LookOf(x, Trace(x, ops), TWIN) == k;
    assert InputFor(x, k) == SyncInput(w, 1, 1, 2, Some(0), false);
    OneCall(x, End(x, ops), k, 1);
    EndAppend(x, ops, TWIN);
    ScansAppend(End(x, ops).windows, WindowFor(x, k), 1);
    assert x.deposits(1) > 0 && Scans(End(x, ops + [TWIN]).windows, 1) == 2;
  }
}
