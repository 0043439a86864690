/**
 The settlement tables and the filtered bulk updates the program runs on them. Rows are identified by
 their position; a `where` clause is a value, so that one update function serves every statement.
 */
module SettlementState {
  import opened Common
  import opened SettlementAmounts
  import Selection = RollupSelection

  type Merchant = Selection.Merchant
  type EarningId = nat
  type RollupId = nat
  type BatchId = nat
  type TxId = nat

  datatype Status = Pending | Submitted | Confirmed | Failed

  datatype BatchStatus = BatchOpen | BatchSubmitted | BatchConfirmed | BatchFailed

  datatype Earning = Earning(settlementId: SettlementId, merchant: Merchant, amounts: Amounts, createdAt: int,
                             status: Status, rollup: Option<RollupId>, batch: Option<BatchId>, tx: Option<TxId>)

  datatype Rollup = Rollup(merchant: Merchant, status: Status, amounts: Amounts, count: nat,
                           oldest: int, newest: int, reason: Selection.ReleaseReason,
                           batch: Option<BatchId>, tx: Option<TxId>)

  datatype Batch = Batch(status: BatchStatus, tx: Option<TxId>)

  datatype Db = Db(earnings: seq<Earning>, rollups: seq<Rollup>, batches: seq<Batch>)

  // ---------- filtered updates ----------

  datatype EarningWhere =
    | Unattached(ids: set<EarningId>)
    | OfRollups(rollups: set<RollupId>, status: Status)
    | OfBatch(batch: BatchId, status: Status)
    | ById(ids: set<EarningId>, status: Status)

  datatype EarningData =
    | Attach(rollup: RollupId)
    | ClaimFor(batch: BatchId)
    | SetTx(tx: TxId)
    | Confirm
    | Requeue
    | RequeueLegacy

  predicate EarningMatches(w: EarningWhere, i: EarningId, e: Earning) {
    match w
    case Unattached(ids) => i in ids && e.status == Pending && e.rollup == None
    case OfRollups(rollups, status) => e.rollup.Some? && e.rollup.value in rollups && e.status == status
    case OfBatch(batch, status) => e.batch == Some(batch) && e.status == status
    case ById(ids, status) => i in ids && e.status == status
  }

  function PatchEarning(d: EarningData, e: Earning): Earning {
    match d
    case Attach(rollup) => e.(rollup := Some(rollup))
    case ClaimFor(batch) => e.(status := Submitted, batch := Some(batch), tx := None)
    case SetTx(tx) => e.(tx := Some(tx))
    case Confirm => e.(status := Confirmed)
    case Requeue => e.(status := Pending, rollup := None, batch := None, tx := None)
    case RequeueLegacy => e.(status := Pending, batch := None, tx := None)
  }

  function EarningHits(es: seq<Earning>, w: EarningWhere): set<EarningId> {
    set i | 0 <= i < |es| && EarningMatches(w, i, es[i])
  }

  function UpdateEarnings(es: seq<Earning>, w: EarningWhere, d: EarningData): (r: seq<Earning>)
    ensures |r| == |es|
    ensures forall i :: 0 <= i < |es| ==>
        r[i] == if EarningMatches(w, i, es[i]) then PatchEarning(d, es[i]) else es[i]
  {
    seq(|es|, i requires 0 <= i < |es| => if EarningMatches(w, i, es[i]) then PatchEarning(d, es[i]) else es[i])
  }

  datatype RollupWhere =
    | RollupIds(ids: set<RollupId>, status: Status)
    | RollupsOfBatch(batch: BatchId, status: Status)

  datatype RollupData =
    | ClaimRollup(batch: BatchId)
    | SetRollupTx(tx: TxId)
    | ConfirmRollup
    | FailRollup

  predicate RollupMatches(w: RollupWhere, r: RollupId, x: Rollup) {
    match w
    case RollupIds(ids, status) => r in ids && x.status == status
    case RollupsOfBatch(batch, status) => x.batch == Some(batch) && x.status == status
  }

  function PatchRollup(d: RollupData, x: Rollup): Rollup {
    match d
    case ClaimRollup(batch) => x.(status := Submitted, batch := Some(batch), tx := None)
    case SetRollupTx(tx) => x.(tx := Some(tx))
    case ConfirmRollup => x.(status := Confirmed)
    case FailRollup => x.(status := Failed, batch := None, tx := None)
  }

  function RollupHits(rs: seq<Rollup>, w: RollupWhere): set<RollupId> {
    set r | 0 <= r < |rs| && RollupMatches(w, r, rs[r])
  }

  function UpdateRollups(rs: seq<Rollup>, w: RollupWhere, d: RollupData): (x: seq<Rollup>)
    ensures |x| == |rs|
    ensures forall r :: 0 <= r < |rs| ==>
        x[r] == if RollupMatches(w, r, rs[r]) then PatchRollup(d, rs[r]) else rs[r]
  {
    seq(|rs|, r requires 0 <= r < |rs| => if RollupMatches(w, r, rs[r]) then PatchRollup(d, rs[r]) else rs[r])
  }

  // ---------- members and sums ----------

  function Members(es: seq<Earning>, r: RollupId): set<EarningId> {
    set i | 0 <= i < |es| && es[i].rollup == Some(r)
  }

  function AttachedTo(es: seq<Earning>, rollups: set<RollupId>): set<EarningId> {
    set i | 0 <= i < |es| && es[i].rollup.Some? && es[i].rollup.value in rollups
  }

  function SumOver(es: seq<Earning>, s: set<EarningId>): Amounts {
    if es == [] then ZERO
    else
      var last := |es| - 1;
      var before := SumOver(es[..last], s);
      if last in s then before.Add(es[last].amounts) else before
  }

  predicate InRange(ids: seq<nat>, n: nat) {
    forall k :: 0 <= k < |ids| ==> ids[k] < n
  }

  function SumList(es: seq<Earning>, ids: seq<EarningId>): Amounts
    requires InRange(ids, |es|)
  {
    if ids == [] then ZERO
    else SumList(es, ids[..|ids| - 1]).Add(es[ids[|ids| - 1]].amounts)
  }

  /** Totals over a list of claimed rollups. */
  function PayloadTotal(rs: seq<Rollup>, ids: seq<RollupId>): Amounts
    requires InRange(ids, |rs|)
  {
    if ids == [] then ZERO
    else PayloadTotal(rs, ids[..|ids| - 1]).Add(rs[ids[|ids| - 1]].amounts)
  }

  function SumRollups(rs: seq<Rollup>, s: set<RollupId>): Amounts {
    if rs == [] then ZERO
    else
      var last := |rs| - 1;
      var before := SumRollups(rs[..last], s);
      if last in s then before.Add(rs[last].amounts) else before
  }

  function SumCounts(rs: seq<Rollup>, s: set<RollupId>): nat {
    if rs == [] then 0
    else
      var last := |rs| - 1;
      SumCounts(rs[..last], s) + (if last in s then rs[last].count else 0)
  }

  lemma {:induction false} SumOverFrame(es: seq<Earning>, es': seq<Earning>, s: set<EarningId>)
    requires |es| <= |es'|
    requires forall i :: i in s ==> i < |es|
    requires forall i :: 0 <= i < |es| ==> es'[i].amounts == es[i].amounts
    ensures SumOver(es', s) == SumOver(es, s)
  {
    if |es'| > 0 {
      var last := |es'| - 1;
      if |es'| > |es| {
        SumOverFrame(es, es'[..last], s);
      } else {
        SumOverFrame(es[..last], es'[..last], s - {last});
        SumOverDrop(es, s);
        SumOverDrop(es', s);
      }
    }
  }

  lemma SumOverDrop(es: seq<Earning>, s: set<EarningId>)
    requires es != []
    ensures SumOver(es[..|es| - 1], s) == SumOver(es[..|es| - 1], s - {|es| - 1})
  {
    SumOverIrrelevant(es[..|es| - 1], s, s - {|es| - 1});
  }

  lemma {:induction false} SumOverIrrelevant(es: seq<Earning>, s: set<EarningId>, t: set<EarningId>)
    requires forall i :: 0 <= i < |es| ==> (i in s <==> i in t)
    ensures SumOver(es, s) == SumOver(es, t)
  {
    if es != [] {
      SumOverIrrelevant(es[..|es| - 1], s, t);
    }
  }

  lemma {:induction false} SumOverEmpty(es: seq<Earning>)
    ensures SumOver(es, {}) == ZERO
  {
    if es != [] {
      SumOverEmpty(es[..|es| - 1]);
    }
  }

  lemma {:induction false} SumOverUnion(es: seq<Earning>, s: set<EarningId>, t: set<EarningId>)
    requires s !! t
    ensures SumOver(es, s + t) == SumOver(es, s).Add(SumOver(es, t))
  {
    if es != [] {
      SumOverUnion(es[..|es| - 1], s, t);
    }
  }

  lemma {:induction false} SumOverSingle(es: seq<Earning>, i: EarningId)
    requires i < |es|
    ensures SumOver(es, {i}) == es[i].amounts
  {
    if i == |es| - 1 {
      SumOverIrrelevant(es[..i], {i}, {});
      SumOverEmpty(es[..i]);
    } else {
      SumOverSingle(es[..|es| - 1], i);
    }
  }

  /** Adding up a duplicate-free list of rows is adding up the set of its ids. */
  lemma {:induction false} SumListIsSumOver(es: seq<Earning>, ids: seq<EarningId>)
    requires InRange(ids, |es|)
    requires Distinct(ids)
    ensures SumList(es, ids) == SumOver(es, SetOf(ids))
  {
    if ids == [] {
      SumOverEmpty(es);
      assert SetOf(ids) == {};
    } else {
      var init, x := ids[..|ids| - 1], ids[|ids| - 1];
      assert ids == init + [x];
      SumListIsSumOver(es, init);
      assert SetOf(ids) == SetOf(init) + {x};
      assert x !in SetOf(init);
      SumOverUnion(es, SetOf(init), {x});
      SumOverSingle(es, x);
    }
  }

  /** The ids of a set that are below n. */
  function Below(s: set<RollupId>, n: nat): set<RollupId> {
    set r | r in s && r < n
  }

  /** Members of different rollups are different rows. */
  lemma AttachedSplits(es: seq<Earning>, s: set<RollupId>, n: nat)
    ensures n in s ==>
      && AttachedTo(es, Below(s, n + 1)) == AttachedTo(es, Below(s, n)) + Members(es, n)
      && AttachedTo(es, Below(s, n)) !! Members(es, n)
    ensures n !in s ==> Below(s, n + 1) == Below(s, n)
  {
    if n in s {
      assert Below(s, n + 1) == Below(s, n) + {n};
    }
  }

  lemma AttachedToNone(es: seq<Earning>, s: set<RollupId>)
    ensures AttachedTo(es, Below(s, 0)) == {}
  {
  }

  /** So the counts of a group of rollups add up. */
  lemma {:induction false} CountAttached(es: seq<Earning>, rs: seq<Rollup>, s: set<RollupId>)
    requires forall r :: r in s && r < |rs| ==> |Members(es, r)| == rs[r].count
    ensures |AttachedTo(es, Below(s, |rs|))| == SumCounts(rs, s)
  {
    if rs == [] {
      AttachedToNone(es, s);
    } else {
      var last := |rs| - 1;
      CountAttached(es, rs[..last], s);
      AttachedSplits(es, s, last);
    }
  }

  /** The same partition, for money. */
  lemma {:induction false} SumAttached(es: seq<Earning>, rs: seq<Rollup>, s: set<RollupId>)
    requires forall r :: r in s && r < |rs| ==> SumOver(es, Members(es, r)) == rs[r].amounts
    ensures SumOver(es, AttachedTo(es, Below(s, |rs|))) == SumRollups(rs, s)
  {
    if rs == [] {
      AttachedToNone(es, s);
      SumOverEmpty(es);
    } else {
      var last := |rs| - 1;
      SumAttached(es, rs[..last], s);
      AttachedSplits(es, s, last);
      if last in s {
        SumOverUnion(es, AttachedTo(es, Below(s, last)), Members(es, last));
      }
    }
  }
}
