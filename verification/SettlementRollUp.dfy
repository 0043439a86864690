/** What creating rollups does to the tables in a run: which rollups there are afterwards, over which earnings. */
module SettlementRollUp {
  import opened Common
  import opened SettlementAmounts
  import opened SettlementState
  import opened SettlementSteps
  import opened SettlementLockstep
  import opened SettlementRun
  import opened SettlementTables
  import Runs
  import Selection = RollupSelection

  /** The rollup row of a candidate: pending, in no batch. */
  ghost predicate IsRollupOf(x: Rollup, c: Selection.Candidate) {
    && x.merchant == c.merchant && x.status == Pending && x.amounts == c.amounts && x.count == c.earningCount
    && x.oldest == c.oldest && x.newest == c.newest && x.reason == c.reason && x.batch == None && x.tx == None
  }

  /** What is true of the rollup and the earnings of one candidate. */
  ghost predicate RolledUpAt(db: Db, db': Db, c: Selection.Candidate, r: RollupId) {
    && |db'.earnings| == |db.earnings|
    && r < |db'.rollups| && IsRollupOf(db'.rollups[r], c)
    && (forall i :: i in c.earningIds ==>
          i < |db.earnings| && db'.earnings[i] == db.earnings[i].(rollup := Some(r)))
  }

  /** One rollup more per candidate, in order, each with exactly its earnings attached; nothing else is written. */
  ghost predicate RolledUp(db: Db, db': Db, cs: seq<Selection.Candidate>) {
    var n := |db.rollups|;
    && |db'.rollups| == n + |cs| && |db'.earnings| == |db.earnings| && db'.batches == db.batches
    && (forall r :: 0 <= r < n ==> db'.rollups[r] == db.rollups[r])
    && (forall k :: 0 <= k < |cs| ==> RolledUpAt(db, db', cs[k], n + k))
    && (forall i :: 0 <= i < |db.earnings| && (forall k :: 0 <= k < |cs| ==> i !in cs[k].earningIds) ==>
          db'.earnings[i] == db.earnings[i])
  }

  lemma AttachOneIs(db: Db, c: Selection.Candidate)
    requires FreeRows(db, c.earningIds)
    ensures AttachOne(db, c).Committed?
    ensures var db' := AttachOne(db, c).db;
      && |db'.earnings| == |db.earnings| && db'.batches == db.batches
      && |db'.rollups| == |db.rollups| + 1 && db'.rollups[..|db.rollups|] == db.rollups
      && IsRollupOf(db'.rollups[|db.rollups|], c)
      && (forall i :: 0 <= i < |db.earnings| ==>
            db'.earnings[i] == if i in c.earningIds then db.earnings[i].(rollup := Some(|db.rollups|))
                               else db.earnings[i])
  {
    AttachGuardMeans(db.earnings, c.earningIds);
  }

  lemma AtStays(db: Db, mid: Db, db': Db, x: Selection.Candidate, r: RollupId, c: Selection.Candidate)
    requires RolledUpAt(db, mid, x, r) && FreeRows(mid, c.earningIds) && AttachOne(mid, c) == Committed(db')
    requires forall i :: i in x.earningIds ==> i !in c.earningIds
    ensures RolledUpAt(db, db', x, r)
  {
    AttachOneIs(mid, c);
    assert db'.rollups[..|mid.rollups|][r] == mid.rollups[r];
  }

  lemma AtNew(db: Db, mid: Db, db': Db, init: seq<Selection.Candidate>, c: Selection.Candidate)
    requires RolledUp(db, mid, init) && FreeRows(mid, c.earningIds) && AttachOne(mid, c) == Committed(db')
    requires forall k, i :: 0 <= k < |init| && i in init[k].earningIds ==> i !in c.earningIds
    ensures RolledUpAt(db, db', c, |mid.rollups|)
  {
    AttachOneIs(mid, c);
    forall i | i in c.earningIds ensures i < |db.earnings| && mid.earnings[i] == db.earnings[i] {
      assert forall k :: 0 <= k < |init| ==> i !in init[k].earningIds;
    }
  }

  lemma OthersKept(db: Db, mid: Db, db': Db, init: seq<Selection.Candidate>, c: Selection.Candidate, i: EarningId)
    requires RolledUp(db, mid, init) && FreeRows(mid, c.earningIds) && AttachOne(mid, c) == Committed(db')
    requires i < |db.earnings| && forall k :: 0 <= k < |init + [c]| ==> i !in (init + [c])[k].earningIds
    ensures i < |db'.earnings| && db'.earnings[i] == db.earnings[i]
  {
    AttachOneIs(mid, c);
    assert (init + [c])[|init|] == c;
    forall k | 0 <= k < |init| ensures i !in init[k].earningIds {
      assert (init + [c])[k] == init[k];
    }
  }

  lemma RolledUpMore(db: Db, mid: Db, db': Db, init: seq<Selection.Candidate>, c: Selection.Candidate)
    requires RolledUp(db, mid, init) && FreeRows(mid, c.earningIds) && AttachOne(mid, c) == Committed(db')
    requires forall k, i :: 0 <= k < |init| && i in init[k].earningIds ==> i !in c.earningIds
    ensures RolledUp(db, db', init + [c])
  {
    var cs, n := init + [c], |db.rollups|;
    AttachOneIs(mid, c);
    forall k | 0 <= k < |cs| ensures RolledUpAt(db, db', cs[k], n + k) {
      if k < |init| {
        AtStays(db, mid, db', init[k], n + k, c);
      } else {
        AtNew(db, mid, db', init, c);
      }
    }
    forall r | 0 <= r < n ensures db'.rollups[r] == db.rollups[r] {
      assert db'.rollups[..|mid.rollups|][r] == mid.rollups[r];
    }
    forall i | 0 <= i < |db.earnings| && (forall k :: 0 <= k < |cs| ==> i !in cs[k].earningIds)
      ensures db'.earnings[i] == db.earnings[i]
    {
      OthersKept(db, mid, db', init, c, i);
    }
  }

  lemma {:induction false} AttachAllIs(db: Db, cs: seq<Selection.Candidate>)
    requires forall k :: 0 <= k < |cs| ==> FreeRows(db, cs[k].earningIds)
    requires forall j, k, i :: 0 <= j < k < |cs| && i in cs[j].earningIds ==> i !in cs[k].earningIds
    ensures AttachAll(db, cs).Committed? && RolledUp(db, AttachAll(db, cs).db, cs)
  {
    if cs != [] {
      var init, c := cs[..|cs| - 1], cs[|cs| - 1];
      AttachAllIs(db, init);
      var mid := AttachAll(db, init).db;
      StillFree(db, mid, init, c);
      AttachOneIs(mid, c);
      RolledUpMore(db, mid, AttachOne(mid, c).db, init, c);
      assert init + [c] == cs;
    }
  }

  lemma StillFree(db: Db, mid: Db, init: seq<Selection.Candidate>, c: Selection.Candidate)
    requires RolledUp(db, mid, init) && FreeRows(db, c.earningIds)
    requires forall k, i :: 0 <= k < |init| && i in init[k].earningIds ==> i !in c.earningIds
    ensures FreeRows(mid, c.earningIds)
  {
    forall i | i in c.earningIds ensures i < |mid.earnings| && mid.earnings[i] == db.earnings[i] {
      var p :| 0 <= p < |c.earningIds| && c.earningIds[p] == i;
      assert forall k :: 0 <= k < |init| ==> i !in init[k].earningIds;
    }
  }

  lemma CandidatesAreFree(db: Db, ids: seq<EarningId>, cfg: Selection.Config, now: int, n: nat)
    requires FreeRows(db, ids) && n <= |Selection.Candidates(RowsOf(db, ids), cfg, now)|
    ensures var cs := Selection.Candidates(RowsOf(db, ids), cfg, now)[..n];
      && (forall k :: 0 <= k < |cs| ==> FreeRows(db, cs[k].earningIds))
      && (forall j, k, i :: 0 <= j < k < |cs| && i in cs[j].earningIds ==> i !in cs[k].earningIds)
  {
    var rows := RowsOf(db, ids);
    if cfg.maxEarningsPerRollup > 0 {
      var cs := Selection.Candidates(rows, cfg, now);
      Selection.CandidatesAreDisjoint(rows, cfg, now);
      forall k | 0 <= k < n ensures FreeRows(db, cs[k].earningIds) {
        assert cs[k] in cs;
        CandidateIdsAreRead(db, ids, cfg, now, cs[k]);
        forall p | 0 <= p < |cs[k].earningIds| ensures cs[k].earningIds[p] < |db.earnings| {
          assert cs[k].earningIds[p] in ids;
        }
      }
    }
  }

  /** The first `maxRollups` of the candidates. */
  function FirstOf(all: seq<Selection.Candidate>, maxRollups: int): seq<Selection.Candidate> {
    if maxRollups <= 0 then [] else if maxRollups < |all| then all[..maxRollups] else all
  }

  lemma CreateIs(db: Db, ids: seq<EarningId>, cfg: Selection.Config, maxRollups: int, now: int)
    requires FreeRows(db, ids)
    ensures var cs := FirstOf(Selection.Candidates(RowsOf(db, ids), cfg, now), maxRollups);
      && Selected(db, ids, cfg, maxRollups, now) == cs
      && CreateRollups(db, ids, cfg, maxRollups, now).Committed?
      && RolledUp(db, CreateRollups(db, ids, cfg, maxRollups, now).db, cs)
  {
    var all := Selection.Candidates(RowsOf(db, ids), cfg, now);
    var cs := FirstOf(all, maxRollups);
    assert all[..|cs|] == cs == Selected(db, ids, cfg, maxRollups, now);
    CandidatesAreFree(db, ids, cfg, now, |cs|);
    AttachAllIs(db, cs);
  }

  /**
   On the rows the locking query returns, rollup creation commits. It makes one rollup for each of the first
   `maxRollups` candidates over those rows, in their order, attaches to it exactly the candidate's earnings, and writes
   nothing else.
   */
  lemma RollUpCreates(events: seq<Event>, ids: seq<EarningId>, cfg: Selection.Config, maxRollups: int, now: int)
    requires FreeRows(Exec(INIT, events).db, ids)
    ensures var s, s' := Exec(INIT, events), Exec(INIT, events + [RollUp(ids, cfg, maxRollups, now)]);
      var cs := FirstOf(Selection.Candidates(RowsOf(s.db, ids), cfg, now), maxRollups);
      && RolledUp(s.db, s'.db, cs)
      && s'.minted == s.minted + MintedBy(cs)
      && s' == s.(db := s'.db, minted := s'.minted)
  {
    Runs.FoldAppend(Next, INIT, events, RollUp(ids, cfg, maxRollups, now));
    CreateIs(Exec(INIT, events).db, ids, cfg, maxRollups, now);
  }
}
