/**
 What a rollup candidate is, told from the rows alone: which rows it takes and in what order, what its columns hold,
 when a merchant gets one and why, and the order of the candidates.
 */
module RollupMeaning {
  import opened Common
  import opened Sorting
  import opened SettlementAmounts
  import opened RollupSelection

  /** Earlier created, or created at the same time with a smaller id. */
  predicate Older(a: Row, b: Row) {
    a.createdAt < b.createdAt || (a.createdAt == b.createdAt && a.id < b.id)
  }

  /** How many of the rows are the merchant's. */
  function CountOf(rows: seq<Row>, m: Merchant): nat {
    if rows == [] then 0
    else CountOf(rows[..|rows| - 1], m) + (if rows[|rows| - 1].merchant == m then 1 else 0)
  }

  lemma {:induction false} OfMerchantCount(rows: seq<Row>, m: Merchant)
    ensures |OfMerchant(rows, m)| == CountOf(rows, m)
    ensures multiset(OfMerchant(rows, m)) <= multiset(rows)
  {
    if rows != [] {
      var init := rows[..|rows| - 1];
      OfMerchantCount(init, m);
      assert rows == init + [rows[|rows| - 1]];
    }
  }

  lemma {:induction false} CountJoin(a: seq<Row>, b: seq<Row>, m: Merchant)
    ensures CountOf(a + b, m) == CountOf(a, m) + CountOf(b, m)
  {
    if b == [] {
      assert a + b == a;
    } else {
      CountJoin(a, b[..|b| - 1], m);
      assert (a + b)[..|a + b| - 1] == a + b[..|b| - 1];
    }
  }

  lemma CountOne(r: Row, m: Merchant)
    ensures CountOf([r], m) == if r.merchant == m then 1 else 0
  {
    assert [r][..0] == [];
  }

  lemma CountWithout(rows: seq<Row>, i: nat, m: Merchant)
    requires i < |rows|
    ensures CountOf(rows, m) == CountOf(rows[..i] + rows[i + 1..], m) + (if rows[i].merchant == m then 1 else 0)
  {
    hide CountOf;
    CountJoin(rows[..i], [rows[i]] + rows[i + 1..], m);
    CountJoin([rows[i]], rows[i + 1..], m);
    CountJoin(rows[..i], rows[i + 1..], m);
    CountOne(rows[i], m);
    assert rows == rows[..i] + ([rows[i]] + rows[i + 1..]);
  }

  lemma WithoutOne(rows: seq<Row>, i: nat)
    requires i < |rows|
    ensures multiset(rows[..i] + rows[i + 1..]) == multiset(rows) - multiset{rows[i]}
  {
    assert rows == rows[..i] + ([rows[i]] + rows[i + 1..]);
  }

  lemma {:induction false} SameCount(xs: seq<Row>, ys: seq<Row>, m: Merchant)
    requires multiset(xs) == multiset(ys)
    ensures CountOf(xs, m) == CountOf(ys, m)
    decreases |xs|
  {
    hide CountOf;
    if xs == [] {
      assert |multiset(ys)| == 0;
    } else {
      assert xs[0] in multiset(ys);
      var i :| 0 <= i < |ys| && ys[i] == xs[0];
      var fewer, rest := xs[..0] + xs[1..], ys[..i] + ys[i + 1..];
      WithoutOne(xs, 0);
      WithoutOne(ys, i);
      SameCount(fewer, rest, m);
      CountWithout(xs, 0, m);
      CountWithout(ys, i, m);
    }
  }

  /** The oldest `cap` rows of a merchant, oldest first; all of them if there are fewer. */
  ghost predicate AreOldest(rows: seq<Row>, m: Merchant, cap: nat, taken: seq<Row>) {
    && |taken| == Min(cap, CountOf(rows, m))
    && multiset(taken) <= multiset(rows)
    && (forall r :: r in taken ==> r.merchant == m)
    && (forall i, j :: 0 <= i < j < |taken| ==> !Older(taken[j], taken[i]))
    && (forall r, t :: r in rows && r.merchant == m && r !in taken && t in taken ==> !Older(r, t))
  }

  lemma TakenPart(all: seq<Row>, n: nat)
    requires n <= |all|
    ensures multiset(all[..n]) <= multiset(all)
  {
    assert all == all[..n] + all[n..];
  }

  lemma TakenAre(rows: seq<Row>, m: Merchant, cap: nat)
    ensures AreOldest(rows, m, cap, Taken(Oldest(rows), m, cap))
  {
    var sorted := Oldest(rows);
    var all := OfMerchant(sorted, m);
    TakenAreOldest(rows, m, cap);
    SortFacts(RowLeq, rows);
    OfMerchantCount(sorted, m);
    SameCount(sorted, rows, m);
    TakenPart(all, Min(cap, |all|));
    NothingOlderLeft(rows, m, cap);
  }

  lemma NothingOlderLeft(rows: seq<Row>, m: Merchant, cap: nat)
    ensures var taken := Taken(Oldest(rows), m, cap);
      && (forall i, j :: 0 <= i < j < |taken| ==> !Older(taken[j], taken[i]))
      && (forall r, t :: r in rows && r.merchant == m && r !in taken && t in taken ==> !Older(r, t))
  {
    var all, taken := OfMerchant(Oldest(rows), m), Taken(Oldest(rows), m, cap);
    TakenAreOldest(rows, m, cap);
    forall r, t | r in rows && r.merchant == m && r !in taken && t in taken ensures !Older(r, t) {
      var j :| 0 <= j < |all| && all[j] == r;
      var i :| 0 <= i < |taken| && taken[i] == t;
      assert RowLeq(taken[i], all[j]);
    }
    forall i, j | 0 <= i < j < |taken| ensures !Older(taken[j], taken[i]) {
      assert RowLeq(taken[i], taken[j]);
    }
  }

  /** The columns of a candidate over these rows. */
  ghost predicate IsOver(c: Candidate, taken: seq<Row>) {
    && taken != [] && |c.earningIds| == c.earningCount == |taken|
    && (forall k :: 0 <= k < |taken| ==> c.earningIds[k] == taken[k].id)
    && c.oldest == taken[0].createdAt && c.newest == taken[|taken| - 1].createdAt
    && c.amounts == Total(taken)
  }

  /** Its fees are worth a settlement, or its oldest row has waited long enough. */
  predicate IsDue(c: Candidate, cfg: Config, now: int) {
    c.amounts.fee >= cfg.minFeeWei || c.oldest + cfg.maxAgeMs <= now
  }

  lemma CandidateIs(m: Merchant, taken: seq<Row>, cfg: Config, now: int)
    requires taken != []
    ensures var c, fee := CandidateOf(m, taken, cfg, now), Total(taken).fee;
      && (c.Some? <==> fee >= cfg.minFeeWei || taken[0].createdAt + cfg.maxAgeMs <= now)
      && (c.Some? ==> c.value.merchant == m && IsOver(c.value, taken)
                      && c.value.reason == if fee >= cfg.minFeeWei then FeeThreshold else MaxAge)
  {
  }

  /**
   Every candidate is over the oldest rows of its merchant, with their exact totals; it is released for its fees if
   they reach the threshold, and for its age otherwise. A merchant has one exactly if its oldest rows are due. They
   come by the age of their oldest row, then by merchant, and no merchant has two.
   */
  lemma CandidatesAre(rows: seq<Row>, cfg: Config, now: int)
    requires cfg.maxEarningsPerRollup > 0
    ensures var cs := Candidates(rows, cfg, now);
      && (forall c :: c in cs ==>
            && IsDue(c, cfg, now)
            && c.reason == (if c.amounts.fee >= cfg.minFeeWei then FeeThreshold else MaxAge)
            && exists taken :: AreOldest(rows, c.merchant, cfg.maxEarningsPerRollup, taken) && IsOver(c, taken))
      && (forall i, j :: 0 <= i < j < |cs| ==>
            cs[i].oldest < cs[j].oldest || (cs[i].oldest == cs[j].oldest && cs[i].merchant < cs[j].merchant))
  {
    hide Candidates, Taken, Oldest, CandidateOf, AreOldest, IsOver;
    CandidatesCharacterised(rows, cfg, now);
    var cs := Candidates(rows, cfg, now);
    forall c | c in cs
      ensures IsDue(c, cfg, now) && c.reason == if c.amounts.fee >= cfg.minFeeWei then FeeThreshold else MaxAge
      ensures exists taken :: AreOldest(rows, c.merchant, cfg.maxEarningsPerRollup, taken) && IsOver(c, taken)
    {
      var taken := Taken(Oldest(rows), c.merchant, cfg.maxEarningsPerRollup);
      TakenAre(rows, c.merchant, cfg.maxEarningsPerRollup);
      CandidateIs(c.merchant, taken, cfg, now);
    }
    forall i, j | 0 <= i < j < |cs|
      ensures cs[i].oldest < cs[j].oldest || (cs[i].oldest == cs[j].oldest && cs[i].merchant < cs[j].merchant)
    {
      assert CandidateLeq(cs[i], cs[j]) && cs[i].merchant != cs[j].merchant;
    }
  }

  /** A merchant has a candidate exactly if its oldest rows are due. */
  lemma ReleasedIff(rows: seq<Row>, cfg: Config, now: int, m: Merchant)
    requires cfg.maxEarningsPerRollup > 0
    ensures var taken := Taken(Oldest(rows), m, cfg.maxEarningsPerRollup);
      && AreOldest(rows, m, cfg.maxEarningsPerRollup, taken)
      && ((exists c :: c in Candidates(rows, cfg, now) && c.merchant == m)
          <==> taken != [] && (Total(taken).fee >= cfg.minFeeWei || taken[0].createdAt + cfg.maxAgeMs <= now))
  {
    var taken := Taken(Oldest(rows), m, cfg.maxEarningsPerRollup);
    TakenAre(rows, m, cfg.maxEarningsPerRollup);
    CandidatesCharacterised(rows, cfg, now);
    if taken != [] {
      CandidateIs(m, taken, cfg, now);
      var c := CandidateOf(m, taken, cfg, now);
      if c.Some? {
        assert IsReleasedCandidate(rows, cfg, now, c.value);
      }
    }
    if exists c :: c in Candidates(rows, cfg, now) && c.merchant == m {
      var c :| c in Candidates(rows, cfg, now) && c.merchant == m;
      assert IsReleasedCandidate(rows, cfg, now, c);
    }
  }

  /** Without a positive cap nothing is rolled up. */
  lemma NoCapNoCandidates(rows: seq<Row>, cfg: Config, now: int)
    requires cfg.maxEarningsPerRollup <= 0
    ensures Candidates(rows, cfg, now) == []
  {
  }
}
