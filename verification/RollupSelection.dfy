/**
 Which pending earnings are rolled up together (lib/merchant-settlement-rollup.ts): the oldest rows
 of each merchant, up to a cap, released once their fees or their age justify a settlement.
 */
module RollupSelection {
  import opened Common
  import opened Sorting
  import opened SettlementAmounts

  type Merchant = nat // a normalised owner address, ordered like its text

  datatype Row = Row(id: nat, merchant: Merchant, amounts: Amounts, createdAt: int)

  datatype Config = Config(minFeeWei: int, maxAgeMs: int, maxEarningsPerRollup: int)

  datatype ReleaseReason = FeeThreshold | MaxAge

  datatype Candidate = Candidate(merchant: Merchant, earningIds: seq<nat>, amounts: Amounts,
                                 earningCount: nat, oldest: int, newest: int, reason: ReleaseReason)

  predicate RowLeq(a: Row, b: Row) {
    a.createdAt < b.createdAt || (a.createdAt == b.createdAt && a.id <= b.id)
  }

  predicate CandidateLeq(a: Candidate, b: Candidate) {
    a.oldest < b.oldest || (a.oldest == b.oldest && a.merchant <= b.merchant)
  }

  function Oldest(rows: seq<Row>): seq<Row> {
    Sort(RowLeq, rows)
  }

  function OfMerchant(rows: seq<Row>, m: Merchant): seq<Row> {
    if rows == [] then []
    else OfMerchant(rows[..|rows| - 1], m) + (if rows[|rows| - 1].merchant == m then [rows[|rows| - 1]] else [])
  }

  /** The first `cap` rows of merchant `m` in the given order. */
  function Taken(rows: seq<Row>, m: Merchant, cap: nat): seq<Row> {
    var all := OfMerchant(rows, m);
    all[..Min(cap, |all|)]
  }

  function Total(rows: seq<Row>): Amounts {
    if rows == [] then ZERO else Total(rows[..|rows| - 1]).Add(rows[|rows| - 1].amounts)
  }

  function Ids(rows: seq<Row>): seq<nat> {
    seq(|rows|, i requires 0 <= i < |rows| => rows[i].id)
  }

  /** Fees are looked at first; age only when they are too small. */
  function ReleaseFor(feeWei: int, oldest: int, cfg: Config, now: int): Option<ReleaseReason> {
    if feeWei >= cfg.minFeeWei then Some(FeeThreshold)
    else if oldest <= now - cfg.maxAgeMs then Some(MaxAge)
    else None
  }

  function CandidateOf(m: Merchant, taken: seq<Row>, cfg: Config, now: int): Option<Candidate>
    requires taken != []
  {
    var total := Total(taken);
    match ReleaseFor(total.fee, taken[0].createdAt, cfg, now)
    case None => None
    case Some(reason) =>
      Some(Candidate(m, Ids(taken), total, |taken|, taken[0].createdAt, taken[|taken| - 1].createdAt, reason))
  }

  /** Merchants in order of first appearance, as a JavaScript Map iterates them. */
  function Merchants(rows: seq<Row>): (ms: seq<Merchant>)
    ensures forall m :: m in ms <==> exists i :: 0 <= i < |rows| && rows[i].merchant == m
    ensures forall i, j :: 0 <= i < j < |ms| ==> ms[i] != ms[j]
  {
    if rows == [] then []
    else
      var before := Merchants(rows[..|rows| - 1]);
      var m := rows[|rows| - 1].merchant;
      if m in before then before else before + [m]
  }

  function Released(rows: seq<Row>, ms: seq<Merchant>, cfg: Config, now: int): seq<Candidate>
    requires cfg.maxEarningsPerRollup > 0
    requires forall m :: m in ms ==> OfMerchant(rows, m) != []
  {
    if ms == [] then []
    else
      var m := ms[|ms| - 1];
      var before := Released(rows, ms[..|ms| - 1], cfg, now);
      match CandidateOf(m, Taken(rows, m, cfg.maxEarningsPerRollup), cfg, now)
      case None => before
      case Some(c) => before + [c]
  }

  function Candidates(rows: seq<Row>, cfg: Config, now: int): seq<Candidate> {
    if cfg.maxEarningsPerRollup <= 0 then []
    else
      var sorted := Oldest(rows);
      MerchantsHaveRows(sorted);
      Sort(CandidateLeq, Released(sorted, Merchants(sorted), cfg, now))
  }

  lemma {:induction false} OfMerchantFacts(rows: seq<Row>, m: Merchant)
    ensures forall r :: r in OfMerchant(rows, m) <==> r in rows && r.merchant == m
    ensures |OfMerchant(rows, m)| <= |rows|
  {
    if rows != [] {
      OfMerchantFacts(rows[..|rows| - 1], m);
      assert rows == rows[..|rows| - 1] + [rows[|rows| - 1]];
    }
  }

  lemma MerchantsHaveRows(rows: seq<Row>)
    ensures forall m :: m in Merchants(rows) ==> OfMerchant(rows, m) != []
    ensures forall m :: OfMerchant(rows, m) != [] ==> m in Merchants(rows)
  {
    forall m
      ensures m in Merchants(rows) <==> OfMerchant(rows, m) != []
    {
      OfMerchantFacts(rows, m);
      if m in Merchants(rows) {
        var i :| 0 <= i < |rows| && rows[i].merchant == m;
        assert rows[i] in OfMerchant(rows, m);
      }
      if OfMerchant(rows, m) != [] {
        assert OfMerchant(rows, m)[0] in rows;
      }
    }
  }

  lemma {:induction false} OfMerchantSorted(rows: seq<Row>, m: Merchant)
    requires Sorted(RowLeq, rows)
    ensures Sorted(RowLeq, OfMerchant(rows, m))
  {
    if rows != [] {
      var init := rows[..|rows| - 1];
      OfMerchantSorted(init, m);
      OfMerchantFacts(init, m);
      forall r | r in OfMerchant(init, m) ensures RowLeq(r, rows[|rows| - 1]) {
        assert r in init;
        var i :| 0 <= i < |init| && init[i] == r;
        assert rows[i] == r;
      }
    }
  }

  /**
   A candidate holds exactly the oldest min(cap, available) rows of its merchant: all of them belong
   to the merchant and nothing left behind is older than anything taken.
   */
  lemma TakenAreOldest(rows: seq<Row>, m: Merchant, cap: nat)
    ensures var all := OfMerchant(Oldest(rows), m);
      var taken := Taken(Oldest(rows), m, cap);
      && |taken| == Min(cap, |all|)
      && (forall r :: r in taken ==> r in rows && r.merchant == m)
      && (forall r :: r in rows && r.merchant == m ==> r in all)
      && (forall i, j :: 0 <= i < |taken| <= j < |all| ==> RowLeq(taken[i], all[j]))
      && Sorted(RowLeq, taken)
  {
    SortFacts(RowLeq, rows);
    OfMerchantFacts(Oldest(rows), m);
    OfMerchantSorted(Oldest(rows), m);
  }

  ghost predicate DistinctIds(rows: seq<Row>) {
    forall i, j :: 0 <= i < j < |rows| ==> rows[i].id != rows[j].id
  }

  lemma {:induction false} OfMerchantDistinct(rows: seq<Row>, m: Merchant)
    requires DistinctIds(rows)
    ensures DistinctIds(OfMerchant(rows, m))
  {
    if rows != [] {
      var init := rows[..|rows| - 1];
      OfMerchantDistinct(init, m);
      OfMerchantFacts(init, m);
      forall r | r in OfMerchant(init, m) ensures r.id != rows[|rows| - 1].id {
        assert r in init;
      }
    }
  }

  lemma SortedDistinct(rows: seq<Row>)
    requires DistinctIds(rows)
    ensures DistinctIds(Oldest(rows))
  {
    SortFacts(RowLeq, rows);
    var id := (r: Row) => r.id;
    assert DistinctKeys(id, rows);
    PermutationKeepsKeys(id, rows, Oldest(rows));
    forall i, j | 0 <= i < j < |Oldest(rows)| ensures Oldest(rows)[i].id != Oldest(rows)[j].id {
      assert id(Oldest(rows)[i]) != id(Oldest(rows)[j]);
    }
  }

  /** Candidate `c` is the released candidate of its own merchant. */
  ghost predicate IsReleasedCandidate(rows: seq<Row>, cfg: Config, now: int, c: Candidate)
    requires cfg.maxEarningsPerRollup > 0
  {
    var taken := Taken(Oldest(rows), c.merchant, cfg.maxEarningsPerRollup);
    taken != [] && CandidateOf(c.merchant, taken, cfg, now) == Some(c)
  }

  lemma {:induction false} ReleasedFacts(rows: seq<Row>, sorted: seq<Row>, ms: seq<Merchant>, cfg: Config, now: int)
    requires cfg.maxEarningsPerRollup > 0 && sorted == Oldest(rows)
    requires forall m :: m in ms ==> OfMerchant(sorted, m) != []
    requires forall i, j :: 0 <= i < j < |ms| ==> ms[i] != ms[j]
    ensures var cs := Released(sorted, ms, cfg, now);
      && (forall c :: c in cs ==> c.merchant in ms && IsReleasedCandidate(rows, cfg, now, c))
      && (forall i, j :: 0 <= i < j < |cs| ==> cs[i].merchant != cs[j].merchant)
      && (forall m :: m in ms && CandidateOf(m, Taken(sorted, m, cfg.maxEarningsPerRollup), cfg, now).Some? ==>
            CandidateOf(m, Taken(sorted, m, cfg.maxEarningsPerRollup), cfg, now).value in cs)
  {
    if ms != [] {
      var last := |ms| - 1;
      ReleasedFacts(rows, sorted, ms[..last], cfg, now);
      assert ms == ms[..last] + [ms[last]];
      assert ms[last] !in ms[..last];
    }
  }

  /** The released candidates, one per merchant. */
  ghost predicate OnePerMerchant(cs: seq<Candidate>) {
    forall i, j :: 0 <= i < j < |cs| ==> cs[i].merchant != cs[j].merchant
  }

  lemma SortedOnePerMerchant(cs: seq<Candidate>)
    requires OnePerMerchant(cs)
    ensures OnePerMerchant(Sort(CandidateLeq, cs))
  {
    var merchant := (c: Candidate) => c.merchant;
    var sorted := Sort(CandidateLeq, cs);
    SortFacts(CandidateLeq, cs);
    assert DistinctKeys(merchant, cs);
    PermutationKeepsKeys(merchant, cs, sorted);
    forall i, j | 0 <= i < j < |sorted| ensures sorted[i].merchant != sorted[j].merchant {
      assert merchant(sorted[i]) != merchant(sorted[j]);
    }
  }

  /**
   The selection, described without its loops: a candidate is emitted for a merchant exactly when the
   merchant has rows and their fee or age threshold is met; every emitted candidate is that merchant's
   oldest rows with their exact totals; candidates come oldest first, at most one per merchant.
   */
  lemma CandidatesCharacterised(rows: seq<Row>, cfg: Config, now: int)
    requires cfg.maxEarningsPerRollup > 0
    ensures Sorted(CandidateLeq, Candidates(rows, cfg, now))
    ensures OnePerMerchant(Candidates(rows, cfg, now))
    ensures forall c :: c in Candidates(rows, cfg, now) <==> IsReleasedCandidate(rows, cfg, now, c)
  {
    var sorted := Oldest(rows);
    MerchantsHaveRows(sorted);
    var ms := Merchants(sorted);
    var unsorted := Released(sorted, ms, cfg, now);
    ReleasedFacts(rows, sorted, ms, cfg, now);
    SortFacts(CandidateLeq, unsorted);
    SortedOnePerMerchant(unsorted);
    forall c | IsReleasedCandidate(rows, cfg, now, c) ensures c in unsorted {
      assert OfMerchant(sorted, c.merchant) != [];
      assert c.merchant in ms;
    }
  }

  /** A selected earning is a row of the candidate's own merchant. */
  lemma SelectedRow(rows: seq<Row>, cfg: Config, now: int, c: Candidate, e: nat) returns (r: Row)
    requires cfg.maxEarningsPerRollup > 0
    requires IsReleasedCandidate(rows, cfg, now, c) && e in c.earningIds
    ensures r in rows && r.merchant == c.merchant && r.id == e
  {
    var taken := Taken(Oldest(rows), c.merchant, cfg.maxEarningsPerRollup);
    TakenAreOldest(rows, c.merchant, cfg.maxEarningsPerRollup);
    assert c.earningIds == Ids(taken);
    var p :| 0 <= p < |c.earningIds| && c.earningIds[p] == e;
    r := taken[p];
    assert r in taken;
  }

  lemma OneRowPerId(rows: seq<Row>, a: Row, b: Row)
    requires DistinctIds(rows) && a in rows && b in rows && a.id == b.id
    ensures a == b
  {
  }

  lemma CandidateIdsDistinct(rows: seq<Row>, cfg: Config, now: int, c: Candidate)
    requires cfg.maxEarningsPerRollup > 0 && DistinctIds(rows)
    requires IsReleasedCandidate(rows, cfg, now, c)
    ensures Distinct(c.earningIds) && c.earningCount == |c.earningIds| > 0
  {
    SortedDistinct(rows);
    OfMerchantDistinct(Oldest(rows), c.merchant);
  }

  /** Within and across candidates no earning is selected twice. */
  lemma CandidatesAreDisjoint(rows: seq<Row>, cfg: Config, now: int)
    requires cfg.maxEarningsPerRollup > 0 && DistinctIds(rows)
    ensures var cs := Candidates(rows, cfg, now);
      && (forall c :: c in cs ==> Distinct(c.earningIds) && c.earningCount == |c.earningIds| > 0)
      && (forall i, j, e :: 0 <= i < j < |cs| && e in cs[i].earningIds ==> e !in cs[j].earningIds)
  {
    var cs := Candidates(rows, cfg, now);
    CandidatesCharacterised(rows, cfg, now);
    forall c | c in cs ensures Distinct(c.earningIds) && c.earningCount == |c.earningIds| > 0 {
      CandidateIdsDistinct(rows, cfg, now, c);
    }
    forall i, j, e | 0 <= i < j < |cs| && e in cs[i].earningIds ensures e !in cs[j].earningIds {
      if e in cs[j].earningIds {
        assert cs[i] in cs && cs[j] in cs;
        var a := SelectedRow(rows, cfg, now, cs[i], e);
        var b := SelectedRow(rows, cfg, now, cs[j], e);
        OneRowPerId(rows, a, b);
        assert false;
      }
    }
  }

  lemma {:induction false} TotalIsExact(rows: seq<Row>)
    requires forall r :: r in rows ==> r.amounts.fee + r.amounts.net == r.amounts.gross
    ensures Total(rows).fee + Total(rows).net == Total(rows).gross
  {
    if rows != [] {
      TotalIsExact(rows[..|rows| - 1]);
    }
  }

  /** Splitting fee from net survives the summation: every candidate's fee + net is its gross. */
  lemma CandidateTotalsAreExact(rows: seq<Row>, cfg: Config, now: int)
    requires cfg.maxEarningsPerRollup > 0
    requires forall r :: r in rows ==> r.amounts.fee + r.amounts.net == r.amounts.gross
    ensures forall c :: c in Candidates(rows, cfg, now) ==> c.amounts.fee + c.amounts.net == c.amounts.gross
  {
    CandidatesCharacterised(rows, cfg, now);
    forall c | c in Candidates(rows, cfg, now) ensures c.amounts.fee + c.amounts.net == c.amounts.gross {
      TakenAreOldest(rows, c.merchant, cfg.maxEarningsPerRollup);
      TotalIsExact(Taken(Oldest(rows), c.merchant, cfg.maxEarningsPerRollup));
    }
  }

  ghost predicate GroupedBy(keys: seq<Merchant>, grouped: map<Merchant, seq<Row>>, rows: seq<Row>, cap: nat) {
    && keys == Merchants(rows)
    && (forall m :: m in keys <==> m in grouped)
    && (forall m :: m in grouped ==> grouped[m] == Taken(rows, m, cap))
  }

  /** One more row extends the list of its own merchant, unless that list is full. */
  lemma TakenStep(before: seq<Row>, row: Row, m: Merchant, cap: nat)
    ensures Taken(before + [row], m, cap)
         == if m == row.merchant && |Taken(before, m, cap)| < cap then Taken(before, m, cap) + [row]
            else Taken(before, m, cap)
  {
    var rows := before + [row];
    assert rows[..|rows| - 1] == before;
    assert OfMerchant(rows, m) == OfMerchant(before, m) + (if row.merchant == m then [row] else []);
  }

  lemma GroupedSoFar(keys: seq<Merchant>, grouped: map<Merchant, seq<Row>>, before: seq<Row>, m: Merchant, cap: nat)
    requires cap > 0 && GroupedBy(keys, grouped, before, cap)
    ensures (if m in grouped then grouped[m] else []) == Taken(before, m, cap)
  {
    if m !in grouped {
      MerchantsHaveRows(before);
    }
  }

  datatype Grouping = Grouping(keys: seq<Merchant>, lists: map<Merchant, seq<Row>>)

  /** One turn of the first loop: the row goes to its merchant's list, unless that is full. */
  function GroupOne(g: Grouping, row: Row, cap: nat): Grouping {
    var existing := if row.merchant in g.lists then g.lists[row.merchant] else [];
    if |existing| >= cap then g
    else Grouping(if row.merchant in g.lists then g.keys else g.keys + [row.merchant],
                  g.lists[row.merchant := existing + [row]])
  }

  function Grouped(rows: seq<Row>, cap: nat): Grouping {
    if rows == [] then Grouping([], map[]) else GroupOne(Grouped(rows[..|rows| - 1], cap), rows[|rows| - 1], cap)
  }

  lemma GroupStep(g: Grouping, before: seq<Row>, row: Row, cap: nat)
    requires cap > 0 && GroupedBy(g.keys, g.lists, before, cap)
    ensures GroupedBy(GroupOne(g, row, cap).keys, GroupOne(g, row, cap).lists, before + [row], cap)
  {
    var rows, g' := before + [row], GroupOne(g, row, cap);
    assert rows[..|rows| - 1] == before;
    GroupedSoFar(g.keys, g.lists, before, row.merchant, cap);
    forall m | m in g'.lists ensures g'.lists[m] == Taken(rows, m, cap) {
      TakenStep(before, row, m, cap);
    }
    assert Merchants(rows) == if row.merchant in g.keys then g.keys else g.keys + [row.merchant];
  }

  lemma {:induction false} GroupedIsBy(rows: seq<Row>, cap: nat)
    requires cap > 0
    ensures GroupedBy(Grouped(rows, cap).keys, Grouped(rows, cap).lists, rows, cap)
  {
    if rows != [] {
      var init, row := rows[..|rows| - 1], rows[|rows| - 1];
      GroupedIsBy(init, cap);
      GroupStep(Grouped(init, cap), init, row, cap);
      assert rows == init + [row];
    }
  }

  /** First loop: a Map from merchant to its capped list of rows, with its keys in insertion order. */
  method GroupRows(sortedRows: seq<Row>, cap: nat) returns (keys: seq<Merchant>, grouped: map<Merchant, seq<Row>>)
    requires cap > 0
    ensures GroupedBy(keys, grouped, sortedRows, cap)
  {
    keys, grouped := [], map[];
    for i := 0 to |sortedRows|
      invariant Grouping(keys, grouped) == Grouped(sortedRows[..i], cap)
    {
      var row := sortedRows[i];
      assert sortedRows[..i + 1][..i] == sortedRows[..i];
      var existing := if row.merchant in grouped then grouped[row.merchant] else [];
      if |existing| < cap {
        keys := if row.merchant in grouped then keys else keys + [row.merchant];
        grouped := grouped[row.merchant := existing + [row]];
      }
    }
    assert sortedRows[..|sortedRows|] == sortedRows;
    GroupedIsBy(sortedRows, cap);
  }

  method SumRows(rows: seq<Row>) returns (total: Amounts)
    ensures total == Total(rows)
  {
    total := ZERO;
    for k := 0 to |rows|
      invariant total == Total(rows[..k])
    {
      assert rows[..k + 1][..k] == rows[..k];
      total := total.Add(rows[k].amounts);
    }
    assert rows[..|rows|] == rows;
  }

  /** One more merchant adds its candidate, if it is released. */
  lemma ReleasedStep(rows: seq<Row>, ms: seq<Merchant>, j: nat, cfg: Config, now: int)
    requires cfg.maxEarningsPerRollup > 0 && j < |ms|
    requires forall m :: m in ms ==> OfMerchant(rows, m) != []
    ensures Taken(rows, ms[j], cfg.maxEarningsPerRollup) != []
    ensures var c := CandidateOf(ms[j], Taken(rows, ms[j], cfg.maxEarningsPerRollup), cfg, now);
      Released(rows, ms[..j + 1], cfg, now)
        == Released(rows, ms[..j], cfg, now) + (if c.Some? then [c.value] else [])
  {
    assert ms[..j + 1][..j] == ms[..j];
  }

  method BuildCandidates(rows: seq<Row>, cfg: Config, now: int) returns (candidates: seq<Candidate>)
    ensures candidates == Candidates(rows, cfg, now)
  {
    if cfg.maxEarningsPerRollup <= 0 {
      return [];
    }
    var sortedRows := Sort(RowLeq, rows);
    var keys, grouped := GroupRows(sortedRows, cfg.maxEarningsPerRollup);
    MerchantsHaveRows(sortedRows);
    candidates := [];
    for j := 0 to |keys|
      invariant candidates == Released(sortedRows, keys[..j], cfg, now)
    {
      ReleasedStep(sortedRows, keys, j, cfg, now);
      var merchantRows := grouped[keys[j]];
      var total := SumRows(merchantRows);
      var oldest, newest := merchantRows[0].createdAt, merchantRows[|merchantRows| - 1].createdAt;
      var reason := if total.fee >= cfg.minFeeWei then Some(FeeThreshold)
                    else if oldest <= now - cfg.maxAgeMs then Some(MaxAge) else None;
      if reason.Some? {
        candidates := candidates
            + [Candidate(keys[j], Ids(merchantRows), total, |merchantRows|, oldest, newest, reason.value)];
      }
    }
    assert keys[..|keys|] == keys;
    candidates := Sort(CandidateLeq, candidates);
  }
}
