/** Settlement ids and the gross / fee / net split of an earning (lib/merchant-settlement.ts). */
module SettlementAmounts {

  const CREDIT_PRICE_WEI: int := 10_000_000_000_000
  const PROTOCOL_FEE_BPS: int := 250
  const BPS_DENOMINATOR: int := 10_000

  /** The three keccak-derived ids; a constructor stands for an injective hash of its source key. */
  datatype SettlementId =
    | GateSettlement(wallet: string, requestId: string)
    | CaptureSettlement(ticketId: string)
    | RollupSettlement(rollupId: nat)

  datatype Amounts = Amounts(gross: int, fee: int, net: int) {
    function Add(other: Amounts): Amounts {
      Amounts(gross + other.gross, fee + other.fee, net + other.net)
    }
  }

  const ZERO: Amounts := Amounts(0, 0, 0)

  datatype AmountResult =
    | Split(amounts: Amounts)
    | GrossCreditsNotPositive
    | CreditPriceNotPositive
    | FeeBpsOutOfRange

  function FeeOn(grossWei: int, feeBps: int): int {
    grossWei * feeBps / BPS_DENOMINATOR
  }

  function CalculateSettlementAmounts(grossCredits: int, feeBps: int, creditPriceWei: int): AmountResult {
    if grossCredits <= 0 then GrossCreditsNotPositive
    else if creditPriceWei <= 0 then CreditPriceNotPositive
    else if feeBps < 0 || feeBps > BPS_DENOMINATOR then FeeBpsOutOfRange
    else
      var grossWei := grossCredits * creditPriceWei;
      var feeWei := FeeOn(grossWei, feeBps);
      Split(Amounts(grossWei, feeWei, grossWei - feeWei))
  }

  /** Every accepted split is exact, never negative, and no fee exceeds the gross. */
  lemma SplitIsExact(grossCredits: int, feeBps: int, creditPriceWei: int)
    ensures var r := CalculateSettlementAmounts(grossCredits, feeBps, creditPriceWei);
      && (r.Split? <==> grossCredits > 0 && creditPriceWei > 0 && 0 <= feeBps <= BPS_DENOMINATOR)
      && (r == GrossCreditsNotPositive <==> grossCredits <= 0)
      && (r == CreditPriceNotPositive <==> grossCredits > 0 && creditPriceWei <= 0)
      && (r.Split? ==>
            && r.amounts.fee + r.amounts.net == r.amounts.gross == grossCredits * creditPriceWei
            && r.amounts.gross > 0 && 0 <= r.amounts.fee <= r.amounts.gross && r.amounts.net >= 0
            && r.amounts.fee * BPS_DENOMINATOR <= r.amounts.gross * feeBps < (r.amounts.fee + 1) * BPS_DENOMINATOR)
  {
    if grossCredits > 0 && creditPriceWei > 0 && 0 <= feeBps <= BPS_DENOMINATOR {
      var g := grossCredits * creditPriceWei;
      Positive(grossCredits, creditPriceWei);
      FeeBetween(g, feeBps);
    }
  }

  lemma Positive(a: int, b: int)
    requires a > 0 && b > 0
    ensures a * b > 0
  {
  }

  lemma FeeBetween(g: int, bps: int)
    requires g > 0 && 0 <= bps <= BPS_DENOMINATOR
    ensures 0 <= FeeOn(g, bps) <= g
  {
    var p := g * bps;
    assert 0 <= p;
    assert p <= g * BPS_DENOMINATOR by { MulMono(g, bps, BPS_DENOMINATOR); }
  }

  lemma MulMono(g: int, a: int, b: int)
    requires g >= 0 && a <= b
    ensures g * a <= g * b
  {
  }

  function SumGross(credits: seq<int>, price: int): int {
    if credits == [] then 0 else credits[0] * price + SumGross(credits[1..], price)
  }

  function SumFees(credits: seq<int>, price: int, bps: int): int {
    if credits == [] then 0 else FeeOn(credits[0] * price, bps) + SumFees(credits[1..], price, bps)
  }

  function SumRemainders(credits: seq<int>, price: int, bps: int): int {
    if credits == [] then 0
    else (credits[0] * price * bps) % BPS_DENOMINATOR + SumRemainders(credits[1..], price, bps)
  }

  lemma {:induction false} RemaindersAccount(credits: seq<int>, price: int, bps: int)
    ensures SumGross(credits, price) * bps
         == SumFees(credits, price, bps) * BPS_DENOMINATOR + SumRemainders(credits, price, bps)
    ensures 0 <= SumRemainders(credits, price, bps) <= |credits| * (BPS_DENOMINATOR - 1)
  {
    if credits != [] {
      RemaindersAccount(credits[1..], price, bps);
      var p := credits[0] * price;
      var rest := SumGross(credits[1..], price);
      assert (p + rest) * bps == p * bps + rest * bps;
      assert p * bps == credits[0] * price * bps;
    }
  }

  /**
   Rounding each earning's fee down loses exactly the whole units hidden in the remainders: the fee
   on the summed gross exceeds the summed fees by less than one wei per earning.
   */
  lemma RollupFeeShortfall(credits: seq<int>, price: int, bps: int)
    ensures FeeOn(SumGross(credits, price), bps) - SumFees(credits, price, bps)
         == SumRemainders(credits, price, bps) / BPS_DENOMINATOR
    ensures SumFees(credits, price, bps) <= FeeOn(SumGross(credits, price), bps)
    ensures credits != [] ==>
        FeeOn(SumGross(credits, price), bps) - SumFees(credits, price, bps) <= |credits| - 1
    ensures FeeOn(SumGross(credits, price), bps) == SumFees(credits, price, bps)
       <==> SumRemainders(credits, price, bps) < BPS_DENOMINATOR
  {
    RemaindersAccount(credits, price, bps);
  }

  /** At the deployed price and fee no remainder is ever left, so rolling up changes no fee. */
  lemma {:induction false} DefaultFeeIsAdditive(credits: seq<int>)
    ensures SumRemainders(credits, CREDIT_PRICE_WEI, PROTOCOL_FEE_BPS) == 0
    ensures FeeOn(SumGross(credits, CREDIT_PRICE_WEI), PROTOCOL_FEE_BPS)
         == SumFees(credits, CREDIT_PRICE_WEI, PROTOCOL_FEE_BPS)
  {
    if credits != [] {
      DefaultFeeIsAdditive(credits[1..]);
      var c := credits[0];
      assert c * CREDIT_PRICE_WEI * PROTOCOL_FEE_BPS == (c * 250_000_000_000) * BPS_DENOMINATOR;
      assert (c * CREDIT_PRICE_WEI * PROTOCOL_FEE_BPS) % BPS_DENOMINATOR == 0;
    }
    RollupFeeShortfall(credits, CREDIT_PRICE_WEI, PROTOCOL_FEE_BPS);
  }
}
