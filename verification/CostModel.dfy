/** The two cost models of app/backtest/cost_model.py. */
module CostModel {
  import opened Wrappers
  import opened OrderCandidates

  /** Rates of the backtest's single deduction, as fractions of the return. */
  datatype BacktestCosts = BacktestCosts(buyFee: real, sellFee: real, sellTax: real, slippage: real)

  const DEFAULT_COSTS := BacktestCosts(0.00015, 0.00015, 0.0020, 0.0010)

  function TotalCost(m: BacktestCosts): real {
    m.buyFee + m.sellFee + m.sellTax + m.slippage
  }

  /** Returns are in percent, the total cost a fraction. */
  function ApplyCost(m: BacktestCosts, rawReturn: Option<real>): Option<real> {
    match rawReturn
    case None => None
    case Some(r) => Some(r - TotalCost(m) * 100.0)
  }

  datatype FillRates = FillRates(buyFee: real, sellFee: real, sellTax: real, slippage: real)

  const PAPER_RATES := FillRates(0.00015, 0.00015, 0.0018, 0.0005)

  datatype FillCosts = FillCosts(gross: real, fee: real, stampTax: real, slippage: real, net: real)

  /** The cost split of one paper fill; a SELL never owes money. */
  function PaperCosts(rates: FillRates, side: Side, price: real, quantity: int): FillCosts {
    var gross := price * (quantity as real);
    match side
    case Buy =>
      FillCosts(gross, gross * rates.buyFee, 0.0, gross * rates.slippage,
                gross + gross * rates.buyFee + gross * rates.slippage)
    case Sell =>
      var net := gross - gross * rates.sellFee - gross * rates.sellTax - gross * rates.slippage;
      FillCosts(gross, gross * rates.sellFee, gross * rates.sellTax, gross * rates.slippage,
                if net < 0.0 then 0.0 else net)
  }

  predicate RatesNonNegative(rates: FillRates) {
    rates.buyFee >= 0.0 && rates.sellFee >= 0.0 && rates.sellTax >= 0.0 && rates.slippage >= 0.0
  }

  /** Cash moves by the gross amount plus the costs of a BUY or less the costs of a SELL, unless a
      SELL's costs exceed its gross amount; nothing is negative. */
  lemma NetIsGrossAndCosts(rates: FillRates, side: Side, price: real, quantity: int)
    requires RatesNonNegative(rates) && price > 0.0 && quantity > 0
    ensures var c := PaperCosts(rates, side, price, quantity);
            && c.gross > 0.0 && c.fee >= 0.0 && c.stampTax >= 0.0 && c.slippage >= 0.0 && c.net >= 0.0
            && (side == Buy ==> c.net == c.gross + c.fee + c.stampTax + c.slippage)
            && (side == Sell ==> c.net == 0.0 || c.net == c.gross - c.fee - c.stampTax - c.slippage)
            && (side == Sell && rates.sellFee + rates.sellTax + rates.slippage <= 1.0 ==>
                  c.net == c.gross - c.fee - c.stampTax - c.slippage)
  {
    var gross := price * (quantity as real);
    assert gross > 0.0;
    if side == Sell && rates.sellFee + rates.sellTax + rates.slippage <= 1.0 {
      var share := rates.sellFee + rates.sellTax + rates.slippage;
      assert gross * (1.0 - share) >= 0.0;
      assert gross * (1.0 - share) == gross - gross * rates.sellFee - gross * rates.sellTax - gross * rates.slippage;
    }
  }

  /** Each cost is its rate's share of the gross amount: fee and slippage on both sides, the tax on a SELL. */
  lemma CostsAreShares(rates: FillRates, side: Side, price: real, quantity: int)
    ensures var c := PaperCosts(rates, side, price, quantity);
            && c.gross == price * (quantity as real)
            && c.slippage == c.gross * rates.slippage
            && (side == Buy ==> c.fee == c.gross * rates.buyFee && c.stampTax == 0.0)
            && (side == Sell ==> c.fee == c.gross * rates.sellFee && c.stampTax == c.gross * rates.sellTax)
  {
  }

  /** At the default paper rates a BUY costs 6.5 and a SELL 24.5 basis points of its gross amount. */
  lemma DefaultPaperCosts(price: real, quantity: int)
    requires price > 0.0 && quantity > 0
    ensures var gross := price * (quantity as real);
            && PaperCosts(PAPER_RATES, Buy, price, quantity).net == gross * 1.00065
            && PaperCosts(PAPER_RATES, Sell, price, quantity).net == gross * 0.99755
  {
    assert price * (quantity as real) > 0.0;
  }
}
