/** Applying one fill to an account's cash and positions (app/paper/pnl_tracker.py and
    app/data/repositories/virtual_position.py). */
module PnlTracker {
  import opened Wrappers
  import opened Sequences
  import opened OrderCandidates
  import opened CostModel

  datatype Position = Position(symbol: string, quantity: int, avgCost: real, realizedPnl: real)

  datatype Account = Account(cash: real, paperEnabled: bool, positions: seq<Position>)

  datatype FillError = BadPrice | InsufficientCash | InsufficientPosition

  /** Row of the symbol, or the number of rows when there is none. */
  function FindPosition(positions: seq<Position>, symbol: string): (i: nat)
    ensures i <= |positions|
    ensures i < |positions| ==> positions[i].symbol == symbol
    ensures forall k :: 0 <= k < i ==> positions[k].symbol != symbol
  {
    if positions == [] || positions[0].symbol == symbol then 0 else 1 + FindPosition(positions[1..], symbol)
  }

  function HeldQuantity(a: Account, symbol: string): int {
    var i := FindPosition(a.positions, symbol);
    if i < |a.positions| then a.positions[i].quantity else 0
  }

  /** The new total is zero for no positive fill. */
  function Bought(p: Position, quantity: int, cashSpent: real): Position {
    var newQuantity := p.quantity + quantity;
    if newQuantity == 0 then p
    else p.(quantity := newQuantity,
            avgCost := (p.avgCost * (p.quantity as real) + cashSpent) / (newQuantity as real))
  }

  function Sold(p: Position, quantity: int, cashReceived: real): Position {
    p.(quantity := p.quantity - quantity,
       avgCost := if p.quantity == quantity then 0.0 else p.avgCost,
       realizedPnl := p.realizedPnl + (cashReceived - p.avgCost * (quantity as real)))
  }

  /** The account after a fill, or why the fill is refused; a refusal changes nothing. */
  function ApplyFill(a: Account, rates: FillRates, terms: OrderTerms, price: real): Result<Account, FillError> {
    if price <= 0.0 then Failure(BadPrice)
    else
      var net := PaperCosts(rates, terms.side, price, terms.quantity).net;
      var i := FindPosition(a.positions, terms.symbol);
      match terms.side
      case Buy =>
        if a.cash < net then Failure(InsufficientCash)
        else if i < |a.positions| then
          Success(a.(cash := a.cash - net, positions := a.positions[i := Bought(a.positions[i], terms.quantity, net)]))
        else
          Success(a.(cash := a.cash - net,
                     positions := a.positions + [Bought(Position(terms.symbol, 0, 0.0, 0.0), terms.quantity, net)]))
      case Sell =>
        if HeldQuantity(a, terms.symbol) < terms.quantity || i == |a.positions| then Failure(InsufficientPosition)
        else
          Success(a.(cash := a.cash + net, positions := a.positions[i := Sold(a.positions[i], terms.quantity, net)]))
  }

  // ---------------------------------------------------------------- what a fill conserves

  function BookValue(): Position -> real {
    (p: Position) => p.avgCost * (p.quantity as real) - p.realizedPnl
  }

  /** Cash plus what the open positions cost, less the realised profit. */
  function PaidIn(a: Account): real {
    a.cash + SumOf(a.positions, BookValue())
  }

  /** No overdraft, no short position, no two rows of one symbol. */
  ghost predicate Solvent(a: Account) {
    && a.cash >= 0.0
    && (forall i :: 0 <= i < |a.positions| ==> a.positions[i].quantity >= 0)
    && (forall i, j :: 0 <= i < j < |a.positions| ==> a.positions[i].symbol != a.positions[j].symbol)
  }

  lemma BoughtBookValue(p: Position, quantity: int, net: real)
    requires p.quantity >= 0 && quantity > 0
    ensures BookValue()(Bought(p, quantity, net)) == BookValue()(p) + net
  {
    var n := (p.quantity + quantity) as real;
    var cost := p.avgCost * (p.quantity as real) + net;
    assert cost / n * n == cost;
  }

  lemma SoldBookValue(p: Position, quantity: int, net: real)
    ensures BookValue()(Sold(p, quantity, net)) == BookValue()(p) - net
  {
    var q, s := p.quantity as real, quantity as real;
    assert (p.quantity - quantity) as real == q - s;
    assert p.avgCost * (q - s) == p.avgCost * q - p.avgCost * s;
  }

  /** A fill moves money between cash, cost basis and realised profit and creates none; it
      never overdraws the account or sells what is not held. */
  lemma FillConservesPaidIn(a: Account, rates: FillRates, terms: OrderTerms, price: real)
    requires Solvent(a) && RatesNonNegative(rates) && terms.quantity > 0
    ensures var r := ApplyFill(a, rates, terms, price);
            r.Success? ==> Solvent(r.value) && PaidIn(r.value) == PaidIn(a)
  {
    hide BookValue, Bought, Sold, PaperCosts;
    var r := ApplyFill(a, rates, terms, price);
    if r.Success? {
      NetIsGrossAndCosts(rates, terms.side, price, terms.quantity);
      var net := PaperCosts(rates, terms.side, price, terms.quantity).net;
      var i := FindPosition(a.positions, terms.symbol);
      if i < |a.positions| {
        var p, p' := a.positions[i], r.value.positions[i];
        SumOfUpdate(a.positions, i, p', BookValue());
        if terms.side == Buy {
          BoughtBookValue(p, terms.quantity, net);
          BoughtRow(p, terms.quantity, net);
        } else {
          SoldBookValue(p, terms.quantity, net);
          SoldRow(p, terms.quantity, net);
        }
      } else {
        var p := Position(terms.symbol, 0, 0.0, 0.0);
        var p' := Bought(p, terms.quantity, net);
        BoughtBookValue(p, terms.quantity, net);
        BoughtRow(p, terms.quantity, net);
        EmptyBookValue(terms.symbol);
        SumOfAppend(a.positions, [p'], BookValue());
        assert SumOf([p'], BookValue()) == BookValue()(p') by { assert [p'][1..] == []; }
      }
    }
  }

  lemma EmptyBookValue(symbol: string)
    ensures BookValue()(Position(symbol, 0, 0.0, 0.0)) == 0.0
  {
  }

  lemma BoughtRow(p: Position, quantity: int, net: real)
    requires p.quantity >= 0 && quantity > 0
    ensures var p' := Bought(p, quantity, net);
            p'.symbol == p.symbol && p'.quantity == p.quantity + quantity && p'.realizedPnl == p.realizedPnl
  {
  }

  lemma SoldRow(p: Position, quantity: int, net: real)
    ensures var p' := Sold(p, quantity, net); p'.symbol == p.symbol && p'.quantity == p.quantity - quantity
  {
  }

  // ---------------------------------------------------------------- what a fill does

  /** The row of the symbol, or an empty one. */
  function RowOf(a: Account, symbol: string): Position {
    var i := FindPosition(a.positions, symbol);
    if i < |a.positions| then a.positions[i] else Position(symbol, 0, 0.0, 0.0)
  }

  /** The account after a fill: the cash moves by the net amount and only the symbol's row changes. A
      BUY adds the shares and carries the cash spent in the average cost; a SELL takes them out at the
      average cost and books the rest of the cash received as profit. */
  ghost predicate Filled(a: Account, after: Account, terms: OrderTerms, net: real) {
    var i, p, p' := FindPosition(a.positions, terms.symbol), RowOf(a, terms.symbol), RowOf(after, terms.symbol);
    && after.paperEnabled == a.paperEnabled
    && after.positions == (if i < |a.positions| then a.positions[i := p'] else a.positions + [p'])
    && p'.symbol == terms.symbol
    && match terms.side
       case Buy =>
         && after.cash == a.cash - net
         && if p.quantity + terms.quantity == 0 then p' == p
            else && p'.quantity == p.quantity + terms.quantity && p'.realizedPnl == p.realizedPnl
                 && p'.avgCost * (p'.quantity as real) == p.avgCost * (p.quantity as real) + net
       case Sell =>
         && after.cash == a.cash + net
         && p'.quantity == p.quantity - terms.quantity
         && p'.avgCost == (if p'.quantity == 0 then 0.0 else p.avgCost)
         && p'.realizedPnl == p.realizedPnl + net - p.avgCost * (terms.quantity as real)
  }

  lemma FoundAgain(positions: seq<Position>, symbol: string, p: Position)
    requires p.symbol == symbol
    ensures var i := FindPosition(positions, symbol);
            var after := if i < |positions| then positions[i := p] else positions + [p];
            FindPosition(after, symbol) == i && after[i] == p
  {
  }

  lemma BoughtExactly(p: Position, quantity: int, net: real)
    ensures var p' := Bought(p, quantity, net);
            if p.quantity + quantity == 0 then p' == p
            else && p'.symbol == p.symbol && p'.quantity == p.quantity + quantity && p'.realizedPnl == p.realizedPnl
                 && p'.avgCost * (p'.quantity as real) == p.avgCost * (p.quantity as real) + net
  {
    var n := p.quantity + quantity;
    if n != 0 {
      var cost := p.avgCost * (p.quantity as real) + net;
      assert cost / (n as real) * (n as real) == cost;
    }
  }

  /** A fill at a price that is not positive is an error; otherwise a BUY is refused exactly when the
      cash does not cover its net amount, a SELL exactly when fewer shares are held. */
  lemma FillExactly(a: Account, rates: FillRates, terms: OrderTerms, price: real)
    requires terms.quantity > 0
    ensures var r, net := ApplyFill(a, rates, terms, price), PaperCosts(rates, terms.side, price, terms.quantity).net;
            && (price <= 0.0 <==> r == Failure(BadPrice))
            && (r == Failure(InsufficientCash) <==> price > 0.0 && terms.side == Buy && a.cash < net)
            && (r == Failure(InsufficientPosition)
                <==> price > 0.0 && terms.side == Sell && RowOf(a, terms.symbol).quantity < terms.quantity)
            && (r.Success? ==> Filled(a, r.value, terms, net))
  {
    hide PaperCosts, Bought, Sold, Filled;
    var r, net := ApplyFill(a, rates, terms, price), PaperCosts(rates, terms.side, price, terms.quantity).net;
    if r.Success? {
      var p := RowOf(a, terms.symbol);
      FilledRow(a, r.value, terms, net,
                if terms.side == Buy then Bought(p, terms.quantity, net) else Sold(p, terms.quantity, net));
    }
  }

  lemma FilledRow(a: Account, after: Account, terms: OrderTerms, net: real, p': Position)
    requires p' == (if terms.side == Buy then Bought(RowOf(a, terms.symbol), terms.quantity, net)
                    else Sold(RowOf(a, terms.symbol), terms.quantity, net))
    requires var i := FindPosition(a.positions, terms.symbol);
             after.positions == if i < |a.positions| then a.positions[i := p'] else a.positions + [p']
    requires after.paperEnabled == a.paperEnabled
    requires after.cash == if terms.side == Buy then a.cash - net else a.cash + net
    ensures Filled(a, after, terms, net)
  {
    BoughtExactly(RowOf(a, terms.symbol), terms.quantity, net);
    SoldExactly(RowOf(a, terms.symbol), terms.quantity, net);
    hide Bought, Sold;
    FoundAgain(a.positions, terms.symbol, p');
  }

  lemma SoldExactly(p: Position, quantity: int, net: real)
    ensures var p' := Sold(p, quantity, net);
            && p'.symbol == p.symbol && p'.quantity == p.quantity - quantity
            && p'.avgCost == (if p'.quantity == 0 then 0.0 else p.avgCost)
            && p'.realizedPnl == p.realizedPnl + net - p.avgCost * (quantity as real)
  {
  }
}
