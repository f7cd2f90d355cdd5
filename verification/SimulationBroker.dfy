/** The paper order book of app/broker/simulation_broker.py. An order's id is its row's position. */
module SimulationBroker {
  import opened Wrappers
  import opened Sequences
  import opened Strings
  import opened OrderCandidates
  import opened CostModel
  import opened PnlTracker

  datatype VirtualStatus = Created | Submitted | PartiallyFilled | Filled | Canceled | Rejected

  datatype VirtualOrder = VirtualOrder(accountId: int, terms: OrderTerms, status: VirtualStatus, key: Option<string>)

  datatype VirtualFill = VirtualFill(orderId: nat, accountId: int, terms: OrderTerms, price: real, costs: FillCosts)

  datatype Book = Book(accounts: map<int, Account>, orders: seq<VirtualOrder>, fills: seq<VirtualFill>)

  /** The closes a matching run sees, by symbol. */
  type Prices = map<string, real>

  const LIST_LIMIT := 10000

  predicate Pending(s: VirtualStatus) {
    s == Created || s == Submitted
  }

  // ---------------------------------------------------------------- submitting and cancelling

  datatype OrderType = Market | Limit

  datatype OrderRequest = OrderRequest(
    accountId: int, symbol: string, side: Side, quantity: int,
    orderType: OrderType, limitPrice: Option<real>, key: Option<string>)

  datatype SubmitError = TradingDisabled | AccountNotFound | InvalidOrder

  datatype Submitted' = Submitted'(orderId: nat, deduplicated: bool)

  function FindKey(orders: seq<VirtualOrder>, accountId: int, key: string): (i: nat)
    ensures i <= |orders|
    ensures i < |orders| ==> orders[i].accountId == accountId && orders[i].key == Some(key)
    ensures forall k :: 0 <= k < i ==> !(orders[k].accountId == accountId && orders[k].key == Some(key))
  {
    if orders == [] || (orders[0].accountId == accountId && orders[0].key == Some(key)) then 0
    else 1 + FindKey(orders[1..], accountId, key)
  }

  predicate ValidRequest(r: OrderRequest) {
    && r.quantity > 0
    && Strip(r.symbol) != []
    && if r.orderType == Limit then r.limitPrice.Some? && r.limitPrice.value > 0.0 else r.limitPrice.None?
  }

  function Submit(book: Book, paperEnabled: bool, r: OrderRequest): (Book, Result<Submitted', SubmitError>) {
    if !paperEnabled then (book, Failure(TradingDisabled))
    else if r.accountId !in book.accounts then (book, Failure(AccountNotFound))
    else if !book.accounts[r.accountId].paperEnabled then (book, Failure(TradingDisabled))
    else if !ValidRequest(r) then (book, Failure(InvalidOrder))
    else
      var existing := if r.key.Some? then FindKey(book.orders, r.accountId, r.key.value) else |book.orders|;
      if existing < |book.orders| then (book, Success(Submitted'(existing, true)))
      else
        var o := VirtualOrder(r.accountId, OrderTerms(r.symbol, r.side, r.quantity, r.limitPrice), Created, r.key);
        (book.(orders := book.orders + [o]), Success(Submitted'(|book.orders|, false)))
  }

  function Cancel(book: Book, id: nat): (Book, bool) {
    if id < |book.orders| && Pending(book.orders[id].status) then
      (book.(orders := book.orders[id := book.orders[id].(status := Canceled)]), true)
    else (book, false)
  }

  // ---------------------------------------------------------------- matching one order

  datatype Verdict = SkippedTerminal | SkippedNoPrice | SkippedLimitUnmet | FilledNow | RejectedNow | RaisedNow

  predicate LimitUnmet(terms: OrderTerms, price: real) {
    terms.limitPrice.Some? &&
    if terms.side == Buy then price > terms.limitPrice.value else price < terms.limitPrice.value
  }

  predicate BookOk(book: Book) {
    forall i :: 0 <= i < |book.orders| ==>
      book.orders[i].accountId in book.accounts && book.orders[i].terms.quantity > 0
  }

  /** One turn of the matching loop. A close that is not positive makes apply_fill raise. */
  function Process(book: Book, rates: FillRates, prices: Prices, id: nat): (Book, Verdict)
    requires BookOk(book) && id < |book.orders|
  {
    var o := book.orders[id];
    if !Pending(o.status) then (book, SkippedTerminal)
    else if o.terms.symbol !in prices then (book, SkippedNoPrice)
    else
      var price := prices[o.terms.symbol];
      if LimitUnmet(o.terms, price) then (book, SkippedLimitUnmet)
      else
        match ApplyFill(book.accounts[o.accountId], rates, o.terms, price)
        case Failure(e) =>
          if e == BadPrice then (book, RaisedNow)
          else (book.(orders := book.orders[id := o.(status := VirtualStatus.Rejected)]), RejectedNow)
        case Success(account) =>
          var costs := PaperCosts(rates, o.terms.side, price, o.terms.quantity);
          (Book(book.accounts[o.accountId := account],
                book.orders[id := o.(status := Filled)],
                book.fills + [VirtualFill(id, o.accountId, o.terms, price, costs)]),
           FilledNow)
  }

  lemma ProcessKeepsBookOk(book: Book, rates: FillRates, prices: Prices, id: nat)
    requires BookOk(book) && id < |book.orders|
    ensures var after := Process(book, rates, prices, id).0;
            && BookOk(after) && |after.orders| == |book.orders|
            && forall i :: 0 <= i < |book.orders| ==>
                 after.orders[i].accountId == book.orders[i].accountId && after.orders[i].terms == book.orders[i].terms
                 && after.orders[i].key == book.orders[i].key && (i != id ==> after.orders[i] == book.orders[i])
  {
  }

  // ---------------------------------------------------------------- a matching run

  datatype Tally = Tally(filled: seq<nat>, rejected: seq<nat>, noPrice: nat, limitUnmet: nat, terminal: nat)

  const NO_TALLY := Tally([], [], 0, 0, 0)

  function Counted(t: Tally, id: nat, v: Verdict): Tally {
    match v
    case SkippedTerminal => t.(terminal := t.terminal + 1)
    case SkippedNoPrice => t.(noPrice := t.noPrice + 1)
    case SkippedLimitUnmet => t.(limitUnmet := t.limitUnmet + 1)
    case FilledNow => t.(filled := t.filled + [id])
    case RejectedNow => t.(rejected := t.rejected + [id])
    case RaisedNow => t
  }

  /** The book after a run, its summary, and whether an error escaped from it. */
  datatype Outcome = Outcome(book: Book, tally: Tally, raised: bool)

  ghost predicate IdsOk(book: Book, ids: seq<nat>) {
    forall k :: 0 <= k < |ids| ==> ids[k] < |book.orders|
  }

  /** Matching the listed orders in turn, up to the first that raises. */
  function RunList(book: Book, rates: FillRates, prices: Prices, ids: seq<nat>): (r: Outcome)
    requires BookOk(book) && IdsOk(book, ids)
    ensures BookOk(r.book) && |r.book.orders| == |book.orders|
    ensures forall i :: 0 <= i < |book.orders| ==>
              r.book.orders[i].accountId == book.orders[i].accountId && r.book.orders[i].terms == book.orders[i].terms
              && r.book.orders[i].key == book.orders[i].key
  {
    if ids == [] then Outcome(book, NO_TALLY, false)
    else
      var last := |ids| - 1;
      var before := RunList(book, rates, prices, ids[..last]);
      if before.raised then before
      else
        var step := Process(before.book, rates, prices, ids[last]);
        ProcessKeepsBookOk(before.book, rates, prices, ids[last]);
        Outcome(step.0, Counted(before.tally, ids[last], step.1), step.1 == RaisedNow)
  }

  // ---------------------------------------------------------------- which orders, in which order

  function Ids(n: nat): (ids: seq<nat>)
    ensures |ids| == n && forall i :: 0 <= i < n ==> ids[i] == i
  {
    seq(n, i => i)
  }

  function HasStatus(orders: seq<VirtualOrder>, s: VirtualStatus): nat -> bool {
    (id: nat) => id < |orders| && orders[id].status == s
  }

  function OnAccount(orders: seq<VirtualOrder>, account: int): nat -> bool {
    (id: nat) => id < |orders| && orders[id].accountId == account
  }

  function HasStatusOn(orders: seq<VirtualOrder>, s: VirtualStatus, account: int): nat -> bool {
    (id: nat) => id < |orders| && orders[id].status == s && orders[id].accountId == account
  }

  function Reversed<T>(xs: seq<T>): (ys: seq<T>)
    ensures |ys| == |xs|
  {
    if xs == [] then [] else Reversed(xs[1..]) + [xs[0]]
  }

  function Take<T>(xs: seq<T>, n: nat): seq<T> {
    if n <= |xs| then xs[..n] else xs
  }

  /** Every order with the status, oldest first. */
  function ListGlobal(orders: seq<VirtualOrder>, s: VirtualStatus): seq<nat> {
    Filter(Ids(|orders|), HasStatus(orders, s))
  }

  /** The account's newest orders with the status, newest first, up to the listing limit. */
  function ListByAccount(orders: seq<VirtualOrder>, account: int, s: VirtualStatus): seq<nat> {
    Take(Reversed(Filter(Ids(|orders|), HasStatusOn(orders, s, account))), LIST_LIMIT)
  }

  /** The sort key of the run: account, then id. */
  function Fifo(orders: seq<VirtualOrder>): (nat, nat) -> bool {
    (i: nat, j: nat) =>
      i < |orders| && j < |orders| &&
      (orders[i].accountId < orders[j].accountId || (orders[i].accountId == orders[j].accountId && i < j))
  }

  function Listed(orders: seq<VirtualOrder>, account: Option<int>): seq<nat> {
    match account
    case None => ListGlobal(orders, Created) + ListGlobal(orders, Submitted)
    case Some(a) => ListByAccount(orders, a, Created) + ListByAccount(orders, a, Submitted)
  }

  function Candidates(orders: seq<VirtualOrder>, account: Option<int>): seq<nat> {
    SortBy(Listed(orders, account), Fifo(orders))
  }

  lemma {:induction false} ReversedMultiset<T>(xs: seq<T>)
    ensures multiset(Reversed(xs)) == multiset(xs)
  {
    if xs != [] {
      ReversedMultiset(xs[1..]);
      assert xs == [xs[0]] + xs[1..];
    }
  }

  lemma TakeMembers<T>(xs: seq<T>, n: nat)
    ensures forall x :: x in Take(xs, n) ==> x in xs
  {
  }

  lemma ReversedMembers<T>(xs: seq<T>)
    ensures forall x :: x in Reversed(xs) <==> x in xs
  {
    ReversedMultiset(xs);
    SameMembers(Reversed(xs), xs);
  }

  lemma ListedMembers(orders: seq<VirtualOrder>, account: Option<int>)
    ensures forall id :: id in Listed(orders, account) ==>
              id < |orders| && Pending(orders[id].status) && (account.Some? ==> orders[id].accountId == account.value)
    ensures account.None? ==> forall id: nat :: id < |orders| && Pending(orders[id].status) ==>
              id in Listed(orders, account)
  {
    var ids := Ids(|orders|);
    forall id: nat | id < |orders| ensures id in ids { assert ids[id] == id; }
    match account
    case None =>
      FilterMembers(ids, HasStatus(orders, Created));
      FilterMembers(ids, HasStatus(orders, Submitted));
    case Some(a) =>
      FilterMembers(ids, HasStatusOn(orders, Created, a));
      FilterMembers(ids, HasStatusOn(orders, Submitted, a));
      var created := Filter(ids, HasStatusOn(orders, Created, a));
      var submitted := Filter(ids, HasStatusOn(orders, Submitted, a));
      ReversedMembers(created);
      ReversedMembers(submitted);
      TakeMembers(Reversed(created), LIST_LIMIT);
      TakeMembers(Reversed(submitted), LIST_LIMIT);
  }

  lemma FifoIsStrictTotal(orders: seq<VirtualOrder>, ids: seq<nat>)
    requires forall k :: 0 <= k < |ids| ==> ids[k] < |orders|
    ensures StrictTotalOn(ids, Fifo(orders))
  {
  }

  lemma CandidatesMembers(orders: seq<VirtualOrder>, account: Option<int>)
    ensures multiset(Candidates(orders, account)) == multiset(Listed(orders, account))
    ensures forall id :: id in Candidates(orders, account) <==> id in Listed(orders, account)
    ensures forall k :: 0 <= k < |Candidates(orders, account)| ==> Candidates(orders, account)[k] < |orders|
    ensures Ordered(Candidates(orders, account), Fifo(orders))
    ensures StrictTotalOn(Candidates(orders, account), Fifo(orders))
  {
    var listed, before := Listed(orders, account), Fifo(orders);
    ListedMembers(orders, account);
    forall k | 0 <= k < |listed| ensures listed[k] < |orders| { assert listed[k] in listed; }
    FifoIsStrictTotal(orders, listed);
    SortByTotal<nat>(listed, before);
    var sorted := SortBy<nat>(listed, before);
    SameMembers(sorted, listed);
    forall k | 0 <= k < |sorted| ensures sorted[k] < |orders| { assert sorted[k] in sorted; }
  }

  // ---------------------------------------------------------------- the broker on its tables

  class PaperBroker {
    var accounts: map<int, Account>
    var orders: seq<VirtualOrder>
    var fills: seq<VirtualFill>

    function Contents(): Book
      reads this
    {
      Book(accounts, orders, fills)
    }

    constructor (accounts: map<int, Account>)
      ensures Contents() == Book(accounts, [], [])
    {
      this.accounts, orders, fills := accounts, [], [];
    }

    method SubmitOrder(paperEnabled: bool, r: OrderRequest) returns (result: Result<Submitted', SubmitError>)
      modifies this`orders
      ensures (Contents(), result) == Submit(old(Contents()), paperEnabled, r)
    {
      if !paperEnabled {
        return Failure(TradingDisabled);
      }
      if r.accountId !in accounts {
        return Failure(AccountNotFound);
      }
      if !accounts[r.accountId].paperEnabled {
        return Failure(TradingDisabled);
      }
      if !ValidRequest(r) {
        return Failure(InvalidOrder);
      }
      if r.key.Some? {
        var existing := FindKey(orders, r.accountId, r.key.value);
        if existing < |orders| {
          return Success(Submitted'(existing, true));
        }
      }
      var id := |orders|;
      var terms := OrderTerms(r.symbol, r.side, r.quantity, r.limitPrice);
      orders := orders + [VirtualOrder(r.accountId, terms, Created, r.key)];
      result := Success(Submitted'(id, false));
    }

    method CancelOrder(id: nat) returns (canceled: bool)
      modifies this`orders
      ensures (Contents(), canceled) == Cancel(old(Contents()), id)
    {
      canceled := id < |orders| && Pending(orders[id].status);
      if canceled {
        orders := orders[id := orders[id].(status := Canceled)];
      }
    }

    /** One turn of the loop, on the tables. */
    method MatchOrder(rates: FillRates, prices: Prices, id: nat) returns (verdict: Verdict)
      requires BookOk(Contents()) && id < |orders|
      modifies this
      ensures (Contents(), verdict) == Process(old(Contents()), rates, prices, id)
    {
      var o := orders[id];
      if !Pending(o.status) {
        return SkippedTerminal;
      }
      if o.terms.symbol !in prices {
        return SkippedNoPrice;
      }
      var price := prices[o.terms.symbol];
      if LimitUnmet(o.terms, price) {
        return SkippedLimitUnmet;
      }
      var r := ApplyFill(accounts[o.accountId], rates, o.terms, price);
      if r.Failure? {
        if r.error == BadPrice {
          return RaisedNow;
        }
        orders := orders[id := o.(status := VirtualStatus.Rejected)];
        return RejectedNow;
      }
      accounts := accounts[o.accountId := r.value];
      var costs := PaperCosts(rates, o.terms.side, price, o.terms.quantity);
      fills := fills + [VirtualFill(id, o.accountId, o.terms, price, costs)];
      orders := orders[id := o.(status := Filled)];
      verdict := FilledNow;
    }

    /** execute_pending_orders: lists, sorts and matches in a loop. */
    method ExecutePendingOrders(rates: FillRates, prices: Prices, account: Option<int>)
      returns (tally: Tally, raised: bool)
      requires BookOk(Contents())
      modifies this
      ensures forall k :: 0 <= k < |Candidates(old(orders), account)| ==>
                Candidates(old(orders), account)[k] < |old(orders)|
      ensures Outcome(Contents(), tally, raised)
              == RunList(old(Contents()), rates, prices, Candidates(old(orders), account))
    {
      hide RunList, Process, Candidates, BookOk;
      var ids := Candidates(orders, account);
      CandidatesMembers(orders, account);
      RunListEmpty(Contents(), rates, prices);
      ghost var start := Contents();
      ghost var run := RunList(start, rates, prices, []);
      tally, raised := NO_TALLY, false;
      var k := 0;
      assert ids[..0] == [];
      while k < |ids| && !raised
        invariant 0 <= k <= |ids|
        invariant run == RunList(start, rates, prices, ids[..k])
        invariant Contents() == run.book && tally == run.tally && raised == run.raised
      {
        RunListStep(start, rates, prices, ids, k);
        var verdict := MatchOrder(rates, prices, ids[k]);
        tally := Counted(tally, ids[k], verdict);
        raised := verdict == RaisedNow;
        k := k + 1;
        run := RunList(start, rates, prices, ids[..k]);
      }
      if raised {
        RaisedStops(start, rates, prices, ids, k);
      } else {
        assert ids[..k] == ids;
      }
    }
  }

  lemma RunListEmpty(book: Book, rates: FillRates, prices: Prices)
    requires BookOk(book)
    ensures RunList(book, rates, prices, []) == Outcome(book, NO_TALLY, false)
  {
  }

  lemma RunListStep(book: Book, rates: FillRates, prices: Prices, ids: seq<nat>, k: nat)
    requires BookOk(book) && IdsOk(book, ids) && k < |ids|
    ensures var r := RunList(book, rates, prices, ids[..k]);
            !r.raised ==>
              var step := Process(r.book, rates, prices, ids[k]);
              RunList(book, rates, prices, ids[..k + 1])
              == Outcome(step.0, Counted(r.tally, ids[k], step.1), step.1 == RaisedNow)
  {
    assert ids[..k + 1][..k] == ids[..k];
  }

  /** Nothing is matched after an error. */
  lemma {:induction false} RaisedStops(book: Book, rates: FillRates, prices: Prices, ids: seq<nat>, k: nat)
    requires BookOk(book) && IdsOk(book, ids) && k <= |ids| && IdsOk(book, ids[..k])
    requires RunList(book, rates, prices, ids[..k]).raised
    ensures RunList(book, rates, prices, ids) == RunList(book, rates, prices, ids[..k])
    decreases |ids|
  {
    if k < |ids| {
      var front := ids[..|ids| - 1];
      assert front[..k] == ids[..k];
      RaisedStops(book, rates, prices, front, k);
    } else {
      assert ids[..k] == ids;
    }
  }
}
