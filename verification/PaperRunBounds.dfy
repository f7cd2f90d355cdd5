/** Where the laws of matching runs end: a second run is idle exactly up to the listing limit, and
    grouping by account does not matter exactly when the closes are of one sign. */
module PaperRunBounds {
  import opened Wrappers
  import opened Sequences
  import opened OrderCandidates
  import opened CostModel
  import opened PnlTracker
  import opened SimulationBroker
  import opened PaperRuns

  // ---------------------------------------------------------------- orders nobody can pay for

  /** A pending market BUY at a positive close that costs more than its account's cash. */
  ghost predicate Unaffordable(book: Book, rates: FillRates, prices: Prices, id: nat)
    requires BookOk(book)
  {
    && id < |book.orders|
    && var o := book.orders[id];
       && Pending(o.status) && o.terms.side == Buy && o.terms.limitPrice.None?
       && o.terms.symbol in prices && prices[o.terms.symbol] > 0.0
       && book.accounts[o.accountId].cash < PaperCosts(rates, Buy, prices[o.terms.symbol], o.terms.quantity).net
  }

  lemma UnaffordableTurn(book: Book, rates: FillRates, prices: Prices, id: nat)
    requires BookOk(book) && Unaffordable(book, rates, prices, id)
    ensures Process(book, rates, prices, id)
            == (book.(orders := book.orders[id := book.orders[id].(status := VirtualStatus.Rejected)]), RejectedNow)
  {
  }

  /** A run over such orders rejects each of them and changes nothing else. */
  lemma {:induction false} UnaffordableRun(book: Book, rates: FillRates, prices: Prices, ids: seq<nat>)
    requires BookOk(book) && IdsOk(book, ids) && Distinct(ids)
    requires forall k :: 0 <= k < |ids| ==> Unaffordable(book, rates, prices, ids[k])
    ensures var r := RunList(book, rates, prices, ids);
            && !r.raised && r.book.accounts == book.accounts
            && forall id: nat :: id < |book.orders| ==>
                 r.book.orders[id]
                 == if id in ids then book.orders[id].(status := VirtualStatus.Rejected) else book.orders[id]
  {
    hide Process, PaperCosts;
    if ids != [] {
      var last := |ids| - 1;
      var front := ids[..last];
      UnaffordableRun(book, rates, prices, front);
      assert ids == front + [ids[last]] && ids[last] !in front;
      UnaffordableTurn(RunList(book, rates, prices, front).book, rates, prices, ids[last]);
    }
  }

  /** One share at a positive close costs more than nothing. */
  lemma ShareCostsMoney(rates: FillRates, price: real)
    requires RatesNonNegative(rates) && price > 0.0
    ensures PaperCosts(rates, Buy, price, 1).net > 0.0
  {
    NetIsGrossAndCosts(rates, Buy, price, 1);
  }

  function MarketBuy(account: int, symbol: string): VirtualOrder {
    VirtualOrder(account, OrderTerms(symbol, Buy, 1, None), Created, None)
  }

  const PENNILESS := Account(0.0, true, [])

  // ---------------------------------------------------------------- a second run of one account

  /** A second run for the account changes nothing and fills and rejects nothing. */
  ghost predicate SecondRunIdle(book: Book, rates: FillRates, prices: Prices, account: int)
    requires BookOk(book)
  {
    var once := RunAccount(book, rates, prices, account);
    var twice := RunAccount(once.book, rates, prices, account);
    twice.book == once.book && twice.tally.filled == [] && twice.tally.rejected == []
  }

  /** The account has at most n orders of each pending status. */
  ghost predicate AtMostPending(orders: seq<VirtualOrder>, account: int, n: nat) {
    && |Filter(Ids(|orders|), HasStatusOn(orders, Created, account))| <= n
    && |Filter(Ids(|orders|), HasStatusOn(orders, Submitted, account))| <= n
  }

  /** 10,001 market BUYs of one account without cash. */
  function Queue(symbol: string): Book {
    Book(map[7 := PENNILESS], seq(LIST_LIMIT + 1, i => MarketBuy(7, symbol)), [])
  }

  lemma QueueLength(symbol: string)
    ensures BookOk(Queue(symbol)) && |Queue(symbol).orders| == LIST_LIMIT + 1
    ensures |Filter(Ids(LIST_LIMIT + 1), HasStatusOn(Queue(symbol).orders, Created, 7))| == LIST_LIMIT + 1
    ensures |Filter(Ids(LIST_LIMIT + 1), HasStatusOn(Queue(symbol).orders, Submitted, 7))| == 0
  {
    hide Filter;
    var orders := Queue(symbol).orders;
    FilterAll(Ids(LIST_LIMIT + 1), HasStatusOn(orders, Created, 7));
    FilterMembers(Ids(LIST_LIMIT + 1), HasStatusOn(orders, Submitted, 7));
    EmptyOrInhabited(Filter(Ids(LIST_LIMIT + 1), HasStatusOn(orders, Submitted, 7)));
  }

  /** The first run rejects the 10,000 newest of them and misses the oldest; the second rejects it. */
  lemma SecondRunRejectsTheMissed(symbol: string) returns (rates: FillRates, prices: Prices, id: nat)
    ensures BookOk(Queue(symbol)) && id < |Queue(symbol).orders|
    ensures var once := RunAccount(Queue(symbol), rates, prices, 7).book;
            var twice := RunAccount(once, rates, prices, 7).book;
            once.orders[id].status == Created && twice.orders[id].status == VirtualStatus.Rejected
  {
    hide RunList, Candidates, Filter, Process, PaperCosts;
    rates, prices := PAPER_RATES, map[symbol := 1.0];
    var book := Queue(symbol);
    ShareCostsMoney(rates, 1.0);
    QueueLength(symbol);
    id := OldestIsLost(book.orders, 7, Created);
    var ids := Candidates(book.orders, Some(7));
    CandidatesDistinct(book.orders, Some(7));
    CandidatesMembers(book.orders, Some(7));
    UnaffordableRun(book, rates, prices, ids);
    var once := RunAccount(book, rates, prices, 7).book;
    RunMeetsTheMissed(symbol, book, once, ids, id);
    var again := Candidates(once.orders, Some(7));
    CandidatesDistinct(once.orders, Some(7));
    CandidatesMembers(once.orders, Some(7));
    ListedMembers(once.orders, Some(7));
    forall k | 0 <= k < |again| ensures Unaffordable(once, rates, prices, again[k]) {
      assert again[k] in again;
    }
    UnaffordableRun(once, rates, prices, again);
  }

  /** With an order rejected the listing is within its limit, so that it shows the missed one. */
  lemma RunMeetsTheMissed(symbol: string, book: Book, once: Book, ids: seq<nat>, missed: nat)
    requires book.orders == Queue(symbol).orders && |once.orders| == LIST_LIMIT + 1
    requires ids == Candidates(book.orders, Some(7))
    requires forall id: nat :: id < |book.orders| ==>
               once.orders[id]
               == if id in ids then book.orders[id].(status := VirtualStatus.Rejected) else book.orders[id]
    requires missed < |book.orders| && missed !in ids
    ensures missed in Candidates(once.orders, Some(7))
  {
    hide Candidates, Filter;
    QueueLength(symbol);
    var all := Ids(LIST_LIMIT + 1);
    SomethingListed(book.orders, ids);
    assert all[ids[0]] == ids[0];
    StrictlyFewerKept(all, HasStatusOn(once.orders, Created, 7), HasStatusOn(book.orders, Created, 7), ids[0]);
    FewerKept(all, HasStatusOn(once.orders, Submitted, 7), HasStatusOn(book.orders, Submitted, 7));
    AccountRunCoversExactly(once.orders, 7);
  }

  lemma SomethingListed(orders: seq<VirtualOrder>, ids: seq<nat>)
    requires ids == Candidates(orders, Some(7))
    requires |Filter(Ids(|orders|), HasStatusOn(orders, Created, 7))| > LIST_LIMIT
    ensures ids != [] && ids[0] < |orders| && orders[ids[0]].accountId == 7 && Pending(orders[ids[0]].status)
  {
    hide Candidates, Filter, Reversed;
    CandidatesMembers(orders, Some(7));
    ListedMembers(orders, Some(7));
    var listed := Listed(orders, Some(7));
    assert |multiset(ids)| == |multiset(listed)| && |listed| > 0;
    assert ids[0] in ids;
  }

  lemma {:induction false} StrictlyFewerKept(ids: seq<nat>, p: nat -> bool, q: nat -> bool, lost: nat)
    requires forall id: nat :: p(id) ==> q(id)
    requires lost in ids && q(lost) && !p(lost)
    ensures |Filter(ids, p)| < |Filter(ids, q)|
  {
    if ids[0] == lost {
      FewerKept(ids[1..], p, q);
    } else {
      assert ids == [ids[0]] + ids[1..];
      StrictlyFewerKept(ids[1..], p, q, lost);
    }
  }

  /** A second run for an account is idle in every book with at most n of its orders pending in each
      status, at any prices, exactly when n is within the listing limit. */
  lemma SecondRunIdleExactly(n: nat)
    ensures (forall book: Book, rates: FillRates, prices: Prices, account: int ::
               BookOk(book) && AtMostPending(book.orders, account, n) ==> SecondRunIdle(book, rates, prices, account))
            <==> n <= 10000
  {
    if n <= LIST_LIMIT {
      forall book: Book, rates: FillRates, prices: Prices, account: int |
        BookOk(book) && AtMostPending(book.orders, account, n)
        ensures SecondRunIdle(book, rates, prices, account)
      {
        SecondRunIsIdle(book, rates, prices, Some(account));
      }
    } else {
      var symbol := "005930";
      QueueLength(symbol);
      var rates, prices, id := SecondRunRejectsTheMissed(symbol);
      assert AtMostPending(Queue(symbol).orders, 7, n) && !SecondRunIdle(Queue(symbol), rates, prices, 7);
    }
  }

  // ---------------------------------------------------------------- closes of both signs

  predicate AllPositive(prices: Prices) {
    forall s :: s in prices ==> prices[s] > 0.0
  }

  predicate NonePositive(prices: Prices) {
    forall s :: s in prices ==> prices[s] <= 0.0
  }

  /** The accounts may be run one by one: none twice, and every pending order's among them. */
  ghost predicate Covers(accounts: seq<int>, book: Book) {
    && Distinct(accounts)
    && forall i :: 0 <= i < |book.orders| && Pending(book.orders[i].status) ==> book.orders[i].accountId in accounts
  }

  /** Running all accounts at once and one by one leave the same accounts, orders and fills. */
  ghost predicate GroupingAgrees(book: Book, rates: FillRates, prices: Prices, accounts: seq<int>)
    requires BookOk(book)
  {
    var all, each := RunAll(book, rates, prices).book, RunEach(book, rates, prices, accounts);
    all.accounts == each.accounts && all.orders == each.orders && multiset(all.fills) == multiset(each.fills)
  }

  /** At closes none of which is positive nothing changes. */
  lemma {:induction false} WorthlessRun(book: Book, rates: FillRates, prices: Prices, ids: seq<nat>)
    requires BookOk(book) && IdsOk(book, ids) && NonePositive(prices)
    ensures RunList(book, rates, prices, ids).book == book
  {
    if ids != [] {
      WorthlessRun(book, rates, prices, ids[..|ids| - 1]);
    }
  }

  lemma {:induction false} WorthlessRunEach(book: Book, rates: FillRates, prices: Prices, accounts: seq<int>)
    requires BookOk(book) && NonePositive(prices)
    ensures RunEach(book, rates, prices, accounts) == book
  {
    hide BookOk, RunList;
    if accounts != [] {
      var last := |accounts| - 1;
      WorthlessRunEach(book, rates, prices, accounts[..last]);
      CandidatesMembers(book.orders, Some(accounts[last]));
      WorthlessRun(book, rates, prices, Candidates(book.orders, Some(accounts[last])));
    }
  }

  /** An order that raises first stops a run before it changed anything. */
  lemma RaiseFirst(book: Book, rates: FillRates, prices: Prices, ids: seq<nat>)
    requires BookOk(book) && IdsOk(book, ids) && ids != [] && RaisesOn(book, prices, ids[0])
    ensures RunList(book, rates, prices, ids).book == book
  {
    hide Process, RaisesOn, BookOk;
    ProcessRaisesExactly(book, rates, prices, ids[0]);
    assert ids[..1][..0] == [] && ids[..1] == [ids[0]];
    RunListEmpty(book, rates, prices);
    RunListStep(book, rates, prices, ids, 0);
    RaisedStops(book, rates, prices, ids, 1);
  }

  /** Account 1 orders what has a worthless close, account 2 what has a positive one. */
  function TwoOrders(bad: string, good: string): Book {
    Book(map[1 := PENNILESS, 2 := PENNILESS], [MarketBuy(1, bad), MarketBuy(2, good)], [])
  }

  lemma FirstCandidate(bad: string, good: string, account: Option<int>)
    requires account.Some? ==> account.value == 1
    ensures var ids := Candidates(TwoOrders(bad, good).orders, account); ids != [] && ids[0] == 0
  {
    hide Candidates, WithinLimit;
    var orders := TwoOrders(bad, good).orders;
    ShortBook(orders);
    CandidatesArePending(orders, account);
    var ids := Candidates(orders, account);
    assert 0 in ids;
    var m :| 0 <= m < |ids| && ids[m] == 0;
    if m > 0 {
      assert ids[0] in ids;
      RunIsFifo(orders, account, 0, m);
    }
  }

  lemma ShortBook(orders: seq<VirtualOrder>)
    requires |orders| <= LIST_LIMIT
    ensures forall a: int :: WithinLimit(orders, a)
  {
    hide Filter;
    forall a: int ensures WithinLimit(orders, a) {
      CountIsFilterLength(Ids(|orders|), HasStatusOn(orders, Created, a));
      CountIsFilterLength(Ids(|orders|), HasStatusOn(orders, Submitted, a));
      CountAtMost(Ids(|orders|), HasStatusOn(orders, Created, a));
      CountAtMost(Ids(|orders|), HasStatusOn(orders, Submitted, a));
    }
  }

  lemma {:induction false} CountAtMost<T>(xs: seq<T>, p: T -> bool)
    ensures CountOf(xs, p) <= |xs|
  {
    if xs != [] { CountAtMost(xs[1..], p); }
  }

  /** Runs that meet the first order change nothing, whether over both accounts or over its own. */
  lemma FirstOrderRaises(bad: string, good: string, prices: Prices, account: Option<int>)
    requires bad in prices && prices[bad] <= 0.0 && (account.Some? ==> account.value == 1)
    ensures BookOk(TwoOrders(bad, good))
    ensures Matched(TwoOrders(bad, good), PAPER_RATES, prices, account).book == TwoOrders(bad, good)
  {
    hide RunList, Candidates;
    var book := TwoOrders(bad, good);
    FirstCandidate(bad, good, account);
    CandidatesMembers(book.orders, account);
    RaiseFirst(book, PAPER_RATES, prices, Candidates(book.orders, account));
  }

  /** A run over the second account alone rejects its order. */
  lemma SecondOrderIsRejected(bad: string, good: string, prices: Prices)
    requires good in prices && prices[good] > 0.0
    ensures BookOk(TwoOrders(bad, good))
    ensures RunAccount(TwoOrders(bad, good), PAPER_RATES, prices, 2).book.orders[1].status == VirtualStatus.Rejected
  {
    hide RunList, Candidates, WithinLimit, PaperCosts;
    var book := TwoOrders(bad, good);
    ShortBook(book.orders);
    ShareCostsMoney(PAPER_RATES, prices[good]);
    CandidatesArePending(book.orders, Some(2));
    CandidatesMembers(book.orders, Some(2));
    CandidatesDistinct(book.orders, Some(2));
    var ids := Candidates(book.orders, Some(2));
    forall k | 0 <= k < |ids| ensures Unaffordable(book, PAPER_RATES, prices, ids[k]) {
      assert ids[k] in ids;
    }
    UnaffordableRun(book, PAPER_RATES, prices, ids);
    assert 1 in ids;
  }

  /** The run over both accounts stops at the first; one by one, the second order is rejected. */
  lemma RaiseCutsOthersOff(bad: string, good: string, prices: Prices)
    requires bad in prices && good in prices && prices[bad] <= 0.0 < prices[good]
    ensures var book := TwoOrders(bad, good);
            && BookOk(book) && Covers([1, 2], book) && (forall a: int :: WithinLimit(book.orders, a))
            && RunAll(book, PAPER_RATES, prices).book == book
            && |RunEach(book, PAPER_RATES, prices, [1, 2]).orders| == 2
            && RunEach(book, PAPER_RATES, prices, [1, 2]).orders[1].status == VirtualStatus.Rejected
  {
    hide Matched, WithinLimit, RunEach;
    var book := TwoOrders(bad, good);
    ShortBook(book.orders);
    FirstOrderRaises(bad, good, prices, None);
    FirstOrderRaises(bad, good, prices, Some(1));
    SecondOrderIsRejected(bad, good, prices);
    RunEachOfTwo(book, PAPER_RATES, prices, 1, 2);
    RunAccountKeepsSize(book, PAPER_RATES, prices, 2);
  }

  lemma RunAccountKeepsSize(book: Book, rates: FillRates, prices: Prices, account: int)
    requires BookOk(book)
    ensures |RunAccount(book, rates, prices, account).book.orders| == |book.orders|
  {
  }

  lemma RunEachOfTwo(book: Book, rates: FillRates, prices: Prices, first: int, second: int)
    requires BookOk(book)
    ensures RunEach(book, rates, prices, [first, second])
            == RunAccount(RunAccount(book, rates, prices, first).book, rates, prices, second).book
  {
    hide RunAccount;
    assert [first, second][..1] == [first] && [first][..0] == [];
    assert RunEach(book, rates, prices, [first]) == RunAccount(book, rates, prices, first).book;
  }

  /** For given closes, running all accounts at once agrees with running them one by one in any order,
      in every book whose listings the limit does not cut, exactly when the closes are all positive or
      none of them is. */
  lemma GroupingAgreesExactly(prices: Prices)
    ensures (forall book: Book, rates: FillRates, accounts: seq<int> ::
               BookOk(book) && (forall a: int :: WithinLimit(book.orders, a)) && Covers(accounts, book)
               ==> GroupingAgrees(book, rates, prices, accounts))
            <==> AllPositive(prices) || NonePositive(prices)
  {
    hide RunAll, RunEach, WithinLimit, BookOk, Covers;
    if AllPositive(prices) || NonePositive(prices) {
      forall book: Book, rates: FillRates, accounts: seq<int> |
        BookOk(book) && (forall a: int :: WithinLimit(book.orders, a)) && Covers(accounts, book)
        ensures GroupingAgrees(book, rates, prices, accounts)
      {
        OneSignAgrees(book, rates, prices, accounts);
      }
    } else {
      var bad :| bad in prices && prices[bad] <= 0.0;
      var good :| good in prices && prices[good] > 0.0;
      RaiseCutsOthersOff(bad, good, prices);
      var book := TwoOrders(bad, good);
      assert BookOk(book) && Covers([1, 2], book) && !GroupingAgrees(book, PAPER_RATES, prices, [1, 2]);
    }
  }

  lemma OneSignAgrees(book: Book, rates: FillRates, prices: Prices, accounts: seq<int>)
    requires AllPositive(prices) || NonePositive(prices)
    requires BookOk(book) && (forall a: int :: WithinLimit(book.orders, a)) && Covers(accounts, book)
    ensures GroupingAgrees(book, rates, prices, accounts)
  {
    hide BookOk, WithinLimit, RunList, RunEach;
    if AllPositive(prices) {
      RunAllEqualsRunEach(book, rates, prices, accounts);
    } else {
      CandidatesMembers(book.orders, None);
      WorthlessRun(book, rates, prices, Candidates(book.orders, None));
      WorthlessRunEach(book, rates, prices, accounts);
    }
  }
}
