/** What matching runs over the paper book mean: they do not depend on how accounts are grouped
    or ordered, a second run changes nothing, no order fills twice, and no money is created. */
module PaperRuns {
  import opened Wrappers
  import opened Sequences
  import opened OrderCandidates
  import opened CostModel
  import opened PnlTracker
  import opened SimulationBroker

  // ---------------------------------------------------------------- when a run raises

  /** A pending order whose close is not positive and whose limit does not keep it away: the only
      orders at which apply_fill raises. */
  predicate RaisesOn(book: Book, prices: Prices, id: nat) {
    && id < |book.orders| && Pending(book.orders[id].status)
    && var terms := book.orders[id].terms;
       && terms.symbol in prices && prices[terms.symbol] <= 0.0 && !LimitUnmet(terms, prices[terms.symbol])
  }

  lemma ProcessRaisesExactly(book: Book, rates: FillRates, prices: Prices, id: nat)
    requires BookOk(book) && id < |book.orders|
    ensures Process(book, rates, prices, id).1 == RaisedNow <==> RaisesOn(book, prices, id)
    ensures Process(book, rates, prices, id).1 == RaisedNow ==> Process(book, rates, prices, id).0 == book
    ensures forall other :: other != id ==>
              (RaisesOn(Process(book, rates, prices, id).0, prices, other) <==> RaisesOn(book, prices, other))
    ensures forall other :: RaisesOn(Process(book, rates, prices, id).0, prices, other) ==>
              RaisesOn(book, prices, other)
  {
    ProcessKeepsBookOk(book, rates, prices, id);
  }

  /** Matching a list of distinct orders raises exactly when one of them is priced at or below zero
      and not kept away by its limit, whatever happens to the orders before it. */
  lemma {:induction false} ListRaisesExactly(book: Book, rates: FillRates, prices: Prices, ids: seq<nat>)
    requires BookOk(book) && IdsOk(book, ids)
    requires forall i, j :: 0 <= i < j < |ids| ==> ids[i] != ids[j]
    ensures RunList(book, rates, prices, ids).raised <==> exists k :: 0 <= k < |ids| && RaisesOn(book, prices, ids[k])
    ensures !RunList(book, rates, prices, ids).raised ==>
              forall id :: id !in ids ==>
                (RaisesOn(RunList(book, rates, prices, ids).book, prices, id) <==> RaisesOn(book, prices, id))
  {
    hide Process, RaisesOn, BookOk;
    if ids != [] {
      var last := |ids| - 1;
      ListRaisesExactly(book, rates, prices, ids[..last]);
      RunListStep(book, rates, prices, ids, last);
      assert ids[..last + 1] == ids;
      var before := RunList(book, rates, prices, ids[..last]);
      if before.raised {
        RaisedStops(book, rates, prices, ids, last);
        var k :| 0 <= k < last && RaisesOn(book, prices, ids[..last][k]);
        assert RaisesOn(book, prices, ids[k]);
      } else {
        ProcessRaisesExactly(before.book, rates, prices, ids[last]);
        assert ids[last] !in ids[..last];
        assert forall k :: 0 <= k < last ==> ids[k] == ids[..last][k];
      }
    }
  }

  // ---------------------------------------------------------------- accounts are independent

  function FillOn(account: int): VirtualFill -> bool {
    (f: VirtualFill) => f.accountId == account
  }

  /** Two books of the same orders that look the same from one account. */
  ghost predicate SameOn(b: Book, c: Book, account: int) {
    && |b.orders| == |c.orders|
    && (forall i :: 0 <= i < |b.orders| ==> b.orders[i].accountId == c.orders[i].accountId)
    && (forall i :: 0 <= i < |b.orders| && b.orders[i].accountId == account ==> b.orders[i] == c.orders[i])
    && (account in b.accounts <==> account in c.accounts)
    && (account in b.accounts ==> b.accounts[account] == c.accounts[account])
    && Filter(b.fills, FillOn(account)) == Filter(c.fills, FillOn(account))
  }

  lemma FillOnAppend(fills: seq<VirtualFill>, f: VirtualFill, account: int)
    ensures Filter(fills + [f], FillOn(account))
            == Filter(fills, FillOn(account)) + if f.accountId == account then [f] else []
  {
    FilterAppend(fills, [f], FillOn(account));
    assert Filter([f], FillOn(account)) == if f.accountId == account then [f] else [] by { assert [f][1..] == []; }
  }

  /** Matching an order is the same step in two books that look the same from its account. */
  lemma ProcessIsLocal(b: Book, c: Book, rates: FillRates, prices: Prices, id: nat)
    requires BookOk(b) && BookOk(c) && id < |b.orders| && SameOn(b, c, b.orders[id].accountId)
    ensures Process(b, rates, prices, id).1 == Process(c, rates, prices, id).1
    ensures SameOn(Process(b, rates, prices, id).0, Process(c, rates, prices, id).0, b.orders[id].accountId)
  {
    var after := Process(b, rates, prices, id);
    if after.1 == FilledNow {
      var f := after.0.fills[|b.fills|];
      FillOnAppend(b.fills, f, f.accountId);
      FillOnAppend(c.fills, f, f.accountId);
    }
  }

  /** Matching an order is invisible from every other account. */
  lemma ProcessFrames(b: Book, rates: FillRates, prices: Prices, id: nat, account: int)
    requires BookOk(b) && id < |b.orders| && b.orders[id].accountId != account
    ensures SameOn(b, Process(b, rates, prices, id).0, account)
  {
    var after := Process(b, rates, prices, id);
    if after.1 == FilledNow {
      FillOnAppend(b.fills, after.0.fills[|b.fills|], account);
    }
  }

  lemma SameOnTrans(b: Book, c: Book, d: Book, account: int)
    requires SameOn(b, c, account) && SameOn(c, d, account)
    ensures SameOn(b, d, account) && SameOn(c, b, account)
  {
    hide FillOn;
  }

  lemma SameOnSelf(b: Book, account: int)
    ensures SameOn(b, b, account)
  {
  }

  lemma SameSize(b: Book, c: Book, account: int, ids: seq<nat>)
    requires SameOn(b, c, account) && IdsOk(b, ids)
    ensures |b.orders| == |c.orders| && IdsOk(c, Filter(ids, OnAccount(b.orders, account)))
  {
    FilterMembers(ids, OnAccount(b.orders, account));
    var own := Filter(ids, OnAccount(b.orders, account));
    forall k | 0 <= k < |own| ensures own[k] < |c.orders| { assert own[k] in own; }
  }

  ghost predicate NeverRaises(book: Book, prices: Prices) {
    forall id :: !RaisesOn(book, prices, id)
  }

  lemma {:induction false} CleanRun(book: Book, rates: FillRates, prices: Prices, ids: seq<nat>)
    requires BookOk(book) && IdsOk(book, ids) && NeverRaises(book, prices)
    ensures !RunList(book, rates, prices, ids).raised && NeverRaises(RunList(book, rates, prices, ids).book, prices)
  {
    if ids != [] {
      var last := |ids| - 1;
      CleanRun(book, rates, prices, ids[..last]);
      ProcessRaisesExactly(RunList(book, rates, prices, ids[..last]).book, rates, prices, ids[last]);
    }
  }

  lemma FilterLast(ids: seq<nat>, keep: nat -> bool)
    requires ids != []
    ensures var last := |ids| - 1;
            Filter(ids, keep) == Filter(ids[..last], keep) + if keep(ids[last]) then [ids[last]] else []
  {
    var last := |ids| - 1;
    assert ids == ids[..last] + [ids[last]];
    FilterAppend(ids[..last], [ids[last]], keep);
    assert [ids[last]][1..] == [];
  }

  /** One more order, matched in both books if it is the account's and only in the first if not. */
  lemma LocalStep(b: Book, c: Book, rates: FillRates, prices: Prices, id: nat, account: int)
    requires BookOk(b) && BookOk(c) && id < |b.orders| && SameOn(b, c, account)
    ensures SameOn(Process(b, rates, prices, id).0,
                   if b.orders[id].accountId == account then Process(c, rates, prices, id).0 else c, account)
  {
    hide BookOk, Process;
    if b.orders[id].accountId == account {
      ProcessIsLocal(b, c, rates, prices, id);
    } else {
      ProcessFrames(b, rates, prices, id, account);
      SameOnTrans(b, Process(b, rates, prices, id).0, b, account);
      SameOnTrans(Process(b, rates, prices, id).0, b, c, account);
    }
  }

  /** From one account, a run looks like the run over that account's own orders. */
  lemma {:induction false} RunIsLocal(b: Book, c: Book, rates: FillRates, prices: Prices, ids: seq<nat>, account: int)
    requires BookOk(b) && BookOk(c) && IdsOk(b, ids) && NeverRaises(b, prices) && NeverRaises(c, prices)
    requires SameOn(b, c, account)
    ensures IdsOk(c, Filter(ids, OnAccount(b.orders, account)))
    ensures SameOn(RunList(b, rates, prices, ids).book,
                   RunList(c, rates, prices, Filter(ids, OnAccount(b.orders, account))).book, account)
  {
    hide SameOn, BookOk, NeverRaises, Process;
    SameSize(b, c, account, ids);
    if ids != [] {
      var last, mine := |ids| - 1, OnAccount(b.orders, account);
      RunIsLocal(b, c, rates, prices, ids[..last], account);
      var own := Filter(ids[..last], mine);
      var b', c' := RunList(b, rates, prices, ids[..last]).book, RunList(c, rates, prices, own).book;
      CleanRun(b, rates, prices, ids[..last]);
      CleanRun(c, rates, prices, own);
      FilterLast(ids, mine);
      LocalStep(b', c', rates, prices, ids[last], account);
      if mine(ids[last]) {
        assert (own + [ids[last]])[..|own|] == own;
      } else {
        assert own + [] == own;
      }
    }
  }

  /** The listing of one account within the listing of all, when the limit cuts nothing. */
  ghost predicate WithinLimit(orders: seq<VirtualOrder>, account: int) {
    && |Filter(Ids(|orders|), HasStatusOn(orders, Created, account))| <= 10000
    && |Filter(Ids(|orders|), HasStatusOn(orders, Submitted, account))| <= 10000
  }

  lemma {:induction false} FilterKeepsOrder(ids: seq<nat>, before: (nat, nat) -> bool, keep: nat -> bool)
    requires Ordered(ids, before)
    ensures Ordered(Filter(ids, keep), before)
  {
    if ids != [] {
      FilterKeepsOrder(ids[1..], before, keep);
      FilterMembers(ids[1..], keep);
      var rest, all := Filter(ids[1..], keep), Filter(ids, keep);
      forall i, j | 0 <= i < j < |all| ensures !before(all[j], all[i]) {
        if keep(ids[0]) && i == 0 {
          assert all[j] == rest[j - 1] && rest[j - 1] in rest;
          var k :| 0 <= k < |ids[1..]| && ids[1..][k] == all[j];
          assert ids[k + 1] == all[j];
        }
      }
    }
  }

  lemma ListedOnAccount(orders: seq<VirtualOrder>, account: int)
    requires WithinLimit(orders, account)
    ensures multiset(Filter(Listed(orders, None), OnAccount(orders, account)))
            == multiset(Listed(orders, Some(account)))
  {
    var ids, mine := Ids(|orders|), OnAccount(orders, account);
    FilterAppend(ListGlobal(orders, Created), ListGlobal(orders, Submitted), mine);
    FilterFilter(ids, HasStatus(orders, Created), mine, HasStatusOn(orders, Created, account));
    FilterFilter(ids, HasStatus(orders, Submitted), mine, HasStatusOn(orders, Submitted, account));
    var created := Filter(ids, HasStatusOn(orders, Created, account));
    var submitted := Filter(ids, HasStatusOn(orders, Submitted, account));
    ReversedMultiset(created);
    ReversedMultiset(submitted);
    assert Take(Reversed(created), LIST_LIMIT) == Reversed(created);
    assert Take(Reversed(submitted), LIST_LIMIT) == Reversed(submitted);
  }

  /** A run over all accounts takes each account's orders in the sequence of its own run. */
  lemma CandidatesOnAccount(orders: seq<VirtualOrder>, account: int)
    requires WithinLimit(orders, account)
    ensures Filter(Candidates(orders, None), OnAccount(orders, account)) == Candidates(orders, Some(account))
  {
    var all, own := Candidates(orders, None), Candidates(orders, Some(account));
    var mine := OnAccount(orders, account);
    CandidatesMembers(orders, None);
    CandidatesMembers(orders, Some(account));
    FilterPermutation(all, Listed(orders, None), mine);
    ListedOnAccount(orders, account);
    FilterKeepsOrder(all, Fifo(orders), mine);
    TotalOnPermutation<nat>(own, Filter(all, mine), Fifo(orders));
    OrderedUnique<nat>(Filter(all, mine), own, Fifo(orders));
  }

  ghost predicate Increasing(ids: seq<nat>) {
    forall i, j :: 0 <= i < j < |ids| ==> ids[i] < ids[j]
  }

  lemma {:induction false} FilterIncreasing(ids: seq<nat>, keep: nat -> bool)
    requires Increasing(ids)
    ensures Increasing(Filter(ids, keep))
  {
    if ids != [] {
      FilterIncreasing(ids[1..], keep);
      FilterMembers(ids[1..], keep);
      var rest, all := Filter(ids[1..], keep), Filter(ids, keep);
      forall i, j | 0 <= i < j < |all| ensures all[i] < all[j] {
        if keep(ids[0]) && i == 0 {
          assert all[j] == rest[j - 1] && rest[j - 1] in rest;
          assert all[j] in ids[1..];
        }
      }
    }
  }

  lemma {:induction false} ReversedAt<T>(xs: seq<T>, k: nat)
    requires k < |xs|
    ensures Reversed(xs)[k] == xs[|xs| - 1 - k]
  {
    if k < |xs| - 1 { ReversedAt(xs[1..], k); }
  }

  /** A listing over the limit drops the oldest order. */
  lemma LimitDropsOldest(ids: seq<nat>, n: nat)
    requires Increasing(ids) && |ids| > n
    ensures ids[0] !in Take(Reversed(ids), n)
  {
    var shown := Take(Reversed(ids), n);
    forall k | 0 <= k < n ensures shown[k] != ids[0] {
      ReversedAt(ids, k);
    }
  }

  lemma OldestIsLost(orders: seq<VirtualOrder>, account: int, s: VirtualStatus) returns (id: nat)
    requires Pending(s) && |Filter(Ids(|orders|), HasStatusOn(orders, s, account))| > LIST_LIMIT
    ensures id < |orders| && orders[id].accountId == account && Pending(orders[id].status)
    ensures id !in Candidates(orders, Some(account))
  {
    var listed := Filter(Ids(|orders|), HasStatusOn(orders, s, account));
    id := listed[0];
    assert id in listed;
    FilterMembers(Ids(|orders|), HasStatusOn(orders, s, account));
    FilterIncreasing(Ids(|orders|), HasStatusOn(orders, s, account));
    LimitDropsOldest(listed, LIST_LIMIT);
    CandidatesMembers(orders, Some(account));
    ListedByStatus(orders, account, if s == Created then Submitted else Created);
  }

  /** A run for one account reaches every pending order of it exactly when neither status has more
      than the listing limit of 10,000. */
  lemma AccountRunCoversExactly(orders: seq<VirtualOrder>, account: int)
    ensures (forall id: nat :: id < |orders| && orders[id].accountId == account && Pending(orders[id].status) ==>
               id in Candidates(orders, Some(account)))
            <==> WithinLimit(orders, account)
  {
    if WithinLimit(orders, account) {
      CandidatesOnAccount(orders, account);
      CandidatesMembers(orders, None);
      ListedMembers(orders, None);
      FilterMembers(Candidates(orders, None), OnAccount(orders, account));
    } else if |Filter(Ids(|orders|), HasStatusOn(orders, Created, account))| > LIST_LIMIT {
      var id := OldestIsLost(orders, account, Created);
    } else {
      var id := OldestIsLost(orders, account, Submitted);
    }
  }

  /** 10,001 pending orders of one account: its oldest is not among the candidates of its run. */
  lemma OverlongListing() returns (orders: seq<VirtualOrder>, id: nat)
    ensures |orders| == 10001
    ensures forall o :: o in orders ==> o.accountId == 7 && o.status == Created
    ensures id < |orders| && id !in Candidates(orders, Some(7))
  {
    hide Candidates, Filter;
    orders := seq(LIST_LIMIT + 1, i => VirtualOrder(7, OrderTerms("005930", Buy, 1, None), Created, None));
    FilterAll(Ids(|orders|), HasStatusOn(orders, Created, 7));
    id := OldestIsLost(orders, 7, Created);
  }

  lemma ListingDistinct(orders: seq<VirtualOrder>, account: int, s: VirtualStatus)
    ensures Distinct(ListGlobal(orders, s)) && Distinct(ListByAccount(orders, account, s))
  {
    hide Filter;
    var ids := Ids(|orders|);
    FilterIncreasing(ids, HasStatus(orders, s));
    var listed := Filter(ids, HasStatusOn(orders, s, account));
    FilterIncreasing(ids, HasStatusOn(orders, s, account));
    ReversedMultiset(listed);
    DistinctPermutes(listed, Reversed(listed));
  }

  lemma DistinctUnion<T>(xs: seq<T>, ys: seq<T>)
    requires Distinct(xs) && Distinct(ys) && forall x :: x in xs ==> x !in ys
    ensures Distinct(xs + ys)
  {
    forall i, j | 0 <= i < j < |xs + ys| ensures (xs + ys)[i] != (xs + ys)[j] {
      if i < |xs| <= j {
        assert xs[i] in xs && ys[j - |xs|] in ys;
      }
    }
  }

  lemma ListedByStatus(orders: seq<VirtualOrder>, account: int, s: VirtualStatus)
    ensures forall id :: id in ListGlobal(orders, s) ==> id < |orders| && orders[id].status == s
    ensures forall id :: id in ListByAccount(orders, account, s) ==> id < |orders| && orders[id].status == s
  {
    hide Filter;
    FilterMembers(Ids(|orders|), HasStatus(orders, s));
    var listed := Filter(Ids(|orders|), HasStatusOn(orders, s, account));
    FilterMembers(Ids(|orders|), HasStatusOn(orders, s, account));
    ReversedMembers(listed);
    TakeMembers(Reversed(listed), LIST_LIMIT);
  }

  /** No order is a candidate twice. */
  lemma CandidatesDistinct(orders: seq<VirtualOrder>, account: Option<int>)
    ensures Distinct(Candidates(orders, account))
  {
    hide ListGlobal, ListByAccount, Candidates;
    var a := if account.Some? then account.value else 0;
    ListingDistinct(orders, a, Created);
    ListingDistinct(orders, a, Submitted);
    ListedByStatus(orders, a, Created);
    ListedByStatus(orders, a, Submitted);
    match account {
      case None => DistinctUnion(ListGlobal(orders, Created), ListGlobal(orders, Submitted));
      case Some(_) => DistinctUnion(ListByAccount(orders, a, Created), ListByAccount(orders, a, Submitted));
    }
    CandidatesMembers(orders, account);
    DistinctPermutes(Listed(orders, account), Candidates(orders, account));
  }

  /** Within an account a run takes orders in strictly increasing id, also in a run over all accounts. */
  lemma RunIsFifo(orders: seq<VirtualOrder>, account: Option<int>, i: nat, j: nat)
    requires i < j < |Candidates(orders, account)|
    ensures var ids := Candidates(orders, account);
            && ids[i] < |orders| && ids[j] < |orders|
            && orders[ids[i]].accountId <= orders[ids[j]].accountId
            && (orders[ids[i]].accountId == orders[ids[j]].accountId ==> ids[i] < ids[j])
  {
    hide Candidates;
    var ids := Candidates(orders, account);
    CandidatesMembers(orders, account);
    CandidatesDistinct(orders, account);
    assert !Fifo(orders)(ids[j], ids[i]);
  }

  lemma SameOrdersOnAccount(b: Book, c: Book, account: int)
    requires SameOn(b, c, account)
    ensures Candidates(b.orders, Some(account)) == Candidates(c.orders, Some(account))
    ensures WithinLimit(b.orders, account) <==> WithinLimit(c.orders, account)
  {
    var ids := Ids(|b.orders|);
    FilterCongruence(ids, HasStatusOn(b.orders, Created, account), HasStatusOn(c.orders, Created, account));
    FilterCongruence(ids, HasStatusOn(b.orders, Submitted, account), HasStatusOn(c.orders, Submitted, account));
    SortCongruence(Listed(b.orders, Some(account)), Fifo(b.orders), Fifo(c.orders));
  }

  lemma {:induction false} InsertCongruence(x: nat, ids: seq<nat>, p: (nat, nat) -> bool, q: (nat, nat) -> bool)
    requires forall i: nat, j: nat :: p(i, j) == q(i, j)
    ensures Insert(x, ids, p) == Insert(x, ids, q)
  {
    if ids != [] { InsertCongruence(x, ids[1..], p, q); }
  }

  lemma {:induction false} SortCongruence(ids: seq<nat>, p: (nat, nat) -> bool, q: (nat, nat) -> bool)
    requires forall i: nat, j: nat :: p(i, j) == q(i, j)
    ensures SortBy(ids, p) == SortBy(ids, q)
  {
    if ids != [] {
      SortCongruence(ids[1..], p, q);
      InsertCongruence(ids[0], SortBy(ids[1..], p), p, q);
    }
  }

  /** One run, over all accounts or over one. */
  function Matched(book: Book, rates: FillRates, prices: Prices, account: Option<int>): Outcome
    requires BookOk(book)
  {
    CandidatesMembers(book.orders, account);
    RunList(book, rates, prices, Candidates(book.orders, account))
  }

  /** execute_pending_orders raises exactly when one of its candidates is priced at or below zero and
      not kept away by its limit. */
  lemma RunRaisesExactly(book: Book, rates: FillRates, prices: Prices, account: Option<int>)
    requires BookOk(book)
    ensures Matched(book, rates, prices, account).raised <==>
            exists id :: id in Candidates(book.orders, account) && RaisesOn(book, prices, id)
  {
    hide Candidates, RunList, RaisesOn, BookOk;
    var ids := Candidates(book.orders, account);
    CandidatesMembers(book.orders, account);
    CandidatesDistinct(book.orders, account);
    ListRaisesExactly(book, rates, prices, ids);
    assert forall k :: 0 <= k < |ids| ==> ids[k] in ids;
  }

  /** One market order and a close of zero: the run raises. */
  lemma ZeroCloseRaises(rates: FillRates) returns (book: Book, prices: Prices)
    ensures BookOk(book) && |book.orders| == 1 && prices == map["005930" := 0.0]
    ensures Matched(book, rates, prices, None).raised
  {
    hide Candidates, RunList;
    var order := VirtualOrder(7, OrderTerms("005930", Buy, 1, None), Created, None);
    book := Book(map[7 := Account(1000.0, true, [])], [order], []);
    prices := map["005930" := 0.0];
    CandidatesArePending(book.orders, None);
    assert 0 in Candidates(book.orders, None) && RaisesOn(book, prices, 0);
    RunRaisesExactly(book, rates, prices, None);
  }

  /** One run for all accounts. */
  function RunAll(book: Book, rates: FillRates, prices: Prices): Outcome
    requires BookOk(book)
  {
    Matched(book, rates, prices, None)
  }

  function RunAccount(book: Book, rates: FillRates, prices: Prices, account: int): Outcome
    requires BookOk(book)
  {
    Matched(book, rates, prices, Some(account))
  }

  /** One run per listed account, in turn. */
  function RunEach(book: Book, rates: FillRates, prices: Prices, accounts: seq<int>): (r: Book)
    requires BookOk(book)
    ensures BookOk(r)
  {
    if accounts == [] then book
    else
      var last := |accounts| - 1;
      RunAccount(RunEach(book, rates, prices, accounts[..last]), rates, prices, accounts[last]).book
  }

  lemma RunAccountFrames(book: Book, rates: FillRates, prices: Prices, mine: int, account: int)
    requires BookOk(book) && NeverRaises(book, prices) && mine != account
    ensures SameOn(RunAccount(book, rates, prices, mine).book, book, account)
  {
    var ids := Candidates(book.orders, Some(mine));
    CandidatesMembers(book.orders, Some(mine));
    ListedMembers(book.orders, Some(mine));
    RunIsLocal(book, book, rates, prices, ids, account);
    FilterMembers(ids, OnAccount(book.orders, account));
    var none := Filter(ids, OnAccount(book.orders, account));
    EmptyOrInhabited(none);
  }

  lemma {:induction false} RunEachIsClean(book: Book, rates: FillRates, prices: Prices, accounts: seq<int>)
    requires BookOk(book) && NeverRaises(book, prices)
    ensures NeverRaises(RunEach(book, rates, prices, accounts), prices)
  {
    if accounts != [] {
      var last := |accounts| - 1;
      RunEachIsClean(book, rates, prices, accounts[..last]);
      var before := RunEach(book, rates, prices, accounts[..last]);
      CandidatesMembers(before.orders, Some(accounts[last]));
      CleanRun(before, rates, prices, Candidates(before.orders, Some(accounts[last])));
    }
  }

  /** From one account, running every account in turn looks like running that account alone. */
  lemma {:induction false} RunEachOnAccount(book: Book, rates: FillRates, prices: Prices, accounts: seq<int>,
                                            account: int)
    requires BookOk(book) && NeverRaises(book, prices)
    requires forall i, j :: 0 <= i < j < |accounts| ==> accounts[i] != accounts[j]
    ensures SameOn(RunEach(book, rates, prices, accounts),
                   if account in accounts then RunAccount(book, rates, prices, account).book else book, account)
  {
    hide SameOn, BookOk, NeverRaises, RunAccount;
    SameOnSelf(book, account);
    if accounts != [] {
      var last := |accounts| - 1;
      RunEachOnAccount(book, rates, prices, accounts[..last], account);
      RunEachIsClean(book, rates, prices, accounts[..last]);
      var before := RunEach(book, rates, prices, accounts[..last]);
      if accounts[last] == account {
        assert account !in accounts[..last];
        SameOrdersOnAccount(before, book, account);
        RunAccountLocal(before, book, rates, prices, account);
      } else {
        RunAccountFrames(before, rates, prices, accounts[last], account);
        assert account in accounts <==> account in accounts[..last];
        SameOnTrans(RunEach(book, rates, prices, accounts), before,
                    if account in accounts then RunAccount(book, rates, prices, account).book else book, account);
      }
    }
  }

  lemma {:induction false} FilterAll(ids: seq<nat>, keep: nat -> bool)
    requires forall id :: id in ids ==> keep(id)
    ensures Filter(ids, keep) == ids
  {
    if ids != [] { FilterAll(ids[1..], keep); }
  }

  lemma RunAccountLocal(b: Book, c: Book, rates: FillRates, prices: Prices, account: int)
    requires BookOk(b) && BookOk(c) && NeverRaises(b, prices) && NeverRaises(c, prices) && SameOn(b, c, account)
    ensures SameOn(RunAccount(b, rates, prices, account).book, RunAccount(c, rates, prices, account).book, account)
  {
    hide SameOn, BookOk, NeverRaises, Listed, RunList, Candidates;
    SameOrdersOnAccount(b, c, account);
    var ids := Candidates(b.orders, Some(account));
    CandidatesMembers(c.orders, Some(account));
    CandidatesMembers(b.orders, Some(account));
    ListedMembers(b.orders, Some(account));
    RunIsLocal(b, c, rates, prices, ids, account);
    FilterAll(ids, OnAccount(b.orders, account));
  }

  /** Running all accounts at once gives, from every account, the same account, orders and fills
      as running the accounts one by one in any order. */
  lemma GroupingDoesNotMatter(book: Book, rates: FillRates, prices: Prices, accounts: seq<int>, account: int)
    requires BookOk(book) && NeverRaises(book, prices) && WithinLimit(book.orders, account)
    requires forall i, j :: 0 <= i < j < |accounts| ==> accounts[i] != accounts[j]
    requires forall i :: 0 <= i < |book.orders| && Pending(book.orders[i].status) ==>
               book.orders[i].accountId in accounts
    ensures SameOn(RunAll(book, rates, prices).book, RunEach(book, rates, prices, accounts), account)
  {
    hide SameOn, BookOk, NeverRaises, WithinLimit, RunAll, RunEach, RunAccount;
    RunAllOnAccount(book, rates, prices, account);
    RunEachOnAccount(book, rates, prices, accounts, account);
    var alone, each := RunAccount(book, rates, prices, account).book, RunEach(book, rates, prices, accounts);
    if account !in accounts {
      NothingHappens(book, rates, prices, account, accounts);
    }
    SameOnSelf(alone, account);
    SameOnTrans(each, alone, alone, account);
    SameOnTrans(RunAll(book, rates, prices).book, alone, each, account);
  }

  /** From one account, running everything looks like running that account alone. */
  lemma RunAllOnAccount(book: Book, rates: FillRates, prices: Prices, account: int)
    requires BookOk(book) && NeverRaises(book, prices) && WithinLimit(book.orders, account)
    ensures SameOn(RunAll(book, rates, prices).book, RunAccount(book, rates, prices, account).book, account)
  {
    hide SameOn, BookOk, NeverRaises, WithinLimit, RunList, Candidates;
    CandidatesMembers(book.orders, None);
    CandidatesOnAccount(book.orders, account);
    SameOnSelf(book, account);
    RunIsLocal(book, book, rates, prices, Candidates(book.orders, None), account);
  }

  lemma NothingHappens(book: Book, rates: FillRates, prices: Prices, account: int, accounts: seq<int>)
    requires BookOk(book) && account !in accounts
    requires forall i :: 0 <= i < |book.orders| && Pending(book.orders[i].status) ==>
               book.orders[i].accountId in accounts
    ensures RunAccount(book, rates, prices, account).book == book
  {
    NothingToRun(book, account, accounts);
  }

  lemma NothingToRun(book: Book, account: int, accounts: seq<int>)
    requires forall i :: 0 <= i < |book.orders| && Pending(book.orders[i].status) ==>
               book.orders[i].accountId in accounts
    requires account !in accounts
    ensures Candidates(book.orders, Some(account)) == []
  {
    var ids := Candidates(book.orders, Some(account));
    CandidatesMembers(book.orders, Some(account));
    ListedMembers(book.orders, Some(account));
    EmptyOrInhabited(ids);
  }

  /** Books that look the same from every account are the same up to the sequence of their fills. */
  lemma SameEverywhere(b: Book, c: Book)
    requires forall a: int :: SameOn(b, c, a)
    ensures b.accounts == c.accounts && b.orders == c.orders && multiset(b.fills) == multiset(c.fills)
  {
    assert SameOn(b, c, 0);
    forall i | 0 <= i < |b.orders| ensures b.orders[i] == c.orders[i] {
      assert SameOn(b, c, b.orders[i].accountId);
    }
    assert b.accounts.Keys == c.accounts.Keys by {
      forall a: int ensures a in b.accounts <==> a in c.accounts { assert SameOn(b, c, a); }
    }
    forall a | a in b.accounts ensures b.accounts[a] == c.accounts[a] { assert SameOn(b, c, a); }
    forall f: VirtualFill ensures multiset(b.fills)[f] == multiset(c.fills)[f] {
      assert SameOn(b, c, f.accountId);
      FillMultiplicity(b.fills, f);
      FillMultiplicity(c.fills, f);
    }
  }

  /** Hence the two ways of running agree on the whole book, up to the sequence of the fill rows. */
  lemma RunAllEqualsRunEach(book: Book, rates: FillRates, prices: Prices, accounts: seq<int>)
    requires BookOk(book) && NeverRaises(book, prices) && forall a :: WithinLimit(book.orders, a)
    requires forall i, j :: 0 <= i < j < |accounts| ==> accounts[i] != accounts[j]
    requires forall i :: 0 <= i < |book.orders| && Pending(book.orders[i].status) ==>
               book.orders[i].accountId in accounts
    ensures var all, each := RunAll(book, rates, prices).book, RunEach(book, rates, prices, accounts);
            && all.accounts == each.accounts
            && all.orders == each.orders
            && multiset(all.fills) == multiset(each.fills)
  {
    var all, each := RunAll(book, rates, prices).book, RunEach(book, rates, prices, accounts);
    forall a: int ensures SameOn(all, each, a) {
      GroupingDoesNotMatter(book, rates, prices, accounts, a);
    }
    SameEverywhere(all, each);
  }

  lemma {:induction false} FillMultiplicity(fills: seq<VirtualFill>, f: VirtualFill)
    ensures multiset(fills)[f] == multiset(Filter(fills, FillOn(f.accountId)))[f]
  {
    if fills != [] {
      FillMultiplicity(fills[1..], f);
      assert fills == [fills[0]] + fills[1..];
    }
  }

  // ---------------------------------------------------------------- a second run changes nothing

  /** A pending order the run cannot match at these prices. */
  ghost predicate Stuck(book: Book, prices: Prices, id: nat) {
    && id < |book.orders|
    && var terms := book.orders[id].terms;
       terms.symbol !in prices || LimitUnmet(terms, prices[terms.symbol])
  }

  ghost predicate Settled(book: Book, prices: Prices, id: nat) {
    id < |book.orders| && (!Pending(book.orders[id].status) || Stuck(book, prices, id))
  }

  lemma ProcessSettles(book: Book, rates: FillRates, prices: Prices, id: nat)
    requires BookOk(book) && id < |book.orders| && !RaisesOn(book, prices, id)
    ensures Settled(Process(book, rates, prices, id).0, prices, id)
    ensures forall other :: Settled(book, prices, other) ==> Settled(Process(book, rates, prices, id).0, prices, other)
    ensures forall other: nat ::
              other < |book.orders| && Pending(Process(book, rates, prices, id).0.orders[other].status) ==>
              Process(book, rates, prices, id).0.orders[other].status == book.orders[other].status
  {
    ProcessKeepsBookOk(book, rates, prices, id);
    ProcessRaisesExactly(book, rates, prices, id);
  }

  /** After a run, every order it reached is settled; if it raised, that is at an order which
      would raise again. No order became pending. */
  lemma {:induction false} RunSettles(book: Book, rates: FillRates, prices: Prices, ids: seq<nat>)
    requires BookOk(book) && IdsOk(book, ids)
    ensures var r := RunList(book, rates, prices, ids);
            if r.raised then exists k :: 0 <= k < |ids| && RaisesOn(r.book, prices, ids[k])
                                         && forall j :: 0 <= j < k ==> Settled(r.book, prices, ids[j])
            else forall j :: 0 <= j < |ids| ==> Settled(r.book, prices, ids[j])
    ensures forall id: nat ::
              id < |book.orders| && Pending(RunList(book, rates, prices, ids).book.orders[id].status) ==>
              RunList(book, rates, prices, ids).book.orders[id].status == book.orders[id].status
  {
    hide Process, Settled, RaisesOn, BookOk;
    if ids != [] {
      var last := |ids| - 1;
      var front := ids[..last];
      RunSettles(book, rates, prices, front);
      var before := RunList(book, rates, prices, front);
      var r := RunList(book, rates, prices, ids);
      if before.raised {
        var k :| 0 <= k < last && RaisesOn(before.book, prices, front[k])
                 && forall j :: 0 <= j < k ==> Settled(before.book, prices, front[j]);
        assert r.book == before.book && ids[k] == front[k] && forall j :: 0 <= j < k ==> ids[j] == front[j];
      } else {
        ProcessRaisesExactly(before.book, rates, prices, ids[last]);
        assert forall j :: 0 <= j < last ==> ids[j] == front[j];
        if !r.raised {
          ProcessSettles(before.book, rates, prices, ids[last]);
        }
      }
    }
  }

  /** A run does nothing on orders that are settled or come after one that raises. */
  lemma {:induction false} IdleRun(book: Book, rates: FillRates, prices: Prices, ids: seq<nat>)
    requires BookOk(book) && IdsOk(book, ids)
    requires forall j :: 0 <= j < |ids| ==>
               Settled(book, prices, ids[j]) || exists i :: 0 <= i <= j && RaisesOn(book, prices, ids[i])
    ensures var r := RunList(book, rates, prices, ids);
            r.book == book && r.tally.filled == [] && r.tally.rejected == []
            && (r.raised <==> exists i :: 0 <= i < |ids| && RaisesOn(book, prices, ids[i]))
  {
    hide Process, Settled, RaisesOn, BookOk;
    if ids != [] {
      var last := |ids| - 1;
      var front := ids[..last];
      assert forall j :: 0 <= j < last ==> ids[j] == front[j];
      forall j | 0 <= j < last
        ensures Settled(book, prices, front[j]) || exists i :: 0 <= i <= j && RaisesOn(book, prices, front[i])
      {
        if !Settled(book, prices, ids[j]) {
          var i :| 0 <= i <= j && RaisesOn(book, prices, ids[i]);
          assert RaisesOn(book, prices, front[i]);
        }
      }
      IdleRun(book, rates, prices, front);
      ProcessRaisesExactly(book, rates, prices, ids[last]);
      if !RunList(book, rates, prices, front).raised {
        IdleStep(book, rates, prices, ids[last]);
      }
    }
  }

  lemma IdleStep(book: Book, rates: FillRates, prices: Prices, id: nat)
    requires BookOk(book) && id < |book.orders| && (Settled(book, prices, id) || RaisesOn(book, prices, id))
    ensures var step := Process(book, rates, prices, id);
            step.0 == book && step.1 != FilledNow && step.1 != RejectedNow
  {
    ProcessRaisesExactly(book, rates, prices, id);
  }

  lemma {:induction false} FewerKept(ids: seq<nat>, p: nat -> bool, q: nat -> bool)
    requires forall id: nat :: p(id) ==> q(id)
    ensures |Filter(ids, p)| <= |Filter(ids, q)|
  {
    if ids != [] { FewerKept(ids[1..], p, q); }
  }

  /** With fewer pending orders a listing stays within its limit. */
  lemma LimitPersists(before: seq<VirtualOrder>, after: seq<VirtualOrder>, account: int)
    requires |before| == |after| && WithinLimit(before, account)
    requires forall i :: 0 <= i < |after| && Pending(after[i].status) ==> after[i].status == before[i].status
    requires forall i :: 0 <= i < |after| ==> after[i].accountId == before[i].accountId
    ensures WithinLimit(after, account)
  {
    FewerKept(Ids(|after|), HasStatusOn(after, Created, account), HasStatusOn(before, Created, account));
    FewerKept(Ids(|after|), HasStatusOn(after, Submitted, account), HasStatusOn(before, Submitted, account));
  }

  ghost predicate ListsAll(orders: seq<VirtualOrder>, account: Option<int>) {
    account.Some? ==> WithinLimit(orders, account.value)
  }

  /** When the limit cuts nothing the candidates are exactly the pending orders asked for. */
  lemma CandidatesArePending(orders: seq<VirtualOrder>, account: Option<int>)
    requires ListsAll(orders, account)
    ensures forall id: nat :: id in Candidates(orders, account) <==>
              id < |orders| && Pending(orders[id].status) && (account.Some? ==> orders[id].accountId == account.value)
  {
    CandidatesMembers(orders, account);
    ListedMembers(orders, account);
    if account.Some? { AccountRunCoversExactly(orders, account.value); }
  }

  /** The orders of a second run that are not settled come after one that raises. */
  lemma SecondRunMeetsSettled(book: Book, once: Book, prices: Prices, account: Option<int>, k: nat, j: nat)
    requires |once.orders| == |book.orders| && forall i :: 0 <= i < |book.orders| ==>
               once.orders[i].accountId == book.orders[i].accountId
    requires forall i :: 0 <= i < |book.orders| && Pending(once.orders[i].status) ==> Pending(book.orders[i].status)
    requires ListsAll(book.orders, account) && ListsAll(once.orders, account)
    requires k < |Candidates(book.orders, account)| && RaisesOn(once, prices, Candidates(book.orders, account)[k])
    requires forall m :: 0 <= m < k ==> Settled(once, prices, Candidates(book.orders, account)[m])
    requires j < |Candidates(once.orders, account)|
    ensures var again := Candidates(once.orders, account);
            Settled(once, prices, again[j]) || exists i :: 0 <= i <= j && RaisesOn(once, prices, again[i])
  {
    hide Candidates, ListsAll, Settled;
    var ids, again := Candidates(book.orders, account), Candidates(once.orders, account);
    CandidatesArePending(book.orders, account);
    CandidatesArePending(once.orders, account);
    CandidatesMembers(book.orders, account);
    CandidatesMembers(once.orders, account);
    assert again[j] in again && ids[k] in ids;
    var m :| 0 <= m < |ids| && ids[m] == again[j];
    assert ids[k] in again;
    var i :| 0 <= i < |again| && again[i] == ids[k];
    if m > k && i > j {
      assert !Fifo(book.orders)(ids[m], ids[k]);
      assert !Fifo(once.orders)(again[i], again[j]);
    }
  }

  /** For fixed prices a second run changes nothing, fills nothing and rejects nothing, over all
      accounts or over one, and also where the first was cut short by an error. */
  lemma SecondRunIsIdle(book: Book, rates: FillRates, prices: Prices, account: Option<int>)
    requires BookOk(book) && ListsAll(book.orders, account)
    ensures var once := Matched(book, rates, prices, account);
            var twice := Matched(once.book, rates, prices, account);
            && twice.book == once.book && twice.tally.filled == [] && twice.tally.rejected == []
            && (twice.raised <==> once.raised)
  {
    hide RunList, Candidates, Settled, RaisesOn, BookOk, Process, WithinLimit;
    var ids := Candidates(book.orders, account);
    CandidatesMembers(book.orders, account);
    RunSettles(book, rates, prices, ids);
    var once := Matched(book, rates, prices, account);
    var again := Candidates(once.book.orders, account);
    CandidatesMembers(once.book.orders, account);
    if account.Some? { LimitPersists(book.orders, once.book.orders, account.value); }
    if once.raised {
      var k :| 0 <= k < |ids| && RaisesOn(once.book, prices, ids[k])
               && forall j :: 0 <= j < k ==> Settled(once.book, prices, ids[j]);
      forall j | 0 <= j < |again|
        ensures Settled(once.book, prices, again[j]) || exists i :: 0 <= i <= j && RaisesOn(once.book, prices, again[i])
      {
        SecondRunMeetsSettled(book, once.book, prices, account, k, j);
      }
      IdleRun(once.book, rates, prices, again);
      RaiserIsListed(book, once.book, prices, account, k);
    } else {
      forall j | 0 <= j < |again| ensures Settled(once.book, prices, again[j]) {
        SettledAgain(book, once.book, prices, account, again[j]);
      }
      forall j | 0 <= j < |again| ensures !RaisesOn(once.book, prices, again[j]) {
        SettledDoesNotRaise(once.book, prices, again[j]);
      }
      IdleRun(once.book, rates, prices, again);
    }
  }

  lemma SettledDoesNotRaise(book: Book, prices: Prices, id: nat)
    requires Settled(book, prices, id)
    ensures !RaisesOn(book, prices, id)
  {
  }

  lemma RaiserIsListed(book: Book, once: Book, prices: Prices, account: Option<int>, k: nat)
    requires |once.orders| == |book.orders| && forall i :: 0 <= i < |book.orders| ==>
               once.orders[i].accountId == book.orders[i].accountId
    requires ListsAll(book.orders, account) && ListsAll(once.orders, account)
    requires k < |Candidates(book.orders, account)| && RaisesOn(once, prices, Candidates(book.orders, account)[k])
    ensures var again := Candidates(once.orders, account);
            exists i :: 0 <= i < |again| && RaisesOn(once, prices, again[i])
  {
    hide Candidates, ListsAll;
    CandidatesArePending(book.orders, account);
    CandidatesArePending(once.orders, account);
    var ids, again := Candidates(book.orders, account), Candidates(once.orders, account);
    assert ids[k] in ids;
    assert ids[k] in again;
  }

  lemma SettledAgain(book: Book, once: Book, prices: Prices, account: Option<int>, id: nat)
    requires |once.orders| == |book.orders| && forall i :: 0 <= i < |book.orders| ==>
               once.orders[i].accountId == book.orders[i].accountId
    requires forall i :: 0 <= i < |book.orders| && Pending(once.orders[i].status) ==> Pending(book.orders[i].status)
    requires ListsAll(book.orders, account) && ListsAll(once.orders, account)
    requires forall m :: 0 <= m < |Candidates(book.orders, account)| ==>
               Settled(once, prices, Candidates(book.orders, account)[m])
    requires id in Candidates(once.orders, account)
    ensures Settled(once, prices, id)
  {
    hide Candidates, ListsAll, Settled;
    CandidatesArePending(book.orders, account);
    CandidatesArePending(once.orders, account);
    assert id in Candidates(book.orders, account);
  }

  // ---------------------------------------------------------------- the summary accounts for every order

  function TallySize(t: Tally): nat {
    |t.filled| + |t.rejected| + t.noPrice + t.limitUnmet + t.terminal
  }

  lemma {:induction false} TallyOfList(book: Book, rates: FillRates, prices: Prices, ids: seq<nat>)
    requires BookOk(book) && IdsOk(book, ids) && !RunList(book, rates, prices, ids).raised
    ensures TallySize(RunList(book, rates, prices, ids).tally) == |ids|
  {
    if ids != [] {
      TallyOfList(book, rates, prices, ids[..|ids| - 1]);
    }
  }

  /** Filled, rejected and skipped orders add up to the candidates of a run that completes; and none
      of them is skipped as terminal. */
  lemma TallyAccountsForAll(book: Book, rates: FillRates, prices: Prices, account: Option<int>)
    requires BookOk(book) && !Matched(book, rates, prices, account).raised
    ensures var r := Matched(book, rates, prices, account);
            TallySize(r.tally) == |Candidates(book.orders, account)| && r.tally.terminal == 0
  {
    hide Candidates, BookOk, Process;
    var ids := Candidates(book.orders, account);
    CandidatesMembers(book.orders, account);
    CandidatesDistinct(book.orders, account);
    ListedMembers(book.orders, account);
    TallyOfList(book, rates, prices, ids);
    forall k | 0 <= k < |ids| ensures Pending(book.orders[ids[k]].status) { assert ids[k] in ids; }
    NoneSkippedAsTerminal(book, rates, prices, ids);
  }

  /** Orders that are pending before the run are pending when their turn comes. */
  lemma {:induction false} NoneSkippedAsTerminal(book: Book, rates: FillRates, prices: Prices, ids: seq<nat>)
    requires BookOk(book) && IdsOk(book, ids) && Distinct(ids)
    requires forall k :: 0 <= k < |ids| ==> Pending(book.orders[ids[k]].status)
    ensures RunList(book, rates, prices, ids).tally.terminal == 0
    ensures forall id: nat :: id < |book.orders| && id !in ids ==>
              RunList(book, rates, prices, ids).book.orders[id] == book.orders[id]
  {
    hide BookOk, Process;
    if ids != [] {
      var last := |ids| - 1;
      var before := RunList(book, rates, prices, ids[..last]);
      NoneSkippedAsTerminal(book, rates, prices, ids[..last]);
      assert ids[last] !in ids[..last] && forall id :: id in ids[..last] ==> id in ids;
      if !before.raised {
        TurnOfPending(before.book, rates, prices, ids[last]);
        ProcessKeepsBookOk(before.book, rates, prices, ids[last]);
      }
    }
  }

  lemma TurnOfPending(book: Book, rates: FillRates, prices: Prices, id: nat)
    requires BookOk(book) && id < |book.orders| && Pending(book.orders[id].status)
    ensures Process(book, rates, prices, id).1 != SkippedTerminal
  {
  }

  // ---------------------------------------------------------------- every run of the broker

  datatype Operation =
    | SubmitOp(paperEnabled: bool, request: OrderRequest)
    | CancelOp(id: nat)
    | ExecuteOp(prices: Prices, account: Option<int>)

  function Apply(book: Book, rates: FillRates, op: Operation): Book
    requires BookOk(book)
  {
    match op
    case SubmitOp(enabled, request) => Submit(book, enabled, request).0
    case CancelOp(id) => Cancel(book, id).0
    case ExecuteOp(prices, account) =>
      Matched(book, rates, prices, account).book
  }

  function ApplyAll(book: Book, rates: FillRates, ops: seq<Operation>): (r: Book)
    requires BookOk(book)
    ensures BookOk(r)
  {
    if ops == [] then book
    else Apply(ApplyAll(book, rates, ops[..|ops| - 1]), rates, ops[|ops| - 1])
  }

  lemma ApplyAllStep(book: Book, rates: FillRates, op: Operation)
    requires BookOk(book)
    ensures BookOk(Apply(book, rates, op))
  {
    assert [op][..0] == [];
    assert ApplyAll(book, rates, [op]) == Apply(book, rates, op);
  }

  /** Only a submission adds an order, and the order carries its key. */
  lemma NewOrdersAreSubmitted(book: Book, rates: FillRates, op: Operation, k: nat)
    requires BookOk(book) && |book.orders| <= k < |Apply(book, rates, op).orders|
    ensures op.SubmitOp? && Apply(book, rates, op).orders[k].key == op.request.key
  {
  }

  function FillOf(id: nat): VirtualFill -> bool {
    (f: VirtualFill) => f.orderId == id
  }

  ghost predicate FillsMatchStatus(book: Book) {
    && (forall id :: 0 <= id < |book.orders| ==>
          CountOf(book.fills, FillOf(id)) == if book.orders[id].status == Filled then 1 else 0)
    && (forall f :: f in book.fills ==> f.orderId < |book.orders| && f.accountId == book.orders[f.orderId].accountId
                                        && f.terms == book.orders[f.orderId].terms)
  }

  lemma ProcessKeepsFills(book: Book, rates: FillRates, prices: Prices, id: nat)
    requires BookOk(book) && id < |book.orders| && FillsMatchStatus(book)
    ensures FillsMatchStatus(Process(book, rates, prices, id).0)
  {
    var after := Process(book, rates, prices, id);
    if after.1 == FilledNow {
      var f := after.0.fills[|book.fills|];
      assert after.0.fills == book.fills + [f];
      forall k | 0 <= k < |book.orders|
        ensures CountOf(after.0.fills, FillOf(k)) == CountOf(book.fills, FillOf(k)) + if k == id then 1 else 0
      {
        CountOfAppend(book.fills, [f], FillOf(k));
        assert [f][1..] == [];
      }
    }
  }

  lemma {:induction false} RunKeepsFills(book: Book, rates: FillRates, prices: Prices, ids: seq<nat>)
    requires BookOk(book) && IdsOk(book, ids) && FillsMatchStatus(book)
    ensures FillsMatchStatus(RunList(book, rates, prices, ids).book)
  {
    if ids != [] {
      var last := |ids| - 1;
      RunKeepsFills(book, rates, prices, ids[..last]);
      var before := RunList(book, rates, prices, ids[..last]);
      if !before.raised {
        ProcessKeepsFills(before.book, rates, prices, ids[last]);
      }
    }
  }

  lemma {:induction false} NoFillOf(fills: seq<VirtualFill>, id: nat)
    requires forall f :: f in fills ==> f.orderId != id
    ensures CountOf(fills, FillOf(id)) == 0
  {
    if fills != [] { NoFillOf(fills[1..], id); }
  }

  lemma OperationKeepsFills(book: Book, rates: FillRates, op: Operation)
    requires BookOk(book) && FillsMatchStatus(book)
    ensures FillsMatchStatus(Apply(book, rates, op))
  {
    match op
    case SubmitOp(enabled, request) => NoFillOf(book.fills, |book.orders|);
    case CancelOp(id) =>
    case ExecuteOp(prices, account) =>
      hide FillsMatchStatus;
      CandidatesMembers(book.orders, account);
      RunKeepsFills(book, rates, prices, Candidates(book.orders, account));
  }

  lemma {:induction false} OperationsKeepFills(book: Book, rates: FillRates, ops: seq<Operation>)
    requires BookOk(book) && FillsMatchStatus(book)
    ensures FillsMatchStatus(ApplyAll(book, rates, ops))
  {
    hide FillsMatchStatus, BookOk, Apply;
    if ops != [] {
      OperationsKeepFills(book, rates, ops[..|ops| - 1]);
      OperationKeepsFills(ApplyAll(book, rates, ops[..|ops| - 1]), rates, ops[|ops| - 1]);
    }
  }

  /** Over any run of submissions, cancellations and matching runs, at any prices, every order
      has one fill if it is FILLED and none otherwise. */
  lemma NoOrderFillsTwice(accounts: map<int, Account>, rates: FillRates, ops: seq<Operation>, id: nat)
    ensures var book := ApplyAll(Book(accounts, [], []), rates, ops);
            id < |book.orders| ==> CountOf(book.fills, FillOf(id)) == if book.orders[id].status == Filled then 1 else 0
  {
    OperationsKeepFills(Book(accounts, [], []), rates, ops);
  }

  // ---------------------------------------------------------------- money

  ghost predicate AccountsKeep(before: Book, after: Book) {
    forall a :: a in before.accounts ==>
      a in after.accounts && Solvent(after.accounts[a]) && PaidIn(after.accounts[a]) == PaidIn(before.accounts[a])
  }

  ghost predicate AllSolvent(book: Book) {
    forall a :: a in book.accounts ==> Solvent(book.accounts[a])
  }

  lemma KeepsItself(book: Book)
    requires AllSolvent(book)
    ensures AccountsKeep(book, book)
  {
  }

  lemma KeptAccountsAreSolvent(before: Book, after: Book)
    requires AccountsKeep(before, after) && after.accounts.Keys == before.accounts.Keys
    ensures AllSolvent(after)
  {
  }

  lemma KeepTransitive(a: Book, b: Book, c: Book)
    requires AccountsKeep(a, b) && AccountsKeep(b, c)
    ensures AccountsKeep(a, c)
  {
  }

  lemma ProcessKeepsMoney(book: Book, rates: FillRates, prices: Prices, id: nat)
    requires BookOk(book) && id < |book.orders| && AllSolvent(book) && RatesNonNegative(rates)
    ensures AccountsKeep(book, Process(book, rates, prices, id).0)
    ensures Process(book, rates, prices, id).0.accounts.Keys == book.accounts.Keys
  {
    var o := book.orders[id];
    if o.terms.symbol in prices {
      FillConservesPaidIn(book.accounts[o.accountId], rates, o.terms, prices[o.terms.symbol]);
    }
  }

  lemma {:induction false} RunKeepsMoney(book: Book, rates: FillRates, prices: Prices, ids: seq<nat>)
    requires BookOk(book) && IdsOk(book, ids) && AllSolvent(book) && RatesNonNegative(rates)
    ensures AccountsKeep(book, RunList(book, rates, prices, ids).book)
    ensures RunList(book, rates, prices, ids).book.accounts.Keys == book.accounts.Keys
  {
    hide AccountsKeep, AllSolvent, RatesNonNegative, BookOk, Process;
    KeepsItself(book);
    if ids != [] {
      var last := |ids| - 1;
      RunKeepsMoney(book, rates, prices, ids[..last]);
      var before := RunList(book, rates, prices, ids[..last]);
      if !before.raised {
        KeptAccountsAreSolvent(book, before.book);
        ProcessKeepsMoney(before.book, rates, prices, ids[last]);
        KeepTransitive(book, before.book, Process(before.book, rates, prices, ids[last]).0);
      }
    }
  }

  lemma OperationKeepsMoney(book: Book, rates: FillRates, op: Operation)
    requires BookOk(book) && AllSolvent(book) && RatesNonNegative(rates)
    ensures AccountsKeep(book, Apply(book, rates, op))
    ensures Apply(book, rates, op).accounts.Keys == book.accounts.Keys
  {
    hide AccountsKeep, AllSolvent, RatesNonNegative, BookOk;
    match op
    case SubmitOp(enabled, request) => SameAccountsKeep(book, Apply(book, rates, op));
    case CancelOp(id) => SameAccountsKeep(book, Apply(book, rates, op));
    case ExecuteOp(prices, account) =>
      CandidatesMembers(book.orders, account);
      RunKeepsMoney(book, rates, prices, Candidates(book.orders, account));
  }

  lemma SameAccountsKeep(before: Book, after: Book)
    requires AllSolvent(before) && after.accounts == before.accounts
    ensures AccountsKeep(before, after)
  {
  }

  /** Over any run of the broker, at any prices, no account is overdrawn or short, and its cash
      plus the cost of its positions less its realised profit stays what was paid in. */
  lemma {:induction false} MoneyIsConserved(book: Book, rates: FillRates, ops: seq<Operation>)
    requires BookOk(book) && AllSolvent(book) && RatesNonNegative(rates)
    ensures AccountsKeep(book, ApplyAll(book, rates, ops))
    ensures ApplyAll(book, rates, ops).accounts.Keys == book.accounts.Keys
  {
    hide AccountsKeep, AllSolvent, RatesNonNegative, BookOk, Apply;
    KeepsItself(book);
    if ops != [] {
      var before, op := ApplyAll(book, rates, ops[..|ops| - 1]), ops[|ops| - 1];
      MoneyIsConserved(book, rates, ops[..|ops| - 1]);
      KeptAccountsAreSolvent(book, before);
      OperationKeepsMoney(before, rates, op);
      KeepTransitive(book, before, Apply(before, rates, op));
    }
  }
}
