/** When a paper order is taken, fills, waits or is rejected, in the fields of the order, its account
    and the closes (app/broker/simulation_broker.py). */
module MatchingLaws {
  import opened Wrappers
  import opened Sequences
  import opened Strings
  import opened OrderCandidates
  import opened CostModel
  import opened PnlTracker
  import opened SimulationBroker
  import opened PaperRuns

  // ---------------------------------------------------------------- submitting and cancelling

  /** What a request must be to be taken: paper trading on, for the platform and an account on file, and
      a positive quantity of a named symbol, with a positive limit price exactly on a LIMIT order. */
  ghost predicate Takes(book: Book, paperEnabled: bool, r: OrderRequest) {
    && paperEnabled && r.accountId in book.accounts && book.accounts[r.accountId].paperEnabled
    && r.quantity > 0 && HasText(r.symbol)
    && match r.orderType
       case Limit => r.limitPrice.Some? && r.limitPrice.value > 0.0
       case Market => r.limitPrice.None?
  }

  ghost predicate OnFile(book: Book, r: OrderRequest, id: nat) {
    id < |book.orders| && r.key.Some? && book.orders[id].key == r.key && book.orders[id].accountId == r.accountId
  }

  /** The CREATED order of a request's own terms. */
  function NewOrderOf(r: OrderRequest): VirtualOrder {
    VirtualOrder(r.accountId, OrderTerms(r.symbol, r.side, r.quantity, r.limitPrice), Created, r.key)
  }

  /** A submission succeeds exactly when the request is one to take. It then answers with the first order
      of its key on its account, or with a new CREATED order of its own terms; a refusal changes nothing
      and gives the reason. */
  lemma SubmitExactly(book: Book, paperEnabled: bool, r: OrderRequest)
    ensures var (after, result) := Submit(book, paperEnabled, r);
            && (result.Success? <==> Takes(book, paperEnabled, r))
            && after.accounts == book.accounts && after.fills == book.fills
            && (result.Failure? ==>
                  && after == book
                  && result.error == if !paperEnabled then TradingDisabled
                                     else if r.accountId !in book.accounts then AccountNotFound
                                     else if !book.accounts[r.accountId].paperEnabled then TradingDisabled
                                     else InvalidOrder)
            && (result.Success? ==>
                  var id := result.value.orderId;
                  && (result.value.deduplicated <==> exists k: nat :: OnFile(book, r, k))
                  && if result.value.deduplicated then
                       after == book && OnFile(book, r, id) && forall k: nat :: OnFile(book, r, k) ==> id <= k
                     else
                       && id == |book.orders|
                       && after.orders == book.orders + [NewOrderOf(r)])
  {
    StripEmpty(r.symbol);
    hide Strip, HasText;
    if r.key.Some? {
      var i := FindKey(book.orders, r.accountId, r.key.value);
      assert forall k: nat :: OnFile(book, r, k) ==> i <= k;
      assert i < |book.orders| ==> OnFile(book, r, i);
    }
  }

  /** A cancellation cancels exactly a CREATED or SUBMITTED order, and touches nothing else. */
  lemma CancelExactly(book: Book, id: nat)
    ensures var (after, canceled) := Cancel(book, id);
            && (canceled <==> id < |book.orders| && book.orders[id].status in {Created, Submitted})
            && after.accounts == book.accounts && after.fills == book.fills && |after.orders| == |book.orders|
            && forall k :: 0 <= k < |book.orders| ==>
                 after.orders[k] == if canceled && k == id then book.orders[k].(status := Canceled) else book.orders[k]
  {
  }

  // ---------------------------------------------------------------- one turn

  /** The close keeps the order away: above the limit of a BUY or below that of a SELL. */
  ghost predicate KeptAway(terms: OrderTerms, close: real) {
    match terms.limitPrice
    case None => false
    case Some(limit) => (terms.side == Buy && close > limit) || (terms.side == Sell && close < limit)
  }

  /** The account cannot carry the order out at the close: too little cash, or too few shares. */
  ghost predicate Beyond(book: Book, rates: FillRates, o: VirtualOrder, close: real)
    requires o.accountId in book.accounts
  {
    match o.terms.side
    case Buy => book.accounts[o.accountId].cash < PaperCosts(rates, Buy, close, o.terms.quantity).net
    case Sell => RowOf(book.accounts[o.accountId], o.terms.symbol).quantity < o.terms.quantity
  }

  /** Which of the six outcomes an order's turn has. */
  ghost predicate VerdictOf(book: Book, rates: FillRates, prices: Prices, id: nat, v: Verdict)
    requires BookOk(book) && id < |book.orders|
  {
    var o := book.orders[id];
    if o.status !in {Created, Submitted} then v == SkippedTerminal
    else if o.terms.symbol !in prices then v == SkippedNoPrice
    else
      var close := prices[o.terms.symbol];
      if KeptAway(o.terms, close) then v == SkippedLimitUnmet
      else if close <= 0.0 then v == RaisedNow
      else if Beyond(book, rates, o, close) then v == RejectedNow
      else v == FilledNow
  }

  /** A turn has the outcome that order, account and close call for. A fill is at the close, with its
      costs, and moves its account accordingly; a rejection changes the status; nothing else changes. */
  lemma TurnExactly(book: Book, rates: FillRates, prices: Prices, id: nat)
    requires BookOk(book) && id < |book.orders|
    ensures var (after, v) := Process(book, rates, prices, id);
            var o := book.orders[id];
            && VerdictOf(book, rates, prices, id, v)
            && match v
               case FilledNow =>
                 && o.terms.symbol in prices
                 && var close := prices[o.terms.symbol];
                    var costs := PaperCosts(rates, o.terms.side, close, o.terms.quantity);
                    && after.orders == book.orders[id := o.(status := VirtualStatus.Filled)]
                    && after.fills == book.fills + [VirtualFill(id, o.accountId, o.terms, close, costs)]
                    && after.accounts.Keys == book.accounts.Keys
                    && PnlTracker.Filled(book.accounts[o.accountId], after.accounts[o.accountId], o.terms, costs.net)
                    && forall a :: a in book.accounts && a != o.accountId ==> after.accounts[a] == book.accounts[a]
               case RejectedNow => after == book.(orders := book.orders[id := o.(status := VirtualStatus.Rejected)])
               case _ => after == book
  {
    hide ApplyFill, PaperCosts, PnlTracker.Filled;
    var o := book.orders[id];
    if o.terms.symbol in prices {
      FillExactly(book.accounts[o.accountId], rates, o.terms, prices[o.terms.symbol]);
    }
  }

  // ---------------------------------------------------------------- fills of a run

  /** A fill at the close of its symbol that respects the limit of its order. */
  ghost predicate FairFill(f: VirtualFill, prices: Prices) {
    && f.terms.symbol in prices && f.price == prices[f.terms.symbol] && f.price > 0.0
    && match f.terms.limitPrice
       case None => true
       case Some(limit) => if f.terms.side == Buy then f.price <= limit else f.price >= limit
  }

  /** What matching leaves on file: the earlier fills, and fair ones after them. */
  ghost predicate FairSince(before: seq<VirtualFill>, after: seq<VirtualFill>, prices: Prices) {
    && |before| <= |after| && after[..|before|] == before
    && forall k :: |before| <= k < |after| ==> FairFill(after[k], prices)
  }

  lemma {:induction false} RunFillsFairly(book: Book, rates: FillRates, prices: Prices, ids: seq<nat>)
    requires BookOk(book) && IdsOk(book, ids)
    ensures FairSince(book.fills, RunList(book, rates, prices, ids).book.fills, prices)
  {
    hide Process, BookOk;
    if ids != [] {
      var last := |ids| - 1;
      RunFillsFairly(book, rates, prices, ids[..last]);
      TurnExactly(RunList(book, rates, prices, ids[..last]).book, rates, prices, ids[last]);
    }
  }

  /** A fill made by one of the matching runs, at that run's closes. */
  ghost predicate MadeFairly(f: VirtualFill, ops: seq<Operation>) {
    exists k :: 0 <= k < |ops| && ops[k].ExecuteOp? && FairFill(f, ops[k].prices)
  }

  /** Over any run of the broker every fill is at the close of its symbol in the matching run that made
      it, at or below the limit of a LIMIT BUY and at or above that of a LIMIT SELL. */
  lemma {:induction false} FillsRespectLimits(accounts: map<int, Account>, rates: FillRates, ops: seq<Operation>)
    ensures forall f :: f in ApplyAll(Book(accounts, [], []), rates, ops).fills ==> MadeFairly(f, ops)
  {
    hide FairFill;
    if ops != [] {
      var last := |ops| - 1;
      var front, op := ops[..last], ops[last];
      var before := ApplyAll(Book(accounts, [], []), rates, front);
      FillsRespectLimits(accounts, rates, front);
      OperationFillsFairly(before, rates, op);
      var after := Apply(before, rates, op);
      forall f | f in after.fills ensures MadeFairly(f, ops) {
        var k :| 0 <= k < |after.fills| && after.fills[k] == f;
        if k < |before.fills| {
          assert before.fills[k] == f;
          assert MadeFairly(f, front);
          var j :| 0 <= j < |front| && front[j].ExecuteOp? && FairFill(f, front[j].prices);
          assert ops[j] == front[j];
        }
      }
    }
  }

  lemma OperationFillsFairly(book: Book, rates: FillRates, op: Operation)
    requires BookOk(book)
    ensures if op.ExecuteOp? then FairSince(book.fills, Apply(book, rates, op).fills, op.prices)
            else Apply(book, rates, op).fills == book.fills
  {
    hide FairSince, RunList, Candidates, BookOk;
    match op
    case SubmitOp(enabled, request) => SubmitExactly(book, enabled, request);
    case CancelOp(id) => CancelExactly(book, id);
    case ExecuteOp(prices, account) =>
      CandidatesMembers(book.orders, account);
      RunFillsFairly(book, rates, prices, Candidates(book.orders, account));
  }

  // ---------------------------------------------------------------- the summary

  function WithoutClose(orders: seq<VirtualOrder>, prices: Prices): nat -> bool {
    (id: nat) => id < |orders| && orders[id].terms.symbol !in prices
  }

  function WaitsForClose(orders: seq<VirtualOrder>, prices: Prices): nat -> bool {
    (id: nat) =>
      && id < |orders| && orders[id].terms.symbol in prices && orders[id].terms.limitPrice.Some?
      && var close, limit := prices[orders[id].terms.symbol], orders[id].terms.limitPrice.value;
         (orders[id].terms.side == Buy && close > limit) || (orders[id].terms.side == Sell && close < limit)
  }

  function NowHas(orders: seq<VirtualOrder>, s: VirtualStatus): nat -> bool {
    (id: nat) => id < |orders| && orders[id].status == s
  }

  /** What the summary of a run over these orders says: who is FILLED and who REJECTED afterwards, how
      many have no close, and how many are kept away by their limit. */
  ghost predicate Tells(book: Book, prices: Prices, ids: seq<nat>, r: Outcome) {
    && r.tally.filled == Filter(ids, NowHas(r.book.orders, VirtualStatus.Filled))
    && r.tally.rejected == Filter(ids, NowHas(r.book.orders, VirtualStatus.Rejected))
    && r.tally.noPrice == CountOf(ids, WithoutClose(book.orders, prices))
    && r.tally.limitUnmet == CountOf(ids, WaitsForClose(book.orders, prices))
  }

  lemma CountLast(ids: seq<nat>, p: nat -> bool)
    requires ids != []
    ensures CountOf(ids, p) == CountOf(ids[..|ids| - 1], p) + if p(ids[|ids| - 1]) then 1 else 0
  {
    var last := |ids| - 1;
    assert ids == ids[..last] + [ids[last]] && [ids[last]][1..] == [];
    CountOfAppend(ids[..last], [ids[last]], p);
  }

  lemma {:induction false} ListTells(book: Book, rates: FillRates, prices: Prices, ids: seq<nat>)
    requires BookOk(book) && IdsOk(book, ids) && Distinct(ids)
    requires forall k :: 0 <= k < |ids| ==> Pending(book.orders[ids[k]].status)
    requires !RunList(book, rates, prices, ids).raised
    ensures Tells(book, prices, ids, RunList(book, rates, prices, ids))
  {
    hide BookOk, Process;
    if ids == [] {
      RunListEmpty(book, rates, prices);
    } else {
      hide Tells;
      var last := |ids| - 1;
      var front, id := ids[..last], ids[last];
      var before, r := RunList(book, rates, prices, front), RunList(book, rates, prices, ids);
      ListTells(book, rates, prices, front);
      NoneSkippedAsTerminal(book, rates, prices, front);
      assert id !in front && ids == front + [id];
      TurnTells(book, rates, prices, before, front, id);
    }
  }

  /** One more turn is told by one more entry of the summary. */
  lemma TurnTells(book: Book, rates: FillRates, prices: Prices, before: Outcome, front: seq<nat>, id: nat)
    requires BookOk(book) && BookOk(before.book) && |before.book.orders| == |book.orders|
    requires IdsOk(book, front) && id !in front && id < |book.orders|
    requires before.book.orders[id] == book.orders[id] && Pending(book.orders[id].status)
    requires Tells(book, prices, front, before)
    requires Process(before.book, rates, prices, id).1 != RaisedNow
    ensures var step := Process(before.book, rates, prices, id);
            Tells(book, prices, front + [id], Outcome(step.0, Counted(before.tally, id, step.1), false))
  {
    hide Process, BookOk, WithoutClose, WaitsForClose, NowHas, Filter, CountOf;
    var step := Process(before.book, rates, prices, id);
    TurnStatus(before.book, rates, prices, id);
    VerdictCounts(before.book, book, rates, prices, id);
    StatusesBefore(before.book.orders, step.0.orders, front, id);
    OneMore(front, id, NowHas(step.0.orders, VirtualStatus.Filled));
    OneMore(front, id, NowHas(step.0.orders, VirtualStatus.Rejected));
    OneMore(front, id, WithoutClose(book.orders, prices));
    OneMore(front, id, WaitsForClose(book.orders, prices));
    CountedByVerdict(before.tally, id, step.1);
    hide Counted;
  }

  lemma OneMore(front: seq<nat>, id: nat, p: nat -> bool)
    ensures Filter(front + [id], p) == Filter(front, p) + if p(id) then [id] else []
    ensures CountOf(front + [id], p) == CountOf(front, p) + if p(id) then 1 else 0
  {
    var ids := front + [id];
    assert ids[..|front|] == front && ids[|front|] == id;
    FilterLast(ids, p);
    CountLast(ids, p);
  }

  lemma CountedByVerdict(t: Tally, id: nat, v: Verdict)
    ensures Counted(t, id, v).filled == t.filled + if v == FilledNow then [id] else []
    ensures Counted(t, id, v).rejected == t.rejected + if v == RejectedNow then [id] else []
    ensures Counted(t, id, v).noPrice == t.noPrice + if v == SkippedNoPrice then 1 else 0
    ensures Counted(t, id, v).limitUnmet == t.limitUnmet + if v == SkippedLimitUnmet then 1 else 0
  {
  }

  /** What the turn of a pending order leaves of its status. */
  lemma TurnStatus(book: Book, rates: FillRates, prices: Prices, id: nat)
    requires BookOk(book) && id < |book.orders| && Pending(book.orders[id].status)
    ensures var (after, v) := Process(book, rates, prices, id);
            && v != SkippedTerminal
            && |after.orders| == |book.orders|
            && (forall k :: 0 <= k < |book.orders| && k != id ==> after.orders[k] == book.orders[k])
            && (NowHas(after.orders, VirtualStatus.Filled)(id) <==> v == FilledNow)
            && (NowHas(after.orders, VirtualStatus.Rejected)(id) <==> v == RejectedNow)
  {
    hide PaperCosts, PnlTracker.Filled;
    TurnExactly(book, rates, prices, id);
    hide Process;
  }

  lemma VerdictCounts(now: Book, book: Book, rates: FillRates, prices: Prices, id: nat)
    requires BookOk(now) && id < |now.orders| == |book.orders| && now.orders[id] == book.orders[id]
    requires Pending(now.orders[id].status)
    ensures WithoutClose(book.orders, prices)(id) <==> Process(now, rates, prices, id).1 == SkippedNoPrice
    ensures WaitsForClose(book.orders, prices)(id) <==> Process(now, rates, prices, id).1 == SkippedLimitUnmet
  {
    hide Beyond, Process, PaperCosts, PnlTracker.Filled;
    TurnExactly(now, rates, prices, id);
  }

  /** A turn leaves the statuses of the orders before it. */
  lemma StatusesBefore(before: seq<VirtualOrder>, after: seq<VirtualOrder>, front: seq<nat>, id: nat)
    requires |before| == |after| && id !in front && forall k :: 0 <= k < |front| ==> front[k] < |before|
    requires forall k :: 0 <= k < |before| && k != id ==> after[k] == before[k]
    ensures Filter(front, NowHas(after, VirtualStatus.Filled)) == Filter(front, NowHas(before, VirtualStatus.Filled))
    ensures Filter(front, NowHas(after, VirtualStatus.Rejected))
            == Filter(front, NowHas(before, VirtualStatus.Rejected))
  {
    FilterCongruenceOn(front, NowHas(after, VirtualStatus.Filled), NowHas(before, VirtualStatus.Filled));
    FilterCongruenceOn(front, NowHas(after, VirtualStatus.Rejected), NowHas(before, VirtualStatus.Rejected));
  }

  lemma {:induction false} FilterCongruenceOn(ids: seq<nat>, p: nat -> bool, q: nat -> bool)
    requires forall k :: 0 <= k < |ids| ==> p(ids[k]) == q(ids[k])
    ensures Filter(ids, p) == Filter(ids, q)
  {
    if ids != [] { FilterCongruenceOn(ids[1..], p, q); }
  }

  /** The summary of a matching run that completes lists the candidates that are FILLED and REJECTED
      afterwards and counts those without a close and those whose limit keeps them away. */
  lemma SummaryTells(book: Book, rates: FillRates, prices: Prices, account: Option<int>)
    requires BookOk(book) && !Matched(book, rates, prices, account).raised
    ensures Tells(book, prices, Candidates(book.orders, account), Matched(book, rates, prices, account))
  {
    hide Candidates, BookOk, RunList, Tells;
    var ids := Candidates(book.orders, account);
    CandidatesMembers(book.orders, account);
    CandidatesDistinct(book.orders, account);
    ListedMembers(book.orders, account);
    forall k | 0 <= k < |ids| ensures Pending(book.orders[ids[k]].status) { assert ids[k] in ids; }
    ListTells(book, rates, prices, ids);
  }

  /** The candidates are CREATED and SUBMITTED orders, and those of the account asked for; all of them
      when every account is asked for. */
  lemma CandidatesExactly(orders: seq<VirtualOrder>, account: Option<int>)
    ensures forall id :: id in Candidates(orders, account) ==>
              && id < |orders| && orders[id].status in {Created, Submitted}
              && (account.Some? ==> orders[id].accountId == account.value)
    ensures account.None? ==>
              forall id: nat :: id < |orders| && orders[id].status in {Created, Submitted} ==>
                id in Candidates(orders, account)
  {
    hide Candidates;
    CandidatesMembers(orders, account);
    ListedMembers(orders, account);
  }
}
