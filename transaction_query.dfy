/** `getTransactionHistory` and `getTransactionById` of
    `src/modules/transaction/transaction.controller.ts`: a filter scoped to
    the caller's wallet, a page window over the matches, and a per-type
    summary of them. Everything here is a function of the rows. */
module TransactionQuery {
  import opened Results
  import opened Sequences
  import opened Numbers
  import opened Records

  /** The query string of a history request; an absent or empty field is `None`. */
  datatype HistoryQuery = HistoryQuery(startDate: Option<int>, endDate: Option<int>,
                                       txType: Option<TxType>, status: Option<TxStatus>)

  datatype QueryError = WalletNotFound | TransactionNotFound

  /** The `where` object: the caller's wallet; a creation time within
      `[startDate, endDate]` only when both bounds are given; the type and
      the status only when given. */
  predicate Matches(q: HistoryQuery, walletId: nat, t: Transaction) {
    && t.walletId == walletId
    && (q.startDate.Some? && q.endDate.Some? ==> q.startDate.value <= t.createdAt <= q.endDate.value)
    && (q.txType.Some? ==> t.txType == q.txType.value)
    && (q.status.Some? ==> t.status == q.status.value)
  }

  /** All transactions matching the query, in table order: exactly the
      rows of the caller's wallet that pass the given filters. */
  function Matching(txs: seq<Transaction>, walletId: nat, q: HistoryQuery): (r: seq<Transaction>)
    ensures |r| <= |txs|
    ensures forall t :: t in r <==> t in txs && Matches(q, walletId, t)
    ensures forall t :: t in r ==> t.walletId == walletId
  {
    Filter(txs, (t: Transaction) => Matches(q, walletId, t))
  }

  /** The matches keep the table's order: the matches of two stretches of
      the table are those of the first followed by those of the second. */
  lemma MatchingKeepsOrder(a: seq<Transaction>, b: seq<Transaction>, walletId: nat, q: HistoryQuery)
    ensures Matching(a + b, walletId, q) == Matching(a, walletId, q) + Matching(b, walletId, q)
  {
    FilterAppend(a, b, (t: Transaction) => Matches(q, walletId, t));
  }

  /** A matching row appears among the matches as often as in the table. */
  lemma MatchingCounts(txs: seq<Transaction>, walletId: nat, q: HistoryQuery, t: Transaction)
    ensures multiset(Matching(txs, walletId, q))[t] == if Matches(q, walletId, t) then multiset(txs)[t] else 0
  {
    FilterCounts(txs, (t: Transaction) => Matches(q, walletId, t), t);
  }

  /** Only transactions of the caller's wallet are ever matched, and every
      one of them that passes the optional filters is. */
  lemma MatchingIsScoped(txs: seq<Transaction>, walletId: nat, q: HistoryQuery)
    ensures forall t :: t in Matching(txs, walletId, q) ==> t in txs && t.walletId == walletId
    ensures q.txType.None? && q.status.None? && (q.startDate.None? || q.endDate.None?) ==>
              forall t :: t in txs && t.walletId == walletId ==> t in Matching(txs, walletId, q)
  {
  }

  /** A date bound given without the other one does not narrow the result. */
  lemma {:induction false} LoneDateBoundIgnored(txs: seq<Transaction>, walletId: nat, q: HistoryQuery)
    requires q.startDate.None? || q.endDate.None?
    ensures Matching(txs, walletId, q) == Matching(txs, walletId, q.(startDate := None, endDate := None))
  {
    if txs != [] {
      LoneDateBoundIgnored(txs[1..], walletId, q);
    }
  }

  /** Dropping the type or the status filter never loses a match. */
  lemma OmittedFiltersWiden(txs: seq<Transaction>, walletId: nat, q: HistoryQuery)
    ensures forall t :: t in Matching(txs, walletId, q) ==> t in Matching(txs, walletId, q.(txType := None))
    ensures forall t :: t in Matching(txs, walletId, q) ==> t in Matching(txs, walletId, q.(status := None))
  {
  }

  /** The page window `skip((page - 1) * limit).take(limit)`. */
  function Page<T>(s: seq<T>, page: int, limit: int): (r: seq<T>)
    requires page >= 1 && limit >= 1
    ensures |r| <= limit
    ensures forall k :: 0 <= k < |r| ==> (page - 1) * limit + k < |s| && r[k] == s[(page - 1) * limit + k]
  {
    var skip := (page - 1) * limit;
    if skip >= |s| then []
    else if skip + limit >= |s| then s[skip..]
    else s[skip..skip + limit]
  }

  /** `Math.ceil(total / limit)`: the fewest pages of `limit` entries that
      hold `total` entries, none when there are none. */
  function Pages(total: nat, limit: int): (r: nat)
    requires limit >= 1
    ensures (r - 1) * limit < total <= r * limit
    ensures r == 0 <==> total == 0
  {
    CeilDiv(total, limit)
  }

  /** The pages from 1 to `Pages` show every match exactly once: match `i`
      is entry `i % limit` of page `i / limit + 1`, and a page past the last
      is empty. */
  lemma PagesCoverAll<T>(s: seq<T>, limit: int)
    requires limit >= 1
    ensures forall i :: 0 <= i < |s| ==>
              && 1 <= i / limit + 1 <= Pages(|s|, limit)
              && i % limit < |Page(s, i / limit + 1, limit)|
              && Page(s, i / limit + 1, limit)[i % limit] == s[i]
    ensures forall page :: page > Pages(|s|, limit) ==> Page(s, page, limit) == []
  {
    var n := Pages(|s|, limit);
    forall i | 0 <= i < |s|
      ensures 1 <= i / limit + 1 <= n
      ensures i % limit < |Page(s, i / limit + 1, limit)|
      ensures Page(s, i / limit + 1, limit)[i % limit] == s[i]
    {
      PageOfIndex(|s|, limit, i);
    }
    forall page | page > n
      ensures Page(s, page, limit) == []
    {
      PastLastPage(|s|, limit, page);
    }
  }

  lemma MulMonotone(a: int, b: int, c: int)
    requires a <= b && c >= 0
    ensures a * c <= b * c
  {
  }

  /** Index `i` lies at offset `i % limit` of the page `i / limit + 1`, which
      is not past the last page. */
  lemma PageOfIndex(total: nat, limit: int, i: int)
    requires limit >= 1 && 0 <= i < total
    ensures 1 <= i / limit + 1 <= Pages(total, limit)
    ensures (i / limit) * limit + i % limit == i && 0 <= i % limit < limit
  {
    var p, n := i / limit, Pages(total, limit);
    if p >= n {
      MulMonotone(n, p, limit);
    }
  }

  /** A page after the last one starts at or after the end. */
  lemma PastLastPage(total: nat, limit: int, page: int)
    requires limit >= 1 && page > Pages(total, limit)
    ensures (page - 1) * limit >= total
  {
    MulMonotone(Pages(total, limit), page - 1, limit);
  }

  /** Total amount and number of the matches of one type. */
  datatype TypeSummary = TypeSummary(totalAmount: real, count: nat)

  /** Sum of the amounts of `txs`. */
  function SumAmount(txs: seq<Transaction>): real {
    if txs == [] then 0.0 else txs[0].amount + SumAmount(txs[1..])
  }

  /** The matches of one type. */
  function OfType(txs: seq<Transaction>, k: TxType): seq<Transaction> {
    Filter(txs, (t: Transaction) => t.txType == k)
  }

  /** Adds one transaction to the entry of its type. */
  function Tally(acc: map<TxType, TypeSummary>, t: Transaction): map<TxType, TypeSummary> {
    if t.txType in acc then
      acc[t.txType := TypeSummary(acc[t.txType].totalAmount + t.amount, acc[t.txType].count + 1)]
    else
      acc[t.txType := TypeSummary(t.amount, 1)]
  }

  /** The `groupBy(['type'])` summary folded into one object keyed by type:
      every entry counts at least one transaction, and there is none only
      when there are no transactions. */
  function Summary(txs: seq<Transaction>): (r: map<TxType, TypeSummary>)
    ensures forall k :: k in r ==> r[k].count >= 1
    ensures r == map[] <==> txs == []
  {
    if txs == [] then map[] else Tally(Summary(txs[1..]), txs[0])
  }

  /** Tallying `t` adds its type to the keys, adds one to its count and its
      amount to its total, and leaves the other types alone. */
  lemma TallyEntry(acc: map<TxType, TypeSummary>, t: Transaction, k: TxType)
    ensures k in Tally(acc, t) <==> k in acc || k == t.txType
    ensures CountOf(Tally(acc, t), k) == CountOf(acc, k) + (if k == t.txType then 1 else 0)
    ensures AmountOf(Tally(acc, t), k) == AmountOf(acc, k) + (if k == t.txType then t.amount else 0.0)
  {
  }

  /** Entry of a type in the summary, zero when the type does not occur. */
  function CountOf(summary: map<TxType, TypeSummary>, k: TxType): nat {
    if k in summary then summary[k].count else 0
  }

  function AmountOf(summary: map<TxType, TypeSummary>, k: TxType): real {
    if k in summary then summary[k].totalAmount else 0.0
  }

  /** The summary has an entry exactly for the types that occur, and each
      entry holds the sum of the amounts and the number of the transactions
      of that type. */
  lemma SummaryGroupsByType(txs: seq<Transaction>, k: TxType)
    ensures k in Summary(txs) <==> exists t :: t in txs && t.txType == k
    ensures CountOf(Summary(txs), k) == |OfType(txs, k)|
    ensures AmountOf(Summary(txs), k) == SumAmount(OfType(txs, k))
  {
    SummaryKeys(txs, k);
    SummaryEntry(txs, k);
  }

  lemma {:induction false} SummaryKeys(txs: seq<Transaction>, k: TxType)
    ensures k in Summary(txs) <==> exists t :: t in txs && t.txType == k
  {
    if txs != [] {
      SummaryKeys(txs[1..], k);
      TallyEntry(Summary(txs[1..]), txs[0], k);
      assert forall t :: t in txs <==> t == txs[0] || t in txs[1..];
    }
  }

  lemma {:induction false} SummaryEntry(txs: seq<Transaction>, k: TxType)
    ensures CountOf(Summary(txs), k) == |OfType(txs, k)|
    ensures AmountOf(Summary(txs), k) == SumAmount(OfType(txs, k))
  {
    if txs != [] {
      SummaryEntry(txs[1..], k);
      TallyEntry(Summary(txs[1..]), txs[0], k);
      var kept := OfType(txs, k);
      if txs[0].txType == k {
        assert kept[1..] == OfType(txs[1..], k);
      }
    }
  }

  /** The counts of the summary add up to the number of matches. */
  lemma {:induction false} SummaryCountsAddUp(txs: seq<Transaction>)
    ensures var s := Summary(txs);
      CountOf(s, TopUp) + CountOf(s, Transfer) + CountOf(s, Withdrawal) == |txs|
  {
    if txs != [] {
      SummaryCountsAddUp(txs[1..]);
      var acc := Summary(txs[1..]);
      TallyEntry(acc, txs[0], TopUp);
      TallyEntry(acc, txs[0], Transfer);
      TallyEntry(acc, txs[0], Withdrawal);
    }
  }

  /** The response of a history request. */
  datatype History = History(transactions: seq<Transaction>, summary: map<TxType, TypeSummary>,
                             total: nat, page: int, limit: int, pages: nat)

  /** `getTransactionHistory`: the caller's wallet, then the page of matches,
      the summary of all matches and the pagination figures. */
  function TransactionHistory(wallets: seq<Wallet>, txs: seq<Transaction>, userId: UserId,
                              q: HistoryQuery, page: int, limit: int): (r: Result<History, QueryError>)
    requires page >= 1 && limit >= 1
    ensures r.Err? <==> WalletOfUser(wallets, userId).None?
    ensures r.Err? ==> r.error == WalletNotFound
    ensures r.Ok? ==> forall t :: t in r.value.transactions ==>
              t in txs && t.walletId == WalletOfUser(wallets, userId).value.id
  {
    match WalletOfUser(wallets, userId)
    case None => Err(WalletNotFound)
    case Some(w) =>
      var matches := Matching(txs, w.id, q);
      var shown := Page(matches, page, limit);
      assert forall k :: 0 <= k < |shown| ==> shown[k] in matches;
      Ok(History(shown, Summary(matches), |matches|, page, limit, Pages(|matches|, limit)))
  }

  /** The summary of a history response counts exactly its `total`. */
  lemma HistorySummaryMatchesTotal(wallets: seq<Wallet>, txs: seq<Transaction>, userId: UserId,
                                   q: HistoryQuery, page: int, limit: int)
    requires page >= 1 && limit >= 1
    requires TransactionHistory(wallets, txs, userId, q, page, limit).Ok?
    ensures var h := TransactionHistory(wallets, txs, userId, q, page, limit).value;
      CountOf(h.summary, TopUp) + CountOf(h.summary, Transfer) + CountOf(h.summary, Withdrawal) == h.total
  {
    var w := WalletOfUser(wallets, userId).value;
    SummaryCountsAddUp(Matching(txs, w.id, q));
  }

  /** `getTransactionById`: the first transaction with that id in the
      caller's wallet, in table order. */
  function TransactionById(wallets: seq<Wallet>, txs: seq<Transaction>, userId: UserId, id: nat)
    : (r: Result<Transaction, QueryError>)
    ensures WalletOfUser(wallets, userId).None? ==> r == Err(WalletNotFound)
    ensures r.Ok? ==> && r.value in txs && r.value.id == id
                      && r.value.walletId == WalletOfUser(wallets, userId).value.id
    ensures WalletOfUser(wallets, userId).Some? ==>
              (r == Err(TransactionNotFound) <==>
               forall t :: t in txs ==> !(t.id == id && t.walletId == WalletOfUser(wallets, userId).value.id))
    ensures WalletOfUser(wallets, userId).Some? ==>
              (r.Ok? <==> exists t :: t in txs && t.id == id && t.walletId == WalletOfUser(wallets, userId).value.id)
    ensures r.Ok? ==> exists i :: 0 <= i < |txs| && txs[i] == r.value
                                  && forall j :: 0 <= j < i ==> !(txs[j].id == id && txs[j].walletId == r.value.walletId)
  {
    match WalletOfUser(wallets, userId)
    case None => Err(WalletNotFound)
    case Some(w) =>
      match FirstIndex(txs, (t: Transaction) => t.id == id && t.walletId == w.id)
      case Some(i) => Ok(txs[i])
      case None => Err(TransactionNotFound)
  }
}
