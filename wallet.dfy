/** The wallet handlers of `src/modules/wallet/wallet.controller.ts` over an
    in-memory store. Each operation checks its preconditions in the order
    the handler does and returns the first failure without writing
    anything; otherwise it performs the handler's writes in order. A top-up
    or a withdrawal creates a pending transaction, then marks it successful
    and moves the balance; a transfer creates a pending transaction, moves
    both balances, then marks it successful. */
module WalletLedger {
  import opened Results
  import opened Sequences
  import opened Numbers
  import opened Records
  import TransactionQuery

  /** One value per error response of the handlers. */
  datatype WalletError =
    | BvnRequired          // 400 "BVN verification required before creating wallet"
    | WalletExists         // 400 "Wallet already exists"
    | InvalidAmount        // 400 "Invalid amount"
    | WalletNotFound       // 404 "Wallet not found"
    | InsufficientFunds    // 400 "Insufficient funds" (transfer)
    | RecipientNotFound    // 404 "Recipient wallet not found"
    | InsufficientBalance  // 400 "Insufficient balance" (withdrawal)
    | BankAccountNotFound  // 404 "Bank account not found"

  /** The `data` of a successful top-up: the transaction as first created
      (still pending) and the balance after the top-up. */
  datatype TopUpReceipt = TopUpReceipt(transaction: Transaction, newBalance: real)

  /** The `data` of a statement page. */
  datatype StatementPage = StatementPage(transactions: seq<Transaction>, total: nat, page: int, limit: int, pages: nat)

  /** A request amount that is present and positive (`!amount || amount <= 0`
      rejects the rest): an absent amount is refused like a zero one. */
  predicate ValidAmount(amount: Option<real>)
    ensures ValidAmount(amount) <==> amount.GetOr(0.0) > 0.0
  {
    amount.Some? && amount.value > 0.0
  }

  /** The bank accounts after `updateMany({ where: { walletId, isDefault: true },
      data: { isDefault: false } })`. */
  function WithoutDefault(accounts: seq<BankAccount>, walletId: nat): (r: seq<BankAccount>)
    ensures |r| == |accounts|
    ensures forall k :: 0 <= k < |r| ==>
              r[k] == accounts[k].(isDefault := accounts[k].isDefault && accounts[k].walletId != walletId)
  {
    if accounts == [] then []
    else WithoutDefault(accounts[..|accounts| - 1], walletId)
         + [accounts[|accounts| - 1].(isDefault := accounts[|accounts| - 1].isDefault && accounts[|accounts| - 1].walletId != walletId)]
  }

  /** At most one default bank account per wallet. */
  predicate OneDefaultPerWallet(accounts: seq<BankAccount>) {
    forall i, j :: 0 <= i < j < |accounts| && accounts[i].isDefault && accounts[j].isDefault ==>
      accounts[i].walletId != accounts[j].walletId
  }

  /** Clearing the defaults of one wallet keeps the bank-account table
      valid and leaves that wallet with no default. */
  lemma WithoutDefaultKeepsValid(accounts: seq<BankAccount>, walletId: nat, walletCount: nat)
    requires AccountsValid(accounts, walletCount)
    ensures AccountsValid(WithoutDefault(accounts, walletId), walletCount)
    ensures forall k :: 0 <= k < |accounts| && accounts[k].walletId == walletId ==>
              !WithoutDefault(accounts, walletId)[k].isDefault
  {
    var cleared := WithoutDefault(accounts, walletId);
    forall i, j | 0 <= i < j < |cleared| && cleared[i].isDefault && cleared[j].isDefault
      ensures cleared[i].walletId != cleared[j].walletId
    {
      assert accounts[i].isDefault && accounts[j].isDefault;
    }
  }

  /** `addBankAccount` keeps at most one default per wallet: a new default
      account is appended after its wallet's defaults are cleared, and a new
      non-default account changes no default. */
  lemma {:induction false} AddingKeepsAccountsValid(accounts: seq<BankAccount>, walletCount: nat, a: BankAccount)
    requires AccountsValid(accounts, walletCount)
    requires a.id == |accounts| && a.walletId < walletCount
    ensures AccountsValid((if a.isDefault then WithoutDefault(accounts, a.walletId) else accounts) + [a], walletCount)
  {
    var before := if a.isDefault then WithoutDefault(accounts, a.walletId) else accounts;
    if a.isDefault {
      WithoutDefaultKeepsValid(accounts, a.walletId, walletCount);
    }
    var after := before + [a];
    forall i, j | 0 <= i < j < |after| && after[i].isDefault && after[j].isDefault
      ensures after[i].walletId != after[j].walletId
    {
      if j == |accounts| {
        assert !a.isDefault || before[i].walletId != a.walletId;
      } else {
        assert after[i] == before[i] && after[j] == before[j];
      }
    }
  }

  /** Wallet table integrity: ids are positions, every wallet belongs to a
      known user, no two wallets share a user or an account number, and no
      balance is negative. */
  predicate WalletsValid(users: map<UserId, User>, wallets: seq<Wallet>) {
    && (forall i :: 0 <= i < |wallets| ==>
          wallets[i].id == i && wallets[i].userId in users && wallets[i].balance >= 0.0)
    && (forall i, j :: 0 <= i < j < |wallets| ==>
          wallets[i].userId != wallets[j].userId && wallets[i].accountNumber != wallets[j].accountNumber)
  }

  /** Transaction table integrity: ids are positions, and every row is a
      settled, positive movement of one of the first `walletCount` wallets. */
  predicate TransactionsValid(txs: seq<Transaction>, walletCount: nat) {
    forall i :: 0 <= i < |txs| ==>
      && txs[i].id == i && txs[i].walletId < walletCount
      && txs[i].amount > 0.0 && txs[i].status == Successful
  }

  /** Bank-account table integrity: ids are positions, every account belongs
      to one of the first `walletCount` wallets, and no wallet has two
      defaults. */
  predicate AccountsValid(accounts: seq<BankAccount>, walletCount: nat) {
    && (forall i :: 0 <= i < |accounts| ==> accounts[i].id == i && accounts[i].walletId < walletCount)
    && OneDefaultPerWallet(accounts)
  }

  /** A wallet found in a table whose ids are positions sits at its id. */
  lemma WalletAtItsId(users: map<UserId, User>, wallets: seq<Wallet>, w: Wallet)
    requires WalletsValid(users, wallets) && w in wallets
    ensures w.id < |wallets| && wallets[w.id] == w
  {
  }

  /** Moving a balance keeps the wallet table valid while it stays non-negative. */
  lemma CreditKeepsWalletsValid(users: map<UserId, User>, wallets: seq<Wallet>, i: nat, delta: real)
    requires WalletsValid(users, wallets) && i < |wallets| && wallets[i].balance + delta >= 0.0
    ensures WalletsValid(users, Credit(wallets, i, delta))
  {
  }

  /** Creating a pending row and then marking it successful leaves the table
      with the settled row appended, which keeps it valid. */
  lemma SettleKeepsTransactionsValid(txs: seq<Transaction>, walletCount: nat, created: Transaction, settled: Transaction)
    requires TransactionsValid(txs, walletCount)
    requires created.id == |txs| && settled.id == |txs| && settled.walletId < walletCount
    requires settled.amount > 0.0 && settled.status == Successful
    ensures (txs + [created])[created.id := settled] == txs + [settled]
    ensures TransactionsValid(txs + [settled], walletCount)
  {
    assert (txs + [created])[created.id := settled] == txs + [settled];
  }

  /** A transfer debits the sender and credits the recipient by the same
      amount, so the sum of all balances is unchanged, also when both are
      the same wallet. */
  lemma TransferConservesTotal(wallets: seq<Wallet>, sender: nat, recipient: nat, amount: real)
    requires sender < |wallets| && recipient < |wallets|
    ensures TotalBalance(Credit(Credit(wallets, sender, -amount), recipient, amount)) == TotalBalance(wallets)
    ensures sender == recipient ==> Credit(Credit(wallets, sender, -amount), recipient, amount) == wallets
  {
    CreditMovesTotal(wallets, sender, -amount);
    CreditMovesTotal(Credit(wallets, sender, -amount), recipient, amount);
  }

  class WalletStore {
    var users: map<UserId, User>
    var wallets: seq<Wallet>
    var bankAccounts: seq<BankAccount>
    var transactions: seq<Transaction>

    /** The store's integrity: each table is valid and refers only to
        existing wallets. */
    ghost predicate Valid()
      reads this
    {
      && WalletsValid(users, wallets)
      && TransactionsValid(transactions, |wallets|)
      && AccountsValid(bankAccounts, |wallets|)
    }

    constructor (users: map<UserId, User>)
      ensures Valid()
      ensures this.users == users && wallets == [] && bankAccounts == [] && transactions == []
    {
      this.users := users;
      wallets := [];
      bankAccounts := [];
      transactions := [];
    }

    /** `createWallet`: the user must exist and be BVN-verified and must not
        have a wallet yet; the new wallet has balance 0 and is named after
        the user. `accountNumber` is the unused number the generator drew. */
    method CreateWallet(userId: UserId, accountNumber: string) returns (r: Result<Wallet, WalletError>)
      requires Valid()
      requires forall w :: w in wallets ==> w.accountNumber != accountNumber
      modifies this
      ensures Valid()
      ensures users == old(users) && bankAccounts == old(bankAccounts) && transactions == old(transactions)
      ensures userId !in users || !users[userId].isBvnVerified ==>
                r == Err(BvnRequired) && wallets == old(wallets)
      ensures userId in users && users[userId].isBvnVerified && WalletOfUser(old(wallets), userId).Some? ==>
                r == Err(WalletExists) && wallets == old(wallets)
      ensures userId in users && users[userId].isBvnVerified && WalletOfUser(old(wallets), userId).None? ==>
                && r == Ok(Wallet(|old(wallets)|, userId, accountNumber,
                                  users[userId].firstName + " " + users[userId].lastName, 0.0))
                && wallets == old(wallets) + [r.value]
    {
      if userId !in users || !users[userId].isBvnVerified {
        return Err(BvnRequired);
      }
      if WalletOfUser(wallets, userId).Some? {
        return Err(WalletExists);
      }
      var user := users[userId];
      var wallet := Wallet(|wallets|, userId, accountNumber, user.firstName + " " + user.lastName, 0.0);
      wallets := wallets + [wallet];
      r := Ok(wallet);
    }

    /** `topUpWallet`: a present, positive amount and the caller's wallet;
        then a pending TOPUP transaction is created, and updated to
        successful under the reference the settlement generates while the
        balance rises by the amount. */
    method TopUpWallet(userId: UserId, amount: Option<real>, reference: string, settledReference: string, now: int)
      returns (r: Result<TopUpReceipt, WalletError>)
      requires Valid()
      modifies this
      ensures Valid()
      ensures users == old(users) && bankAccounts == old(bankAccounts)
      ensures !ValidAmount(amount) ==> r == Err(InvalidAmount)
      ensures ValidAmount(amount) && WalletOfUser(old(wallets), userId).None? ==> r == Err(WalletNotFound)
      ensures r.Err? ==> wallets == old(wallets) && transactions == old(transactions)
      ensures ValidAmount(amount) && WalletOfUser(old(wallets), userId).Some? ==>
                var w := WalletOfUser(old(wallets), userId).value;
                var created := Transaction(|old(transactions)|, w.id, TopUp, amount.value, Pending, reference, now);
                && r == Ok(TopUpReceipt(created, w.balance + amount.value))
                && transactions == old(transactions) + [created.(status := Successful, reference := settledReference)]
                && wallets == Credit(old(wallets), w.id, amount.value)
    {
      if !ValidAmount(amount) {
        return Err(InvalidAmount);
      }
      var found := WalletOfUser(wallets, userId);
      if found.None? {
        return Err(WalletNotFound);
      }
      var w := found.value;
      var value := amount.value;
      WalletAtItsId(users, wallets, w);
      var created := Transaction(|transactions|, w.id, TopUp, value, Pending, reference, now);
      SettleMovement(created, created.(status := Successful, reference := settledReference), value);
      r := Ok(TopUpReceipt(created, w.balance + value));
    }

    /** The writes of a top-up or a withdrawal: the pending row is created,
        then updated to its settled form while the wallet's balance moves by
        `delta`. */
    method SettleMovement(created: Transaction, settled: Transaction, delta: real)
      requires Valid()
      requires created.id == |transactions| && settled.id == created.id
      requires settled.walletId < |wallets| && settled.amount > 0.0 && settled.status == Successful
      requires wallets[settled.walletId].balance + delta >= 0.0
      modifies this
      ensures Valid()
      ensures users == old(users) && bankAccounts == old(bankAccounts)
      ensures transactions == old(transactions) + [settled]
      ensures wallets == Credit(old(wallets), settled.walletId, delta)
    {
      SettleKeepsTransactionsValid(transactions, |wallets|, created, settled);
      CreditKeepsWalletsValid(users, wallets, settled.walletId, delta);
      transactions := transactions + [created];
      transactions := transactions[created.id := settled];
      wallets := Credit(wallets, settled.walletId, delta);
    }

    /** `transferToUser`: the caller's wallet, enough funds, and a wallet with
        the recipient account number, checked in that order; then a pending
        TRANSFER transaction, the sender's decrement, the recipient's
        increment and the status update. The schema-validated amount is
        positive. */
    method TransferToUser(userId: UserId, recipientAccountNumber: string, amount: real, reference: string, now: int)
      returns (r: Result<Transaction, WalletError>)
      requires Valid()
      requires amount > 0.0
      modifies this
      ensures Valid()
      ensures users == old(users) && bankAccounts == old(bankAccounts)
      ensures WalletOfUser(old(wallets), userId).None? ==> r == Err(WalletNotFound)
      ensures WalletOfUser(old(wallets), userId).Some? && WalletOfUser(old(wallets), userId).value.balance < amount ==>
                r == Err(InsufficientFunds)
      ensures WalletOfUser(old(wallets), userId).Some? && WalletOfUser(old(wallets), userId).value.balance >= amount
              && WalletWithAccountNumber(old(wallets), recipientAccountNumber).None? ==>
                r == Err(RecipientNotFound)
      ensures WalletOfUser(old(wallets), userId).Some? && WalletOfUser(old(wallets), userId).value.balance >= amount
              && WalletWithAccountNumber(old(wallets), recipientAccountNumber).Some? ==>
                r.Ok?
      ensures r.Err? ==> wallets == old(wallets) && transactions == old(transactions)
      ensures r.Ok? ==>
                var sender := WalletOfUser(old(wallets), userId).value;
                var recipient := WalletWithAccountNumber(old(wallets), recipientAccountNumber).value;
                && sender.balance >= amount
                && r.value == Transaction(|old(transactions)|, sender.id, Transfer, amount, Pending, reference, now)
                && transactions == old(transactions) + [r.value.(status := Successful)]
                && wallets == Credit(Credit(old(wallets), sender.id, -amount), recipient.id, amount)
    {
      var foundSender := WalletOfUser(wallets, userId);
      if foundSender.None? {
        return Err(WalletNotFound);
      }
      var sender := foundSender.value;
      if sender.balance < amount {
        return Err(InsufficientFunds);
      }
      var foundRecipient := WalletWithAccountNumber(wallets, recipientAccountNumber);
      if foundRecipient.None? {
        return Err(RecipientNotFound);
      }
      var recipient := foundRecipient.value;
      WalletAtItsId(users, wallets, sender);
      WalletAtItsId(users, wallets, recipient);
      var created := SettleTransfer(sender.id, recipient.id, amount, reference, now);
      r := Ok(created);
    }

    /** The writes of a transfer: the pending TRANSFER row, the sender's
        decrement, the recipient's increment (the same wallet for a transfer
        to oneself) and the status update. */
    method SettleTransfer(senderId: nat, recipientId: nat, amount: real, reference: string, now: int)
      returns (created: Transaction)
      requires Valid()
      requires senderId < |wallets| && recipientId < |wallets|
      requires 0.0 < amount <= wallets[senderId].balance
      modifies this
      ensures Valid()
      ensures users == old(users) && bankAccounts == old(bankAccounts)
      ensures created == Transaction(|old(transactions)|, senderId, Transfer, amount, Pending, reference, now)
      ensures transactions == old(transactions) + [created.(status := Successful)]
      ensures wallets == Credit(Credit(old(wallets), senderId, -amount), recipientId, amount)
    {
      created := Transaction(|transactions|, senderId, Transfer, amount, Pending, reference, now);
      var settled := created.(status := Successful);
      SettleKeepsTransactionsValid(transactions, |wallets|, created, settled);
      CreditKeepsWalletsValid(users, wallets, senderId, -amount);
      var debited := Credit(wallets, senderId, -amount);
      CreditKeepsWalletsValid(users, debited, recipientId, amount);
      transactions := transactions + [created];
      wallets := debited;
      wallets := Credit(wallets, recipientId, amount);
      transactions := transactions[created.id := settled];
    }

    /** `withdrawToBank`: a present, positive amount, the caller's wallet,
        enough balance, and one of that wallet's own bank accounts, checked
        in that order; then a pending WITHDRAWAL transaction, updated to
        successful while the balance falls by the amount. */
    method WithdrawToBank(userId: UserId, bankAccountId: nat, amount: Option<real>, reference: string, now: int)
      returns (r: Result<Transaction, WalletError>)
      requires Valid()
      modifies this
      ensures Valid()
      ensures users == old(users) && bankAccounts == old(bankAccounts)
      ensures !ValidAmount(amount) ==> r == Err(InvalidAmount)
      ensures ValidAmount(amount) && WalletOfUser(old(wallets), userId).None? ==> r == Err(WalletNotFound)
      ensures ValidAmount(amount) && WalletOfUser(old(wallets), userId).Some?
              && WalletOfUser(old(wallets), userId).value.balance < amount.value ==>
                r == Err(InsufficientBalance)
      ensures ValidAmount(amount) && WalletOfUser(old(wallets), userId).Some?
              && WalletOfUser(old(wallets), userId).value.balance >= amount.value
              && (forall a :: a in bankAccounts ==>
                    !(a.id == bankAccountId && a.walletId == WalletOfUser(old(wallets), userId).value.id)) ==>
                r == Err(BankAccountNotFound)
      ensures ValidAmount(amount) && WalletOfUser(old(wallets), userId).Some?
              && WalletOfUser(old(wallets), userId).value.balance >= amount.value
              && (exists a :: a in bankAccounts && a.id == bankAccountId
                               && a.walletId == WalletOfUser(old(wallets), userId).value.id) ==>
                r.Ok?
      ensures r.Err? ==> wallets == old(wallets) && transactions == old(transactions)
      ensures r.Ok? ==>
                var w := WalletOfUser(old(wallets), userId).value;
                && ValidAmount(amount)
                && (exists a :: a in bankAccounts && a.id == bankAccountId && a.walletId == w.id)
                && r.value == Transaction(|old(transactions)|, w.id, Withdrawal, amount.value, Pending, reference, now)
                && transactions == old(transactions) + [r.value.(status := Successful)]
                && wallets == Credit(old(wallets), w.id, -amount.value)
                && wallets[w.id].balance >= 0.0
    {
      if !ValidAmount(amount) {
        return Err(InvalidAmount);
      }
      var found := WalletOfUser(wallets, userId);
      if found.None? {
        return Err(WalletNotFound);
      }
      var w := found.value;
      var value := amount.value;
      if w.balance < value {
        return Err(InsufficientBalance);
      }
      var account := FirstIndex(bankAccounts, (a: BankAccount) => a.walletId == w.id && a.id == bankAccountId);
      if account.None? {
        return Err(BankAccountNotFound);
      }
      assert bankAccounts[account.value] in bankAccounts;
      WalletAtItsId(users, wallets, w);
      var created := Transaction(|transactions|, w.id, Withdrawal, value, Pending, reference, now);
      SettleMovement(created, created.(status := Successful), -value);
      r := Ok(created);
    }

    /** The `updateMany` that clears the default flag of every bank account
        of one wallet. */
    method ClearDefaults(walletId: nat)
      requires Valid()
      modifies this
      ensures bankAccounts == WithoutDefault(old(bankAccounts), walletId)
      ensures users == old(users) && wallets == old(wallets) && transactions == old(transactions)
      ensures Valid()
    {
      ghost var cleared := WithoutDefault(bankAccounts, walletId);
      WithoutDefaultKeepsValid(bankAccounts, walletId, |wallets|);
      var i := 0;
      while i < |bankAccounts|
        invariant 0 <= i <= |bankAccounts| == |cleared|
        invariant forall k :: 0 <= k < i ==> bankAccounts[k] == cleared[k]
        invariant forall k :: i <= k < |bankAccounts| ==> bankAccounts[k] == old(bankAccounts)[k]
        invariant users == old(users) && wallets == old(wallets) && transactions == old(transactions)
      {
        if bankAccounts[i].walletId == walletId && bankAccounts[i].isDefault {
          bankAccounts := bankAccounts[i := bankAccounts[i].(isDefault := false)];
        }
        i := i + 1;
      }
      assert bankAccounts == cleared;
    }

    /** `addBankAccount`: the caller's wallet; when the new account is the
        default, the wallet's other defaults are cleared first; then the
        account is created. */
    method AddBankAccount(userId: UserId, bankName: string, accountNumber: string, accountName: string, isDefault: bool)
      returns (r: Result<BankAccount, WalletError>)
      requires Valid()
      modifies this
      ensures Valid()
      ensures users == old(users) && wallets == old(wallets) && transactions == old(transactions)
      ensures WalletOfUser(wallets, userId).None? ==> r == Err(WalletNotFound) && bankAccounts == old(bankAccounts)
      ensures WalletOfUser(wallets, userId).Some? ==>
                var w := WalletOfUser(wallets, userId).value;
                && r == Ok(BankAccount(|old(bankAccounts)|, w.id, bankName, accountNumber, accountName, isDefault))
                && bankAccounts == (if isDefault then WithoutDefault(old(bankAccounts), w.id) else old(bankAccounts)) + [r.value]
    {
      var found := WalletOfUser(wallets, userId);
      if found.None? {
        return Err(WalletNotFound);
      }
      var w := found.value;
      WalletAtItsId(users, wallets, w);
      var account := InsertBankAccount(w.id, bankName, accountNumber, accountName, isDefault);
      r := Ok(account);
    }

    /** The writes of `addBankAccount`: the `updateMany` when the account is
        the default, then the `create`. */
    method InsertBankAccount(walletId: nat, bankName: string, accountNumber: string, accountName: string, isDefault: bool)
      returns (account: BankAccount)
      requires Valid() && walletId < |wallets|
      modifies this
      ensures Valid()
      ensures users == old(users) && wallets == old(wallets) && transactions == old(transactions)
      ensures account == BankAccount(|old(bankAccounts)|, walletId, bankName, accountNumber, accountName, isDefault)
      ensures bankAccounts == (if isDefault then WithoutDefault(old(bankAccounts), walletId) else old(bankAccounts)) + [account]
    {
      AddingKeepsAccountsValid(bankAccounts, |wallets|,
                               BankAccount(|bankAccounts|, walletId, bankName, accountNumber, accountName, isDefault));
      if isDefault {
        ClearDefaults(walletId);
      }
      account := BankAccount(|bankAccounts|, walletId, bankName, accountNumber, accountName, isDefault);
      bankAccounts := bankAccounts + [account];
    }

    /** `getStatement`: the caller's wallet, then the page `(page - 1) * limit`
        of its transactions filtered by the date range (when both bounds are
        given) and the type (when given), with `total` and
        `ceil(total / limit)` pages. */
    function Statement(userId: UserId, startDate: Option<int>, endDate: Option<int>, txType: Option<TxType>,
                       page: int, limit: int): (r: Result<StatementPage, WalletError>)
      requires page >= 1 && limit >= 1
      reads this
      ensures r.Err? <==> WalletOfUser(wallets, userId).None?
      ensures r.Err? ==> r.error == WalletNotFound
      ensures r.Ok? ==>
                && |r.value.transactions| <= limit
                && r.value.transactions ==
                   TransactionQuery.TransactionHistory(wallets, transactions, userId, TransactionQuery.HistoryQuery(startDate, endDate, txType, None), page, limit)
                     .value.transactions
                && r.value.total == |TransactionQuery.Matching(transactions, WalletOfUser(wallets, userId).value.id,
                                              TransactionQuery.HistoryQuery(startDate, endDate, txType, None))|
                && (r.value.pages - 1) * limit < r.value.total <= r.value.pages * limit
    {
      match WalletOfUser(wallets, userId)
      case None => Err(WalletNotFound)
      case Some(w) =>
        var matches := TransactionQuery.Matching(transactions, w.id, TransactionQuery.HistoryQuery(startDate, endDate, txType, None));
        Ok(StatementPage(TransactionQuery.Page(matches, page, limit), |matches|, page, limit, TransactionQuery.Pages(|matches|, limit)))
    }
  }
}
