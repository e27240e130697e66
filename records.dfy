/** The persisted rows the wallet and transaction handlers read and write:
    users, wallets, bank accounts and wallet transactions. Row ids are
    positions in the table that holds them; times are whole instants
    supplied by the caller. */
module Records {
  import opened Results
  import opened Sequences

  type UserId = string

  datatype User = User(firstName: string, lastName: string, isBvnVerified: bool)

  datatype Wallet = Wallet(id: nat, userId: UserId, accountNumber: string, accountName: string, balance: real)

  datatype BankAccount = BankAccount(id: nat, walletId: nat, bankName: string, accountNumber: string,
                                     accountName: string, isDefault: bool)

  datatype TxType = TopUp | Transfer | Withdrawal

  datatype TxStatus = Pending | Successful | Failed

  datatype Transaction = Transaction(id: nat, walletId: nat, txType: TxType, amount: real,
                                     status: TxStatus, reference: string, createdAt: int)

  /** `wallet.findUnique({ where: { userId } })`: the wallet of a user. */
  function WalletOfUser(wallets: seq<Wallet>, userId: UserId): (r: Option<Wallet>)
    ensures r.Some? ==> r.value in wallets && r.value.userId == userId
    ensures r.None? <==> forall w :: w in wallets ==> w.userId != userId
  {
    match FirstIndex(wallets, (w: Wallet) => w.userId == userId)
    case Some(i) => Some(wallets[i])
    case None => None
  }

  /** `wallet.findFirst({ where: { accountNumber } })`: the first wallet with
      an account number. */
  function WalletWithAccountNumber(wallets: seq<Wallet>, accountNumber: string): (r: Option<Wallet>)
    ensures r.Some? ==> r.value in wallets && r.value.accountNumber == accountNumber
    ensures r.None? <==> forall w :: w in wallets ==> w.accountNumber != accountNumber
  {
    match FirstIndex(wallets, (w: Wallet) => w.accountNumber == accountNumber)
    case Some(i) => Some(wallets[i])
    case None => None
  }

  /** Sum of the balances of all wallets. */
  function TotalBalance(wallets: seq<Wallet>): real {
    if wallets == [] then 0.0 else TotalBalance(wallets[..|wallets| - 1]) + wallets[|wallets| - 1].balance
  }

  /** `wallets` with the balance of wallet `i` moved by `delta`. */
  function Credit(wallets: seq<Wallet>, i: nat, delta: real): (r: seq<Wallet>)
    requires i < |wallets|
    ensures |r| == |wallets|
  {
    wallets[i := wallets[i].(balance := wallets[i].balance + delta)]
  }

  /** Moving one balance by `delta` moves the total by `delta`. */
  lemma {:induction false} CreditMovesTotal(wallets: seq<Wallet>, i: nat, delta: real)
    requires i < |wallets|
    ensures TotalBalance(Credit(wallets, i, delta)) == TotalBalance(wallets) + delta
    decreases |wallets|
  {
    var last := |wallets| - 1;
    var r := Credit(wallets, i, delta);
    assert r[..last] == if i == last then wallets[..last] else Credit(wallets[..last], i, delta);
    if i < last {
      CreditMovesTotal(wallets[..last], i, delta);
    }
  }
}
