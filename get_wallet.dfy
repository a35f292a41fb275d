/** `GetWalletUseCase.execute`: a stored wallet's fields and its records,
    newest first, as plain views. */
module GetWallet {
  import opened Wrappers
  import opened DomainErrors
  import opened TransactionEntity
  import opened WalletEntity
  import opened WalletRepository
  import opened TransactionRepository
  import opened Ledger

  datatype TransactionView = TransactionView(id: string, kind: TransactionType, amount: int, balanceAfter: int,
                                             reference: Option<string>, relatedWalletId: Option<string>,
                                             createdAt: nat)

  datatype WalletDetails = WalletDetails(id: string, currency: string, balance: int, createdAt: nat,
                                         transactions: seq<TransactionView>)

  /** `new TransactionDto(...)` of a record. */
  function ViewOf(t: Transaction): (v: TransactionView)
    ensures v.id == t.id && v.kind == t.kind && v.amount == t.amount && v.balanceAfter == t.balanceAfter
    ensures v.reference == t.reference && v.relatedWalletId == t.relatedWalletId && v.createdAt == t.createdAt
  {
    TransactionView(t.id, t.kind, t.amount, t.balanceAfter, t.reference, t.relatedWalletId, t.createdAt)
  }

  /** `transactions.map(...)`: one view per record, in the same order. */
  function Views(s: seq<Transaction>): (r: seq<TransactionView>)
    ensures |r| == |s| && forall i :: 0 <= i < |s| ==> r[i] == ViewOf(s[i])
  {
    if s == [] then [] else [ViewOf(s[0])] + Views(s[1..])
  }

  /** What `execute` returns: a missing wallet is reported as not found;
      otherwise the stored wallet's fields and the views of
      `findByWalletId`, in its order. */
  function GetWalletDetails(L: LedgerState, walletId: string): (r: Result<WalletDetails, Error>)
    ensures r.Failure? <==> walletId !in L.wallets
    ensures r.Failure? ==> r.error == WalletNotFound(walletId)
    ensures r.Success? ==>
      var w := L.wallets[walletId];
      && r.value.id == w.id.value && r.value.currency == w.balance.currency
      && r.value.balance == w.balance.amount && r.value.createdAt == w.createdAt
    ensures r.Success? ==>
      var s := ByWalletId(L.txns, walletId);
      |r.value.transactions| == |s| && forall i :: 0 <= i < |s| ==> r.value.transactions[i] == ViewOf(s[i])
  {
    if walletId !in L.wallets then Failure(WalletNotFound(walletId))
    else
      var w := L.wallets[walletId];
      Success(WalletDetails(w.id.value, w.balance.currency, w.balance.amount, w.createdAt,
                            Views(ByWalletId(L.txns, walletId))))
  }

  /** A missing wallet is reported without looking at the transaction
      store. */
  lemma MissingIgnoresTransactions(L: LedgerState, walletId: string, txns: TxnStore)
    requires walletId !in L.wallets
    ensures GetWalletDetails(L, walletId) == GetWalletDetails(L.(txns := txns), walletId)
  {
  }

  /** The listed records are newest first. */
  lemma DetailsNewestFirst(L: LedgerState, walletId: string)
    requires walletId in L.wallets
    ensures var vs := GetWalletDetails(L, walletId).value.transactions;
      forall i, j :: 0 <= i < j < |vs| ==> vs[i].createdAt >= vs[j].createdAt
  {
    var s := ByWalletId(L.txns, walletId);
    assert NewestFirst(s);
  }

  /** When the two stores agree, the listed records are exactly the wallet's
      history, and the reported balance is their net sum. */
  lemma DetailsMatchHistory(L: LedgerState, walletId: string, t: Transaction)
    requires Valid(L) && Mirrored(L) && walletId in L.wallets
    ensures t in ByWalletId(L.txns, walletId) <==> t in L.wallets[walletId].transactions
    ensures GetWalletDetails(L, walletId).value.balance == Net(L.wallets[walletId].transactions)
  {
    ByWalletIdExactly(L.txns, walletId, t);
  }

  class GetWalletUseCase {
    const walletRepo: InMemoryWalletRepository
    const txnRepo: InMemoryTransactionRepository

    constructor (walletRepo: InMemoryWalletRepository, txnRepo: InMemoryTransactionRepository)
      ensures this.walletRepo == walletRepo && this.txnRepo == txnRepo
    {
      this.walletRepo := walletRepo;
      this.txnRepo := txnRepo;
    }

    /** Reads both stores and changes neither. */
    method Execute(walletId: string) returns (r: Result<WalletDetails, Error>)
      ensures r == GetWalletDetails(LedgerState(walletRepo.wallets, txnRepo.State()), walletId)
    {
      var wallet := walletRepo.FindById(walletId);
      if wallet.None? {
        return Failure(WalletNotFound(walletId));
      }
      var w := wallet.value;
      var transactions := txnRepo.FindByWalletId(walletId);
      return Success(WalletDetails(w.id.value, w.balance.currency, w.balance.amount, w.createdAt, Views(transactions)));
    }
  }
}
