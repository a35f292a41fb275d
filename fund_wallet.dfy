/** `FundWalletUseCase.execute`: credits a wallet, unless the amount is not
    positive, the idempotency key was seen before (the earlier record is
    reported again) or the wallet does not exist. The new record's id and the
    clock are parameters. */
module FundWallet {
  import opened Wrappers
  import opened Text
  import opened DomainErrors
  import opened MoneyValue
  import opened TransactionEntity
  import opened WalletEntity
  import opened WalletRepository
  import opened TransactionRepository
  import opened Ledger

  datatype FundWalletDto = FundWalletDto(walletId: string, amount: int, idempotencyKey: Option<string>,
                                         reference: Option<string>)

  datatype FundWalletResult = FundWalletResult(transactionId: string, walletId: string, amount: int,
                                               balanceAfter: int, createdAt: nat)

  /** The report built from a record. */
  function ResultOf(t: Transaction): (r: FundWalletResult)
    ensures r.transactionId == t.id && r.walletId == t.walletId && r.amount == t.amount
    ensures r.balanceAfter == t.balanceAfter && r.createdAt == t.createdAt
  {
    FundWalletResult(t.id, t.walletId, t.amount, t.balanceAfter, t.createdAt)
  }

  /** The record an applied call to fund a wallet whose snapshot is `s` is
      meant to produce: a credit in the wallet's currency whose
      balance-after is the old balance plus the amount. */
  function FundRecord(s: WalletState, dto: FundWalletDto, txnId: string, now: nat): Transaction {
    Transaction(txnId, s.id.value, TransactionType.Credit, dto.amount, s.balance.currency,
                s.balance.amount + dto.amount, dto.reference, None, now, dto.idempotencyKey)
  }

  /** A call that is reported from an earlier record: the key is truthy and
      the transaction store knows it. */
  predicate IsReplay(txns: TxnStore, dto: FundWalletDto) {
    Truthy(dto.idempotencyKey) && ByIdempotencyKey(txns, dto.idempotencyKey.value).Some?
  }

  /** What `execute` does. The checks come in the source's order: the amount,
      then the idempotency key, then the wallet's existence. */
  function FundStep(L: LedgerState, dto: FundWalletDto, txnId: string, now: nat)
    : (r: Reply<FundWalletResult, LedgerState>)
    ensures dto.amount <= 0 ==> r == Reply(Failure(InvalidAmount(dto.amount)), L)
    ensures dto.amount > 0 && IsReplay(L.txns, dto) ==>
      r == Reply(Success(ResultOf(L.txns.keyIndex[dto.idempotencyKey.value])), L)
    ensures dto.amount > 0 && !IsReplay(L.txns, dto) && dto.walletId !in L.wallets ==>
      r == Reply(Failure(WalletNotFound(dto.walletId)), L)
    ensures r.result.Failure? ==> r.state == L
    ensures dto.amount > 0 && !IsReplay(L.txns, dto) && dto.walletId in L.wallets ==>
      var s := L.wallets[dto.walletId];
      var t := FundRecord(s, dto, txnId, now);
      && r.result == Success(ResultOf(t))
      && r.state.txns == SaveTxn(L.txns, t)
      && r.state.wallets.Keys == L.wallets.Keys + {s.id.value}
      && r.state.wallets[s.id.value].id == s.id
      && r.state.wallets[s.id.value].createdAt == s.createdAt
      && r.state.wallets[s.id.value].balance.amount == s.balance.amount + dto.amount
      && r.state.wallets[s.id.value].balance.currency == s.balance.currency
      && r.state.wallets[s.id.value].transactions == s.transactions + [t]
      && (forall k :: k in L.wallets && k != s.id.value ==> r.state.wallets[k] == L.wallets[k])
  {
    if dto.amount <= 0 then Reply(Failure(InvalidAmount(dto.amount)), L)
    else if IsReplay(L.txns, dto) then
      Reply(Success(ResultOf(ByIdempotencyKey(L.txns, dto.idempotencyKey.value).value)), L)
    else if dto.walletId !in L.wallets then Reply(Failure(WalletNotFound(dto.walletId)), L)
    else
      var s := L.wallets[dto.walletId];
      var money := MoneyValue.Create(dto.amount, s.balance.currency).value;
      var p := Credited(s, money, dto.idempotencyKey, dto.reference, txnId, now).value;
      Reply(Success(ResultOf(p.txn)), LedgerState(L.wallets[p.wallet.id.value := p.wallet], SaveTxn(L.txns, p.txn)))
  }

  /** Funding keeps both stores' invariants. */
  lemma FundKeepsValid(L: LedgerState, dto: FundWalletDto, txnId: string, now: nat)
    requires Valid(L)
    ensures Valid(FundStep(L, dto, txnId, now).state)
  {
    if dto.amount > 0 && !IsReplay(L.txns, dto) && dto.walletId in L.wallets {
      var s := L.wallets[dto.walletId];
      var money := MoneyValue.Create(dto.amount, s.balance.currency).value;
      CreditedReconciled(s, money, dto.idempotencyKey, dto.reference, txnId, now);
      var p := Credited(s, money, dto.idempotencyKey, dto.reference, txnId, now).value;
      SaveKeepsWalletsValid(L.wallets, p.wallet);
      assert FundStep(L, dto, txnId, now).state == LedgerState(L.wallets[p.wallet.id.value := p.wallet], SaveTxn(L.txns, p.txn));
    }
  }

  /** On a ledger that keeps its invariants, an applied call changes only the
      funded wallet, stored under the id it was asked for, and adds exactly
      `amount` to its balance. */
  lemma FundChangesOneWallet(L: LedgerState, dto: FundWalletDto, txnId: string, now: nat)
    requires WalletsValid(L.wallets)
    requires dto.amount > 0 && !IsReplay(L.txns, dto) && dto.walletId in L.wallets
    ensures var w := FundStep(L, dto, txnId, now).state.wallets;
      && w.Keys == L.wallets.Keys
      && w[dto.walletId].balance.amount == L.wallets[dto.walletId].balance.amount + dto.amount
      && (forall k :: k in L.wallets && k != dto.walletId ==> w[k] == L.wallets[k])
  {
    var s := L.wallets[dto.walletId];
    assert s.id.value == dto.walletId;
    assert L.wallets.Keys + {s.id.value} == L.wallets.Keys;
  }

  /** Idempotency: once a call with a truthy key has been applied, the same
      call again (with any new record id and time) reports the same result and
      changes nothing. */
  lemma FundRetryReplays(L: LedgerState, dto: FundWalletDto, txnId: string, now: nat, txnId2: string, now2: nat)
    requires Truthy(dto.idempotencyKey)
    requires FundStep(L, dto, txnId, now).result.Success?
    ensures var L1 := FundStep(L, dto, txnId, now);
      FundStep(L1.state, dto, txnId2, now2) == Reply(L1.result, L1.state)
  {
    var L1 := FundStep(L, dto, txnId, now);
    if !IsReplay(L.txns, dto) {
      var t := FundRecord(L.wallets[dto.walletId], dto, txnId, now);
      assert ByIdempotencyKey(L1.state.txns, dto.idempotencyKey.value) == Some(t);
    }
  }

  /** With a fresh record id, funding keeps the stores in agreement: the new
      record is both in the wallet's history and in the transaction store. */
  lemma FundKeepsMirrored(L: LedgerState, dto: FundWalletDto, txnId: string, now: nat)
    requires Valid(L) && Mirrored(L) && txnId !in L.txns.records
    ensures Mirrored(FundStep(L, dto, txnId, now).state)
  {
    if dto.amount > 0 && !IsReplay(L.txns, dto) && dto.walletId in L.wallets {
      var s := L.wallets[dto.walletId];
      var t := FundRecord(s, dto, txnId, now);
      assert s.id.value == dto.walletId;
      PostKeepsMirrored(L.wallets, L.txns.records, dto.walletId, FundStep(L, dto, txnId, now).state.wallets[dto.walletId], t);
    }
  }

  class FundWalletUseCase {
    const walletRepo: InMemoryWalletRepository
    const txnRepo: InMemoryTransactionRepository

    constructor (walletRepo: InMemoryWalletRepository, txnRepo: InMemoryTransactionRepository)
      ensures this.walletRepo == walletRepo && this.txnRepo == txnRepo
    {
      this.walletRepo := walletRepo;
      this.txnRepo := txnRepo;
    }

    method Execute(dto: FundWalletDto, txnId: string, now: nat) returns (r: Result<FundWalletResult, Error>)
      requires txnRepo.Valid()
      modifies walletRepo, txnRepo
      ensures txnRepo.Valid()
      ensures Reply(r, LedgerState(walletRepo.wallets, txnRepo.State())) ==
        FundStep(LedgerState(old(walletRepo.wallets), old(txnRepo.State())), dto, txnId, now)
    {
      if dto.amount <= 0 {
        return Failure(InvalidAmount(dto.amount));
      }
      if Truthy(dto.idempotencyKey) {
        var existing := txnRepo.FindByIdempotencyKey(dto.idempotencyKey.value);
        if existing.Some? {
          return Success(ResultOf(existing.value));
        }
      }
      var found := walletRepo.FindByIdWithLock(dto.walletId);
      if found.None? {
        return Failure(WalletNotFound(dto.walletId));
      }
      var wallet := found.value;
      var money := MoneyValue.Create(dto.amount, wallet.balance.currency).value;
      var txn := wallet.Credit(money, dto.idempotencyKey, dto.reference, txnId, now);
      assert txn.Success?;
      var savedWallet := walletRepo.Save(wallet);
      var savedTxn := txnRepo.Save(txn.value);
      return Success(ResultOf(txn.value));
    }
  }
}
