/** `CreateWalletUseCase.execute`: makes a wallet with a zero balance in the
    requested currency, stores it and reports it. The generated id and the
    clock are parameters. */
module CreateWallet {
  import opened Wrappers
  import opened Text
  import opened DomainErrors
  import opened WalletEntity
  import opened WalletRepository
  import opened Ledger

  datatype CreateWalletDto = CreateWalletDto(currency: string)

  datatype CreateWalletResult = CreateWalletResult(id: string, currency: string, balance: int, createdAt: nat)

  /** What `execute` does to the wallet store: on success the new wallet's
      snapshot is stored under the generated id, which the result reports with
      a zero balance; on failure nothing is stored. */
  function CreateWalletStep(wallets: map<string, WalletState>, dto: CreateWalletDto, uuid: string, now: nat)
    : (r: Reply<CreateWalletResult, map<string, WalletState>>)
    ensures r.result.Success? <==> !IsBlank(uuid) && !IsBlank(dto.currency)
    ensures IsBlank(uuid) ==> r.result == Failure(WalletIdEmpty)
    ensures !IsBlank(uuid) && IsBlank(dto.currency) ==> r.result == Failure(CurrencyMissing)
    ensures r.result.Failure? ==> r.state == wallets
    ensures r.result.Success? ==> r.result.value == CreateWalletResult(uuid, dto.currency, 0, now)
    ensures r.result.Success? ==>
      && uuid in r.state
      && r.state[uuid].id.value == uuid && r.state[uuid].createdAt == now
      && r.state[uuid].balance.amount == 0 && r.state[uuid].balance.currency == dto.currency
      && r.state[uuid].transactions == []
    ensures forall k :: k != uuid ==> (k in r.state <==> k in wallets) && (k in wallets ==> r.state[k] == wallets[k])
  {
    match NewWallet(dto.currency, uuid, now)
    case Failure(e) => Reply(Failure(e), wallets)
    case Success(w) =>
      Reply(Success(CreateWalletResult(w.id.value, w.balance.currency, w.balance.amount, w.createdAt)),
            wallets[w.id.value := w])
  }

  /** Creating a wallet keeps every snapshot keyed by its id and reconciled. */
  lemma CreateKeepsValid(wallets: map<string, WalletState>, dto: CreateWalletDto, uuid: string, now: nat)
    requires WalletsValid(wallets)
    ensures WalletsValid(CreateWalletStep(wallets, dto, uuid, now).state)
  {
    if NewWallet(dto.currency, uuid, now).Success? {
      NewWalletReconciled(dto.currency, uuid, now);
    }
  }

  /** With a fresh id and agreeing stores, the stores still agree: the new
      wallet has no history and no stored record names it. */
  lemma CreateKeepsMirrored(L: LedgerState, dto: CreateWalletDto, uuid: string, now: nat)
    requires Mirrored(L) && uuid !in L.wallets
    ensures Mirrored(LedgerState(CreateWalletStep(L.wallets, dto, uuid, now).state, L.txns))
  {
  }

  /** Two successful creations with different ids add two different wallets;
      the first is untouched by the second. */
  lemma CreateTwiceDistinct(wallets: map<string, WalletState>, dto1: CreateWalletDto, dto2: CreateWalletDto,
                            uuid1: string, uuid2: string, now1: nat, now2: nat)
    requires uuid1 != uuid2
    requires CreateWalletStep(wallets, dto1, uuid1, now1).result.Success?
    requires CreateWalletStep(CreateWalletStep(wallets, dto1, uuid1, now1).state, dto2, uuid2, now2).result.Success?
    ensures var w1 := CreateWalletStep(wallets, dto1, uuid1, now1);
      var w2 := CreateWalletStep(w1.state, dto2, uuid2, now2);
      && w1.result.value.id != w2.result.value.id
      && w2.state[uuid1] == w1.state[uuid1]
      && w2.state.Keys == wallets.Keys + {uuid1, uuid2}
  {
  }

  class CreateWalletUseCase {
    const walletRepo: InMemoryWalletRepository

    constructor (walletRepo: InMemoryWalletRepository)
      ensures this.walletRepo == walletRepo
    {
      this.walletRepo := walletRepo;
    }

    method Execute(dto: CreateWalletDto, uuid: string, now: nat) returns (r: Result<CreateWalletResult, Error>)
      modifies walletRepo
      ensures Reply(r, walletRepo.wallets) == CreateWalletStep(old(walletRepo.wallets), dto, uuid, now)
    {
      var created := Wallet.Create(dto.currency, uuid, now);
      if created.Failure? {
        return Failure(created.error);
      }
      var saved := walletRepo.Save(created.value);
      return Success(CreateWalletResult(saved.id.value, saved.balance.currency, saved.balance.amount, saved.createdAt));
    }
  }
}
