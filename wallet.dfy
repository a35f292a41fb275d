/** The Wallet aggregate: a balance that `credit` and `debit` reassign and a
    history they append to. `WalletState` is the value of a wallet's fields;
    `Credited`, `Debited` and `NewWallet` say what the operations do to that
    value, and the class `Wallet` performs them in place. */
module WalletEntity {
  import opened Wrappers
  import opened Text
  import opened DomainErrors
  import opened MoneyValue
  import opened WalletIdValue
  import opened TransactionEntity

  datatype WalletState = WalletState(id: WalletId, balance: Money, createdAt: nat, transactions: seq<Transaction>)

  /** The wallet after a successful `credit` or `debit`, and the record the
      operation returned. */
  datatype Posting = Posting(wallet: WalletState, txn: Transaction)

  /** `Wallet.create(currency)`: the generated id is checked first, then the
      zero balance in `currency`. */
  function NewWallet(currency: string, uuid: string, now: nat): (r: Result<WalletState, Error>)
    ensures r.Success? <==> !IsBlank(uuid) && !IsBlank(currency)
    ensures IsBlank(uuid) ==> r == Failure(WalletIdEmpty)
    ensures !IsBlank(uuid) && IsBlank(currency) ==> r == Failure(CurrencyMissing)
    ensures r.Success? ==> r.value.id.value == uuid && r.value.createdAt == now
    ensures r.Success? ==> r.value.balance.amount == 0 && r.value.balance.currency == currency
    ensures r.Success? ==> r.value.transactions == []
  {
    match Generate(uuid)
    case Failure(e) => Failure(e)
    case Success(id) =>
      match MoneyValue.Create(0, currency)
      case Failure(e) => Failure(e)
      case Success(zero) => Success(WalletState(id, zero, now, []))
  }

  /** `credit(amount, idempotencyKey, reference)` on a wallet whose fields are
      `s`. A currency mismatch fails before anything is assigned. */
  function Credited(s: WalletState, amount: Money, key: Option<string>, reference: Option<string>,
                    txnId: string, now: nat): (r: Result<Posting, Error>)
    ensures r.Success? <==> amount.currency == s.balance.currency
    ensures r.Failure? ==> r.error == CurrencyDiffers
    ensures r.Success? ==>
      && r.value.wallet.id == s.id && r.value.wallet.createdAt == s.createdAt
      && r.value.wallet.balance.amount == s.balance.amount + amount.amount
      && r.value.wallet.balance.currency == s.balance.currency
      && r.value.wallet.transactions == s.transactions + [r.value.txn]
    ensures r.Success? ==>
      r.value.txn == Transaction(txnId, s.id.value, TransactionType.Credit, amount.amount, amount.currency,
                                 r.value.wallet.balance.amount, reference, None, now, key)
  {
    match Add(s.balance, amount)
    case Failure(e) => Failure(e)
    case Success(newBalance) =>
      var txn := TransactionEntity.Create(
        CreateParams(s.id.value, TransactionType.Credit, amount.amount, amount.currency, newBalance.amount,
                     reference, None, key),
        txnId, now);
      Success(Posting(s.(balance := newBalance, transactions := s.transactions + [txn]), txn))
  }

  /** The kind a debit is recorded with: a transfer leg when a related wallet
      is given (a truthy string), a plain debit otherwise. */
  function DebitKind(relatedWalletId: Option<string>): (k: TransactionType)
    ensures k == TransferOut <==> relatedWalletId.Some? && relatedWalletId.value != ""
    ensures k == Debit <==> !(relatedWalletId.Some? && relatedWalletId.value != "")
  {
    if Truthy(relatedWalletId) then TransferOut else Debit
  }

  /** `debit(amount, idempotencyKey, reference, relatedWalletId)` on a wallet
      whose fields are `s`. The comparison fails first on a currency
      mismatch; a balance below the amount fails 'Insufficient funds'. */
  function Debited(s: WalletState, amount: Money, key: Option<string>, reference: Option<string>,
                   relatedWalletId: Option<string>, txnId: string, now: nat): (r: Result<Posting, Error>)
    ensures amount.currency != s.balance.currency ==> r == Failure(CurrencyDiffers)
    ensures amount.currency == s.balance.currency && amount.amount > s.balance.amount ==> r == Failure(NotEnoughFunds)
    ensures r.Success? <==> amount.currency == s.balance.currency && amount.amount <= s.balance.amount
    ensures r.Success? ==>
      && r.value.wallet.id == s.id && r.value.wallet.createdAt == s.createdAt
      && r.value.wallet.balance.amount == s.balance.amount - amount.amount
      && r.value.wallet.balance.currency == s.balance.currency
      && r.value.wallet.transactions == s.transactions + [r.value.txn]
    ensures r.Success? ==>
      r.value.txn == Transaction(txnId, s.id.value, DebitKind(relatedWalletId), amount.amount, amount.currency,
                                 r.value.wallet.balance.amount, reference, relatedWalletId, now, key)
  {
    match IsGreaterThanOrEqual(s.balance, amount)
    case Failure(e) => Failure(e)
    case Success(covered) =>
      if !covered then Failure(NotEnoughFunds)
      else
        var newBalance := Subtract(s.balance, amount).value;
        var txn := TransactionEntity.Create(
          CreateParams(s.id.value, DebitKind(relatedWalletId), amount.amount, amount.currency,
                       newBalance.amount, reference, relatedWalletId, key),
          txnId, now);
        Success(Posting(s.(balance := newBalance, transactions := s.transactions + [txn]), txn))
  }

  /** The effect of a record on its wallet's balance. */
  function Signed(t: Transaction): int {
    if t.kind == TransactionType.Credit || t.kind == TransferIn then t.amount else -t.amount
  }

  /** The running sum of credits minus debits of a history. */
  function Net(h: seq<Transaction>): int {
    if h == [] then 0 else Net(h[..|h| - 1]) + Signed(h[|h| - 1])
  }

  /** The aggregate's invariant: every record belongs to the wallet and in its
      currency, each record's balance-after is the running sum up to and
      including it (never negative), and the balance is the sum of the whole
      history. */
  ghost predicate Reconciled(s: WalletState) {
    && s.balance.amount == Net(s.transactions)
    && (forall i :: 0 <= i < |s.transactions| ==>
          s.transactions[i].walletId == s.id.value && s.transactions[i].currency == s.balance.currency)
    && (forall i :: 0 <= i < |s.transactions| ==>
          s.transactions[i].balanceAfter == Net(s.transactions[..i + 1]) >= 0)
  }

  lemma AppendReconciled(s: WalletState, s': WalletState, t: Transaction)
    requires Reconciled(s)
    requires s'.id == s.id && s'.balance.currency == s.balance.currency
    requires s'.transactions == s.transactions + [t]
    requires t.walletId == s.id.value && t.currency == s.balance.currency
    requires s'.balance.amount == s.balance.amount + Signed(t) == t.balanceAfter
    ensures Reconciled(s')
  {
    var h, h' := s.transactions, s'.transactions;
    assert h'[..|h'| - 1] == h;
    forall i | 0 <= i < |h'|
      ensures h'[i].balanceAfter == Net(h'[..i + 1]) >= 0
    {
      if i < |h| {
        assert h'[..i + 1] == h[..i + 1];
      } else {
        assert h'[..i + 1] == h';
      }
    }
  }

  /** A new wallet satisfies the invariant. */
  lemma NewWalletReconciled(currency: string, uuid: string, now: nat)
    requires NewWallet(currency, uuid, now).Success?
    ensures Reconciled(NewWallet(currency, uuid, now).value)
  {
  }

  /** `credit` keeps the invariant: the new record's balance-after is the new
      balance, which is the old one plus the amount. */
  lemma CreditedReconciled(s: WalletState, amount: Money, key: Option<string>, reference: Option<string>,
                           txnId: string, now: nat)
    requires Reconciled(s) && Credited(s, amount, key, reference, txnId, now).Success?
    ensures Reconciled(Credited(s, amount, key, reference, txnId, now).value.wallet)
  {
    var p := Credited(s, amount, key, reference, txnId, now).value;
    AppendReconciled(s, p.wallet, p.txn);
  }

  /** `debit` keeps the invariant: the new record's balance-after is the new
      balance, which is the old one minus the amount. */
  lemma DebitedReconciled(s: WalletState, amount: Money, key: Option<string>, reference: Option<string>,
                          relatedWalletId: Option<string>, txnId: string, now: nat)
    requires Reconciled(s) && Debited(s, amount, key, reference, relatedWalletId, txnId, now).Success?
    ensures Reconciled(Debited(s, amount, key, reference, relatedWalletId, txnId, now).value.wallet)
  {
    var p := Debited(s, amount, key, reference, relatedWalletId, txnId, now).value;
    AppendReconciled(s, p.wallet, p.txn);
  }

  /** A credit followed by a debit of the same amount restores the balance and
      adds exactly two records. */
  lemma CreditThenDebitRestores(s: WalletState, amount: Money, k1: Option<string>, r1: Option<string>,
                                id1: string, n1: nat, k2: Option<string>, r2: Option<string>,
                                related: Option<string>, id2: string, n2: nat)
    requires amount.currency == s.balance.currency
    ensures Credited(s, amount, k1, r1, id1, n1).Success?
    ensures var w1 := Credited(s, amount, k1, r1, id1, n1).value.wallet;
      && Debited(w1, amount, k2, r2, related, id2, n2).Success?
      && Debited(w1, amount, k2, r2, related, id2, n2).value.wallet.balance == s.balance
      && |Debited(w1, amount, k2, r2, related, id2, n2).value.wallet.transactions| == |s.transactions| + 2
  {
  }

  class Wallet {
    const id: WalletId
    var balance: Money
    const createdAt: nat
    var history: seq<Transaction>

    /** The wallet's fields as a value. */
    function State(): WalletState
      reads this
    {
      WalletState(id, balance, createdAt, history)
    }

    constructor (id: WalletId, balance: Money, createdAt: nat)
      ensures State() == WalletState(id, balance, createdAt, [])
    {
      this.id := id;
      this.balance := balance;
      this.createdAt := createdAt;
      history := [];
    }

    /** The `transactions` getter. A sequence is a value, so what the caller
        does with the result never reaches `history`. */
    function Transactions(): seq<Transaction>
      reads this
    {
      history
    }

    static method Create(currency: string, uuid: string, now: nat) returns (r: Result<Wallet, Error>)
      ensures r.Failure? ==> NewWallet(currency, uuid, now) == Failure(r.error)
      ensures r.Success? ==> fresh(r.value) && NewWallet(currency, uuid, now) == Success(r.value.State())
    {
      var walletId := Generate(uuid);
      if walletId.Failure? {
        return Failure(walletId.error);
      }
      var zero := MoneyValue.Create(0, currency);
      if zero.Failure? {
        return Failure(zero.error);
      }
      var w := new Wallet(walletId.value, zero.value, now);
      return Success(w);
    }

    method Credit(amount: Money, key: Option<string>, reference: Option<string>, txnId: string, now: nat)
      returns (r: Result<Transaction, Error>)
      modifies this
      ensures r.Success? ==> Credited(old(State()), amount, key, reference, txnId, now) == Success(Posting(State(), r.value))
      ensures r.Failure? ==> Credited(old(State()), amount, key, reference, txnId, now) == Failure(r.error)
      ensures r.Failure? ==> State() == old(State())
    {
      var newBalance := Add(balance, amount);
      if newBalance.Failure? {
        return Failure(newBalance.error);
      }
      balance := newBalance.value;
      var txn := TransactionEntity.Create(
        CreateParams(id.value, TransactionType.Credit, amount.amount, amount.currency, balance.amount,
                     reference, None, key),
        txnId, now);
      history := history + [txn];
      return Success(txn);
    }

    method Debit(amount: Money, key: Option<string>, reference: Option<string>, relatedWalletId: Option<string>,
                 txnId: string, now: nat)
      returns (r: Result<Transaction, Error>)
      modifies this
      ensures r.Success? ==>
        Debited(old(State()), amount, key, reference, relatedWalletId, txnId, now) == Success(Posting(State(), r.value))
      ensures r.Failure? ==>
        Debited(old(State()), amount, key, reference, relatedWalletId, txnId, now) == Failure(r.error)
      ensures r.Failure? ==> State() == old(State())
    {
      var covered := IsGreaterThanOrEqual(balance, amount);
      if covered.Failure? {
        return Failure(covered.error);
      }
      if !covered.value {
        return Failure(NotEnoughFunds);
      }
      balance := Subtract(balance, amount).value;
      var txn := TransactionEntity.Create(
        CreateParams(id.value, DebitKind(relatedWalletId), amount.amount, amount.currency, balance.amount,
                     reference, relatedWalletId, key),
        txnId, now);
      history := history + [txn];
      return Success(txn);
    }

    /** `addTransaction(t)`: appends the record; the balance is not touched. */
    method AddTransaction(t: Transaction)
      modifies this
      ensures State() == old(State()).(transactions := old(State()).transactions + [t])
    {
      history := history + [t];
    }
  }
}
