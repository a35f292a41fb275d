/** `TransferFundsUseCase.execute`: moves an amount from one wallet to another
    as a TRANSFER_OUT record on the sender and a CREDIT record on the
    receiver, unless a request with the same idempotency key is recognised as
    already done. The two new record ids and their creation times are
    parameters. */
module TransferFunds {
  import opened Wrappers
  import opened Text
  import opened DomainErrors
  import opened MoneyValue
  import opened TransactionEntity
  import opened WalletEntity
  import opened WalletRepository
  import opened TransactionRepository
  import opened Ledger

  datatype TransferFundsDto = TransferFundsDto(fromWalletId: string, toWalletId: string, amount: int,
                                               idempotencyKey: Option<string>, reference: Option<string>)

  datatype TransferFundsResult = TransferFundsResult(
    debitTransactionId: string, creditTransactionId: string, fromWalletId: string, toWalletId: string,
    amount: int, fromBalanceAfter: int, toBalanceAfter: int, createdAt: nat)

  /** `[a, b].sort()`: both ids, in ascending order. */
  function SortedIds(a: string, b: string): (r: seq<string>)
    ensures |r| == 2 && multiset(r) == multiset{a, b}
    ensures LexLe(r[0], r[1])
  {
    LexLeTotal(a, b);
    if LexLe(a, b) then [a, b] else [b, a]
  }

  /** The wallets `findMultipleByIdsWithLock(ids)` hands out: the requested
      ids that are stored, with their snapshots. */
  function Locked(wallets: map<string, WalletState>, ids: seq<string>): (r: map<string, WalletState>)
    ensures forall id :: id in r <==> id in ids && id in wallets
    ensures forall id :: id in r ==> r[id] == wallets[id]
  {
    map id | id in ids && id in wallets :: wallets[id]
  }

  /** The `find` predicate of the replay search: a record that names the
      sender as related wallet and was created less than 1000 ms from the
      key's record. The kind of the record is not looked at. */
  predicate PairsWith(c: Transaction, fromWalletId: string, debitAt: nat): (b: bool)
    ensures b <==> c.relatedWalletId == Some(fromWalletId) && -1000 < c.createdAt - debitAt < 1000
  {
    c.relatedWalletId == Some(fromWalletId)
      && (if c.createdAt >= debitAt then c.createdAt - debitAt else debitAt - c.createdAt) < 1000
  }

  /** The search predicate with an optional check on the kind: with
      `creditOnly` only a CREDIT record pairs, the receiver's leg of a
      transfer. As written the search runs with `creditOnly == false`. */
  predicate Matches(c: Transaction, fromWalletId: string, debitAt: nat, creditOnly: bool) {
    (!creditOnly || c.kind == TransactionType.Credit) && PairsWith(c, fromWalletId, debitAt)
  }

  /** `Array.prototype.find` with that predicate: the first match. */
  function FindPair(s: seq<Transaction>, fromWalletId: string, debitAt: nat, creditOnly: bool): (r: Option<Transaction>)
    ensures r.None? <==> forall i :: 0 <= i < |s| ==> !Matches(s[i], fromWalletId, debitAt, creditOnly)
    ensures r.Some? ==> exists i :: (0 <= i < |s| && s[i] == r.value && Matches(r.value, fromWalletId, debitAt, creditOnly)
      && forall j :: 0 <= j < i ==> !Matches(s[j], fromWalletId, debitAt, creditOnly))
  {
    if s == [] then None
    else if Matches(s[0], fromWalletId, debitAt, creditOnly) then Some(s[0])
    else
      var r := FindPair(s[1..], fromWalletId, debitAt, creditOnly);
      FindPairShift(s, fromWalletId, debitAt, creditOnly, r);
      r
  }

  lemma FindPairShift(s: seq<Transaction>, fromWalletId: string, debitAt: nat, creditOnly: bool, r: Option<Transaction>)
    requires s != [] && !Matches(s[0], fromWalletId, debitAt, creditOnly)
    requires r.Some? ==> exists i :: (0 <= i < |s[1..]| && s[1..][i] == r.value && Matches(r.value, fromWalletId, debitAt, creditOnly)
      && forall j :: 0 <= j < i ==> !Matches(s[1..][j], fromWalletId, debitAt, creditOnly))
    ensures r.Some? ==> exists i :: (0 <= i < |s| && s[i] == r.value && Matches(r.value, fromWalletId, debitAt, creditOnly)
      && forall j :: 0 <= j < i ==> !Matches(s[j], fromWalletId, debitAt, creditOnly))
  {
    if r.Some? {
      var i :| 0 <= i < |s[1..]| && s[1..][i] == r.value && Matches(r.value, fromWalletId, debitAt, creditOnly)
        && forall j :: 0 <= j < i ==> !Matches(s[1..][j], fromWalletId, debitAt, creditOnly);
      assert s[i + 1] == r.value;
      assert forall j :: 0 < j < i + 1 ==> s[j] == s[1..][j - 1];
    }
  }

  /** The idempotency replay, with or without the check on the kind: with a
      truthy key whose record is a TRANSFER_OUT, the first of the receiver's
      records (newest first) that pairs with it gives the cached result. */
  function ReplayBy(st: TxnStore, dto: TransferFundsDto, creditOnly: bool): (r: Option<TransferFundsResult>)
    ensures r.Some? <==>
      && Truthy(dto.idempotencyKey) && dto.idempotencyKey.value in st.keyIndex
      && st.keyIndex[dto.idempotencyKey.value].kind == TransferOut
      && exists c :: c in ByWalletId(st, dto.toWalletId)
           && Matches(c, dto.fromWalletId, st.keyIndex[dto.idempotencyKey.value].createdAt, creditOnly)
    ensures r.Some? ==>
      var e := st.keyIndex[dto.idempotencyKey.value];
      var c := FindPair(ByWalletId(st, dto.toWalletId), dto.fromWalletId, e.createdAt, creditOnly).value;
      r.value == TransferFundsResult(e.id, c.id, dto.fromWalletId, dto.toWalletId, dto.amount,
                                     e.balanceAfter, c.balanceAfter, e.createdAt)
  {
    if Truthy(dto.idempotencyKey) && ByIdempotencyKey(st, dto.idempotencyKey.value).Some? then
      var e := ByIdempotencyKey(st, dto.idempotencyKey.value).value;
      if e.kind == TransferOut then
        var credits := ByWalletId(st, dto.toWalletId);
        match FindPair(credits, dto.fromWalletId, e.createdAt, creditOnly)
        case Some(c) =>
          Some(TransferFundsResult(e.id, c.id, dto.fromWalletId, dto.toWalletId, dto.amount,
                                   e.balanceAfter, c.balanceAfter, e.createdAt))
        case None =>
          assert forall c :: c in credits ==> !Matches(c, dto.fromWalletId, e.createdAt, creditOnly);
          None
      else None
    else None
  }

  /** The replay search as written: any record of the receiver that names
      the sender pairs, whatever its kind. */
  function ReplayOf(st: TxnStore, dto: TransferFundsDto): (r: Option<TransferFundsResult>)
    ensures r.Some? <==>
      && Truthy(dto.idempotencyKey) && dto.idempotencyKey.value in st.keyIndex
      && st.keyIndex[dto.idempotencyKey.value].kind == TransferOut
      && exists c :: c in ByWalletId(st, dto.toWalletId)
           && PairsWith(c, dto.fromWalletId, st.keyIndex[dto.idempotencyKey.value].createdAt)
    ensures r.Some? ==>
      var e := st.keyIndex[dto.idempotencyKey.value];
      var c := FindPair(ByWalletId(st, dto.toWalletId), dto.fromWalletId, e.createdAt, false).value;
      r.value == TransferFundsResult(e.id, c.id, dto.fromWalletId, dto.toWalletId, dto.amount,
                                     e.balanceAfter, c.balanceAfter, e.createdAt)
  {
    ReplayBy(st, dto, false)
  }

  /** The credit leg: `credit(amount, undefined, reference)` on the receiver,
      whose record then carries `related` as related wallet. As written the
      source passes no related wallet (`related == None`). */
  function CreditLeg(s: WalletState, amount: Money, reference: Option<string>, related: Option<string>,
                     txnId: string, now: nat): (p: Posting)
    requires amount.currency == s.balance.currency
    ensures p.txn == Transaction(txnId, s.id.value, TransactionType.Credit, amount.amount, amount.currency,
                                 s.balance.amount + amount.amount, reference, related, now, None)
    ensures p.wallet.id == s.id && p.wallet.createdAt == s.createdAt
    ensures p.wallet.balance.amount == s.balance.amount + amount.amount
    ensures p.wallet.balance.currency == s.balance.currency
    ensures p.wallet.transactions == s.transactions + [p.txn]
  {
    var p := Credited(s, amount, None, reference, txnId, now).value;
    var txn := p.txn.(relatedWalletId := related);
    Posting(p.wallet.(transactions := s.transactions + [txn]), txn)
  }

  /** The credit leg keeps the receiver's invariant, whatever it names as
      related wallet. */
  lemma CreditLegReconciled(s: WalletState, amount: Money, reference: Option<string>, related: Option<string>,
                            txnId: string, now: nat)
    requires amount.currency == s.balance.currency && Reconciled(s)
    ensures Reconciled(CreditLeg(s, amount, reference, related, txnId, now).wallet)
  {
    var p := CreditLeg(s, amount, reference, related, txnId, now);
    AppendReconciled(s, p.wallet, p.txn);
  }

  /** As written, the credit leg is exactly what `credit` produces. */
  lemma CreditLegAsWritten(s: WalletState, amount: Money, reference: Option<string>, txnId: string, now: nat)
    requires amount.currency == s.balance.currency
    ensures Credited(s, amount, None, reference, txnId, now) == Success(CreditLeg(s, amount, reference, None, txnId, now))
  {
  }

  /** The request gets past the argument checks and the replay check to the
      wallet lookup. */
  predicate Proceeds(L: LedgerState, dto: TransferFundsDto) {
    dto.amount > 0 && dto.fromWalletId != dto.toWalletId && ReplayOf(L.txns, dto).None?
  }

  /** The request moves money: it proceeds, both wallets exist, their
      currencies agree and the sender covers the amount. */
  predicate Applies(L: LedgerState, dto: TransferFundsDto) {
    && Proceeds(L, dto) && dto.fromWalletId in L.wallets && dto.toWalletId in L.wallets
    && L.wallets[dto.fromWalletId].balance.currency == L.wallets[dto.toWalletId].balance.currency
    && dto.amount <= L.wallets[dto.fromWalletId].balance.amount
  }

  /** The sender's record an applied transfer is meant to produce. */
  function DebitRecord(f: WalletState, dto: TransferFundsDto, txnId: string, now: nat): Transaction {
    Transaction(txnId, f.id.value, DebitKind(Some(dto.toWalletId)), dto.amount, f.balance.currency,
                f.balance.amount - dto.amount, dto.reference, Some(dto.toWalletId), now, dto.idempotencyKey)
  }

  /** The receiver's record an applied transfer is meant to produce. */
  function CreditRecord(t: WalletState, dto: TransferFundsDto, related: Option<string>, txnId: string, now: nat)
    : Transaction
  {
    Transaction(txnId, t.id.value, TransactionType.Credit, dto.amount, t.balance.currency,
                t.balance.amount + dto.amount, dto.reference, related, now, None)
  }

  /** The moving of money once every check has passed: the sender's debit
      and the receiver's credit leg, the two wallets saved in that order and
      then the two records. */
  function Move(L: LedgerState, dto: TransferFundsDto, f: WalletState, t: WalletState, debitId: string,
                debitAt: nat, creditId: string, creditAt: nat, related: Option<string>)
    : (r: Reply<TransferFundsResult, LedgerState>)
    requires dto.amount > 0 && f.balance.currency == t.balance.currency && dto.amount <= f.balance.amount
    ensures r.result == Success(TransferFundsResult(debitId, creditId, dto.fromWalletId, dto.toWalletId, dto.amount,
                                                    f.balance.amount - dto.amount, t.balance.amount + dto.amount,
                                                    debitAt))
    ensures r.state.txns == SaveTxn(SaveTxn(L.txns, DebitRecord(f, dto, debitId, debitAt)),
                                    CreditRecord(t, dto, related, creditId, creditAt))
  {
    var money := MoneyValue.Create(dto.amount, f.balance.currency).value;
    MoveLegs(f, t, dto, money, debitId, debitAt, creditId, creditAt, related);
    var d := Debited(f, money, dto.idempotencyKey, dto.reference, Some(dto.toWalletId), debitId, debitAt).value;
    var c := CreditLeg(t, money, dto.reference, related, creditId, creditAt);
    Reply(Success(TransferFundsResult(d.txn.id, c.txn.id, dto.fromWalletId, dto.toWalletId, dto.amount,
                                      d.txn.balanceAfter, c.txn.balanceAfter, d.txn.createdAt)),
          LedgerState(L.wallets[d.wallet.id.value := d.wallet][c.wallet.id.value := c.wallet],
                      SaveTxn(SaveTxn(L.txns, d.txn), c.txn)))
  }

  /** The two legs of a move are the intended debit and credit records. */
  lemma MoveLegs(f: WalletState, t: WalletState, dto: TransferFundsDto, money: Money, debitId: string,
                 debitAt: nat, creditId: string, creditAt: nat, related: Option<string>)
    requires money.amount == dto.amount && dto.amount <= f.balance.amount
    requires money.currency == f.balance.currency && money.currency == t.balance.currency
    ensures var d := Debited(f, money, dto.idempotencyKey, dto.reference, Some(dto.toWalletId), debitId, debitAt);
      d.Success? && d.value.txn == DebitRecord(f, dto, debitId, debitAt)
    ensures CreditLeg(t, money, dto.reference, related, creditId, creditAt).txn
         == CreditRecord(t, dto, related, creditId, creditAt)
  {
  }

  /** The checks after the replay check, on the wallets the lock fetch
      returned: sender, receiver, currencies, funds. */
  function Checked(L: LedgerState, dto: TransferFundsDto, locked: map<string, WalletState>, debitId: string,
                   debitAt: nat, creditId: string, creditAt: nat, related: Option<string>)
    : (r: Reply<TransferFundsResult, LedgerState>)
    requires dto.amount > 0
    ensures dto.fromWalletId !in locked ==> r == Reply(Failure(WalletNotFound(dto.fromWalletId)), L)
    ensures dto.fromWalletId in locked && dto.toWalletId !in locked ==>
      r == Reply(Failure(WalletNotFound(dto.toWalletId)), L)
    ensures dto.fromWalletId in locked && dto.toWalletId in locked ==>
      var f, t := locked[dto.fromWalletId], locked[dto.toWalletId];
      && (f.balance.currency != t.balance.currency ==>
            r == Reply(Failure(CurrencyMismatch(f.balance.currency, t.balance.currency)), L))
      && (f.balance.currency == t.balance.currency && dto.amount > f.balance.amount ==>
            r == Reply(Failure(InsufficientFunds(dto.fromWalletId)), L))
      && (f.balance.currency == t.balance.currency && dto.amount <= f.balance.amount ==>
            r == Move(L, dto, f, t, debitId, debitAt, creditId, creditAt, related))
  {
    if dto.fromWalletId !in locked then Reply(Failure(WalletNotFound(dto.fromWalletId)), L)
    else if dto.toWalletId !in locked then Reply(Failure(WalletNotFound(dto.toWalletId)), L)
    else
      var f, t := locked[dto.fromWalletId], locked[dto.toWalletId];
      if f.balance.currency != t.balance.currency then
        Reply(Failure(CurrencyMismatch(f.balance.currency, t.balance.currency)), L)
      else
        var money := MoneyValue.Create(dto.amount, f.balance.currency).value;
        if !IsGreaterThanOrEqual(f.balance, money).value then Reply(Failure(InsufficientFunds(dto.fromWalletId)), L)
        else Move(L, dto, f, t, debitId, debitAt, creditId, creditAt, related)
  }

  /** What `execute` does, with the credit leg's related wallet as a
      parameter. The checks come in the source's order: amount, same wallet,
      replay, then `Checked` on the wallets of the sorted ids. */
  function Transfer(L: LedgerState, dto: TransferFundsDto, debitId: string, debitAt: nat,
                    creditId: string, creditAt: nat, related: Option<string>)
    : (r: Reply<TransferFundsResult, LedgerState>)
    ensures dto.amount <= 0 ==> r == Reply(Failure(InvalidAmount(dto.amount)), L)
    ensures dto.amount > 0 && dto.fromWalletId == dto.toWalletId ==> r == Reply(Failure(SameWalletTransfer), L)
    ensures dto.amount > 0 && dto.fromWalletId != dto.toWalletId && ReplayOf(L.txns, dto).Some? ==>
      r == Reply(Success(ReplayOf(L.txns, dto).value), L)
    ensures Proceeds(L, dto) ==>
      r == Checked(L, dto, L.wallets, debitId, debitAt, creditId, creditAt, related)
  {
    if dto.amount <= 0 then Reply(Failure(InvalidAmount(dto.amount)), L)
    else if dto.fromWalletId == dto.toWalletId then Reply(Failure(SameWalletTransfer), L)
    else if ReplayOf(L.txns, dto).Some? then Reply(Success(ReplayOf(L.txns, dto).value), L)
    else
      var locked := Locked(L.wallets, SortedIds(dto.fromWalletId, dto.toWalletId));
      CheckedOnLocked(L, dto, locked, debitId, debitAt, creditId, creditAt, related);
      Checked(L, dto, locked, debitId, debitAt, creditId, creditAt, related)
  }

  /** The lock fetch of both ids returns both wallets' snapshots, so the
      checks see the same wallets as on the whole store. */
  lemma CheckedOnLocked(L: LedgerState, dto: TransferFundsDto, locked: map<string, WalletState>, debitId: string,
                        debitAt: nat, creditId: string, creditAt: nat, related: Option<string>)
    requires dto.amount > 0
    requires locked == Locked(L.wallets, SortedIds(dto.fromWalletId, dto.toWalletId))
    ensures Checked(L, dto, locked, debitId, debitAt, creditId, creditAt, related)
         == Checked(L, dto, L.wallets, debitId, debitAt, creditId, creditAt, related)
  {
    var ids := SortedIds(dto.fromWalletId, dto.toWalletId);
    assert dto.fromWalletId in multiset(ids) && dto.toWalletId in multiset(ids);
  }

  /** A transfer that fails changes nothing. */
  lemma TransferFailureUnchanged(L: LedgerState, dto: TransferFundsDto, debitId: string, debitAt: nat,
                                 creditId: string, creditAt: nat, related: Option<string>)
    ensures var r := Transfer(L, dto, debitId, debitAt, creditId, creditAt, related);
      r.result.Failure? ==> r.state == L
  {
    if Proceeds(L, dto) && dto.fromWalletId in L.wallets && dto.toWalletId in L.wallets {
      var f, t := L.wallets[dto.fromWalletId], L.wallets[dto.toWalletId];
      if f.balance.currency == t.balance.currency && dto.amount <= f.balance.amount {
        var r := Move(L, dto, f, t, debitId, debitAt, creditId, creditAt, related);
        assert r.result.Success?;
      }
    }
  }

  /** A missing sender is reported before a missing receiver. */
  lemma TransferNotFound(L: LedgerState, dto: TransferFundsDto, debitId: string, debitAt: nat,
                         creditId: string, creditAt: nat, related: Option<string>)
    requires Proceeds(L, dto)
    ensures dto.fromWalletId !in L.wallets ==>
      Transfer(L, dto, debitId, debitAt, creditId, creditAt, related).result == Failure(WalletNotFound(dto.fromWalletId))
    ensures dto.fromWalletId in L.wallets && dto.toWalletId !in L.wallets ==>
      Transfer(L, dto, debitId, debitAt, creditId, creditAt, related).result == Failure(WalletNotFound(dto.toWalletId))
  {
  }

  /** A transfer succeeds exactly when the arguments pass and it is either a
      replay or an applicable transfer. */
  lemma TransferSucceedsIff(L: LedgerState, dto: TransferFundsDto, debitId: string, debitAt: nat,
                            creditId: string, creditAt: nat, related: Option<string>)
    ensures Transfer(L, dto, debitId, debitAt, creditId, creditAt, related).result.Success? <==>
      dto.amount > 0 && dto.fromWalletId != dto.toWalletId && (ReplayOf(L.txns, dto).Some? || Applies(L, dto))
  {
    if Proceeds(L, dto) && dto.fromWalletId in L.wallets && dto.toWalletId in L.wallets {
      var f, t := L.wallets[dto.fromWalletId], L.wallets[dto.toWalletId];
      if f.balance.currency == t.balance.currency && dto.amount <= f.balance.amount {
        var r := Move(L, dto, f, t, debitId, debitAt, creditId, creditAt, related);
        assert r.result.Success?;
      }
    }
  }

  /** An applied transfer reports both new balances and saves the two
      intended records, the debit first. */
  lemma TransferApplied(L: LedgerState, dto: TransferFundsDto, debitId: string, debitAt: nat,
                        creditId: string, creditAt: nat, related: Option<string>)
    requires Applies(L, dto)
    ensures var r := Transfer(L, dto, debitId, debitAt, creditId, creditAt, related);
      var f, t := L.wallets[dto.fromWalletId], L.wallets[dto.toWalletId];
      && r.result == Success(TransferFundsResult(debitId, creditId, dto.fromWalletId, dto.toWalletId, dto.amount,
                                                 f.balance.amount - dto.amount, t.balance.amount + dto.amount, debitAt))
      && r.state.txns == SaveTxn(SaveTxn(L.txns, DebitRecord(f, dto, debitId, debitAt)),
                                 CreditRecord(t, dto, related, creditId, creditAt))
  {
    TransferIsMove(L, dto, debitId, debitAt, creditId, creditAt, related);
    var f, t := L.wallets[dto.fromWalletId], L.wallets[dto.toWalletId];
    var m := Move(L, dto, f, t, debitId, debitAt, creditId, creditAt, related);
    var r := Transfer(L, dto, debitId, debitAt, creditId, creditAt, related);
    assert r.result == m.result;
    assert r.state.txns == m.state.txns;
  }

  /** `execute` as written: the credit leg names no related wallet. */
  function TransferStep(L: LedgerState, dto: TransferFundsDto, debitId: string, debitAt: nat,
                        creditId: string, creditAt: nat): (r: Reply<TransferFundsResult, LedgerState>)
    ensures Applies(L, dto) ==>
      r.state.txns == SaveTxn(SaveTxn(L.txns, DebitRecord(L.wallets[dto.fromWalletId], dto, debitId, debitAt)),
                              CreditRecord(L.wallets[dto.toWalletId], dto, None, creditId, creditAt))
  {
    if Applies(L, dto) then TransferApplied(L, dto, debitId, debitAt, creditId, creditAt, None);
      Transfer(L, dto, debitId, debitAt, creditId, creditAt, None)
    else Transfer(L, dto, debitId, debitAt, creditId, creditAt, None)
  }

  /** `execute` with the credit leg linked to the sender, the record the
      replay search looks for. */
  function LinkedTransferStep(L: LedgerState, dto: TransferFundsDto, debitId: string, debitAt: nat,
                              creditId: string, creditAt: nat): (r: Reply<TransferFundsResult, LedgerState>)
    ensures Applies(L, dto) ==>
      r.state.txns == SaveTxn(SaveTxn(L.txns, DebitRecord(L.wallets[dto.fromWalletId], dto, debitId, debitAt)),
                              CreditRecord(L.wallets[dto.toWalletId], dto, Some(dto.fromWalletId), creditId, creditAt))
  {
    if Applies(L, dto) then TransferApplied(L, dto, debitId, debitAt, creditId, creditAt, Some(dto.fromWalletId));
      Transfer(L, dto, debitId, debitAt, creditId, creditAt, Some(dto.fromWalletId))
    else Transfer(L, dto, debitId, debitAt, creditId, creditAt, Some(dto.fromWalletId))
  }

  /** An applied transfer is `Move` on the two stored wallets. */
  lemma TransferIsMove(L: LedgerState, dto: TransferFundsDto, debitId: string, debitAt: nat,
                       creditId: string, creditAt: nat, related: Option<string>)
    requires Applies(L, dto)
    ensures Transfer(L, dto, debitId, debitAt, creditId, creditAt, related)
         == Move(L, dto, L.wallets[dto.fromWalletId], L.wallets[dto.toWalletId], debitId, debitAt, creditId, creditAt, related)
  {
  }

  /** `Move` saves the debited sender, then the credited receiver. */
  lemma MoveWallets(L: LedgerState, dto: TransferFundsDto, f: WalletState, t: WalletState, debitId: string,
                    debitAt: nat, creditId: string, creditAt: nat, related: Option<string>)
    requires dto.amount > 0 && f.balance.currency == t.balance.currency && dto.amount <= f.balance.amount
    ensures var money := MoneyValue.Create(dto.amount, f.balance.currency).value;
      var d := Debited(f, money, dto.idempotencyKey, dto.reference, Some(dto.toWalletId), debitId, debitAt).value;
      var c := CreditLeg(t, money, dto.reference, related, creditId, creditAt);
      && d.txn == DebitRecord(f, dto, debitId, debitAt) && c.txn == CreditRecord(t, dto, related, creditId, creditAt)
      && Move(L, dto, f, t, debitId, debitAt, creditId, creditAt, related).state.wallets
         == L.wallets[f.id.value := d.wallet][t.id.value := c.wallet]
  {
  }

  /** On a ledger that keeps its invariants, an applied transfer changes only
      the two wallets: the sender loses the amount, the receiver gains it, so
      their sum is unchanged, and each history gains its one record; the
      sender's is a TRANSFER_OUT. */
  lemma TransferMovesFunds(L: LedgerState, dto: TransferFundsDto, debitId: string, debitAt: nat,
                           creditId: string, creditAt: nat, related: Option<string>)
    requires WalletsValid(L.wallets) && Applies(L, dto)
    ensures var w := Transfer(L, dto, debitId, debitAt, creditId, creditAt, related).state.wallets;
      var f, t := L.wallets[dto.fromWalletId], L.wallets[dto.toWalletId];
      && w.Keys == L.wallets.Keys
      && w[dto.fromWalletId].balance.amount == f.balance.amount - dto.amount
      && w[dto.toWalletId].balance.amount == t.balance.amount + dto.amount
      && w[dto.fromWalletId].balance.amount + w[dto.toWalletId].balance.amount == f.balance.amount + t.balance.amount
      && w[dto.fromWalletId].balance.currency == f.balance.currency
      && w[dto.toWalletId].balance.currency == t.balance.currency
      && w[dto.fromWalletId].transactions == f.transactions + [DebitRecord(f, dto, debitId, debitAt)]
      && w[dto.toWalletId].transactions == t.transactions + [CreditRecord(t, dto, related, creditId, creditAt)]
      && (forall k :: k in L.wallets && k != dto.fromWalletId && k != dto.toWalletId ==> w[k] == L.wallets[k])
    ensures DebitRecord(L.wallets[dto.fromWalletId], dto, debitId, debitAt).kind == TransferOut
  {
    var f, t := L.wallets[dto.fromWalletId], L.wallets[dto.toWalletId];
    TransferIsMove(L, dto, debitId, debitAt, creditId, creditAt, related);
    MovePostings(L, dto, f, t, debitId, debitAt, creditId, creditAt, related);
  }

  /** What `Move` does to the two wallets it is given: each gains its leg. */
  lemma MovePostings(L: LedgerState, dto: TransferFundsDto, f: WalletState, t: WalletState, debitId: string,
                     debitAt: nat, creditId: string, creditAt: nat, related: Option<string>)
    requires dto.amount > 0 && f.balance.currency == t.balance.currency && dto.amount <= f.balance.amount
    requires f.id.value == dto.fromWalletId && t.id.value == dto.toWalletId && dto.fromWalletId != dto.toWalletId
    requires dto.fromWalletId in L.wallets && dto.toWalletId in L.wallets
    ensures var w := Move(L, dto, f, t, debitId, debitAt, creditId, creditAt, related).state.wallets;
      && w.Keys == L.wallets.Keys
      && w[dto.fromWalletId].balance == f.balance.(amount := f.balance.amount - dto.amount)
      && w[dto.toWalletId].balance == t.balance.(amount := t.balance.amount + dto.amount)
      && w[dto.fromWalletId].transactions == f.transactions + [DebitRecord(f, dto, debitId, debitAt)]
      && w[dto.toWalletId].transactions == t.transactions + [CreditRecord(t, dto, related, creditId, creditAt)]
      && (forall k :: k in L.wallets && k != dto.fromWalletId && k != dto.toWalletId ==> w[k] == L.wallets[k])
  {
    MoveWallets(L, dto, f, t, debitId, debitAt, creditId, creditAt, related);
  }

  /** A transfer that is not applied leaves the ledger as it was. */
  lemma TransferNotAppliedUnchanged(L: LedgerState, dto: TransferFundsDto, debitId: string, debitAt: nat,
                                    creditId: string, creditAt: nat, related: Option<string>)
    requires !Applies(L, dto)
    ensures Transfer(L, dto, debitId, debitAt, creditId, creditAt, related).state == L
  {
    TransferSucceedsIff(L, dto, debitId, debitAt, creditId, creditAt, related);
    TransferFailureUnchanged(L, dto, debitId, debitAt, creditId, creditAt, related);
  }

  lemma MoveKeepsValid(L: LedgerState, dto: TransferFundsDto, debitId: string, debitAt: nat,
                       creditId: string, creditAt: nat, related: Option<string>)
    requires Valid(L) && Applies(L, dto)
    ensures Valid(Move(L, dto, L.wallets[dto.fromWalletId], L.wallets[dto.toWalletId],
                       debitId, debitAt, creditId, creditAt, related).state)
  {
    var f, t := L.wallets[dto.fromWalletId], L.wallets[dto.toWalletId];
    var money := MoneyValue.Create(dto.amount, f.balance.currency).value;
    var d := Debited(f, money, dto.idempotencyKey, dto.reference, Some(dto.toWalletId), debitId, debitAt).value;
    var c := CreditLeg(t, money, dto.reference, related, creditId, creditAt);
    DebitedReconciled(f, money, dto.idempotencyKey, dto.reference, Some(dto.toWalletId), debitId, debitAt);
    CreditLegReconciled(t, money, dto.reference, related, creditId, creditAt);
    MoveWallets(L, dto, f, t, debitId, debitAt, creditId, creditAt, related);
    SaveKeepsWalletsValid(L.wallets, d.wallet);
    SaveKeepsWalletsValid(L.wallets[f.id.value := d.wallet], c.wallet);
    MoveKeepsCoherent(L, dto, f, t, debitId, debitAt, creditId, creditAt, related);
  }

  lemma MoveKeepsCoherent(L: LedgerState, dto: TransferFundsDto, f: WalletState, t: WalletState, debitId: string,
                          debitAt: nat, creditId: string, creditAt: nat, related: Option<string>)
    requires Coherent(L.txns)
    requires dto.amount > 0 && f.balance.currency == t.balance.currency && dto.amount <= f.balance.amount
    ensures Coherent(Move(L, dto, f, t, debitId, debitAt, creditId, creditAt, related).state.txns)
  {
    var st := SaveTxn(L.txns, DebitRecord(f, dto, debitId, debitAt));
    assert Coherent(st);
    assert Coherent(SaveTxn(st, CreditRecord(t, dto, related, creditId, creditAt)));
  }

  /** Transferring keeps both stores' invariants. */
  lemma TransferKeepsValid(L: LedgerState, dto: TransferFundsDto, debitId: string, debitAt: nat,
                           creditId: string, creditAt: nat, related: Option<string>)
    requires Valid(L)
    ensures Valid(Transfer(L, dto, debitId, debitAt, creditId, creditAt, related).state)
  {
    if Applies(L, dto) {
      TransferIsMove(L, dto, debitId, debitAt, creditId, creditAt, related);
      MoveKeepsValid(L, dto, debitId, debitAt, creditId, creditAt, related);
    } else {
      TransferNotAppliedUnchanged(L, dto, debitId, debitAt, creditId, creditAt, related);
    }
  }

  /** `Move` stores the debit, then the credit leg, under their ids. */
  lemma MoveRecords(L: LedgerState, dto: TransferFundsDto, f: WalletState, t: WalletState, debitId: string,
                    debitAt: nat, creditId: string, creditAt: nat, related: Option<string>)
    requires dto.amount > 0 && f.balance.currency == t.balance.currency && dto.amount <= f.balance.amount
    ensures Move(L, dto, f, t, debitId, debitAt, creditId, creditAt, related).state.txns.records
         == L.txns.records[debitId := DebitRecord(f, dto, debitId, debitAt)]
                          [creditId := CreditRecord(t, dto, related, creditId, creditAt)]
  {
    var st := SaveTxn(L.txns, DebitRecord(f, dto, debitId, debitAt));
    assert st.records == L.txns.records[debitId := DebitRecord(f, dto, debitId, debitAt)];
  }

  lemma MoveKeepsMirrored(L: LedgerState, dto: TransferFundsDto, debitId: string, debitAt: nat,
                          creditId: string, creditAt: nat, related: Option<string>)
    requires Mirrored(L) && Applies(L, dto)
    requires L.wallets[dto.fromWalletId].id.value == dto.fromWalletId
    requires L.wallets[dto.toWalletId].id.value == dto.toWalletId
    requires debitId != creditId && debitId !in L.txns.records && creditId !in L.txns.records
    ensures Mirrored(Move(L, dto, L.wallets[dto.fromWalletId], L.wallets[dto.toWalletId],
                          debitId, debitAt, creditId, creditAt, related).state)
  {
    var f, t := L.wallets[dto.fromWalletId], L.wallets[dto.toWalletId];
    var money := MoneyValue.Create(dto.amount, f.balance.currency).value;
    var d := Debited(f, money, dto.idempotencyKey, dto.reference, Some(dto.toWalletId), debitId, debitAt).value;
    var c := CreditLeg(t, money, dto.reference, related, creditId, creditAt);
    MoveWallets(L, dto, f, t, debitId, debitAt, creditId, creditAt, related);
    MoveRecords(L, dto, f, t, debitId, debitAt, creditId, creditAt, related);
    var w1, r1 := L.wallets[dto.fromWalletId := d.wallet], L.txns.records[debitId := d.txn];
    PostKeepsMirrored(L.wallets, L.txns.records, dto.fromWalletId, d.wallet, d.txn);
    PostKeepsMirrored(w1, r1, dto.toWalletId, c.wallet, c.txn);
  }

  /** With two fresh, different record ids, transferring keeps the stores in
      agreement: each new record is in its wallet's history and stored. */
  lemma TransferKeepsMirrored(L: LedgerState, dto: TransferFundsDto, debitId: string, debitAt: nat,
                              creditId: string, creditAt: nat, related: Option<string>)
    requires Valid(L) && Mirrored(L)
    requires debitId != creditId && debitId !in L.txns.records && creditId !in L.txns.records
    ensures Mirrored(Transfer(L, dto, debitId, debitAt, creditId, creditAt, related).state)
  {
    if Applies(L, dto) {
      TransferIsMove(L, dto, debitId, debitAt, creditId, creditAt, related);
      assert L.wallets[dto.fromWalletId].id.value == dto.fromWalletId;
      assert L.wallets[dto.toWalletId].id.value == dto.toWalletId;
      MoveKeepsMirrored(L, dto, debitId, debitAt, creditId, creditAt, related);
    } else {
      TransferNotAppliedUnchanged(L, dto, debitId, debitAt, creditId, creditAt, related);
    }
  }

  /** What the transaction store holds after an applied transfer: the
      receiver's records are the credit leg and records stored before, and
      the request's key finds the debit. */
  lemma StoredAfterTransfer(L: LedgerState, dto: TransferFundsDto, debitId: string, debitAt: nat,
                            creditId: string, creditAt: nat, related: Option<string>)
    requires Valid(L) && Applies(L, dto)
    ensures var st := Transfer(L, dto, debitId, debitAt, creditId, creditAt, related).state.txns;
      var f, t := L.wallets[dto.fromWalletId], L.wallets[dto.toWalletId];
      && Coherent(st)
      && CreditRecord(t, dto, related, creditId, creditAt) in ByWalletId(st, dto.toWalletId)
      && (forall c :: c in ByWalletId(st, dto.toWalletId) ==>
            c == CreditRecord(t, dto, related, creditId, creditAt)
            || (c.walletId == dto.toWalletId && c.id in L.txns.records && L.txns.records[c.id] == c))
      && (Truthy(dto.idempotencyKey) ==>
            ByIdempotencyKey(st, dto.idempotencyKey.value) == Some(DebitRecord(f, dto, debitId, debitAt)))
  {
    var f, t := L.wallets[dto.fromWalletId], L.wallets[dto.toWalletId];
    assert f.id.value == dto.fromWalletId && t.id.value == dto.toWalletId;
    var D, C := DebitRecord(f, dto, debitId, debitAt), CreditRecord(t, dto, related, creditId, creditAt);
    TransferIsMove(L, dto, debitId, debitAt, creditId, creditAt, related);
    MoveRecords(L, dto, f, t, debitId, debitAt, creditId, creditAt, related);
    MoveKeepsCoherent(L, dto, f, t, debitId, debitAt, creditId, creditAt, related);
    var st := Transfer(L, dto, debitId, debitAt, creditId, creditAt, related).state.txns;
    ReceiverRecords(L.txns, st, D, C, dto.toWalletId);
    TransferApplied(L, dto, debitId, debitAt, creditId, creditAt, related);
    KeyAfterLegs(L.txns, D, C);
  }

  lemma ReceiverRecords(st: TxnStore, st': TxnStore, D: Transaction, C: Transaction, walletId: string)
    requires Coherent(st') && st'.records == st.records[D.id := D][C.id := C]
    requires D.walletId != walletId && C.walletId == walletId
    ensures C in ByWalletId(st', walletId)
    ensures forall c :: c in ByWalletId(st', walletId) ==>
      c == C || (c.walletId == walletId && c.id in st.records && st.records[c.id] == c)
  {
    ByWalletIdExactly(st', walletId, C);
    forall c | c in ByWalletId(st', walletId)
      ensures c == C || (c.walletId == walletId && c.id in st.records && st.records[c.id] == c)
    {
      ByWalletIdExactly(st', walletId, c);
    }
  }

  /** The credit leg carries no key, so after both saves the debit's key
      still finds the debit. */
  lemma KeyAfterLegs(st: TxnStore, D: Transaction, C: Transaction)
    requires C.idempotencyKey == None
    ensures Truthy(D.idempotencyKey) ==>
      ByIdempotencyKey(SaveTxn(SaveTxn(st, D), C), D.idempotencyKey.value) == Some(D)
  {
  }

  /** The replay search finds nothing when no record of the receiver pairs
      with the key's record. */
  lemma NoPairNoReplay(st: TxnStore, dto: TransferFundsDto, C: Transaction, R: map<string, Transaction>)
    requires forall c :: c in ByWalletId(st, dto.toWalletId) ==>
      c == C || (c.walletId == dto.toWalletId && c.id in R && R[c.id] == c)
    requires C.relatedWalletId != Some(dto.fromWalletId)
    requires forall id :: id in R && R[id].walletId == dto.toWalletId ==> R[id].relatedWalletId != Some(dto.fromWalletId)
    ensures ReplayOf(st, dto).None?
  {
    forall c, at: nat | c in ByWalletId(st, dto.toWalletId)
      ensures !PairsWith(c, dto.fromWalletId, at)
    {
    }
  }

  /** The replay search reports the pair when the key finds the TRANSFER_OUT
      record `D` and `C` is the only record of the receiver that pairs with
      it. */
  lemma UniquePairReplays(st: TxnStore, dto: TransferFundsDto, D: Transaction, C: Transaction, creditOnly: bool)
    requires Truthy(dto.idempotencyKey) && ByIdempotencyKey(st, dto.idempotencyKey.value) == Some(D)
    requires D.kind == TransferOut
    requires C in ByWalletId(st, dto.toWalletId) && Matches(C, dto.fromWalletId, D.createdAt, creditOnly)
    requires forall c :: c in ByWalletId(st, dto.toWalletId) && Matches(c, dto.fromWalletId, D.createdAt, creditOnly) ==> c == C
    ensures ReplayBy(st, dto, creditOnly) == Some(TransferFundsResult(D.id, C.id, dto.fromWalletId, dto.toWalletId, dto.amount,
                                                                       D.balanceAfter, C.balanceAfter, D.createdAt))
  {
    var credits := ByWalletId(st, dto.toWalletId);
    var r := FindPair(credits, dto.fromWalletId, D.createdAt, creditOnly);
    var i :| 0 <= i < |credits| && credits[i] == C;
    assert r.Some?;
    assert r.value in credits;
  }

  /** As written, a retried transfer is not recognised: the credit leg names
      no related wallet, so when none of the receiver's earlier records names
      the sender, the replay search finds nothing after an applied transfer. */
  lemma RetriedTransferNotRecognised(L: LedgerState, dto: TransferFundsDto, debitId: string, debitAt: nat,
                                     creditId: string, creditAt: nat)
    requires Valid(L) && Applies(L, dto)
    requires forall id :: id in L.txns.records && L.txns.records[id].walletId == dto.toWalletId ==>
      L.txns.records[id].relatedWalletId != Some(dto.fromWalletId)
    ensures ReplayOf(TransferStep(L, dto, debitId, debitAt, creditId, creditAt).state.txns, dto).None?
  {
    StoredAfterTransfer(L, dto, debitId, debitAt, creditId, creditAt, None);
    NoPairNoReplay(TransferStep(L, dto, debitId, debitAt, creditId, creditAt).state.txns, dto,
                   CreditRecord(L.wallets[dto.toWalletId], dto, None, creditId, creditAt), L.txns.records);
  }

  /** As written, a retried transfer runs again: with funds for two, the same
      request sent a second time is a new transfer that debits the sender a
      second time. */
  lemma RetriedTransferRunsAgain(L: LedgerState, dto: TransferFundsDto, debitId: string, debitAt: nat,
                                 creditId: string, creditAt: nat, debitId2: string, debitAt2: nat,
                                 creditId2: string, creditAt2: nat)
    requires Valid(L) && Applies(L, dto)
    requires forall id :: id in L.txns.records && L.txns.records[id].walletId == dto.toWalletId ==>
      L.txns.records[id].relatedWalletId != Some(dto.fromWalletId)
    requires 2 * dto.amount <= L.wallets[dto.fromWalletId].balance.amount
    ensures var L1 := TransferStep(L, dto, debitId, debitAt, creditId, creditAt).state;
      var L2 := TransferStep(L1, dto, debitId2, debitAt2, creditId2, creditAt2);
      && L2.result.Success? && L2.result.value.debitTransactionId == debitId2
      && dto.fromWalletId in L2.state.wallets
      && L2.state.wallets[dto.fromWalletId].balance.amount
         == L.wallets[dto.fromWalletId].balance.amount - 2 * dto.amount
  {
    var L1 := TransferStep(L, dto, debitId, debitAt, creditId, creditAt).state;
    RetryApplies(L, dto, debitId, debitAt, creditId, creditAt);
    TransferApplied(L1, dto, debitId2, debitAt2, creditId2, creditAt2, None);
    TransferMovesFunds(L1, dto, debitId2, debitAt2, creditId2, creditAt2, None);
  }

  lemma RetryApplies(L: LedgerState, dto: TransferFundsDto, debitId: string, debitAt: nat,
                     creditId: string, creditAt: nat)
    requires Valid(L) && Applies(L, dto)
    requires forall id :: id in L.txns.records && L.txns.records[id].walletId == dto.toWalletId ==>
      L.txns.records[id].relatedWalletId != Some(dto.fromWalletId)
    requires 2 * dto.amount <= L.wallets[dto.fromWalletId].balance.amount
    ensures var L1 := TransferStep(L, dto, debitId, debitAt, creditId, creditAt).state;
      && WalletsValid(L1.wallets) && Applies(L1, dto)
      && L1.wallets[dto.fromWalletId].balance.amount == L.wallets[dto.fromWalletId].balance.amount - dto.amount
  {
    RetriedTransferNotRecognised(L, dto, debitId, debitAt, creditId, creditAt);
    TransferMovesFunds(L, dto, debitId, debitAt, creditId, creditAt, None);
    TransferKeepsValid(L, dto, debitId, debitAt, creditId, creditAt, None);
  }

  /** With the credit leg linked to the sender, a retried transfer is
      replayed: when the two legs were created less than 1000 ms apart and no
      earlier record of the receiver names the sender, the same request sent
      again reports the first result and changes nothing. */
  lemma LinkedRetryReplays(L: LedgerState, dto: TransferFundsDto, debitId: string, debitAt: nat,
                           creditId: string, creditAt: nat, debitId2: string, debitAt2: nat,
                           creditId2: string, creditAt2: nat)
    requires Valid(L) && Applies(L, dto) && Truthy(dto.idempotencyKey)
    requires forall id :: id in L.txns.records && L.txns.records[id].walletId == dto.toWalletId ==>
      L.txns.records[id].relatedWalletId != Some(dto.fromWalletId)
    requires (if creditAt >= debitAt then creditAt - debitAt else debitAt - creditAt) < 1000
    ensures var R1 := LinkedTransferStep(L, dto, debitId, debitAt, creditId, creditAt);
      LinkedTransferStep(R1.state, dto, debitId2, debitAt2, creditId2, creditAt2) == Reply(R1.result, R1.state)
  {
    LinkedLegFound(L, dto, debitId, debitAt, creditId, creditAt, false);
    var R1 := LinkedTransferStep(L, dto, debitId, debitAt, creditId, creditAt);
    assert ReplayOf(R1.state.txns, dto) == Some(R1.result.value);
    var R2 := Transfer(R1.state, dto, debitId2, debitAt2, creditId2, creditAt2, Some(dto.fromWalletId));
    assert R2 == Reply(R1.result, R1.state);
  }

  /** After a transfer whose credit leg names the sender, the search finds
      that leg when no earlier record of the receiver that the search looks
      at names the sender. */
  lemma LinkedLegFound(L: LedgerState, dto: TransferFundsDto, debitId: string, debitAt: nat,
                       creditId: string, creditAt: nat, creditOnly: bool)
    requires Valid(L) && Applies(L, dto) && Truthy(dto.idempotencyKey)
    requires forall id :: (id in L.txns.records && L.txns.records[id].walletId == dto.toWalletId
                           && (!creditOnly || L.txns.records[id].kind == TransactionType.Credit))
                          ==> L.txns.records[id].relatedWalletId != Some(dto.fromWalletId)
    requires (if creditAt >= debitAt then creditAt - debitAt else debitAt - creditAt) < 1000
    ensures var R1 := LinkedTransferStep(L, dto, debitId, debitAt, creditId, creditAt);
      R1.result.Success? && ReplayBy(R1.state.txns, dto, creditOnly) == Some(R1.result.value)
  {
    var related := Some(dto.fromWalletId);
    var R1 := LinkedTransferStep(L, dto, debitId, debitAt, creditId, creditAt);
    var f, t := L.wallets[dto.fromWalletId], L.wallets[dto.toWalletId];
    var D, C := DebitRecord(f, dto, debitId, debitAt), CreditRecord(t, dto, related, creditId, creditAt);
    assert t.id.value == dto.toWalletId;
    StoredAfterTransfer(L, dto, debitId, debitAt, creditId, creditAt, related);
    TransferApplied(L, dto, debitId, debitAt, creditId, creditAt, related);
    UniquePairReplays(R1.state.txns, dto, D, C, creditOnly);
  }

  /** As written, a record of the receiver that is not the credit leg can
      pass for it: a TRANSFER_OUT of the receiver to the sender created less
      than 1000 ms from the debit (a transfer the other way) names the sender
      too, so after an applied transfer the replay search finds a pair and
      reports a credit record other than the leg just made. */
  lemma ReverseTransferPairs(L: LedgerState, dto: TransferFundsDto, debitId: string, debitAt: nat,
                             creditId: string, creditAt: nat, R: Transaction)
    requires Valid(L) && Applies(L, dto) && Truthy(dto.idempotencyKey)
    requires debitId !in L.txns.records && creditId !in L.txns.records
    requires R.id in L.txns.records && L.txns.records[R.id] == R
    requires R.walletId == dto.toWalletId && R.kind == TransferOut && PairsWith(R, dto.fromWalletId, debitAt)
    ensures var r := ReplayOf(TransferStep(L, dto, debitId, debitAt, creditId, creditAt).state.txns, dto);
      r.Some? && r.value.creditTransactionId != creditId
  {
    var f, t := L.wallets[dto.fromWalletId], L.wallets[dto.toWalletId];
    var D, C := DebitRecord(f, dto, debitId, debitAt), CreditRecord(t, dto, None, creditId, creditAt);
    assert f.id.value == dto.fromWalletId && t.id.value == dto.toWalletId;
    StoredAfterTransfer(L, dto, debitId, debitAt, creditId, creditAt, None);
    TransferIsMove(L, dto, debitId, debitAt, creditId, creditAt, None);
    MoveRecords(L, dto, f, t, debitId, debitAt, creditId, creditAt, None);
    var st := TransferStep(L, dto, debitId, debitAt, creditId, creditAt).state.txns;
    OldRecordStays(L.txns, st, D, C, R);
    OtherPairReplays(st, dto, D, C, R, L.txns.records);
  }

  lemma OldRecordStays(st: TxnStore, st': TxnStore, D: Transaction, C: Transaction, R: Transaction)
    requires Coherent(st') && st'.records == st.records[D.id := D][C.id := C]
    requires R.id in st.records && st.records[R.id] == R && R.id != D.id && R.id != C.id
    ensures R in ByWalletId(st', R.walletId)
  {
    ByWalletIdExactly(st', R.walletId, R);
  }

  /** When the key finds the TRANSFER_OUT record `D` and a record `R` other
      than the credit leg `C` pairs with it, the search reports a record that
      was there before, not `C`. */
  lemma OtherPairReplays(st: TxnStore, dto: TransferFundsDto, D: Transaction, C: Transaction, R: Transaction,
                         before: map<string, Transaction>)
    requires Truthy(dto.idempotencyKey) && ByIdempotencyKey(st, dto.idempotencyKey.value) == Some(D)
    requires D.kind == TransferOut && C.id !in before
    requires forall c :: c in ByWalletId(st, dto.toWalletId) ==>
      c == C || (c.walletId == dto.toWalletId && c.id in before && before[c.id] == c)
    requires C.relatedWalletId != Some(dto.fromWalletId)
    requires R in ByWalletId(st, dto.toWalletId) && PairsWith(R, dto.fromWalletId, D.createdAt)
    ensures ReplayOf(st, dto).Some? && ReplayOf(st, dto).value.creditTransactionId != C.id
  {
    var c := FindPair(ByWalletId(st, dto.toWalletId), dto.fromWalletId, D.createdAt, false).value;
    assert c in ByWalletId(st, dto.toWalletId);
  }

  /** Corrected: with the credit leg linked to the sender and the search
      restricted to CREDIT records, the retry of an applied transfer reports
      the first result whenever the legs were created less than 1000 ms apart
      and no earlier CREDIT of the receiver names the sender; earlier
      transfers the other way no longer get in the way. */
  lemma CreditPairReplays(L: LedgerState, dto: TransferFundsDto, debitId: string, debitAt: nat,
                          creditId: string, creditAt: nat)
    requires Valid(L) && Applies(L, dto) && Truthy(dto.idempotencyKey)
    requires forall id :: (id in L.txns.records && L.txns.records[id].walletId == dto.toWalletId
      && L.txns.records[id].kind == TransactionType.Credit) ==> L.txns.records[id].relatedWalletId != Some(dto.fromWalletId)
    requires (if creditAt >= debitAt then creditAt - debitAt else debitAt - creditAt) < 1000
    ensures var R1 := LinkedTransferStep(L, dto, debitId, debitAt, creditId, creditAt);
      R1.result.Success? && ReplayBy(R1.state.txns, dto, true) == Some(R1.result.value)
  {
    LinkedLegFound(L, dto, debitId, debitAt, creditId, creditAt, true);
  }

  class TransferFundsUseCase {
    const walletRepo: InMemoryWalletRepository
    const txnRepo: InMemoryTransactionRepository

    constructor (walletRepo: InMemoryWalletRepository, txnRepo: InMemoryTransactionRepository)
      ensures this.walletRepo == walletRepo && this.txnRepo == txnRepo
    {
      this.walletRepo := walletRepo;
      this.txnRepo := txnRepo;
    }

    /** The idempotency replay check of `execute`. */
    method Replay(dto: TransferFundsDto) returns (r: Option<TransferFundsResult>)
      ensures r == ReplayOf(txnRepo.State(), dto)
    {
      r := None;
      if Truthy(dto.idempotencyKey) {
        var existing := txnRepo.FindByIdempotencyKey(dto.idempotencyKey.value);
        if existing.Some? && existing.value.kind == TransferOut {
          var credit := FindPair(txnRepo.FindByWalletId(dto.toWalletId), dto.fromWalletId, existing.value.createdAt, false);
          if credit.Some? {
            r := Some(TransferFundsResult(existing.value.id, credit.value.id, dto.fromWalletId, dto.toWalletId,
                                          dto.amount, existing.value.balanceAfter, credit.value.balanceAfter,
                                          existing.value.createdAt));
          }
        }
      }
    }

    method Execute(dto: TransferFundsDto, debitId: string, debitAt: nat, creditId: string, creditAt: nat)
      returns (r: Result<TransferFundsResult, Error>)
      requires txnRepo.Valid()
      modifies walletRepo, txnRepo
      ensures txnRepo.Valid()
      ensures Reply(r, LedgerState(walletRepo.wallets, txnRepo.State())) ==
        TransferStep(LedgerState(old(walletRepo.wallets), old(txnRepo.State())), dto, debitId, debitAt, creditId, creditAt)
    {
      if dto.amount <= 0 {
        return Failure(InvalidAmount(dto.amount));
      }
      if dto.fromWalletId == dto.toWalletId {
        return Failure(SameWalletTransfer);
      }
      var replay := Replay(dto);
      if replay.Some? {
        return Success(replay.value);
      }
      r := Lookup(dto, debitId, debitAt, creditId, creditAt);
    }

    /** The part of `execute` after the replay check: the locked fetch of
        both wallets in sorted order and the checks on them. */
    method Lookup(dto: TransferFundsDto, debitId: string, debitAt: nat, creditId: string, creditAt: nat)
      returns (r: Result<TransferFundsResult, Error>)
      requires txnRepo.Valid() && dto.amount > 0 && dto.fromWalletId != dto.toWalletId
      modifies walletRepo, txnRepo
      ensures txnRepo.Valid()
      ensures Reply(r, LedgerState(walletRepo.wallets, txnRepo.State())) ==
        Checked(LedgerState(old(walletRepo.wallets), old(txnRepo.State())), dto, old(walletRepo.wallets),
                debitId, debitAt, creditId, creditAt, None)
    {
      var ids := SortedIds(dto.fromWalletId, dto.toWalletId);
      var locked := walletRepo.FindMultipleByIdsWithLock(ids);
      assert dto.fromWalletId in multiset(ids) && dto.toWalletId in multiset(ids);
      if dto.fromWalletId !in locked {
        return Failure(WalletNotFound(dto.fromWalletId));
      }
      if dto.toWalletId !in locked {
        return Failure(WalletNotFound(dto.toWalletId));
      }
      var fromWallet, toWallet := locked[dto.fromWalletId], locked[dto.toWalletId];
      if fromWallet.balance.currency != toWallet.balance.currency {
        return Failure(CurrencyMismatch(fromWallet.balance.currency, toWallet.balance.currency));
      }
      var transferAmount := MoneyValue.Create(dto.amount, fromWallet.balance.currency).value;
      if !IsGreaterThanOrEqual(fromWallet.balance, transferAmount).value {
        return Failure(InsufficientFunds(dto.fromWalletId));
      }
      r := Post(dto, fromWallet, toWallet, transferAmount, debitId, debitAt, creditId, creditAt);
    }

    /** The debit, the credit leg and the four saves. */
    method Post(dto: TransferFundsDto, fromWallet: Wallet, toWallet: Wallet, transferAmount: Money,
                debitId: string, debitAt: nat, creditId: string, creditAt: nat)
      returns (r: Result<TransferFundsResult, Error>)
      requires txnRepo.Valid() && fromWallet != toWallet
      requires dto.amount > 0 && transferAmount == MoneyValue.Create(dto.amount, fromWallet.balance.currency).value
      requires fromWallet.balance.currency == toWallet.balance.currency
      requires dto.amount <= fromWallet.balance.amount
      modifies walletRepo, txnRepo, fromWallet, toWallet
      ensures txnRepo.Valid()
      ensures Reply(r, LedgerState(walletRepo.wallets, txnRepo.State())) ==
        Move(LedgerState(old(walletRepo.wallets), old(txnRepo.State())), dto, old(fromWallet.State()),
             old(toWallet.State()), debitId, debitAt, creditId, creditAt, None)
    {
      ghost var t := toWallet.State();
      var debit := fromWallet.Debit(transferAmount, dto.idempotencyKey, dto.reference, Some(dto.toWalletId),
                                    debitId, debitAt);
      assert debit.Success?;
      var credit := toWallet.Credit(transferAmount, None, dto.reference, creditId, creditAt);
      assert credit.Success?;
      CreditLegAsWritten(t, transferAmount, dto.reference, creditId, creditAt);
      var savedFrom := walletRepo.Save(fromWallet);
      var savedTo := walletRepo.Save(toWallet);
      var savedDebit := txnRepo.Save(debit.value);
      var savedCredit := txnRepo.Save(credit.value);
      return Success(TransferFundsResult(debit.value.id, credit.value.id, dto.fromWalletId, dto.toWalletId, dto.amount,
                                         debit.value.balanceAfter, credit.value.balanceAfter, debit.value.createdAt));
    }
  }
}
