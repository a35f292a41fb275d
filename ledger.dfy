/** The state the use cases read and change: the wallet store's snapshots and
    the transaction store, with the invariants that hold between them. */
module Ledger {
  import opened Wrappers
  import opened DomainErrors
  import opened TransactionEntity
  import opened WalletEntity
  import opened TransactionRepository

  datatype LedgerState = LedgerState(wallets: map<string, WalletState>, txns: TxnStore)

  /** What a use case returns (a value or the error it throws) together with
      the state it leaves behind. */
  datatype Reply<+R, +S> = Reply(result: Result<R, Error>, state: S)

  /** Each snapshot is stored under its own id and keeps the aggregate's
      invariant. */
  ghost predicate WalletsValid(wallets: map<string, WalletState>) {
    forall k :: k in wallets ==> wallets[k].id.value == k && Reconciled(wallets[k])
  }

  ghost predicate Valid(L: LedgerState) {
    Coherent(L.txns) && WalletsValid(L.wallets)
  }

  /** Saving a reconciled snapshot under its own id keeps the wallet store's
      invariant. */
  lemma SaveKeepsWalletsValid(wallets: map<string, WalletState>, w: WalletState)
    requires WalletsValid(wallets) && Reconciled(w)
    ensures WalletsValid(wallets[w.id.value := w])
  {
  }

  /** The two stores agree: a record is in a wallet's history exactly when it
      is the stored record of that id and names that wallet, and every stored
      record names a stored wallet. */
  ghost predicate MirroredOn(wallets: map<string, WalletState>, records: map<string, Transaction>) {
    && (forall k, t :: k in wallets ==>
          (t in wallets[k].transactions <==> t.walletId == k && t.id in records && records[t.id] == t))
    && (forall id :: id in records ==> records[id].walletId in wallets)
  }

  ghost predicate Mirrored(L: LedgerState) {
    MirroredOn(L.wallets, L.txns.records)
  }

  /** Appending a record with a fresh id to one wallet's history and storing
      it keeps the stores in agreement. */
  lemma PostKeepsMirrored(wallets: map<string, WalletState>, records: map<string, Transaction>,
                          k: string, w: WalletState, t: Transaction)
    requires MirroredOn(wallets, records) && k in wallets
    requires w.transactions == wallets[k].transactions + [t]
    requires t.walletId == k && t.id !in records
    ensures MirroredOn(wallets[k := w], records[t.id := t])
  {
    var wallets', records' := wallets[k := w], records[t.id := t];
    PostKeepsHistories(wallets, records, wallets', records', k, w, t);
    PostKeepsOwners(wallets, records, wallets', records', k, w, t);
    MirroredFrom(wallets', records');
  }

  /** `h` holds exactly the stored records that name wallet `j`. */
  ghost predicate HistoryOf(h: seq<Transaction>, j: string, records: map<string, Transaction>) {
    forall x :: x in h <==> x.walletId == j && x.id in records && records[x.id] == x
  }

  lemma PostKeepsHistories(wallets: map<string, WalletState>, records: map<string, Transaction>,
                           wallets': map<string, WalletState>, records': map<string, Transaction>,
                           k: string, w: WalletState, t: Transaction)
    requires MirroredOn(wallets, records) && k in wallets
    requires w.transactions == wallets[k].transactions + [t]
    requires t.walletId == k && t.id !in records
    requires wallets' == wallets[k := w] && records' == records[t.id := t]
    ensures forall j :: j in wallets' ==> HistoryOf(wallets'[j].transactions, j, records')
  {
    forall j | j in wallets' ensures HistoryOf(wallets'[j].transactions, j, records') {
      MirroredAt(wallets, records, j);
      if j == k {
        PostedHistory(wallets[k].transactions, records, t, k);
      } else {
        OtherHistory(wallets[j].transactions, records, t, j);
      }
    }
  }

  lemma PostedHistory(h: seq<Transaction>, records: map<string, Transaction>, t: Transaction, j: string)
    requires HistoryOf(h, j, records) && t.id !in records && t.walletId == j
    ensures HistoryOf(h + [t], j, records[t.id := t])
  {
    forall x ensures x in h + [t] <==> x.walletId == j && x.id in records[t.id := t] && records[t.id := t][x.id] == x {
      assert x in h + [t] <==> x in h || x == t;
    }
  }

  lemma OtherHistory(h: seq<Transaction>, records: map<string, Transaction>, t: Transaction, j: string)
    requires HistoryOf(h, j, records) && t.id !in records && t.walletId != j
    ensures HistoryOf(h, j, records[t.id := t])
  {
  }

  lemma PostKeepsOwners(wallets: map<string, WalletState>, records: map<string, Transaction>,
                        wallets': map<string, WalletState>, records': map<string, Transaction>,
                        k: string, w: WalletState, t: Transaction)
    requires MirroredOn(wallets, records) && k in wallets && t.walletId == k
    requires wallets' == wallets[k := w] && records' == records[t.id := t]
    ensures forall id :: id in records' ==> records'[id].walletId in wallets'
  {
  }

  lemma MirroredAt(wallets: map<string, WalletState>, records: map<string, Transaction>, j: string)
    requires MirroredOn(wallets, records) && j in wallets
    ensures HistoryOf(wallets[j].transactions, j, records)
  {
  }

  lemma MirroredFrom(wallets: map<string, WalletState>, records: map<string, Transaction>)
    requires forall j :: j in wallets ==> HistoryOf(wallets[j].transactions, j, records)
    requires forall id :: id in records ==> records[id].walletId in wallets
    ensures MirroredOn(wallets, records)
  {
  }
}
