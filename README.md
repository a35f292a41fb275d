# Wallet service ledger, modelled in Dafny

This project models the ledger core of a small wallet service. That core has four parts:

- **Value objects.** `Money` is a non-negative amount in a non-blank currency. `WalletId` is a non-blank string.
- **Records.** `Transaction` is an immutable record of one balance change.
- **The wallet aggregate.** `Wallet` holds a balance that `credit` and `debit` reassign and a history they append to.
- **Two in-memory stores and four use cases.** The stores keep wallets and transactions. The use cases create a wallet, fund it, transfer between wallets and read a wallet with its history.

## How the model is built

Each value object is a subset type whose constraint is the constructor's guard. A `Create` function returns a `Result` carrying the constructor's failure cases.

`Wallet` is a class whose methods update its fields in place. `WalletState` is the value of those fields, and `Credited`, `Debited` and `NewWallet` say what the operations do to that value.

The stores are classes over a `map` and a `seq`:

- The wallet store keeps a snapshot `WalletState` per id. This plays the part of the private clone the source keeps.
- The transaction store keeps records by id in insertion order, plus an index from idempotency key to record.

Each use case is a class whose `Execute` method is proved equal to a pure function of the old stores. That pure function gives both the reply and the new stores. The lemmas about the pure functions state what the use cases promise:

- **Invariants are kept.** Each wallet is stored under its own id. Its balance is the net sum of its history, and each record's balance-after is the running sum.
- **The two stores stay in agreement.**
- **Transfers conserve money.** They change only the two wallets involved.
- **Retries.** A retried fund call is replayed, not applied again. A retried transfer is applied again when no earlier record of the receiver names the sender. When one does and lies within 1000 ms of the debit, for example the receiver's own transfer to the sender, the retry is reported as a replay with that record in place of the credit leg (see Findings).
- **Reads.** Reading a wallet lists the same records as its history, newest first.

The UUID generator and the clock are parameters. Record ids and creation times are passed in by the caller.

## Model

| member | source | states |
|---|---|---|
| Text.BlankIffAllWhitespace | src/domain/value-objects/wallet-id.vo.ts:5-7 | the guard `!value \|\| value.trim() === ''` holds exactly when every character is whitespace, the empty string included |
| Text.TrimStartCuts | src/domain/value-objects/wallet-id.vo.ts:5 | the start-trimmed string is a suffix of the input that is empty or starts with a non-whitespace character, and everything cut off is whitespace |
| Text.TrimEndCuts | src/domain/value-objects/wallet-id.vo.ts:5 | the end-trimmed string is a prefix of the input that is empty or ends with a non-whitespace character, and everything cut off is whitespace |
| Text.TrimCuts | src/domain/value-objects/wallet-id.vo.ts:5 | `trim()` gives a slice of the input with only whitespace before and after it; it is empty exactly when the input is all whitespace, and otherwise starts and ends with a non-whitespace character |
| Text.LexLe | src/application/use-cases/transfer-funds/transfer-funds.use-case.ts:69 | `a` comes before `b` exactly when `a` is a prefix of `b` or, at the first position where they differ, `a` has the smaller character |
| Text.LexLeTotal | src/application/use-cases/transfer-funds/transfer-funds.use-case.ts:69 | the string order used to sort the two ids relates any two strings |
| MoneyValue.Create | src/domain/value-objects/money.vo.ts:2-12 | succeeds exactly for a non-negative amount and a non-blank currency, keeping both; a negative amount fails first, then a blank currency |
| MoneyValue.EnsureSameCurrency | src/domain/value-objects/money.vo.ts:33-37 | passes exactly when the currencies are equal, otherwise fails with the currency-mismatch error |
| MoneyValue.Add | src/domain/value-objects/money.vo.ts:14-17 | succeeds exactly when the currencies agree; the sum of the amounts in the receiver's currency |
| MoneyValue.Subtract | src/domain/value-objects/money.vo.ts:19-26 | a currency mismatch fails first, then a difference below zero fails as insufficient funds; otherwise the difference, never negative |
| MoneyValue.IsGreaterThanOrEqual | src/domain/value-objects/money.vo.ts:28-31 | fails exactly on a currency mismatch, otherwise tells whether the receiver's amount is at least the other's |
| MoneyValue.CreateAccepts | src/domain/value-objects/money.vo.ts:2-12 | every existing Money passes the constructor again unchanged, so re-wrapping (as the clone does) never fails |
| MoneyValue.CreateFailsIff | src/domain/value-objects/money.vo.ts:6-11 | construction fails exactly when the amount is negative or the currency is all whitespace |
| MoneyValue.AddZero | src/domain/value-objects/money.vo.ts:14-17 | adding zero of the same currency gives the same Money |
| MoneyValue.SubtractSelf | src/domain/value-objects/money.vo.ts:19-26 | subtracting a Money from itself succeeds with zero in its currency |
| MoneyValue.SubtractUndoesAdd | src/domain/value-objects/money.vo.ts:14-26 | subtracting what was added gives back the original Money |
| MoneyValue.SubtractCoveredIff | src/domain/value-objects/money.vo.ts:19-31 | subtraction succeeds exactly when the comparison the wallet makes first says the amount is covered |
| WalletIdValue.Create | src/domain/value-objects/wallet-id.vo.ts:4-8 | succeeds exactly for a non-blank value (equivalently, not all whitespace), which it keeps unchanged |
| WalletIdValue.Generate | src/domain/value-objects/wallet-id.vo.ts:10-12 | the id is the generator's output; a blank output fails as an empty id |
| WalletIdValue.Equals | src/domain/value-objects/wallet-id.vo.ts:14-16 | two ids are equal exactly when they are the same value |
| WalletIdValue.EqualsIsEquivalence | src/domain/value-objects/wallet-id.vo.ts:14-16 | `equals` is reflexive, symmetric and transitive |
| TransactionEntity.Create | src/domain/entities/transaction.entity.ts:23-45 | the parameters are carried over verbatim, with the generator's id and the clock's time |
| TransactionEntity.CreateFromParams | src/domain/entities/transaction.entity.ts:23-45 | a record is rebuilt exactly from its parameters, id and time |
| WalletEntity.DebitKind | src/domain/entities/wallet.entity.ts:66-68 | a debit is recorded as TRANSFER_OUT exactly when a truthy related wallet is given, and as DEBIT otherwise |
| WalletEntity.NewWallet | src/domain/entities/wallet.entity.ts:17-19 | succeeds exactly for a non-blank id and currency (id checked first); zero balance, the given time, empty history |
| WalletEntity.Credited | src/domain/entities/wallet.entity.ts:29-49 | fails exactly on a currency mismatch; otherwise the balance grows by the amount and the history gains one CREDIT record with the new balance, key and reference |
| WalletEntity.Debited | src/domain/entities/wallet.entity.ts:51-79 | a currency mismatch fails first, an amount above the balance fails next; otherwise the balance drops by the amount and one record is appended, TRANSFER_OUT when a related wallet is given and DEBIT otherwise |
| WalletEntity.AppendReconciled | src/domain/entities/wallet.entity.ts:29-79 | appending a record of the wallet, in its currency, whose balance-after is the new balance keeps the invariant: the balance is the net sum of the history, and each balance-after is the running sum and never negative |
| WalletEntity.NewWalletReconciled | src/domain/entities/wallet.entity.ts:17-19 | a new wallet satisfies the invariant |
| WalletEntity.CreditedReconciled | src/domain/entities/wallet.entity.ts:29-49 | `credit` keeps the invariant |
| WalletEntity.DebitedReconciled | src/domain/entities/wallet.entity.ts:51-79 | `debit` keeps the invariant |
| WalletEntity.CreditThenDebitRestores | src/domain/entities/wallet.entity.ts:29-79 | a credit then a debit of the same amount both succeed, restore the balance and add two records |
| WalletEntity.Wallet.constructor | src/domain/entities/wallet.entity.ts:9-15 | the wallet has the given id, balance and time and an empty history |
| WalletEntity.Wallet.Create | src/domain/entities/wallet.entity.ts:17-19 | a fresh wallet whose fields are `NewWallet`'s, or its failure |
| WalletEntity.Wallet.Credit | src/domain/entities/wallet.entity.ts:29-49 | the new fields and the returned record are `Credited` of the old fields; on failure nothing changes |
| WalletEntity.Wallet.Debit | src/domain/entities/wallet.entity.ts:51-79 | the new fields and the returned record are `Debited` of the old fields; on failure nothing changes |
| WalletEntity.Wallet.AddTransaction | src/domain/entities/wallet.entity.ts:81-83 | the history gains the record at its end; the balance is unchanged |
| WalletRepository.InMemoryWalletRepository.constructor | src/infrastructure/persistence/wallet.repository.ts:9 | the store starts empty |
| WalletRepository.InMemoryWalletRepository.Save | src/infrastructure/persistence/wallet.repository.ts:12-15 | the wallet's fields as they are now are stored under its id, every other entry is kept, and the same wallet is returned |
| WalletRepository.InMemoryWalletRepository.FindById | src/infrastructure/persistence/wallet.repository.ts:17-20 | nothing exactly for a missing id; otherwise a fresh wallet equal to the stored snapshot |
| WalletRepository.InMemoryWalletRepository.FindByIdWithLock | src/infrastructure/persistence/wallet.repository.ts:22-29 | the same answer as `FindById` |
| WalletRepository.InMemoryWalletRepository.FindMultipleByIdsWithLock | src/infrastructure/persistence/wallet.repository.ts:31-51 | exactly the requested ids that are stored, each mapped to its own fresh copy of the snapshot; different ids get different objects |
| WalletRepository.InMemoryWalletRepository.CloneWallet | src/infrastructure/persistence/wallet.repository.ts:73-83 | a fresh wallet with the same id, balance, time and history, rebuilt record by record |
| WalletRepository.SnapshotIsolation | src/infrastructure/persistence/wallet.repository.ts:12-20 | after a save, crediting the saved wallet and crediting a copy read back leave the store holding the snapshot taken at the save |
| TransactionRepository.Values | src/infrastructure/persistence/transaction.repository.ts:21 | on a coherent store, the stored records in insertion order, one per id |
| TransactionRepository.ByIdempotencyKey | src/infrastructure/persistence/transaction.repository.ts:26-28 | finds a record exactly for an indexed key, and that record carries the key |
| TransactionRepository.SaveTxn | src/infrastructure/persistence/transaction.repository.ts:10-18 | keeps the store coherent; stores the record under its id; a new id goes to the end of the order, an existing id keeps its place; a truthy key then finds this record and every other key is unaffected |
| TransactionRepository.SaveTxnCoherent | src/infrastructure/persistence/transaction.repository.ts:10-18 | saving keeps the store's invariant: distinct ids in order, order and records agree, records under their own ids, keys index records carrying them |
| TransactionRepository.OwnedBy | src/infrastructure/persistence/transaction.repository.ts:22 | the filter keeps every record of the wallet as often as it occurs and drops every other |
| TransactionRepository.Insert | src/infrastructure/persistence/transaction.repository.ts:23 | inserting into a newest-first list gives a newest-first permutation of the list plus the record |
| TransactionRepository.SortNewestFirst | src/infrastructure/persistence/transaction.repository.ts:23 | the result is newest first and a permutation of the input |
| TransactionRepository.ByWalletId | src/infrastructure/persistence/transaction.repository.ts:20-24 | newest first; each record of the wallet occurs as often as among the stored values, and no other record occurs |
| TransactionRepository.StoredValues | src/infrastructure/persistence/transaction.repository.ts:21 | a record is among the stored values exactly when it is stored under its own id, and then only once |
| TransactionRepository.ByWalletIdExactly | src/infrastructure/persistence/transaction.repository.ts:20-24 | on a coherent store, the list holds exactly the stored records of the wallet, each once |
| TransactionRepository.ByWalletIdUnknown | src/infrastructure/persistence/transaction.repository.ts:20-24 | a wallet with no stored record gets the empty list |
| TransactionRepository.InMemoryTransactionRepository.constructor | src/infrastructure/persistence/transaction.repository.ts:7-8 | the store starts empty and coherent |
| TransactionRepository.InMemoryTransactionRepository.Save | src/infrastructure/persistence/transaction.repository.ts:10-18 | the new fields are `SaveTxn` of the old ones, the store stays coherent and the record is returned |
| TransactionRepository.InMemoryTransactionRepository.FindByReference | src/infrastructure/persistence/transaction.repository.ts:30-37 | nothing exactly when no stored record has the reference; otherwise the first such record in insertion order |
| Ledger.SaveKeepsWalletsValid | src/infrastructure/persistence/wallet.repository.ts:12-15 | saving a reconciled wallet under its own id keeps every snapshot keyed by its id and reconciled |
| Ledger.PostKeepsMirrored | src/application/use-cases/fund-wallet/fund-wallet.use-case.ts:53-56 | saving a wallet whose history gained a fresh record, and saving that record, keeps the two stores in agreement: a record is in a wallet's history exactly when it is stored and names that wallet |
| CreateWallet.CreateWalletStep | src/application/use-cases/create-wallet/create-wallet.use-case.ts:16-26 | succeeds exactly for a non-blank id and currency and then reports the id, the currency, a zero balance and the time; only the new id's entry changes: an empty wallet with those fields; on failure the store is unchanged |
| CreateWallet.CreateKeepsValid | src/application/use-cases/create-wallet/create-wallet.use-case.ts:16-26 | creating a wallet keeps every snapshot keyed by its id and reconciled |
| CreateWallet.CreateKeepsMirrored | src/application/use-cases/create-wallet/create-wallet.use-case.ts:16-26 | with a fresh id, the two stores still agree |
| CreateWallet.CreateTwiceDistinct | src/application/use-cases/create-wallet/create-wallet.use-case.ts:16-26 | two creations with different ids report different ids, add exactly those two entries and leave the first wallet untouched |
| CreateWallet.CreateWalletUseCase.constructor | src/application/use-cases/create-wallet/create-wallet.use-case.ts:11-14 | keeps the given store |
| CreateWallet.CreateWalletUseCase.Execute | src/application/use-cases/create-wallet/create-wallet.use-case.ts:16-26 | the reply and the new store are `CreateWalletStep` of the old store |
| FundWallet.ResultOf | src/application/use-cases/fund-wallet/fund-wallet.use-case.ts:58-64 | the report carries the record's id, wallet, amount, balance-after and time |
| FundWallet.FundStep | src/application/use-cases/fund-wallet/fund-wallet.use-case.ts:26-65 | checks in source order: a non-positive amount fails; a truthy known key replays its record unchanged; a missing wallet fails; otherwise one credit record is stored and only that wallet changes, gaining the amount and the record; every failure leaves both stores unchanged |
| FundWallet.FundKeepsValid | src/application/use-cases/fund-wallet/fund-wallet.use-case.ts:52-56 | funding keeps both stores' invariants |
| FundWallet.FundChangesOneWallet | src/application/use-cases/fund-wallet/fund-wallet.use-case.ts:52-56 | an applied call keeps the set of wallets, adds the amount to the funded wallet and leaves every other wallet unchanged |
| FundWallet.FundRetryReplays | src/application/use-cases/fund-wallet/fund-wallet.use-case.ts:31-45 | once a call with a truthy key has succeeded, the same call again reports the same result and changes nothing |
| FundWallet.FundKeepsMirrored | src/application/use-cases/fund-wallet/fund-wallet.use-case.ts:52-56 | with a fresh record id, funding keeps the two stores in agreement |
| FundWallet.FundWalletUseCase.constructor | src/application/use-cases/fund-wallet/fund-wallet.use-case.ts:19-24 | keeps the given stores |
| FundWallet.FundWalletUseCase.Execute | src/application/use-cases/fund-wallet/fund-wallet.use-case.ts:26-65 | the reply and the new stores are `FundStep` of the old stores, and the transaction store stays coherent |
| TransferFunds.SortedIds | src/application/use-cases/transfer-funds/transfer-funds.use-case.ts:69 | both ids, each once, in ascending order |
| TransferFunds.Locked | src/application/use-cases/transfer-funds/transfer-funds.use-case.ts:70-73 | exactly the requested ids that are stored, with their snapshots |
| TransferFunds.PairsWith | src/application/use-cases/transfer-funds/transfer-funds.use-case.ts:47-50 | a record pairs exactly when it names the sender as related wallet and its time is less than 1000 ms before or after the key's record; its type plays no part |
| TransferFunds.FindPair | src/application/use-cases/transfer-funds/transfer-funds.use-case.ts:44-51 | nothing exactly when no record pairs with the key's record; otherwise the first that does (with the kind check switched on, only CREDIT records pair) |
| TransferFunds.ReplayBy | src/application/use-cases/transfer-funds/transfer-funds.use-case.ts:38-66 | the replay check with or without the kind check: a replay exactly when the key is truthy and indexed, its record is a TRANSFER_OUT and some receiver record pairs with it; the report comes from the key's record and the first such receiver record |
| TransferFunds.ReplayOf | src/application/use-cases/transfer-funds/transfer-funds.use-case.ts:38-66 | as written: a replay exactly when the key is truthy and indexed, its record is a TRANSFER_OUT and some receiver record, of any type, names the sender within 1000 ms; the report comes from the key's record and the first such receiver record |
| TransferFunds.CreditLeg | src/application/use-cases/transfer-funds/transfer-funds.use-case.ts:104 | the receiver gains the amount and one CREDIT record with no key and the given related wallet |
| TransferFunds.CreditLegReconciled | src/application/use-cases/transfer-funds/transfer-funds.use-case.ts:104 | the credit leg keeps the receiver's invariant |
| TransferFunds.CreditLegAsWritten | src/application/use-cases/transfer-funds/transfer-funds.use-case.ts:104 | with no related wallet, the credit leg is exactly what `credit(amount, undefined, reference)` produces |
| TransferFunds.Move | src/application/use-cases/transfer-funds/transfer-funds.use-case.ts:95-123 | the report has both record ids, both new balances and the debit's time; the debit record then the credit record are saved |
| TransferFunds.MoveLegs | src/application/use-cases/transfer-funds/transfer-funds.use-case.ts:96-104 | the debit succeeds, and the two legs are the intended TRANSFER_OUT and CREDIT records |
| TransferFunds.Checked | src/application/use-cases/transfer-funds/transfer-funds.use-case.ts:72-93 | checks in order, each failure changing nothing: a missing sender, a missing receiver, a currency mismatch, then too little money; otherwise `Move` |
| TransferFunds.Transfer | src/application/use-cases/transfer-funds/transfer-funds.use-case.ts:29-123 | checks in order: a non-positive amount, the same wallet on both sides, a replay (reported, nothing changed), then `Checked` on the stored wallets |
| TransferFunds.CheckedOnLocked | src/application/use-cases/transfer-funds/transfer-funds.use-case.ts:69-80 | the locked fetch of the sorted ids gives the checks the same wallets as the whole store |
| TransferFunds.TransferFailureUnchanged | src/application/use-cases/transfer-funds/transfer-funds.use-case.ts:29-93 | a failed transfer changes neither store |
| TransferFunds.TransferNotFound | src/application/use-cases/transfer-funds/transfer-funds.use-case.ts:75-80 | a missing sender is reported before a missing receiver |
| TransferFunds.TransferSucceedsIff | src/application/use-cases/transfer-funds/transfer-funds.use-case.ts:29-123 | a transfer succeeds exactly when the arguments pass and it is a replay or both wallets exist in one currency with enough money |
| TransferFunds.TransferApplied | src/application/use-cases/transfer-funds/transfer-funds.use-case.ts:95-123 | an applied transfer reports both new balances and saves the intended debit and credit records, the debit first |
| TransferFunds.TransferStep | src/application/use-cases/transfer-funds/transfer-funds.use-case.ts:29-123 | as written: an applicable transfer saves the debit record and then a credit record that names no related wallet |
| TransferFunds.LinkedTransferStep | src/application/use-cases/transfer-funds/transfer-funds.use-case.ts:104 | corrected: an applicable transfer saves the debit record and then a credit record that names the sender |
| TransferFunds.TransferIsMove | src/application/use-cases/transfer-funds/transfer-funds.use-case.ts:68-112 | an applicable transfer is `Move` on the two stored wallets |
| TransferFunds.MoveWallets | src/application/use-cases/transfer-funds/transfer-funds.use-case.ts:96-109 | `Move` saves the debited sender, then the credited receiver |
| TransferFunds.MovePostings | src/application/use-cases/transfer-funds/transfer-funds.use-case.ts:96-109 | after `Move` the sender's balance drops by the amount and the receiver's rises by it; each history gains its leg; every other wallet is unchanged |
| TransferFunds.TransferMovesFunds | src/application/use-cases/transfer-funds/transfer-funds.use-case.ts:96-112 | an applied transfer keeps the set of wallets; the sender loses and the receiver gains the amount, so their sum is conserved; currencies are unchanged; each history gains its one leg, the sender's a TRANSFER_OUT; every other wallet is unchanged |
| TransferFunds.TransferNotAppliedUnchanged | src/application/use-cases/transfer-funds/transfer-funds.use-case.ts:29-93 | a transfer that does not apply leaves both stores as they were |
| TransferFunds.MoveKeepsValid | src/application/use-cases/transfer-funds/transfer-funds.use-case.ts:95-112 | moving money keeps both stores' invariants |
| TransferFunds.MoveKeepsCoherent | src/application/use-cases/transfer-funds/transfer-funds.use-case.ts:110-111 | the two record saves keep the transaction store coherent |
| TransferFunds.TransferKeepsValid | src/application/use-cases/transfer-funds/transfer-funds.use-case.ts:29-123 | every transfer, applied or not, keeps both stores' invariants |
| TransferFunds.MoveRecords | src/application/use-cases/transfer-funds/transfer-funds.use-case.ts:110-111 | the debit and credit records are stored under their ids |
| TransferFunds.MoveKeepsMirrored | src/application/use-cases/transfer-funds/transfer-funds.use-case.ts:107-112 | with two fresh, different record ids, moving money keeps the two stores in agreement |
| TransferFunds.TransferKeepsMirrored | src/application/use-cases/transfer-funds/transfer-funds.use-case.ts:29-123 | with two fresh, different record ids, every transfer keeps the two stores in agreement |
| TransferFunds.StoredAfterTransfer | src/application/use-cases/transfer-funds/transfer-funds.use-case.ts:104-112 | after an applied transfer the store is coherent, the receiver's list holds the credit leg and otherwise only its earlier records, and the request's key finds the debit |
| TransferFunds.ReceiverRecords | src/application/use-cases/transfer-funds/transfer-funds.use-case.ts:107-112 | after both legs are saved, the receiver's list holds the credit leg and otherwise only records stored before |
| TransferFunds.KeyAfterLegs | src/application/use-cases/transfer-funds/transfer-funds.use-case.ts:96-111 | the credit leg carries no key, so after both saves the debit's key still finds the debit |
| TransferFunds.NoPairNoReplay | src/application/use-cases/transfer-funds/transfer-funds.use-case.ts:44-51 | when no receiver record names the sender, the replay search finds nothing |
| TransferFunds.UniquePairReplays | src/application/use-cases/transfer-funds/transfer-funds.use-case.ts:38-66 | when the key finds a TRANSFER_OUT and exactly one receiver record pairs with it, the replay reports those two records |
| TransferFunds.RetriedTransferNotRecognised | src/application/use-cases/transfer-funds/transfer-funds.use-case.ts:44-104 | as written, when no earlier record of the receiver names the sender, the replay search for the same request finds nothing after an applied transfer |
| TransferFunds.RetryApplies | src/application/use-cases/transfer-funds/transfer-funds.use-case.ts:39-112 | as written, with funds for two and no earlier record of the receiver naming the sender, the same request applies again after the first |
| TransferFunds.RetriedTransferRunsAgain | src/application/use-cases/transfer-funds/transfer-funds.use-case.ts:39-112 | as written, with funds for two and no earlier record of the receiver naming the sender, a retried request succeeds with a new debit record and the sender is debited twice |
| TransferFunds.LinkedRetryReplays | src/application/use-cases/transfer-funds/transfer-funds.use-case.ts:39-112 | with the credit leg linked to the sender, the legs less than 1000 ms apart and no earlier record of the receiver naming the sender, a retried request reports the first result and changes nothing |
| TransferFunds.LinkedLegFound | src/application/use-cases/transfer-funds/transfer-funds.use-case.ts:44-104 | after a transfer whose credit leg names the sender, the search (with or without the kind check) reports the first result when no earlier receiver record it looks at names the sender |
| TransferFunds.OtherPairReplays | src/application/use-cases/transfer-funds/transfer-funds.use-case.ts:44-66 | when the credit leg does not pair and an earlier receiver record does, the replay reports an earlier record, not the credit leg |
| TransferFunds.ReverseTransferPairs | src/application/use-cases/transfer-funds/transfer-funds.use-case.ts:44-51 | as written, if the receiver's TRANSFER_OUT to the sender lies within 1000 ms of the debit, a retry after an applied transfer is reported as a replay whose credit record is not the leg just made |
| TransferFunds.CreditPairReplays | src/application/use-cases/transfer-funds/transfer-funds.use-case.ts:44-51 | corrected: with the credit leg linked and only CREDIT records pairing, a retry after an applied transfer reports exactly the first result whenever the legs are less than 1000 ms apart and no earlier CREDIT of the receiver names the sender; the receiver's own transfers to the sender no longer interfere |
| TransferFunds.TransferFundsUseCase.constructor | src/application/use-cases/transfer-funds/transfer-funds.use-case.ts:22-27 | keeps the given stores |
| TransferFunds.TransferFundsUseCase.Replay | src/application/use-cases/transfer-funds/transfer-funds.use-case.ts:38-66 | the answer is `ReplayOf` the transaction store |
| TransferFunds.TransferFundsUseCase.Execute | src/application/use-cases/transfer-funds/transfer-funds.use-case.ts:29-123 | the reply and the new stores are the transfer as written (`TransferStep`) of the old stores, and the transaction store stays coherent |
| TransferFunds.TransferFundsUseCase.Lookup | src/application/use-cases/transfer-funds/transfer-funds.use-case.ts:68-93 | the reply and the new stores are `Checked` of the old stores, with the credit leg as written |
| TransferFunds.TransferFundsUseCase.Post | src/application/use-cases/transfer-funds/transfer-funds.use-case.ts:95-123 | the reply and the new stores are `Move` of the old stores and the two wallets' old fields, with the credit leg as written |
| GetWallet.ViewOf | src/application/use-cases/get-wallet/get-wallet.use-case.ts:58-66 | the view carries the record's id, kind, amount, balance-after, reference, related wallet and time |
| GetWallet.Views | src/application/use-cases/get-wallet/get-wallet.use-case.ts:56-67 | one view per record, in the same order |
| GetWallet.GetWalletDetails | src/application/use-cases/get-wallet/get-wallet.use-case.ts:43-69 | fails exactly for a missing wallet, as not found; otherwise the stored wallet's fields and the views of `findByWalletId`, in its order |
| GetWallet.MissingIgnoresTransactions | src/application/use-cases/get-wallet/get-wallet.use-case.ts:44-47 | a missing wallet is reported whatever the transaction store holds |
| GetWallet.DetailsNewestFirst | src/application/use-cases/get-wallet/get-wallet.use-case.ts:49 | the listed records are newest first |
| GetWallet.DetailsMatchHistory | src/application/use-cases/get-wallet/get-wallet.use-case.ts:49-54 | when the stores agree, a record is listed exactly when it is in the wallet's history, so the list holds the same records as the history; the reported balance is its net sum |
| GetWallet.GetWalletUseCase.constructor | src/application/use-cases/get-wallet/get-wallet.use-case.ts:36-41 | keeps the given stores |
| GetWallet.GetWalletUseCase.Execute | src/application/use-cases/get-wallet/get-wallet.use-case.ts:43-69 | the reply is `GetWalletDetails` of the stores, which are not changed |

## Left out

- Per-id locking (`acquireLock`, `releaseLock`, wallet.repository.ts:53-71) and every other effect of concurrency are left out. The locked reads are plain reads.
- `await` is not modelled: every repository call is an ordinary synchronous call.
- The four saves in `Promise.all` (transfer-funds.use-case.ts:107-112) run one after another, in the order they are listed.
- Amounts are JavaScript numbers in the source. Here they are unbounded integers (minor units), so rounding, `NaN` and infinities are left out.
- Creation times are natural numbers of milliseconds passed in by the caller. The UUID generator's output is passed in as well.
- Error messages are left out. Exceptions become `Failure` values of one `Error` type, and their mapping to HTTP responses is not part of this model.
- The DTOs' validation decorators are not part of this model. Each use case is specified for every input, and the same checks it does itself are modelled.
- FundWallet.ResultOf: `FundWalletResultDto` declares seven constructor parameters, but the use case passes five. In the source the creation time therefore lands in the `reference` slot. The model reports the five values under their own names, so it does not capture that shift.
- Text.LexLe orders strings by characters (code points). `Array.prototype.sort` compares UTF-16 code units, and the two orders differ only for characters beyond U+FFFF. The order decides only the locking order, not any result.
- TransactionRepository.SortNewestFirst is a stable insertion sort, like `Array.prototype.sort`. Its stability is not proved; what is proved is the newest-first order and that the result is a permutation.
- TransactionRepository.InMemoryTransactionRepository.FindByWalletId and `FindByIdempotencyKey` are reading functions without contracts of their own. Their meaning is stated by `ByWalletId` and `ByIdempotencyKey`.
- WalletEntity.Wallet.Transactions is a reading function without a contract. A sequence is a value, so the copy the source's getter makes is implicit.
- TransferFunds.TransferFundsUseCase.Execute follows the code as written: its credit leg names no related wallet and its replay search does not look at the type. The corrected transfer, `LinkedTransferStep`, and the search with the kind check, `ReplayBy` with `creditOnly`, are specification functions with no method of their own. The invariant, agreement and conservation lemmas are proved for both credit legs.
- The repository interfaces, the HTTP controller, the exception filter, the module wiring and the configuration files are not part of this model.

## Findings

| source | as written | input that shows it | evidently intended | confidence | as-written member | corrected member |
|---|---|---|---|---|---|---|
| src/application/use-cases/transfer-funds/transfer-funds.use-case.ts:104 | The credit leg is `toWallet.credit(transferAmount, undefined, dto.reference)`, which records no related wallet. The replay search at lines 44-51 looks for a receiver record whose `relatedWalletId` is the sender, so it never finds the credit leg. A retried transfer is therefore applied again, unless some earlier record of the receiver happens to name the sender (next row). | Wallet A has 100 USD and wallet B has 0 USD. Transfer 40 from A to B with idempotency key `k`, then send the same request again. The second request is applied too, and A ends at 20. | The retry is recognised: it reports the first transfer's result, and A stays at 60. | not executed | TransferFunds.RetriedTransferRunsAgain | TransferFunds.LinkedRetryReplays |
| src/application/use-cases/transfer-funds/transfer-funds.use-case.ts:47-50 | The `find` predicate accepts any record of the receiver that names the sender as related wallet and lies within 1000 ms of the key's record. It does not look at the record's type. The receiver's own TRANSFER_OUT to the sender passes it. | Wallet B sends 10 to wallet A at t = 5 ms, which records B's TRANSFER_OUT `r` naming A. A sends 40 to B with idempotency key `k` at t = 10 ms. The same request sent again is reported as a replay whose `creditTransactionId` is `r`'s id and whose `toBalanceAfter` is B's balance after its own debit. | Only the receiver's CREDIT leg pairs, so the retry reports the leg the first request made. | not executed | TransferFunds.ReverseTransferPairs | TransferFunds.CreditPairReplays |
