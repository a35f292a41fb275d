/** The in-memory wallet store. It keeps, per id, a snapshot of a wallet's
    fields: a `WalletState` value plays the part of the private clone the
    source stores and hands out, so no caller's `Wallet` object is ever shared
    with the store. Per-id locking is left out: the locked reads are the plain
    reads. */
module WalletRepository {
  import opened Wrappers
  import opened MoneyValue
  import opened WalletIdValue
  import opened WalletEntity

  class InMemoryWalletRepository {
    var wallets: map<string, WalletState>

    constructor ()
      ensures wallets == map[]
    {
      wallets := map[];
    }

    /** `save(wallet)`: replaces the snapshot under the wallet's id with a copy
        of the wallet as it is now; every other id keeps its entry. */
    method Save(wallet: Wallet) returns (saved: Wallet)
      modifies this
      ensures wallets == old(wallets)[wallet.id.value := wallet.State()]
      ensures saved == wallet
    {
      var copy := CloneWallet(wallet.State());
      wallets := wallets[wallet.id.value := copy.State()];
      saved := wallet;
    }

    /** `findById(id)`: a fresh copy of the stored snapshot, or nothing. */
    method FindById(id: string) returns (r: Option<Wallet>)
      ensures r.None? <==> id !in wallets
      ensures r.Some? ==> fresh(r.value) && r.value.State() == wallets[id]
    {
      if id in wallets {
        var copy := CloneWallet(wallets[id]);
        r := Some(copy);
      } else {
        r := None;
      }
    }

    /** `findByIdWithLock(id)`: with locking left out, the same as `findById`. */
    method FindByIdWithLock(id: string) returns (r: Option<Wallet>)
      ensures r.None? <==> id !in wallets
      ensures r.Some? ==> fresh(r.value) && r.value.State() == wallets[id]
    {
      r := FindById(id);
    }

    /** `findMultipleByIdsWithLock(ids)`: the requested ids that are stored,
        each mapped to its own fresh copy; missing ids are absent. */
    method FindMultipleByIdsWithLock(ids: seq<string>) returns (result: map<string, Wallet>)
      ensures forall id :: id in result <==> id in ids && id in wallets
      ensures forall id :: id in result ==> fresh(result[id]) && result[id].State() == wallets[id]
      ensures forall a, b :: a in result && b in result && a != b ==> result[a] != result[b]
    {
      result := map[];
      for i := 0 to |ids|
        invariant forall id :: id in result <==> id in ids[..i] && id in wallets
        invariant forall id :: id in result ==> fresh(result[id]) && result[id].State() == wallets[id]
        invariant forall a, b :: a in result && b in result && a != b ==> result[a] != result[b]
      {
        var found := FindById(ids[i]);
        if found.Some? {
          result := result[ids[i] := found.value];
        }
        assert ids[..i + 1] == ids[..i] + [ids[i]];
      }
      assert ids[..|ids|] == ids;
    }

    /** `cloneWallet`: a new wallet with the same id, balance and creation
        time, whose history is rebuilt by appending each record in turn. */
    method CloneWallet(s: WalletState) returns (c: Wallet)
      ensures fresh(c) && c.State() == s
    {
      var id := WalletIdValue.Create(s.id.value).value;
      var balance := MoneyValue.Create(s.balance.amount, s.balance.currency).value;
      c := new Wallet(id, balance, s.createdAt);
      var history := s.transactions;
      for i := 0 to |history|
        invariant c.State() == WalletState(s.id, s.balance, s.createdAt, history[..i])
      {
        assert history[..i + 1] == history[..i] + [history[i]];
        c.AddTransaction(history[i]);
      }
      assert history[..|history|] == history;
    }
  }

  /** A saved wallet that its caller goes on changing, and a copy read back
      and changed too: the store still holds the snapshot taken at `save`. */
  method SnapshotIsolation(repo: InMemoryWalletRepository, w: Wallet, m: Money, id1: string, id2: string, now: nat)
    modifies repo, w
    ensures repo.wallets == old(repo.wallets)[w.id.value := old(w.State())]
  {
    var saved := repo.Save(w);
    var credited := w.Credit(m, None, None, id1, now);
    var copy := repo.FindById(w.id.value);
    var creditedCopy := copy.value.Credit(m, None, None, id2, now);
  }
}
