/** The in-memory transaction store: records by id in insertion order (a
    JavaScript `Map` keeps the position of a key that is set again), and an
    index from idempotency key to the record last saved with that key.
    `TxnStore` is the value of the store's fields and the functions below its
    queries; the class `InMemoryTransactionRepository` holds the fields and
    updates them in place. */
module TransactionRepository {
  import opened Wrappers
  import opened Text
  import opened TransactionEntity

  datatype TxnStore = TxnStore(order: seq<string>, records: map<string, Transaction>, keyIndex: map<string, Transaction>)

  const EmptyStore := TxnStore([], map[], map[])

  /** The store's invariant: each id is in the insertion order once, the
      order lists exactly the stored ids, each record is stored under its own
      id, and the index holds each record under its own non-empty key. */
  ghost predicate Coherent(st: TxnStore) {
    && (forall i, j :: 0 <= i < j < |st.order| ==> st.order[i] != st.order[j])
    && (forall k :: k in st.records <==> k in st.order)
    && (forall k :: k in st.records ==> st.records[k].id == k)
    && (forall k :: k in st.keyIndex ==> k != "" && st.keyIndex[k].idempotencyKey == Some(k))
  }

  function ValuesOf(order: seq<string>, records: map<string, Transaction>): (r: seq<Transaction>)
    ensures (forall k :: k in order ==> k in records) ==>
      |r| == |order| && forall i :: 0 <= i < |r| ==> r[i] == records[order[i]]
  {
    if order == [] then []
    else
      var k := order[|order| - 1];
      ValuesOf(order[..|order| - 1], records) + (if k in records then [records[k]] else [])
  }

  /** `transactions.values()`: the stored records in insertion order. */
  function Values(st: TxnStore): (r: seq<Transaction>)
    ensures Coherent(st) ==> |r| == |st.order| && forall i :: 0 <= i < |r| ==> r[i] == st.records[st.order[i]]
  {
    ValuesOf(st.order, st.records)
  }

  /** `findByIdempotencyKey(key)`. */
  function ByIdempotencyKey(st: TxnStore, key: string): (r: Option<Transaction>)
    ensures r.Some? <==> key in st.keyIndex
    ensures Coherent(st) && r.Some? ==> r.value.idempotencyKey == Some(key)
  {
    if key in st.keyIndex then Some(st.keyIndex[key]) else None
  }

  /** `save(t)`: a new id is added at the end of the insertion order; a known
      id keeps its place and its record is replaced. A record with a truthy
      key becomes the one that key finds; other keys are unaffected. */
  function SaveTxn(st: TxnStore, t: Transaction): (r: TxnStore)
    ensures Coherent(st) ==> Coherent(r)
    ensures r.records == st.records[t.id := t]
    ensures Coherent(st) && t.id !in st.records ==> Values(r) == Values(st) + [t]
    ensures Coherent(st) && t.id in st.records ==>
      |Values(r)| == |Values(st)| &&
      forall i :: 0 <= i < |Values(r)| ==> Values(r)[i] == if st.order[i] == t.id then t else Values(st)[i]
    ensures Truthy(t.idempotencyKey) ==> ByIdempotencyKey(r, t.idempotencyKey.value) == Some(t)
    ensures forall k :: !(Truthy(t.idempotencyKey) && k == t.idempotencyKey.value) ==>
      ByIdempotencyKey(r, k) == ByIdempotencyKey(st, k)
  {
    var r := TxnStore(
      if t.id in st.records then st.order else st.order + [t.id],
      st.records[t.id := t],
      if Truthy(t.idempotencyKey) then st.keyIndex[t.idempotencyKey.value := t] else st.keyIndex);
    SaveTxnCoherent(st, t, r);
    r
  }

  lemma SaveTxnCoherent(st: TxnStore, t: Transaction, r: TxnStore)
    requires r == TxnStore(
      if t.id in st.records then st.order else st.order + [t.id],
      st.records[t.id := t],
      if Truthy(t.idempotencyKey) then st.keyIndex[t.idempotencyKey.value := t] else st.keyIndex)
    ensures Coherent(st) ==> Coherent(r)
    ensures Coherent(st) && t.id !in st.records ==> Values(r) == Values(st) + [t]
  {
    if Coherent(st) {
      if t.id !in st.records {
        OrderAppendDistinct(st.order, t.id);
        ValuesAppend(st, t, r);
      }
      KeyIndexSave(st.keyIndex, t, r.keyIndex);
      RecordsSave(st, t, r);
    }
  }

  lemma RecordsSave(st: TxnStore, t: Transaction, r: TxnStore)
    requires Coherent(st)
    requires r.order == if t.id in st.records then st.order else st.order + [t.id]
    requires r.records == st.records[t.id := t]
    requires forall i, j :: 0 <= i < j < |r.order| ==> r.order[i] != r.order[j]
    requires forall k :: k in r.keyIndex ==> k != "" && r.keyIndex[k].idempotencyKey == Some(k)
    ensures Coherent(r)
  {
    forall k ensures k in r.records <==> k in r.order {
      if k == t.id {
      } else {
        assert k in r.records <==> k in st.records;
      }
    }
  }

  lemma OrderAppendDistinct(order: seq<string>, id: string)
    requires forall i, j :: 0 <= i < j < |order| ==> order[i] != order[j]
    requires id !in order
    ensures forall i, j :: 0 <= i < j < |order + [id]| ==> (order + [id])[i] != (order + [id])[j]
  {
  }

  lemma KeyIndexSave(index: map<string, Transaction>, t: Transaction, index': map<string, Transaction>)
    requires forall k :: k in index ==> k != "" && index[k].idempotencyKey == Some(k)
    requires index' == if Truthy(t.idempotencyKey) then index[t.idempotencyKey.value := t] else index
    ensures forall k :: k in index' ==> k != "" && index'[k].idempotencyKey == Some(k)
  {
  }

  lemma ValuesAppend(st: TxnStore, t: Transaction, r: TxnStore)
    requires Coherent(st) && t.id !in st.records
    requires r.order == st.order + [t.id] && r.records == st.records[t.id := t]
    ensures Values(r) == Values(st) + [t]
  {
    assert r.order[..|r.order| - 1] == st.order;
    assert forall k :: k in st.order ==> k in st.records && k != t.id;
    ValuesOfFrame(st.order, st.records, r.records);
  }

  lemma {:induction false} ValuesOfFrame(order: seq<string>, m1: map<string, Transaction>, m2: map<string, Transaction>)
    requires forall k :: k in order ==> k in m1 && k in m2 && m1[k] == m2[k]
    ensures ValuesOf(order, m1) == ValuesOf(order, m2)
  {
    if order != [] {
      ValuesOfFrame(order[..|order| - 1], m1, m2);
    }
  }

  /** The filter `t.walletId === walletId`, keeping the order. */
  function OwnedBy(s: seq<Transaction>, walletId: string): (r: seq<Transaction>)
    ensures forall t :: multiset(r)[t] == if t.walletId == walletId then multiset(s)[t] else 0
  {
    if s == [] then []
    else
      assert s == [s[0]] + s[1..];
      var rest := OwnedBy(s[1..], walletId);
      if s[0].walletId == walletId then [s[0]] + rest else rest
  }

  /** Newest first: creation times never increase along the sequence. */
  ghost predicate NewestFirst(s: seq<Transaction>) {
    forall i, j :: 0 <= i < j < |s| ==> s[i].createdAt >= s[j].createdAt
  }

  /** Inserts `t` before the first record that is not newer than it, so that
      among equal creation times the earlier input stays first. */
  function Insert(t: Transaction, s: seq<Transaction>): (r: seq<Transaction>)
    requires NewestFirst(s)
    ensures NewestFirst(r)
    ensures multiset(r) == multiset(s) + multiset{t}
    ensures forall x :: x in r ==> x == t || x in s
  {
    if s == [] then [t]
    else if s[0].createdAt <= t.createdAt then [t] + s
    else
      var rest := Insert(t, s[1..]);
      assert s == [s[0]] + s[1..];
      InsertCons(s, t, rest);
      [s[0]] + rest
  }

  /** The step of `Insert` that keeps the head in front of the insertion
      into the tail. */
  lemma InsertCons(s: seq<Transaction>, t: Transaction, rest: seq<Transaction>)
    requires |s| > 0 && NewestFirst(s) && NewestFirst(rest) && t.createdAt < s[0].createdAt
    requires forall x :: x in rest ==> x == t || x in s[1..]
    ensures NewestFirst([s[0]] + rest)
  {
    forall x | x in rest ensures x.createdAt <= s[0].createdAt {
      if x != t {
        var j :| 0 <= j < |s[1..]| && s[1..][j] == x;
        assert s[j + 1] == x;
      }
    }
    var r := [s[0]] + rest;
    forall i, j | 0 <= i < j < |r| ensures r[i].createdAt >= r[j].createdAt {
      if i == 0 {
        assert r[j] == rest[j - 1];
        assert r[j] in rest;
      } else {
        assert r[i] == rest[i - 1] && r[j] == rest[j - 1];
      }
    }
  }

  /** `sort((a, b) => b.createdAt - a.createdAt)`: a stable sort, newest
      first, by insertion. */
  function SortNewestFirst(s: seq<Transaction>): (r: seq<Transaction>)
    ensures NewestFirst(r)
    ensures multiset(r) == multiset(s)
  {
    if s == [] then []
    else
      assert s == [s[0]] + s[1..];
      Insert(s[0], SortNewestFirst(s[1..]))
  }

  /** `findByWalletId(walletId)`: the wallet's records, newest first. Each
      record occurs as often as in the store, and no other record occurs. */
  function ByWalletId(st: TxnStore, walletId: string): (r: seq<Transaction>)
    ensures NewestFirst(r)
    ensures forall t :: multiset(r)[t] == if t.walletId == walletId then multiset(Values(st))[t] else 0
  {
    SortNewestFirst(OwnedBy(Values(st), walletId))
  }

  lemma {:induction false} DistinctOccursOnce(s: seq<Transaction>, x: Transaction)
    requires forall i, j :: 0 <= i < j < |s| ==> s[i] != s[j]
    ensures multiset(s)[x] <= 1
  {
    if s != [] {
      assert s == [s[0]] + s[1..];
      DistinctOccursOnce(s[1..], x);
      if s[0] == x {
        assert x !in s[1..];
      }
    }
  }

  /** A record is among the stored values exactly when it is the record
      stored under its own id, and then it is there once. */
  lemma StoredValues(st: TxnStore, t: Transaction)
    requires Coherent(st)
    ensures t in Values(st) <==> t.id in st.records && st.records[t.id] == t
    ensures multiset(Values(st))[t] <= 1
  {
    var vs := Values(st);
    StoredMember(st, t);
    ValuesDistinct(st);
    DistinctOccursOnce(vs, t);
  }

  lemma StoredMember(st: TxnStore, t: Transaction)
    requires Coherent(st)
    ensures t in Values(st) <==> t.id in st.records && st.records[t.id] == t
  {
    var vs := Values(st);
    if t.id in st.records && st.records[t.id] == t {
      var i :| 0 <= i < |st.order| && st.order[i] == t.id;
      assert vs[i] == t;
    }
    if t in vs {
      var i :| 0 <= i < |vs| && vs[i] == t;
      assert st.records[st.order[i]] == t && st.order[i] in st.records;
    }
  }

  /** Distinct ids make distinct stored values. */
  lemma ValuesDistinct(st: TxnStore)
    requires Coherent(st)
    ensures var vs := Values(st); forall i, j :: 0 <= i < j < |vs| ==> vs[i] != vs[j]
  {
    var vs := Values(st);
    forall i, j | 0 <= i < j < |vs| ensures vs[i] != vs[j] {
      assert vs[i].id == st.order[i] && vs[j].id == st.order[j];
    }
  }

  /** `findByWalletId(w)` lists exactly the stored records whose wallet is
      `w`, each once. */
  lemma ByWalletIdExactly(st: TxnStore, walletId: string, t: Transaction)
    requires Coherent(st)
    ensures t in ByWalletId(st, walletId) <==>
      t.walletId == walletId && t.id in st.records && st.records[t.id] == t
    ensures multiset(ByWalletId(st, walletId))[t] <= 1
  {
    StoredValues(st, t);
  }

  /** A wallet with no stored record gets the empty list. */
  lemma ByWalletIdUnknown(st: TxnStore, walletId: string)
    requires forall k :: k in st.records ==> st.records[k].walletId != walletId
    ensures ByWalletId(st, walletId) == []
  {
    var r := ByWalletId(st, walletId);
    if r != [] {
      var t := r[0];
      assert multiset(r)[t] > 0;
      assert t in Values(st);
      ValuesFromRecords(st.order, st.records, t);
      assert false;
    }
  }

  lemma {:induction false} ValuesFromRecords(order: seq<string>, records: map<string, Transaction>, t: Transaction)
    requires t in ValuesOf(order, records)
    ensures exists k :: k in records && records[k] == t
  {
    var k := order[|order| - 1];
    if t !in ValuesOf(order[..|order| - 1], records) {
      assert k in records && records[k] == t;
    } else {
      ValuesFromRecords(order[..|order| - 1], records, t);
    }
  }

  class InMemoryTransactionRepository {
    var order: seq<string>
    var transactions: map<string, Transaction>
    var idempotencyIndex: map<string, Transaction>

    /** The store's fields as a value. */
    function State(): TxnStore
      reads this
    {
      TxnStore(order, transactions, idempotencyIndex)
    }

    ghost predicate Valid()
      reads this
    {
      Coherent(State())
    }

    constructor ()
      ensures Valid() && State() == EmptyStore
    {
      order, transactions, idempotencyIndex := [], map[], map[];
    }

    /** `save(transaction)`. */
    method Save(t: Transaction) returns (saved: Transaction)
      requires Valid()
      modifies this
      ensures Valid() && State() == SaveTxn(old(State()), t)
      ensures saved == t
    {
      if t.id !in transactions {
        order := order + [t.id];
      }
      transactions := transactions[t.id := t];
      if Truthy(t.idempotencyKey) {
        idempotencyIndex := idempotencyIndex[t.idempotencyKey.value := t];
      }
      saved := t;
    }

    /** `findByWalletId(walletId)`. */
    function FindByWalletId(walletId: string): seq<Transaction>
      reads this
    {
      ByWalletId(State(), walletId)
    }

    /** `findByIdempotencyKey(key)`. */
    function FindByIdempotencyKey(key: string): Option<Transaction>
      reads this
    {
      ByIdempotencyKey(State(), key)
    }

    /** `findByReference(reference)`: the first record in insertion order
        whose reference is `reference`, or nothing. */
    method FindByReference(reference: string) returns (r: Option<Transaction>)
      requires Valid()
      ensures r.None? <==> forall i :: 0 <= i < |Values(State())| ==> Values(State())[i].reference != Some(reference)
      ensures r.Some? ==> exists i :: (0 <= i < |Values(State())| && Values(State())[i] == r.value
        && r.value.reference == Some(reference)
        && forall j :: 0 <= j < i ==> Values(State())[j].reference != Some(reference))
    {
      var i := 0;
      while i < |order|
        invariant 0 <= i <= |order|
        invariant forall j :: 0 <= j < i ==> transactions[order[j]].reference != Some(reference)
      {
        var txn := transactions[order[i]];
        if txn.reference == Some(reference) {
          assert Values(State())[i] == txn;
          return Some(txn);
        }
        i := i + 1;
      }
      return None;
    }
  }
}
