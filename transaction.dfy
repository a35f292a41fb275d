/** The Transaction record: an immutable fact about one balance change.
    Every field is a `readonly` constructor parameter in the source, so a
    datatype value models it exactly. Identifiers and the creation time come
    from the UUID generator and the clock, passed in as `id` and `now`. */
module TransactionEntity {
  import opened Wrappers

  /** The four kinds of the `TransactionType` enum. */
  datatype TransactionType = Credit | Debit | TransferIn | TransferOut

  datatype Transaction = Transaction(
    id: string,
    walletId: string,
    kind: TransactionType,
    amount: int,
    currency: string,
    balanceAfter: int,
    reference: Option<string>,
    relatedWalletId: Option<string>,
    createdAt: nat,
    idempotencyKey: Option<string>)

  /** The parameter object of `Transaction.create`. */
  datatype CreateParams = CreateParams(
    walletId: string,
    kind: TransactionType,
    amount: int,
    currency: string,
    balanceAfter: int,
    reference: Option<string>,
    relatedWalletId: Option<string>,
    idempotencyKey: Option<string>)

  /** The caller-supplied part of a record. */
  function ParamsOf(t: Transaction): CreateParams {
    CreateParams(t.walletId, t.kind, t.amount, t.currency, t.balanceAfter,
                 t.reference, t.relatedWalletId, t.idempotencyKey)
  }

  /** `Transaction.create(params)`: the parameters are carried over verbatim
      (so an optional parameter not supplied stays absent), the id is the
      generator's and the timestamp the clock's. */
  function Create(params: CreateParams, id: string, now: nat): (t: Transaction)
    ensures ParamsOf(t) == params
    ensures t.id == id && t.createdAt == now
  {
    Transaction(id, params.walletId, params.kind, params.amount, params.currency,
                params.balanceAfter, params.reference, params.relatedWalletId,
                now, params.idempotencyKey)
  }

  /** A record is determined by its parameters, id and time: `create` and
      `ParamsOf` are inverse. */
  lemma CreateFromParams(t: Transaction)
    ensures Create(ParamsOf(t), t.id, t.createdAt) == t
  {
  }
}
