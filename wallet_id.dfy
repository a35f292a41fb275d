/** The WalletId value object: a non-blank string, compared by value. The
    constructor guard is the constraint of the subset type `WalletId`. */
module WalletIdValue {
  import opened Wrappers
  import opened Text
  import opened DomainErrors

  datatype WalletIdData = WalletIdData(value: string)

  type WalletId = w: WalletIdData | !IsBlank(w.value) witness WalletIdData("wallet")

  /** `new WalletId(value)`: the value is stored unchanged. */
  function Create(value: string): (r: Result<WalletId, Error>)
    ensures r.Success? <==> !IsBlank(value)
    ensures r.Success? <==> !AllWhitespace(value)
    ensures r.Success? ==> r.value.value == value
    ensures r.Failure? ==> r.error == WalletIdEmpty
  {
    BlankIffAllWhitespace(value);
    if IsBlank(value) then Failure(WalletIdEmpty) else Success(WalletIdData(value))
  }

  /** `WalletId.generate()`, with the output of the UUID generator passed in
      as `uuid`. */
  function Generate(uuid: string): (r: Result<WalletId, Error>)
    ensures !IsBlank(uuid) ==> r == Success(WalletIdData(uuid))
    ensures IsBlank(uuid) ==> r == Failure(WalletIdEmpty)
  {
    Create(uuid)
  }

  /** `a.equals(b)`: value equality, so it coincides with equality of ids. */
  function Equals(a: WalletId, b: WalletId): (r: bool)
    ensures r <==> a == b
  {
    a.value == b.value
  }

  /** `equals` is an equivalence relation. */
  lemma EqualsIsEquivalence(a: WalletId, b: WalletId, c: WalletId)
    ensures Equals(a, a)
    ensures Equals(a, b) == Equals(b, a)
    ensures Equals(a, b) && Equals(b, c) ==> Equals(a, c)
  {
  }
}
