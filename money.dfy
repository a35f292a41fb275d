/** The Money value object: a non-negative amount in a non-blank currency.
    Amounts are exact integers (minor units). Its two constructor guards are
    the constraint of the subset type `Money`, so every `Money` value is one
    the constructor accepted; `Create` is the constructor with its failures. */
module MoneyValue {
  import opened Wrappers
  import opened Text
  import opened DomainErrors

  datatype MoneyData = MoneyData(amount: int, currency: string)

  /** What the constructor's two guards let through. */
  predicate Admissible(amount: int, currency: string) {
    amount >= 0 && !IsBlank(currency)
  }

  type Money = m: MoneyData | Admissible(m.amount, m.currency) witness MoneyData(0, "USD")

  /** `new Money(amount, currency)`: the negative-amount guard is checked
      first, then the currency guard. */
  function Create(amount: int, currency: string): (r: Result<Money, Error>)
    ensures r.Success? <==> amount >= 0 && !IsBlank(currency)
    ensures r.Success? ==> r.value.amount == amount && r.value.currency == currency
    ensures amount < 0 ==> r == Failure(AmountNegative)
    ensures amount >= 0 && IsBlank(currency) ==> r == Failure(CurrencyMissing)
  {
    if amount < 0 then Failure(AmountNegative)
    else if IsBlank(currency) then Failure(CurrencyMissing)
    else Success(MoneyData(amount, currency))
  }

  /** The private guard `ensureSameCurrency`. */
  function EnsureSameCurrency(a: Money, b: Money): (r: Outcome<Error>)
    ensures r.Pass? <==> a.currency == b.currency
    ensures r.Fail? ==> r.error == CurrencyDiffers
  {
    if a.currency != b.currency then Fail(CurrencyDiffers) else Pass
  }

  /** `a.add(b)`: the sum, in the receiver's currency. */
  function Add(a: Money, b: Money): (r: Result<Money, Error>)
    ensures r.Success? <==> a.currency == b.currency
    ensures r.Failure? ==> r.error == CurrencyDiffers
    ensures r.Success? ==> r.value.amount == a.amount + b.amount && r.value.currency == a.currency
  {
    match EnsureSameCurrency(a, b)
    case Fail(e) => Failure(e)
    case Pass => Create(a.amount + b.amount, a.currency)
  }

  /** `a.subtract(b)`: the difference, which is never negative. */
  function Subtract(a: Money, b: Money): (r: Result<Money, Error>)
    ensures a.currency != b.currency ==> r == Failure(CurrencyDiffers)
    ensures a.currency == b.currency && b.amount > a.amount ==> r == Failure(NotEnoughFunds)
    ensures r.Success? <==> a.currency == b.currency && b.amount <= a.amount
    ensures r.Success? ==> r.value.amount == a.amount - b.amount && r.value.currency == a.currency
  {
    match EnsureSameCurrency(a, b)
    case Fail(e) => Failure(e)
    case Pass =>
      var newAmount := a.amount - b.amount;
      if newAmount < 0 then Failure(NotEnoughFunds) else Create(newAmount, a.currency)
  }

  /** `a.isGreaterThanOrEqual(b)`. */
  function IsGreaterThanOrEqual(a: Money, b: Money): (r: Result<bool, Error>)
    ensures r.Success? <==> a.currency == b.currency
    ensures r.Failure? ==> r.error == CurrencyDiffers
    ensures r.Success? ==> (r.value <==> a.amount >= b.amount)
  {
    match EnsureSameCurrency(a, b)
    case Fail(e) => Failure(e)
    case Pass => Success(a.amount >= b.amount)
  }

  /** Every Money passes the constructor again unchanged: re-wrapping an
      existing amount and currency, as the repository's clone does, never
      fails. */
  lemma CreateAccepts(m: Money)
    ensures Create(m.amount, m.currency) == Success(m)
  {
  }

  /** Construction fails exactly when the amount is negative or the currency
      is empty or made only of whitespace. */
  lemma CreateFailsIff(amount: int, currency: string)
    ensures Create(amount, currency).Failure? <==> amount < 0 || AllWhitespace(currency)
  {
    BlankIffAllWhitespace(currency);
  }

  /** Adding zero of the same currency is the identity. */
  lemma AddZero(a: Money, zero: Money)
    requires zero.amount == 0 && zero.currency == a.currency
    ensures Add(a, zero) == Success(a)
  {
  }

  /** Subtracting a value from itself leaves zero, in its own currency. */
  lemma SubtractSelf(a: Money)
    ensures Subtract(a, a).Success?
    ensures Subtract(a, a).value.amount == 0 && Subtract(a, a).value.currency == a.currency
  {
  }

  /** Subtraction undoes addition. */
  lemma SubtractUndoesAdd(a: Money, b: Money)
    requires a.currency == b.currency
    ensures Add(a, b).Success? && Subtract(Add(a, b).value, b) == Success(a)
  {
  }

  /** Subtraction succeeds exactly when the comparison the wallet makes before
      it says the balance covers the amount. */
  lemma SubtractCoveredIff(a: Money, b: Money)
    requires a.currency == b.currency
    ensures Subtract(a, b).Success? <==> IsGreaterThanOrEqual(a, b) == Success(true)
  {
  }
}
