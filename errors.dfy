/** Every failure the core can raise. The first group are the plain `Error`s
    thrown by the value objects, the wallet entity and the transfer guard; the
    second group are the domain exception classes, with the detail each one
    carries. Messages are not modelled. */
module DomainErrors {

  datatype Error =
    // plain errors
    | AmountNegative            // Money: 'Amount cannot be negative'
    | CurrencyMissing           // Money: 'Currency is required'
    | CurrencyDiffers           // Money: 'Currency mismatch'
    | NotEnoughFunds            // Money.subtract and Wallet.debit: 'Insufficient funds'
    | WalletIdEmpty             // WalletId: 'Wallet ID cannot be empty'
    | SameWalletTransfer        // transfer: 'Cannot transfer to the same wallet'
    // domain exceptions
    | WalletNotFound(walletId: string)
    | InsufficientFunds(walletId: string)
    | CurrencyMismatch(currency1: string, currency2: string)
    | InvalidAmount(amount: int)
}
