/** The interface of the backend multi-currency ledger the adaptor wraps
    (the `MultiCurrency` trait with `CurrencyId` keys and `u128` balances).
    The backend is a collaborator whose code is not part of this model, so
    it is passed in as a record of functions over an opaque ledger state
    `S`; every mutating primitive returns its dispatch result together with
    the ledger state after the call. */
module Ledger {
  import opened Primitives
  import opened Currency

  /** The dispatch errors the model distinguishes: `CannotLookup`, which the
      adaptor raises itself, and the errors a backend may report. */
  datatype DispatchError =
    | CannotLookup
    | BalanceTooLow
    | Overflow
    | Other(reason: string)

  /** The result of a mutating call and the ledger state it leaves behind. */
  datatype Step<S, +T> = Step(result: Result<T, DispatchError>, state: S)

  /** The backend primitives the adaptor calls. */
  datatype MultiCurrency<!S> = MultiCurrency(
    freeBalance: (S, CurrencyId, AccountId) -> Balance,
    totalIssuance: (S, CurrencyId) -> Balance,
    transfer: (S, CurrencyId, AccountId, AccountId, Balance) -> Step<S, Unit>,
    deposit: (S, CurrencyId, AccountId, Balance) -> Step<S, Unit>,
    withdraw: (S, CurrencyId, AccountId, Balance) -> Step<S, Unit>
  )
}
