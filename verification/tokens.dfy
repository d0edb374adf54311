/** A reference multi-currency ledger that instantiates the backend
    interface, so that the adaptor's behaviour can be followed end to end.
    Its rules are the plain ones the adaptor relies on (a zero existential
    deposit, as the fee-test runtime configures): a transfer or withdrawal
    needs enough free balance, and a deposit must not overflow the `u128`
    total issuance. It is a stand-in, not a model of the backend's code. */
module Tokens {
  import opened Primitives
  import opened Currency
  import opened Codec
  import opened Ledger
  import opened Adaptor

  /** Free balances per (currency, account) and total issuance per currency;
      an absent entry is a zero balance. */
  datatype TokenLedger = TokenLedger(free: map<(CurrencyId, AccountId), Balance>,
                                     issuance: map<CurrencyId, Balance>)

  const Empty: TokenLedger := TokenLedger(map[], map[])

  function FreeBalance(l: TokenLedger, c: CurrencyId, who: AccountId): Balance
  {
    if (c, who) in l.free then l.free[(c, who)] else 0
  }

  function TotalIssuance(l: TokenLedger, c: CurrencyId): Balance
  {
    if c in l.issuance then l.issuance[c] else 0
  }

  /** Sets one free balance and leaves every other one alone. */
  function SetFree(l: TokenLedger, c: CurrencyId, who: AccountId, v: Balance): (r: TokenLedger)
    ensures FreeBalance(r, c, who) == v
    ensures forall c': CurrencyId, who': AccountId :: (c', who') != (c, who) ==> FreeBalance(r, c', who') == FreeBalance(l, c', who')
    ensures forall c': CurrencyId :: TotalIssuance(r, c') == TotalIssuance(l, c')
  {
    l.(free := l.free[(c, who) := v])
  }

  function SetIssuance(l: TokenLedger, c: CurrencyId, v: Balance): (r: TokenLedger)
    ensures TotalIssuance(r, c) == v
    ensures forall c': CurrencyId :: c' != c ==> TotalIssuance(r, c') == TotalIssuance(l, c')
    ensures forall c': CurrencyId, who': AccountId :: FreeBalance(r, c', who') == FreeBalance(l, c', who')
  {
    l.(issuance := l.issuance[c := v])
  }

  /** Moves `amount` of `c` from `from` to `to`; total issuance is untouched. */
  function Transfer(l: TokenLedger, c: CurrencyId, from: AccountId, to: AccountId, amount: Balance): (r: Step<TokenLedger, Unit>)
    ensures r.result.Err? ==> r.state == l
    ensures r.result.Ok? <==> amount == 0 || from == to
                              || (amount <= FreeBalance(l, c, from) && FreeBalance(l, c, to) + amount < U128_LIMIT)
    ensures forall c': CurrencyId :: TotalIssuance(r.state, c') == TotalIssuance(l, c')
    ensures r.result.Ok? && from != to ==>
              && FreeBalance(r.state, c, from) == FreeBalance(l, c, from) - amount
              && FreeBalance(r.state, c, to) == FreeBalance(l, c, to) + amount
  {
    if amount == 0 || from == to then Step(Ok(Unit), l)
    else if FreeBalance(l, c, from) < amount then Step(Err(BalanceTooLow), l)
    else if FreeBalance(l, c, to) + amount >= U128_LIMIT then Step(Err(Overflow), l)
    else
      var l1 := SetFree(l, c, from, FreeBalance(l, c, from) - amount);
      Step(Ok(Unit), SetFree(l1, c, to, FreeBalance(l, c, to) + amount))
  }

  /** Mints `amount` of `c` to `who`, raising total issuance by as much. */
  function Deposit(l: TokenLedger, c: CurrencyId, who: AccountId, amount: Balance): (r: Step<TokenLedger, Unit>)
    ensures r.result.Err? ==> r.state == l
    ensures r.result.Ok? <==> TotalIssuance(l, c) + amount < U128_LIMIT
                              && FreeBalance(l, c, who) + amount < U128_LIMIT
    ensures r.result.Ok? ==>
              && TotalIssuance(r.state, c) == TotalIssuance(l, c) + amount
              && FreeBalance(r.state, c, who) == FreeBalance(l, c, who) + amount
  {
    if TotalIssuance(l, c) + amount >= U128_LIMIT || FreeBalance(l, c, who) + amount >= U128_LIMIT then
      Step(Err(Overflow), l)
    else
      var l1 := SetIssuance(l, c, TotalIssuance(l, c) + amount);
      Step(Ok(Unit), SetFree(l1, c, who, FreeBalance(l, c, who) + amount))
  }

  /** Burns `amount` of `c` from `who`, lowering total issuance by as much
      (saturating at zero). */
  function Withdraw(l: TokenLedger, c: CurrencyId, who: AccountId, amount: Balance): (r: Step<TokenLedger, Unit>)
    ensures r.result.Err? ==> r.state == l
    ensures r.result.Ok? <==> amount <= FreeBalance(l, c, who)
    ensures r.result.Ok? ==>
              && FreeBalance(r.state, c, who) == FreeBalance(l, c, who) - amount
              && TotalIssuance(r.state, c)
                 == if TotalIssuance(l, c) >= amount then TotalIssuance(l, c) - amount else 0
  {
    if FreeBalance(l, c, who) < amount then Step(Err(BalanceTooLow), l)
    else
      var supply := TotalIssuance(l, c);
      var l1 := SetIssuance(l, c, if supply >= amount then supply - amount else 0);
      Step(Ok(Unit), SetFree(l1, c, who, FreeBalance(l, c, who) - amount))
  }

  /** The reference ledger as a backend for the adaptor. */
  function Backend(): MultiCurrency<TokenLedger>
  {
    MultiCurrency(FreeBalance, TotalIssuance, Transfer, Deposit, Withdraw)
  }

  /** A fresh `LOCAL` asset 7 does not exist; after a deposit of 100 to one
      account through the adaptor it exists, its supply is 100 and that
      account holds all of it. */
  lemma DepositCreatesAsset(who: AccountId)
    ensures var asset := AssetId(0, LOCAL, 7);
            var after := LocalDeposit(Backend(), Empty, asset, who, 100);
            && !LocalIsExists(Backend(), Empty, asset)
            && after.result == Ok(100)
            && LocalIsExists(Backend(), after.state, asset)
            && LocalTotalSupply(Backend(), after.state, asset) == 100
            && LocalBalanceOf(Backend(), after.state, asset, who) == 100
  {
  }

  /** A transfer through the adaptor never changes the asset's supply and,
      when it succeeds between two accounts, moves exactly `amount`. */
  lemma TransferConservesSupply(l: TokenLedger, asset: AssetId, from: AccountId, to: AccountId, amount: Balance)
    ensures var after := LocalTransfer(Backend(), l, asset, from, to, amount).state;
            LocalTotalSupply(Backend(), after, asset) == LocalTotalSupply(Backend(), l, asset)
    ensures var r := LocalTransfer(Backend(), l, asset, from, to, amount);
            r.result.Ok? && from != to ==>
              && LocalBalanceOf(Backend(), r.state, asset, from) == LocalBalanceOf(Backend(), l, asset, from) - amount
              && LocalBalanceOf(Backend(), r.state, asset, to) == LocalBalanceOf(Backend(), l, asset, to) + amount
  {
  }

  /** A successful deposit followed by a withdrawal of the same amount, both
      through the adaptor, restores the account's balance and the supply. */
  lemma DepositWithdrawRestores(l: TokenLedger, asset: AssetId, who: AccountId, amount: Balance)
    requires LocalDeposit(Backend(), l, asset, who, amount).result.Ok?
    ensures var mid := LocalDeposit(Backend(), l, asset, who, amount).state;
            var end := LocalWithdraw(Backend(), mid, asset, who, amount);
            && end.result == LocalDeposit(Backend(), l, asset, who, amount).result
            && LocalBalanceOf(Backend(), end.state, asset, who) == LocalBalanceOf(Backend(), l, asset, who)
            && LocalTotalSupply(Backend(), end.state, asset) == LocalTotalSupply(Backend(), l, asset)
  {
  }
}
