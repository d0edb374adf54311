/** `LocalAssetAdaptor<Local>`: the `LocalAssetHandler` implementation of
    the fee-test runtime. Every primitive decodes the asset identifier with
    `AssetIdToCurrencyId` and forwards to the backend ledger `local`; each
    has its own policy for an identifier that does not decode: queries
    answer zero or `false`, a transfer fails with `CannotLookup`, and a
    deposit or withdrawal succeeds having moved nothing. */
module Adaptor {
  import opened Primitives
  import opened Currency
  import opened Codec
  import opened Ledger

  /** Rust's `.map(|_| amount)` on a backend result: a success reports
      `amount`, a failure is passed on unchanged. */
  function ReportAmount<S>(step: Step<S, Unit>, amount: Balance): (r: Step<S, Balance>)
    ensures r.state == step.state
    ensures r.result.Ok? <==> step.result.Ok?
    ensures r.result.Ok? ==> r.result.value == amount
    ensures r.result.Err? ==> r.result.error == step.result.error
  {
    match step.result
    case Ok(_) => Step(Ok(amount), step.state)
    case Err(e) => Step(Err(e), step.state)
  }

  /** `local_balance_of`. */
  function LocalBalanceOf<S>(local: MultiCurrency<S>, state: S, asset: AssetId, who: AccountId): (r: Balance)
    ensures !Supported(asset.assetType) ==> r == 0
    ensures Supported(asset.assetType) ==>
              r == local.freeBalance(state, AssetIdToCurrencyId(asset).value, who)
  {
    match AssetIdToCurrencyId(asset)
    case Ok(currency) => local.freeBalance(state, currency, who)
    case Err(_) => 0
  }

  /** `local_total_supply`. */
  function LocalTotalSupply<S>(local: MultiCurrency<S>, state: S, asset: AssetId): (r: Balance)
    ensures !Supported(asset.assetType) ==> r == 0
    ensures Supported(asset.assetType) ==>
              r == local.totalIssuance(state, AssetIdToCurrencyId(asset).value)
  {
    match AssetIdToCurrencyId(asset)
    case Ok(currency) => local.totalIssuance(state, currency)
    case Err(_) => 0
  }

  /** `local_is_exists`: an asset exists when its backend issuance is
      positive; an identifier that does not decode never exists. */
  function LocalIsExists<S>(local: MultiCurrency<S>, state: S, asset: AssetId): (r: bool)
    ensures r <==> Supported(asset.assetType)
                   && local.totalIssuance(state, AssetIdToCurrencyId(asset).value) > 0
  {
    match AssetIdToCurrencyId(asset)
    case Ok(currency) => local.totalIssuance(state, currency) > 0
    case Err(_) => false
  }

  /** `local_transfer`. */
  function LocalTransfer<S>(local: MultiCurrency<S>, state: S, asset: AssetId,
                            origin: AccountId, target: AccountId, amount: Balance): (r: Step<S, Unit>)
    ensures !Supported(asset.assetType) ==> r == Step(Err(CannotLookup), state)
    ensures Supported(asset.assetType) ==>
              r == local.transfer(state, AssetIdToCurrencyId(asset).value, origin, target, amount)
  {
    match AssetIdToCurrencyId(asset)
    case Ok(currency) => local.transfer(state, currency, origin, target, amount)
    case Err(_) => Step(Err(CannotLookup), state)
  }

  /** `local_deposit`. */
  function LocalDeposit<S>(local: MultiCurrency<S>, state: S, asset: AssetId,
                           origin: AccountId, amount: Balance): (r: Step<S, Balance>)
    ensures !Supported(asset.assetType) ==> r == Step(Ok(0), state)
    ensures Supported(asset.assetType) ==>
              var backend := local.deposit(state, AssetIdToCurrencyId(asset).value, origin, amount);
              && r.state == backend.state
              && (r.result.Ok? <==> backend.result.Ok?)
              && (r.result.Ok? ==> r.result.value == amount)
              && (r.result.Err? ==> r.result.error == backend.result.error)
  {
    match AssetIdToCurrencyId(asset)
    case Ok(currency) => ReportAmount(local.deposit(state, currency, origin, amount), amount)
    case Err(_) => Step(Ok(0), state)
  }

  /** `local_withdraw`. */
  function LocalWithdraw<S>(local: MultiCurrency<S>, state: S, asset: AssetId,
                            origin: AccountId, amount: Balance): (r: Step<S, Balance>)
    ensures !Supported(asset.assetType) ==> r == Step(Ok(0), state)
    ensures Supported(asset.assetType) ==>
              var backend := local.withdraw(state, AssetIdToCurrencyId(asset).value, origin, amount);
              && r.state == backend.state
              && (r.result.Ok? <==> backend.result.Ok?)
              && (r.result.Ok? ==> r.result.value == amount)
              && (r.result.Err? ==> r.result.error == backend.result.error)
  {
    match AssetIdToCurrencyId(asset)
    case Ok(currency) => ReportAmount(local.withdraw(state, currency, origin, amount), amount)
    case Err(_) => Step(Ok(0), state)
  }

  /** Existence is exactly a positive total supply, for every identifier. */
  lemma ExistsIffPositiveSupply<S>(local: MultiCurrency<S>, state: S, asset: AssetId)
    ensures LocalIsExists(local, state, asset) <==> LocalTotalSupply(local, state, asset) > 0
  {
  }

  /** A `LOCAL` identifier behaves, in every primitive, exactly like calling
      the backend directly with the hand-built key `Token(index mod 256)`. */
  lemma LocalTransparency<S>(local: MultiCurrency<S>, state: S, chainId: u32, index: u64,
                             who: AccountId, target: AccountId, amount: Balance)
    ensures var asset, key := AssetId(chainId, LOCAL, index), Token(index % U8_LIMIT);
            && LocalBalanceOf(local, state, asset, who) == local.freeBalance(state, key, who)
            && LocalTotalSupply(local, state, asset) == local.totalIssuance(state, key)
            && LocalIsExists(local, state, asset) == (local.totalIssuance(state, key) > 0)
            && LocalTransfer(local, state, asset, who, target, amount)
               == local.transfer(state, key, who, target, amount)
            && LocalDeposit(local, state, asset, who, amount)
               == ReportAmount(local.deposit(state, key, who, amount), amount)
            && LocalWithdraw(local, state, asset, who, amount)
               == ReportAmount(local.withdraw(state, key, who, amount), amount)
  {
  }

  /** A `LIQUIDITY` identifier whose index packs `t0` into bits 16 .. 23 and
      `t1` into bits 0 .. 7 behaves exactly like calling the backend with the
      hand-built key `ZenlinkLp(t0, t1)`. */
  lemma LiquidityTransparency<S>(local: MultiCurrency<S>, state: S, chainId: u32, t0: u8, t1: u8,
                                 who: AccountId, target: AccountId, amount: Balance)
    ensures var asset, key := AssetId(chainId, LIQUIDITY, 0x1_0000 * t0 + t1), ZenlinkLp(t0, t1);
            && LocalBalanceOf(local, state, asset, who) == local.freeBalance(state, key, who)
            && LocalTotalSupply(local, state, asset) == local.totalIssuance(state, key)
            && LocalIsExists(local, state, asset) == (local.totalIssuance(state, key) > 0)
            && LocalTransfer(local, state, asset, who, target, amount)
               == local.transfer(state, key, who, target, amount)
            && LocalDeposit(local, state, asset, who, amount)
               == ReportAmount(local.deposit(state, key, who, amount), amount)
            && LocalWithdraw(local, state, asset, who, amount)
               == ReportAmount(local.withdraw(state, key, who, amount), amount)
  {
    LiquidityLayout(chainId, 0, t0, 0, t1);
  }

  /** An identifier the adaptor does not own (`NATIVE`, `RESERVED` or an
      unknown tag) touches no ledger state in any primitive: queries read
      zero, a transfer is refused, a deposit or withdrawal reports zero. */
  lemma UnsupportedIsInert<S>(local: MultiCurrency<S>, state: S, asset: AssetId,
                              who: AccountId, target: AccountId, amount: Balance)
    requires !Supported(asset.assetType)
    ensures LocalBalanceOf(local, state, asset, who) == 0
    ensures LocalTotalSupply(local, state, asset) == 0
    ensures !LocalIsExists(local, state, asset)
    ensures LocalTransfer(local, state, asset, who, target, amount).state == state
    ensures LocalTransfer(local, state, asset, who, target, amount).result.Err?
    ensures LocalDeposit(local, state, asset, who, amount) == Step(Ok(0), state)
    ensures LocalWithdraw(local, state, asset, who, amount) == Step(Ok(0), state)
  {
  }

  /** Identifiers that decode to the same key are indistinguishable to every
      primitive; this covers ids on different chains and `LOCAL` ids that
      agree only in their low byte. */
  lemma SameKeySameBehaviour<S>(local: MultiCurrency<S>, state: S, a: AssetId, b: AssetId,
                                who: AccountId, target: AccountId, amount: Balance)
    requires AssetIdToCurrencyId(a) == AssetIdToCurrencyId(b)
    ensures LocalBalanceOf(local, state, a, who) == LocalBalanceOf(local, state, b, who)
    ensures LocalTotalSupply(local, state, a) == LocalTotalSupply(local, state, b)
    ensures LocalIsExists(local, state, a) == LocalIsExists(local, state, b)
    ensures LocalTransfer(local, state, a, who, target, amount)
            == LocalTransfer(local, state, b, who, target, amount)
    ensures LocalDeposit(local, state, a, who, amount) == LocalDeposit(local, state, b, who, amount)
    ensures LocalWithdraw(local, state, a, who, amount) == LocalWithdraw(local, state, b, who, amount)
  {
  }
}
