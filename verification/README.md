# Local-asset adaptor of the Zenlink DEX fee-test runtime, in Dafny

This project models how the Zenlink DEX pallet's fee-test runtime turns a
generic asset identifier into a backend currency key, and how it forwards
ledger calls for that key. The identifier is
`AssetId { chain_id: u32, asset_type: u8, asset_index: u64 }` and the key is
the `CurrencyId` enum (`Token(u8)` or `ZenlinkLp(u8, u8)`). The runtime's
`LocalAssetAdaptor` implements the pallet's `LocalAssetHandler` on top of a
`MultiCurrency` backend ledger. It has six primitives (balance, total supply,
existence, transfer, deposit, withdraw), and each one has its own policy for
an identifier that does not decode.

Modules:

- `Primitives` (`primitives.dfy`): Rust's `u8`/`u32`/`u64`/`u128` as integer ranges, plus `Result` and unit.
- `Bits` (`bits.dfy`): bitwise AND defined bit by bit, the right shift, the truncating `as u8` cast, and lemmas that turn masks into digit arithmetic.
- `Currency` (`currency.dfy`): `CurrencyId` and the comparison that `#[derive(Ord)]` gives it.
- `Codec` (`codec.dfy`): the asset-type tags, `AssetId`, and the decoder `asset_id_to_currency_id`. The decoder's body uses the masks, shift and casts of the Rust `asset_id_to_currency_id`. Its contract gives the result as base-256 digits. `CurrencyIdToAssetId` is a canonical inverse that exists only so the round trips can be stated.
- `Ledger` (`ledger.dfy`): the backend's `MultiCurrency` interface, given as a record of functions over an opaque ledger state, and the dispatch errors.
- `Adaptor` (`adaptor.dfy`): the six `LocalAssetHandler` primitives. Each one works with any backend.
- `Tokens` (`tokens.dfy`): a small reference ledger that plugs into the interface, so that end-to-end scenarios can be stated.

Details the model keeps exactly as the runtime codes them:

- A `LIQUIDITY` index is split with the masks `0xFFFF0000` and `0x0000FFFF`, and each half is truncated to `u8`. Only bits 16..23 and 0..7 are read.
- An unsupported tag yields the unit error `Err(())`.
- Deposit and withdraw report the requested `amount` on success. They do not read an amount back from the backend.

The backend is a parameter, so each adaptor contract says "this is exactly
what the backend answers for the decoded key". That holds whatever the
backend does. Mutating primitives return the backend's result together with
the ledger state after the call.

## Model

| member | source | states |
|---|---|---|
| `Currency.Cmp` | zenlink-protocol/src/fee/mock.rs:23-41 | The derived comparison reports `Equal` exactly for identical keys, and every `Token` sorts before every `ZenlinkLp`. |
| `Currency.CmpMatchesRank` | zenlink-protocol/src/fee/mock.rs:32-41 | The derived order (variant, then fields left to right) is the integer order on an injective numbering: tokens 0..255, then pool shares as two base-256 digits. |
| `Currency.CmpAntisymmetric` | zenlink-protocol/src/fee/mock.rs:32-33 | Swapping the operands reverses the comparison. |
| `Currency.LtIsStrictTotalOrder` | zenlink-protocol/src/fee/mock.rs:32-41 | `<` on `CurrencyId` is irreflexive, asymmetric, transitive and total on distinct keys, so `CurrencyId` is a valid ordered-map key for the ledger. |
| `Bits.BitAnd` | zenlink-protocol/src/fee/mock.rs:163-164 | `x & y` is never larger than either operand, so masking a `u64` index stays a `u64`. |
| `Bits.Shr` | zenlink-protocol/src/fee/mock.rs:163 | `x >> n` is the number of whole multiples of `2^n` in `x`: `r * 2^n <= x < (r + 1) * 2^n`. |
| `Bits.TruncateU8` | zenlink-protocol/src/fee/mock.rs:163-168 | `x as u8` is the one byte value that differs from `x` by a multiple of 256. |
| `Bits.LowMask` | zenlink-protocol/src/fee/mock.rs:164 | Masking with `2^k - 1` (such as `0x0000FFFF`) keeps exactly `x mod 2^k`. |
| `Bits.RangeMask` | zenlink-protocol/src/fee/mock.rs:163 | Masking with `2^hi - 2^lo` (such as `0xFFFF0000`) keeps exactly bit positions `lo .. hi-1` of `x`. |
| `Codec.HighHalfMask` | zenlink-protocol/src/fee/mock.rs:163 | `((index & 0xFFFF0000) >> 16) as u8` is `(index / 65536) mod 256`, which is bits 16..23 only. |
| `Codec.LowHalfMask` | zenlink-protocol/src/fee/mock.rs:164 | `(index & 0x0000FFFF) as u8` is `index mod 256`, which is bits 0..7 only. |
| `Codec.AssetIdToCurrencyId` | zenlink-protocol/src/fee/mock.rs:161-172 | Decoding succeeds exactly for `LIQUIDITY` and `LOCAL`. `LIQUIDITY` gives `ZenlinkLp(bits 16..23, bits 0..7)`. `LOCAL` gives `Token(index mod 256)`. Every other tag gives `Err(())`. |
| `Codec.LiquidityLayout` | zenlink-protocol/src/fee/mock.rs:162-165 | Any `LIQUIDITY` index laid out as `w:t0:m:t1` (bytes from the top, `w` unbounded) decodes to `ZenlinkLp(t0, t1)`. Bits 8..15 and bits 24 and up never matter. |
| `Codec.DecodeEncodeRoundTrip` | zenlink-protocol/src/fee/mock.rs:161-172 | Every key is reached. The canonical identifier of a key (`t` for a token, `t0 * 65536 + t1` for a pool share) decodes back to that key, on any chain. |
| `Codec.EncodeDecodeRoundTrip` | zenlink-protocol/src/fee/mock.rs:161-172 | Re-encoding a decoded key keeps the chain and the tag. It also keeps exactly the bits the decoder reads. |
| `Codec.LiquidityAliasing` | zenlink-protocol/src/fee/mock.rs:162-165 | Two `LIQUIDITY` ids get the same key if and only if they agree on bits 16..23 and on bits 0..7. |
| `Codec.LocalAliasing` | zenlink-protocol/src/fee/mock.rs:167-169 | Two `LOCAL` ids get the same key if and only if their indices agree modulo 256. |
| `Codec.NativeAndReservedRejected` | zenlink-protocol/src/fee/mock.rs:162-171 | `NATIVE` and `RESERVED` ids never produce a key, whatever their index or chain. |
| `Codec.ChainIdIgnored` | zenlink-protocol/src/fee/mock.rs:161-172 | The decoder reads only the type tag and the index, never `chain_id`. |
| `Codec.VariantReflectsTag` | zenlink-protocol/src/fee/mock.rs:162-170 | Pool shares decode to `ZenlinkLp` and local tokens decode to `Token`, so the two tags never collide on a key. |
| `Adaptor.ReportAmount` | zenlink-protocol/src/fee/mock.rs:211 | Mapping the backend result to `amount` turns a backend success into `Ok(amount)`, passes a failure through unchanged, and keeps the backend's resulting state. |
| `Adaptor.LocalBalanceOf` | zenlink-protocol/src/fee/mock.rs:178-181 | The balance is zero for an undecodable id. Otherwise it is exactly the backend's free balance for the decoded key. |
| `Adaptor.LocalTotalSupply` | zenlink-protocol/src/fee/mock.rs:183-186 | The supply is zero for an undecodable id. Otherwise it is exactly the backend's total issuance for the decoded key. |
| `Adaptor.LocalIsExists` | zenlink-protocol/src/fee/mock.rs:188-192 | The asset exists if and only if the id decodes and the backend's issuance for the key is positive. |
| `Adaptor.LocalTransfer` | zenlink-protocol/src/fee/mock.rs:194-203 | An undecodable id fails with `CannotLookup` and leaves the ledger unchanged. Otherwise the result is the backend transfer's result and state, passed through unchanged. |
| `Adaptor.LocalDeposit` | zenlink-protocol/src/fee/mock.rs:205-213 | An undecodable id gives `Ok(0)` with the ledger unchanged. Otherwise the deposit succeeds with `Ok(amount)` exactly when the backend deposit succeeds, a backend error is passed through unchanged, and the state is the backend's. |
| `Adaptor.LocalWithdraw` | zenlink-protocol/src/fee/mock.rs:215-223 | An undecodable id gives `Ok(0)` with the ledger unchanged. Otherwise the withdrawal succeeds with `Ok(amount)` exactly when the backend withdrawal succeeds, a backend error is passed through unchanged, and the state is the backend's. |
| `Adaptor.ExistsIffPositiveSupply` | zenlink-protocol/src/fee/mock.rs:183-192 | For every identifier, existence is exactly a positive total supply. |
| `Adaptor.LocalTransparency` | zenlink-protocol/src/fee/mock.rs:167-169 | Every one of the six primitives on a `LOCAL` id, existence included, equals the backend call with the hand-built key `Token(index mod 256)`. |
| `Adaptor.LiquidityTransparency` | zenlink-protocol/src/fee/mock.rs:162-165 | Every one of the six primitives on the `LIQUIDITY` id `t0 * 65536 + t1`, existence included, equals the backend call with the hand-built key `ZenlinkLp(t0, t1)`. |
| `Adaptor.UnsupportedIsInert` | zenlink-protocol/src/fee/mock.rs:174-224 | For an id the adaptor does not own, queries read zero or `false`, a transfer errs and leaves the state alone, and deposit and withdraw return `Ok(0)` with the state unchanged. |
| `Adaptor.SameKeySameBehaviour` | zenlink-protocol/src/fee/mock.rs:174-224 | Ids that decode to the same key (for example on other chains, or `LOCAL` ids equal modulo 256) get the same answer from every primitive. |
| `Tokens.DepositCreatesAsset` | zenlink-protocol/src/fee/mock.rs:188-213 | On an empty reference ledger, `LOCAL` asset 7 does not exist. After the adaptor deposits 100 to an account, it exists, its supply is 100, and that account holds all of it. |
| `Tokens.TransferConservesSupply` | zenlink-protocol/src/fee/mock.rs:194-203 | On the reference ledger, a transfer through the adaptor never changes the supply. When it succeeds between two accounts, it moves exactly `amount`. |
| `Tokens.DepositWithdrawRestores` | zenlink-protocol/src/fee/mock.rs:205-223 | On the reference ledger, a successful deposit followed by a withdrawal of the same amount reports the same result and restores the balance and the supply. |

## Left out

- `ZenlinkMultiAssets`, the router the runtime plugs the adaptor into (named at zenlink-protocol/src/fee/mock.rs:115), is not part of this model. Its code is not available, so no NATIVE/LOCAL/RESERVED dispatch is stated.
- `PairLpGenerate`, the pool-share id derivation (named at zenlink-protocol/src/fee/mock.rs:118), is not part of this model, for the same reason. `Codec.CurrencyIdToAssetId` is only the canonical inverse of the decoder. It does not claim to be that derivation.
- The backend ledger (`orml_tokens` through `MultiCurrency`) is foreign code. It is modelled only as an interface of five functions over an opaque state. `Tokens` is a simplified stand-in for scenarios. It ignores locks, reserves, events and existential-deposit dust handling, which the fee-test runtime sets to zero anyway.
- `DispatchError` is reduced to `CannotLookup`, two backend errors and an `Other` catch-all. The adaptor only raises `CannotLookup` and passes everything else through.
- The numeric values of `NATIVE`, `LOCAL`, `RESERVED` and `LIQUIDITY` come from the pallet crate. The model uses 0, 1, 2 and 3, and no proof depends on anything but their being distinct.
- Runtime wiring (`construct_runtime!`, `parameter_types!`, every `Config` impl) and the `new_test_ext` genesis balances have no behaviour of their own. The same goes for merkle-distributor/src/mock.rs and zenlink-protocol/src/foreign/mock.rs.
- The byte layout that SCALE encoding gives `AssetId` and `CurrencyId` is not modelled. The adaptor never encodes or decodes bytes.
- Storage transactionality (whether a failed backend call rolls back) belongs to the backend and the runtime. The model returns whatever state the backend reports.
