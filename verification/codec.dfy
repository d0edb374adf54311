/** The generic asset identifier of the DEX pallet and the fee-test
    runtime's decoder from it to the backend ledger key `CurrencyId`. */
module Codec {
  import opened Primitives
  import opened Bits
  import opened Currency

  /** The four asset-type tags. Their values live in the pallet crate; the
      model relies only on their being four distinct `u8` values. */
  const NATIVE: u8 := 0
  const LOCAL: u8 := 1
  const RESERVED: u8 := 2
  const LIQUIDITY: u8 := 3

  /** `AssetId { chain_id, asset_type, asset_index }`. */
  datatype AssetId = AssetId(chainId: u32, assetType: u8, assetIndex: u64)

  /** The tags this decoder understands. */
  predicate Supported(assetType: u8)
  {
    assetType == LIQUIDITY || assetType == LOCAL
  }

  /** Bits 16 .. 23 of `x`, read as a number: the first pool token. */
  function HighToken(x: nat): u8
  {
    (x / 0x1_0000) % U8_LIMIT
  }

  /** Bits 0 .. 7 of `x`, read as a number: the second pool token, and the
      token of a `LOCAL` id. */
  function LowToken(x: nat): u8
  {
    x % U8_LIMIT
  }

  /** `asset_id_to_currency_id`. A `LIQUIDITY` index is split with the masks
      `0xFFFF0000` (shifted down 16 bits) and `0x0000FFFF`, each half then
      truncated by `as u8`; a `LOCAL` index is truncated by `as u8`; every
      other tag is rejected with `Err(())`. The contract states the result
      as digit arithmetic: only bits 16 .. 23 and 0 .. 7 survive. */
  function AssetIdToCurrencyId(asset: AssetId): (r: Result<CurrencyId, Unit>)
    ensures r.Ok? <==> Supported(asset.assetType)
    ensures asset.assetType == LIQUIDITY ==>
              r == Ok(ZenlinkLp(HighToken(asset.assetIndex), LowToken(asset.assetIndex)))
    ensures asset.assetType == LOCAL ==> r == Ok(Token(LowToken(asset.assetIndex)))
  {
    var index := asset.assetIndex;
    if asset.assetType == LIQUIDITY then
      var token0 := TruncateU8(Shr(BitAnd(index, 0xFFFF_0000), 16));
      var token1 := TruncateU8(BitAnd(index, 0x0000_FFFF));
      HighHalfMask(index);
      LowHalfMask(index);
      Ok(ZenlinkLp(token0, token1))
    else if asset.assetType == LOCAL then
      Ok(Token(TruncateU8(index)))
    else
      Err(Unit)
  }

  /** `((x & 0xFFFF0000) >> 16) as u8` keeps bits 16 .. 23. */
  lemma HighHalfMask(x: nat)
    ensures TruncateU8(Shr(BitAnd(x, 0xFFFF_0000), 16)) == HighToken(x)
  {
    Pow2Constants();
    RangeMask(x, 16, 32);
    var q, c := x / 0x1_0000, x % 0x1_0000;
    var m, s := q / 0x1_0000, q % 0x1_0000;
    DivModUnique(x, 0x1_0000_0000, m, 0x1_0000 * s + c);
    assert BitAnd(x, 0xFFFF_0000) == 0x1_0000 * s;
    DivModUnique(q, U8_LIMIT, 0x100 * m + s / U8_LIMIT, s % U8_LIMIT);
  }

  /** `(x & 0x0000FFFF) as u8` keeps bits 0 .. 7. */
  lemma LowHalfMask(x: nat)
    ensures TruncateU8(BitAnd(x, 0x0000_FFFF)) == LowToken(x)
  {
    Pow2Constants();
    LowMask(x, 16);
    var q, c := x / 0x1_0000, x % 0x1_0000;
    DivModUnique(x, U8_LIMIT, 0x100 * q + c / U8_LIMIT, c % U8_LIMIT);
  }

  /** The identifier a key comes from in canonical form: the token index
      itself for a plain token, and the two tokens packed into bits 16 .. 23
      and 0 .. 7 for a pool share. */
  function CurrencyIdToAssetId(chainId: u32, c: CurrencyId): (asset: AssetId)
    ensures Supported(asset.assetType)
  {
    match c
    case Token(t) => AssetId(chainId, LOCAL, t)
    case ZenlinkLp(t0, t1) => AssetId(chainId, LIQUIDITY, 0x1_0000 * t0 + t1)
  }

  /** Every key is reached: decoding the canonical identifier of a key gives
      that key back, on any chain. */
  lemma DecodeEncodeRoundTrip(chainId: u32, c: CurrencyId)
    ensures AssetIdToCurrencyId(CurrencyIdToAssetId(chainId, c)) == Ok(c)
  {
    match c
    case Token(t) =>
    case ZenlinkLp(t0, t1) =>
      LiquidityLayout(chainId, 0, t0, 0, t1);
  }

  /** Decoding then re-encoding keeps the type tag and the chain, and keeps
      exactly the bits the decoder reads (16 .. 23 and 0 .. 7 for a pool
      share, 0 .. 7 for a plain token); unsupported tags have no key. */
  lemma EncodeDecodeRoundTrip(asset: AssetId)
    ensures AssetIdToCurrencyId(asset).Ok? ==>
              var back := CurrencyIdToAssetId(asset.chainId, AssetIdToCurrencyId(asset).value);
              && back.chainId == asset.chainId
              && back.assetType == asset.assetType
              && (asset.assetType == LOCAL ==> back.assetIndex == LowToken(asset.assetIndex))
              && (asset.assetType == LIQUIDITY ==>
                    back.assetIndex == 0x1_0000 * HighToken(asset.assetIndex) + LowToken(asset.assetIndex))
  {
  }

  /** The packed layout of a pool-share index, `w : t0 : m : t1` from the
      most significant end with every field but `w` one byte wide, decodes
      to `ZenlinkLp(t0, t1)` whatever `w` and `m` are: bits 8 .. 15 and
      bits 24 and up never influence the key. */
  lemma LiquidityLayout(chainId: u32, w: nat, t0: u8, m: u8, t1: u8)
    requires 0x100_0000 * w + 0x1_0000 * t0 + 0x100 * m + t1 < U64_LIMIT
    ensures AssetIdToCurrencyId(AssetId(chainId, LIQUIDITY, 0x100_0000 * w + 0x1_0000 * t0 + 0x100 * m + t1))
            == Ok(ZenlinkLp(t0, t1))
  {
    var x := 0x100_0000 * w + 0x1_0000 * t0 + 0x100 * m + t1;
    DivModUnique(x, 0x1_0000, 0x100 * w + t0, 0x100 * m + t1);
    DivModUnique(0x100 * w + t0, U8_LIMIT, w, t0);
    DivModUnique(x, U8_LIMIT, 0x1_0000 * w + 0x100 * t0 + m, t1);
  }

  /** Two pool-share identifiers decode to the same key exactly when they
      agree on bits 16 .. 23 and on bits 0 .. 7. */
  lemma LiquidityAliasing(a: AssetId, b: AssetId)
    requires a.assetType == LIQUIDITY && b.assetType == LIQUIDITY
    ensures AssetIdToCurrencyId(a) == AssetIdToCurrencyId(b) <==>
            HighToken(a.assetIndex) == HighToken(b.assetIndex)
            && LowToken(a.assetIndex) == LowToken(b.assetIndex)
  {
  }

  /** Two `LOCAL` identifiers decode to the same key exactly when they agree
      on their low byte; in particular index 7 and index 263 collide. */
  lemma LocalAliasing(a: AssetId, b: AssetId)
    requires a.assetType == LOCAL && b.assetType == LOCAL
    ensures AssetIdToCurrencyId(a) == AssetIdToCurrencyId(b) <==>
            a.assetIndex % U8_LIMIT == b.assetIndex % U8_LIMIT
  {
  }

  /** `NATIVE` and `RESERVED` identifiers, whatever their index and chain,
      never produce a key. */
  lemma NativeAndReservedRejected(asset: AssetId)
    requires asset.assetType == NATIVE || asset.assetType == RESERVED
    ensures AssetIdToCurrencyId(asset) == Err(Unit)
  {
  }

  /** The decoder never looks at `chain_id`. */
  lemma ChainIdIgnored(a: AssetId, b: AssetId)
    requires a.assetType == b.assetType && a.assetIndex == b.assetIndex
    ensures AssetIdToCurrencyId(a) == AssetIdToCurrencyId(b)
  {
  }

  /** The variant of the key reflects the tag: pool shares become
      `ZenlinkLp` and local tokens `Token`, so the two never collide. */
  lemma VariantReflectsTag(a: AssetId, b: AssetId)
    requires a.assetType == LIQUIDITY && b.assetType == LOCAL
    ensures AssetIdToCurrencyId(a).value.ZenlinkLp?
    ensures AssetIdToCurrencyId(b).value.Token?
    ensures AssetIdToCurrencyId(a) != AssetIdToCurrencyId(b)
  {
  }
}
