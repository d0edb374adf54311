/** The backend ledger key of the fee-test runtime and its derived ordering.
    The Rust enum derives `Eq` and `Ord`: values compare by variant first, in
    declaration order (every `Token` before every `ZenlinkLp`), then by their
    fields from left to right. */
module Currency {
  import opened Primitives

  /** `Token(id)` is a plain token; `ZenlinkLp(token0, token1)` is the share
      token of the pool over `token0` and `token1`. */
  datatype CurrencyId = Token(id: u8) | ZenlinkLp(token0: u8, token1: u8)

  /** Rust's `core::cmp::Ordering`. */
  datatype Ordering = Less | Equal | Greater {
    function Reverse(): Ordering
    {
      match this
      case Less => Greater
      case Equal => Equal
      case Greater => Less
    }
  }

  /** Three-way comparison of integers. */
  function CompareInt(a: int, b: int): Ordering
  {
    if a < b then Less else if a == b then Equal else Greater
  }

  /** Declaration index of a variant, the first key of a derived `Ord`. */
  function VariantIndex(c: CurrencyId): nat
  {
    match c
    case Token(_) => 0
    case ZenlinkLp(_, _) => 1
  }

  /** The derived `Ord::cmp`: variant index, then fields lexicographically. */
  function Cmp(a: CurrencyId, b: CurrencyId): (r: Ordering)
    ensures r == Equal <==> a == b
    ensures VariantIndex(a) < VariantIndex(b) ==> r == Less
  {
    if VariantIndex(a) != VariantIndex(b) then
      CompareInt(VariantIndex(a), VariantIndex(b))
    else
      match (a, b)
      case (Token(x), Token(y)) => CompareInt(x, y)
      case (ZenlinkLp(x0, x1), ZenlinkLp(y0, y1)) =>
        if x0 != y0 then CompareInt(x0, y0) else CompareInt(x1, y1)
  }

  /** The derived strict order `<`. */
  predicate Lt(a: CurrencyId, b: CurrencyId)
  {
    Cmp(a, b) == Less
  }

  /** An independent numbering of all keys: tokens take 0 .. 255 and pool
      shares take 256 onwards, two base-256 digits after the tokens. */
  function Rank(c: CurrencyId): nat
  {
    match c
    case Token(t) => t
    case ZenlinkLp(t0, t1) => U8_LIMIT + U8_LIMIT * t0 + t1
  }

  /** Distinct keys have distinct ranks. */
  lemma RankInjective(a: CurrencyId, b: CurrencyId)
    ensures Rank(a) == Rank(b) <==> a == b
  {
    if a.ZenlinkLp? && b.ZenlinkLp? && Rank(a) == Rank(b) {
      RankDigits(a.token0, a.token1, b.token0, b.token1);
    }
  }

  lemma RankDigits(x0: u8, x1: u8, y0: u8, y1: u8)
    requires U8_LIMIT * x0 + x1 == U8_LIMIT * y0 + y1
    ensures x0 == y0 && x1 == y1
  {
  }

  /** The derived comparison agrees with comparing ranks, so it inherits
      every property of the integer order. */
  lemma CmpMatchesRank(a: CurrencyId, b: CurrencyId)
    ensures Cmp(a, b) == CompareInt(Rank(a), Rank(b))
  {
    match (a, b)
    case (Token(x), Token(y)) =>
    case (Token(x), ZenlinkLp(_, _)) =>
    case (ZenlinkLp(_, _), Token(y)) =>
    case (ZenlinkLp(x0, x1), ZenlinkLp(y0, y1)) =>
      if x0 < y0 {
        assert U8_LIMIT * x0 + x1 < U8_LIMIT * y0 + y1 by {
          assert U8_LIMIT * x0 + U8_LIMIT <= U8_LIMIT * y0;
        }
      } else if y0 < x0 {
        assert U8_LIMIT * y0 + y1 < U8_LIMIT * x0 + x1 by {
          assert U8_LIMIT * y0 + U8_LIMIT <= U8_LIMIT * x0;
        }
      }
  }

  /** Swapping the operands reverses the comparison. */
  lemma CmpAntisymmetric(a: CurrencyId, b: CurrencyId)
    ensures Cmp(b, a) == Cmp(a, b).Reverse()
  {
    CmpMatchesRank(a, b);
    CmpMatchesRank(b, a);
  }

  /** `Lt` is a strict total order: irreflexive, transitive and any two
      distinct keys are comparable, which is what an ordered map of
      balances keyed by `CurrencyId` needs. */
  lemma LtIsStrictTotalOrder(a: CurrencyId, b: CurrencyId, c: CurrencyId)
    ensures !Lt(a, a)
    ensures Lt(a, b) && Lt(b, c) ==> Lt(a, c)
    ensures a != b ==> Lt(a, b) || Lt(b, a)
    ensures Lt(a, b) ==> !Lt(b, a)
  {
    CmpMatchesRank(a, b);
    CmpMatchesRank(b, c);
    CmpMatchesRank(a, c);
    CmpMatchesRank(b, a);
    RankInjective(a, b);
  }
}
