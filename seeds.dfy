/**
 * Choosing the noise seed (`make_noise`): a seed string that Python's
 * `int()` accepts is used as it reads; a missing, empty or unreadable one
 * falls back to a random draw from [0, 2^30 - 1], passed in here.
 */
module Seeds {
  import opened Outcomes
  import opened Decimal

  const MaxFallbackSeed: int := 0x3FFF_FFFF  // 2**30 - 1

  /** The seed `make_noise(seed)` hands to the noise generator. */
  function ResolveSeed(seed: Option<string>, fallback: int): (r: int)
    requires 0 <= fallback <= MaxFallbackSeed
    ensures seed == None || seed == Some("") ==> r == fallback
    ensures seed.Some? && ParseInt(seed.value).Some? ==> r == ParseInt(seed.value).value
    ensures seed.Some? && ParseInt(seed.value).None? ==> r == fallback
  {
    match seed
    case None => fallback
    case Some(s) =>
      if s == "" then fallback
      else match ParseInt(s)
        case Some(v) => v
        case None => fallback
  }

  /** A seed written as an integer is used verbatim, so equal seed strings give equal seeds. */
  lemma ExplicitSeedUsedVerbatim(n: int, fallback1: int, fallback2: int)
    requires 0 <= fallback1 <= MaxFallbackSeed && 0 <= fallback2 <= MaxFallbackSeed
    requires WithinStrDigits(n)
    ensures ResolveSeed(Some(IntToString(n)), fallback1) == n
    ensures ResolveSeed(Some(IntToString(n)), fallback1) == ResolveSeed(Some(IntToString(n)), fallback2)
  {
    ParseIntOfIntToString(n);
  }

  /**
   * A seed of more than 4300 digits makes `int()` raise, so the bare
   * `except` takes the random draw.
   */
  lemma OverlongSeedFallsBack(n: nat, fallback: int)
    requires 0 <= fallback <= MaxFallbackSeed
    requires |NatToString(n)| > MaxStrDigits
    ensures ResolveSeed(Some(NatToString(n)), fallback) == fallback
  {
    ParseIntRefusesLongNumeral(n);
  }

  /** Whatever the seed string, the result is either what it reads as or a fallback in range. */
  lemma SeedIsParsedOrInRange(seed: Option<string>, fallback: int)
    requires 0 <= fallback <= MaxFallbackSeed
    ensures var r := ResolveSeed(seed, fallback);
      (seed.Some? && ParseInt(seed.value) == Some(r)) || 0 <= r <= MaxFallbackSeed
  {
  }

  /** The seed in the determinism test. */
  lemma TestedSeed(fallback: int)
    requires 0 <= fallback <= MaxFallbackSeed
    ensures ResolveSeed(Some("123"), fallback) == 123
  {
    assert NatToString(12) == NatToString(1) + "2";
    assert NatToString(123) == "123";
    ExplicitSeedUsedVerbatim(123, fallback, fallback);
  }
}
