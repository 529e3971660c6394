/** What the two pricers share: the option-type strings, the ValueError they
    raise, and the European payoff. */
module Options {
  import opened Numerics

  const Call: string := "call"
  const Put: string := "put"

  /** The two option types both pricers accept without raising. */
  predicate IsKnownType(optionType: string) {
    optionType == Call || optionType == Put
  }

  /** The one exception the pricers raise. */
  datatype PricingError = ValueError(message: string)

  const InvalidTypeMessage: string := "option_type must be 'call' or 'put'"

  datatype Result<T> = Ok(value: T) | Err(error: PricingError)

  /** Payoff at maturity of a call (isCall) or a put struck at k when the
      underlying is at s: the positive part of s - k, resp. k - s. */
  function Payoff(isCall: bool, s: real, k: real): (p: real)
    ensures p >= 0.0
    ensures p >= (if isCall then s - k else k - s)
    ensures p == 0.0 || p == (if isCall then s - k else k - s)
  {
    if isCall then Max(s - k, 0.0) else Max(k - s, 0.0)
  }

  /** Call payoff minus put payoff is the signed moneyness s - k. */
  lemma PayoffParity(s: real, k: real)
    ensures Payoff(true, s, k) - Payoff(false, s, k) == s - k
  {
  }
}
