/** The blocking policy that only limits how long a WAIT request may block.
    The timeout is fixed when the policy is built, so the policy is a value. Durations are
    Java `long` seconds; no arithmetic is done on them, so no 64-bit wrap-around arises. */
module LimitedBlockingPolicy {

  /** Default timeout, in seconds. */
  const DEFAULT_TIMEOUT: nat := 60

  /** A policy is its maximum blocking duration. Every way of building one leaves it non-negative. */
  datatype Policy = Policy(timeout: nat)

  /** The no-argument constructor. */
  function Default(): (p: Policy)
    ensures p.timeout == DEFAULT_TIMEOUT
  {
    Policy(DEFAULT_TIMEOUT)
  }

  /** The constructor taking a timeout: a negative timeout selects the default one. */
  function WithTimeout(timeout: int): (p: Policy)
    ensures timeout >= 0 ==> p.timeout == timeout
    ensures timeout < 0 ==> p == Default()
  {
    if timeout < 0 then Default() else Policy(timeout)
  }

  /** block: the duration the request will actually wait. */
  function Block(p: Policy, userDuration: int): (r: int)
    ensures 0 <= r <= p.timeout
    ensures 0 <= userDuration <= p.timeout ==> r == userDuration
    ensures userDuration < 0 || userDuration > p.timeout ==> r == p.timeout
    ensures userDuration >= 0 ==> r <= userDuration
  {
    if userDuration < 0 || userDuration > p.timeout then p.timeout else userDuration
  }

  /** Clamping an already clamped duration changes nothing. */
  lemma BlockIdempotent(p: Policy, userDuration: int)
    ensures Block(p, Block(p, userDuration)) == Block(p, userDuration)
  {
  }

  /** unblocked: this policy keeps no record of blocked requests, so nothing changes. */
  function Unblocked(p: Policy): (q: Policy)
    ensures q == p
  {
    p
  }
}
