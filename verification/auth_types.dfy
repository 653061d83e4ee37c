/** Time, errors and claims shared by the server-side modules. */
module AuthTypes {
  import opened Wrappers

  /** A wall-clock reading in nanoseconds. Go's zero `time.Time` (no expiry known)
      is `None` wherever it can occur. */
  type Instant = int

  const MAX_DURATION: int := 0x7FFF_FFFF_FFFF_FFFF
  const MIN_DURATION: int := -0x8000_0000_0000_0000

  /** Go's `time.Duration`: a 64-bit count of nanoseconds. */
  type Duration = d: int | MIN_DURATION <= d <= MAX_DURATION

  const SECOND: Duration := 1_000_000_000

  /** `Time.Sub` saturates instead of wrapping. */
  function Sub(later: Instant, earlier: Instant): Duration {
    var d := later - earlier;
    if d > MAX_DURATION then MAX_DURATION else if d < MIN_DURATION then MIN_DURATION else d
  }

  /** The gRPC status codes the interceptor distinguishes. */
  datatype Code =
    | Unauthenticated
    | PermissionDenied
    | InvalidArgument
    | NotFound
    | FailedPrecondition
    | ResourceExhausted
    | Internal
    | OtherCode(number: nat)

  /** A Go error: which sentinels it wraps, the gRPC status it carries if any, its text. */
  datatype Error = Error(unauthenticated: bool, forbidden: bool, status: Option<Code>, message: string)

  /** The claims of an introspected token, as far as the interceptor reads them itself. */
  datatype Claims = Claims(subject: string, issuer: string, audience: seq<string>, expiration: Option<Instant>)

  /** What one call of `Introspector.Introspect` returns. */
  datatype Answer = Answer(claims: Claims, expiresAt: Option<Instant>, err: Option<Error>)
}
