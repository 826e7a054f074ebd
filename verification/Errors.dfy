/** Provider errors and the predicates that drive retry, failover and checkpoint policy. */
module Errors {
  import opened Prelude

  datatype Kind = RateLimit | QuotaExceeded | Authentication | Server | BadRequest | Transient | Other

  /** `retryAfter` is in nanoseconds. */
  datatype ProviderError = ProviderError(kind: Kind, code: string, status: Option<nat>, retryAfter: Option<nat>)

  datatype Error =
    | Provider(pe: ProviderError)
    | Network
    | Validation
    | ProviderNotRegistered
    | AccountSelection
    | Unclassified

  predicate IsTransientRateLimit(pe: ProviderError) {
    && pe.kind == RateLimit
    && pe.retryAfter.None?
    && pe.code != "usage_limit_reached"
    && pe.code != "quota_exceeded"
  }

  predicate ProviderShouldFailover(pe: ProviderError) {
    pe.kind in {RateLimit, Server, Transient, QuotaExceeded, Authentication}
  }

  predicate InvalidatesCheckpoint(pe: ProviderError) {
    pe.status.Some? && pe.status.value in {401, 403, 404, 409}
  }

  predicate ShouldFailover(e: Error) {
    match e case Provider(pe) => ProviderShouldFailover(pe) case Network => true case _ => false
  }

  function WithStatus(pe: ProviderError, status: nat): ProviderError {
    var kind :=
      if pe.kind != Other then pe.kind
      else if status == 429 then RateLimit
      else if status == 401 || status == 403 then Authentication
      else if 500 <= status <= 599 then Server
      else if 400 <= status <= 499 then BadRequest
      else Other;
    pe.(status := Some(status), kind := kind)
  }

  /**
   An error known only by its HTTP status: which statuses rotate the account, which drop the
   checkpoint, and which do both.
   */
  lemma {:induction false} StatusPolicy(pe: ProviderError, status: nat)
    requires pe.kind == Other
    ensures var e := WithStatus(pe, status);
            && (ProviderShouldFailover(e) <==> status in {401, 403, 429} || 500 <= status <= 599)
            && (InvalidatesCheckpoint(e) <==> status in {401, 403, 404, 409})
            && (IsTransientRateLimit(e) ==> status == 429 && ProviderShouldFailover(e) && !InvalidatesCheckpoint(e))
            && (ProviderShouldFailover(e) && InvalidatesCheckpoint(e) <==> e.kind == Authentication)
  {
    var e := WithStatus(pe, status);
    assert e.kind == Authentication <==> status == 401 || status == 403;
  }
}
