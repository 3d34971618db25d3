/** The registry record and its enumerations
    (platform/backend/app/verification/models.py). */
module Records {
  import opened Wrappers

  datatype Transport = LOCAL | REMOTE

  datatype AuthType = NO_AUTH | API_KEY | OAUTH2 | UNKNOWN_AUTH

  datatype OAuthFlow = AUTHORIZATION_CODE | CLIENT_CREDENTIALS

  datatype ServerStatus =
    | PENDING
    | MALFORMED
    | VERIFIED
    | REVIEW
    | REJECTED
    | UNVERIFIABLE
    | RETRY_PENDING
    | PARTIAL_VERIFIED
    | OAUTH_PENDING_CONSENT
    | REAUTH_REQUIRED
    | SCOPE_NOT_GRANTED

  datatype Confidence = LOW | MEDIUM | HIGH

  /** How the badge was last earned. */
  datatype Via = ANONYMOUS | AUTH | USER_TEST | MANUAL_REVIEW

  /** `last_attempt_at`: absent, not a timestamp, or an instant. */
  datatype Stamp = Never | Unreadable | At(instant: int)

  datatype Record = Record(
    sourceUrl: string,
    transport: Transport,
    authRequired: bool,
    authType: AuthType,
    oauthFlow: Option<OAuthFlow>,
    status: ServerStatus,
    qualityScore: int,
    confidence: Confidence,
    attemptsCompleted: int,
    attemptsPlanned: int,
    invocationVerified: bool,
    verifiedBadge: bool,
    verifiedViaAuth: bool,
    lastVerifiedVia: Option<Via>,
    lastVerifiedAt: Option<int>,
    ttlExpiresAt: Option<int>,
    lastAttemptAt: Stamp)

  const SECONDS_PER_DAY := 86400
  const TTL_DAYS_LOCAL := 30
  const TTL_DAYS_REMOTE := 7

  function TtlSeconds(transport: Transport): (seconds: int) {
    SECONDS_PER_DAY * if transport.LOCAL? then TTL_DAYS_LOCAL else TTL_DAYS_REMOTE
  }

  /** What every row keeps, whatever the writers do. */
  predicate CountersOk(r: Record) {
    0 <= r.attemptsCompleted <= r.attemptsPlanned && r.attemptsPlanned in {1, 3}
  }

  /** A verified row carries its badge and an expiry. */
  predicate VerifiedIsBadged(r: Record) {
    r.status.VERIFIED? ==> r.verifiedBadge && r.ttlExpiresAt.Some?
  }

  /** No faked verified status. */
  predicate VerifiedIsInvoked(r: Record) {
    r.status.VERIFIED? ==> r.invocationVerified
  }

  /** `list_expired_ttl`: a verified row whose expiry lies before `now`. */
  predicate Expired(r: Record, now: int) {
    r.status.VERIFIED? && r.ttlExpiresAt.Some? && r.ttlExpiresAt.value < now
  }
}
