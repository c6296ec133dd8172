/** How long tokens are good for, and how long their records are kept. Times are nanoseconds. */
module Lifetimes {
  import opened Sessions
  import Crud

  const SECOND: int := Crud.SECOND
  const MINUTE: int := 60 * SECOND
  const HOUR: int := 60 * MINUTE

  const ACCESS_TOKEN_LIFESPAN: int := 2 * MINUTE
  const AUTHORIZE_CODE_LIFESPAN: int := 10 * MINUTE
  const REFRESH_TOKEN_LIFESPAN: int := 9 * HOUR

  function StorageLifetime(kind: Kind): int {
    match kind
    case AuthCode => AUTHORIZE_CODE_LIFESPAN + REFRESH_TOKEN_LIFESPAN
    case Pkce => AUTHORIZE_CODE_LIFESPAN + 1 * MINUTE
    case OpenIDConnect => AUTHORIZE_CODE_LIFESPAN + 1 * MINUTE
    case AccessToken => REFRESH_TOKEN_LIFESPAN + ACCESS_TOKEN_LIFESPAN
    case RefreshToken => REFRESH_TOKEN_LIFESPAN + ACCESS_TOKEN_LIFESPAN
  }

  /** How long a record of this kind may still be asked for. */
  function NeededFor(kind: Kind): int {
    match kind
    case AuthCode => AUTHORIZE_CODE_LIFESPAN
    case Pkce => AUTHORIZE_CODE_LIFESPAN
    case OpenIDConnect => AUTHORIZE_CODE_LIFESPAN
    case AccessToken => REFRESH_TOKEN_LIFESPAN
    case RefreshToken => REFRESH_TOKEN_LIFESPAN
  }

  /** The deadline that a record of this kind, created at this time, is stored with: a whole second. */
  function DeadlineSecond(kind: Kind, created: int): int {
    (created + StorageLifetime(kind)) / SECOND
  }

  predicate Due(kind: Kind, created: int, now: int) {
    DeadlineSecond(kind, created) * SECOND < now
  }

  /**
   The deadline is cut down to a whole second, so a record can become due up to a second before its
   storage lifetime is over, but never while it may still be asked for.
   */
  lemma NeverDueWhileNeeded(kind: Kind, created: int, now: int)
    ensures Due(kind, created, now) ==> now > created + StorageLifetime(kind) - SECOND + 1
    ensures Due(kind, created, now) ==> now > created + NeededFor(kind)
    ensures now > created + StorageLifetime(kind) ==> Due(kind, created, now)
  {
  }

  /** The lifetimes in seconds; a deadline counts from the whole second in which the record was created. */
  lemma DeadlinesInSeconds(created: int, now: int)
    ensures NeededFor(AuthCode) == NeededFor(Pkce) == NeededFor(OpenIDConnect) == 600 * 1_000_000_000
    ensures NeededFor(AccessToken) == NeededFor(RefreshToken) == 32_400 * 1_000_000_000
    ensures Due(AuthCode, created, now) <==> (created / 1_000_000_000 + 33_000) * 1_000_000_000 < now
    ensures Due(Pkce, created, now) <==> (created / 1_000_000_000 + 660) * 1_000_000_000 < now
    ensures Due(OpenIDConnect, created, now) <==> (created / 1_000_000_000 + 660) * 1_000_000_000 < now
    ensures Due(AccessToken, created, now) <==> (created / 1_000_000_000 + 32_520) * 1_000_000_000 < now
    ensures Due(RefreshToken, created, now) <==> (created / 1_000_000_000 + 32_520) * 1_000_000_000 < now
  {
  }
}
