/** The sweep that deletes expired storage Secrets, revoking upstream OIDC tokens on the way. Times are nanoseconds. */
module GarbageCollector {
  import opened Options
  import opened ApiServer
  import Crud
  import Lifetimes
  import Sessions

  const SECOND: int := Lifetimes.SECOND
  const HOUR: int := Lifetimes.HOUR
  const MINIMUM_REPEAT_INTERVAL: int := 30 * SECOND

  datatype Timestamp = Absent | Unparseable | At(second: int)

  /** The upstream part of a session. */
  datatype Custom = Custom(isOIDC: bool, providerName: string, providerUID: string, refreshToken: string, accessToken: string)

  /** What reading the Secret as a session gives. */
  datatype Content = Corrupt | Readable(active: bool, offline: bool, custom: Custom)

  datatype Secret = Secret(name: string, uid: nat, rv: nat, gcAfter: Timestamp, storageType: Option<string>, content: Content)

  datatype Provider = Provider(name: string, uid: string)

  datatype TokenType = RefreshTokenType | AccessTokenType

  datatype RevokeResult = Revoked | Retryable | Refused

  /** What upstream providers answer during one sweep. */
  type Upstream = (Provider, string, TokenType) -> RevokeResult

  datatype Call = Revoke(secret: string, token: string, tokenType: TokenType) | Delete(secret: string, pre: Precondition)

  datatype Trouble = Fine | RetryLater | GiveUp

  // The specification: what one Secret causes.

  function FindProvider(providers: seq<Provider>, custom: Custom): (r: Option<Provider>) {
    if providers == [] then None
    else if providers[0].name == custom.providerName && providers[0].uid == custom.providerUID then Some(providers[0])
    else FindProvider(providers[1..], custom)
  }

  function TroubleOf(r: RevokeResult): Trouble {
    match r case Revoked => Fine case Retryable => RetryLater case Refused => GiveUp
  }

  /** The refresh token goes first, and the access token is only tried when that worked. */
  function RevokeBoth(name: string, custom: Custom, p: Provider, upstream: Upstream): (seq<Call>, Trouble) {
    var first := if custom.refreshToken == "" then [] else [Revoke(name, custom.refreshToken, RefreshTokenType)];
    var after := if custom.refreshToken == "" then Fine else TroubleOf(upstream(p, custom.refreshToken, RefreshTokenType));
    if after != Fine || custom.accessToken == "" then (first, after)
    else (first + [Revoke(name, custom.accessToken, AccessTokenType)], TroubleOf(upstream(p, custom.accessToken, AccessTokenType)))
  }

  function TryRevoke(name: string, custom: Custom, providers: seq<Provider>, upstream: Upstream): (seq<Call>, Trouble) {
    if !custom.isOIDC then ([], Fine)
    else match FindProvider(providers, custom)
      case None => ([], GiveUp)
      case Some(p) => RevokeBoth(name, custom, p, upstream)
  }

  function KindOf(storageType: string): Option<Sessions.Kind> {
    if storageType == "authcode" then Some(Sessions.AuthCode)
    else if storageType == "access-token" then Some(Sessions.AccessToken)
    else if storageType == "refresh-token" then Some(Sessions.RefreshToken)
    else if storageType == "pkce" then Some(Sessions.Pkce)
    else if storageType == "oidc" then Some(Sessions.OpenIDConnect)
    else None
  }

  /** The session record this Secret stands for in the protocol model, with the rest of it immaterial. */
  function AsRecord(kind: Sessions.Kind, active: bool, offline: bool): Sessions.Record {
    Sessions.Record(kind, "", offline, active, 0)
  }

  predicate Due(secret: Secret, now: int) {
    secret.gcAfter.At? && secret.gcAfter.second * SECOND < now
  }

  function Revocation(secret: Secret, providers: seq<Provider>, upstream: Upstream): (seq<Call>, Trouble) {
    match secret.storageType
    case None => ([], Fine)
    case Some(storageType) =>
      match KindOf(storageType)
      case None => ([], GiveUp)
      case Some(kind) =>
        if kind == Sessions.Pkce || kind == Sessions.OpenIDConnect then ([], Fine)
        else match secret.content
          case Corrupt => ([], GiveUp)
          case Readable(active, offline, custom) =>
            if Sessions.Eligible(AsRecord(kind, active, offline)) then TryRevoke(secret.name, custom, providers, upstream)
            else ([], Fine)
  }

  /** A Secret is kept for another try only while its deadline is less than four hours ago. */
  predicate Kept(secret: Secret, now: int, trouble: Trouble)
    requires secret.gcAfter.At?
  {
    trouble == RetryLater && secret.gcAfter.second * SECOND > now - 4 * HOUR
  }

  function Deletion(secret: Secret): Call {
    Delete(secret.name, Precondition(secret.uid, secret.rv))
  }

  function CallsFor(secret: Secret, now: int, providers: seq<Provider>, upstream: Upstream): (calls: seq<Call>) {
    if !Due(secret, now) then []
    else
      var (revokes, trouble) := Revocation(secret, providers, upstream);
      if Kept(secret, now, trouble) then revokes else revokes + [Deletion(secret)]
  }

  function SweepCalls(secrets: seq<Secret>, now: int, providers: seq<Provider>, upstream: Upstream): (calls: seq<Call>) {
    if secrets == [] then []
    else SweepCalls(secrets[..|secrets| - 1], now, providers, upstream) + CallsFor(secrets[|secrets| - 1], now, providers, upstream)
  }

  /** Whether a sync at `now` sweeps, and when the most recent sweep then started. */
  function SyncTime(lastSweep: int, now: int): (bool, int) {
    if now - lastSweep < MINIMUM_REPEAT_INTERVAL then (false, lastSweep) else (true, now)
  }

  /** One of the providers, with the name and UID of the session's, and none before it has both. */
  ghost predicate IsFirstMatch(providers: seq<Provider>, custom: Custom, p: Provider) {
    exists i :: 0 <= i < |providers| && providers[i] == p
      && p.name == custom.providerName && p.uid == custom.providerUID
      && forall j :: 0 <= j < i ==> !(providers[j].name == custom.providerName && providers[j].uid == custom.providerUID)
  }

  lemma {:induction false} FindProviderMeans(providers: seq<Provider>, custom: Custom)
    ensures FindProvider(providers, custom).Some? ==> IsFirstMatch(providers, custom, FindProvider(providers, custom).value)
    ensures FindProvider(providers, custom).None? ==>
      forall i :: 0 <= i < |providers| ==> !(providers[i].name == custom.providerName && providers[i].uid == custom.providerUID)
  {
    if providers != [] {
      var rest := providers[1..];
      FindProviderMeans(rest, custom);
      if providers[0].name == custom.providerName && providers[0].uid == custom.providerUID {
        assert providers[0] == FindProvider(providers, custom).value;
      } else if FindProvider(rest, custom).Some? {
        var p := FindProvider(rest, custom).value;
        var i :| 0 <= i < |rest| && rest[i] == p && p.name == custom.providerName && p.uid == custom.providerUID
          && forall j :: 0 <= j < i ==> !(rest[j].name == custom.providerName && rest[j].uid == custom.providerUID);
        assert providers[i + 1] == p;
        assert forall j :: 0 < j < i + 1 ==> providers[j] == rest[j - 1];
      }
    }
  }

  /** There is only one first match. */
  lemma FirstMatchIsFound(providers: seq<Provider>, custom: Custom, p: Provider)
    requires IsFirstMatch(providers, custom, p)
    ensures FindProvider(providers, custom) == Some(p)
  {
    FindProviderMeans(providers, custom);
  }

  // The controller.

  class Controller {
    var timeOfMostRecentSweep: int

    constructor (start: int)
      ensures timeOfMostRecentSweep == start
    {
      timeOfMostRecentSweep := start;
    }

    /** The first provider with both the name and the UID of the session's, if there is one. */
    method FindUpstream(custom: Custom, providers: seq<Provider>) returns (found: Option<Provider>)
      ensures found.Some? ==> IsFirstMatch(providers, custom, found.value)
      ensures found.None? ==> forall i :: 0 <= i < |providers| ==> !(providers[i].name == custom.providerName && providers[i].uid == custom.providerUID)
      ensures found == FindProvider(providers, custom)
    {
      FindProviderMeans(providers, custom);
      found := None;
      for i := 0 to |providers|
        invariant found == None
        invariant FindProvider(providers, custom) == FindProvider(providers[i..], custom)
      {
        var p := providers[i];
        assert providers[i..][0] == p && providers[i..][1..] == providers[i + 1..];
        if p.name == custom.providerName && p.uid == custom.providerUID {
          found := Some(p);
          return;
        }
      }
    }

    method TryRevokeUpstreamOIDCToken(name: string, custom: Custom, providers: seq<Provider>, upstream: Upstream)
      returns (calls: seq<Call>, trouble: Trouble)
      ensures (calls, trouble) == TryRevoke(name, custom, providers, upstream)
    {
      calls, trouble := [], Fine;
      if !custom.isOIDC {
        return;
      }
      var found := FindUpstream(custom, providers);
      if found.None? {
        trouble := GiveUp;
        return;
      }
      if custom.refreshToken != "" {
        calls := [Revoke(name, custom.refreshToken, RefreshTokenType)];
        var answer := upstream(found.value, custom.refreshToken, RefreshTokenType);
        if answer != Revoked {
          trouble := TroubleOf(answer);
          return;
        }
      }
      if custom.accessToken != "" {
        calls := calls + [Revoke(name, custom.accessToken, AccessTokenType)];
        var answer := upstream(found.value, custom.accessToken, AccessTokenType);
        trouble := TroubleOf(answer);
      }
    }

    method MaybeRevokeUpstreamOIDCToken(storageType: string, secret: Secret, providers: seq<Provider>, upstream: Upstream)
      returns (calls: seq<Call>, trouble: Trouble)
      requires secret.storageType == Some(storageType)
      ensures (calls, trouble) == Revocation(secret, providers, upstream)
    {
      calls, trouble := [], Fine;
      match KindOf(storageType) {
        case Some(AuthCode) =>
          if secret.content.Corrupt? { trouble := GiveUp; return; }
          if !secret.content.active { return; }
          calls, trouble := TryRevokeUpstreamOIDCToken(secret.name, secret.content.custom, providers, upstream);
        case Some(AccessToken) =>
          if secret.content.Corrupt? { trouble := GiveUp; return; }
          if secret.content.offline { return; }
          calls, trouble := TryRevokeUpstreamOIDCToken(secret.name, secret.content.custom, providers, upstream);
        case Some(RefreshToken) =>
          if secret.content.Corrupt? { trouble := GiveUp; return; }
          calls, trouble := TryRevokeUpstreamOIDCToken(secret.name, secret.content.custom, providers, upstream);
        case Some(Pkce) =>
        case Some(OpenIDConnect) =>
        case None => trouble := GiveUp;
      }
    }

    method Sync(now: int, secrets: seq<Secret>, providers: seq<Provider>, upstream: Upstream)
      returns (swept: bool, requeueAfter: Option<int>, calls: seq<Call>)
      modifies this
      ensures swept <==> now - old(timeOfMostRecentSweep) >= 30 * SECOND
      ensures timeOfMostRecentSweep == if swept then now else old(timeOfMostRecentSweep)
      ensures (swept, timeOfMostRecentSweep) == SyncTime(old(timeOfMostRecentSweep), now)
      ensures calls == if swept then SweepCalls(secrets, now, providers, upstream) else []
      ensures requeueAfter == if swept then None else Some(timeOfMostRecentSweep + 30 * SECOND - now)
    {
      calls, requeueAfter := [], None;
      var since := now - timeOfMostRecentSweep;
      if since < MINIMUM_REPEAT_INTERVAL {
        return false, Some(MINIMUM_REPEAT_INTERVAL - since), [];
      }
      timeOfMostRecentSweep := now;
      swept := true;
      for i := 0 to |secrets|
        invariant swept && timeOfMostRecentSweep == now
        invariant calls == SweepCalls(secrets[..i], now, providers, upstream)
      {
        var secret := secrets[i];
        assert secrets[..i + 1][..i] == secrets[..i];
        if secret.gcAfter.Absent? || secret.gcAfter.Unparseable? {
          continue;
        }
        var deadline := secret.gcAfter.second * SECOND;
        if !(deadline < now) {
          continue;
        }
        if secret.storageType.Some? {
          var revokes, trouble := MaybeRevokeUpstreamOIDCToken(secret.storageType.value, secret, providers, upstream);
          calls := calls + revokes;
          var fourHoursAgo := now - 4 * HOUR;
          if trouble == RetryLater && deadline > fourHoursAgo {
            continue;
          }
        }
        calls := calls + [Deletion(secret)];
      }
      assert secrets[..|secrets|] == secrets;
    }
  }

  // What a sweep promises.

  lemma {:induction false} CallsComeFromSecrets(secrets: seq<Secret>, now: int, providers: seq<Provider>, upstream: Upstream, call: Call)
    ensures call in SweepCalls(secrets, now, providers, upstream) <==>
            exists secret <- secrets :: call in CallsFor(secret, now, providers, upstream)
  {
    if secrets != [] {
      var init, last := secrets[..|secrets| - 1], secrets[|secrets| - 1];
      CallsComeFromSecrets(init, now, providers, upstream, call);
      assert forall secret :: secret in secrets <==> secret in init || secret == last;
    }
  }

  ghost predicate Answered(p: Provider, call: Call, upstream: Upstream, r: RevokeResult) {
    call.Revoke? && upstream(p, call.token, call.tokenType) == r
  }

  /**
   What trying to revoke means for its caller: for a session of an OIDC provider that is still
   there, the refresh token is revoked if there is one, then the access token if there is one and
   nothing has failed so far; only the last of these calls can have failed. All is fine exactly if
   none did, and trying again later is asked for exactly if the failed one asks for it.
   */
  lemma TryRevokeMeaning(name: string, custom: Custom, providers: seq<Provider>, upstream: Upstream)
    ensures var (calls, trouble) := TryRevoke(name, custom, providers, upstream);
      var found := FindProvider(providers, custom);
      var refresh, access := Revoke(name, custom.refreshToken, RefreshTokenType), Revoke(name, custom.accessToken, AccessTokenType);
      && (custom.isOIDC && found.Some? ==>
          && (forall call <- calls :: call == refresh || call == access)
          && (forall i, j :: 0 <= i < j < |calls| ==> calls[i] == refresh && calls[j] == access)
          && (refresh in calls <==> custom.refreshToken != "")
          && (access in calls <==>
                custom.accessToken != "" && (refresh in calls ==> Answered(found.value, refresh, upstream, Revoked)))
          && (forall i :: 0 <= i < |calls| - 1 ==> Answered(found.value, calls[i], upstream, Revoked))
          && (trouble == Fine <==> forall call <- calls :: Answered(found.value, call, upstream, Revoked))
          && (trouble == RetryLater <==> exists call <- calls :: Answered(found.value, call, upstream, Retryable)))
      && (!(custom.isOIDC && found.Some?) ==> calls == [] && trouble == if custom.isOIDC then GiveUp else Fine)
  {
    var (calls, trouble) := TryRevoke(name, custom, providers, upstream);
    var refresh, access := Revoke(name, custom.refreshToken, RefreshTokenType), Revoke(name, custom.accessToken, AccessTokenType);
    assert |calls| > 0 ==> calls[|calls| - 1] in calls;
    assert |calls| > 1 ==> calls[0] in calls;
  }

  lemma RevocationsOnly(secret: Secret, providers: seq<Provider>, upstream: Upstream)
    ensures forall call <- Revocation(secret, providers, upstream).0 :: call.Revoke? && call.secret == secret.name
  {
  }

  /** The Secret holds the upstream token that its session would go on with. */
  predicate CarriesToken(secret: Secret) {
    && secret.content.Readable?
    && (|| (secret.storageType == Some("authcode") && secret.content.active)
        || (secret.storageType == Some("access-token") && !secret.content.offline)
        || secret.storageType == Some("refresh-token"))
  }

  /** Revoking for the Secret met a provider that wants to be asked again. */
  ghost predicate AsksForRetry(secret: Secret, providers: seq<Provider>, upstream: Upstream) {
    && CarriesToken(secret) && secret.content.custom.isOIDC
    && exists p :: IsFirstMatch(providers, secret.content.custom, p) && WantsRetry(p, secret.content.custom, upstream)
  }

  /** The call that failed, if any, can be made again. */
  predicate WantsRetry(p: Provider, custom: Custom, upstream: Upstream) {
    var refreshed := if custom.refreshToken == "" then Revoked else upstream(p, custom.refreshToken, RefreshTokenType);
    || refreshed == Retryable
    || (refreshed == Revoked && custom.accessToken != "" && upstream(p, custom.accessToken, AccessTokenType) == Retryable)
  }

  lemma RetryIsAskedFor(secret: Secret, providers: seq<Provider>, upstream: Upstream)
    ensures Revocation(secret, providers, upstream).1 == RetryLater <==> AsksForRetry(secret, providers, upstream)
  {
    if CarriesToken(secret) {
      FindProviderMeans(providers, secret.content.custom);
      forall p | IsFirstMatch(providers, secret.content.custom, p) ensures FindProvider(providers, secret.content.custom) == Some(p) {
        FirstMatchIsFound(providers, secret.content.custom, p);
      }
    }
  }

  /**
   A sweep submits a Secret for deletion exactly when its deadline has passed, unless revocation
   ought to be retried and the deadline is less than four hours ago; in particular a deadline four
   hours past is always final. The delete is pinned to the version the sweep looked at.
   */
  lemma DeletedExactlyWhenDueAndNotKept(secrets: seq<Secret>, now: int, providers: seq<Provider>, upstream: Upstream, secret: Secret)
    requires secret in secrets
    requires forall other <- secrets :: other.name == secret.name ==> other == secret
    ensures Delete(secret.name, Precondition(secret.uid, secret.rv)) in SweepCalls(secrets, now, providers, upstream) <==>
            && secret.gcAfter.At? && secret.gcAfter.second * SECOND < now
            && !(AsksForRetry(secret, providers, upstream) && secret.gcAfter.second * SECOND > now - 4 * HOUR)
    ensures secret.gcAfter.At? && secret.gcAfter.second * SECOND <= now - 4 * HOUR ==>
            Delete(secret.name, Precondition(secret.uid, secret.rv)) in SweepCalls(secrets, now, providers, upstream)
  {
    CallsComeFromSecrets(secrets, now, providers, upstream, Deletion(secret));
    forall other <- secrets ensures Deletion(secret) in CallsFor(other, now, providers, upstream) ==> other == secret {
      RevocationsOnly(other, providers, upstream);
    }
    RevocationsOnly(secret, providers, upstream);
    RetryIsAskedFor(secret, providers, upstream);
  }

  /** A Secret is only deleted after its tokens were revoked. */
  lemma DeletionComesLast(secret: Secret, now: int, providers: seq<Provider>, upstream: Upstream, i: nat)
    requires i < |CallsFor(secret, now, providers, upstream)| && CallsFor(secret, now, providers, upstream)[i].Delete?
    ensures i == |CallsFor(secret, now, providers, upstream)| - 1
  {
    RevocationsOnly(secret, providers, upstream);
    var revokes := Revocation(secret, providers, upstream).0;
    assert forall k :: 0 <= k < |revokes| ==> revokes[k] in revokes && revokes[k].Revoke?;
  }

  function TokenOf(custom: Custom, tokenType: TokenType): string {
    if tokenType.RefreshTokenType? then custom.refreshToken else custom.accessToken
  }

  lemma RevokedFromEligible(secret: Secret, providers: seq<Provider>, upstream: Upstream, call: Call)
    requires call in Revocation(secret, providers, upstream).0
    ensures CarriesToken(secret) && call.Revoke? && call.secret == secret.name
    ensures call.token == TokenOf(secret.content.custom, call.tokenType) && call.token != ""
  {
  }

  /** Every token a sweep revokes comes out of a Secret past its deadline that carries its session's token. */
  lemma RevokedTokensAreEligible(secrets: seq<Secret>, now: int, providers: seq<Provider>, upstream: Upstream, call: Call)
    requires call.Revoke? && call in SweepCalls(secrets, now, providers, upstream)
    ensures exists secret <- secrets ::
      && secret.gcAfter.At? && secret.gcAfter.second * SECOND < now && CarriesToken(secret)
      && secret.name == call.secret
      && call.token == TokenOf(secret.content.custom, call.tokenType)
      && call.token != ""
  {
    CallsComeFromSecrets(secrets, now, providers, upstream, call);
    var secret :| secret in secrets && call in CallsFor(secret, now, providers, upstream);
    RevokedFromEligible(secret, providers, upstream, call);
  }

  /** Whether a token of the session is revoked when it is its turn: the refresh token first, the access token only if nothing failed. */
  ghost predicate HasItsTurn(custom: Custom, providers: seq<Provider>, upstream: Upstream, tokenType: TokenType) {
    && custom.isOIDC && TokenOf(custom, tokenType) != ""
    && exists p :: IsFirstMatch(providers, custom, p) && NothingFailedBefore(p, custom, upstream, tokenType)
  }

  predicate NothingFailedBefore(p: Provider, custom: Custom, upstream: Upstream, tokenType: TokenType) {
    tokenType.AccessTokenType? && custom.refreshToken != "" ==> upstream(p, custom.refreshToken, RefreshTokenType) == Revoked
  }

  lemma RevokedInTurn(secret: Secret, providers: seq<Provider>, upstream: Upstream, tokenType: TokenType)
    requires CarriesToken(secret)
    ensures Revoke(secret.name, TokenOf(secret.content.custom, tokenType), tokenType) in Revocation(secret, providers, upstream).0 <==>
            HasItsTurn(secret.content.custom, providers, upstream, tokenType)
  {
    var custom := secret.content.custom;
    FindProviderMeans(providers, custom);
    TryRevokeMeaning(secret.name, custom, providers, upstream);
    forall p | IsFirstMatch(providers, custom, p) ensures FindProvider(providers, custom) == Some(p) {
      FirstMatchIsFound(providers, custom, p);
    }
  }

  /**
   A sweep revokes a token for a Secret if and only if the Secret's deadline has passed, it is an
   active authcode, an access token without offline access or a refresh token, and its provider is
   still there; the access token's turn only comes if revoking a refresh token did not fail.
   */
  lemma EligibleTokensAreRevoked(secrets: seq<Secret>, now: int, providers: seq<Provider>, upstream: Upstream, secret: Secret, tokenType: TokenType)
    requires secret in secrets && secret.content.Readable?
    requires forall other <- secrets :: other.name == secret.name ==> other == secret
    ensures Revoke(secret.name, TokenOf(secret.content.custom, tokenType), tokenType) in SweepCalls(secrets, now, providers, upstream) <==>
            secret.gcAfter.At? && secret.gcAfter.second * SECOND < now && CarriesToken(secret) && HasItsTurn(secret.content.custom, providers, upstream, tokenType)
  {
    var call := Revoke(secret.name, TokenOf(secret.content.custom, tokenType), tokenType);
    CallsComeFromSecrets(secrets, now, providers, upstream, call);
    forall other <- secrets ensures call in CallsFor(other, now, providers, upstream) ==> other == secret {
      RevocationsOnly(other, providers, upstream);
    }
    if CarriesToken(secret) {
      RevokedInTurn(secret, providers, upstream, tokenType);
    } else if call in Revocation(secret, providers, upstream).0 {
      RevokedFromEligible(secret, providers, upstream, call);
    }
  }

  // Sweeps are rate limited.

  /** The times at which sweeps start, for syncs at the given times. */
  function SweepTimes(start: int, syncs: seq<int>): (seq<int>, int) {
    if syncs == [] then ([], start)
    else
      var (times, last) := SweepTimes(start, syncs[..|syncs| - 1]);
      var (swept, last') := SyncTime(last, syncs[|syncs| - 1]);
      (if swept then times + [last'] else times, last')
  }

  lemma {:induction false} SweepsAreSpaced(start: int, syncs: seq<int>, i: nat, j: nat)
    requires i < j < |SweepTimes(start, syncs).0|
    ensures var times := SweepTimes(start, syncs).0; times[j] - times[i] >= (j - i) * 30 * SECOND
  {
    var init := syncs[..|syncs| - 1];
    var (times, last) := SweepTimes(start, init);
    LastSweep(start, init);
    if j < |times| {
      SweepsAreSpaced(start, init, i, j);
    } else if i < j - 1 {
      SweepsAreSpaced(start, init, i, j - 1);
    }
  }

  lemma {:induction false} LastSweep(start: int, syncs: seq<int>)
    ensures var (times, last) := SweepTimes(start, syncs); times != [] ==> last == times[|times| - 1]
  {
    if syncs != [] {
      LastSweep(start, syncs[..|syncs| - 1]);
    }
  }

  /**
   A Secret that was stored by its kind's storage is due exactly when its record is: not before the
   lifespan it must cover has passed, and for certain once its storage lifetime has.
   */
  lemma DueWhenRecordIs(kind: Sessions.Kind, created: int, now: int, secret: Secret)
    requires secret.gcAfter.At?
    requires var annotations := Crud.LifetimeAnnotations(created, Lifetimes.StorageLifetime(kind));
      && Crud.LIFETIME_ANNOTATION_KEY in annotations
      && annotations[Crud.LIFETIME_ANNOTATION_KEY] == Crud.Deadline(secret.gcAfter.second)
    ensures Due(secret, now) <==> Lifetimes.Due(kind, created, now)
    ensures Due(secret, now) ==> now > created + Lifetimes.NeededFor(kind)
    ensures now > created + Lifetimes.StorageLifetime(kind) ==> Due(secret, now)
  {
    Lifetimes.NeverDueWhileNeeded(kind, created, now);
  }
}
