/**
 Rotation of the generated serving certificates: one controller creates the Secret when it is
 missing, another deletes it when its certificate is due for renewal. Both work from an informer
 cache that may lag behind, and other clients may act at any time.
 */
module Certificates {
  import opened Options
  import opened ApiServer

  // Times are in nanoseconds.
  const SECOND := 1_000_000_000
  const BACKDATE := 300 * SECOND

  const CA_CERTIFICATE := "caCertificate"
  const CA_PRIVATE_KEY := "caCertificatePrivateKey"
  const TLS_CHAIN := "tlsCertificateChain"
  const TLS_PRIVATE_KEY := "tlsPrivateKey"

  datatype Certificate = Certificate(notBefore: int, notAfter: int)

  /**
   One entry of the Secret: a certificate, the private key that was generated with the certificate
   issued at that time, or something else.
   */
  datatype Pem = Pem(certificate: Certificate) | PrivateKey(issued: int) | Other

  type Contents = map<string, Pem>

  datatype Config = Config(durationSeconds: int, renewBeforeSeconds: int)

  predicate Validated(c: Config) {
    c.renewBeforeSeconds <= c.durationSeconds && 0 < c.renewBeforeSeconds
  }

  /** X.509 validity is in whole seconds. */
  function Truncate(t: int): int {
    t - t % SECOND
  }

  function Issue(now: int, ttl: int): Certificate {
    Certificate(Truncate(now - BACKDATE), Truncate(now + ttl))
  }

  /** The expirer's test, from its two readings of the clock. */
  predicate Due(c: Certificate, renewBefore: int, since: int, now: int) {
    since - c.notBefore - renewBefore >= 0 || now > c.notAfter
  }

  /** The first moment at which a certificate issued at `issued` is due. */
  function DueTime(issued: int, config: Config): int {
    Truncate(issued) - BACKDATE + config.renewBeforeSeconds * SECOND
  }

  lemma TruncateShifts(t: int, seconds: int)
    ensures Truncate(t + seconds * SECOND) == Truncate(t) + seconds * SECOND
  {
    var q, r := t / SECOND, t % SECOND;
    assert t + seconds * SECOND == (q + seconds) * SECOND + r;
    assert (t + seconds * SECOND) % SECOND == r;
  }

  /** For every validated configuration, a certificate is due exactly from its due time on. */
  lemma DueExactlyFromDueTime(issued: int, config: Config, now: int)
    requires Validated(config)
    ensures Due(Issue(issued, config.durationSeconds * SECOND), config.renewBeforeSeconds * SECOND, now, now) <==>
            now >= DueTime(issued, config)
  {
    TruncateShifts(issued, -300);
    TruncateShifts(issued, config.durationSeconds);
  }

  /** A certificate is valid from five minutes ago until its time is over, to the second. */
  lemma IssuedFor(issued: int, ttl: int)
    ensures var c := Issue(issued, ttl);
      && issued - 301 * 1_000_000_000 < c.notBefore <= issued - 300 * 1_000_000_000
      && issued + ttl - 1_000_000_000 < c.notAfter <= issued + ttl
      && c.notBefore % 1_000_000_000 == 0 && c.notAfter % 1_000_000_000 == 0
  {
    WholeSeconds(issued - BACKDATE);
    WholeSeconds(issued + ttl);
  }

  lemma WholeSeconds(t: int)
    ensures Truncate(t) % SECOND == 0 && t - SECOND < Truncate(t) <= t
  {
    assert Truncate(t) == t / SECOND * SECOND;
  }

  /** The due time is the issue time plus renewBefore minus the backdating, to the second, and leaves five minutes of validity. */
  lemma DueWellBeforeExpiry(issued: int, config: Config)
    requires Validated(config)
    ensures issued + (config.renewBeforeSeconds - 301) * 1_000_000_000 < DueTime(issued, config)
    ensures DueTime(issued, config) <= issued + (config.renewBeforeSeconds - 300) * 1_000_000_000
    ensures DueTime(issued, config) <= Issue(issued, config.durationSeconds * SECOND).notAfter - 300 * 1_000_000_000
  {
    TruncateShifts(issued, config.durationSeconds);
  }

  /**
   A certificate should not be due when it is issued. It is, if and only if renewBefore is no longer
   than the five minutes it is backdated by; such configurations pass validation.
   */
  lemma FreshIsNotDueExactlyIf(issued: int, config: Config)
    requires Validated(config)
    ensures !Due(Issue(issued, config.durationSeconds * SECOND), config.renewBeforeSeconds * SECOND, issued, issued) <==>
            config.renewBeforeSeconds > 300
  {
    DueExactlyFromDueTime(issued, config, issued);
  }

  lemma FreshCanBeDue()
    ensures var config := Config(3600, 300);
      Validated(config) && Due(Issue(0, config.durationSeconds * SECOND), config.renewBeforeSeconds * SECOND, 0, 0)
  {
    FreshIsNotDueExactlyIf(0, Config(3600, 300));
  }

  /** `o` is what the object was at some moment up to now: if its version is still current, so is its content. */
  ghost predicate Seen(s: Server<Contents>, name: string, o: Object<Contents>) {
    && o.rv < s.next
    && (name in s.objects && s.objects[name].rv == o.rv ==> s.objects[name] == o)
  }

  lemma SeenStays(s: Server<Contents>, t: Server<Contents>, name: string, o: Object<Contents>)
    requires Seen(s, name, o) && Evolves(s, t)
    ensures Seen(t, name, o)
  {
  }

  /** The entry is a certificate that is due at time `now`. */
  predicate HoldsDue(contents: Contents, key: string, renewBefore: int, now: int) {
    && key in contents && contents[key].Pem?
    && (now - contents[key].certificate.notBefore >= renewBefore || now > contents[key].certificate.notAfter)
  }

  datatype Outcome = Done | BadCertificate | Failed(error: Error)

  class Controllers {
    const name: string
    var server: Server<Contents>
    var clock: int

    constructor (name: string, server: Server<Contents>, clock: int)
      ensures this.name == name && this.server == server && this.clock == clock
    {
      this.name, this.server, this.clock := name, server, clock;
    }

    method OthersAct()
      requires Valid(server)
      modifies this`server
      ensures Evolves(old(server), server)
    {
    }

    /** Reads the clock, after some time has passed. */
    method Now() returns (now: int)
      modifies this`clock
      ensures clock == now >= old(clock)
    {
      var d :| d >= 0;
      clock := clock + d;
      return clock;
    }

    /** The expirer's Sync, on a possibly outdated view. `before` is the store when the deletion was decided by the API. */
    method Expire(view: Option<Object<Contents>>, key: string, renewBefore: int) returns (r: Outcome, ghost before: Server<Contents>)
      requires Valid(server) && (view.Some? ==> Seen(server, name, view.value))
      modifies this`server, this`clock
      ensures Evolves(old(server), before) && old(clock) <= clock
      ensures server != before ==>
        && name in before.objects && view == Some(before.objects[name])
        && HoldsDue(view.value.body, key, renewBefore, clock)
        && server == before.(objects := before.objects - {name})
      ensures name in before.objects && view == Some(before.objects[name]) && HoldsDue(view.value.body, key, renewBefore, old(clock)) ==>
        r == Done && name !in server.objects
      ensures view.None? ==> r == Done
      ensures r.Failed? ==>
        && view.Some? && HoldsDue(view.value.body, key, renewBefore, clock)
        && !(name in before.objects && view == Some(before.objects[name]))
        && r.error == (if name in before.objects then Conflict else NotFound)
      ensures r == BadCertificate <==> view.Some? && !(key in view.value.body && view.value.body[key].Pem?)
    {
      if view.None? {
        return Done, server;
      }
      var secret := view.value;
      if key !in secret.body || !secret.body[key].Pem? {
        return BadCertificate, server;
      }
      var certificate := secret.body[key].certificate;
      var since := Now();
      var now := Now();
      if !Due(certificate, renewBefore, since, now) {
        return Done, server;
      }
      OthersAct();
      SeenStays(old(server), server, name, secret);
      before := server;
      var outcome := ApiServer.Delete(server, name, Some(Precondition(secret.uid, secret.rv)));
      if outcome.Err? {
        return Failed(outcome.error), before;
      }
      server := outcome.value;
      r := Done;
    }

    /** The manager's Sync: creates the Secret if the cache has none, with or without a serving certificate. */
    method Manage(cached: bool, withServing: bool, ttl: int)
      returns (r: Outcome, ghost before: Server<Contents>, ghost issuedCA: int, ghost issuedTLS: int)
      requires Valid(server)
      modifies this`server, this`clock
      ensures Evolves(old(server), before) && old(clock) <= issuedCA <= issuedTLS <= clock
      ensures cached ==> r == Done && server == before
      ensures !cached && name in before.objects ==> r == Failed(AlreadyExists) && server == before
      ensures !cached && name !in before.objects ==>
        && r == Done
        && Evolves(before, server)
        && name in server.objects
        && server.objects - {name} == before.objects
        && GeneratedContents(server.objects[name].body, withServing, ttl, issuedCA, issuedTLS)
    {
      issuedCA, issuedTLS := clock, clock;
      if cached {
        return Done, server, clock, clock;
      }
      var now := Now();
      issuedCA, issuedTLS := now, now;
      var contents := map[CA_CERTIFICATE := Pem(Issue(now, ttl)), CA_PRIVATE_KEY := PrivateKey(now)];
      if withServing {
        now := Now();
        issuedTLS := now;
        contents := contents[TLS_PRIVATE_KEY := PrivateKey(now)];
        contents := contents[TLS_CHAIN := Pem(Issue(now, ttl))];
      }
      OthersAct();
      before := server;
      var outcome := ApiServer.Create(server, name, contents);
      if outcome.Err? {
        return Failed(outcome.error), before, issuedCA, issuedTLS;
      }
      server := outcome.value;
      r := Done;
    }
  }

  /** The two certificates (or just the CA's), each valid for `ttl` from when it was issued, with their private keys, and nothing else. */
  ghost predicate GeneratedContents(contents: Contents, withServing: bool, ttl: int, issuedCA: int, issuedTLS: int) {
    && contents.Keys == {"caCertificate", "caCertificatePrivateKey"} + (if withServing then {"tlsCertificateChain", "tlsPrivateKey"} else {})
    && contents["caCertificate"] == Pem(Issue(issuedCA, ttl)) && contents["caCertificatePrivateKey"] == PrivateKey(issuedCA)
    && (withServing ==> contents["tlsCertificateChain"] == Pem(Issue(issuedTLS, ttl)) && contents["tlsPrivateKey"] == PrivateKey(issuedTLS))
  }
}
