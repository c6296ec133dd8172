/**
 The controller that gives every FederationDomain a signing key. Between any two API calls of a
 sync, other clients may act on the Secret (`OthersAct`).
 */
module JwksWriter {
  import opened Options
  import opened ApiServer

  const ACTIVE_JWK_KEY := "activeJWK"
  const JWKS_KEY := "jwks"
  const SECRET_TYPE := "secrets.pinniped.dev/federation-domain-jwks"
  const MAX_ATTEMPTS := 5

  datatype Jwk = Jwk(id: string, isPublic: bool, valid: bool)

  /** Some bytes, with what JSON decoding makes of them. */
  datatype Blob = Blob(asKey: Option<Jwk>, asKeySet: Option<seq<Jwk>>)

  /** `meta` stands for labels and owner references. */
  datatype Secret = Secret(kind: string, data: map<string, Blob>, meta: string)

  ghost predicate HoldsKey(keys: seq<Jwk>, id: string) {
    exists k :: 0 <= k < |keys| && keys[k].id == id
  }

  ghost predicate AllUsable(keys: seq<Jwk>) {
    forall k :: 0 <= k < |keys| ==> keys[k].isPublic && keys[k].valid
  }

  ghost predicate GoodKeySet(keys: seq<Jwk>, id: string) {
    AllUsable(keys) && HoldsKey(keys, id)
  }

  /** A valid private signing key together with a set of valid public keys, one of them with its id. */
  ghost predicate Usable(s: Secret) {
    && s.kind == SECRET_TYPE
    && ACTIVE_JWK_KEY in s.data && s.data[ACTIVE_JWK_KEY].asKey.Some?
    && !s.data[ACTIVE_JWK_KEY].asKey.value.isPublic && s.data[ACTIVE_JWK_KEY].asKey.value.valid
    && JWKS_KEY in s.data && s.data[JWKS_KEY].asKeySet.Some?
    && GoodKeySet(s.data[JWKS_KEY].asKeySet.value, s.data[ACTIVE_JWK_KEY].asKey.value.id)
  }

  method CheckKeySet(keys: seq<Jwk>, id: string) returns (ok: bool)
    ensures ok <==> GoodKeySet(keys, id)
  {
    var found := false;
    for k := 0 to |keys|
      invariant AllUsable(keys[..k])
      invariant found <==> HoldsKey(keys[..k], id)
    {
      if !keys[k].isPublic || !keys[k].valid {
        return false;
      }
      assert keys[..k + 1] == keys[..k] + [keys[k]];
      if keys[k].id == id {
        assert keys[..k + 1][k].id == id;
        found := true;
      }
      assert HoldsKey(keys[..k + 1], id) <==> HoldsKey(keys[..k], id) || keys[k].id == id;
    }
    assert keys[..|keys|] == keys;
    return found;
  }

  /** isValid. */
  method IsValid(s: Secret) returns (ok: bool)
    ensures ok <==> Usable(s)
  {
    if s.kind != SECRET_TYPE || ACTIVE_JWK_KEY !in s.data {
      return false;
    }
    var active := s.data[ACTIVE_JWK_KEY].asKey;
    if active.None? || active.value.isPublic || !active.value.valid {
      return false;
    }
    if JWKS_KEY !in s.data || s.data[JWKS_KEY].asKeySet.None? {
      return false;
    }
    ok := CheckKeySet(s.data[JWKS_KEY].asKeySet.value, active.value.id);
  }

  function Public(key: Jwk): Jwk {
    key.(isPublic := true)
  }

  /** generateSecret, from a key that was generated. */
  function GenerateSecret(key: Jwk, meta: string): Secret {
    Secret(SECRET_TYPE, map[ACTIVE_JWK_KEY := Blob(Some(key), None), JWKS_KEY := Blob(None, Some([Public(key)]))], meta)
  }

  /** The key itself, its public half as the only key of the set, and nothing else. */
  ghost predicate HoldsGenerated(s: Secret, key: Jwk) {
    && s.kind == "secrets.pinniped.dev/federation-domain-jwks"
    && s.data.Keys == {"activeJWK", "jwks"}
    && s.data["activeJWK"].asKey == Some(key)
    && s.data["jwks"].asKeySet == Some([Jwk(key.id, true, key.valid)])
  }

  /** What is generated from a valid private key holds it, and passes the validity check. */
  lemma GeneratedIsUsable(key: Jwk, meta: string)
    requires !key.isPublic && key.valid
    ensures Usable(GenerateSecret(key, meta)) && HoldsGenerated(GenerateSecret(key, meta), key)
  {
    assert [Public(key)][0].id == key.id;
  }

  /**
   What every write of this controller keeps: the Secret does not disappear and is not replaced by
   another, its metadata stays, and if it is usable it is not touched at all.
   */
  ghost predicate Keeps(name: string, s: Server<Secret>, t: Server<Secret>) {
    && Evolves(s, t)
    && (name in s.objects ==>
          && name in t.objects
          && t.objects[name].uid == s.objects[name].uid
          && t.objects[name].body.meta == s.objects[name].body.meta
          && (Usable(s.objects[name].body) ==> t.objects[name] == s.objects[name]))
  }

  // One attempt of the retry loop, as a read followed by a write.

  /** The write of one attempt: create if nothing was read, else update the version that was read. */
  function Submit(server: Server<Secret>, name: string, got: Result<Object<Secret>>, generated: Secret): Result<Server<Secret>> {
    match got
    case Err(_) => ApiServer.Create(server, name, generated)
    case Ok(o) => ApiServer.Update(server, name, o.rv, o.body.(data := generated.data, kind := SECRET_TYPE))
  }

  /** What was read is unusable, and still the content if its version is current. */
  ghost predicate Pinned(server: Server<Secret>, name: string, got: Result<Object<Secret>>) {
    got.Ok? ==>
      && !Usable(got.value.body)
      && got.value.rv < server.next
      && (name in server.objects && server.objects[name].rv == got.value.rv ==> server.objects[name] == got.value)
  }

  lemma PinnedStays(s: Server<Secret>, t: Server<Secret>, name: string, got: Result<Object<Secret>>)
    requires Pinned(s, name, got) && Evolves(s, t)
    ensures Pinned(t, name, got)
  {
  }

  /** A write that goes through replaces exactly the version that was read, leaves a usable Secret, and keeps what it must. */
  lemma SubmitKeeps(server: Server<Secret>, name: string, got: Result<Object<Secret>>, generated: Secret)
    requires Valid(server) && Pinned(server, name, got) && Usable(generated)
    requires Submit(server, name, got, generated).Ok?
    ensures var t := Submit(server, name, got, generated).value;
      && Keeps(name, server, t)
      && name in t.objects && Usable(t.objects[name].body) && t.objects[name].body.data == generated.data
      && (name in server.objects <==> got.Ok?)
      && (got.Ok? ==> server.objects[name] == got.value)
  {
  }

  // The code.

  /** The store when an attempt read, and when its write arrived (or again when it read, if it wrote nothing). */
  datatype Attempt = Attempt(read: Server<Secret>, at: Server<Secret>)

  ghost predicate FoundUsable(name: string, read: Server<Secret>) {
    name in read.objects && Usable(read.objects[name].body)
  }

  /** How an attempt ends is decided by these two moments. */
  ghost function Ending(name: string, generated: Secret, t: Attempt): Result<Server<Secret>> {
    if FoundUsable(name, t.read) then Ok(t.at) else Submit(t.at, name, ApiServer.Get(t.read, name), generated)
  }

  /** The store as an attempt left it: as its write made it, or as it was. */
  ghost predicate Ends(ending: Result<Server<Secret>>, t: Attempt, r: Result<()>, end: Server<Secret>) {
    match ending case Ok(s) => r == Ok(()) && end == s case Err(e) => r == Err(e) && end == t.at
  }

  /** During an attempt others may act in any way, unless it is over with its read. */
  ghost predicate Lasts(name: string, t: Attempt) {
    Evolves(t.read, t.at) && (FoundUsable(name, t.read) ==> t.at == t.read)
  }

  ghost function Before(start: Server<Secret>, trace: seq<Attempt>, i: nat): Server<Secret>
    requires i <= |trace|
  {
    if i == 0 then start else trace[i - 1].at
  }

  /** Between attempts others may act in any way too; failed attempts change nothing. */
  ghost predicate Unfolds(name: string, start: Server<Secret>, trace: seq<Attempt>) {
    forall i :: 0 <= i < |trace| ==> Evolves(Before(start, trace, i), trace[i].read) && Lasts(name, trace[i])
  }

  /** Others only did what this controller itself may do. */
  ghost predicate OnlyWriters(name: string, start: Server<Secret>, trace: seq<Attempt>) {
    forall i :: 0 <= i < |trace| ==> Keeps(name, Before(start, trace, i), trace[i].read) && Keeps(name, trace[i].read, trace[i].at)
  }

  ghost predicate AllConflict(name: string, generated: Secret, trace: seq<Attempt>) {
    forall i :: 0 <= i < |trace| ==> Ending(name, generated, trace[i]) == Err(Conflict)
  }

  /** All attempts but the last ended in a conflict, and the last only if it was the fifth; it decides. */
  ghost predicate Decided(name: string, generated: Secret, trace: seq<Attempt>, r: Result<()>, end: Server<Secret>) {
    && 0 < |trace| <= 5
    && AllConflict(name, generated, trace[..|trace| - 1])
    && (|trace| < 5 ==> r != Err(Conflict))
    && Ends(Ending(name, generated, trace[|trace| - 1]), trace[|trace| - 1], r, end)
  }

  lemma UnfoldsOn(name: string, start: Server<Secret>, trace: seq<Attempt>, t: Attempt)
    requires Unfolds(name, start, trace) && Evolves(Before(start, trace, |trace|), t.read) && Lasts(name, t)
    ensures Unfolds(name, start, trace + [t])
  {
    var more := trace + [t];
    forall i | 0 <= i < |more| ensures Evolves(Before(start, more, i), more[i].read) && Lasts(name, more[i]) {
      assert Before(start, more, i) == Before(start, trace, i);
    }
  }

  /** What is known after one more attempt. */
  lemma OneMoreAttempt(name: string, generated: Secret, start: Server<Secret>, trace: seq<Attempt>, t: Attempt, r: Result<()>, end: Server<Secret>)
    requires Unfolds(name, start, trace) && AllConflict(name, generated, trace) && |trace| < MAX_ATTEMPTS
    requires Evolves(Before(start, trace, |trace|), t.read) && Lasts(name, t) && Ends(Ending(name, generated, t), t, r, end)
    ensures var more := trace + [t];
      && Unfolds(name, start, more)
      && (r == Err(Conflict) ==> AllConflict(name, generated, more) && end == Before(start, more, |more|))
      && (r != Err(Conflict) || |more| == MAX_ATTEMPTS ==> Decided(name, generated, more, r, end))
  {
    var more := trace + [t];
    assert more[..|more| - 1] == trace;
    UnfoldsOn(name, start, trace, t);
  }

  // The status of the FederationDomain, which names the Secret.

  datatype Domain = Domain(jwksName: string, rest: string)

  /** The store when the last attempt to write the status read, and when its write arrived. */
  datatype StatusAttempt = StatusAttempt(read: Server<Domain>, at: Server<Domain>)

  ghost predicate StatusDone(t: StatusAttempt, domain: string, name: string) {
    domain !in t.read.objects || t.read.objects[domain].body.jwksName == name
  }

  ghost function StatusEnding(t: StatusAttempt, domain: string, name: string): Result<Server<Domain>> {
    if domain !in t.read.objects then Err(NotFound)
    else if t.read.objects[domain].body.jwksName == name then Ok(t.at)
    else ApiServer.Update(t.at, domain, t.read.objects[domain].rv, t.read.objects[domain].body.(jwksName := name))
  }

  ghost predicate StatusDecided(start: Server<Domain>, t: StatusAttempt, domain: string, name: string, r: Result<()>, end: Server<Domain>) {
    && Evolves(start, t.read) && Evolves(t.read, t.at) && (StatusDone(t, domain, name) ==> t.at == t.read)
    && (match StatusEnding(t, domain, name) case Ok(s) => r == Ok(()) && end == s case Err(e) => r == Err(e) && end == t.at)
  }

  /** After a success the status names the Secret, and nothing else was changed. */
  ghost predicate Pointed(t: StatusAttempt, domain: string, name: string, end: Server<Domain>) {
    && domain in t.at.objects && domain in end.objects
    && end.objects[domain].body == t.at.objects[domain].body.(jwksName := name)
    && end.objects - {domain} == t.at.objects - {domain}
  }

  lemma StatusIsPointed(start: Server<Domain>, t: StatusAttempt, domain: string, name: string, r: Result<()>, end: Server<Domain>)
    requires Valid(start) && StatusDecided(start, t, domain, name, r, end)
    ensures Valid(end)
    ensures r.Ok? ==> Pointed(t, domain, name, end)
    ensures t.read == t.at && r.Err? ==> domain !in t.at.objects
  {
    if domain in t.read.objects && r.Ok? && t.read.objects[domain].body.jwksName != name {
      VersionPinsContent(t.read, t.at, domain);
    }
  }

  class Writer {
    const name: string
    const domain: string
    var server: Server<Secret>
    var domains: Server<Domain>

    constructor (name: string, domain: string, server: Server<Secret>, domains: Server<Domain>)
      ensures this.name == name && this.domain == domain && this.server == server && this.domains == domains
    {
      this.name, this.domain, this.server, this.domains := name, domain, server, domains;
    }

    method OthersActOnDomains()
      requires Valid(domains)
      modifies this`domains
      ensures Evolves(old(domains), domains)
    {
    }

    /** updateFederationDomainStatus. `t` are the moments of its last attempt, of at most five; others ended in a conflict. */
    method UpdateFederationDomainStatus() returns (r: Result<()>, ghost t: StatusAttempt, ghost tries: nat)
      requires Valid(domains)
      modifies this`domains
      ensures Valid(domains) && StatusDecided(old(domains), t, domain, name, r, domains)
      ensures 1 <= tries <= 5 && (tries < 5 ==> r != Err(Conflict))
      ensures r.Ok? ==> Pointed(t, domain, name, domains)
    {
      r, t, tries := Err(Conflict), StatusAttempt(domains, domains), 0;
      for attempt := 0 to MAX_ATTEMPTS
        invariant Valid(domains) && Evolves(old(domains), domains) && tries == attempt
        invariant attempt > 0 ==> r == Err(Conflict) && StatusDecided(old(domains), t, domain, name, r, domains)
      {
        tries := attempt + 1;
        ghost var start := domains;
        r, t := PointOnce();
        EvolvesTransitive(old(domains), start, t.read);
        StatusIsPointed(start, t, domain, name, r, domains);
        if r != Err(Conflict) {
          return;
        }
        EvolvesTransitive(old(domains), t.read, domains);
      }
    }

    method PointOnce() returns (r: Result<()>, ghost t: StatusAttempt)
      requires Valid(domains)
      modifies this`domains
      ensures StatusDecided(old(domains), t, domain, name, r, domains)
    {
      OthersActOnDomains();
      ghost var read := domains;
      var got := ApiServer.Get(domains, domain);
      if got.Err? {
        return Err(got.error), StatusAttempt(read, read);
      }
      if got.value.body.jwksName == name {
        return Ok(()), StatusAttempt(read, read);
      }
      OthersActOnDomains();
      t := StatusAttempt(read, domains);
      var outcome := ApiServer.Update(domains, domain, got.value.rv, got.value.body.(jwksName := name));
      if outcome.Err? {
        return Err(outcome.error), t;
      }
      domains := outcome.value;
      r := Ok(());
    }

    /** Whatever the rest of the world does; it is only known to be done by API calls. */
    method OthersAct()
      requires Valid(server)
      modifies this`server
      ensures Evolves(old(server), server)
    {
    }

    /** One attempt. `t` are the moments at which its API calls were decided. */
    method TryOnce(generated: Secret) returns (r: Result<()>, ghost t: Attempt)
      requires Valid(server) && Usable(generated)
      modifies this`server
      ensures Valid(server) && Evolves(old(server), t.read) && Lasts(name, t)
      ensures Ends(Ending(name, generated, t), t, r, server)
    {
      OthersAct();
      var got := ApiServer.Get(server, name);
      ghost var read := server;
      if got.Ok? {
        var valid := IsValid(got.value.body);
        if valid {
          return Ok(()), Attempt(read, read);
        }
      }
      OthersAct();
      t := Attempt(read, server);
      var outcome := Submit(server, name, got, generated);
      if outcome.Err? {
        return Err(outcome.error), t;
      }
      PinnedStays(read, server, name, got);
      SubmitKeeps(server, name, got, generated);
      server := outcome.value;
      r := Ok(());
    }

    /**
     createOrUpdateSecret. `trace` are the moments of all its attempts; they decide the result and
     the store. Undisturbed, the call succeeds and does exactly what is wanted; a failure is always
     somebody else's doing; and if others only do what writers may do, a usable Secret is left alone.
     */
    method CreateOrUpdateSecret(generated: Secret) returns (r: Result<()>, ghost trace: seq<Attempt>)
      requires Valid(server) && Usable(generated)
      modifies this`server
      ensures Valid(server)
      ensures Unfolds(name, old(server), trace) && Decided(name, generated, trace, r, server)
      ensures trace[0] == Attempt(old(server), old(server)) ==> r == Ok(()) && server == Ensured(old(server), name, generated)
      ensures r.Ok? ==> FoundUsable(name, server)
      ensures r.Err? ==> trace[|trace| - 1].at != trace[|trace| - 1].read
      ensures OnlyWriters(name, old(server), trace) ==> Keeps(name, old(server), server)
    {
      trace := [];
      for attempt := 0 to MAX_ATTEMPTS
        invariant Valid(server) && |trace| == attempt
        invariant server == Before(old(server), trace, attempt)
        invariant Unfolds(name, old(server), trace) && AllConflict(name, generated, trace)
        invariant attempt == MAX_ATTEMPTS ==> Decided(name, generated, trace, Err(Conflict), server)
      {
        ghost var t;
        r, t := TryOnce(generated);
        OneMoreAttempt(name, generated, old(server), trace, t, r, server);
        trace := trace + [t];
        if r != Err(Conflict) {
          CallMeans(name, generated, old(server), trace, r, server);
          return r, trace;
        }
      }
      r := Err(Conflict);
      CallMeans(name, generated, old(server), trace, r, server);
    }

    /**
     Sync, from whatever the informer caches say: the FederationDomain, by the name in its status, and
     the Secret of that name. `r` is how writing the Secret ended, `status` how writing the status did.
     */
    method Sync(statusName: Option<string>, cached: Option<Secret>, key: Option<Jwk>, meta: string)
      returns (ok: bool, ghost trace: seq<Attempt>, ghost r: Result<()>, ghost t: StatusAttempt, ghost status: Result<()>)
      requires Valid(server) && Valid(domains)
      requires key.Some? ==> !key.value.isPublic && key.value.valid
      modifies this`server, this`domains
      ensures Valid(server) && Valid(domains)
      ensures !NeedsUpdate(statusName, cached) ==> ok && server == old(server) && domains == old(domains)
      ensures NeedsUpdate(statusName, cached) && key.None? ==> !ok && server == old(server) && domains == old(domains)
      ensures NeedsUpdate(statusName, cached) && key.Some? ==>
        && Unfolds(name, old(server), trace) && Decided(name, GenerateSecret(key.value, meta), trace, r, server)
        && (r.Ok? ==> FoundUsable(name, server) && StatusDecided(old(domains), t, domain, name, status, domains))
        && (r.Err? ==> domains == old(domains))
        && (ok <==> r.Ok? && status.Ok?)
        && (ok ==> Pointed(t, domain, name, domains))
      ensures OnlyWriters(name, old(server), trace) ==> Keeps(name, old(server), server)
      ensures NeedsUpdate(statusName, cached) && key.Some? && trace[0] == Attempt(old(server), old(server)) && !FoundUsable(name, old(server)) ==>
        && r.Ok? && name in server.objects && HoldsGenerated(server.objects[name].body, key.value)
        && server.objects[name].body.meta == (if name in old(server).objects then old(server).objects[name].body.meta else meta)
    {
      trace, r, t, status := [], Ok(()), StatusAttempt(domains, domains), Ok(());
      if statusName.None? {
        return true, trace, r, t, status;
      }
      if statusName.value != "" && cached.Some? {
        var valid := IsValid(cached.value);
        if valid {
          return true, trace, r, t, status;
        }
      }
      if key.None? {
        return false, trace, r, t, status;
      }
      GeneratedIsUsable(key.value, meta);
      var written;
      written, trace := CreateOrUpdateSecret(GenerateSecret(key.value, meta));
      r := written;
      if written.Err? {
        return false, trace, r, t, status;
      }
      ghost var tries;
      var pointed;
      pointed, t, tries := UpdateFederationDomainStatus();
      status := pointed;
      ok := pointed.Ok?;
    }
  }

  /** secretNeedsUpdate, for a FederationDomain that the cache has. */
  ghost predicate NeedsUpdate(statusName: Option<string>, cached: Option<Secret>) {
    statusName.Some? && (statusName.value == "" || cached.None? || !Usable(cached.value))
  }

  // What a call means, whatever its moments were.

  /** What one sync does when nobody interferes. */
  ghost function Ensured(s: Server<Secret>, name: string, generated: Secret): Server<Secret> {
    if name !in s.objects then
      Server(s.objects[name := Object(s.next, s.next, generated)], s.next + 1)
    else
      var was := s.objects[name];
      if Usable(was.body) then s
      else Server(s.objects[name := Object(was.uid, s.next, Secret(SECRET_TYPE, generated.data, was.body.meta))], s.next + 1)
  }

  lemma LastReadIsPinned(name: string, start: Server<Secret>, trace: seq<Attempt>)
    requires Unfolds(name, start, trace) && trace != []
    ensures var last := trace[|trace| - 1];
      Valid(last.read) && Valid(last.at) && (!FoundUsable(name, last.read) ==> Pinned(last.at, name, ApiServer.Get(last.read, name)))
  {
    var last := trace[|trace| - 1];
    assert Evolves(Before(start, trace, |trace| - 1), last.read);
    if !FoundUsable(name, last.read) {
      PinnedStays(last.read, last.at, name, ApiServer.Get(last.read, name));
    }
  }

  lemma EndingIfQuiet(name: string, generated: Secret, start: Server<Secret>)
    ensures Ending(name, generated, Attempt(start, start)) == Ok(Ensured(start, name, generated))
  {
  }

  /** Undisturbed, a call always succeeds and leaves exactly the Secret that is wanted. */
  lemma UndisturbedCallsSucceed(name: string, generated: Secret, start: Server<Secret>, trace: seq<Attempt>, r: Result<()>, end: Server<Secret>)
    requires Valid(start) && Usable(generated) && Unfolds(name, start, trace) && Decided(name, generated, trace, r, end)
    requires trace[0] == Attempt(start, start)
    ensures r == Ok(()) && end == Ensured(start, name, generated)
  {
    EndingIfQuiet(name, generated, start);
  }

  /** Success always means that a usable Secret is stored, and failure is always somebody else's doing. */
  lemma SuccessLeavesUsableSecret(name: string, generated: Secret, start: Server<Secret>, trace: seq<Attempt>, r: Result<()>, end: Server<Secret>)
    requires Valid(start) && Usable(generated) && Unfolds(name, start, trace) && Decided(name, generated, trace, r, end)
    ensures r.Ok? ==> FoundUsable(name, end)
    ensures r.Err? ==> trace[|trace| - 1].at != trace[|trace| - 1].read
  {
    var last := trace[|trace| - 1];
    LastReadIsPinned(name, start, trace);
    if !FoundUsable(name, last.read) && r.Ok? {
      SubmitKeeps(last.at, name, ApiServer.Get(last.read, name), generated);
    }
  }

  lemma KeepsTransitive(name: string, s: Server<Secret>, t: Server<Secret>, u: Server<Secret>)
    requires Keeps(name, s, t) && Keeps(name, t, u)
    ensures Keeps(name, s, u)
  {
    EvolvesTransitive(s, t, u);
  }

  lemma {:induction false} TraceKeeps(name: string, start: Server<Secret>, trace: seq<Attempt>, i: nat)
    requires OnlyWriters(name, start, trace) && i < |trace|
    ensures Keeps(name, start, trace[i].at)
  {
    if i == 0 {
      assert Before(start, trace, 0) == start;
      KeepsTransitive(name, start, trace[0].read, trace[0].at);
    } else {
      assert Before(start, trace, i) == trace[i - 1].at;
      TraceKeeps(name, start, trace, i - 1);
      KeepsTransitive(name, start, trace[i - 1].at, trace[i].read);
      KeepsTransitive(name, start, trace[i].read, trace[i].at);
    }
  }

  /** As long as others do what writers may do, a whole call keeps what every write keeps: a usable Secret is not touched, none is replaced. */
  lemma CallsKeep(name: string, generated: Secret, start: Server<Secret>, trace: seq<Attempt>, r: Result<()>, end: Server<Secret>)
    requires Valid(start) && Usable(generated) && Unfolds(name, start, trace) && Decided(name, generated, trace, r, end)
    requires OnlyWriters(name, start, trace)
    ensures Keeps(name, start, end)
  {
    var last := trace[|trace| - 1];
    TraceKeeps(name, start, trace, |trace| - 1);
    if r.Ok? && !FoundUsable(name, last.read) {
      LastReadIsPinned(name, start, trace);
      SubmitKeeps(last.at, name, ApiServer.Get(last.read, name), generated);
      KeepsTransitive(name, start, last.at, end);
    }
  }

  lemma CallMeans(name: string, generated: Secret, start: Server<Secret>, trace: seq<Attempt>, r: Result<()>, end: Server<Secret>)
    requires Valid(start) && Usable(generated) && Unfolds(name, start, trace) && Decided(name, generated, trace, r, end)
    ensures trace[0] == Attempt(start, start) ==> r == Ok(()) && end == Ensured(start, name, generated)
    ensures r.Ok? ==> FoundUsable(name, end)
    ensures r.Err? ==> trace[|trace| - 1].at != trace[|trace| - 1].read
    ensures OnlyWriters(name, start, trace) ==> Keeps(name, start, end)
  {
    if trace[0] == Attempt(start, start) { UndisturbedCallsSucceed(name, generated, start, trace, r, end); }
    SuccessLeavesUsableSecret(name, generated, start, trace, r, end);
    if OnlyWriters(name, start, trace) { CallsKeep(name, generated, start, trace, r, end); }
  }

  // Any number of writers, one API call at a time.

  /** Where a writer is in its attempt. A conflict sends it back to reading. */
  datatype Place = Reading(generated: Secret) | Writing(generated: Secret, got: Result<Object<Secret>>)

  datatype State = State(server: Server<Secret>, writers: map<nat, Place>)

  /** `Elsewhere` is a client that leaves this Secret alone, `Foreign` one that may do anything. */
  datatype Action =
    | Begin(w: nat, generated: Secret)
    | Read(w: nat)
    | Write(w: nat)
    | Stop(w: nat)
    | Elsewhere(server: Server<Secret>)
    | Foreign(server: Server<Secret>)

  ghost function Init(): State {
    State(ApiServer.Empty(), map[])
  }

  ghost function Become(s: State, w: nat, place: Place): State {
    s.(writers := s.writers[w := place])
  }

  ghost function Finish(s: State, w: nat): State {
    s.(writers := s.writers - {w})
  }

  ghost function DoRead(s: State, name: string, w: nat): State
    requires w in s.writers && s.writers[w].Reading?
  {
    if FoundUsable(name, s.server) then Finish(s, w)
    else Become(s, w, Writing(s.writers[w].generated, ApiServer.Get(s.server, name)))
  }

  ghost function DoWrite(s: State, name: string, w: nat): State
    requires w in s.writers && s.writers[w].Writing?
  {
    var Writing(generated, got) := s.writers[w];
    match Submit(s.server, name, got, generated)
    case Ok(server) => Finish(s.(server := server), w)
    case Err(e) => if e == Conflict then Become(s, w, Reading(generated)) else Finish(s, w)
  }

  ghost predicate Untouched(name: string, s: Server<Secret>, t: Server<Secret>) {
    (name in s.objects <==> name in t.objects) && (name in s.objects ==> t.objects[name] == s.objects[name])
  }

  /** A sync may begin at any time, whatever caches say. */
  ghost function Perform(s: State, name: string, action: Action): State {
    match action
    case Begin(w, generated) => if w in s.writers || !Usable(generated) then s else Become(s, w, Reading(generated))
    case Read(w) => if w in s.writers && s.writers[w].Reading? then DoRead(s, name, w) else s
    case Write(w) => if w in s.writers && s.writers[w].Writing? then DoWrite(s, name, w) else s
    case Stop(w) => Finish(s, w)
    case Elsewhere(server) => if Evolves(s.server, server) && Untouched(name, s.server, server) then s.(server := server) else s
    case Foreign(server) => if Evolves(s.server, server) then s.(server := server) else s
  }

  ghost function Run(name: string, actions: seq<Action>): State {
    if actions == [] then Init() else Perform(Run(name, actions[..|actions| - 1]), name, actions[|actions| - 1])
  }

  ghost predicate WriterOk(s: State, name: string, place: Place) {
    Usable(place.generated) && (place.Writing? ==> Pinned(s.server, name, place.got))
  }

  ghost predicate Inv(s: State, name: string) {
    Valid(s.server) && forall w <- s.writers :: WriterOk(s, name, s.writers[w])
  }

  lemma WriteKeeps(s: State, name: string, w: nat)
    requires Inv(s, name) && w in s.writers && s.writers[w].Writing?
    ensures Keeps(name, s.server, DoWrite(s, name, w).server)
  {
    var Writing(generated, got) := s.writers[w];
    assert WriterOk(s, name, s.writers[w]);
    if Submit(s.server, name, got, generated).Ok? {
      SubmitKeeps(s.server, name, got, generated);
    }
  }

  /** Every step but a foreign one keeps what a writer must keep, and every step keeps the invariant. */
  lemma PerformKeeps(s: State, name: string, action: Action)
    requires Inv(s, name)
    ensures Inv(Perform(s, name, action), name)
    ensures !action.Foreign? ==> Keeps(name, s.server, Perform(s, name, action).server)
  {
    var t := Perform(s, name, action);
    assert Evolves(s.server, t.server) && (!action.Foreign? ==> Keeps(name, s.server, t.server)) by {
      if action.Write? && action.w in s.writers && s.writers[action.w].Writing? {
        WriteKeeps(s, name, action.w);
      }
    }
    forall w <- t.writers ensures WriterOk(t, name, t.writers[w]) {
      assert w in s.writers ==> WriterOk(s, name, s.writers[w]);
      if w in s.writers && s.writers[w] == t.writers[w] && s.writers[w].Writing? {
        PinnedStays(s.server, t.server, name, s.writers[w].got);
      }
    }
  }

  lemma {:induction false} RunKeeps(name: string, actions: seq<Action>)
    ensures Inv(Run(name, actions), name)
  {
    if actions != [] {
      RunKeeps(name, actions[..|actions| - 1]);
      PerformKeeps(Run(name, actions[..|actions| - 1]), name, actions[|actions| - 1]);
    }
  }

  lemma {:induction false} MoreKeeps(name: string, actions: seq<Action>, more: seq<Action>)
    requires forall action <- more :: !action.Foreign?
    ensures Keeps(name, Run(name, actions).server, Run(name, actions + more).server)
  {
    if more == [] {
      assert actions + more == actions;
      RunKeeps(name, actions);
    } else {
      var all, init := actions + more, more[..|more| - 1];
      assert all[..|all| - 1] == actions + init;
      MoreKeeps(name, actions, init);
      RunKeeps(name, actions + init);
      PerformKeeps(Run(name, actions + init), name, more[|more| - 1]);
      KeepsTransitive(name, Run(name, actions).server, Run(name, actions + init).server, Run(name, all).server);
    }
  }

  /**
   However the Secret came to be, once it is usable no interleaving of any number of writers, with
   whatever they have read before, changes its content or even its version.
   */
  lemma OnceUsableNeverTouched(name: string, actions: seq<Action>, more: seq<Action>)
    requires FoundUsable(name, Run(name, actions).server)
    requires forall action <- more :: !action.Foreign?
    ensures Untouched(name, Run(name, actions).server, Run(name, actions + more).server)
  {
    MoreKeeps(name, actions, more);
  }

  /** Racing creations have one winner: once the Secret is there, it stays the same object, with the same metadata. */
  lemma OneCreationWins(name: string, actions: seq<Action>, more: seq<Action>)
    requires name in Run(name, actions).server.objects
    requires forall action <- more :: !action.Foreign?
    ensures var before, after := Run(name, actions).server.objects, Run(name, actions + more).server.objects;
      name in after && after[name].uid == before[name].uid && after[name].body.meta == before[name].body.meta
  {
    MoreKeeps(name, actions, more);
  }

  /** A write that goes through, in any reachable state, hits exactly the version its writer read as unusable. */
  lemma WritesHitWhatWasRead(name: string, actions: seq<Action>, w: nat)
    requires var s := Run(name, actions);
      w in s.writers && s.writers[w].Writing? && Submit(s.server, name, s.writers[w].got, s.writers[w].generated).Ok?
    ensures var s := Run(name, actions);
      var got := s.writers[w].got;
      && (got.Ok? ==> name in s.server.objects && s.server.objects[name] == got.value && !Usable(got.value.body))
      && FoundUsable(name, DoWrite(s, name, w).server)
  {
    RunKeeps(name, actions);
    var s := Run(name, actions);
    assert WriterOk(s, name, s.writers[w]);
    SubmitKeeps(s.server, name, s.writers[w].got, s.writers[w].generated);
  }
}
