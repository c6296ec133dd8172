/** The steps of the session protocol are the calls that storages and garbage collector make. */
module Refinement {
  import opened Options
  import opened ApiServer
  import Crud
  import AuthorizeCode
  import GarbageCollector
  import Lifetimes
  import Sessions

  /** The same authcode, as a stored Secret and as a record of the protocol. */
  ghost predicate SameCode(o: Object<Crud.Secret<AuthorizeCode.Session>>, p: Object<Sessions.Record>) {
    && o.uid == p.uid && o.rv == p.rv
    && Crud.FromSecret(AuthorizeCode.TYPE_LABEL_VALUE, o.body) == Crud.Success(o.body.data)
    && o.body.data.version == AuthorizeCode.STORAGE_VERSION && o.body.data.requestID != ""
    && p.body.kind == Sessions.AuthCode
    && o.body.data.active == p.body.active
    && o.body.data.requestID == p.body.request
  }

  /** Both stores hold the same under a name: nothing, or the same code. */
  ghost predicate SameAt(name: string, server: Server<Crud.Secret<AuthorizeCode.Session>>, s: Sessions.State) {
    && server.next == s.server.next
    && (name in server.objects <==> name in s.server.objects)
    && (name in server.objects ==> SameCode(server.objects[name], s.server.objects[name]))
  }

  /** The protocol's first step goes the way that reading the session goes. */
  lemma ReadingAgrees(name: string, seen: Server<Crud.Secret<AuthorizeCode.Session>>, s: Sessions.State, a: nat)
    requires SameAt(name, seen, s) && a in s.actors && s.actors[a] == Sessions.RedeemGet(name)
    ensures var reading := AuthorizeCode.Judge(Crud.Read(seen, AuthorizeCode.TYPE_LABEL_VALUE, name));
      var t := Sessions.Redeem(s, a);
      match reading
      case Usable(session, rv) =>
        a in t.actors && t.actors[a] == Sessions.RedeemMeta(name, rv, s.server.objects[name].body) && session == seen.objects[name].body.data
      case AlreadyUsed(session, _) => a in t.actors && t.actors[a] == Sessions.ReplayList(Sessions.AccessToken, session.requestID)
      case _ => reading == AuthorizeCode.Missing && a !in t.actors
  {
  }

  /** The protocol's second step is the update's own read: it goes on exactly if there still is a code. */
  lemma MetadataReadAgrees(name: string, server: Server<Crud.Secret<AuthorizeCode.Session>>, s: Sessions.State, a: nat, rv: nat, rec: Sessions.Record)
    requires SameAt(name, server, s) && a in s.actors && s.actors[a] == Sessions.RedeemMeta(name, rv, rec)
    ensures var t := Sessions.Redeem(s, a);
      if ApiServer.Get(server, name).Ok? then a in t.actors && t.actors[a] == Sessions.RedeemUpdate(name, rv, rec) else a !in t.actors
  {
  }

  /**
   The protocol's last step succeeds exactly if the code's verdict is that the session was
   invalidated, and then both stores hold the same again: the code, no longer active.
   */
  lemma InvalidationAgrees(name: string, session: AuthorizeCode.Session, rv: nat, at: Server<Crud.Secret<AuthorizeCode.Session>>, s: Sessions.State, a: nat, rec: Sessions.Record)
    requires SameAt(name, at, s) && a in s.actors && s.actors[a] == Sessions.RedeemUpdate(name, rv, rec)
    requires rec.kind == Sessions.AuthCode && session.requestID == rec.request && session.requestID != "" && session.version == AuthorizeCode.STORAGE_VERSION
    ensures var verdict := AuthorizeCode.Decide(AuthorizeCode.Usable(session, rv), at, name);
      var t := Sessions.Redeem(s, a);
      && (verdict == AuthorizeCode.Invalidated <==> t.invalidated == s.invalidated + [name])
      && (verdict == AuthorizeCode.Invalidated ==>
          && a in t.actors && t.actors[a] == Sessions.MintAccess(rec)
          && var after := ApiServer.Update(at, name, rv, at.objects[name].body.(data := session.(active := false))).value;
          SameAt(name, after, t))
      && (verdict != AuthorizeCode.Invalidated ==> a !in t.actors && t.server == s.server && t.invalidated == s.invalidated)
  {
    if name in at.objects && at.objects[name].rv == rv {
      assert |s.invalidated + [name]| == |s.invalidated| + 1;
    }
    assert s.invalidated != s.invalidated + [name] by { assert |s.invalidated + [name]| == |s.invalidated| + 1; }
  }

  /**
   A code that is stored by CreateAuthorizeCodeSession stands for the active record that authorizing
   stores, and becomes due with it.
   */
  lemma CreationAgrees(name: string, server: Server<Crud.Secret<AuthorizeCode.Session>>, s: Sessions.State,
                       request: string, offline: bool, form: string, now: int)
    requires SameAt(name, server, s) && name !in server.objects && name !in s.used && request !in s.sessions && request != ""
    ensures var secret := Crud.ToSecret(AuthorizeCode.TYPE_LABEL_VALUE, now, Lifetimes.StorageLifetime(Sessions.AuthCode),
        AuthorizeCode.Session(true, request, form, AuthorizeCode.STORAGE_VERSION), map[], []);
      && SameAt(name, ApiServer.Create(server, name, secret).value, Sessions.Perform(s, Sessions.Authorize(name, request, offline)))
      && secret.annotations == map[Crud.LIFETIME_ANNOTATION_KEY := Crud.Deadline(Lifetimes.DeadlineSecond(Sessions.AuthCode, now))]
  {
    Crud.OnlyOwnResourceReadsBack(AuthorizeCode.TYPE_LABEL_VALUE, AuthorizeCode.TYPE_LABEL_VALUE, now,
      Lifetimes.StorageLifetime(Sessions.AuthCode), AuthorizeCode.Session(true, request, form, AuthorizeCode.STORAGE_VERSION), map[], []);
  }

  // Listing and deleting tokens by their request ID.

  const REQUEST_ID_LABEL := "storage.pinniped.dev/request-id"

  /** The tokens of one kind, as Secrets of one resource labelled with request IDs and as records of the protocol. */
  ghost predicate SameTokens<T>(server: Server<Crud.Secret<T>>, resource: string, s: Server<Sessions.Record>, kind: Sessions.Kind) {
    && (forall n, request | n in server.objects && Crud.Matches(server.objects[n].body, resource, REQUEST_ID_LABEL, request) ::
          n in s.objects && Sessions.Labelled(s.objects[n].body, kind, request))
    && (forall n, request | n in s.objects && Sessions.Labelled(s.objects[n].body, kind, request) ::
          n in server.objects && Crud.Matches(server.objects[n].body, resource, REQUEST_ID_LABEL, request))
  }

  /** What DeleteByLabel can find is what the protocol's list step can find. */
  lemma ListingAgrees<T>(server: Server<Crud.Secret<T>>, resource: string, s: Server<Sessions.Record>, kind: Sessions.Kind,
                         request: string, names: seq<string>)
    requires SameTokens(server, resource, s, kind)
    ensures Crud.Enumerates(names, Crud.Matching(server, resource, REQUEST_ID_LABEL, request)) <==> Sessions.Lists(s, kind, request, names)
  {
    var found := Crud.Matching(server, resource, REQUEST_ID_LABEL, request);
    assert forall n :: n in found <==> n in s.objects && Sessions.Labelled(s.objects[n].body, kind, request);
  }

  /** A delete of the loop in DeleteByLabel goes through exactly if the protocol's delete step does, and both leave the same tokens. */
  lemma DeletionAgrees<T>(server: Server<Crud.Secret<T>>, resource: string, s: Sessions.State, kind: Sessions.Kind, name: string)
    requires SameTokens(server, resource, s.server, kind) && (name in server.objects <==> name in s.server.objects)
    ensures ApiServer.Delete(server, name, None).Ok? <==> Sessions.Remove(s, name, None).Some?
    ensures Sessions.Remove(s, name, None).Some? ==>
      SameTokens(ApiServer.Delete(server, name, None).value, resource, Sessions.Remove(s, name, None).value.server, kind)
  {
  }

  /** DeleteByLabel fails at once if it lists nothing, and so does a refresh; otherwise both go on to delete what was listed. */
  lemma RefreshListsAlike<T>(server: Server<Crud.Secret<T>>, resource: string, s: Sessions.State, a: nat, rec: Sessions.Record, names: seq<string>)
    requires a in s.actors && (s.actors[a] == Sessions.ListAccess(rec) || s.actors[a] == Sessions.ListRefresh(rec))
    requires var kind := if s.actors[a].ListAccess? then Sessions.AccessToken else Sessions.RefreshToken;
      && SameTokens(server, resource, s.server, kind)
      && Crud.Enumerates(names, Crud.Matching(server, resource, REQUEST_ID_LABEL, rec.request))
    ensures var t := Sessions.Rotate(s, a, names);
      && (names == [] <==> a !in t.actors)
      && (names != [] && s.actors[a].ListAccess? ==> t.actors[a] == Sessions.DeleteAccess(rec, names))
      && (names != [] && s.actors[a].ListRefresh? ==> t.actors[a] == Sessions.DeleteRefresh(rec, names))
  {
    ListingAgrees(server, resource, s.server, if s.actors[a].ListAccess? then Sessions.AccessToken else Sessions.RefreshToken, rec.request, names);
  }

  /** A replayed code lists the same way, but goes on even if there is nothing. */
  lemma ReplayListsAlike<T>(server: Server<Crud.Secret<T>>, resource: string, s: Sessions.State, a: nat, kind: Sessions.Kind, request: string, names: seq<string>)
    requires a in s.actors && s.actors[a] == Sessions.ReplayList(kind, request) && SameTokens(server, resource, s.server, kind)
    requires Crud.Enumerates(names, Crud.Matching(server, resource, REQUEST_ID_LABEL, request))
    ensures var t := Sessions.Replay(s, a, names); a in t.actors && t.actors[a] == Sessions.ReplayDelete(kind, request, names)
  {
    ListingAgrees(server, resource, s.server, kind, request, names);
  }

  /** A token that is created with its request ID as a label stands for the token that the protocol stores. */
  lemma MintingAgrees<T>(server: Server<Crud.Secret<T>>, resource: string, s: Sessions.State, kind: Sessions.Kind, name: string,
                         rec: Sessions.Record, data: T, now: int, lifetime: int)
    requires SameTokens(server, resource, s.server, kind) && name !in server.objects && Sessions.Store(s, name, rec).Some? && rec.kind == kind
    ensures SameTokens(
      ApiServer.Create(server, name, Crud.ToSecret(resource, now, lifetime, data, map[REQUEST_ID_LABEL := rec.request], [])).value,
      resource, Sessions.Store(s, name, rec).value.server, kind)
  {
    var secret := Crud.ToSecret(resource, now, lifetime, data, map[REQUEST_ID_LABEL := rec.request], []);
    assert |REQUEST_ID_LABEL| != |Crud.SECRET_LABEL_KEY|;
    assert forall request :: Crud.Matches(secret, resource, REQUEST_ID_LABEL, request) <==> request == rec.request;
  }

  // Sweeping.

  /** The Secret that the informer shows a sweep, and the version of the protocol's record it stands for. */
  ghost predicate SameSecret(secret: GarbageCollector.Secret, name: string, view: Object<Sessions.Record>) {
    && secret.name == name && secret.uid == view.uid && secret.rv == view.rv
    && secret.storageType.Some? && GarbageCollector.KindOf(secret.storageType.value) == Some(view.body.kind)
    && secret.content.Readable? && secret.content.active == view.body.active && secret.content.offline == view.body.offline
  }

  /** The collector only revokes where the protocol's rule says so, and only deletes the version that the protocol's sweep deletes. */
  lemma SweepCallsAgree(secret: GarbageCollector.Secret, name: string, view: Object<Sessions.Record>, now: int,
                        providers: seq<GarbageCollector.Provider>, upstream: GarbageCollector.Upstream, call: GarbageCollector.Call)
    requires SameSecret(secret, name, view) && call in GarbageCollector.CallsFor(secret, now, providers, upstream)
    ensures GarbageCollector.Due(secret, now)
    ensures call.Revoke? ==> Sessions.Eligible(view.body)
    ensures call.Delete? ==> call == GarbageCollector.Delete(name, Precondition(view.uid, view.rv))
  {
    GarbageCollector.RevocationsOnly(secret, providers, upstream);
    if call in GarbageCollector.Revocation(secret, providers, upstream).0 {
      GarbageCollector.RevokedFromEligible(secret, providers, upstream, call);
    }
  }

  /** The protocol's delete step removes the Secret exactly if that call goes through. */
  lemma SweepDeletesAlike<T>(server: Server<T>, s: Sessions.State, a: nat, name: string, view: Object<Sessions.Record>)
    requires a in s.actors && s.actors[a] == Sessions.SweepDelete(name, view)
    requires name in server.objects <==> name in s.server.objects
    requires name in server.objects ==> server.objects[name].uid == s.server.objects[name].uid && server.objects[name].rv == s.server.objects[name].rv
    ensures var deleted := ApiServer.Delete(server, name, Some(Precondition(view.uid, view.rv)));
      var t := Sessions.Sweep(s, a);
      && a !in t.actors
      && t.server.objects == (if deleted.Ok? then s.server.objects - {name} else s.server.objects)
  {
  }
}
