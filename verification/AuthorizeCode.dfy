/** Authorization code sessions: created once, read, and marked as used, but never deleted by a client. */
module AuthorizeCode {
  import opened ApiServer
  import opened Crud
  import SecretNames

  const TYPE_LABEL_VALUE := "authcode"
  const STORAGE_VERSION := "4"

  datatype Session = Session(active: bool, requestID: string, request: string, version: string)

  datatype Reading =
    | Usable(session: Session, rv: nat)
    | AlreadyUsed(session: Session, rv: nat)
    | Missing
    | Unreadable(error: StorageError)
    | WrongVersion
    | Malformed

  datatype Verdict = Invalidated | SerializationFailure | NotUsable(reading: Reading) | StorageFailure(error: StorageError)

  /** What the stored document says about the session it holds. */
  function Judge(r: Outcome<(nat, Session)>): Reading {
    match r
    case Failure(Api(NotFound)) => Missing
    case Failure(e) => Unreadable(e)
    case Success((rv, session)) =>
      if session.version != STORAGE_VERSION then WrongVersion
      else if session.requestID == "" then Malformed
      else if !session.active then AlreadyUsed(session, rv)
      else Usable(session, rv)
  }

  /** How an invalidation ends, from what was read and from what is stored when the update arrives. */
  function Decide(reading: Reading, at: Server<Secret<Session>>, name: string): Verdict {
    match reading
    case Usable(_, rv) =>
      if name !in at.objects then StorageFailure(Api(NotFound))
      else if at.objects[name].rv != rv then SerializationFailure
      else Invalidated
    case other => NotUsable(other)
  }

  /** A usable session was stored, and exactly its `active` was changed. */
  ghost predicate UsedUp(at: Server<Secret<Session>>, after: Server<Secret<Session>>, name: string) {
    && name in at.objects
    && var o := at.objects[name];
    && FromSecret(TYPE_LABEL_VALUE, o.body) == Success(o.body.data)
    && o.body.data.active && o.body.data.version == STORAGE_VERSION && o.body.data.requestID != ""
    && after == ApiServer.Update(at, name, o.rv, o.body.(data := o.body.data.(active := false))).value
  }

  /** An update of the version that was read as usable uses up the very session that was read. */
  lemma UpdateUsesUp(seen: Server<Secret<Session>>, at: Server<Secret<Session>>, after: Server<Secret<Session>>,
                     name: string, session: Session, rv: nat)
    requires Valid(seen) && Evolves(seen, at) && Judge(Read(seen, TYPE_LABEL_VALUE, name)) == Usable(session, rv)
    requires name in at.objects && at.objects[name].rv == rv && name in after.objects
    requires var was, became := at.objects[name].body, after.objects[name].body;
      && after == ApiServer.Update(at, name, rv, became).value
      && became.secretType == SecretType(TYPE_LABEL_VALUE) && became.version == SECRET_VERSION && became.data == session.(active := false)
      && became.labels == was.labels && became.annotations == was.annotations && became.owners == was.owners
    ensures UsedUp(at, after, name)
  {
    VersionPinsContent(seen, at, name);
  }

  /** There is a well-formed code of the current storage version under the name. */
  ghost predicate HoldsCode(s: Server<Secret<Session>>, name: string) {
    && name in s.objects
    && var secret := s.objects[name].body;
    && FromSecret("authcode", secret) == Success(secret.data)
    && secret.data.version == "4" && secret.data.requestID != ""
  }

  /**
   An invalidation succeeds if and only if it read an active code and the very same version is still
   there when its update arrives. Another version is a lost race, none a failure of the storage; what
   is not an active code is told apart as used, missing, or not a code.
   */
  lemma VerdictMeans(seen: Server<Secret<Session>>, at: Server<Secret<Session>>, name: string)
    requires Valid(seen) && Evolves(seen, at)
    ensures var verdict := Decide(Judge(Read(seen, TYPE_LABEL_VALUE, name)), at, name);
      var active := HoldsCode(seen, name) && seen.objects[name].body.data.active;
      && (verdict == Invalidated <==> active && name in at.objects && at.objects[name] == seen.objects[name])
      && (verdict == SerializationFailure <==> active && name in at.objects && at.objects[name] != seen.objects[name])
      && (verdict == StorageFailure(Api(NotFound)) <==> active && name !in at.objects)
      && (verdict == NotUsable(Missing) <==> name !in seen.objects)
      && (verdict.NotUsable? && verdict.reading.AlreadyUsed? <==> HoldsCode(seen, name) && !active)
      && (verdict.NotUsable? && verdict.reading.AlreadyUsed? ==> verdict.reading.session == seen.objects[name].body.data)
  {
    if name in seen.objects && name in at.objects && at.objects[name].rv == seen.objects[name].rv {
      VersionPinsContent(seen, at, name);
    }
  }

  class AuthorizeCodeStorage {
    const storage: SecretsStorage<Session>

    constructor (lifetime: int, server: Server<Secret<Session>>)
      requires Valid(server)
      ensures ForCodes() && storage.lifetime == lifetime && storage.server == server
    {
      storage := new SecretsStorage(TYPE_LABEL_VALUE, lifetime, server);
    }

    predicate ForCodes() {
      storage.resource == TYPE_LABEL_VALUE
    }

    method CreateAuthorizeCodeSession(signature: string, requestID: string, request: string, now: int)
      returns (r: Outcome<nat>, ghost at: Server<Secret<Session>>)
      requires ForCodes() && Valid(storage.server) && SecretNames.IsByteString(signature)
      modifies storage`server
      ensures Valid(storage.server) && Evolves(old(storage.server), at)
      ensures r.Success? <==> storage.Name(signature) !in at.objects
      ensures r.Success? ==> storage.server == ApiServer.Create(at, storage.Name(signature),
        ToSecret(TYPE_LABEL_VALUE, now, storage.lifetime, Session(true, requestID, request, STORAGE_VERSION), map[], [])).value
      ensures r.Failure? ==> storage.server == at
      ensures r.Success? && requestID != "" ==>
        && HoldsCode(storage.server, storage.Name(signature))
        && storage.server.objects[storage.Name(signature)].body.data == Session(true, requestID, request, "4")
    {
      r, at := storage.Create(signature, Session(true, requestID, request, STORAGE_VERSION), map[], [], now);
    }

    /**
     Whatever others do in between, a code is only ever invalidated by replacing the very version
     that was read as usable: at that moment it was active, and only `active` changes. `seen` is
     the store when the code was read, `at` when the call was decided.
     */
    method InvalidateAuthorizeCodeSession(signature: string)
      returns (verdict: Verdict, ghost seen: Server<Secret<Session>>, ghost at: Server<Secret<Session>>)
      requires ForCodes() && Valid(storage.server) && SecretNames.IsByteString(signature)
      modifies storage`server
      ensures Valid(storage.server) && Evolves(old(storage.server), seen) && Evolves(seen, at)
      ensures verdict == Decide(Judge(Read(seen, TYPE_LABEL_VALUE, storage.Name(signature))), at, storage.Name(signature))
      ensures verdict == Invalidated ==> UsedUp(at, storage.server, storage.Name(signature))
      ensures verdict != Invalidated ==> storage.server == at
    {
      var read := storage.Get(signature);
      seen := storage.server;
      match Judge(read) {
        case Usable(session, rv) =>
          var r;
          r, at := storage.Update(signature, rv, session.(active := false));
          match r {
            case Success(_) =>
              UpdateUsesUp(seen, at, storage.server, storage.Name(signature), session, rv);
              verdict := Invalidated;
            case Failure(Api(Conflict)) => verdict := SerializationFailure;
            case Failure(e) => verdict := StorageFailure(e);
          }
        case other =>
          at := storage.server;
          verdict := NotUsable(other);
      }
    }
  }
}
