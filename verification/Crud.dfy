/**
 The storage layer between the OAuth session storages and the Kubernetes API: one Secret per
 signature, updates pinned to a resourceVersion, deletion by label. The store is shared: between
 any two API calls of a method, other clients may act (`OthersAct`).
 */
module Crud {
  import opened Options
  import opened ApiServer
  import SecretNames

  const SECRET_LABEL_KEY := "storage.pinniped.dev/type"
  const LIFETIME_ANNOTATION_KEY := "storage.pinniped.dev/garbage-collect-after"
  const SECRET_VERSION := "1"
  const SECOND: int := 1_000_000_000

  /** An annotation is text; the garbage collection deadline is text that denotes a whole second. */
  datatype Annotation = Text(text: string) | Deadline(second: int)

  datatype Secret<+T> = Secret(
    secretType: string,
    labels: map<string, string>,
    annotations: map<string, Annotation>,
    owners: seq<string>,
    version: string,
    data: T)

  datatype StorageError =
    | Api(error: Error)
    | SecretTypeMismatch
    | SecretLabelMismatch
    | SecretVersionMismatch
    | NoneFound

  datatype Outcome<+V> = Success(value: V) | Failure(error: StorageError)

  function SecretType(resource: string): string {
    "storage.pinniped.dev/" + resource
  }

  /** Formatting the deadline as RFC 3339 drops the fraction of the second. */
  function LifetimeAnnotations(now: int, lifetime: int): map<string, Annotation> {
    if lifetime > 0 then map[LIFETIME_ANNOTATION_KEY := Deadline((now + lifetime) / SECOND)] else map[]
  }

  function ToSecret<T>(resource: string, now: int, lifetime: int, data: T, labels: map<string, string>, owners: seq<string>): Secret<T> {
    Secret(SecretType(resource), labels[SECRET_LABEL_KEY := resource], LifetimeAnnotations(now, lifetime),
           owners, SECRET_VERSION, data)
  }

  function FromSecret<T>(resource: string, secret: Secret<T>): (r: Outcome<T>) {
    if secret.secretType != SecretType(resource) then Failure(SecretTypeMismatch)
    else if (if SECRET_LABEL_KEY in secret.labels then secret.labels[SECRET_LABEL_KEY] else "") != resource then Failure(SecretLabelMismatch)
    else if secret.version != SECRET_VERSION then Failure(SecretVersionMismatch)
    else Success(secret.data)
  }

  /** A stored document is read back by its own resource, whatever labels came with it, and by no other. */
  lemma OnlyOwnResourceReadsBack<T>(resource: string, other: string, now: int, lifetime: int, data: T,
                                    labels: map<string, string>, owners: seq<string>)
    ensures FromSecret(other, ToSecret(resource, now, lifetime, data, labels, owners)) ==
            if other == resource then Success(data) else Failure(SecretTypeMismatch)
  {
    assert resource == SecretType(resource)[|"storage.pinniped.dev/"|..];
    assert other == SecretType(other)[|"storage.pinniped.dev/"|..];
  }

  /** How a document is stored, for any labels: with its resource in type and label, and a deadline of whole seconds if it has a lifetime. */
  lemma StoredAs<T>(resource: string, now: int, lifetime: int, data: T, labels: map<string, string>, owners: seq<string>)
    ensures var s := ToSecret(resource, now, lifetime, data, labels, owners);
      && s.secretType == "storage.pinniped.dev/" + resource && s.version == "1" && s.data == data && s.owners == owners
      && s.labels.Keys == labels.Keys + {"storage.pinniped.dev/type"} && s.labels["storage.pinniped.dev/type"] == resource
      && (forall k <- labels :: k != "storage.pinniped.dev/type" ==> s.labels[k] == labels[k])
    ensures var a := ToSecret(resource, now, lifetime, data, labels, owners).annotations;
      && a.Keys == (if lifetime > 0 then {"storage.pinniped.dev/garbage-collect-after"} else {})
      && (lifetime > 0 ==>
            && a["storage.pinniped.dev/garbage-collect-after"].Deadline?
            && var second := a["storage.pinniped.dev/garbage-collect-after"].second;
               second * 1_000_000_000 <= now + lifetime < (second + 1) * 1_000_000_000)
  {
    assert now + lifetime == (now + lifetime) / SECOND * SECOND + (now + lifetime) % SECOND;
  }

  /** A Secret is read, by whatever resource, exactly if type, label and version are right, and then its data is; type goes before label, and label before version. */
  lemma ReadExactlyIf<T>(resource: string, s: Secret<T>)
    ensures var labelled := "storage.pinniped.dev/type" in s.labels && s.labels["storage.pinniped.dev/type"] == resource;
      var unlabelled := resource == "" && "storage.pinniped.dev/type" !in s.labels;
      var typed := |s.secretType| >= 21 && s.secretType[..21] == "storage.pinniped.dev/" && s.secretType[21..] == resource;
      && (FromSecret(resource, s) == Success(s.data) <==> typed && (labelled || unlabelled) && s.version == "1")
      && (FromSecret(resource, s) == Failure(SecretTypeMismatch) <==> !typed)
      && (FromSecret(resource, s) == Failure(SecretLabelMismatch) <==> typed && !labelled && !unlabelled)
      && (FromSecret(resource, s) == Failure(SecretVersionMismatch) <==> typed && (labelled || unlabelled) && s.version != "1")
  {
    assert SecretType(resource)[..21] == "storage.pinniped.dev/" && SecretType(resource)[21..] == resource;
    if |s.secretType| >= 21 {
      assert s.secretType == s.secretType[..21] + s.secretType[21..];
    }
  }

  /** What a client finds under a name: the version and the document, or why there is none. */
  function Read<T>(server: Server<Secret<T>>, resource: string, name: string): Outcome<(nat, T)> {
    match ApiServer.Get(server, name)
    case Err(e) => Failure(Api(e))
    case Ok(o) =>
      match FromSecret(resource, o.body)
      case Success(data) => Success((o.rv, data))
      case Failure(e) => Failure(e)
  }

  predicate Matches<T>(secret: Secret<T>, resource: string, labelName: string, value: string) {
    && SECRET_LABEL_KEY in secret.labels && secret.labels[SECRET_LABEL_KEY] == resource
    && labelName in secret.labels && secret.labels[labelName] == value
  }

  function Matching<T>(server: Server<Secret<T>>, resource: string, labelName: string, value: string): set<string> {
    set n | n in server.objects && Matches(server.objects[n].body, resource, labelName, value)
  }

  ghost predicate Enumerates(names: seq<string>, keys: set<string>) {
    && (forall i, j :: 0 <= i < j < |names| ==> names[i] != names[j])
    && (forall n :: n in names <==> n in keys)
  }

  method Enumerate(keys: set<string>) returns (names: seq<string>)
    ensures Enumerates(names, keys)
  {
    names := [];
    var left := keys;
    while left != {}
      invariant left <= keys
      invariant Enumerates(names, keys - left)
      decreases left
    {
      var n :| n in left;
      names := names + [n];
      left := left - {n};
    }
  }

  class SecretsStorage<T> {
    const resource: string
    const lifetime: int
    var server: Server<Secret<T>>
    /** Names for which a delete issued by this client went through, in order. */
    ghost var deleted: seq<string>

    constructor (resource: string, lifetime: int, server: Server<Secret<T>>)
      requires Valid(server)
      ensures this.resource == resource && this.lifetime == lifetime
      ensures this.server == server && deleted == []
    {
      this.resource, this.lifetime, this.server := resource, lifetime, server;
      deleted := [];
    }

    /** Whatever the rest of the world does to the store. Callers only know that it was done by API calls. */
    method OthersAct()
      requires Valid(server)
      modifies this`server
      ensures Evolves(old(server), server)
    {
    }

    function Name(signature: string): string
      requires SecretNames.IsByteString(signature)
    {
      SecretNames.GetName(resource, signature)
    }

    /** `at` is the store at the moment the create was decided. */
    method Create(signature: string, data: T, labels: map<string, string>, owners: seq<string>, now: int)
      returns (r: Outcome<nat>, ghost at: Server<Secret<T>>)
      requires Valid(server) && SecretNames.IsByteString(signature)
      modifies this`server
      ensures Valid(server) && Evolves(old(server), at)
      ensures r.Success? <==> Name(signature) !in at.objects
      ensures r.Success? ==>
        && r.value == at.next
        && server == ApiServer.Create(at, Name(signature), ToSecret(resource, now, lifetime, data, labels, owners)).value
      ensures r.Failure? ==> r.error == Api(AlreadyExists) && server == at
    {
      var name := Name(signature);
      var secret := ToSecret(resource, now, lifetime, data, labels, owners);
      OthersAct();
      at := server;
      match ApiServer.Create(server, name, secret) {
        case Ok(s) =>
          server := s;
          r := Success(s.objects[name].rv);
        case Err(e) =>
          r := Failure(Api(e));
      }
    }

    method Get(signature: string) returns (r: Outcome<(nat, T)>)
      requires Valid(server) && SecretNames.IsByteString(signature)
      modifies this`server
      ensures Evolves(old(server), server)
      ensures r == Read(server, resource, Name(signature))
    {
      OthersAct();
      match ApiServer.Get(server, Name(signature)) {
        case Err(e) => r := Failure(Api(e));
        case Ok(o) =>
          match FromSecret(resource, o.body) {
            case Success(data) => r := Success((o.rv, data));
            case Failure(e) => r := Failure(e);
          }
      }
    }

    /**
     A successful update replaces exactly the version the caller named. If the caller got that
     version from an earlier read, its labels, annotations and owners are kept, although they are
     copied from another read.
     */
    method Update(signature: string, resourceVersion: nat, data: T)
      returns (r: Outcome<nat>, ghost at: Server<Secret<T>>)
      requires Valid(server) && SecretNames.IsByteString(signature)
      modifies this`server
      ensures Valid(server) && Evolves(old(server), at)
      ensures r == if Name(signature) !in at.objects then Failure(Api(NotFound))
                   else if at.objects[Name(signature)].rv != resourceVersion then Failure(Api(Conflict))
                   else Success(at.next)
      ensures r.Failure? ==> server == at
      ensures r.Success? ==>
        && Name(signature) in server.objects
        && var became := server.objects[Name(signature)].body;
        && server == ApiServer.Update(at, Name(signature), resourceVersion, became).value
        && became.secretType == SecretType(resource) && became.version == SECRET_VERSION && became.data == data
      ensures r.Success? && resourceVersion < old(server).next ==>
        var was, became := at.objects[Name(signature)].body, server.objects[Name(signature)].body;
        became.labels == was.labels && became.annotations == was.annotations && became.owners == was.owners
    {
      var name := Name(signature);
      OthersAct();
      ghost var read := server;
      match ApiServer.Get(server, name) {
        case Err(e) =>
          at := server;
          r := Failure(Api(e));
        case Ok(o) =>
          var secret := Secret(SecretType(resource), o.body.labels, o.body.annotations, o.body.owners, SECRET_VERSION, data);
          OthersAct();
          at := server;
          EvolvesTransitive(old(server), read, at);
          match ApiServer.Update(server, name, resourceVersion, secret) {
            case Ok(s) =>
              if resourceVersion < read.next {
                VersionPinsContent(read, at, name);
              }
              server := s;
              r := Success(s.objects[name].rv);
            case Err(e) =>
              r := Failure(Api(e));
          }
      }
    }

    /**
     Deletes what a listing found, one by one, and gives up at the first delete that loses a race.
     Success means that something was found and that every delete was this client's own.
     */
    method DeleteByLabel(labelName: string, value: string)
      returns (r: Outcome<()>, ghost at: Server<Secret<T>>, ghost names: seq<string>)
      requires Valid(server)
      modifies this`server, this`deleted
      ensures Valid(server) && Evolves(old(server), at) && Evolves(at, server)
      ensures Enumerates(names, Matching(at, resource, labelName, value))
      ensures forall n :: n in names <==>
        && n in at.objects
        && "storage.pinniped.dev/type" in at.objects[n].body.labels && at.objects[n].body.labels["storage.pinniped.dev/type"] == resource
        && labelName in at.objects[n].body.labels && at.objects[n].body.labels[labelName] == value
      ensures r.Success? ==> names != [] && deleted == old(deleted) + names
      ensures r.Success? ==> forall n <- names :: n !in server.objects || at.next <= server.objects[n].rv
      ensures r == Failure(NoneFound) <==> names == []
      ensures names == [] ==> deleted == old(deleted) && server == at
      ensures r.Failure? && names != [] ==>
        && r.error == Api(NotFound)
        && exists k :: 0 <= k < |names| && deleted == old(deleted) + names[..k] && names[k] !in server.objects
    {
      OthersAct();
      at := server;
      var list := Enumerate(Matching(server, resource, labelName, value));
      names := list;
      if |list| == 0 {
        assert deleted == old(deleted) + names[..0];
        return Failure(NoneFound), at, names;
      }
      var i := 0;
      while i < |list|
        invariant 0 <= i <= |list|
        invariant Valid(server) && Evolves(at, server)
        invariant deleted == old(deleted) + names[..i]
        invariant forall j :: 0 <= j < i ==> list[j] !in server.objects || at.next <= server.objects[list[j]].rv
      {
        ghost var before := server;
        OthersAct();
        EvolvesTransitive(at, before, server);
        match ApiServer.Delete(server, list[i], Option<Precondition>.None) {
          case Err(e) =>
            return Failure(Api(e)), at, names;
          case Ok(s) =>
            CallsEvolve(server, list[i], 0, server.objects[list[i]].body, Option<Precondition>.None);
            EvolvesTransitive(at, server, s);
            server := s;
            deleted := deleted + [list[i]];
        }
        i := i + 1;
      }
      assert names[..i] == names;
      r := Success(());
    }
  }
}
