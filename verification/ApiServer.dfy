/**
 The part of the Kubernetes API that the rest of the project relies on: named objects under
 optimistic concurrency. Every write hands out a version number that was never handed out before,
 so a version number identifies the content it was handed out with.
 */
module ApiServer {
  import opened Options

  datatype Error = AlreadyExists | NotFound | Conflict

  datatype Result<+T> = Ok(value: T) | Err(error: Error)

  datatype Object<+T> = Object(uid: nat, rv: nat, body: T)

  /** `next` is the next number to hand out, both as a uid and as a resourceVersion. */
  datatype Server<T> = Server(objects: map<string, Object<T>>, next: nat)

  /** A delete may be pinned to the uid and resourceVersion that the caller has seen. */
  datatype Precondition = Precondition(uid: nat, rv: nat)

  ghost predicate Valid<T>(s: Server<T>) {
    forall n <- s.objects :: s.objects[n].uid < s.next && s.objects[n].rv < s.next
  }

  function Empty<T>(): Server<T> { Server(map[], 0) }

  function Get<T>(s: Server<T>, name: string): (r: Result<Object<T>>) {
    if name in s.objects then Ok(s.objects[name]) else Err(NotFound)
  }

  function Create<T>(s: Server<T>, name: string, body: T): (r: Result<Server<T>>) {
    if name in s.objects then Err(AlreadyExists)
    else Ok(Server(s.objects[name := Object(s.next, s.next, body)], s.next + 1))
  }

  function Update<T>(s: Server<T>, name: string, rv: nat, body: T): (r: Result<Server<T>>) {
    if name !in s.objects then Err(NotFound)
    else if s.objects[name].rv != rv then Err(Conflict)
    else Ok(Server(s.objects[name := Object(s.objects[name].uid, s.next, body)], s.next + 1))
  }

  function Delete<T>(s: Server<T>, name: string, pre: Option<Precondition>): (r: Result<Server<T>>) {
    if name !in s.objects then Err(NotFound)
    else if pre.Some? && (s.objects[name].uid != pre.value.uid || s.objects[name].rv != pre.value.rv) then Err(Conflict)
    else Ok(Server(s.objects - {name}, s.next))
  }

  /**
   What any number of API calls by any number of clients may have done between `s` and `t`:
   an object that is there at the end was either there, untouched, at the start, or it carries a
   version handed out in between.
   */
  ghost predicate Evolves<T>(s: Server<T>, t: Server<T>) {
    && s.next <= t.next
    && Valid(t)
    && forall n <- t.objects :: (n in s.objects && t.objects[n] == s.objects[n]) || s.next <= t.objects[n].rv
  }

  lemma EvolvesTransitive<T>(s: Server<T>, t: Server<T>, u: Server<T>)
    requires Evolves(s, t) && Evolves(t, u)
    ensures Evolves(s, u)
  {
    forall n <- u.objects
      ensures (n in s.objects && u.objects[n] == s.objects[n]) || s.next <= u.objects[n].rv
    {
      if u.objects[n].rv < s.next {
        assert u.objects[n] == t.objects[n];
      }
    }
  }

  /** Every call a client can make is such an evolution. */
  lemma CallsEvolve<T>(s: Server<T>, name: string, rv: nat, body: T, pre: Option<Precondition>)
    requires Valid(s)
    ensures Create(s, name, body).Ok? ==> Evolves(s, Create(s, name, body).value)
    ensures Update(s, name, rv, body).Ok? ==> Evolves(s, Update(s, name, rv, body).value)
    ensures Delete(s, name, pre).Ok? ==> Evolves(s, Delete(s, name, pre).value)
  {
  }

  /**
   A resourceVersion pins the content: whatever happened between a read and a later moment, if the
   version read is still the current one, then the object is still exactly the one that was read.
   */
  lemma VersionPinsContent<T>(s: Server<T>, t: Server<T>, name: string)
    requires Valid(s) && Evolves(s, t)
    requires name in s.objects && name in t.objects && t.objects[name].rv == s.objects[name].rv
    ensures t.objects[name] == s.objects[name]
  {
  }
}
