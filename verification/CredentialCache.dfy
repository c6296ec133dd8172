/**
 The kubectl plugin's credential cache file. Every transaction reads the file, throws out what has
 expired, does its work, throws out and sorts again, and writes the file back. Times are
 nanoseconds, but the file only keeps whole seconds. The clock is read many times during one
 transaction and may move on between any two readings.
 */
module CredentialCache {
  import opened Options
  import opened Sorting

  const SECOND: int := 1_000_000_000
  const MAX_CACHE_DURATION: int := 3600 * SECOND

  datatype Credential = Credential(token: string, expiration: Option<int>)

  datatype Entry = Entry(key: string, created: int, lastUsed: int, credential: Option<Credential>)

  function Seconds(t: int): int { t / SECOND * SECOND }

  /** A credential, and an entry, as the file holds them. */
  function StoredCredential(c: Option<Credential>): Option<Credential> {
    if c.Some? && c.value.expiration.Some? then Some(c.value.(expiration := Some(Seconds(c.value.expiration.value)))) else c
  }

  function Stored(e: Entry): Entry {
    Entry(e.key, Seconds(e.created), Seconds(e.lastUsed), StoredCredential(e.credential))
  }

  function StoredAll(es: seq<Entry>): seq<Entry> {
    seq(|es|, i requires 0 <= i < |es| => Stored(es[i]))
  }

  /** An entry may be used at time t. */
  predicate AliveAt(e: Entry, t: int) {
    && e.credential.Some?
    && e.credential.value.expiration.Some?
    && t <= e.credential.value.expiration.value
    && t - MAX_CACHE_DURATION <= e.created
  }

  predicate Older(a: Entry, b: Entry) { a.created < b.created }

  function Key(e: Entry): string { e.key }

  /** The specification: a map that remembers what was last put, and only says so while that is alive. */
  function Lookup(spec: map<string, Entry>, key: string, t: int): (r: Option<Credential>) {
    if key in spec && AliveAt(spec[key], t) then spec[key].credential else None
  }

  /** The creation time a Put between t0 and t1 leaves: the old one if the entry was alive, else that of the Put. */
  ghost predicate Continues(spec: map<string, Entry>, key: string, created: int, t0: int, t1: int) {
    || (key in spec && AliveAt(spec[key], t0) && created == spec[key].created)
    || (Lookup(spec, key, t1) == None && t0 - SECOND < created <= t1)
  }

  ghost predicate Agree(a: Entry, b: Entry) {
    a.key == b.key && a.created == b.created && a.credential == b.credential
  }

  /** `es` holds nothing but what the map holds, and everything that is alive in it at time t. */
  ghost predicate Holds(es: seq<Entry>, spec: map<string, Entry>, t: int) {
    && DistinctKeys(Key, es)
    && (forall e <- es :: e.key in spec && Agree(e, spec[e.key]))
    && (forall k <- spec :: AliveAt(spec[k], t) ==> exists e <- es :: e.key == k)
  }

  ghost predicate WellFormedSpec(spec: map<string, Entry>) {
    forall k <- spec :: spec[k].key == k && Stored(spec[k]) == spec[k]
  }

  /** What is left in the file for the key was last used in between; everything else was in the file before, as it is. */
  ghost predicate Marked(before: seq<Entry>, after: seq<Entry>, key: string, t0: int, t1: int) {
    forall e <- after :: if e.key == key then t0 - SECOND < e.lastUsed <= t1 else e in before
  }

  /** The same, of what is about to be written. */
  ghost predicate Marking(before: seq<Entry>, es: seq<Entry>, key: string, t0: int, t1: int) {
    forall e <- es :: if e.key == key then t0 <= e.lastUsed <= t1 else Stored(e) in before
  }

  class Cache {
    var file: Option<seq<Entry>>
    var clock: int
    ghost var spec: map<string, Entry>

    ghost predicate Valid()
      reads this
    {
      && WellFormedSpec(spec)
      && match file
         case None => Holds([], spec, clock)
         case Some(es) => Holds(es, spec, clock) && Sorted(Older, es) && forall e <- es :: Stored(e) == e
    }

    constructor (now: int)
      ensures Valid() && spec == map[] && clock == now && file == None
    {
      file, clock, spec := None, now, map[];
    }

    /** Reads the clock. Nothing is known about how far it has moved on. */
    method Now() returns (t: int)
      modifies this`clock
      ensures old(clock) <= t == clock
    {
      var d :| d >= 0;
      clock := clock + d;
      t := clock;
    }

    /**
     Keeps the entries that are alive and sorts them by creation. What is kept was alive when this
     began, and what is dropped is dead when it ends.
     */
    method Normalized(es: seq<Entry>) returns (result: seq<Entry>)
      requires DistinctKeys(Key, es)
      modifies this`clock
      ensures old(clock) <= clock
      ensures DistinctKeys(Key, result) && Sorted(Older, result)
      ensures forall e <- result :: e in es && AliveAt(e, old(clock))
      ensures forall e <- es :: e !in result ==> !AliveAt(e, clock)
    {
      var now := Now();
      var kept := [];
      for i := 0 to |es|
        invariant old(clock) <= now <= clock
        invariant DistinctKeys(Key, kept)
        invariant forall e <- kept :: e in es[..i] && AliveAt(e, old(clock))
        invariant forall e <- es[..i] :: e !in kept ==> !AliveAt(e, clock)
      {
        var e := es[i];
        assert es[..i + 1] == es[..i] + [e];
        if e.credential == None || e.credential.value.expiration == None {
          continue;
        }
        var t := Now();
        if e.credential.value.expiration.value < t {
          continue;
        }
        if e.created < now - MAX_CACHE_DURATION {
          continue;
        }
        forall x <- kept ensures x.key != e.key {
          var j :| 0 <= j < i && es[j] == x;
        }
        kept := kept + [e];
      }
      assert es[..|es|] == es;
      result := StableSort(Older, kept);
      StableSortSorts(Older, kept);
      StableSortKeepsDistinct(Older, Key, kept);
    }

    /** The position of the entry for a key, or the end. */
    method Find(es: seq<Entry>, key: string) returns (i: nat)
      ensures i <= |es| && (i < |es| ==> es[i].key == key)
      ensures i == |es| ==> forall e <- es :: e.key != key
    {
      i := 0;
      while i < |es| && es[i].key != key
        invariant 0 <= i <= |es|
        invariant forall j :: 0 <= j < i ==> es[j].key != key
      {
        i := i + 1;
      }
    }

    /**
     A returned credential was valid when Get was called, and put there no more than an hour before;
     if nothing is returned, none is valid and recent when Get returns.
     */
    method Get(key: string) returns (result: Option<Credential>)
      requires Valid()
      modifies this
      ensures Valid() && spec == old(spec) && old(clock) <= clock
      ensures result.Some? ==> result == Lookup(spec, key, old(clock))
      ensures result.None? ==> Lookup(spec, key, clock) == None
      ensures result.Some? ==>
        && key in spec && result == spec[key].credential && result.value.expiration.Some?
        && old(clock) <= result.value.expiration.value && old(clock) <= spec[key].created + 3600 * 1_000_000_000
      ensures result.None? && key in spec && spec[key].credential.Some? && spec[key].credential.value.expiration.Some? ==>
        spec[key].credential.value.expiration.value < clock || spec[key].created + 3600 * 1_000_000_000 < clock
      ensures old(file).None? ==> file.None?
      ensures old(file).Some? ==> file.Some? && Marked(old(file).value, file.value, key, old(clock), clock)
    {
      result := None;
      if file == None {
        return;
      }
      var es := Normalized(file.value);
      var i := Find(es, key);
      ghost var before := es;
      if i < |es| {
        result := es[i].credential;
        var t := Now();
        es := es[i := es[i].(lastUsed := t)];
      }
      HoldsAfterDropping(file.value, before, spec, clock);
      HoldsAfterTouching(before, es, spec, clock);
      MarkedInPlace(file.value, before, es, i, key, old(clock), clock);
      WriteBack(es, file.value, key, old(clock));
    }

    /** The last half of every transaction: normalize and write to the file. */
    method WriteBack(es: seq<Entry>, ghost before: seq<Entry>, ghost key: string, ghost t0: int)
      requires WellFormedSpec(spec)
      requires Ready(es, spec, clock) && Marking(before, es, key, t0, clock)
      modifies this`file, this`clock
      ensures Valid() && old(clock) <= clock
      ensures file.Some? && Marked(before, file.value, key, t0, clock)
    {
      var kept := Normalized(es);
      HoldsWhenStored(es, kept, spec, clock);
      MarkedWhenStored(before, es, kept, key, t0, old(clock));
      file := Some(StoredAll(kept));
    }

    /** Replaces the credential of the entry for a key, or adds an entry. `i` is its place. */
    method Upsert(es: seq<Entry>, key: string, credential: Option<Credential>) returns (put: seq<Entry>, i: nat, t: int)
      modifies this`clock
      ensures old(clock) <= t == clock
      ensures i <= |es| && i < |put| && put == if i < |es| then es[i := put[i]] else es + [put[i]]
      ensures put[i].key == key && put[i].credential == credential && put[i].lastUsed == t
      ensures i < |es| ==> es[i].key == key && put[i].created == es[i].created
      ensures i == |es| ==> put[i].created == t && forall e <- es :: e.key != key
    {
      i := Find(es, key);
      t := Now();
      if i < |es| {
        put := es[i := es[i].(credential := credential, lastUsed := t)];
      } else {
        put := es + [Entry(key, t, t, credential)];
      }
    }

    /**
     Afterwards the map holds the new credential. The entry keeps its creation time if it was alive,
     and otherwise begins anew.
     */
    method Put(key: string, credential: Option<Credential>)
      requires Valid()
      modifies this
      ensures Valid() && old(clock) <= clock
      ensures key in spec && spec == old(spec)[key := spec[key]]
      ensures spec[key].credential == StoredCredential(credential)
      ensures Continues(old(spec), key, spec[key].created, old(clock), clock)
      ensures file.Some? && Marked(if old(file).None? then [] else old(file).value, file.value, key, old(clock), clock)
    {
      var es := if file == None then [] else file.value;
      ghost var before := es;
      es := Normalized(es);
      ghost var kept := es;
      var i, t;
      es, i, t := Upsert(es, key, credential);
      ghost var entry := es[i];
      PutPrepares(before, kept, es, i, key, spec, old(clock), t);
      spec := spec[key := Stored(entry)];
      WriteBack(es, before, key, old(clock));
    }
  }

  /** All that is needed before the result of a Put is written. */
  lemma PutPrepares(before: seq<Entry>, kept: seq<Entry>, put: seq<Entry>, i: nat, key: string, spec: map<string, Entry>, t0: int, t: int)
    requires WellFormedSpec(spec) && Holds(before, spec, t0) && (forall e <- before :: Stored(e) == e) && t0 <= t
    requires DistinctKeys(Key, kept) && forall e <- kept :: e in before && AliveAt(e, t0)
    requires forall e <- before :: e !in kept ==> !AliveAt(e, t)
    requires i <= |kept| && i < |put| && put == if i < |kept| then kept[i := put[i]] else kept + [put[i]]
    requires put[i].key == key && put[i].lastUsed == t
    requires i < |kept| ==> kept[i].key == key && put[i].created == kept[i].created
    requires i == |kept| ==> put[i].created == t && forall e <- kept :: e.key != key
    ensures Ready(put, spec[key := Stored(put[i])], t) && WellFormedSpec(spec[key := Stored(put[i])])
    ensures Continues(spec, key, Stored(put[i]).created, t0, t)
    ensures Marking(before, put, key, t0, t)
  {
    assert Holds(before, spec, t) by { assert forall k <- spec :: AliveAt(spec[k], t) ==> AliveAt(spec[k], t0); }
    HoldsAfterPut(before, kept, put, i, spec, t);
    SpecAfterPut(spec, put[i]);
    CreationAfterPut(before, kept, key, i, spec, t0, t);
    MarkedInPlace(before, kept, put, i, key, t0, t);
  }

  lemma MarkedWhenStored(before: seq<Entry>, es: seq<Entry>, kept: seq<Entry>, key: string, t0: int, t1: int)
    requires Marking(before, es, key, t0, t1) && forall e <- kept :: e in es
    ensures Marked(before, StoredAll(kept), key, t0, t1)
  {
    var file := StoredAll(kept);
    forall e <- file ensures if e.key == key then t0 - SECOND < e.lastUsed <= t1 else e in before {
      var j :| 0 <= j < |kept| && Stored(kept[j]) == e;
      assert kept[j] in es;
    }
  }

  lemma MarkedInPlace(before: seq<Entry>, kept: seq<Entry>, es: seq<Entry>, i: nat, key: string, t0: int, t: int)
    requires (forall e <- before :: Stored(e) == e) && (forall e <- kept :: e in before) && DistinctKeys(Key, kept)
    requires i <= |kept| && t0 <= t
    requires i < |kept| ==> kept[i].key == key && i < |es| && es[i].key == key && t0 <= es[i].lastUsed <= t && es == kept[i := es[i]]
    requires i == |kept| ==> (forall e <- kept :: e.key != key) && (es == kept || (|es| == i + 1 && es[i].key == key && es[i].lastUsed == t && es == kept + [es[i]]))
    ensures Marking(before, es, key, t0, t)
  {
    forall e <- es ensures if e.key == key then t0 <= e.lastUsed <= t else Stored(e) in before {
      var j :| 0 <= j < |es| && es[j] == e;
      if j != i {
        assert kept[j] in kept && kept[j].key != key;
      }
    }
  }

  lemma HoldsAfterDropping(es: seq<Entry>, kept: seq<Entry>, spec: map<string, Entry>, t: int)
    requires Holds(es, spec, t) && DistinctKeys(Key, kept)
    requires forall e <- kept :: e in es
    requires forall e <- es :: e !in kept ==> !AliveAt(e, t)
    ensures Holds(kept, spec, t)
  {
  }

  lemma HoldsAfterTouching(es: seq<Entry>, touched: seq<Entry>, spec: map<string, Entry>, t: int)
    requires Holds(es, spec, t) && |touched| == |es|
    requires forall i :: 0 <= i < |es| ==> Agree(touched[i], es[i])
    ensures Holds(touched, spec, t)
  {
  }

  /** What `es` says once it is written to the file. */
  ghost predicate Ready(es: seq<Entry>, spec: map<string, Entry>, t: int) {
    && DistinctKeys(Key, es)
    && (forall e <- es :: e.key in spec && Agree(Stored(e), spec[e.key]))
    && (forall k <- spec :: AliveAt(spec[k], t) ==> exists e <- es :: e.key == k)
  }

  lemma StoringKeepsOrder(kept: seq<Entry>)
    requires DistinctKeys(Key, kept) && Sorted(Older, kept)
    ensures DistinctKeys(Key, StoredAll(kept)) && Sorted(Older, StoredAll(kept))
    ensures forall e <- StoredAll(kept) :: Stored(e) == e
  {
    forall i, j | 0 <= i < j < |kept| ensures !Older(StoredAll(kept)[j], StoredAll(kept)[i]) && StoredAll(kept)[i].key != StoredAll(kept)[j].key {
      assert !Older(kept[j], kept[i]) && Key(kept[i]) != Key(kept[j]);
    }
  }

  lemma HoldsWhenStored(es: seq<Entry>, kept: seq<Entry>, spec: map<string, Entry>, t: int)
    requires Ready(es, spec, t) && DistinctKeys(Key, kept) && Sorted(Older, kept)
    requires forall e <- kept :: e in es
    requires forall e <- es :: e !in kept ==> !AliveAt(e, t)
    ensures Holds(StoredAll(kept), spec, t) && Sorted(Older, StoredAll(kept))
    ensures forall e <- StoredAll(kept) :: Stored(e) == e
  {
    var file := StoredAll(kept);
    StoringKeepsOrder(kept);
    forall e <- file ensures e.key in spec && Agree(e, spec[e.key]) {
      var i :| 0 <= i < |kept| && Stored(kept[i]) == e;
      assert kept[i] in es;
    }
    forall k | k in spec && AliveAt(spec[k], t) ensures exists e <- file :: e.key == k {
      var e :| e in es && e.key == k;
      assert Agree(Stored(e), spec[k]);
      assert AliveAt(e, t);
      var i :| 0 <= i < |kept| && kept[i] == e;
      assert file[i] == Stored(e);
    }
  }

  lemma HoldsAfterPut(es: seq<Entry>, kept: seq<Entry>, put: seq<Entry>, i: nat, spec: map<string, Entry>, t: int)
    requires WellFormedSpec(spec) && Holds(es, spec, t) && DistinctKeys(Key, kept)
    requires forall e <- kept :: e in es
    requires forall e <- es :: e !in kept ==> !AliveAt(e, t)
    requires i < |put| && |kept| <= |put| && i <= |kept|
    requires put == if i < |kept| then kept[i := put[i]] else kept + [put[i]]
    requires if i < |kept| then put[i].key == kept[i].key else forall e <- kept :: e.key != put[i].key
    ensures Ready(put, spec[put[i].key := Stored(put[i])], t)
  {
    HoldsAfterDropping(es, kept, spec, t);
    var key := put[i].key;
    var spec' := spec[key := Stored(put[i])];
    forall k | k in spec' && AliveAt(spec'[k], t) ensures exists e <- put :: e.key == k {
      if k == key {
        assert put[i] in put;
      } else {
        var e :| e in kept && e.key == k;
        var j :| 0 <= j < |kept| && kept[j] == e;
        assert put[j] == e;
      }
    }
  }

  /** An entry that normalization left in place has the map's creation time; if it left none, the map has none alive. */
  lemma CreationAfterPut(es: seq<Entry>, kept: seq<Entry>, key: string, i: nat, spec: map<string, Entry>, t0: int, t1: int)
    requires WellFormedSpec(spec) && Holds(es, spec, t1) && DistinctKeys(Key, kept) && t0 <= t1
    requires forall e <- kept :: e in es && AliveAt(e, t0)
    requires forall e <- es :: e !in kept ==> !AliveAt(e, t1)
    requires i <= |kept| && (i < |kept| ==> kept[i].key == key)
    requires i == |kept| ==> forall e <- kept :: e.key != key
    ensures i < |kept| ==> Continues(spec, key, Seconds(kept[i].created), t0, t1)
    ensures i == |kept| ==> Continues(spec, key, Seconds(t1), t0, t1)
  {
    HoldsAfterDropping(es, kept, spec, t1);
    if i < |kept| {
      assert kept[i] in kept;
    }
  }

  lemma SpecAfterPut(spec: map<string, Entry>, entry: Entry)
    requires WellFormedSpec(spec)
    ensures WellFormedSpec(spec[entry.key := Stored(entry)])
    ensures entry.created - SECOND < Stored(entry).created <= entry.created
  {
  }
}
