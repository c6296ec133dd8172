/**
 The annotations of the impersonation proxy's Service. The CredentialIssuer spec asks for some,
 other actors add theirs, and the controller remembers in a bookkeeping annotation which keys it
 added, so that it can take back what the spec no longer asks for without touching anything else.
 */
module ServiceAnnotations {
  import opened Options
  import opened ApiServer
  import opened Sorting

  const BOOKKEEPING_KEY := "credentialissuer.pinniped.dev/annotation-keys"

  /** An annotation value: plain text, or text that is the JSON of a list of keys. */
  datatype Value = Text(text: string) | KeyList(keys: seq<string>)

  type Annotations = map<string, Value>

  /** `fields` stands for labels, load balancer IP, type and selector, which are simply overwritten. */
  datatype Service = Service(fields: string, other: string, annotations: Annotations)

  // Keys in the order they are recorded in.

  ghost predicate Lists(xs: seq<string>, keys: set<string>) {
    && (forall i, j :: 0 <= i < j < |xs| ==> StringLess(xs[i], xs[j]))
    && (forall k :: k in xs <==> k in keys)
  }

  lemma ListsIsUnique(xs: seq<string>, ys: seq<string>, keys: set<string>)
    requires Lists(xs, keys) && Lists(ys, keys)
    ensures xs == ys
  {
    StringOrder();
    StrictOrderIsUnique(StringLess, xs, ys);
  }

  function Identity(k: string): string { k }

  /** Sorting an enumeration of a set, in whatever order it came, gives its list. */
  lemma SortedListsKeys(xs: seq<string>, keys: set<string>)
    requires DistinctKeys(Identity, xs) && forall k :: k in xs <==> k in keys
    ensures Lists(StableSort(StringLess, xs), keys)
  {
    StringOrder();
    var ys := StableSort(StringLess, xs);
    StableSortSorts(StringLess, xs);
    StableSortKeepsDistinct(StringLess, Identity, xs);
    forall i, j | 0 <= i < j < |ys| ensures StringLess(ys[i], ys[j]) {
      assert Identity(ys[i]) != Identity(ys[j]);
    }
  }

  lemma {:induction false} ListExists(keys: set<string>)
    ensures exists xs :: Lists(xs, keys)
  {
    var xs := AnyEnumeration(keys);
    SortedListsKeys(xs, keys);
  }

  ghost function AnyEnumeration(keys: set<string>): (xs: seq<string>)
    ensures DistinctKeys(Identity, xs) && forall k :: k in xs <==> k in keys
  {
    if keys == {} then [] else
      var k :| k in keys;
      AnyEnumeration(keys - {k}) + [k]
  }

  ghost function SortedKeys(keys: set<string>): (xs: seq<string>)
    ensures Lists(xs, keys)
  {
    ListExists(keys);
    var xs :| Lists(xs, keys);
    xs
  }

  // What a sync does to the annotations.

  /** What the spec asks for, together with the record of it. */
  ghost function Desired(spec: Annotations): Annotations {
    if spec == map[] then map[] else spec[BOOKKEEPING_KEY := KeyList(SortedKeys(spec.Keys))]
  }

  function RecordedKeys(existing: Annotations): seq<string> {
    if BOOKKEEPING_KEY in existing && existing[BOOKKEEPING_KEY].KeyList? then existing[BOOKKEEPING_KEY].keys else []
  }

  ghost function Reconcile(existing: Annotations, spec: Annotations): Annotations {
    var desired := Desired(spec);
    var dropped := set k | k in RecordedKeys(existing) && k !in desired;
    (existing + desired) - dropped - (if spec == map[] then {BOOKKEEPING_KEY} else {})
  }

  /** What the controller wants a Service to be, given what it saw. */
  ghost function Wanted(was: Service, fields: string, spec: Annotations): Service {
    was.(fields := fields, annotations := Reconcile(was.annotations, spec))
  }

  datatype Outcome = Outcome(result: Result<()>, wrote: bool, server: Server<Service>)

  /** How a sync ends, from what the informer showed and what is stored when its write arrives. */
  ghost function SyncOutcome(server: Server<Service>, name: string, fields: string, spec: Annotations, view: Option<Object<Service>>): Outcome {
    if view.Some? && Wanted(view.value.body, fields, spec) == view.value.body then Outcome(Ok(()), false, server)
    else
      var written := match view
        case None => ApiServer.Create(server, name, Service(fields, "", Desired(spec)))
        case Some(o) => ApiServer.Update(server, name, o.rv, Wanted(o.body, fields, spec));
      match written
      case Ok(s) => Outcome(Ok(()), true, s)
      case Err(e) => Outcome(Err(e), false, server)
  }

  class Controller {
    var services: Server<Service>

    method CollectKeys(spec: Annotations) returns (xs: seq<string>)
      ensures xs == SortedKeys(spec.Keys)
    {
      var keys := [];
      var left := spec.Keys;
      while left != {}
        invariant left <= spec.Keys
        invariant DistinctKeys(Identity, keys) && forall k :: k in keys <==> k in spec.Keys - left
        decreases left
      {
        var k :| k in left;
        assert k !in keys;
        keys := keys + [k];
        left := left - {k};
      }
      xs := StableSort(StringLess, keys);
      SortedListsKeys(keys, spec.Keys);
      ListsIsUnique(xs, SortedKeys(spec.Keys), spec.Keys);
    }

    /** The merge of desired into existing annotations, key by key. */
    method MergeAnnotations(existing: Annotations, desired: Annotations) returns (updated: Annotations)
      ensures updated == existing + desired
    {
      updated := existing;
      var left := desired.Keys;
      while left != {}
        invariant left <= desired.Keys
        invariant updated == existing + (desired - left)
        decreases left
      {
        var k :| k in left;
        updated := updated[k := desired[k]];
        left := left - {k};
      }
      assert desired - {} == desired;
    }

    method DropKeys(annotations: Annotations, recorded: seq<string>, desired: Annotations) returns (updated: Annotations)
      ensures updated == annotations - (set k | k in recorded && k !in desired)
    {
      updated := annotations;
      for i := 0 to |recorded|
        invariant updated == annotations - (set k | k in recorded[..i] && k !in desired)
      {
        assert recorded[..i + 1] == recorded[..i] + [recorded[i]];
        if recorded[i] !in desired {
          updated := updated - {recorded[i]};
        }
      }
      assert recorded[..|recorded|] == recorded;
    }

    /**
     `view` is what the informer shows, possibly out of date. A write only goes through if it is not,
     and then leaves exactly the reconciled Service; no write means the view needs none.
     */
    method CreateOrUpdateService(name: string, fields: string, spec: Annotations, view: Option<Object<Service>>)
      returns (r: Result<()>, ghost wrote: bool)
      modifies this
      ensures r.Err? ==> services == old(services)
      ensures view.None? ==>
        && (r.Ok? <==> name !in old(services).objects)
        && (r.Ok? ==> wrote && services == ApiServer.Create(old(services), name, Service(fields, "", Desired(spec))).value)
      ensures view.Some? ==>
        var was := view.value.body;
        var want := Wanted(was, fields, spec);
        && (want == was ==> r.Ok? && !wrote && services == old(services))
        && (want != was ==>
            && (r.Ok? <==> name in old(services).objects && old(services).objects[name].rv == view.value.rv)
            && (r.Ok? ==> wrote && services == ApiServer.Update(old(services), name, view.value.rv, want).value))
      ensures Outcome(r, wrote, services) == SyncOutcome(old(services), name, fields, spec, view)
      ensures r.Ok? && (view.None? || (name in old(services).objects && old(services).objects[name] == view.value)) ==>
        && name in services.objects
        && services.objects[name].body.fields == fields
        && services.objects[name].body.other == if view.None? then "" else view.value.body.other
    {
      wrote := false;
      var keys := CollectKeys(spec);
      var desired := spec;
      if |keys| > 0 {
        desired := desired[BOOKKEEPING_KEY := KeyList(keys)];
      }
      assert desired == Desired(spec) by {
        if |keys| > 0 { assert keys[0] in spec.Keys; }
        assert spec != map[] ==> exists k :: k in spec.Keys && k in keys;
      }
      if view.None? {
        match ApiServer.Create(services, name, Service(fields, "", desired)) {
          case Ok(s) =>
            services := s;
            return Ok(()), true;
          case Err(e) =>
            return Err(e), false;
        }
      }
      var existing := view.value.body;
      var updated := MergeAnnotations(existing.annotations, desired);
      updated := DropKeys(updated, RecordedKeys(existing.annotations), desired);
      if |keys| == 0 {
        updated := updated - {BOOKKEEPING_KEY};
      }
      assert updated == Reconcile(existing.annotations, spec);
      var service := existing.(fields := fields, annotations := updated);
      if service == existing {
        return Ok(()), false;
      }
      match ApiServer.Update(services, name, view.value.rv, service) {
        case Ok(s) =>
          services := s;
          r, wrote := Ok(()), true;
        case Err(e) =>
          r := Err(e);
      }
    }
  }

  // Over whole histories.

  /**
   `seen` is every version that was ever stored: an informer may show any of them, or none.
   `foreign` is what others have put on the Service that is stored, and `written` the spec of the
   last sync that wrote it.
   */
  datatype State = State(server: Server<Service>, seen: set<Object<Service>>, foreign: Annotations, written: Annotations)

  datatype Event =
    | Sync(fields: string, spec: Annotations, view: Option<Object<Service>>)
    | ForeignCreate(service: Service)
    | ForeignSet(key: string, value: Value)
    | ForeignDelete(key: string)
    | ForeignFields(fields: string, other: string)
    | Remove

  ghost function Init(): State {
    State(ApiServer.Empty(), {}, map[], map[])
  }

  ghost function Store(s: State, name: string, server: Server<Service>, foreign: Annotations, written: Annotations): State
    requires name in server.objects
  {
    State(server, s.seen + {server.objects[name]}, foreign, written)
  }

  ghost function DoSync(s: State, name: string, event: Event): State
    requires event.Sync?
  {
    var outcome := SyncOutcome(s.server, name, event.fields, event.spec, event.view);
    if !outcome.wrote then s
    else Store(s, name, outcome.server, if event.view.None? then map[] else s.foreign, event.spec)
  }

  /** Somebody else replaces the Service that is stored. */
  ghost function Edit(s: State, name: string, body: Service, foreign: Annotations): State
    requires name in s.server.objects
  {
    Store(s, name, ApiServer.Update(s.server, name, s.server.objects[name].rv, body).value, foreign, s.written)
  }

  /** The controller may see any version that was ever stored, or none. */
  ghost predicate Shown(s: State, view: Option<Object<Service>>) {
    view.Some? ==> view.value in s.seen
  }

  ghost function Perform(s: State, name: string, event: Event): State {
    match event
    case Sync(_, _, view) => if Shown(s, view) then DoSync(s, name, event) else s
    case ForeignCreate(service) =>
      (match ApiServer.Create(s.server, name, service)
       case Ok(server) => Store(s, name, server, service.annotations, map[])
       case Err(_) => s)
    case Remove => s.(server := s.server.(objects := s.server.objects - {name}))
    case _ =>
      if name !in s.server.objects then s
      else
        var was := s.server.objects[name].body;
        match event
        case ForeignSet(key, value) => Edit(s, name, was.(annotations := was.annotations[key := value]), s.foreign[key := value])
        case ForeignDelete(key) => Edit(s, name, was.(annotations := was.annotations - {key}), s.foreign - {key})
        case ForeignFields(fields, other) => Edit(s, name, was.(fields := fields, other := other), s.foreign)
        case _ => s
  }

  ghost function Run(name: string, events: seq<Event>): State {
    if events == [] then Init() else Perform(Run(name, events[..|events| - 1]), name, events[|events| - 1])
  }

  /** Specs only use keys in `owned`, perhaps the bookkeeping key, and nobody else touches any of these. */
  ghost predicate Separate(owned: set<string>, events: seq<Event>) {
    forall i :: 0 <= i < |events| ==> KeepsApart(owned, events[i])
  }

  ghost predicate IsForeign(owned: set<string>, key: string) {
    key !in owned && key != BOOKKEEPING_KEY
  }

  ghost predicate KeepsApart(owned: set<string>, event: Event) {
    match event
    case Sync(_, spec, _) => spec.Keys <= owned
    case ForeignCreate(service) => forall k <- service.annotations :: IsForeign(owned, k)
    case ForeignSet(key, _) => IsForeign(owned, key)
    case ForeignDelete(key) => IsForeign(owned, key)
    case _ => true
  }

  /** One reconciliation replaces what the old spec asked for by what the new one does, and leaves the rest alone. */
  lemma ReconcileReplacesSpec(foreign: Annotations, last: Annotations, spec: Annotations, owned: set<string>)
    requires last.Keys <= owned && spec.Keys <= owned
    requires forall k <- foreign :: IsForeign(owned, k)
    ensures Reconcile(foreign + Desired(last), spec) == foreign + Desired(spec)
  {
    var existing := foreign + Desired(last);
    assert forall k :: k in RecordedKeys(existing) <==> k in last.Keys;
    var result := Reconcile(existing, spec);
    assert result.Keys == (foreign + Desired(spec)).Keys;
  }

  /** What others put on the Service is theirs, and what the controller wrote is its own. */
  ghost predicate Apart(owned: set<string>, s: State) {
    (forall k <- s.foreign :: IsForeign(owned, k)) && s.written.Keys <= owned
  }

  ghost predicate Inv(owned: set<string>, name: string, s: State) {
    && Valid(s.server)
    && Apart(owned, s)
    && (name in s.server.objects ==>
          && s.server.objects[name].body.annotations == s.foreign + Desired(s.written)
          && s.server.objects[name] in s.seen)
    && (forall o <- s.seen :: o.rv < s.server.next && (name in s.server.objects && s.server.objects[name].rv == o.rv ==> s.server.objects[name] == o))
  }

  ghost predicate Current(s: State, name: string, view: Option<Object<Service>>) {
    view.Some? && name in s.server.objects && s.server.objects[name] == view.value
  }

  /** A write goes through exactly if nothing is stored and nothing was seen, or what was seen is what is stored. */
  lemma WritesNeedCurrentView(owned: set<string>, name: string, s: State, event: Event)
    requires Inv(owned, name, s) && event.Sync? && Shown(s, event.view)
    ensures var outcome := SyncOutcome(s.server, name, event.fields, event.spec, event.view);
      outcome.wrote ==> if event.view.None? then name !in s.server.objects else Current(s, name, event.view)
  {
  }

  lemma SyncKeeps(owned: set<string>, name: string, s: State, event: Event)
    requires Inv(owned, name, s) && event.Sync? && Shown(s, event.view) && KeepsApart(owned, event)
    ensures Inv(owned, name, DoSync(s, name, event))
  {
    WritesNeedCurrentView(owned, name, s, event);
    if Current(s, name, event.view) {
      ReconcileReplacesSpec(s.foreign, s.written, event.spec, owned);
    }
    assert map[] + Desired(event.spec) == Desired(event.spec);
  }

  lemma EditKeeps(owned: set<string>, name: string, s: State, body: Service, foreign: Annotations)
    requires Inv(owned, name, s) && name in s.server.objects
    requires body.annotations == foreign + Desired(s.written) && forall k <- foreign :: IsForeign(owned, k)
    ensures Inv(owned, name, Edit(s, name, body, foreign))
  {
  }

  lemma PerformKeeps(owned: set<string>, name: string, s: State, event: Event)
    requires Inv(owned, name, s) && KeepsApart(owned, event)
    ensures Inv(owned, name, Perform(s, name, event))
  {
    var mine := Desired(s.written);
    match event {
      case Sync(_, _, view) =>
        if Shown(s, view) { SyncKeeps(owned, name, s, event); }
      case ForeignCreate(service) =>
        assert service.annotations + Desired(map[]) == service.annotations;
      case ForeignSet(key, value) =>
        if name in s.server.objects {
          assert (s.foreign + mine)[key := value] == s.foreign[key := value] + mine;
          EditKeeps(owned, name, s, s.server.objects[name].body.(annotations := (s.foreign + mine)[key := value]), s.foreign[key := value]);
        }
      case ForeignDelete(key) =>
        if name in s.server.objects {
          assert (s.foreign + mine) - {key} == (s.foreign - {key}) + mine;
          EditKeeps(owned, name, s, s.server.objects[name].body.(annotations := (s.foreign + mine) - {key}), s.foreign - {key});
        }
      case ForeignFields(fields, other) =>
        if name in s.server.objects {
          EditKeeps(owned, name, s, s.server.objects[name].body.(fields := fields, other := other), s.foreign);
        }
      case Remove =>
    }
  }

  lemma {:induction false} RunKeeps(owned: set<string>, name: string, events: seq<Event>)
    requires Separate(owned, events)
    ensures Inv(owned, name, Run(name, events))
  {
    if events != [] {
      var before, last := events[..|events| - 1], events[|events| - 1];
      RunKeeps(owned, name, before);
      assert KeepsApart(owned, last);
      PerformKeeps(owned, name, Run(name, before), last);
    }
  }

  /**
   Whatever the sequence of spec changes, syncs from views of any age, and foreign edits: the
   annotations that are stored are exactly the foreign ones, what the last sync that wrote was asked
   for, and the bookkeeping key if that was anything.
   */
  lemma StoredIsForeignPlusWritten(owned: set<string>, name: string, events: seq<Event>)
    requires Separate(owned, events)
    ensures var s := Run(name, events);
      name in s.server.objects ==> s.server.objects[name].body.annotations == s.foreign + Desired(s.written) && Apart(owned, s)
  {
    RunKeeps(owned, name, events);
  }

  /** The Service has exactly the foreign annotations and what this spec asks for. */
  ghost predicate Settled(s: State, name: string, spec: Annotations) {
    name in s.server.objects && s.server.objects[name].body.annotations == s.foreign + Desired(spec)
  }

  lemma DesiredIsCancellable(owned: set<string>, foreign: Annotations, a: Annotations, b: Annotations)
    requires (forall k <- foreign :: IsForeign(owned, k)) && a.Keys <= owned && b.Keys <= owned
    requires foreign + Desired(a) == foreign + Desired(b)
    ensures Desired(a) == Desired(b)
  {
    SumCancels(foreign, Desired(a), Desired(b)) by {
      assert forall k <- Desired(a) :: k in owned || k == BOOKKEEPING_KEY;
      assert forall k <- Desired(b) :: k in owned || k == BOOKKEEPING_KEY;
    }
  }

  lemma SumCancels(foreign: Annotations, x: Annotations, y: Annotations)
    requires foreign.Keys !! x.Keys && foreign.Keys !! y.Keys && foreign + x == foreign + y
    ensures x == y
  {
    assert x == (foreign + x) - foreign.Keys;
    assert y == (foreign + y) - foreign.Keys;
  }

  /**
   A sync that reports success has settled the Service if and only if it saw none, or what it saw was
   current, or the Service that is stored already had what the spec asks for. In particular a sync
   from an old view may succeed, because that view needs no change, and leave dropped keys in place.
   */
  lemma SuccessSettlesExactlyIf(owned: set<string>, name: string, events: seq<Event>, sync: Event)
    requires Separate(owned, events + [sync]) && sync.Sync? && Shown(Run(name, events), sync.view)
    requires SyncOutcome(Run(name, events).server, name, sync.fields, sync.spec, sync.view).result.Ok?
    ensures var s := Run(name, events);
      Settled(Perform(s, name, sync), name, sync.spec) <==>
        || sync.view.None?
        || Current(s, name, sync.view)
        || (name in s.server.objects && Desired(s.written) == Desired(sync.spec))
  {
    var s := Run(name, events);
    assert KeepsApart(owned, (events + [sync])[|events|]);
    RunKeeps(owned, name, events) by { assert forall i :: 0 <= i < |events| ==> (events + [sync])[i] == events[i]; }
    SyncSettles(owned, name, s, sync);
  }

  lemma SyncSettles(owned: set<string>, name: string, s: State, sync: Event)
    requires Inv(owned, name, s) && sync.Sync? && Shown(s, sync.view) && KeepsApart(owned, sync)
    requires SyncOutcome(s.server, name, sync.fields, sync.spec, sync.view).result.Ok?
    ensures Settled(DoSync(s, name, sync), name, sync.spec) <==>
        || sync.view.None?
        || Current(s, name, sync.view)
        || (name in s.server.objects && Desired(s.written) == Desired(sync.spec))
  {
    WritesNeedCurrentView(owned, name, s, sync);
    assert map[] + Desired(sync.spec) == Desired(sync.spec);
    if Current(s, name, sync.view) {
      ReconcileReplacesSpec(s.foreign, s.written, sync.spec, owned);
    } else if sync.view.Some? && name in s.server.objects && s.foreign + Desired(s.written) == s.foreign + Desired(sync.spec) {
      DesiredIsCancellable(owned, s.foreign, s.written, sync.spec);
    }
  }

  /**
   A sync that sees no Service where there is none creates it as asked for. One that sees the Service
   as it is always succeeds and leaves the fields, and the spec's annotations next to the foreign
   ones; it leaves the rest alone, and writes nothing if and only if all that was so before.
   */
  lemma SyncFromCurrentView(owned: set<string>, name: string, events: seq<Event>, fields: string, spec: Annotations)
    requires Separate(owned, events) && spec.Keys <= owned
    ensures var s := Run(name, events);
      if name !in s.server.objects then
        var t := Perform(s, name, Sync(fields, spec, None));
        name in t.server.objects && t.server.objects[name].body == Service(fields, "", Desired(spec))
      else
        var was := s.server.objects[name];
        var t := Perform(s, name, Sync(fields, spec, Some(was)));
        && name in t.server.objects
        && t.server.objects[name].uid == was.uid
        && t.server.objects[name].body == Service(fields, was.body.other, s.foreign + Desired(spec))
        && (t.server == s.server <==> was.body.fields == fields && was.body.annotations == s.foreign + Desired(spec))
  {
    RunKeeps(owned, name, events);
    var s := Run(name, events);
    ReconcileReplacesSpec(s.foreign, s.written, spec, owned);
  }

  lemma SpecIsMet(owned: set<string>, foreign: Annotations, spec: Annotations)
    requires spec.Keys <= owned && forall k <- foreign :: IsForeign(owned, k)
    ensures var all := foreign + Desired(spec);
      && (forall k <- owned :: k != BOOKKEEPING_KEY ==> (k in all <==> k in spec))
      && (forall k <- spec :: k != BOOKKEEPING_KEY ==> all[k] == spec[k])
      && (BOOKKEEPING_KEY in all <==> spec != map[])
      && (forall k <- foreign :: k in all && all[k] == foreign[k])
  {
  }

  /**
   Once settled: keys that the spec does not ask for are gone, those it asks for have its values,
   foreign ones are as they were, and the next sync from a current view writes nothing.
   */
  lemma SettledMeans(owned: set<string>, name: string, events: seq<Event>, spec: Annotations)
    requires Separate(owned, events) && spec.Keys <= owned && Settled(Run(name, events), name, spec)
    ensures var s := Run(name, events);
      var o := s.server.objects[name];
      && (forall k <- owned :: k != BOOKKEEPING_KEY ==> (k in o.body.annotations <==> k in spec))
      && (forall k <- spec :: k != BOOKKEEPING_KEY ==> o.body.annotations[k] == spec[k])
      && (BOOKKEEPING_KEY in o.body.annotations <==> spec != map[])
      && (forall k <- s.foreign :: k in o.body.annotations && o.body.annotations[k] == s.foreign[k])
      && SyncOutcome(s.server, name, o.body.fields, spec, Some(o)) == Outcome(Ok(()), false, s.server)
  {
    RunKeeps(owned, name, events);
    var s := Run(name, events);
    SpecIsMet(owned, s.foreign, spec);
    var o := s.server.objects[name];
    assert Wanted(o.body, o.body.fields, spec) == o.body by { ReconcileReplacesSpec(s.foreign, spec, spec, owned); }
  }

  lemma RunOneMore(name: string, events: seq<Event>, event: Event)
    ensures Run(name, events + [event]) == Perform(Run(name, events), name, event)
  {
    assert (events + [event])[..|events|] == events;
  }

  /** The sync of a spec that dropped a key succeeds from an old view, writes nothing, and leaves the key in place. */
  lemma OldViewsLeaveDroppedKeys(name: string)
    ensures var blank := Object(0, 0, Service("", "", map[]));
      var spec := map["a" := Text("b")];
      var events := [ForeignCreate(blank.body), Sync("", spec, Some(blank))];
      var s := Run(name, events);
      && Separate({"a"}, events + [Sync("", map[], Some(blank))])
      && Shown(s, Some(blank))
      && SyncOutcome(s.server, name, "", map[], Some(blank)) == Outcome(Ok(()), false, s.server)
      && name in s.server.objects && "a" in s.server.objects[name].body.annotations
  {
    var blank := Object(0, 0, Service("", "", map[]));
    var spec := map["a" := Text("b")];
    var first, second := ForeignCreate(blank.body), Sync("", spec, Some(blank));
    var events := [first, second];
    assert events == [first] + [second] && [first] == [] + [first];
    RunOneMore(name, [], first);
    RunOneMore(name, [first], second);
    var s1 := Run(name, [first]);
    assert ApiServer.Create(Init().server, name, blank.body) == Ok(Server(map[name := blank], 1));
    assert s1.server == Server(map[name := blank], 1) && s1.seen == {blank};
    assert Reconcile(map[], map[]) == map[];
    assert "a" in Reconcile(map[], spec);
    assert |"a"| != |BOOKKEEPING_KEY|;
    assert (events + [Sync("", map[], Some(blank))])[..2] == events;
  }
}
