/**
 The client-side middleware machinery: every request to the Kubernetes API passes a list of
 middlewares, each of which may register functions that rewrite the outgoing object and functions
 that rewrite what comes back.
 */
module KubeClient {
  import opened Options

  datatype GVK = GVK(group: string, version: string, kind: string)

  const EMPTY_GVK := GVK("", "", "")

  datatype OwnerRef = OwnerRef(apiVersion: string, rest: string)

  /** `authenticatorGroup` is only there in a TokenCredentialRequest, and optional even then. */
  datatype Object = Object(gvk: GVK, ownerRefs: seq<OwnerRef>, authenticatorGroup: Option<string>, rest: string)

  datatype Verb = Create | Update | Delete | DeleteCollection | Get | List | Watch | Patch | Proxy | OtherVerb

  datatype Info = Info(verb: Verb, group: string, version: string, resource: string, subresource: string)

  /** What a rewriting function leaves behind, and its complaint, if any. It may do both. */
  type Mutator = Object -> (Object, Option<string>)

  /** What a middleware registers for a request. It sees the request and can only add to it. */
  datatype Contribution = Contribution(req: seq<Mutator>, resp: seq<Mutator>)

  type Middleware = Info -> Contribution

  /** `Stream` is the answer to a watch: events up to its end, or up to an error. */
  datatype Body = Single(obj: Object) | Many(gvk: GVK, items: seq<Object>) | Opaque(text: string) | Stream(events: seq<Event>, complete: bool)

  datatype Event = Event(eventType: string, body: Body)

  datatype Reply = Reply(status: int, body: Body)

  /** What reaches the wire: the group, version and kind in the path, and the body if there is one. */
  datatype Wire = Wire(gvk: GVK, body: Option<Object>)

  /** How a request ends: refused before anything was sent, or sent, with what the caller gets to see. */
  datatype Outcome = Refused | Sent(wire: Wire, seen: Option<Reply>)

  datatype MutationResult = MutationResult(origGVK: GVK, newGVK: GVK, mutated: bool)

  type Api = Wire -> Reply

  // Specification of the loops: all functions run, in order, and all complaints are collected.

  function ApplyAll(fs: seq<Mutator>, obj: Object): Object {
    if |fs| == 0 then obj else fs[|fs| - 1](ApplyAll(fs[..|fs| - 1], obj)).0
  }

  function Complaints(fs: seq<Mutator>, obj: Object): seq<string> {
    if |fs| == 0 then []
    else
      var before := ApplyAll(fs[..|fs| - 1], obj);
      Complaints(fs[..|fs| - 1], obj) + (match fs[|fs| - 1](before).1 case None => [] case Some(e) => [e])
  }

  function Contributions(ms: seq<Middleware>, info: Info): Contribution {
    if |ms| == 0 then Contribution([], [])
    else
      var before := Contributions(ms[..|ms| - 1], info);
      var last := ms[|ms| - 1](info);
      Contribution(before.req + last.req, before.resp + last.resp)
  }

  function MutateRequest(c: Contribution, obj: Object): (r: Option<(Object, MutationResult)>) {
    var obj' := ApplyAll(c.req, obj);
    if obj.gvk == EMPTY_GVK || Complaints(c.req, obj) != [] || obj'.gvk == EMPTY_GVK then None
    else Some((obj', MutationResult(obj.gvk, obj'.gvk, |c.resp| != 0 || obj' != obj)))
  }

  function RespondTo(fs: seq<Mutator>, obj: Object): (r: Option<Object>) {
    if Complaints(fs, obj) != [] then None else Some(ApplyAll(fs, obj))
  }

  function RespondToEach(fs: seq<Mutator>, items: seq<Object>): (r: Option<seq<Object>>) {
    if items == [] then Some([])
    else match (RespondToEach(fs, items[..|items| - 1]), RespondTo(fs, items[|items| - 1]))
      case (Some(before), Some(last)) => Some(before + [last])
      case _ => None
  }

  // The response side.

  function BodyGVK(body: Body): Option<GVK> {
    match body case Single(obj) => Some(obj.gvk) case Many(gvk, _) => Some(gvk) case _ => None
  }

  function RestoreGVK(body: Body, result: MutationResult): Body {
    if result.origGVK == result.newGVK || BodyGVK(body) != Some(result.newGVK) then body
    else match body
      case Single(obj) => Single(obj.(gvk := result.origGVK))
      case Many(_, items) => Many(result.origGVK, items)
      case _ => body
  }

  function MutateBody(fs: seq<Mutator>, verb: Verb, origGVK: GVK, body: Body): (r: Option<Body>) {
    if |fs| == 0 || BodyGVK(body) != Some(origGVK) then Some(body)
    else match body
      case Single(obj) =>
        if verb == List then None
        else (match RespondTo(fs, obj) case Some(o) => Some(Single(o)) case None => None)
      case Many(gvk, items) =>
        if verb != List then None
        else (match RespondToEach(fs, items) case Some(os) => Some(Many(gvk, os)) case None => None)
      case _ => Some(body)
  }

  function FixBody(c: Contribution, verb: Verb, result: MutationResult, body: Body): (r: Option<Body>) {
    MutateBody(c.resp, verb, result.origGVK, RestoreGVK(body, result))
  }

  /** Statuses outside 200 to 206 are left to the caller's client library. */
  function FixReply(c: Contribution, verb: Verb, result: MutationResult, reply: Reply): (r: Option<Reply>) {
    if reply.status < 200 || reply.status > 206 then Some(reply)
    else match FixBody(c, verb, result, reply.body)
      case Some(body) => Some(reply.(body := body))
      case None => None
  }

  /** Each event of the stream is fixed on its own, in order, until the stream or a fix fails. */
  function FixEvents(c: Contribution, result: MutationResult, events: seq<Event>): (seq<Event>, bool) {
    if events == [] then ([], true)
    else
      var (out, ok) := FixEvents(c, result, events[..|events| - 1]);
      var last := events[|events| - 1];
      if !ok then (out, false)
      else match FixBody(c, Watch, result, last.body)
        case Some(body) => (out + [Event(last.eventType, body)], true)
        case None => (out, false)
  }

  /** The answer to a watch; only a plain success is a stream, and what cannot be read as one ends with an error. */
  function FixWatch(c: Contribution, result: MutationResult, reply: Reply): Reply {
    if reply.status != 200 then reply
    else match reply.body
      case Stream(events, complete) =>
        var (out, ok) := FixEvents(c, result, events);
        reply.(body := Stream(out, ok && complete))
      case _ => reply.(body := Stream([], false))
  }

  // The request as a whole.

  /** The core group's path has no group in it, so it cannot be rewritten. */
  predicate CanRewritePath(result: MutationResult) {
    result.origGVK == result.newGVK || result.origGVK.group != ""
  }

  function TripWithBody(c: Contribution, info: Info, obj: Object, api: Api): Outcome {
    match MutateRequest(c, obj)
    case None => Refused
    case Some((obj', result)) =>
      if !result.mutated then Sent(Wire(obj.gvk, Some(obj)), Some(api(Wire(obj.gvk, Some(obj)))))
      else if !CanRewritePath(result) then Refused
      else
        var wire := Wire(result.newGVK, Some(obj'));
        if result.origGVK == result.newGVK && |c.resp| == 0 then Sent(wire, Some(api(wire)))
        else Sent(wire, FixReply(c, info.verb, result, api(wire)))
  }

  /** Requests without an object of their own are represented by a bare one of the right kind. */
  function Bare(gvk: GVK): Object {
    Object(gvk, [], None, "")
  }

  function TripWithoutBody(c: Contribution, info: Info, kind: Option<GVK>, api: Api): Outcome {
    if kind == None then Refused
    else
      var gvk := kind.value;
      match MutateRequest(c, Bare(gvk))
      case None => Refused
      case Some((obj', result)) =>
        if !result.mutated then Sent(Wire(gvk, None), Some(api(Wire(gvk, None))))
        else if obj' != Bare(obj'.gvk) || (|c.resp| == 0 && result.origGVK == result.newGVK) || !CanRewritePath(result) then Refused
        else
          var wire := Wire(result.newGVK, None);
          if info.verb == Delete || info.verb == DeleteCollection then Sent(wire, Some(api(wire)))
          else if info.verb == Watch then Sent(wire, Some(FixWatch(c, result, api(wire))))
          else Sent(wire, FixReply(c, info.verb, result, api(wire)))
  }

  function Trip(ms: seq<Middleware>, info: Info, body: Object, kind: Option<GVK>, api: Api): Outcome {
    var c := Contributions(ms, info);
    var hasBody := info.verb == Create || info.verb == Update;
    if (|c.req| == 0 && |c.resp| == 0) || info.verb == Proxy || info.verb == OtherVerb then
      var wire := if hasBody || kind == None then Wire(body.gvk, Some(body)) else Wire(kind.value, None);
      Sent(wire, Some(api(wire)))
    else if hasBody then TripWithBody(c, info, body, api)
    else TripWithoutBody(c, info, kind, api)
  }

  /** A request without an object goes out under its new kind; how its answer is fixed depends on the verb. */
  lemma BodilessTripIs(ms: seq<Middleware>, info: Info, body: Object, gvk: GVK, newGVK: GVK, api: Api)
    requires info.verb in {Get, List, Watch, Patch, Delete, DeleteCollection}
    requires Contributions(ms, info).resp != []
    requires MutateRequest(Contributions(ms, info), Bare(gvk)) == Some((Bare(newGVK), MutationResult(gvk, newGVK, true)))
    requires gvk == newGVK || gvk.group != ""
    ensures var c, result, wire := Contributions(ms, info), MutationResult(gvk, newGVK, true), Wire(newGVK, None);
      Trip(ms, info, body, Some(gvk), api) == Sent(wire,
        if info.verb == Delete || info.verb == DeleteCollection then Some(api(wire))
        else if info.verb == Watch then Some(FixWatch(c, result, api(wire)))
        else FixReply(c, info.verb, result, api(wire)))
  {
    assert Trip(ms, info, body, Some(gvk), api) == TripWithoutBody(Contributions(ms, info), info, Some(gvk), api);
  }

  // The code: a request object that middlewares append to, and loops over what they appended.

  class Request {
    const info: Info
    var reqFuncs: seq<Mutator>
    var respFuncs: seq<Mutator>

    constructor (info: Info)
      ensures this.info == info && reqFuncs == [] && respFuncs == []
    {
      this.info, reqFuncs, respFuncs := info, [], [];
    }

    function Contributed(): Contribution
      reads this
    {
      Contribution(reqFuncs, respFuncs)
    }

    method Handle(ms: seq<Middleware>)
      requires reqFuncs == [] && respFuncs == []
      modifies this
      ensures Contributed() == Contributions(ms, info)
    {
      for i := 0 to |ms|
        invariant Contributed() == Contributions(ms[..i], info)
      {
        var c := ms[i](info);
        reqFuncs := reqFuncs + c.req;
        respFuncs := respFuncs + c.resp;
        assert ms[..i + 1][..i] == ms[..i];
      }
      assert ms[..|ms|] == ms;
    }

    method RunAll(fs: seq<Mutator>, obj: Object) returns (obj': Object, errs: seq<string>)
      ensures obj' == ApplyAll(fs, obj) && errs == Complaints(fs, obj)
    {
      obj', errs := obj, [];
      for i := 0 to |fs|
        invariant obj' == ApplyAll(fs[..i], obj) && errs == Complaints(fs[..i], obj)
      {
        assert fs[..i + 1][..i] == fs[..i];
        var (after, err) := fs[i](obj');
        obj' := after;
        if err.Some? {
          errs := errs + [err.value];
        }
      }
      assert fs[..|fs|] == fs;
    }

    method MutateRequestObject(obj: Object) returns (r: Option<(Object, MutationResult)>)
      ensures r == MutateRequest(Contributed(), obj)
    {
      if obj.gvk == EMPTY_GVK {
        return None;
      }
      var obj', errs := RunAll(reqFuncs, obj);
      if |errs| > 0 || obj'.gvk == EMPTY_GVK {
        return None;
      }
      return Some((obj', MutationResult(obj.gvk, obj'.gvk, |respFuncs| != 0 || obj' != obj)));
    }

    method MutateResponseObject(obj: Object) returns (r: Option<Object>)
      ensures r == RespondTo(respFuncs, obj)
    {
      var obj', errs := RunAll(respFuncs, obj);
      r := if |errs| > 0 then None else Some(obj');
    }

    method MutateListItems(items: seq<Object>) returns (r: Option<seq<Object>>)
      ensures r == RespondToEach(respFuncs, items)
    {
      var done: seq<Object> := [];
      for i := 0 to |items|
        invariant RespondToEach(respFuncs, items[..i]) == Some(done)
      {
        assert items[..i + 1][..i] == items[..i];
        var one := MutateResponseObject(items[i]);
        if one.None? {
          EachFailsOnward(respFuncs, items, i + 1);
          return None;
        }
        done := done + [one.value];
      }
      assert items[..|items|] == items;
      return Some(done);
    }
  }

  lemma {:induction false} EachFailsOnward(fs: seq<Mutator>, items: seq<Object>, i: nat)
    requires i <= |items| && RespondToEach(fs, items[..i]).None?
    ensures RespondToEach(fs, items).None?
    decreases |items| - i
  {
    if i == |items| {
      assert items[..i] == items;
    } else {
      assert items[..i + 1][..i] == items[..i];
      EachFailsOnward(fs, items, i + 1);
    }
  }

  // Watching.

  method SendWatchEvents(c: Contribution, result: MutationResult, events: seq<Event>) returns (out: seq<Event>, ok: bool)
    ensures (out, ok) == FixEvents(c, result, events)
  {
    out, ok := [], true;
    for i := 0 to |events|
      invariant (out, ok) == FixEvents(c, result, events[..i])
    {
      assert events[..i + 1][..i] == events[..i];
      if ok {
        match FixBody(c, Watch, result, events[i].body) {
          case Some(body) => out := out + [Event(events[i].eventType, body)];
          case None => ok := false;
        }
      }
    }
    assert events[..|events|] == events;
  }

  lemma {:induction false} EveryEventIsFixed(c: Contribution, result: MutationResult, events: seq<Event>, out: seq<Event>)
    requires |out| == |events|
    requires forall i :: 0 <= i < |events| ==>
      out[i].eventType == events[i].eventType && FixBody(c, Watch, result, events[i].body) == Some(out[i].body)
    ensures FixEvents(c, result, events) == (out, true)
  {
    if events != [] {
      var last := |events| - 1;
      EveryEventIsFixed(c, result, events[..last], out[..last]);
      assert out == out[..last] + [out[last]];
    }
  }

  /** The client sees a prefix of the stream, event by event, and all of it unless some event cannot be fixed. */
  lemma {:induction false} WatchIsMappedInOrder(c: Contribution, result: MutationResult, events: seq<Event>)
    ensures var (out, ok) := FixEvents(c, result, events);
      && |out| <= |events|
      && (ok <==> |out| == |events|)
      && (forall i :: 0 <= i < |out| ==>
            out[i].eventType == events[i].eventType && Some(out[i].body) == FixBody(c, Watch, result, events[i].body))
      && (!ok ==> FixBody(c, Watch, result, events[|out|].body) == None)
  {
    if events != [] {
      WatchIsMappedInOrder(c, result, events[..|events| - 1]);
    }
  }

  // What holds for every list of middlewares.

  lemma {:induction false} ContributionsSplit(ms: seq<Middleware>, ns: seq<Middleware>, info: Info)
    ensures Contributions(ms + ns, info) ==
            Contribution(Contributions(ms, info).req + Contributions(ns, info).req,
                         Contributions(ms, info).resp + Contributions(ns, info).resp)
  {
    if ns == [] {
      assert ms + ns == ms;
    } else {
      assert (ms + ns)[..|ms + ns| - 1] == ms + ns[..|ns| - 1];
      ContributionsSplit(ms, ns[..|ns| - 1], info);
    }
  }

  lemma {:induction false} OneComplaintIsEnough(fs: seq<Mutator>, gs: seq<Mutator>, obj: Object)
    requires Complaints(fs, obj) != []
    ensures Complaints(fs + gs, obj) != []
  {
    if gs == [] {
      assert fs + gs == fs;
    } else {
      assert (fs + gs)[..|fs + gs| - 1] == fs + gs[..|gs| - 1];
      OneComplaintIsEnough(fs, gs[..|gs| - 1], obj);
    }
  }

  /** The i-th function complains, when its turn comes. */
  predicate Objects(fs: seq<Mutator>, obj: Object, i: nat)
    requires i < |fs|
  {
    fs[i](ApplyAll(fs[..i], obj)).1.Some?
  }

  lemma {:induction false} ComplaintsComeFromFunctions(fs: seq<Mutator>, obj: Object)
    ensures Complaints(fs, obj) != [] <==> exists i :: 0 <= i < |fs| && Objects(fs, obj, i)
  {
    if |fs| > 0 {
      var last := |fs| - 1;
      ComplaintsComeFromFunctions(fs[..last], obj);
      assert forall i :: 0 <= i < last ==> fs[..last][..i] == fs[..i];
      assert forall i :: 0 <= i < last ==> (Objects(fs[..last], obj, i) <==> Objects(fs, obj, i));
      assert Objects(fs, obj, last) <==> fs[last](ApplyAll(fs[..last], obj)).1.Some?;
    }
  }

  /**
   A request is blocked exactly if the object has no kind, some function complains when its turn
   comes, or the object has no kind at the end. What passes is the object all functions made of
   it, and it counts as mutated exactly if it changed or the answer is to be rewritten.
   */
  lemma RequestIsBlockedExactlyIf(c: Contribution, obj: Object)
    ensures MutateRequest(c, obj).None? <==>
            || obj.gvk == EMPTY_GVK
            || (exists i :: 0 <= i < |c.req| && Objects(c.req, obj, i))
            || ApplyAll(c.req, obj).gvk == EMPTY_GVK
    ensures MutateRequest(c, obj).Some? ==>
      var (obj', result) := MutateRequest(c, obj).value;
      && obj' == ApplyAll(c.req, obj) && result.origGVK == obj.gvk && result.newGVK == obj'.gvk
      && (!result.mutated <==> obj' == obj && c.resp == [])
  {
    ComplaintsComeFromFunctions(c.req, obj);
  }

  /** A response is blocked exactly if some function complains when its turn comes. */
  lemma ResponseIsBlockedExactlyIf(fs: seq<Mutator>, obj: Object)
    ensures RespondTo(fs, obj) == None <==> exists i :: 0 <= i < |fs| && Objects(fs, obj, i)
    ensures RespondTo(fs, obj).Some? ==> RespondTo(fs, obj).value == ApplyAll(fs, obj)
  {
    ComplaintsComeFromFunctions(fs, obj);
  }

  predicate IsWrite(verb: Verb) {
    verb == Create || verb == Update || verb == Patch || verb == Delete || verb == DeleteCollection
  }

  predicate IsRead(verb: Verb) {
    verb == Get || verb == List || verb == Watch
  }

  const ERR_NOT_LEADER := "write attempt rejected as client is not leader"

  function Reject(obj: Object): (Object, Option<string>) {
    (obj, Some(ERR_NOT_LEADER))
  }

  /** writeOnlyWhenLeader, run at a moment when the process may, or may not, write. */
  function LeaderCheck(canWrite: bool): Middleware {
    (info: Info) => if IsRead(info.verb) || canWrite then Contribution([], []) else Contribution([Reject], [])
  }

  lemma ContributionsOne(m: Middleware, info: Info)
    ensures Contributions([m], info) == m(info)
  {
    assert Contributions([], info) == Contribution([], []);
    assert [m][..0] == [];
  }

  /** Among any other middlewares, the check adds nothing unless it refuses. */
  lemma CheckContributes(before: seq<Middleware>, after: seq<Middleware>, canWrite: bool, info: Info)
    ensures var c, plain := Contributions(before + [LeaderCheck(canWrite)] + after, info), Contributions(before + after, info);
      && c.resp == plain.resp
      && (IsRead(info.verb) || canWrite ==> c == plain)
      && (!IsRead(info.verb) && !canWrite ==>
          c.req == Contributions(before, info).req + [Reject] + Contributions(after, info).req)
  {
    ContributionsSplit(before, after, info);
    ContributionsSplit(before, [LeaderCheck(canWrite)], info);
    ContributionsOne(LeaderCheck(canWrite), info);
    ContributionsSplit(before + [LeaderCheck(canWrite)], after, info);
  }

  lemma RejectedIsBlocked(c: Contribution, fs: seq<Mutator>, gs: seq<Mutator>, obj: Object)
    requires c.req == fs + [Reject] + gs
    ensures MutateRequest(c, obj) == None
  {
    assert (fs + [Reject])[..|fs|] == fs;
    assert Complaints(fs + [Reject], obj) == Complaints(fs, obj) + [ERR_NOT_LEADER];
    OneComplaintIsEnough(fs + [Reject], gs, obj);
  }

  /**
   Wherever the leader check sits in the list: a write reaches the wire exactly if the flag was up
   when the check ran and it would have been sent without the check, and reads never notice it.
   */
  lemma WritesNeedLeadership(before: seq<Middleware>, after: seq<Middleware>, canWrite: bool, info: Info,
                             body: Object, kind: Option<GVK>, api: Api)
    ensures var checked, plain := Trip(before + [LeaderCheck(canWrite)] + after, info, body, kind, api), Trip(before + after, info, body, kind, api);
      && (info.verb == Get || info.verb == List || info.verb == Watch || canWrite ==> checked == plain)
      && ((info.verb == Create || info.verb == Update || info.verb == Patch || info.verb == Delete || info.verb == DeleteCollection) && !canWrite ==>
            checked == Refused)
  {
    CheckContributes(before, after, canWrite, info);
    if IsWrite(info.verb) && !canWrite {
      var c := Contributions(before + [LeaderCheck(canWrite)] + after, info);
      RejectedIsBlocked(c, Contributions(before, info).req, Contributions(after, info).req, body);
      if kind.Some? {
        RejectedIsBlocked(c, Contributions(before, info).req, Contributions(after, info).req, Bare(kind.value));
      }
    }
  }

  /** A request that no middleware cares for, or whose verb is not handled, is sent and answered as it is. */
  lemma UnhandledRequestsPass(ms: seq<Middleware>, info: Info, body: Object, kind: Option<GVK>, api: Api)
    requires Contributions(ms, info) == Contribution([], []) || info.verb == Proxy || info.verb == OtherVerb
    ensures var outcome := Trip(ms, info, body, kind, api);
      && outcome.Sent? && outcome.seen == Some(api(outcome.wire))
      && (info.verb == Create || info.verb == Update ==> outcome.wire == Wire(body.gvk, Some(body)))
      && (info.verb != Create && info.verb != Update && kind.Some? ==> outcome.wire == Wire(kind.value, None))
  {
  }

  /** What a request without an object of its own comes to, once some middleware cares for it. */
  lemma BodilessRequestsMean(ms: seq<Middleware>, info: Info, body: Object, kind: Option<GVK>, api: Api)
    requires info.verb == Get || info.verb == List || info.verb == Watch || info.verb == Patch || info.verb == Delete || info.verb == DeleteCollection
    requires Contributions(ms, info) != Contribution([], [])
    ensures var c, outcome := Contributions(ms, info), Trip(ms, info, body, kind, api);
      && (kind.None? || (exists i :: 0 <= i < |c.req| && Objects(c.req, Bare(kind.value), i)) ==> outcome == Refused)
      && (kind.Some? && outcome.Sent? ==>
          && ApplyAll(c.req, Bare(kind.value)) == Bare(outcome.wire.gvk)
          && outcome.wire.body == None
          && (c.resp == [] ==> kind.value == outcome.wire.gvk || kind.value.group != ""))
  {
    if kind.Some? {
      RequestIsBlockedExactlyIf(Contributions(ms, info), Bare(kind.value));
    }
  }

  /** A response that is not of the requested kind is left alone; one that is must be a list exactly if a list was asked for. */
  lemma OnlyTheRequestedKindIsMutated(fs: seq<Mutator>, verb: Verb, gvk: GVK, body: Body)
    ensures fs == [] || body.Opaque? || body.Stream? ==> MutateBody(fs, verb, gvk, body) == Some(body)
    ensures body.Single? && body.obj.gvk != gvk ==> MutateBody(fs, verb, gvk, body) == Some(body)
    ensures body.Many? && body.gvk != gvk ==> MutateBody(fs, verb, gvk, body) == Some(body)
    ensures fs != [] && body.Single? && body.obj.gvk == gvk && verb == List ==> MutateBody(fs, verb, gvk, body) == None
    ensures fs != [] && body.Many? && body.gvk == gvk && verb != List ==> MutateBody(fs, verb, gvk, body) == None
  {
  }
}
