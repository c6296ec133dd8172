/** The API group suffix: requests leave with "pinniped.dev" replaced by a configured suffix, and replies come back with it put back. */
module GroupSuffix {
  import opened Options
  import opened KubeClient

  const DEFAULT_SUFFIX := "pinniped.dev"
  const DEFAULT_SUFFIX_WITH_DOT := ".pinniped.dev"

  predicate HasSuffix(s: string, suffix: string) {
    |suffix| <= |s| && s[|s| - |suffix|..] == suffix
  }

  function TrimSuffix(s: string, suffix: string): string {
    if HasSuffix(s, suffix) then s[..|s| - |suffix|] else s
  }

  function Replace(group: string, suffix: string): (r: Option<string>) {
    if !HasSuffix(group, DEFAULT_SUFFIX_WITH_DOT) then None
    else Some(TrimSuffix(group, DEFAULT_SUFFIX) + suffix)
  }

  function Unreplace(group: string, suffix: string): (r: Option<string>) {
    if !HasSuffix(group, "." + suffix) then None
    else Some(TrimSuffix(group, suffix) + DEFAULT_SUFFIX)
  }

  /** A group that ends in a dot and a suffix is a stem, which ends in the dot, and the suffix. */
  lemma StemAndSuffix(group: string, suffix: string)
    ensures HasSuffix(group, "." + suffix) ==>
      && HasSuffix(group, suffix)
      && var stem := TrimSuffix(group, suffix);
      && stem != [] && stem[|stem| - 1] == '.' && group == stem + suffix
  {
    if HasSuffix(group, "." + suffix) {
      var dotted := "." + suffix;
      var tail := group[|group| - |dotted|..];
      assert tail[0] == '.' && tail[1..] == suffix;
      assert group[|group| - |suffix|..] == tail[1..];
    }
  }

  lemma AddSuffix(stem: string, suffix: string)
    requires stem != [] && stem[|stem| - 1] == '.'
    ensures HasSuffix(stem + suffix, "." + suffix) && TrimSuffix(stem + suffix, suffix) == stem
  {
    var s := stem + suffix;
    assert s[|s| - |suffix|..] == suffix;
    assert s[|s| - |suffix| - 1..] == "." + suffix;
  }

  /** Each undoes the other wherever it is defined. */
  lemma ReplaceAndUnreplaceAreInverse(group: string, suffix: string)
    ensures Replace(group, suffix).Some? ==> Unreplace(Replace(group, suffix).value, suffix) == Some(group)
    ensures Unreplace(group, suffix).Some? ==> Replace(Unreplace(group, suffix).value, suffix) == Some(group)
  {
    assert DEFAULT_SUFFIX_WITH_DOT == "." + DEFAULT_SUFFIX;
    if Replace(group, suffix).Some? {
      StemAndSuffix(group, DEFAULT_SUFFIX);
      AddSuffix(TrimSuffix(group, DEFAULT_SUFFIX), suffix);
    }
    if Unreplace(group, suffix).Some? {
      StemAndSuffix(group, suffix);
      AddSuffix(TrimSuffix(group, suffix), DEFAULT_SUFFIX);
    }
  }

  // Owner references carry "group/version", or just "version" for the core group.

  function Slashes(s: string): nat {
    if s == [] then 0 else Slashes(s[..|s| - 1]) + (if s[|s| - 1] == '/' then 1 else 0)
  }

  function BeforeSlash(s: string): string {
    if s == [] || s[0] == '/' then [] else [s[0]] + BeforeSlash(s[1..])
  }

  /** schema.ParseGroupVersion, with its error turned into the empty pair as the caller does. */
  function ParseGroupVersion(s: string): (string, string) {
    if s == "" || s == "/" || Slashes(s) > 1 then ("", "")
    else if Slashes(s) == 0 then ("", s)
    else
      NoSlash(s);
      BeforeSlashSplits(s);
      (BeforeSlash(s), s[|BeforeSlash(s)| + 1..])
  }

  function PrintGroupVersion(group: string, version: string): string {
    if |group| > 0 then group + "/" + version else version
  }

  lemma {:induction false} SlashesConcat(a: string, b: string)
    ensures Slashes(a + b) == Slashes(a) + Slashes(b)
  {
    if b == [] {
      assert a + b == a;
    } else {
      assert (a + b)[..|a + b| - 1] == a + b[..|b| - 1];
      SlashesConcat(a, b[..|b| - 1]);
    }
  }

  lemma {:induction false} NoSlash(s: string)
    ensures Slashes(s) == 0 <==> '/' !in s
  {
    if s != [] {
      NoSlash(s[..|s| - 1]);
      assert s == s[..|s| - 1] + [s[|s| - 1]];
    }
  }

  lemma {:induction false} BeforeSlashSplits(s: string)
    requires '/' in s
    ensures var g := BeforeSlash(s); |g| < |s| && s == g + "/" + s[|g| + 1..] && '/' !in g
  {
    if s[0] != '/' {
      assert s == [s[0]] + s[1..];
      BeforeSlashSplits(s[1..]);
    }
  }

  lemma {:induction false} BeforeSlashOf(g: string, v: string)
    requires '/' !in g
    ensures BeforeSlash(g + "/" + v) == g
  {
    if g != [] {
      assert (g + "/" + v)[1..] == g[1..] + "/" + v;
      BeforeSlashOf(g[1..], v);
    }
  }

  lemma ParsesBack(g: string, v: string)
    requires g != "" && '/' !in g && '/' !in v
    ensures ParseGroupVersion(g + "/" + v) == (g, v)
  {
    NoSlash(g);
    NoSlash(v);
    SlashesConcat(g + "/", v);
    SlashesConcat(g, "/");
    assert Slashes("/") == 1 by { assert "/"[..0] == []; }
    BeforeSlashOf(g, v);
  }

  lemma ParsedParts(s: string)
    ensures var (g, v) := ParseGroupVersion(s); g != "" ==> s == g + "/" + v && '/' !in g && '/' !in v
  {
    var (g, v) := ParseGroupVersion(s);
    if g != "" {
      NoSlash(s);
      BeforeSlashSplits(s);
      SlashesConcat(g + "/", v);
      SlashesConcat(g, "/");
      assert Slashes("/") == 1 by { assert "/"[..0] == []; }
      NoSlash(v);
    }
  }

  // Rewriting owner references.

  type Rewrite = (string, string) -> Option<string>

  function MutateRef(f: Rewrite, suffix: string, ref: OwnerRef): OwnerRef {
    var (group, version) := ParseGroupVersion(ref.apiVersion);
    match f(group, suffix)
    case Some(g) => ref.(apiVersion := PrintGroupVersion(g, version))
    case None => ref
  }

  function MutateRefs(f: Rewrite, suffix: string, refs: seq<OwnerRef>): seq<OwnerRef> {
    seq(|refs|, i requires 0 <= i < |refs| => MutateRef(f, suffix, refs[i]))
  }

  method MutateOwnerRefs(f: Rewrite, suffix: string, oldRefs: seq<OwnerRef>) returns (refs: seq<OwnerRef>)
    ensures refs == MutateRefs(f, suffix, oldRefs)
  {
    if |oldRefs| == 0 {
      return oldRefs;
    }
    var changedGroup := false;
    var newRefs := [];
    for i := 0 to |oldRefs|
      invariant newRefs == MutateRefs(f, suffix, oldRefs)[..i]
      invariant !changedGroup ==> newRefs == oldRefs[..i]
    {
      var ref := oldRefs[i];
      var (group, version) := ParseGroupVersion(ref.apiVersion);
      var newGroup := f(group, suffix);
      if newGroup.Some? {
        changedGroup := true;
        ref := ref.(apiVersion := PrintGroupVersion(newGroup.value, version));
      }
      newRefs := newRefs + [ref];
    }
    refs := if changedGroup then newRefs else oldRefs;
  }

  /** A reference to somebody else's group that happens to end in the configured suffix. */
  predicate Confusable(ref: OwnerRef, suffix: string) {
    var (group, _) := ParseGroupVersion(ref.apiVersion);
    HasSuffix(group, "." + suffix) && !HasSuffix(group, DEFAULT_SUFFIX_WITH_DOT)
  }

  /** A reference that goes out as it is comes back changed exactly if its group ends in the suffix. */
  lemma RefUnreplacedExactlyIfSuffixed(ref: OwnerRef, suffix: string)
    requires suffix != DEFAULT_SUFFIX
    ensures MutateRef(Unreplace, suffix, ref) == ref <==> !HasSuffix(ParseGroupVersion(ref.apiVersion).0, "." + suffix)
  {
    var (group, version) := ParseGroupVersion(ref.apiVersion);
    ParsedParts(ref.apiVersion);
    if HasSuffix(group, "." + suffix) {
      StemAndSuffix(group, suffix);
      var stem := TrimSuffix(group, suffix);
      assert (stem + suffix)[|stem|..] == suffix && (stem + DEFAULT_SUFFIX)[|stem|..] == DEFAULT_SUFFIX;
      var back := stem + DEFAULT_SUFFIX;
      assert (back + "/" + version)[..|back + "/" + version| - |version| - 1] == back;
      assert (group + "/" + version)[..|group + "/" + version| - |version| - 1] == group;
    }
  }

  /** A reference to a group of ours goes out under the suffix and comes back. */
  lemma OwnRefSurvives(ref: OwnerRef, suffix: string)
    requires '/' !in suffix && Replace(ParseGroupVersion(ref.apiVersion).0, suffix).Some?
    ensures MutateRef(Unreplace, suffix, MutateRef(Replace, suffix, ref)) == ref
  {
    var (group, version) := ParseGroupVersion(ref.apiVersion);
    ParsedParts(ref.apiVersion);
    ReplaceAndUnreplaceAreInverse(group, suffix);
    assert DEFAULT_SUFFIX_WITH_DOT == "." + DEFAULT_SUFFIX;
    StemAndSuffix(group, DEFAULT_SUFFIX);
    ParsesBack(Replace(group, suffix).value, version);
  }

  /** A reference survives going out and coming back exactly if it is not confusable. */
  lemma RefSurvivesExactlyIfNotConfusable(ref: OwnerRef, suffix: string)
    requires '/' !in suffix
    ensures MutateRef(Unreplace, suffix, MutateRef(Replace, suffix, ref)) == ref <==> !Confusable(ref, suffix)
  {
    if Replace(ParseGroupVersion(ref.apiVersion).0, suffix).Some? {
      OwnRefSurvives(ref, suffix);
    } else if suffix == DEFAULT_SUFFIX {
      assert DEFAULT_SUFFIX_WITH_DOT == "." + DEFAULT_SUFFIX;
    } else {
      RefUnreplacedExactlyIfSuffixed(ref, suffix);
    }
  }

  /** There are such references: to a foreign group below the configured suffix. They come back as references to a group of ours. */
  lemma ForeignGroupsCanBeConfusable()
    ensures var ref := OwnerRef("a.b.c" + "/" + "v1", "");
      && Confusable(ref, "b.c")
      && MutateRef(Unreplace, "b.c", MutateRef(Replace, "b.c", ref)) == OwnerRef("a." + DEFAULT_SUFFIX + "/" + "v1", "")
  {
    assert "a.b.c" == "a." + "b.c";
    AddSuffix("a.", "b.c");
    ParsesBack("a.b.c", "v1");
    assert |"a.b.c"| < |DEFAULT_SUFFIX_WITH_DOT|;
  }

  // The middlewares.

  function SetGroup(newGroup: string): Mutator {
    (obj: Object) => (obj.(gvk := obj.gvk.(group := newGroup)), None)
  }

  function SetRefs(f: Rewrite, suffix: string): Mutator {
    (obj: Object) => (obj.(ownerRefs := MutateRefs(f, suffix, obj.ownerRefs)), None)
  }

  function SetAuthenticator(suffix: string): Mutator {
    (obj: Object) =>
      match obj.authenticatorGroup
      case None => (obj, Some("cannot replace token credential request without authenticator API group"))
      case Some(g) =>
        match Replace(g, suffix)
        case None => (obj, Some("cannot replace token credential request authenticator API group"))
        case Some(h) => (obj.(authenticatorGroup := Some(h)), None)
  }

  function RewriteGroup(suffix: string): Middleware {
    (info: Info) =>
      match Replace(info.group, suffix)
      case None => Contribution([], [])
      case Some(g) => Contribution([SetGroup(g)], [])
  }

  function RewriteRefs(suffix: string): Middleware {
    (info: Info) =>
      if (info.verb != Create && info.verb != Update) || info.subresource != "" then Contribution([], [])
      else Contribution([SetRefs(Replace, suffix)], [])
  }

  predicate IsTokenCredentialRequest(info: Info) {
    && info.group == "login.concierge.pinniped.dev" && info.version == "v1alpha1"
    && info.resource == "tokencredentialrequests" && info.verb == Create && info.subresource == ""
  }

  function RewriteAuthenticator(suffix: string): Middleware {
    (info: Info) =>
      if !IsTokenCredentialRequest(info) then Contribution([], []) else Contribution([SetAuthenticator(suffix)], [])
  }

  function RestoreRefs(suffix: string): Middleware {
    (info: Info) => Contribution([], [SetRefs(Unreplace, suffix)])
  }

  function New(suffix: string): seq<Middleware> {
    if suffix == "" || suffix == DEFAULT_SUFFIX then []
    else [RewriteGroup(suffix), RewriteRefs(suffix), RewriteAuthenticator(suffix), RestoreRefs(suffix)]
  }

  lemma Contributes(suffix: string, info: Info)
    requires suffix != "" && suffix != DEFAULT_SUFFIX
    ensures Contributions(New(suffix), info) ==
            Contribution(RewriteGroup(suffix)(info).req + RewriteRefs(suffix)(info).req + RewriteAuthenticator(suffix)(info).req,
                         [SetRefs(Unreplace, suffix)])
  {
    var a, b, c, d := RewriteGroup(suffix), RewriteRefs(suffix), RewriteAuthenticator(suffix), RestoreRefs(suffix);
    assert New(suffix) == [a] + [b] + [c] + [d];
    ContributionsSplit([a] + [b] + [c], [d], info);
    ContributionsSplit([a] + [b], [c], info);
    ContributionsSplit([a], [b], info);
    ContributionsOne(a, info);
    ContributionsOne(b, info);
    ContributionsOne(c, info);
    ContributionsOne(d, info);
  }

  /** What an object looks like on the wire. */
  function Outgoing(suffix: string, info: Info, obj: Object): Object {
    Object(OutgoingGVK(suffix, info, obj.gvk), OutgoingRefs(suffix, info, obj.ownerRefs), OutgoingAuthenticator(suffix, info, obj), obj.rest)
  }

  /** Owner references are only rewritten on the object itself, not on a subresource such as its status. */
  function OutgoingRefs(suffix: string, info: Info, refs: seq<OwnerRef>): seq<OwnerRef> {
    if info.subresource == "" then MutateRefs(Replace, suffix, refs) else refs
  }

  function OutgoingAuthenticator(suffix: string, info: Info, obj: Object): Option<string> {
    if IsTokenCredentialRequest(info) && Acceptable(suffix, obj) then Replace(obj.authenticatorGroup.value, suffix)
    else obj.authenticatorGroup
  }

  /** A TokenCredentialRequest must name an authenticator in a group of ours. */
  predicate Acceptable(suffix: string, obj: Object) {
    obj.authenticatorGroup.Some? && Replace(obj.authenticatorGroup.value, suffix).Some?
  }

  lemma ApplyOne(f: Mutator, fs: seq<Mutator>, obj: Object)
    ensures ApplyAll(fs + [f], obj) == f(ApplyAll(fs, obj)).0
    ensures Complaints(fs + [f], obj) ==
            Complaints(fs, obj) + (match f(ApplyAll(fs, obj)).1 case None => [] case Some(e) => [e])
  {
    assert (fs + [f])[..|fs|] == fs;
  }

  lemma {:induction false} ApplyConcat(fs: seq<Mutator>, gs: seq<Mutator>, obj: Object)
    ensures ApplyAll(fs + gs, obj) == ApplyAll(gs, ApplyAll(fs, obj))
    ensures Complaints(fs + gs, obj) == Complaints(fs, obj) + Complaints(gs, ApplyAll(fs, obj))
  {
    if gs == [] {
      assert fs + gs == fs;
    } else {
      var init, last := gs[..|gs| - 1], gs[|gs| - 1];
      ApplyConcat(fs, init, obj);
      assert fs + gs == (fs + init) + [last] && gs == init + [last];
      ApplyOne(last, fs + init, obj);
    }
  }

  lemma ApplySingle(f: Mutator, obj: Object)
    ensures ApplyAll([f], obj) == f(obj).0
    ensures Complaints([f], obj) == match f(obj).1 case None => [] case Some(e) => [e]
  {
    ApplyOne(f, [], obj);
    assert [] + [f] == [f];
  }

  function OutgoingGVK(suffix: string, info: Info, gvk: GVK): GVK {
    match Replace(info.group, suffix) case Some(g) => gvk.(group := g) case None => gvk
  }

  lemma GroupStep(suffix: string, info: Info, obj: Object)
    ensures var fs := RewriteGroup(suffix)(info).req;
      ApplyAll(fs, obj) == obj.(gvk := OutgoingGVK(suffix, info, obj.gvk)) && Complaints(fs, obj) == []
  {
    match Replace(info.group, suffix)
    case None =>
    case Some(g) => ApplySingle(SetGroup(g), obj);
  }

  lemma RefsStep(suffix: string, info: Info, obj: Object)
    requires info.verb == Create || info.verb == Update
    ensures var fs := RewriteRefs(suffix)(info).req;
      ApplyAll(fs, obj) == obj.(ownerRefs := OutgoingRefs(suffix, info, obj.ownerRefs)) && Complaints(fs, obj) == []
  {
    if info.subresource == "" {
      ApplySingle(SetRefs(Replace, suffix), obj);
    }
  }

  lemma AuthenticatorStep(suffix: string, info: Info, obj: Object)
    ensures var fs := RewriteAuthenticator(suffix)(info).req;
      && ApplyAll(fs, obj) == obj.(authenticatorGroup := OutgoingAuthenticator(suffix, info, obj))
      && (Complaints(fs, obj) == [] <==> IsTokenCredentialRequest(info) ==> Acceptable(suffix, obj))
  {
    if IsTokenCredentialRequest(info) {
      ApplySingle(SetAuthenticator(suffix), obj);
    }
  }

  /** The three request rewritings one after the other; only an unacceptable TokenCredentialRequest draws a complaint. */
  lemma RequestIsRewritten(suffix: string, info: Info, obj: Object)
    requires suffix != "" && suffix != DEFAULT_SUFFIX
    requires info.verb == Create || info.verb == Update
    ensures var fs := Contributions(New(suffix), info).req;
      && ApplyAll(fs, obj) == Outgoing(suffix, info, obj)
      && (Complaints(fs, obj) == [] <==> IsTokenCredentialRequest(info) ==> Acceptable(suffix, obj))
  {
    var a, b, c := RewriteGroup(suffix)(info).req, RewriteRefs(suffix)(info).req, RewriteAuthenticator(suffix)(info).req;
    assert Contributions(New(suffix), info).req == a + b + c by { Contributes(suffix, info); }
    ApplyConcat(a + b, c, obj);
    ApplyConcat(a, b, obj);
    var obj1 := obj.(gvk := OutgoingGVK(suffix, info, obj.gvk));
    GroupStep(suffix, info, obj);
    var obj2 := obj1.(ownerRefs := OutgoingRefs(suffix, info, obj.ownerRefs));
    RefsStep(suffix, info, obj1);
    AuthenticatorStep(suffix, info, obj2);
  }

  /** A server that stores the object and answers with it. */
  function Echo(status: int): Api {
    (wire: Wire) => Reply(status, match wire.body case Some(obj) => Single(obj) case None => Opaque(""))
  }

  /** A request that does not leave: an unacceptable TokenCredentialRequest, an object without a kind, or one whose path cannot follow its group. */
  predicate IsRefused(suffix: string, info: Info, obj: Object) {
    || (IsTokenCredentialRequest(info) && !Acceptable(suffix, obj))
    || obj.gvk == EMPTY_GVK
    || (obj.gvk.group == "" && OutgoingGVK(suffix, info, obj.gvk) != obj.gvk)
  }

  /**
   Create or update through any suffix, of an object or of a subresource, against a server that
   stores and echoes: the server sees the rewritten kind, and rewritten owner references unless it
   is a subresource. If it answers with success, the client gets back its own kind, and its own owner
   references exactly if each of them returns. (The authenticator group of a TokenCredentialRequest
   is not put back.)
   */
  lemma SuffixIsInvisible(suffix: string, info: Info, obj: Object, kind: Option<GVK>, status: int)
    requires suffix != "" && suffix != DEFAULT_SUFFIX && '/' !in suffix
    requires info.verb == Create || info.verb == Update
    ensures var outcome := Trip(New(suffix), info, obj, kind, Echo(status));
      var out := Outgoing(suffix, info, obj);
      var refs := MutateRefs(Unreplace, suffix, out.ownerRefs);
      && (outcome == if IsRefused(suffix, info, obj) then Refused
          else Sent(Wire(out.gvk, Some(out)),
                    Some(Reply(status, Single(if 200 <= status <= 206 then out.(gvk := obj.gvk, ownerRefs := refs) else out)))))
      && (refs == obj.ownerRefs <==> forall ref <- obj.ownerRefs :: Returns(suffix, info, ref))
  {
    RefsSurvive(suffix, info, obj.ownerRefs);
    var c := Contributions(New(suffix), info);
    assert c.resp == [SetRefs(Unreplace, suffix)] by { Contributes(suffix, info); }
    assert Trip(New(suffix), info, obj, kind, Echo(status)) == TripWithBody(c, info, obj, Echo(status));
    TripIsEchoed(suffix, c, info, obj, status) by { RequestIsRewritten(suffix, info, obj); }
  }

  lemma TripIsEchoed(suffix: string, c: Contribution, info: Info, obj: Object, status: int)
    requires c.resp == [SetRefs(Unreplace, suffix)] && info.verb != List
    requires ApplyAll(c.req, obj) == Outgoing(suffix, info, obj)
    requires Complaints(c.req, obj) == [] <==> IsTokenCredentialRequest(info) ==> Acceptable(suffix, obj)
    ensures var out := Outgoing(suffix, info, obj);
      TripWithBody(c, info, obj, Echo(status)) ==
        if IsRefused(suffix, info, obj) then Refused
        else Sent(Wire(out.gvk, Some(out)), Some(Reply(status, Single(
          if 200 <= status <= 206 then out.(gvk := obj.gvk, ownerRefs := MutateRefs(Unreplace, suffix, out.ownerRefs)) else out))))
  {
    var out := Outgoing(suffix, info, obj);
    if (IsTokenCredentialRequest(info) ==> Acceptable(suffix, obj)) && obj.gvk != EMPTY_GVK {
      var result := MutationResult(obj.gvk, out.gvk, true);
      assert MutateRequest(c, obj) == Some((out, result)) by { GroupIsKept(suffix, info.group); }
      assert Echo(status)(Wire(out.gvk, Some(out))) == Reply(status, Single(out));
      var back := out.(gvk := obj.gvk, ownerRefs := MutateRefs(Unreplace, suffix, out.ownerRefs));
      assert FixReply(c, info.verb, result, Reply(status, Single(out))) == Some(Reply(status, Single(if 200 <= status <= 206 then back else out))) by {
        EchoIsRestored(suffix, c, info.verb, info, obj);
      }
    }
  }

  lemma EchoIsRestored(suffix: string, c: Contribution, verb: Verb, info: Info, obj: Object)
    requires c.resp == [SetRefs(Unreplace, suffix)] && verb != List
    ensures var out := Outgoing(suffix, info, obj);
      FixBody(c, verb, MutationResult(obj.gvk, out.gvk, true), Single(out)) ==
        Some(Single(out.(gvk := obj.gvk, ownerRefs := MutateRefs(Unreplace, suffix, out.ownerRefs))))
  {
    var out := Outgoing(suffix, info, obj);
    var restored := out.(gvk := obj.gvk);
    assert RestoreGVK(Single(out), MutationResult(obj.gvk, out.gvk, true)) == Single(restored);
    ApplySingle(SetRefs(Unreplace, suffix), restored);
  }

  /** An object of the core group is not rewritten, and a rewritten group is not empty. */
  lemma GroupIsKept(suffix: string, group: string)
    ensures Replace(group, suffix).Some? ==> group != "" && Replace(group, suffix).value != ""
  {
    assert DEFAULT_SUFFIX_WITH_DOT == "." + DEFAULT_SUFFIX;
    StemAndSuffix(group, DEFAULT_SUFFIX);
  }

  /**
   A reference comes back as it went: on the object itself exactly if it is not confusable. A
   subresource's references go out as they are, so there every group that ends in the suffix is
   mistaken for a rewritten one, whether it is foreign or not.
   */
  predicate Returns(suffix: string, info: Info, ref: OwnerRef) {
    if info.subresource == "" then !Confusable(ref, suffix)
    else suffix == DEFAULT_SUFFIX || !HasSuffix(ParseGroupVersion(ref.apiVersion).0, "." + suffix)
  }

  lemma DefaultUnreplacesToItself(ref: OwnerRef)
    ensures MutateRef(Unreplace, DEFAULT_SUFFIX, ref) == ref
  {
    var (group, version) := ParseGroupVersion(ref.apiVersion);
    ParsedParts(ref.apiVersion);
    StemAndSuffix(group, DEFAULT_SUFFIX);
  }

  lemma RefsSurvive(suffix: string, info: Info, refs: seq<OwnerRef>)
    requires '/' !in suffix
    ensures MutateRefs(Unreplace, suffix, OutgoingRefs(suffix, info, refs)) == refs <==> forall ref <- refs :: Returns(suffix, info, ref)
  {
    var back := MutateRefs(Unreplace, suffix, OutgoingRefs(suffix, info, refs));
    forall i | 0 <= i < |refs| ensures back[i] == refs[i] <==> Returns(suffix, info, refs[i]) {
      if info.subresource == "" {
        RefSurvivesExactlyIfNotConfusable(refs[i], suffix);
      } else if suffix == DEFAULT_SUFFIX {
        DefaultUnreplacesToItself(refs[i]);
      } else {
        RefUnreplacedExactlyIfSuffixed(refs[i], suffix);
      }
    }
  }

  /** A request without an object only has its group rewritten. */
  lemma PathIsRewritten(suffix: string, info: Info, gvk: GVK)
    requires suffix != "" && suffix != DEFAULT_SUFFIX
    requires info.verb != Create && info.verb != Update && info.group == gvk.group && gvk.kind != ""
    ensures var gvk' := OutgoingGVK(suffix, info, gvk);
      MutateRequest(Contributions(New(suffix), info), Bare(gvk)) == Some((Bare(gvk'), MutationResult(gvk, gvk', true)))
  {
    var c := Contributions(New(suffix), info);
    Contributes(suffix, info);
    assert c.req == RewriteGroup(suffix)(info).req;
    GroupStep(suffix, info, Bare(gvk));
  }

  lemma Rewritten(suffix: string, info: Info, gvk: GVK)
    requires suffix != "" && suffix != DEFAULT_SUFFIX
    requires info.verb != Create && info.verb != Update && info.group == gvk.group && gvk.kind != ""
    ensures var c, gvk' := Contributions(New(suffix), info), OutgoingGVK(suffix, info, gvk);
      && c.resp != [] && (gvk == gvk' || gvk.group != "")
      && MutateRequest(c, Bare(gvk)) == Some((Bare(gvk'), MutationResult(gvk, gvk', true)))
  {
    assert |Contributions(New(suffix), info).resp| == 1 by { Contributes(suffix, info); }
    PathIsRewritten(suffix, info, gvk);
    GroupIsKept(suffix, info.group);
  }

  /** A read goes out under the rewritten group, and what comes back is fixed. */
  lemma BodilessTrip(suffix: string, info: Info, body: Object, gvk: GVK, api: Api)
    requires suffix != "" && suffix != DEFAULT_SUFFIX
    requires (info.verb == Get || info.verb == List || info.verb == Patch) && info.group == gvk.group && gvk.kind != ""
    ensures var c, wire := Contributions(New(suffix), info), Wire(OutgoingGVK(suffix, info, gvk), None);
      Trip(New(suffix), info, body, Some(gvk), api) ==
        Sent(wire, FixReply(c, info.verb, MutationResult(gvk, wire.gvk, true), api(wire)))
  {
    Rewritten(suffix, info, gvk);
    BodilessTripIs(New(suffix), info, body, gvk, OutgoingGVK(suffix, info, gvk), api);
  }

  /** What was stored through the suffix is put back as it was. */
  lemma StoredIsRestored(suffix: string, c: Contribution, verb: Verb, write: Info, obj: Object)
    requires '/' !in suffix && c.resp == [SetRefs(Unreplace, suffix)] && verb != List && !IsTokenCredentialRequest(write)
    requires forall ref <- obj.ownerRefs :: Returns(suffix, write, ref)
    ensures var stored := Outgoing(suffix, write, obj);
      FixBody(c, verb, MutationResult(obj.gvk, stored.gvk, true), Single(stored)) == Some(Single(obj))
  {
    EchoIsRestored(suffix, c, verb, write, obj);
    RefsSurvive(suffix, write, obj.ownerRefs);
  }

  /** A server that holds an object and answers with it. */
  function Answer(obj: Object): Api {
    (wire: Wire) => Reply(200, Single(obj))
  }

  /** Reading an object that was written through the suffix gives the object that was written. */
  lemma ReadsBackWhatWasWritten(suffix: string, write: Info, read: Info, obj: Object)
    requires suffix != "" && suffix != DEFAULT_SUFFIX && '/' !in suffix
    requires (write.verb == Create || write.verb == Update) && !IsTokenCredentialRequest(write)
    requires read.verb == Get && read.group == write.group == obj.gvk.group && obj.gvk.kind != ""
    requires forall ref <- obj.ownerRefs :: Returns(suffix, write, ref)
    ensures var stored := Outgoing(suffix, write, obj);
      var wire := Wire(stored.gvk, None);
      Trip(New(suffix), read, obj, Some(obj.gvk), Answer(stored)) == Sent(wire, Some(Reply(200, Single(obj))))
  {
    var stored := Outgoing(suffix, write, obj);
    BodilessTrip(suffix, read, obj, obj.gvk, Answer(stored));
    var c := Contributions(New(suffix), read);
    var result := MutationResult(obj.gvk, stored.gvk, true);
    assert FixBody(c, Get, result, Single(stored)) == Some(Single(obj)) by {
      Contributes(suffix, read);
      StoredIsRestored(suffix, c, Get, write, obj);
    }
    assert FixReply(c, Get, result, Reply(200, Single(stored))) == Some(Reply(200, Single(obj)));
  }

  /** A deletion reaches the server under the rewritten group, and its answer is passed on as it is. */
  lemma DeletionsAreRewritten(suffix: string, info: Info, body: Object, gvk: GVK, api: Api)
    requires suffix != "" && suffix != DEFAULT_SUFFIX
    requires (info.verb == Delete || info.verb == DeleteCollection) && info.group == gvk.group && gvk.kind != ""
    ensures var wire := Wire(OutgoingGVK(suffix, info, gvk), None);
      Trip(New(suffix), info, body, Some(gvk), api) == Sent(wire, Some(api(wire)))
  {
    Rewritten(suffix, info, gvk);
    BodilessTripIs(New(suffix), info, body, gvk, OutgoingGVK(suffix, info, gvk), api);
  }

  /** Objects as they are stored, and as a list of them is shown: with their owners, but under the group they are stored in. */
  function StoredAll(suffix: string, write: Info, objs: seq<Object>): seq<Object> {
    seq(|objs|, i requires 0 <= i < |objs| => Outgoing(suffix, write, objs[i]))
  }

  function ShownAll(suffix: string, write: Info, objs: seq<Object>): seq<Object> {
    seq(|objs|, i requires 0 <= i < |objs| => Outgoing(suffix, write, objs[i]).(ownerRefs := objs[i].ownerRefs))
  }

  lemma {:induction false} EachIsRestored(suffix: string, write: Info, objs: seq<Object>)
    requires '/' !in suffix
    requires forall i :: 0 <= i < |objs| ==> forall ref <- objs[i].ownerRefs :: Returns(suffix, write, ref)
    ensures RespondToEach([SetRefs(Unreplace, suffix)], StoredAll(suffix, write, objs)) == Some(ShownAll(suffix, write, objs))
  {
    var stored, shown := StoredAll(suffix, write, objs), ShownAll(suffix, write, objs);
    if objs == [] {
      assert stored == [] && shown == [];
    } else {
      var last := |objs| - 1;
      EachIsRestored(suffix, write, objs[..last]);
      assert stored[..last] == StoredAll(suffix, write, objs[..last]);
      assert shown == ShownAll(suffix, write, objs[..last]) + [shown[last]];
      assert RespondTo([SetRefs(Unreplace, suffix)], stored[last]) == Some(shown[last]) by {
        ApplySingle(SetRefs(Unreplace, suffix), stored[last]);
        RefsSurvive(suffix, write, objs[last].ownerRefs);
      }
    }
  }

  /** A list of objects that were written through the suffix comes back as a list of the kind asked for, with every item's own owners. */
  lemma ListsReadBack(suffix: string, write: Info, read: Info, body: Object, gvk: GVK, objs: seq<Object>)
    requires suffix != "" && suffix != DEFAULT_SUFFIX && '/' !in suffix
    requires read.verb == List && read.group == gvk.group && gvk.kind != ""
    requires forall i :: 0 <= i < |objs| ==> forall ref <- objs[i].ownerRefs :: Returns(suffix, write, ref)
    ensures var wire := Wire(OutgoingGVK(suffix, read, gvk), None);
      Trip(New(suffix), read, body, Some(gvk), AnswerMany(wire.gvk, StoredAll(suffix, write, objs))) ==
        Sent(wire, Some(Reply(200, Many(gvk, ShownAll(suffix, write, objs)))))
  {
    var c := Contributions(New(suffix), read);
    var result := MutationResult(gvk, OutgoingGVK(suffix, read, gvk), true);
    var sent := Many(result.newGVK, StoredAll(suffix, write, objs));
    BodilessTrip(suffix, read, body, gvk, AnswerMany(result.newGVK, StoredAll(suffix, write, objs)));
    assert FixBody(c, List, result, sent) == Some(Many(gvk, ShownAll(suffix, write, objs))) by {
      Contributes(suffix, read);
      EachIsRestored(suffix, write, objs);
    }
    assert FixReply(c, List, result, Reply(200, sent)) == Some(Reply(200, Many(gvk, ShownAll(suffix, write, objs))));
  }

  function AnswerMany(gvk: GVK, items: seq<Object>): Api {
    (wire: Wire) => Reply(200, Many(gvk, items))
  }

  /** The stored event is about the same object as the event to be shown, as it was written through the suffix. */
  ghost predicate WasWritten(suffix: string, write: Info, gvk: GVK, event: Event, stored: Event) {
    && event.body.Single? && event.body.obj.gvk == gvk
    && (forall ref <- event.body.obj.ownerRefs :: Returns(suffix, write, ref))
    && stored == Event(event.eventType, Single(Outgoing(suffix, write, event.body.obj)))
  }


  /** A watch shows every object that was written through the suffix as it was written, in the order of the events. */
  lemma WatchReadsBack(suffix: string, write: Info, c: Contribution, gvk: GVK, events: seq<Event>, stored: seq<Event>)
    requires '/' !in suffix && c.resp == [SetRefs(Unreplace, suffix)] && !IsTokenCredentialRequest(write)
    requires |stored| == |events|
    requires forall i :: 0 <= i < |events| ==> WasWritten(suffix, write, gvk, events[i], stored[i])
    ensures FixEvents(c, MutationResult(gvk, OutgoingGVK(suffix, write, gvk), true), stored) == (events, true)
  {
    var result := MutationResult(gvk, OutgoingGVK(suffix, write, gvk), true);
    forall i | 0 <= i < |events|
      ensures events[i].eventType == stored[i].eventType && FixBody(c, Watch, result, stored[i].body) == Some(events[i].body)
    {
      EventIsRestored(suffix, write, c, gvk, events[i], stored[i]);
    }
    EveryEventIsFixed(c, result, stored, events);
  }

  lemma EventIsRestored(suffix: string, write: Info, c: Contribution, gvk: GVK, event: Event, stored: Event)
    requires '/' !in suffix && c.resp == [SetRefs(Unreplace, suffix)] && !IsTokenCredentialRequest(write)
    requires WasWritten(suffix, write, gvk, event, stored)
    ensures event.eventType == stored.eventType
    ensures FixBody(c, Watch, MutationResult(gvk, OutgoingGVK(suffix, write, gvk), true), stored.body) == Some(event.body)
  {
    StoredIsRestored(suffix, c, Watch, write, event.body.obj);
  }

  /** A watch goes out under the rewritten group, and the stream that comes back is fixed. */
  lemma WatchTrip(suffix: string, info: Info, body: Object, gvk: GVK, api: Api)
    requires suffix != "" && suffix != DEFAULT_SUFFIX
    requires info.verb == Watch && info.group == gvk.group && gvk.kind != ""
    ensures var c, wire := Contributions(New(suffix), info), Wire(OutgoingGVK(suffix, info, gvk), None);
      Trip(New(suffix), info, body, Some(gvk), api) == Sent(wire, Some(FixWatch(c, MutationResult(gvk, wire.gvk, true), api(wire))))
  {
    Rewritten(suffix, info, gvk);
    BodilessTripIs(New(suffix), info, body, gvk, OutgoingGVK(suffix, info, gvk), api);
  }

  /** A server that answers a watch with these events. */
  function AnswerStream(events: seq<Event>): Api {
    (wire: Wire) => Reply(200, Stream(events, true))
  }

  /** A watch goes out under the rewritten group, and shows everything that was written through the suffix as it was written. */
  lemma WatchTripReadsBack(suffix: string, write: Info, read: Info, body: Object, gvk: GVK, events: seq<Event>, stored: seq<Event>)
    requires suffix != "" && suffix != DEFAULT_SUFFIX && '/' !in suffix && !IsTokenCredentialRequest(write)
    requires read.verb == Watch && read.group == write.group == gvk.group && gvk.kind != "" && |stored| == |events|
    requires forall i :: 0 <= i < |events| ==> WasWritten(suffix, write, gvk, events[i], stored[i])
    ensures Trip(New(suffix), read, body, Some(gvk), AnswerStream(stored)) ==
            Sent(Wire(OutgoingGVK(suffix, read, gvk), None), Some(Reply(200, Stream(events, true))))
  {
    var c := Contributions(New(suffix), read);
    WatchTrip(suffix, read, body, gvk, AnswerStream(stored));
    assert FixEvents(c, MutationResult(gvk, OutgoingGVK(suffix, read, gvk), true), stored) == (events, true) by {
      Contributes(suffix, read);
      WatchReadsBack(suffix, write, c, gvk, events, stored);
    }
  }

  /** What replacing means: the part after the last stem is exchanged, and only groups that end in it are touched. */
  lemma ReplaceMeans(group: string, suffix: string)
    ensures Replace(group, suffix).Some? <==> exists stem: string :: group == stem + ".pinniped.dev"
    ensures forall stem: string :: group == stem + ".pinniped.dev" ==> Replace(group, suffix) == Some(stem + "." + suffix)
    ensures Unreplace(group, suffix).Some? <==> exists stem: string :: group == stem + ("." + suffix)
    ensures forall stem: string :: group == stem + ("." + suffix) ==> Unreplace(group, suffix) == Some(stem + ".pinniped.dev")
  {
    SuffixMeans(group, ".pinniped.dev");
    SuffixMeans(group, "." + suffix);
    forall stem: string | group == stem + ".pinniped.dev" ensures Replace(group, suffix) == Some(stem + "." + suffix) {
      assert group == (stem + ".") + DEFAULT_SUFFIX by { assert ".pinniped.dev" == "." + DEFAULT_SUFFIX; }
      AddSuffix(stem + ".", DEFAULT_SUFFIX);
      assert HasSuffix(group, DEFAULT_SUFFIX_WITH_DOT);
    }
    forall stem: string | group == stem + ("." + suffix) ensures Unreplace(group, suffix) == Some(stem + ".pinniped.dev") {
      assert group == (stem + ".") + suffix;
      AddSuffix(stem + ".", suffix);
      assert (stem + ".") + DEFAULT_SUFFIX == stem + ".pinniped.dev" by { assert ".pinniped.dev" == "." + DEFAULT_SUFFIX; }
    }
  }

  lemma SuffixMeans(s: string, suffix: string)
    ensures HasSuffix(s, suffix) <==> exists stem: string :: s == stem + suffix
  {
    if HasSuffix(s, suffix) {
      assert s == s[..|s| - |suffix|] + suffix;
    }
    if stem: string :| s == stem + suffix {
      assert s[|stem|..] == suffix;
    }
  }

  /** With no suffix of its own, or the default one, the client changes nothing. */
  lemma DefaultSuffixChangesNothing(suffix: string, info: Info, body: Object, kind: Option<GVK>, api: Api)
    requires suffix == "" || suffix == "pinniped.dev"
    ensures var outcome := Trip(New(suffix), info, body, kind, api); outcome.Sent? && outcome.seen == Some(api(outcome.wire))
    ensures info.verb == Create || info.verb == Update ==> Trip(New(suffix), info, body, kind, api).wire == Wire(body.gvk, Some(body))
  {
    UnhandledRequestsPass(New(suffix), info, body, kind, api);
  }

  /** A TokenCredentialRequest names its authenticator by the group that the server knows, or is not sent. */
  lemma AuthenticatorGroupIsRewritten(suffix: string, obj: Object, kind: Option<GVK>, api: Api)
    requires suffix != "" && suffix != DEFAULT_SUFFIX && '/' !in suffix && obj.gvk.group == "login.concierge.pinniped.dev"
    ensures var info := Info(Create, "login.concierge.pinniped.dev", "v1alpha1", "tokencredentialrequests", "");
      var outcome := Trip(New(suffix), info, obj, kind, api);
      && (outcome.Sent? <==> obj.authenticatorGroup.Some? && exists stem: string :: obj.authenticatorGroup.value == stem + ".pinniped.dev")
      && (forall stem: string :: obj.authenticatorGroup == Some(stem + ".pinniped.dev") ==>
            outcome.Sent? && outcome.wire.body.Some? && outcome.wire.body.value.authenticatorGroup == Some(stem + "." + suffix))
  {
    var info := Info(Create, "login.concierge.pinniped.dev", "v1alpha1", "tokencredentialrequests", "");
    assert IsTokenCredentialRequest(info);
    var c := Contributions(New(suffix), info);
    assert |c.resp| == 1 by { Contributes(suffix, info); }
    RequestIsRewritten(suffix, info, obj);
    GroupIsKept(suffix, info.group);
    if obj.authenticatorGroup.Some? {
      ReplaceMeans(obj.authenticatorGroup.value, suffix);
    }
  }

  /** A version alone is of the core group. */
  lemma CoreVersions(v: string)
    requires v != "" && '/' !in v
    ensures ParseGroupVersion(v) == ("", v) && PrintGroupVersion("", v) == v
  {
    NoSlash(v);
  }
}
