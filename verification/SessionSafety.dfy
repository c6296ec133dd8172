/**
 What every interleaving of session steps keeps. The argument is a conservation law: per session
 there is one right to hold the eligible Secret (the "refresh baton" when offline_access was
 granted, the "access baton" otherwise). It is held by a stored Secret or by an actor in flight, and
 every step moves it, drops it, or leaves it where it is.
 */
module SessionSafety {
  import opened Options
  import opened ApiServer
  import opened Sessions

  datatype Holder = Stored(name: string) | InFlight(actor: nat)

  ghost predicate HoldsRefresh(s: State, request: string, h: Holder) {
    match h
    case Stored(n) =>
      && n in s.server.objects
      && var rec := s.server.objects[n].body;
      && rec.request == request
      && rec.offline
      && ((rec.kind == AuthCode && rec.active) || rec.kind == RefreshToken)
    case InFlight(a) =>
      && a in s.actors
      && (s.actors[a].MintAccess? || s.actors[a].MintRefresh?)
      && s.actors[a].rec.request == request
      && s.actors[a].rec.offline
  }

  ghost predicate HoldsAccess(s: State, request: string, h: Holder) {
    match h
    case Stored(n) =>
      && n in s.server.objects
      && var rec := s.server.objects[n].body;
      && rec.request == request
      && ((rec.kind == AuthCode && rec.active) || rec.kind == AccessToken)
    case InFlight(a) =>
      && a in s.actors
      && (s.actors[a].ListRefresh? || s.actors[a].DeleteRefresh? || s.actors[a].MintAccess?)
      && s.actors[a].rec.request == request
  }

  ghost predicate RefreshConserved(s: State) {
    forall r, h, k :: HoldsRefresh(s, r, h) && HoldsRefresh(s, r, k) ==> h == k
  }

  ghost predicate AccessConserved(s: State) {
    forall r, h, k :: HoldsAccess(s, r, h) && HoldsAccess(s, r, k) ==> h == k
  }

  ghost predicate RecordOk(s: State, rec: Record) {
    && rec.request in s.sessions
    && rec.offline == s.sessions[rec.request]
    && (rec.kind == RefreshToken ==> rec.offline)
    && ((rec.kind == AuthCode || rec.kind == Pkce || rec.kind == OpenIDConnect) ==> rec.upstream == 0)
  }

  ghost predicate RecordsOk(s: State) {
    && Valid(s.server)
    && forall n <- s.server.objects :: n in s.used && RecordOk(s, s.server.objects[n].body)
  }

  /** The name listed for deletion: if its Secret is still there, it is the one that was listed. */
  ghost predicate ListedOk(s: State, left: seq<string>, kind: Kind, request: string) {
    && |left| == 1
    && left[0] in s.used
    && (left[0] in s.server.objects ==> Labelled(s.server.objects[left[0]].body, kind, request))
  }

  ghost predicate RedeemerOk(s: State, code: string, rv: nat, rec: Record) {
    && code in s.used
    && rv < s.server.next
    && rec.kind == AuthCode
    && rec.active
    && RecordOk(s, rec)
    && (code in s.server.objects && s.server.objects[code].rv == rv ==> s.server.objects[code].body == rec)
  }

  ghost predicate ActorOk(s: State, actor: Actor) {
    match actor
    case RedeemMeta(code, rv, rec) => RedeemerOk(s, code, rv, rec)
    case RedeemUpdate(code, rv, rec) => RedeemerOk(s, code, rv, rec)
    case MintAccess(rec) => RecordOk(s, rec)
    case MintRefresh(rec) => RecordOk(s, rec) && rec.offline
    case ListAccess(rec) => RecordOk(s, rec) && rec.offline
    case DeleteAccess(rec, left) => RecordOk(s, rec) && rec.offline && ListedOk(s, left, AccessToken, rec.request)
    case ListRefresh(rec) => RecordOk(s, rec) && rec.offline
    case DeleteRefresh(rec, left) => RecordOk(s, rec) && rec.offline && ListedOk(s, left, RefreshToken, rec.request)
    case SweepRevoke(name, view) => (name, view) in s.history
    case SweepDelete(name, view) => (name, view) in s.history
    case _ => true
  }

  ghost predicate ActorsOk(s: State) {
    forall a <- s.actors :: ActorOk(s, s.actors[a])
  }

  /** The access token stored for a session holds the upstream token `upstream`. */
  ghost predicate AccessAt(s: State, request: string, upstream: nat) {
    forall n <- s.server.objects ::
      Labelled(s.server.objects[n].body, AccessToken, request) ==> s.server.objects[n].body.upstream == upstream
  }

  /** Access and refresh token of a session hold the same upstream token. */
  ghost predicate InStep(s: State) {
    && (forall n <- s.server.objects ::
          s.server.objects[n].body.kind == RefreshToken ==>
            AccessAt(s, s.server.objects[n].body.request, s.server.objects[n].body.upstream))
    && (forall a <- s.actors ::
          s.actors[a].MintRefresh? ==> AccessAt(s, s.actors[a].rec.request, s.actors[a].rec.upstream))
  }

  ghost predicate HistoryOk(s: State) {
    && (forall e <- s.history ::
          && e.0 in s.used
          && e.1.rv < s.server.next
          && (e.0 in s.server.objects && s.server.objects[e.0].rv == e.1.rv ==> s.server.objects[e.0] == e.1)
          && (e.0 in s.server.objects && Eligible(s.server.objects[e.0].body) && Eligible(e.1.body) ==> s.server.objects[e.0] == e.1))
    && (forall n <- s.server.objects :: (n, s.server.objects[n]) in s.history)
  }

  ghost predicate InvalidatedOk(s: State) {
    && (forall i, j :: 0 <= i < j < |s.invalidated| ==> s.invalidated[i] != s.invalidated[j])
    && (forall n <- s.invalidated ::
          && n in s.used
          && (n in s.server.objects ==> s.server.objects[n].body.kind == AuthCode && !s.server.objects[n].body.active))
  }

  ghost predicate Inv(s: State) {
    && RecordsOk(s)
    && ActorsOk(s)
    && RefreshConserved(s)
    && AccessConserved(s)
    && InStep(s)
    && HistoryOk(s)
    && InvalidatedOk(s)
  }

  /** A baton that moves from one holder to another is still held only once. */
  lemma AccessMoves(s: State, t: State, request: string, from: Holder, to: Holder)
    requires AccessConserved(s) && HoldsAccess(s, request, from)
    requires forall r, h :: HoldsAccess(t, r, h) && h != to ==> HoldsAccess(s, r, h) && h != from
    requires forall r :: HoldsAccess(t, r, to) ==> r == request
    ensures AccessConserved(t)
  {
  }

  lemma RefreshMoves(s: State, t: State, request: string, from: Holder, to: Holder)
    requires RefreshConserved(s) && HoldsRefresh(s, request, from)
    requires forall r, h :: HoldsRefresh(t, r, h) && h != to ==> HoldsRefresh(s, r, h) && h != from
    requires forall r :: HoldsRefresh(t, r, to) ==> r == request
    ensures RefreshConserved(t)
  {
  }

  // Kinds of change that steps are made of.

  /** Forgetting an actor. */
  lemma FinishKeeps(s: State, a: nat)
    requires Inv(s)
    ensures Inv(Finish(s, a))
  {
    var t := Finish(s, a);
    assert forall r, h :: HoldsRefresh(t, r, h) ==> HoldsRefresh(s, r, h);
    assert forall r, h :: HoldsAccess(t, r, h) ==> HoldsAccess(s, r, h);
    assert forall x :: ActorOk(s, x) ==> ActorOk(t, x);
    assert forall r, u :: AccessAt(s, r, u) ==> AccessAt(t, r, u);
  }

  ghost predicate Neutral(actor: Actor) {
    !(actor.MintAccess? || actor.MintRefresh? || actor.ListRefresh? || actor.DeleteRefresh?)
  }

  /** Moving an actor on to a place where it holds no baton. */
  lemma BecomeNeutralKeeps(s: State, a: nat, actor: Actor)
    requires Inv(s) && ActorOk(s, actor) && Neutral(actor)
    ensures Inv(Become(s, a, actor))
  {
    var t := Become(s, a, actor);
    assert forall r, h :: HoldsRefresh(t, r, h) ==> HoldsRefresh(s, r, h);
    assert forall r, h :: HoldsAccess(t, r, h) ==> HoldsAccess(s, r, h);
    assert forall x :: ActorOk(s, x) ==> ActorOk(t, x);
    assert forall r, u :: AccessAt(s, r, u) ==> AccessAt(t, r, u);
  }

  /** Removing a Secret. */
  lemma RemoveKeeps(s: State, name: string, pre: Option<Precondition>)
    requires Inv(s) && Remove(s, name, pre).Some?
    ensures Inv(Remove(s, name, pre).value)
  {
    var t := Remove(s, name, pre).value;
    assert forall r, h :: HoldsRefresh(t, r, h) ==> HoldsRefresh(s, r, h);
    assert forall r, h :: HoldsAccess(t, r, h) ==> HoldsAccess(s, r, h);
    assert forall x :: ActorOk(s, x) ==> ActorOk(t, x);
    assert forall r, u :: AccessAt(s, r, u) ==> AccessAt(t, r, u);
  }

  /** Storing a Secret under a new name keeps everything that does not mention batons. */
  lemma StoreKeepsPlain(s: State, name: string, rec: Record)
    requires Inv(s) && Store(s, name, rec).Some? && RecordOk(s, rec)
    ensures var t := Store(s, name, rec).value;
      RecordsOk(t) && ActorsOk(t) && HistoryOk(t) && InvalidatedOk(t)
  {
    var t := Store(s, name, rec).value;
    assert forall x :: RecordOk(s, x) ==> RecordOk(t, x);
    forall a <- t.actors ensures ActorOk(t, t.actors[a]) {
      assert ActorOk(s, s.actors[a]);
    }
  }

  // Each actor's steps.

  /** What a successful invalidation changes: the authcode, read as active and unchanged since, becomes inactive. */
  lemma InvalidateHitsActive(s: State, a: nat)
    requires Inv(s) && a in s.actors && s.actors[a].RedeemUpdate?
    requires ApiServer.Update(s.server, s.actors[a].code, s.actors[a].rv, s.actors[a].rec.(active := false)).Ok?
    ensures var RedeemUpdate(code, _, rec) := s.actors[a];
      && s.server.objects[code].body == rec
      && rec.active
      && code !in s.invalidated
      && Redeem(s, a).server.objects ==
         s.server.objects[code := Object(s.server.objects[code].uid, s.server.next, rec.(active := false))]
  {
    assert ActorOk(s, s.actors[a]);
  }

  lemma InvalidateKeepsPlain(s: State, a: nat)
    requires Inv(s) && a in s.actors && s.actors[a].RedeemUpdate?
    requires ApiServer.Update(s.server, s.actors[a].code, s.actors[a].rv, s.actors[a].rec.(active := false)).Ok?
    ensures var t := Redeem(s, a);
      InStep(t) && HistoryOk(t) && InvalidatedOk(t)
  {
    InvalidateHitsActive(s, a);
    var t := Redeem(s, a);
    assert ActorOk(s, s.actors[a]);
    assert forall r, u :: AccessAt(s, r, u) ==> AccessAt(t, r, u);
  }

  lemma InvalidateKeepsActors(s: State, a: nat)
    requires Inv(s) && a in s.actors && s.actors[a].RedeemUpdate?
    requires ApiServer.Update(s.server, s.actors[a].code, s.actors[a].rv, s.actors[a].rec.(active := false)).Ok?
    ensures RecordsOk(Redeem(s, a)) && ActorsOk(Redeem(s, a))
  {
    InvalidateHitsActive(s, a);
    var t := Redeem(s, a);
    assert ActorOk(s, s.actors[a]);
    assert forall x :: RecordOk(s, x) ==> RecordOk(t, x);
    forall b <- t.actors ensures ActorOk(t, t.actors[b]) {
      if b != a { assert ActorOk(s, s.actors[b]); }
    }
  }

  /** The redeemer takes over the batons of the authcode it invalidated. */
  lemma InvalidateKeeps(s: State, a: nat)
    requires Inv(s) && a in s.actors && s.actors[a].RedeemUpdate?
    requires ApiServer.Update(s.server, s.actors[a].code, s.actors[a].rv, s.actors[a].rec.(active := false)).Ok?
    ensures Inv(Redeem(s, a))
  {
    InvalidateKeepsPlain(s, a);
    InvalidateKeepsActors(s, a);
    InvalidateHitsActive(s, a);
    var RedeemUpdate(code, _, rec) := s.actors[a];
    var t := Redeem(s, a);
    AccessMoves(s, t, rec.request, Stored(code), InFlight(a));
    if rec.offline {
      RefreshMoves(s, t, rec.request, Stored(code), InFlight(a));
    } else {
      assert forall r, h :: HoldsRefresh(t, r, h) ==> HoldsRefresh(s, r, h);
    }
  }

  lemma RedeemKeeps(s: State, a: nat)
    requires Inv(s) && a in s.actors && (s.actors[a].RedeemGet? || s.actors[a].RedeemMeta? || s.actors[a].RedeemUpdate?)
    ensures Inv(Redeem(s, a))
  {
    FinishKeeps(s, a);
    match s.actors[a] {
      case RedeemGet(code) =>
        if code in s.server.objects && s.server.objects[code].body.kind == AuthCode {
          var o := s.server.objects[code];
          BecomeNeutralKeeps(s, a, if o.body.active then RedeemMeta(code, o.rv, o.body) else ReplayList(AccessToken, o.body.request));
        }
      case RedeemMeta(code, rv, rec) =>
        assert ActorOk(s, s.actors[a]);
        BecomeNeutralKeeps(s, a, RedeemUpdate(code, rv, rec));
      case RedeemUpdate(code, rv, rec) =>
        if ApiServer.Update(s.server, code, rv, rec.(active := false)).Ok? {
          InvalidateKeeps(s, a);
        }
    }
  }

  lemma MintAccessKeepsInStep(s: State, a: nat, signature: string)
    requires Inv(s) && a in s.actors && s.actors[a].MintAccess? && Store(s, signature, Access(s.actors[a].rec)).Some?
    ensures InStep(Mint(s, a, signature))
  {
    var rec := s.actors[a].rec;
    assert ActorOk(s, s.actors[a]);
    var t := Mint(s, a, signature);
    assert HoldsAccess(s, rec.request, InFlight(a));
    assert forall n <- s.server.objects :: Labelled(s.server.objects[n].body, AccessToken, rec.request) ==> HoldsAccess(s, rec.request, Stored(n));
    assert AccessAt(t, rec.request, rec.upstream);
    assert forall r, w :: AccessAt(s, r, w) && r != rec.request ==> AccessAt(t, r, w);
    assert rec.offline ==> HoldsRefresh(s, rec.request, InFlight(a));
    forall n | n in t.server.objects && t.server.objects[n].body.kind == RefreshToken
      ensures AccessAt(t, t.server.objects[n].body.request, t.server.objects[n].body.upstream)
    {
      var other := s.server.objects[n].body;
      assert RecordOk(s, other) && HoldsRefresh(s, other.request, Stored(n));
      assert other.request != rec.request;
    }
    forall b | b in t.actors && t.actors[b].MintRefresh?
      ensures AccessAt(t, t.actors[b].rec.request, t.actors[b].rec.upstream)
    {
      if b != a {
        assert ActorOk(s, s.actors[b]) && HoldsRefresh(s, s.actors[b].rec.request, InFlight(b));
        assert s.actors[b].rec.request != rec.request;
      }
    }
  }

  /** The new access token takes over the access baton; the minter keeps the refresh baton, if any. */
  lemma MintAccessKeeps(s: State, a: nat, signature: string)
    requires Inv(s) && a in s.actors && s.actors[a].MintAccess? && Store(s, signature, Access(s.actors[a].rec)).Some?
    ensures Inv(Mint(s, a, signature))
  {
    var rec := s.actors[a].rec;
    assert ActorOk(s, s.actors[a]);
    StoreKeepsPlain(s, signature, Access(rec));
    MintAccessKeepsInStep(s, a, signature);
    MintAccessKeepsBatons(s, a, signature);
    var u := Store(s, signature, Access(rec)).value;
    var t := Mint(s, a, signature);
    assert forall x :: ActorOk(u, x) ==> ActorOk(t, x);
  }

  lemma MintAccessKeepsBatons(s: State, a: nat, signature: string)
    requires Inv(s) && a in s.actors && s.actors[a].MintAccess? && Store(s, signature, Access(s.actors[a].rec)).Some?
    ensures AccessConserved(Mint(s, a, signature)) && RefreshConserved(Mint(s, a, signature))
  {
    var rec, t := s.actors[a].rec, Mint(s, a, signature);
    assert ActorOk(s, s.actors[a]);
    AccessMoves(s, t, rec.request, InFlight(a), Stored(signature));
    assert forall r, h :: HoldsRefresh(t, r, h) ==> HoldsRefresh(s, r, h);
  }

  lemma MintRefreshKeeps(s: State, a: nat, signature: string)
    requires Inv(s) && a in s.actors && s.actors[a].MintRefresh? && Store(s, signature, Refresh(s.actors[a].rec)).Some?
    ensures Inv(Mint(s, a, signature))
  {
    var rec := s.actors[a].rec;
    assert ActorOk(s, s.actors[a]);
    StoreKeepsPlain(s, signature, Refresh(rec));
    var u := Store(s, signature, Refresh(rec)).value;
    var t := Mint(s, a, signature);
    assert forall x :: ActorOk(u, x) ==> ActorOk(t, x);
    RefreshMoves(s, t, rec.request, InFlight(a), Stored(signature));
    assert forall r, h :: HoldsAccess(t, r, h) ==> HoldsAccess(s, r, h);
    assert forall r, w :: AccessAt(s, r, w) ==> AccessAt(t, r, w);
  }

  lemma MintKeeps(s: State, a: nat, signature: string)
    requires Inv(s) && a in s.actors && (s.actors[a].MintAccess? || s.actors[a].MintRefresh?)
    ensures Inv(Mint(s, a, signature))
  {
    var rec := s.actors[a].rec;
    if s.actors[a].MintAccess? {
      if Store(s, signature, Access(rec)).Some? { MintAccessKeeps(s, a, signature); }
    } else {
      if Store(s, signature, Refresh(rec)).Some? { MintRefreshKeeps(s, a, signature); }
    }
  }

  lemma IssueKeeps(s: State)
    requires Inv(s)
    ensures Inv(s.(issued := s.issued + 1))
  {
    var t := s.(issued := s.issued + 1);
    assert forall r, h :: HoldsRefresh(t, r, h) <==> HoldsRefresh(s, r, h);
    assert forall r, h :: HoldsAccess(t, r, h) <==> HoldsAccess(s, r, h);
    assert forall x :: ActorOk(s, x) ==> ActorOk(t, x);
    assert forall r, u :: AccessAt(s, r, u) ==> AccessAt(t, r, u);
  }

  lemma BeginRotationKeeps(s: State, a: nat, token: string, rotated: bool)
    requires Inv(s)
    ensures Inv(BeginRotation(s, a, token, rotated))
  {
    FinishKeeps(s, a);
    if token in s.server.objects && s.server.objects[token].body.kind == RefreshToken {
      var rec := s.server.objects[token].body;
      var t := if rotated then s.(issued := s.issued + 1) else s;
      IssueKeeps(s);
      BecomeNeutralKeeps(t, a, ListAccess(if rotated then rec.(upstream := s.issued + 1) else rec));
    }
  }

  /** A session has at most one stored token of each kind, so listing one for deletion lists exactly one. */
  lemma ListingIsSingle(s: State, kind: Kind, request: string, listing: seq<string>)
    requires Inv(s) && (kind == AccessToken || kind == RefreshToken)
    requires Lists(s.server, kind, request, listing) && listing != []
    ensures ListedOk(s, listing, kind, request)
  {
    var first, last := listing[0], listing[|listing| - 1];
    assert first in listing && last in listing;
    assert RecordOk(s, s.server.objects[first].body) && RecordOk(s, s.server.objects[last].body);
    if kind == AccessToken {
      assert HoldsAccess(s, request, Stored(first)) && HoldsAccess(s, request, Stored(last));
    } else {
      assert HoldsRefresh(s, request, Stored(first)) && HoldsRefresh(s, request, Stored(last));
    }
  }

  /** A successful delete takes the baton from the Secret it deletes. */
  lemma DeleteAccessKeeps(s: State, a: nat)
    requires Inv(s) && a in s.actors && s.actors[a].DeleteAccess?
    ensures Inv(Rotate(s, a, []))
  {
    FinishKeeps(s, a);
    var DeleteAccess(rec, left) := s.actors[a];
    assert ActorOk(s, s.actors[a]);
    if Remove(s, left[0], None).Some? {
      RemoveKeeps(s, left[0], None);
      var u := Remove(s, left[0], None).value;
      var t := Become(u, a, ListRefresh(rec));
      assert forall x :: ActorOk(u, x) ==> ActorOk(t, x);
      assert forall r, w :: AccessAt(u, r, w) ==> AccessAt(t, r, w);
      AccessMoves(s, t, rec.request, Stored(left[0]), InFlight(a));
      assert forall r, h :: HoldsRefresh(t, r, h) ==> HoldsRefresh(u, r, h);
    }
  }

  lemma DeleteRefreshKeeps(s: State, a: nat)
    requires Inv(s) && a in s.actors && s.actors[a].DeleteRefresh?
    ensures Inv(Rotate(s, a, []))
  {
    FinishKeeps(s, a);
    var DeleteRefresh(rec, left) := s.actors[a];
    assert ActorOk(s, s.actors[a]);
    if Remove(s, left[0], None).Some? {
      RemoveKeeps(s, left[0], None);
      var u := Remove(s, left[0], None).value;
      var t := Become(u, a, MintAccess(rec));
      assert RecordOk(s, s.server.objects[left[0]].body);
      assert forall x :: ActorOk(u, x) ==> ActorOk(t, x);
      assert forall r, w :: AccessAt(u, r, w) ==> AccessAt(t, r, w);
      RefreshMoves(s, t, rec.request, Stored(left[0]), InFlight(a));
      assert forall r, h :: HoldsAccess(t, r, h) ==> HoldsAccess(s, r, h);
    }
  }

  /** Between the two deletions the refresher keeps the access baton it took. */
  lemma ListRefreshKeeps(s: State, a: nat, listing: seq<string>)
    requires Inv(s) && a in s.actors && s.actors[a].ListRefresh?
    ensures Inv(Rotate(s, a, listing))
  {
    FinishKeeps(s, a);
    var rec := s.actors[a].rec;
    assert ActorOk(s, s.actors[a]);
    if Lists(s.server, RefreshToken, rec.request, listing) && listing != [] {
      ListingIsSingle(s, RefreshToken, rec.request, listing);
      var t := Become(s, a, DeleteRefresh(rec, listing));
      assert forall x :: ActorOk(s, x) ==> ActorOk(t, x);
      assert forall r, w :: AccessAt(s, r, w) ==> AccessAt(t, r, w);
      assert forall r, h :: HoldsAccess(t, r, h) ==> HoldsAccess(s, r, h);
      assert forall r, h :: HoldsRefresh(t, r, h) ==> HoldsRefresh(s, r, h);
    }
  }

  lemma RotateKeeps(s: State, a: nat, listing: seq<string>)
    requires Inv(s) && a in s.actors
    requires s.actors[a].ListAccess? || s.actors[a].DeleteAccess? || s.actors[a].ListRefresh? || s.actors[a].DeleteRefresh?
    ensures Inv(Rotate(s, a, listing))
  {
    match s.actors[a] {
      case ListAccess(rec) =>
        FinishKeeps(s, a);
        assert ActorOk(s, s.actors[a]);
        if Lists(s.server, AccessToken, rec.request, listing) && listing != [] {
          ListingIsSingle(s, AccessToken, rec.request, listing);
          BecomeNeutralKeeps(s, a, DeleteAccess(rec, listing));
        }
      case DeleteAccess(_, _) => DeleteAccessKeeps(s, a);
      case ListRefresh(_) => ListRefreshKeeps(s, a, listing);
      case DeleteRefresh(_, _) => DeleteRefreshKeeps(s, a);
    }
  }

  lemma AfterReplayKeeps(s: State, a: nat, kind: Kind, request: string)
    requires Inv(s)
    ensures Inv(AfterReplay(s, a, kind, request))
  {
    FinishKeeps(s, a);
    BecomeNeutralKeeps(s, a, ReplayList(RefreshToken, request));
  }

  lemma ReplayKeeps(s: State, a: nat, listing: seq<string>)
    requires Inv(s) && a in s.actors && (s.actors[a].ReplayList? || s.actors[a].ReplayDelete?)
    ensures Inv(Replay(s, a, listing))
  {
    match s.actors[a] {
      case ReplayList(kind, request) =>
        BecomeNeutralKeeps(s, a, ReplayDelete(kind, request, listing));
      case ReplayDelete(kind, request, left) =>
        AfterReplayKeeps(s, a, kind, request);
        if left != [] && Remove(s, left[0], None).Some? {
          RemoveKeeps(s, left[0], None);
          BecomeNeutralKeeps(Remove(s, left[0], None).value, a, ReplayDelete(kind, request, left[1..]));
        }
    }
  }

  lemma SweepKeeps(s: State, a: nat)
    requires Inv(s) && a in s.actors && (s.actors[a].SweepRevoke? || s.actors[a].SweepDelete?)
    ensures Inv(Sweep(s, a))
  {
    FinishKeeps(s, a);
    assert ActorOk(s, s.actors[a]);
    match s.actors[a] {
      case SweepRevoke(name, view) =>
        BecomeNeutralKeeps(s, a, SweepDelete(name, view));
      case SweepDelete(name, view) =>
        var pre := Some(Precondition(view.uid, view.rv));
        if Remove(s, name, pre).Some? {
          RemoveKeeps(s, name, pre);
          FinishKeeps(Remove(s, name, pre).value, a);
        }
    }
  }

  lemma AuthorizeKeepsPlain(s: State, name: string, request: string, offline: bool)
    requires Inv(s) && request !in s.sessions && Store(s, name, Record(AuthCode, request, offline, true, 0)).Some?
    ensures var t := Perform(s, Authorize(name, request, offline));
      InStep(t) && HistoryOk(t) && InvalidatedOk(t)
  {
    var t := Perform(s, Authorize(name, request, offline));
    assert forall r, w :: AccessAt(s, r, w) ==> AccessAt(t, r, w);
  }

  lemma AuthorizeKeepsActors(s: State, name: string, request: string, offline: bool)
    requires Inv(s) && request !in s.sessions && Store(s, name, Record(AuthCode, request, offline, true, 0)).Some?
    ensures var t := Perform(s, Authorize(name, request, offline)); RecordsOk(t) && ActorsOk(t)
  {
    var t := Perform(s, Authorize(name, request, offline));
    assert forall x :: RecordOk(s, x) ==> RecordOk(t, x);
    forall a <- t.actors ensures ActorOk(t, t.actors[a]) {
      assert ActorOk(s, s.actors[a]);
    }
  }

  /** A new session starts with both its batons in the authcode: nobody else can hold one yet. */
  lemma AuthorizeKeeps(s: State, name: string, request: string, offline: bool)
    requires Inv(s)
    ensures Inv(Perform(s, Authorize(name, request, offline)))
  {
    if request !in s.sessions && Store(s, name, Record(AuthCode, request, offline, true, 0)).Some? {
      AuthorizeKeepsPlain(s, name, request, offline);
      AuthorizeKeepsActors(s, name, request, offline);
      AuthorizeKeepsBatons(s, name, request, offline);
    }
  }

  lemma AuthorizeKeepsBatons(s: State, name: string, request: string, offline: bool)
    requires Inv(s) && request !in s.sessions && Store(s, name, Record(AuthCode, request, offline, true, 0)).Some?
    ensures var t := Perform(s, Authorize(name, request, offline)); AccessConserved(t) && RefreshConserved(t)
  {
    HoldersHaveSessions(s);
    var t := Perform(s, Authorize(name, request, offline));
    assert forall r, h :: HoldsAccess(t, r, h) ==> if r == request then h == Stored(name) else HoldsAccess(s, r, h);
    assert forall r, h :: HoldsRefresh(t, r, h) ==> if r == request then h == Stored(name) else HoldsRefresh(s, r, h);
  }

  lemma HoldersHaveSessions(s: State)
    requires Inv(s)
    ensures forall r, h :: HoldsAccess(s, r, h) ==> r in s.sessions
    ensures forall r, h :: HoldsRefresh(s, r, h) ==> r in s.sessions
  {
    forall a <- s.actors ensures ActorOk(s, s.actors[a]) {}
  }

  lemma StoreCompanionKeeps(s: State, name: string, kind: Kind, request: string)
    requires Inv(s)
    ensures Inv(Perform(s, StoreCompanion(name, kind, request)))
  {
    if request in s.sessions && (kind == Pkce || kind == OpenIDConnect) {
      var rec := Record(kind, request, s.sessions[request], false, 0);
      if Store(s, name, rec).Some? {
        StoreKeepsPlain(s, name, rec);
        CompanionHoldsNothing(s, name, rec);
      }
    }
  }

  lemma CompanionHoldsNothing(s: State, name: string, rec: Record)
    requires Inv(s) && Store(s, name, rec).Some? && (rec.kind == Pkce || rec.kind == OpenIDConnect)
    ensures var t := Store(s, name, rec).value; RefreshConserved(t) && AccessConserved(t) && InStep(t)
  {
    var t := Store(s, name, rec).value;
    assert forall r, w :: AccessAt(s, r, w) ==> AccessAt(t, r, w);
    assert forall r, h :: HoldsAccess(t, r, h) ==> HoldsAccess(s, r, h);
    assert forall r, h :: HoldsRefresh(t, r, h) ==> HoldsRefresh(s, r, h);
  }

  lemma PerformKeeps(s: State, action: Action)
    requires Inv(s)
    ensures Inv(Perform(s, action))
  {
    match action {
      case Authorize(name, request, offline) => AuthorizeKeeps(s, name, request, offline);
      case StoreCompanion(name, kind, request) => StoreCompanionKeeps(s, name, kind, request);
      case DropCompanion(name) =>
        if Remove(s, name, None).Some? { RemoveKeeps(s, name, None); }
      case BeginRedeem(a, name) => BecomeNeutralKeeps(s, a, RedeemGet(name));
      case BeginRefresh(a, name) => BecomeNeutralKeeps(s, a, RefreshGet(name));
      case BeginSweep(a, name, view) =>
        if (name, view) in s.history { BecomeNeutralKeeps(s, a, SweepRevoke(name, view)); }
      case Continue(a, c) =>
        if a in s.actors { AdvanceKeeps(s, a, c); }
      case Abandon(a) => FinishKeeps(s, a);
    }
  }

  lemma AdvanceKeeps(s: State, a: nat, c: Choice)
    requires Inv(s) && a in s.actors
    ensures Inv(Advance(s, a, c))
  {
    var actor := s.actors[a];
    if actor.RedeemGet? || actor.RedeemMeta? || actor.RedeemUpdate? {
      RedeemKeeps(s, a);
    } else if actor.MintAccess? || actor.MintRefresh? {
      MintKeeps(s, a, c.signature);
    } else if actor.RefreshGet? {
      BeginRotationKeeps(s, a, actor.token, c.rotated);
    } else if actor.ReplayList? || actor.ReplayDelete? {
      ReplayKeeps(s, a, c.listing);
    } else if actor.SweepRevoke? || actor.SweepDelete? {
      SweepKeeps(s, a);
    } else {
      RotateKeeps(s, a, c.listing);
    }
  }

  lemma {:induction false} RunKeeps(actions: seq<Action>)
    ensures Inv(Run(actions))
  {
    if actions != [] {
      var before, last := actions[..|actions| - 1], actions[|actions| - 1];
      RunKeeps(before);
      PerformKeeps(Run(before), last);
    }
  }

  // What the invariant means.

  ghost predicate EligibleFor(s: State, request: string, name: string) {
    && name in s.server.objects
    && s.server.objects[name].body.request == request
    && Eligible(s.server.objects[name].body)
  }

  /**
   In every interleaving, a session has at most one Secret whose upstream token the garbage
   collector would revoke, and no Secret of the session holds a newer upstream token.
   */
  lemma EligibleIsUniqueAndLatest(actions: seq<Action>, request: string, name: string, other: string)
    requires EligibleFor(Run(actions), request, name)
    ensures EligibleFor(Run(actions), request, other) ==> other == name
    ensures var objects := Run(actions).server.objects;
      other in objects && objects[other].body.request == request ==>
        objects[other].body.upstream <= objects[name].body.upstream
  {
    RunKeeps(actions);
    var s := Run(actions);
    if other in s.server.objects && s.server.objects[other].body.request == request {
      var rec, rec' := s.server.objects[name].body, s.server.objects[other].body;
      assert RecordOk(s, rec) && RecordOk(s, rec');
      assert rec.kind != RefreshToken ==> HoldsAccess(s, request, Stored(name));
      assert rec.kind != AccessToken && rec.offline ==> HoldsRefresh(s, request, Stored(name));
      assert rec'.kind == AccessToken || Eligible(rec') ==>
          HoldsAccess(s, request, Stored(other)) || rec'.kind == RefreshToken;
      assert rec'.kind != AccessToken && Eligible(rec') && rec'.offline ==> HoldsRefresh(s, request, Stored(other));
      if rec.kind == RefreshToken {
        assert AccessAt(s, request, rec.upstream);
      }
    }
  }

  /**
   All stored refresh tokens of a session, whatever they say, with the active code that may still
   lead to one and the requests in flight that took one away and have not stored its successor.
   */
  ghost function RefreshHolders(s: State, request: string): set<Holder> {
    (set n | n in s.server.objects && Labelled(s.server.objects[n].body, RefreshToken, request) :: Stored(n)) +
    (set n | n in s.server.objects && HoldsRefresh(s, request, Stored(n)) :: Stored(n)) +
    (set a | a in s.actors && HoldsRefresh(s, request, InFlight(a)) :: InFlight(a))
  }

  lemma RefreshHoldersHold(s: State, request: string)
    requires RecordsOk(s)
    ensures forall h <- RefreshHolders(s, request) :: HoldsRefresh(s, request, h)
  {
    assert forall n <- s.server.objects :: RecordOk(s, s.server.objects[n].body);
  }

  /** Rotation conserves refresh tokens: stored ones plus ones deleted but not yet replaced never exceed one. */
  lemma RefreshTokensAreConserved(actions: seq<Action>, request: string)
    ensures |RefreshHolders(Run(actions), request)| <= 1
  {
    RunKeeps(actions);
    var s := Run(actions);
    var holders := RefreshHolders(s, request);
    RefreshHoldersHold(s, request);
    if holders != {} {
      var h :| h in holders;
      assert forall k <- holders :: k == h;
      assert holders == {h};
    }
  }

  /** Of all attempts to invalidate an authcode, at most one ever succeeds. */
  lemma AuthcodeIsRedeemedAtMostOnce(actions: seq<Action>, i: nat, j: nat)
    requires i < j < |Run(actions).invalidated|
    ensures Run(actions).invalidated[i] != Run(actions).invalidated[j]
  {
    RunKeeps(actions);
  }

  lemma {:induction false} RunSplits(actions: seq<Action>, more: seq<Action>)
    ensures Run(actions).invalidated <= Run(actions + more).invalidated
  {
    if more == [] {
      assert actions + more == actions;
    } else {
      var all := actions + more;
      assert all[..|all| - 1] == actions + more[..|more| - 1];
      RunSplits(actions, more[..|more| - 1]);
      InvalidatedGrows(Run(all[..|all| - 1]), all[|all| - 1]);
    }
  }

  lemma InvalidatedGrows(s: State, action: Action)
    ensures s.invalidated <= Perform(s, action).invalidated
  {
    if action.Continue? && action.actor in s.actors {
      assert s.invalidated <= Advance(s, action.actor, action.choice).invalidated;
    }
  }

  /** Once an authcode was invalidated, it is never seen active again, however the run continues. */
  lemma InvalidatedStaysInactive(actions: seq<Action>, more: seq<Action>, code: string)
    requires code in Run(actions).invalidated
    ensures var objects := Run(actions + more).server.objects;
      code in objects ==> objects[code].body.kind == AuthCode && !objects[code].body.active
  {
    RunSplits(actions, more);
    RunKeeps(actions + more);
    assert code in Run(actions + more).invalidated;
  }

  /**
   A sweep works on what an informer showed it, which may be old. Its delete goes through exactly
   when the view is still current. An eligible view is current exactly if the Secret it shows is
   still the one to revoke for; then that is the only one of its session, and holds the newest
   upstream token stored for it.
   */
  lemma CurrentViewMeansLatest(actions: seq<Action>, a: nat, other: string)
    requires a in Run(actions).actors && (Run(actions).actors[a].SweepRevoke? || Run(actions).actors[a].SweepDelete?)
    ensures var s := Run(actions);
      var name, view := s.actors[a].name, s.actors[a].view;
      && (Remove(s, name, Some(Precondition(view.uid, view.rv))).Some? <==>
          name in s.server.objects && s.server.objects[name] == view)
      && (Eligible(view.body) ==>
          (name in s.server.objects && s.server.objects[name] == view <==> EligibleFor(s, view.body.request, name)))
      && (name in s.server.objects && s.server.objects[name] == view && Eligible(view.body) ==>
          && (EligibleFor(s, view.body.request, other) ==> other == name)
          && (other in s.server.objects && s.server.objects[other].body.request == view.body.request ==>
              s.server.objects[other].body.upstream <= view.body.upstream))
  {
    RunKeeps(actions);
    var s := Run(actions);
    var name, view := s.actors[a].name, s.actors[a].view;
    assert ActorOk(s, s.actors[a]);
    if name in s.server.objects && s.server.objects[name] == view && Eligible(view.body) {
      EligibleIsUniqueAndLatest(actions, view.body.request, name, other);
    }
  }

  lemma RunOneMore(actions: seq<Action>, action: Action)
    ensures Run(actions + [action]) == Perform(Run(actions), action)
  {
    assert (actions + [action])[..|actions|] == actions;
  }
}
