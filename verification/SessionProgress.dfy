/** What redeeming, refreshing and replaying achieve when nobody interferes, from any reachable state. */
module SessionProgress {
  import opened ApiServer
  import opened Sessions
  import opened SessionSafety

  function Signed(s: State, a: nat, signature: string): State {
    Perform(s, Continue(a, Choice(signature, [], false)))
  }

  function Listed(s: State, a: nat, listing: seq<string>): State {
    Perform(s, Continue(a, Choice("", listing, false)))
  }

  function Proceed(s: State, a: nat): State {
    Signed(s, a, "")
  }

  /** The last two steps of redeeming and of refreshing. */
  function PlayMint(s: State, a: nat, access: string, refresh: string): State {
    Signed(Signed(s, a, access), a, refresh)
  }

  function PlayInvalidate(s: State, a: nat, code: string): State {
    Proceed(Proceed(Proceed(Perform(s, BeginRedeem(a, code)), a), a), a)
  }

  function PlayRedeem(s: State, a: nat, code: string, access: string, refresh: string): State {
    PlayMint(PlayInvalidate(s, a, code), a, access, refresh)
  }

  function PlayDeletions(s: State, a: nat, token: string, rotated: bool, spent: string): State {
    var s1 := Perform(Perform(s, BeginRefresh(a, token)), Continue(a, Choice("", [], rotated)));
    var s2 := Proceed(Listed(s1, a, [spent]), a);
    Proceed(Listed(s2, a, [token]), a)
  }

  function PlayRefresh(s: State, a: nat, token: string, rotated: bool, spent: string, access: string, refresh: string): State {
    PlayMint(PlayDeletions(s, a, token, rotated, spent), a, access, refresh)
  }

  predicate Unused(s: State, access: string, refresh: string) {
    && access != refresh
    && access !in s.used && access !in s.server.objects
    && refresh !in s.used && refresh !in s.server.objects
  }

  /** The tokens of a session, next to everything that was there. */
  function WithTokens(objects: map<string, Object<Record>>, next: nat, rec: Record, access: string, refresh: string): map<string, Object<Record>> {
    var both := objects[access := Object(next, next, Access(rec))];
    if rec.offline then both[refresh := Object(next + 1, next + 1, Refresh(rec))] else both
  }

  lemma MintCompletes(s: State, a: nat, access: string, refresh: string)
    requires a in s.actors && s.actors[a].MintAccess? && Unused(s, access, refresh)
    ensures var t := PlayMint(s, a, access, refresh);
      && t.server.objects == WithTokens(s.server.objects, s.server.next, s.actors[a].rec, access, refresh)
      && t.actors == s.actors - {a} && t.invalidated == s.invalidated && t.issued == s.issued
      && t.used == s.used + {access} + (if s.actors[a].rec.offline then {refresh} else {})
  {
    var s1 := Signed(s, a, access);
    assert s1.server.objects == s.server.objects[access := Object(s.server.next, s.server.next, Access(s.actors[a].rec))];
  }

  predicate IsActiveCode(s: State, code: string) {
    code in s.server.objects && s.server.objects[code].body.kind == AuthCode && s.server.objects[code].body.active
  }

  /** The three calls of an invalidation, one by one. */
  lemma InvalidateCompletes(s: State, a: nat, code: string)
    requires a !in s.actors && IsActiveCode(s, code)
    ensures var o := s.server.objects[code];
      var s2 := Proceed(Perform(s, BeginRedeem(a, code)), a);
      var s4 := PlayInvalidate(s, a, code);
      && Perform(s, BeginRedeem(a, code)) == Become(s, a, RedeemGet(code))
      && s2 == Become(s, a, RedeemMeta(code, o.rv, o.body))
      && Proceed(s2, a) == Become(s, a, RedeemUpdate(code, o.rv, o.body))
      && s4.server.objects == s.server.objects[code := Object(o.uid, s.server.next, o.body.(active := false))]
      && s4.server.next == s.server.next + 1
      && s4.actors == s.actors[a := MintAccess(o.body)] && s4.used == s.used + {code} && s4.invalidated == s.invalidated + [code]
  {
    var o := s.server.objects[code];
    var s1 := Perform(s, BeginRedeem(a, code));
    var s2 := Proceed(s1, a);
    assert s1.actors[a := RedeemMeta(code, o.rv, o.body)] == s.actors[a := RedeemMeta(code, o.rv, o.body)];
    var s3 := Proceed(s2, a);
    assert s2.actors[a := RedeemUpdate(code, o.rv, o.body)] == s.actors[a := RedeemUpdate(code, o.rv, o.body)];
    assert s3.actors[a := MintAccess(o.body)] == s.actors[a := MintAccess(o.body)];
  }

  /** Redeeming an active code uses it up and stores an access token, and a refresh token if offline access was granted. */
  lemma RedeemCompletes(s: State, a: nat, code: string, access: string, refresh: string)
    requires a !in s.actors && Unused(s, access, refresh)
    requires IsActiveCode(s, code) && code in s.used
    ensures var t := PlayRedeem(s, a, code, access, refresh);
      var o := s.server.objects[code];
      && t.server.objects == WithTokens(s.server.objects[code := Object(o.uid, s.server.next, o.body.(active := false))],
           s.server.next + 1, o.body, access, refresh)
      && t.actors == s.actors && t.invalidated == s.invalidated + [code]
      && t.used == s.used + {access} + (if o.body.offline then {refresh} else {})
  {
    InvalidateCompletes(s, a, code);
    var s4 := PlayInvalidate(s, a, code);
    MintCompletes(s4, a, access, refresh);
    assert s4.actors - {a} == s.actors;
  }

  /** In a reachable state the only refresh token of a session is the one being used. */
  lemma OnlyRefreshToken(actions: seq<Action>, token: string)
    requires var objects := Run(actions).server.objects; token in objects && objects[token].body.kind == RefreshToken
    ensures var s := Run(actions); Lists(s.server, RefreshToken, s.server.objects[token].body.request, [token])
    ensures var s := Run(actions); s.server.objects[token].body.offline && token in s.used
  {
    RunKeeps(actions);
    var s := Run(actions);
    var rec := s.server.objects[token].body;
    assert RecordOk(s, rec) && HoldsRefresh(s, rec.request, Stored(token));
    forall n | n in s.server.objects && Labelled(s.server.objects[n].body, RefreshToken, rec.request) ensures n == token {
      assert RecordOk(s, s.server.objects[n].body) && HoldsRefresh(s, rec.request, Stored(n));
    }
  }

  /** The upstream token that a refresh leaves in the session. */
  function Renewed(s: State, rec: Record, rotated: bool): Record {
    if rotated then rec.(upstream := s.issued + 1) else rec
  }

  /**
   From every reachable state, an undisturbed refresh replaces both tokens of its session, with the
   new upstream token if there is one, and touches nothing else.
   */
  lemma RefreshCompletes(actions: seq<Action>, a: nat, token: string, rotated: bool, spent: string, access: string, refresh: string)
    requires var s := Run(actions);
      && a !in s.actors && Unused(s, access, refresh)
      && token in s.server.objects && s.server.objects[token].body.kind == RefreshToken
      && Lists(s.server, AccessToken, s.server.objects[token].body.request, [spent])
    ensures var s := Run(actions);
      var t := PlayRefresh(s, a, token, rotated, spent, access, refresh);
      && t.server.objects == WithTokens(s.server.objects - {spent} - {token}, s.server.next,
           Renewed(s, s.server.objects[token].body, rotated), access, refresh)
      && t.actors == s.actors && t.issued == s.issued + (if rotated then 1 else 0)
  {
    var s := Run(actions);
    OnlyRefreshToken(actions, token);
    var rec := s.server.objects[token].body;
    RefreshDeletes(s, a, token, rotated, spent);
    var s3 := PlayDeletions(s, a, token, rotated, spent);
    MintCompletes(s3, a, access, refresh);
    assert s3.actors - {a} == s.actors;
  }

  lemma RefreshBegins(s: State, a: nat, token: string, rotated: bool)
    requires a !in s.actors && token in s.server.objects && s.server.objects[token].body.kind == RefreshToken
    ensures Perform(Perform(s, BeginRefresh(a, token)), Continue(a, Choice("", [], rotated))) ==
            s.(actors := s.actors[a := ListAccess(Renewed(s, s.server.objects[token].body, rotated))],
               issued := s.issued + (if rotated then 1 else 0))
  {
    var s1, next := Perform(s, BeginRefresh(a, token)), ListAccess(Renewed(s, s.server.objects[token].body, rotated));
    assert s1.actors[a := next] == s.actors[a := next];
  }

  lemma AccessIsDeleted(s: State, a: nat, rec: Record, spent: string)
    requires a in s.actors && s.actors[a] == ListAccess(rec) && Lists(s.server, AccessToken, rec.request, [spent])
    ensures Proceed(Listed(s, a, [spent]), a) ==
            s.(server := s.server.(objects := s.server.objects - {spent}), actors := s.actors[a := ListRefresh(rec)])
  {
    assert spent in [spent];
    var s1 := Listed(s, a, [spent]);
    assert s1 == Become(s, a, DeleteAccess(rec, [spent]));
    assert s1.actors[a := ListRefresh(rec)] == s.actors[a := ListRefresh(rec)];
  }

  lemma RefreshIsDeleted(s: State, a: nat, rec: Record, spent: string)
    requires a in s.actors && s.actors[a] == ListRefresh(rec) && Lists(s.server, RefreshToken, rec.request, [spent])
    ensures Proceed(Listed(s, a, [spent]), a) ==
            s.(server := s.server.(objects := s.server.objects - {spent}), actors := s.actors[a := MintAccess(rec)])
  {
    assert spent in [spent];
    var s1 := Listed(s, a, [spent]);
    assert s1 == Become(s, a, DeleteRefresh(rec, [spent]));
    assert s1.actors[a := MintAccess(rec)] == s.actors[a := MintAccess(rec)];
  }

  lemma ListsWithout(server: Server<Record>, kind: Kind, request: string, names: seq<string>, gone: set<string>)
    requires Lists(server, kind, request, names) && forall n <- names :: n !in gone
    ensures Lists(server.(objects := server.objects - gone), kind, request, names)
  {
  }

  lemma RefreshDeletes(s: State, a: nat, token: string, rotated: bool, spent: string)
    requires a !in s.actors
    requires token in s.server.objects && s.server.objects[token].body.kind == RefreshToken
    requires Lists(s.server, AccessToken, s.server.objects[token].body.request, [spent])
    requires Lists(s.server, RefreshToken, s.server.objects[token].body.request, [token])
    ensures var t := PlayDeletions(s, a, token, rotated, spent);
      && t.server == s.server.(objects := s.server.objects - {spent} - {token})
      && t.actors == s.actors[a := MintAccess(Renewed(s, s.server.objects[token].body, rotated))]
      && t.used == s.used && t.issued == s.issued + (if rotated then 1 else 0)
  {
    var rec := Renewed(s, s.server.objects[token].body, rotated);
    RefreshBegins(s, a, token, rotated);
    var s1 := s.(actors := s.actors[a := ListAccess(rec)], issued := s.issued + (if rotated then 1 else 0));
    AccessIsDeleted(s1, a, rec, spent);
    var s2 := Proceed(Listed(s1, a, [spent]), a);
    assert spent != token by { assert spent in [spent]; }
    ListsWithout(s.server, RefreshToken, rec.request, [token], {spent});
    RefreshIsDeleted(s2, a, rec, token);
  }

  /** A refresh that finds no access token to delete fails and changes no Secret. */
  lemma RefreshNeedsAccessToken(s: State, a: nat, token: string, rotated: bool)
    requires a !in s.actors && token in s.server.objects && s.server.objects[token].body.kind == RefreshToken
    requires Lists(s.server, AccessToken, s.server.objects[token].body.request, [])
    ensures var t := Listed(Perform(Perform(s, BeginRefresh(a, token)), Continue(a, Choice("", [], rotated))), a, []);
      t.server == s.server && t.actors == s.actors
  {
    var rec := Renewed(s, s.server.objects[token].body, rotated);
    var s1 := Perform(Perform(s, BeginRefresh(a, token)), Continue(a, Choice("", [], rotated)));
    assert s1.actors == s.actors[a := ListAccess(rec)] && s1.server == s.server;
    assert Listed(s1, a, []).actors == s1.actors - {a};
    assert s1.actors - {a} == s.actors;
  }

  // A used code that comes in again.

  /** As many steps as there are names left, and one more to see that none is. */
  function PlayDeleteAll(s: State, a: nat, left: seq<string>): State
    decreases |left|
  {
    if left == [] then Proceed(s, a) else PlayDeleteAll(Proceed(s, a), a, left[1..])
  }

  lemma DropFirst(objects: map<string, Object<Record>>, left: seq<string>)
    requires left != [] && forall i, j :: 0 <= i < j < |left| ==> left[i] != left[j]
    ensures objects - {left[0]} - (set n | n in left[1..]) == objects - (set n | n in left)
    ensures forall n <- left[1..] :: n in left && n != left[0]
  {
    assert left == [left[0]] + left[1..];
    assert objects - {left[0]} - (set n | n in left[1..]) == objects - ({left[0]} + (set n | n in left[1..]));
    assert (set n | n in left) == {left[0]} + (set n | n in left[1..]);
  }

  lemma {:induction false} DeletesAll(s: State, a: nat, kind: Kind, request: string, left: seq<string>)
    requires a in s.actors && s.actors[a] == ReplayDelete(kind, request, left)
    requires forall i, j :: 0 <= i < j < |left| ==> left[i] != left[j]
    requires forall n <- left :: n in s.server.objects
    ensures var t := PlayDeleteAll(s, a, left);
      && t.server == s.server.(objects := s.server.objects - (set n | n in left))
      && t.actors == if kind == AccessToken then s.actors[a := ReplayList(RefreshToken, request)] else s.actors - {a}
    decreases |left|
  {
    if left == [] {
      assert s.server.objects - (set n | n in left) == s.server.objects;
    } else {
      var s1, rest := Proceed(s, a), left[1..];
      assert s1 == Become(s.(server := s.server.(objects := s.server.objects - {left[0]})), a, ReplayDelete(kind, request, rest));
      DropFirst(s.server.objects, left);
      DeletesAll(s1, a, kind, request, rest);
    }
  }

  lemma ReplayDeletes(s: State, a: nat, kind: Kind, request: string, listing: seq<string>)
    requires a in s.actors && s.actors[a] == ReplayList(kind, request) && Lists(s.server, kind, request, listing)
    ensures var t := PlayDeleteAll(Listed(s, a, listing), a, listing);
      && t.server == s.server.(objects := s.server.objects - (set n | n in listing))
      && t.actors == if kind == AccessToken then s.actors[a := ReplayList(RefreshToken, request)] else s.actors - {a}
  {
    var s1 := Listed(s, a, listing);
    assert s1 == Become(s, a, ReplayDelete(kind, request, listing));
    DeletesAll(s1, a, kind, request, listing);
    assert s1.actors - {a} == s.actors - {a};
    assert s1.actors[a := ReplayList(RefreshToken, request)] == s.actors[a := ReplayList(RefreshToken, request)];
  }

  function PlayReplay(s: State, a: nat, code: string, access: seq<string>, refresh: seq<string>): State {
    var s1 := Proceed(Perform(s, BeginRedeem(a, code)), a);
    var s2 := PlayDeleteAll(Listed(s1, a, access), a, access);
    PlayDeleteAll(Listed(s2, a, refresh), a, refresh)
  }

  /** Everything but the access and refresh tokens of a session. */
  function WithoutTokens(objects: map<string, Object<Record>>, request: string): map<string, Object<Record>> {
    map n | n in objects && !Labelled(objects[n].body, AccessToken, request) && !Labelled(objects[n].body, RefreshToken, request) :: objects[n]
  }

  lemma TokensAreListed(server: Server<Record>, request: string, access: seq<string>, refresh: seq<string>)
    requires Lists(server, AccessToken, request, access) && Lists(server, RefreshToken, request, refresh)
    ensures server.objects - (set n | n in access) - (set n | n in refresh) == WithoutTokens(server.objects, request)
  {
  }

  /** Presenting a used code again deletes all access and refresh tokens of its session, and nothing else (section 4.1.2 of RFC 6749). */
  lemma ReplayRevokesTheSession(s: State, a: nat, code: string, access: seq<string>, refresh: seq<string>)
    requires a !in s.actors && code in s.server.objects
    requires s.server.objects[code].body.kind == AuthCode && !s.server.objects[code].body.active
    requires Lists(s.server, AccessToken, s.server.objects[code].body.request, access)
    requires Lists(s.server, RefreshToken, s.server.objects[code].body.request, refresh)
    ensures var t := PlayReplay(s, a, code, access, refresh);
      var request := s.server.objects[code].body.request;
      && t.server.objects == WithoutTokens(s.server.objects, request)
      && t.actors == s.actors
  {
    var request := s.server.objects[code].body.request;
    var s1 := Proceed(Perform(s, BeginRedeem(a, code)), a);
    assert s1 == Become(s, a, ReplayList(AccessToken, request));
    ReplayDeletes(s1, a, AccessToken, request, access);
    var s2 := PlayDeleteAll(Listed(s1, a, access), a, access);
    ListsWithout(s.server, RefreshToken, request, refresh, set n | n in access);
    ReplayDeletes(s2, a, RefreshToken, request, refresh);
    assert s2.actors - {a} == s.actors;
    TokensAreListed(s.server, request, access, refresh);
  }

  // Where sessions come from, and what a sweep takes away.

  /** A login stores an active code with the original upstream token, and nothing else changes. */
  lemma AuthorizeCompletes(s: State, name: string, request: string, offline: bool)
    requires request !in s.sessions && name !in s.used && name !in s.server.objects
    ensures var t := Perform(s, Authorize(name, request, offline));
      && t.server.objects == s.server.objects[name := Object(s.server.next, s.server.next, Record(AuthCode, request, offline, true, 0))]
      && t.sessions == s.sessions[request := offline] && t.actors == s.actors && t.invalidated == s.invalidated && t.issued == s.issued
  {
  }

  /** The PKCE and OpenID Connect records of a session are stored next to its code; the PKCE record is dropped again when it was used. */
  lemma CompanionsComeAndGo(s: State, name: string, kind: Kind, request: string)
    requires request in s.sessions && name !in s.used && name !in s.server.objects
    ensures var t := Perform(s, StoreCompanion(name, kind, request));
      && (kind == Pkce || kind == OpenIDConnect ==>
            t.server.objects == s.server.objects[name := Object(s.server.next, s.server.next, Record(kind, request, s.sessions[request], false, 0))])
      && (kind != Pkce && kind != OpenIDConnect ==> t == s)
      && (kind == Pkce ==> Perform(t, DropCompanion(name)).server.objects == s.server.objects)
      && (kind == OpenIDConnect ==> Perform(t, DropCompanion(name)) == t)
  {
    var t := Perform(s, StoreCompanion(name, kind, request));
    if kind == Pkce {
      assert t.server.objects - {name} == s.server.objects;
    }
  }

  function PlaySweep(s: State, a: nat, name: string, view: Object<Record>): State {
    Proceed(Proceed(Perform(s, BeginSweep(a, name, view)), a), a)
  }

  /**
   From every reachable state, an undisturbed sweep of any version that was ever stored deletes the
   Secret if and only if that version is the current one, and otherwise changes no Secret.
   */
  lemma SweepDeletesExactlyTheSeenVersion(actions: seq<Action>, a: nat, name: string, view: Object<Record>)
    requires var s := Run(actions); a !in s.actors && (name, view) in s.history
    ensures var s := Run(actions);
      var t := PlaySweep(s, a, name, view);
      && t.actors == s.actors
      && t.server.objects == (if name in s.server.objects && s.server.objects[name] == view then s.server.objects - {name} else s.server.objects)
  {
    var s := Run(actions);
    SweepCompletes(s, a, name, view);
    assert HistoryOk(s) by { RunKeeps(actions); }
    if name in s.server.objects && s.server.objects[name].rv == view.rv {
      assert s.server.objects[name] == view by { assert (name, s.server.objects[name]) in s.history; }
    }
  }

  lemma SweepCompletes(s: State, a: nat, name: string, view: Object<Record>)
    requires a !in s.actors && (name, view) in s.history
    ensures var t := PlaySweep(s, a, name, view);
      && t.actors == s.actors
      && t.server.objects == (if name in s.server.objects && s.server.objects[name].uid == view.uid && s.server.objects[name].rv == view.rv
                              then s.server.objects - {name} else s.server.objects)
  {
    var s1 := Perform(s, BeginSweep(a, name, view));
    assert s1 == Become(s, a, SweepRevoke(name, view));
    var s2 := Proceed(s1, a);
    assert s2.actors == s.actors[a := SweepDelete(name, view)];
    assert s2.actors - {a} == s.actors;
  }
}
