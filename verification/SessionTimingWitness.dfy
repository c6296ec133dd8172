/** Why nothing less will do: a view that is too old lets a sweep revoke a living session's token. */
module SessionTimingWitness {
  import opened ApiServer
  import opened Sessions
  import opened SessionSafety
  import opened SessionProgress
  import opened Lifetimes
  import opened SessionTiming
  import opened SessionTimingSafety

  ghost predicate Reachable(cfg: Config, t: Timed) {
    exists actions :: TimedRun(cfg, actions) == t
  }

  lemma ReachOn(cfg: Config, t: Timed, action: TimedAction)
    requires Reachable(cfg, t)
    ensures Reachable(cfg, TimedPerform(cfg, t, action))
  {
    var actions :| TimedRun(cfg, actions) == t;
    assert (actions + [action])[..|actions|] == actions;
    assert TimedRun(cfg, actions + [action]) == TimedPerform(cfg, t, action);
  }

  lemma ReachedKeeps(cfg: Config, t: Timed)
    requires Reachable(cfg, t)
    ensures TimedInv(cfg, t)
  {
    var actions :| TimedRun(cfg, actions) == t;
    TimedRunKeeps(cfg, actions);
  }

  /** What later steps of a witness need to know about a step: it happened, at its time. */
  ghost predicate Took(t: Timed, u: Timed, action: Action) {
    && u.s == Sessions.Perform(t.s, action) && u.now == t.now
    && (forall n <- t.created :: n in u.created && u.created[n] == t.created[n])
    && (forall n <- u.created :: n in t.created || u.created[n] == t.now)
  }

  lemma Take(cfg: Config, t: Timed, action: Action) returns (u: Timed)
    requires Reachable(cfg, t) && Enabled(cfg, t, action)
    ensures Reachable(cfg, u) && u == DoStep(cfg, t, action) && Took(t, u, action)
  {
    u := DoStep(cfg, t, action);
    ReachOn(cfg, t, Step(action));
    assert TimedPerform(cfg, t, Step(action)) == u;
  }

  /** A step of a token request that is in time. */
  lemma Go(cfg: Config, t: Timed, a: nat, c: Choice) returns (u: Timed)
    requires Reachable(cfg, t) && a in t.s.actors && IsRequest(t.s.actors[a])
    requires a in t.since && t.now <= t.since[a] + cfg.delay
    ensures Reachable(cfg, u) && Took(t, u, Continue(a, c)) && u.since == t.since
    ensures u == DoStep(cfg, t, Continue(a, c))
  {
    u := Take(cfg, t, Continue(a, c));
  }

  lemma Wait(cfg: Config, t: Timed, d: nat) returns (u: Timed)
    requires Reachable(cfg, t)
    ensures Reachable(cfg, u) && u == t.(now := t.now + d)
  {
    ReachOn(cfg, t, Tick(d));
    u := t.(now := t.now + d);
  }

  function Plainly(signature: string): Choice { Choice(signature, [], false) }

  // Logging in at the last moment of a second.

  const START: int := SECOND - 1
  const CODE := "c"
  const ACCESS := "aa"
  const REFRESH := "rrr"
  const NEXT_ACCESS := "aaaa"
  const NEXT_REFRESH := "rrrrr"

  lemma Authorized(cfg: Config) returns (t: Timed)
    ensures Reachable(cfg, t) && t.now == START && t.s.actors == map[] && t.s.used == {CODE}
    ensures t.s.server == Server(map[CODE := Object(0, 0, LOGIN)], 1)
    ensures t.created == map[CODE := START]
  {
    assert TimedRun(cfg, []) == TimedInit();
    var t0 := Wait(cfg, TimedInit(), START);
    t := Take(cfg, t0, Authorize(CODE, "r", true));
  }

  /** What is new was created just now. */
  ghost predicate CreatedSince(t: Timed, u: Timed) {
    && t.created.Keys <= u.created.Keys
    && forall n <- u.created :: if n in t.created then u.created[n] == t.created[n] else u.created[n] == t.now
  }

  /** Redeeming a code within its lifespan happens as it does without a clock. */
  lemma TimedInvalidate(cfg: Config, t: Timed, a: nat, code: string) returns (u: Timed)
    requires Reachable(cfg, t) && a !in t.s.actors && IsActiveCode(t.s, code) && Unexpired(t, code, AuthCode)
    ensures Reachable(cfg, u) && u.now == t.now && u.s == PlayInvalidate(t.s, a, code)
    ensures CreatedSince(t, u) && a in u.since && u.since[a] == t.now
  {
    InvalidateCompletes(t.s, a, code);
    var t1 := Take(cfg, t, BeginRedeem(a, code));
    var t2 := Take(cfg, t1, Continue(a, Plainly("")));
    var t3 := Go(cfg, t2, a, Plainly(""));
    u := Go(cfg, t3, a, Plainly(""));
  }

  lemma TimedMint(cfg: Config, t: Timed, a: nat, access: string, refresh: string) returns (u: Timed)
    requires Reachable(cfg, t) && a in t.s.actors && t.s.actors[a].MintAccess? && Unused(t.s, access, refresh)
    requires a in t.since && t.now <= t.since[a] + cfg.delay
    ensures Reachable(cfg, u) && u.now == t.now && u.s == PlayMint(t.s, a, access, refresh) && CreatedSince(t, u)
  {
    var t1 := Go(cfg, t, a, Plainly(access));
    if a in t1.s.actors {
      u := Go(cfg, t1, a, Plainly(refresh));
    } else {
      u := t1;
      assert Signed(t1.s, a, refresh) == t1.s;
    }
  }

  const LOGIN := Record(AuthCode, "r", true, true, 0)

  /** The Secrets of a session with one code, redeemed once. */
  const TOKENS: map<string, Object<Record>> := map[
    CODE := Object(0, 1, LOGIN.(active := false)),
    ACCESS := Object(2, 2, Access(LOGIN)),
    REFRESH := Object(3, 3, Refresh(LOGIN))]

  lemma NamesDiffer()
    ensures |CODE| == 1 && |ACCESS| == 2 && |REFRESH| == 3 && |NEXT_ACCESS| == 4 && |NEXT_REFRESH| == 5
  {
  }

  lemma TokensAreStored(s: State)
    requires s.actors == map[] && s.used == {CODE} && s.server == Server(map[CODE := Object(0, 0, LOGIN)], 1)
    ensures var t := PlayRedeem(s, 0, CODE, ACCESS, REFRESH);
      t.server.objects == TOKENS && t.actors == map[] && t.used == {CODE, ACCESS, REFRESH}
    ensures Unused(PlayInvalidate(s, 0, CODE), ACCESS, REFRESH)
    ensures PlayInvalidate(s, 0, CODE).actors == map[0 := MintAccess(LOGIN)]
  {
    NamesDiffer();
    RedeemCompletes(s, 0, CODE, ACCESS, REFRESH);
    InvalidateCompletes(s, 0, CODE);
  }

  lemma LoggedIn(cfg: Config) returns (t: Timed)
    ensures Reachable(cfg, t) && t.now == START && t.s.actors == map[] && t.s.used == {CODE, ACCESS, REFRESH} && t.s.server.objects == TOKENS
    ensures REFRESH in t.created && t.created[REFRESH] == START
  {
    var t0 := Authorized(cfg);
    TokensAreStored(t0.s);
    var t1 := TimedInvalidate(cfg, t0, 0, CODE);
    t := TimedMint(cfg, t1, 0, ACCESS, REFRESH);
    assert REFRESH in t.created by { ReachedKeeps(cfg, t); }
  }

  // Refreshing at the last moment, and sweeping as soon as the old token is due.

  ghost predicate LostAfter(t: Timed, name: string, view: Object<Record>, time: int) {
    && (name, view) in t.s.history
    && (Current(t.s, name, view) || ((name, view.rv) in t.lost && time <= t.lost[(name, view.rv)]))
  }

  lemma LostStays(cfg: Config, t: Timed, action: Action, name: string, view: Object<Record>, time: int)
    requires Reachable(cfg, t) && LostAfter(t, name, view, time) && time <= t.now
    ensures LostAfter(DoStep(cfg, t, action), name, view, time)
  {
    ReachedKeeps(cfg, t);
    PerformIsPlain(t.s, action);
    var u := DoStep(cfg, t, action);
    if Enabled(cfg, t, action) && !Current(u.s, name, view) {
      LostMoves(t, u.s, name, view);
    }
  }

  /** A step of a refresh that is in time, with what it means for an old version of a Secret. */
  lemma GoOn(cfg: Config, t: Timed, a: nat, c: Choice, name: string, view: Object<Record>, time: int) returns (u: Timed)
    requires Reachable(cfg, t) && a in t.s.actors && IsRequest(t.s.actors[a])
    requires a in t.since && t.now <= t.since[a] + cfg.delay
    requires LostAfter(t, name, view, time) && time <= t.now
    ensures Reachable(cfg, u) && Took(t, u, Continue(a, c)) && u.since == t.since && LostAfter(u, name, view, time)
  {
    u := Go(cfg, t, a, c);
    LostStays(cfg, t, Continue(a, c), name, view, time);
  }

  /** Listing and deleting the one access token of the session, within the time there is. */
  lemma TimedAccessDeletion(cfg: Config, t: Timed, a: nat, rec: Record, spent: string, name: string, view: Object<Record>) returns (u: Timed)
    requires Reachable(cfg, t) && a in t.s.actors && t.s.actors[a] == ListAccess(rec)
    requires a in t.since && t.now <= t.since[a] + cfg.delay
    requires Lists(t.s.server, AccessToken, rec.request, [spent]) && LostAfter(t, name, view, t.now)
    ensures Reachable(cfg, u) && u.now == t.now && u.since == t.since && CreatedSince(t, u) && LostAfter(u, name, view, t.now)
    ensures u.s == t.s.(server := t.s.server.(objects := t.s.server.objects - {spent}), actors := t.s.actors[a := ListRefresh(rec)])
  {
    AccessIsDeleted(t.s, a, rec, spent);
    var t1 := GoOn(cfg, t, a, Choice("", [spent], false), name, view, t.now);
    assert t1.s == Listed(t.s, a, [spent]) && t1.s.actors[a] == DeleteAccess(rec, [spent]);
    u := GoOn(cfg, t1, a, Plainly(""), name, view, t.now);
    assert u.s == Proceed(t1.s, a);
  }

  lemma TimedRefreshDeletion(cfg: Config, t: Timed, a: nat, rec: Record, spent: string, view: Object<Record>) returns (u: Timed)
    requires Reachable(cfg, t) && a in t.s.actors && t.s.actors[a] == ListRefresh(rec)
    requires a in t.since && t.now <= t.since[a] + cfg.delay
    requires Lists(t.s.server, RefreshToken, rec.request, [spent]) && LostAfter(t, spent, view, t.now)
    ensures Reachable(cfg, u) && u.now == t.now && u.since == t.since && CreatedSince(t, u) && LostAfter(u, spent, view, t.now)
    ensures u.s == t.s.(server := t.s.server.(objects := t.s.server.objects - {spent}), actors := t.s.actors[a := MintAccess(rec)])
  {
    RefreshIsDeleted(t.s, a, rec, spent);
    var t1 := GoOn(cfg, t, a, Choice("", [spent], false), spent, view, t.now);
    assert t1.s == Listed(t.s, a, [spent]) && t1.s.actors[a] == DeleteRefresh(rec, [spent]);
    u := GoOn(cfg, t1, a, Plainly(""), spent, view, t.now);
    assert u.s == Proceed(t1.s, a);
  }

  lemma TimedDeletions(cfg: Config, t: Timed, a: nat, rec: Record, spent: string, token: string, view: Object<Record>) returns (u: Timed)
    requires Reachable(cfg, t) && a in t.s.actors && t.s.actors[a] == ListAccess(rec)
    requires a in t.since && t.now <= t.since[a] + cfg.delay
    requires Lists(t.s.server, AccessToken, rec.request, [spent]) && Lists(t.s.server, RefreshToken, rec.request, [token])
    requires LostAfter(t, token, view, t.now)
    ensures Reachable(cfg, u) && u.now == t.now && u.since == t.since && CreatedSince(t, u) && LostAfter(u, token, view, t.now)
    ensures u.s.used == t.s.used && u.s.server.objects == t.s.server.objects - {spent} - {token} && u.s.actors == t.s.actors[a := MintAccess(rec)]
  {
    var t1 := TimedAccessDeletion(cfg, t, a, rec, spent, token, view);
    assert spent != token by { assert spent in [spent] && token in [token]; }
    ListsWithout(t.s.server, RefreshToken, rec.request, [token], {spent});
    u := TimedRefreshDeletion(cfg, t1, a, rec, token, view);
  }

  lemma TimedBegins(cfg: Config, t: Timed, a: nat, token: string) returns (u: Timed)
    requires Reachable(cfg, t) && a !in t.s.actors && Unexpired(t, token, RefreshToken)
    requires token in t.s.server.objects && t.s.server.objects[token].body.kind == RefreshToken
    ensures Reachable(cfg, u) && u.now == t.now && CreatedSince(t, u) && a in u.since && u.since[a] == t.now
    ensures u.s == t.s.(actors := t.s.actors[a := ListAccess(t.s.server.objects[token].body)])
  {
    RefreshBegins(t.s, a, token, false);
    var t1 := Take(cfg, t, BeginRefresh(a, token));
    u := Take(cfg, t1, Continue(a, Plainly("")));
    assert u.s == Perform(Perform(t.s, BeginRefresh(a, token)), Continue(a, Choice("", [], false)));
  }

  const VIEW := Object(3, 3, Record(RefreshToken, "r", true, false, 0))

  lemma TokensAreListed(server: Server<Record>)
    requires server.objects == TOKENS
    ensures Lists(server, AccessToken, "r", [ACCESS]) && Lists(server, RefreshToken, "r", [REFRESH])
  {
    NamesDiffer();
  }

  /** The token was checked at the last moment, and `d` has passed since. */
  lemma TokenIsRead(cfg: Config, d: nat) returns (t: Timed)
    ensures Reachable(cfg, t) && t.now == START + REFRESH_TOKEN_LIFESPAN + d && 1 in t.since && t.since[1] == t.now - d
    ensures t.s.actors.Keys == {1} && t.s.actors[1] == ListAccess(VIEW.body) && t.s.used == {CODE, ACCESS, REFRESH} && t.s.server.objects == TOKENS
    ensures REFRESH in t.created && t.created[REFRESH] == START && LostAfter(t, REFRESH, VIEW, t.now)
  {
    var t0 := LoggedIn(cfg);
    var t1 := Wait(cfg, t0, REFRESH_TOKEN_LIFESPAN);
    var t2 := TimedBegins(cfg, t1, 1, REFRESH);
    t := Wait(cfg, t2, d);
    ReachedKeeps(cfg, t);
  }

  lemma TokensAreDeleted(cfg: Config, d: nat) returns (t: Timed)
    requires d <= cfg.delay
    ensures Reachable(cfg, t) && t.now == START + REFRESH_TOKEN_LIFESPAN + d && 1 in t.since && t.since[1] == t.now - d
    ensures t.s.actors.Keys == {1} && t.s.actors[1] == MintAccess(VIEW.body) && t.s.used == {CODE, ACCESS, REFRESH} && t.s.server.objects == TOKENS - {ACCESS} - {REFRESH}
    ensures LostAfter(t, REFRESH, VIEW, t.now) && REFRESH in t.created && t.created[REFRESH] == START
  {
    var t0 := TokenIsRead(cfg, d);
    TokensAreListed(t0.s.server);
    t := TimedDeletions(cfg, t0, 1, VIEW.body, ACCESS, REFRESH, VIEW);
  }

  /** The refresh token was replaced in time, `d` after it was checked. */
  lemma Refreshed(cfg: Config, d: nat) returns (t: Timed)
    requires d <= cfg.delay
    ensures Reachable(cfg, t) && t.now == START + REFRESH_TOKEN_LIFESPAN + d && t.s.actors == map[]
    ensures LostAfter(t, REFRESH, VIEW, t.now) && HasNewToken(t.s)
    ensures REFRESH in t.created && t.created[REFRESH] == START
  {
    NamesDiffer();
    var t0 := TokensAreDeleted(cfg, d);
    t := MintAgain(cfg, t0);
  }

  predicate HasNewToken(s: State) {
    NEXT_REFRESH in s.server.objects && s.server.objects[NEXT_REFRESH].body == VIEW.body
  }

  lemma MintedAgain(s: State)
    requires s.actors.Keys == {1} && s.actors[1] == MintAccess(VIEW.body) && s.used == {CODE, ACCESS, REFRESH} && s.server.objects == TOKENS - {ACCESS} - {REFRESH}
    ensures var s1 := Signed(s, 1, NEXT_ACCESS); s1.actors.Keys == {1} && s1.actors[1] == MintRefresh(VIEW.body)
    ensures var s2 := PlayMint(s, 1, NEXT_ACCESS, NEXT_REFRESH); s2.actors == map[] && HasNewToken(s2)
  {
    NamesDiffer();
    assert s.server.objects.Keys == {CODE};
    MintCompletes(s, 1, NEXT_ACCESS, NEXT_REFRESH);
  }

  lemma MintAgain(cfg: Config, t: Timed) returns (u: Timed)
    requires Reachable(cfg, t) && t.s.actors.Keys == {1} && t.s.actors[1] == MintAccess(VIEW.body) && 1 in t.since && t.now <= t.since[1] + cfg.delay
    requires t.s.used == {CODE, ACCESS, REFRESH} && t.s.server.objects == TOKENS - {ACCESS} - {REFRESH}
    requires LostAfter(t, REFRESH, VIEW, t.now) && REFRESH in t.created && t.created[REFRESH] == START
    ensures Reachable(cfg, u) && u.now == t.now && u.s.actors == map[]
    ensures LostAfter(u, REFRESH, VIEW, u.now) && HasNewToken(u.s)
    ensures REFRESH in u.created && u.created[REFRESH] == START
  {
    MintedAgain(t.s);
    var t1 := GoOn(cfg, t, 1, Plainly(NEXT_ACCESS), REFRESH, VIEW, t.now);
    u := GoOn(cfg, t1, 1, Plainly(NEXT_REFRESH), REFRESH, VIEW, t.now);
    assert u.s == PlayMint(t.s, 1, NEXT_ACCESS, NEXT_REFRESH);
  }

  /** A refresh that breaks off halfway leaves a refresh token without an access token. */
  lemma RefreshTokenCanBeAlone(cfg: Config) returns (t: Timed)
    ensures Reachable(cfg, t) && t.s.actors == map[]
    ensures REFRESH in t.s.server.objects && t.s.server.objects[REFRESH].body == VIEW.body
    ensures Lists(t.s.server, AccessToken, VIEW.body.request, [])
  {
    var t0 := TokenIsRead(cfg, 0);
    NamesDiffer();
    TokensAreListed(t0.s.server);
    var t1 := TimedAccessDeletion(cfg, t0, 1, VIEW.body, ACCESS, REFRESH, VIEW);
    t := Take(cfg, t1, Abandon(1));
    assert t.s.actors == map[];
    assert forall n <- t.s.server.objects :: n in TOKENS && n != ACCESS;
  }

  /** As soon as age of the view and duration of the refresh make up the margin together, a sweep revokes the token that the session still uses. */
  lemma OldViewsHitTheLiving(cfg: Config)
    requires cfg.maxAge + cfg.delay >= MARGIN
    ensures !SparesTheLiving(cfg)
  {
    var d: nat := if cfg.delay < MARGIN then cfg.delay else MARGIN;
    var t := Refreshed(cfg, d);
    var t1 := Wait(cfg, t, MARGIN - d);
    assert Due(RefreshToken, START, t1.now);
    var u := Take(cfg, t1, BeginSweep(2, REFRESH, VIEW));
    assert u.s.actors[2] == SweepRevoke(REFRESH, VIEW);
    assert NEXT_REFRESH != REFRESH by { NamesDiffer(); }
    assert StillUses(u.s, "r", REFRESH, 0) by { assert EligibleFor(u.s, "r", NEXT_REFRESH); }
    var actions :| TimedRun(cfg, actions) == u;
    assert IsRevoking(TimedRun(cfg, actions).s, 2);
  }

  /**
   No sweep ever revokes the upstream token of a session that lives on, if and only if views are
   never so old, and token requests never so slow, that together they make up the two minutes (less
   the second to which deadlines are cut) by which a refresh token's record outlives its use.
   */
  lemma SparesTheLivingExactlyIfFresh(cfg: Config)
    ensures SparesTheLiving(cfg) <==> cfg.maxAge + cfg.delay < MARGIN
  {
    if cfg.maxAge + cfg.delay < MARGIN {
      forall actions, a | IsRevoking(TimedRun(cfg, actions).s, a)
        ensures var s := TimedRun(cfg, actions).s;
          !StillUses(s, s.actors[a].view.body.request, s.actors[a].name, s.actors[a].view.body.upstream)
      {
        FreshViewsSpareTheLiving(cfg, actions, a);
      }
    } else {
      OldViewsHitTheLiving(cfg);
    }
  }
}
