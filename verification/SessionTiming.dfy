/**
 The session protocol with a clock. Codes and refresh tokens are only accepted within their
 lifespans, a token request gets from that check to its last API call within `delay`, and a sweep
 takes up a Secret only when it is due, from a view that was current at most `maxAge` ago. Every
 run is also a run of the protocol without a clock.
 */
module SessionTiming {
  import opened ApiServer
  import opened Sessions
  import opened SessionSafety
  import opened Lifetimes

  datatype Config = Config(delay: nat, maxAge: nat)

  /**
   `created` tells when each Secret was created, `lost` when a version of it stopped being current,
   and `since` when an actor's token was checked, or when its sweep read the clock.
   */
  datatype Timed = Timed(s: State, now: int, created: map<string, int>, lost: map<(string, nat), int>, since: map<nat, int>)

  datatype TimedAction = Step(action: Action) | Tick(d: nat)

  function TimedInit(): Timed {
    Timed(Init(), 0, map[], map[], map[])
  }

  predicate Current(s: State, name: string, view: Object<Record>) {
    name in s.server.objects && s.server.objects[name] == view
  }

  predicate FreshEnough(cfg: Config, t: Timed, name: string, view: Object<Record>) {
    Current(t.s, name, view) || ((name, view.rv) in t.lost && t.now - t.lost[(name, view.rv)] <= cfg.maxAge)
  }

  /** A token of this kind, if it is stored under this name, is within its lifespan. */
  predicate Unexpired(t: Timed, name: string, kind: Kind) {
    name in t.s.server.objects && t.s.server.objects[name].body.kind == kind ==>
      name in t.created && t.now <= t.created[name] + NeededFor(kind)
  }

  predicate IsRequest(actor: Actor) {
    || actor.RedeemMeta? || actor.RedeemUpdate? || actor.MintAccess? || actor.MintRefresh?
    || actor.ListAccess? || actor.DeleteAccess? || actor.ListRefresh? || actor.DeleteRefresh?
  }

  predicate Enabled(cfg: Config, t: Timed, action: Action) {
    match action
    case BeginSweep(a, name, view) =>
      && a !in t.s.actors && (name, view) in t.s.history
      && name in t.created && Due(view.body.kind, t.created[name], t.now) && FreshEnough(cfg, t, name, view)
    case Continue(a, _) =>
      && a in t.s.actors
      && (t.s.actors[a].RedeemGet? ==>
            var code := t.s.actors[a].code;
            code in t.s.server.objects && t.s.server.objects[code].body.active ==> Unexpired(t, code, AuthCode))
      && (t.s.actors[a].RefreshGet? ==> Unexpired(t, t.s.actors[a].token, RefreshToken))
      && (IsRequest(t.s.actors[a]) ==> a in t.since && t.now <= t.since[a] + cfg.delay)
    case _ => true
  }

  function Created(t: Timed, u: State): map<string, int> {
    t.created + map n | n in u.server.objects && n !in t.created :: t.now
  }

  function Lost(t: Timed, u: State): map<(string, nat), int> {
    t.lost + map n | n in t.s.server.objects && !Current(u, n, t.s.server.objects[n]) :: (n, t.s.server.objects[n].rv) := t.now
  }

  function Since(t: Timed, action: Action): map<nat, int> {
    match action
    case BeginSweep(a, _, _) => t.since[a := t.now]
    case Continue(a, _) =>
      if a in t.s.actors && (t.s.actors[a].RedeemGet? || t.s.actors[a].RefreshGet?) then t.since[a := t.now] else t.since
    case _ => t.since
  }

  function DoStep(cfg: Config, t: Timed, action: Action): Timed {
    if !Enabled(cfg, t, action) then t
    else
      var u := Sessions.Perform(t.s, action);
      Timed(u, t.now, Created(t, u), Lost(t, u), Since(t, action))
  }

  function TimedPerform(cfg: Config, t: Timed, action: TimedAction): Timed {
    match action
    case Tick(d) => t.(now := t.now + d)
    case Step(step) => DoStep(cfg, t, step)
  }

  function TimedRun(cfg: Config, actions: seq<TimedAction>): Timed {
    if actions == [] then TimedInit()
    else TimedPerform(cfg, TimedRun(cfg, actions[..|actions| - 1]), actions[|actions| - 1])
  }

  /** Every run with a clock is a run without one, so whatever holds of all of those holds of it. */
  lemma {:induction false} ClockedRunsAreRuns(cfg: Config, actions: seq<TimedAction>) returns (plain: seq<Action>)
    ensures Run(plain) == TimedRun(cfg, actions).s
  {
    plain := [];
    if actions != [] {
      var before, last := actions[..|actions| - 1], actions[|actions| - 1];
      plain := ClockedRunsAreRuns(cfg, before);
      if last.Step? && Enabled(cfg, TimedRun(cfg, before), last.action) {
        RunOneMore(plain, last.action);
        plain := plain + [last.action];
      }
    }
  }

  /** The session can go on without the Secret of this name: another one carries it, or will as soon as a request has stored its tokens. */
  ghost predicate LivesOn(s: State, request: string, name: string) {
    || (exists other :: other != name && EligibleFor(s, request, other))
    || (exists a :: a in s.actors && (s.actors[a].MintAccess? || s.actors[a].MintRefresh?) && s.actors[a].rec.request == request)
  }

  /** ... and with this very upstream token. */
  ghost predicate StillUses(s: State, request: string, name: string, upstream: nat) {
    || (exists other :: other != name && EligibleFor(s, request, other) && s.server.objects[other].body.upstream == upstream)
    || (exists a :: a in s.actors && (s.actors[a].MintAccess? || s.actors[a].MintRefresh?)
          && s.actors[a].rec.request == request && s.actors[a].rec.upstream == upstream)
  }

  /** The actor is a sweep that is about to revoke for the Secret it looked at. */
  predicate IsRevoking(s: State, a: nat) {
    a in s.actors && s.actors[a].SweepRevoke? && Eligible(s.actors[a].view.body)
  }

  /** No sweep ever revokes an upstream token that its session, living on, still uses. */
  ghost predicate SparesTheLiving(cfg: Config) {
    forall actions, a :: IsRevoking(TimedRun(cfg, actions).s, a) ==>
      var s := TimedRun(cfg, actions).s;
      !StillUses(s, s.actors[a].view.body.request, s.actors[a].name, s.actors[a].view.body.upstream)
  }

  // A session's right to go on: whoever holds it can lead to more tokens.

  ghost predicate Holds(s: State, request: string, h: Holder) {
    if request in s.sessions && s.sessions[request] then HoldsRefresh(s, request, h) else HoldsAccess(s, request, h)
  }

  ghost predicate Dead(s: State, request: string) {
    request in s.sessions && forall h :: !Holds(s, request, h)
  }

  lemma EligibleHolds(s: State, request: string, name: string)
    requires Inv(s) && EligibleFor(s, request, name)
    ensures request in s.sessions && Holds(s, request, Stored(name))
  {
    assert RecordOk(s, s.server.objects[name].body);
  }

  lemma LivingHolds(s: State, request: string, name: string)
    requires Inv(s) && LivesOn(s, request, name)
    ensures exists h :: Holds(s, request, h) && h != Stored(name)
  {
    if other :| other != name && EligibleFor(s, request, other) {
      EligibleHolds(s, request, other);
    } else {
      var a :| a in s.actors && (s.actors[a].MintAccess? || s.actors[a].MintRefresh?) && s.actors[a].rec.request == request;
      assert ActorOk(s, s.actors[a]);
      assert Holds(s, request, InFlight(a));
    }
  }

  /** Only one holds a session's right. */
  lemma OneHolds(s: State, request: string, h: Holder, k: Holder)
    requires Inv(s) && Holds(s, request, h) && Holds(s, request, k)
    ensures h == k
  {
  }
}
