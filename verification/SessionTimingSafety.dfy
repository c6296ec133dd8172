/** Why a sweep with a fresh enough view spares every living session. */
module SessionTimingSafety {
  import opened ApiServer
  import opened Sessions
  import opened SessionSafety
  import opened Lifetimes
  import opened SessionTiming

  // What a step of the protocol does, apart from who holds what.

  ghost predicate Plain(s: State, u: State) {
    && (forall r <- s.sessions :: r in u.sessions && u.sessions[r] == s.sessions[r])
    && s.history <= u.history
    && (forall e <- u.history :: e in s.history || Current(u, e.0, e.1))
    && (forall n :: n in u.used <==> n in s.used || n in u.server.objects)
    && (forall n <- u.server.objects :: n in s.server.objects || n !in s.used)
    && (forall n <- s.server.objects :: n in u.server.objects ==>
          && u.server.objects[n].body.kind == s.server.objects[n].body.kind
          && u.server.objects[n].body.request == s.server.objects[n].body.request)
  }

  lemma RedeemIsPlain(s: State, a: nat)
    requires Inv(s) && a in s.actors && (s.actors[a].RedeemGet? || s.actors[a].RedeemMeta? || s.actors[a].RedeemUpdate?)
    ensures Plain(s, Redeem(s, a))
  {
    if s.actors[a].RedeemUpdate? {
      var RedeemUpdate(code, rv, rec) := s.actors[a];
      if ApiServer.Update(s.server, code, rv, rec.(active := false)).Ok? {
        InvalidateHitsActive(s, a);
      }
    }
  }

  lemma AdvanceIsPlain(s: State, a: nat, c: Choice)
    requires Inv(s) && a in s.actors
    ensures Plain(s, Advance(s, a, c))
  {
    var actor := s.actors[a];
    if actor.RedeemGet? || actor.RedeemMeta? || actor.RedeemUpdate? {
      RedeemIsPlain(s, a);
    } else if actor.MintAccess? || actor.MintRefresh? {
      MintIsPlain(s, a, c.signature);
    } else if actor.ReplayList? || actor.ReplayDelete? || actor.SweepRevoke? || actor.SweepDelete? || actor.RefreshGet? {
      OtherIsPlain(s, a, c);
    } else {
      RotateIsPlain(s, a, c.listing);
    }
  }

  lemma MintIsPlain(s: State, a: nat, signature: string)
    requires Inv(s) && a in s.actors && (s.actors[a].MintAccess? || s.actors[a].MintRefresh?)
    ensures Plain(s, Mint(s, a, signature))
  {
  }

  lemma RotateIsPlain(s: State, a: nat, listing: seq<string>)
    requires Inv(s) && a in s.actors
    requires s.actors[a].ListAccess? || s.actors[a].DeleteAccess? || s.actors[a].ListRefresh? || s.actors[a].DeleteRefresh?
    ensures Plain(s, Rotate(s, a, listing))
  {
  }

  /** Whatever is not a token request stores nothing, and takes nothing over. */
  ghost predicate OnlyRemoves(s: State, u: State, a: nat) {
    && u.sessions == s.sessions && u.history == s.history && u.used == s.used
    && (forall n <- u.server.objects :: n in s.server.objects && u.server.objects[n] == s.server.objects[n])
    && (forall b <- u.actors :: b != a ==> b in s.actors && u.actors[b] == s.actors[b])
    && (a in u.actors ==> !u.actors[a].MintAccess? && !u.actors[a].MintRefresh? && !u.actors[a].ListRefresh? && !u.actors[a].DeleteRefresh?)
  }

  lemma OthersOnlyRemove(s: State, a: nat, c: Choice)
    requires a in s.actors && !IsRequest(s.actors[a]) && !s.actors[a].RedeemGet?
    ensures OnlyRemoves(s, Advance(s, a, c), a)
  {
  }

  lemma OtherIsPlain(s: State, a: nat, c: Choice)
    requires Inv(s) && a in s.actors && !IsRequest(s.actors[a]) && !s.actors[a].RedeemGet?
    ensures Plain(s, Advance(s, a, c))
  {
    OthersOnlyRemove(s, a, c);
  }

  lemma PerformIsPlain(s: State, action: Action)
    requires Inv(s)
    ensures Plain(s, Perform(s, action))
  {
    if action.Continue? && action.actor in s.actors {
      AdvanceIsPlain(s, action.actor, action.choice);
    }
  }

  // Who held a right before a step.

  lemma RedeemRight(s: State, a: nat, r: string, h: Holder) returns (k: Holder)
    requires Inv(s) && a in s.actors && (s.actors[a].RedeemGet? || s.actors[a].RedeemMeta? || s.actors[a].RedeemUpdate?)
    requires r in s.sessions && Holds(Redeem(s, a), r, h)
    ensures Holds(s, r, k)
  {
    k := h;
    if s.actors[a].RedeemUpdate? {
      var RedeemUpdate(code, rv, rec) := s.actors[a];
      if ApiServer.Update(s.server, code, rv, rec.(active := false)).Ok? {
        InvalidateHitsActive(s, a);
        assert RecordOk(s, rec);
        k := if h == InFlight(a) then Stored(code) else h;
      }
    }
  }

  lemma MintRight(s: State, a: nat, signature: string, r: string, h: Holder) returns (k: Holder)
    requires Inv(s) && a in s.actors && (s.actors[a].MintAccess? || s.actors[a].MintRefresh?)
    requires r in s.sessions && Holds(Mint(s, a, signature), r, h)
    ensures Holds(s, r, k)
  {
    assert ActorOk(s, s.actors[a]);
    k := if h == Stored(signature) && signature !in s.used then InFlight(a) else h;
  }

  lemma RotateRight(s: State, a: nat, listing: seq<string>, r: string, h: Holder) returns (k: Holder)
    requires Inv(s) && a in s.actors
    requires s.actors[a].ListAccess? || s.actors[a].DeleteAccess? || s.actors[a].ListRefresh? || s.actors[a].DeleteRefresh?
    requires r in s.sessions && Holds(Rotate(s, a, listing), r, h)
    ensures Holds(s, r, k)
  {
    assert ActorOk(s, s.actors[a]);
    k := h;
    if s.actors[a].DeleteRefresh? && h == InFlight(a) {
      k := Stored(s.actors[a].left[0]);
      assert RecordOk(s, s.server.objects[s.actors[a].left[0]].body);
    }
  }

  lemma OtherRight(s: State, a: nat, c: Choice, r: string, h: Holder)
    requires Inv(s) && a in s.actors && r in s.sessions
    requires !IsRequest(s.actors[a]) && !s.actors[a].RedeemGet?
    requires Holds(Advance(s, a, c), r, h)
    ensures Holds(s, r, h)
  {
    OthersOnlyRemove(s, a, c);
  }

  lemma RightComesFrom(s: State, action: Action, r: string, h: Holder) returns (k: Holder)
    requires Inv(s) && r in s.sessions && Holds(Perform(s, action), r, h)
    ensures Holds(s, r, k)
  {
    k := h;
    if action.Continue? && action.actor in s.actors {
      var a := action.actor;
      var actor := s.actors[a];
      if actor.RedeemGet? || actor.RedeemMeta? || actor.RedeemUpdate? {
        k := RedeemRight(s, a, r, h);
      } else if actor.MintAccess? || actor.MintRefresh? {
        k := MintRight(s, a, action.choice.signature, r, h);
      } else if IsRequest(actor) {
        k := RotateRight(s, a, action.choice.listing, r, h);
      } else {
        OtherRight(s, a, action.choice, r, h);
      }
    }
  }

  lemma DeadStays(s: State, action: Action, r: string)
    requires Inv(s) && Dead(s, r)
    ensures Dead(Perform(s, action), r)
  {
    PerformIsPlain(s, action);
    forall h ensures !Holds(Perform(s, action), r, h) {
      if Holds(Perform(s, action), r, h) {
        var k := RightComesFrom(s, action, r, h);
      }
    }
  }

  /**
   In every run, the Secrets that the garbage collector would revoke for are exactly those that carry
   their session's right to go on: none is forgotten, and no other is hit.
   */
  lemma EligibleExactlyIfHolding(actions: seq<Action>, request: string, name: string)
    ensures EligibleFor(Run(actions), request, name) <==> Holds(Run(actions), request, Stored(name))
  {
    RunKeeps(actions);
    var s := Run(actions);
    if name in s.server.objects {
      assert RecordOk(s, s.server.objects[name].body);
    }
  }

  // Why an eligible Secret stops being current.

  /** A token request takes it over: the redeemer of a code, or the refresh that deletes its token. */
  ghost predicate TakenOver(s: State, action: Action, name: string) {
    && action.Continue? && action.actor in s.actors
    && match s.actors[action.actor]
       case RedeemUpdate(code, _, _) => code == name
       case DeleteRefresh(rec, left) =>
         left != [] && left[0] == name && name in s.server.objects && Labelled(s.server.objects[name].body, RefreshToken, rec.request)
       case _ => false
  }

  lemma RemovalKills(s: State, u: State, name: string)
    requires Inv(s) && name in s.server.objects && Eligible(s.server.objects[name].body) && name !in u.server.objects
    requires u.sessions == s.sessions
    requires forall h :: Holds(u, s.server.objects[name].body.request, h) ==> Holds(s, s.server.objects[name].body.request, h)
    ensures Dead(u, s.server.objects[name].body.request)
  {
    var r := s.server.objects[name].body.request;
    EligibleHolds(s, r, name);
    forall h ensures !Holds(u, r, h) {
      if Holds(u, r, h) {
        OneHolds(s, r, h, Stored(name));
      }
    }
  }

  lemma OtherLoss(s: State, a: nat, c: Choice, name: string)
    requires Inv(s) && a in s.actors && !IsRequest(s.actors[a]) && !s.actors[a].RedeemGet?
    requires name in s.server.objects && Eligible(s.server.objects[name].body)
    requires !Current(Advance(s, a, c), name, s.server.objects[name])
    ensures Dead(Advance(s, a, c), s.server.objects[name].body.request)
  {
    var u := Advance(s, a, c);
    assert RecordOk(s, s.server.objects[name].body);
    forall h | Holds(u, s.server.objects[name].body.request, h) ensures Holds(s, s.server.objects[name].body.request, h) {
      OtherRight(s, a, c, s.server.objects[name].body.request, h);
    }
    RemovalKills(s, u, name);
  }

  lemma RequestLoss(s: State, a: nat, c: Choice, name: string)
    requires Inv(s) && a in s.actors && (IsRequest(s.actors[a]) || s.actors[a].RedeemGet?)
    requires name in s.server.objects && Eligible(s.server.objects[name].body)
    requires !Current(Advance(s, a, c), name, s.server.objects[name])
    ensures TakenOver(s, Continue(a, c), name)
  {
    assert ActorOk(s, s.actors[a]);
    assert RecordOk(s, s.server.objects[name].body);
  }

  lemma LossIsExplained(s: State, action: Action, name: string)
    requires Inv(s) && name in s.server.objects && Eligible(s.server.objects[name].body)
    requires !Current(Perform(s, action), name, s.server.objects[name])
    ensures Dead(Perform(s, action), s.server.objects[name].body.request) || TakenOver(s, action, name)
  {
    if action.Continue? && action.actor in s.actors {
      if IsRequest(s.actors[action.actor]) || s.actors[action.actor].RedeemGet? {
        RequestLoss(s, action.actor, action.choice, name);
      } else {
        OtherLoss(s, action.actor, action.choice, name);
      }
    }
  }

  // The invariant.

  /** The refresh tokens of the session that are stored now were good for use at the given time. */
  ghost predicate RefreshGoodAt(t: Timed, request: string, time: int) {
    forall n <- t.s.server.objects :: Labelled(t.s.server.objects[n].body, RefreshToken, request) ==>
      n in t.created && time <= t.created[n] + NeededFor(RefreshToken)
  }

  /** The Secret was due when the sweep began, and its view was fresh enough. */
  ghost predicate SweepOk(cfg: Config, t: Timed, began: int, name: string, view: Object<Record>) {
    && name in t.created && Due(view.body.kind, t.created[name], began)
    && (Current(t.s, name, view) || ((name, view.rv) in t.lost && began - cfg.maxAge <= t.lost[(name, view.rv)]))
  }

  ghost predicate ActorTimes(cfg: Config, t: Timed, a: nat, actor: Actor) {
    match actor
    case RedeemMeta(code, _, _) => a in t.since && code in t.created && t.since[a] <= t.created[code] + NeededFor(AuthCode)
    case RedeemUpdate(code, _, _) => a in t.since && code in t.created && t.since[a] <= t.created[code] + NeededFor(AuthCode)
    case ListAccess(rec) => a in t.since && RefreshGoodAt(t, rec.request, t.since[a])
    case DeleteAccess(rec, _) => a in t.since && RefreshGoodAt(t, rec.request, t.since[a])
    case ListRefresh(rec) => a in t.since && RefreshGoodAt(t, rec.request, t.since[a])
    case DeleteRefresh(rec, _) => a in t.since && RefreshGoodAt(t, rec.request, t.since[a])
    case SweepRevoke(name, view) => a in t.since && SweepOk(cfg, t, t.since[a], name, view)
    case _ => true
  }

  ghost predicate ClocksOk(t: Timed) {
    && t.created.Keys == t.s.used
    && (forall n <- t.created :: t.created[n] <= t.now)
    && (forall a <- t.since :: t.since[a] <= t.now)
  }

  /** An eligible version that is no longer current was taken over in good time, unless its session is dead. */
  ghost predicate LossOk(cfg: Config, t: Timed, name: string, view: Object<Record>) {
    Eligible(view.body) && !Current(t.s, name, view) ==>
      && name in t.created && (name, view.rv) in t.lost
      && (Dead(t.s, view.body.request) || t.lost[(name, view.rv)] <= t.created[name] + NeededFor(view.body.kind) + cfg.delay)
  }

  ghost predicate TimedInv(cfg: Config, t: Timed) {
    && Inv(t.s)
    && ClocksOk(t)
    && (forall a <- t.s.actors :: ActorTimes(cfg, t, a, t.s.actors[a]))
    && (forall e <- t.s.history :: LossOk(cfg, t, e.0, e.1))
  }

  lemma TickKeeps(cfg: Config, t: Timed, d: nat)
    requires TimedInv(cfg, t)
    ensures TimedInv(cfg, t.(now := t.now + d))
  {
    var u := t.(now := t.now + d);
    forall a <- u.s.actors ensures ActorTimes(cfg, u, a, u.s.actors[a]) {
      assert ActorTimes(cfg, t, a, t.s.actors[a]);
    }
    forall e <- u.s.history ensures LossOk(cfg, u, e.0, e.1) {
      assert LossOk(cfg, t, e.0, e.1);
    }
  }

  /** A loss that happens in this step is recorded now, and earlier ones stay as they were recorded. */
  lemma LostMoves(t: Timed, u: State, name: string, view: Object<Record>)
    requires Inv(t.s) && (name, view) in t.s.history && !Current(u, name, view)
    ensures Current(t.s, name, view) ==> (name, view.rv) in Lost(t, u) && Lost(t, u)[(name, view.rv)] == t.now
    ensures !Current(t.s, name, view) && (name, view.rv) in t.lost ==>
            (name, view.rv) in Lost(t, u) && Lost(t, u)[(name, view.rv)] == t.lost[(name, view.rv)]
  {
  }

  lemma LossStays(cfg: Config, t: Timed, action: Action, name: string, view: Object<Record>)
    requires TimedInv(cfg, t) && Enabled(cfg, t, action) && (name, view) in t.s.history && !Current(t.s, name, view)
    ensures LossOk(cfg, DoStep(cfg, t, action), name, view)
  {
    var u := DoStep(cfg, t, action);
    assert LossOk(cfg, t, name, view);
    if Eligible(view.body) && !Current(u.s, name, view) {
      LostMoves(t, u.s, name, view);
      if Dead(t.s, view.body.request) {
        DeadStays(t.s, action, view.body.request);
      }
    }
  }

  lemma TakenInTime(cfg: Config, t: Timed, action: Action, name: string)
    requires TimedInv(cfg, t) && Enabled(cfg, t, action) && TakenOver(t.s, action, name)
    requires name in t.s.server.objects && !Current(Perform(t.s, action), name, t.s.server.objects[name])
    ensures name in t.created && t.now <= t.created[name] + NeededFor(t.s.server.objects[name].body.kind) + cfg.delay
  {
    var a := action.actor;
    assert ActorTimes(cfg, t, a, t.s.actors[a]);
    if t.s.actors[a].RedeemUpdate? {
      var RedeemUpdate(code, rv, rec) := t.s.actors[a];
      assert ApiServer.Update(t.s.server, code, rv, rec.(active := false)).Ok?;
      InvalidateHitsActive(t.s, a);
      assert ActorOk(t.s, t.s.actors[a]);
    }
  }

  lemma LossBegins(cfg: Config, t: Timed, action: Action, name: string)
    requires TimedInv(cfg, t) && Enabled(cfg, t, action) && name in t.s.server.objects
    ensures LossOk(cfg, DoStep(cfg, t, action), name, t.s.server.objects[name])
  {
    var u, view := DoStep(cfg, t, action), t.s.server.objects[name];
    if Eligible(view.body) && !Current(u.s, name, view) {
      LostMoves(t, u.s, name, view);
      LossIsExplained(t.s, action, name);
      if TakenOver(t.s, action, name) {
        TakenInTime(cfg, t, action, name);
      }
    }
  }

  lemma LossesOk(cfg: Config, t: Timed, action: Action)
    requires TimedInv(cfg, t) && Enabled(cfg, t, action)
    ensures var u := DoStep(cfg, t, action); forall e <- u.s.history :: LossOk(cfg, u, e.0, e.1)
  {
    var u := DoStep(cfg, t, action);
    PerformIsPlain(t.s, action);
    forall e <- u.s.history ensures LossOk(cfg, u, e.0, e.1) {
      if e in t.s.history {
        if Current(t.s, e.0, e.1) {
          LossBegins(cfg, t, action, e.0);
        } else {
          LossStays(cfg, t, action, e.0, e.1);
        }
      }
    }
  }

  lemma ClocksStay(cfg: Config, t: Timed, action: Action)
    requires TimedInv(cfg, t) && Enabled(cfg, t, action)
    ensures ClocksOk(DoStep(cfg, t, action))
  {
    PerformIsPlain(t.s, action);
  }

  /** Tokens that were good at some past time still are, and new ones are younger. */
  lemma RefreshStaysGood(t: Timed, u: Timed, request: string, time: int)
    requires Plain(t.s, u.s) && ClocksOk(t) && RecordsOk(t.s) && RefreshGoodAt(t, request, time) && time <= t.now
    requires u.created == Created(t, u.s)
    ensures RefreshGoodAt(u, request, time)
  {
    forall n | n in u.s.server.objects && Labelled(u.s.server.objects[n].body, RefreshToken, request)
      ensures n in u.created && time <= u.created[n] + NeededFor(RefreshToken)
    {
      if n in t.s.server.objects {
        assert Labelled(t.s.server.objects[n].body, RefreshToken, request);
      }
    }
  }

  lemma SweepStaysOk(cfg: Config, t: Timed, action: Action, began: int, name: string, view: Object<Record>)
    requires TimedInv(cfg, t) && Enabled(cfg, t, action) && (name, view) in t.s.history
    requires SweepOk(cfg, t, began, name, view) && began <= t.now
    ensures SweepOk(cfg, DoStep(cfg, t, action), began, name, view)
  {
    var u := DoStep(cfg, t, action);
    if !Current(u.s, name, view) {
      LostMoves(t, u.s, name, view);
    }
  }

  predicate IsRotation(actor: Actor) {
    actor.ListAccess? || actor.DeleteAccess? || actor.ListRefresh? || actor.DeleteRefresh?
  }

  /** Nothing that an actor relies on is spoilt by a step that leaves its time alone. */
  lemma TimesStay(cfg: Config, t: Timed, action: Action, a: nat, actor: Actor)
    requires TimedInv(cfg, t) && Enabled(cfg, t, action) && ActorOk(t.s, actor) && ActorTimes(cfg, t, a, actor)
    requires a in t.since ==> a in Since(t, action) && Since(t, action)[a] == t.since[a]
    ensures ActorTimes(cfg, DoStep(cfg, t, action), a, actor)
  {
    var u := DoStep(cfg, t, action);
    if IsRotation(actor) {
      assert RefreshGoodAt(u, actor.rec.request, t.since[a]) by {
        PerformIsPlain(t.s, action);
        RefreshStaysGood(t, u, actor.rec.request, t.since[a]);
      }
    } else if actor.SweepRevoke? {
      SweepStaysOk(cfg, t, action, t.since[a], actor.name, actor.view);
    }
  }

  // Who acts in a step, and where that actor is then.

  predicate Acts(action: Action, a: nat) {
    match action
    case BeginRedeem(b, _) => a == b
    case BeginRefresh(b, _) => a == b
    case BeginSweep(b, _, _) => a == b
    case Continue(b, _) => a == b
    case Abandon(b) => a == b
    case _ => false
  }

  lemma OthersDoNotMove(s: State, action: Action, b: nat)
    requires b in Perform(s, action).actors && !Acts(action, b)
    ensures b in s.actors && Perform(s, action).actors[b] == s.actors[b]
  {
  }

  /** An actor within a rotation came from within it, with the same session, or has just read its token. */
  lemma RotationComesFrom(s: State, a: nat, c: Choice)
    requires a in s.actors && a in Advance(s, a, c).actors && IsRotation(Advance(s, a, c).actors[a])
    ensures var next := Advance(s, a, c).actors[a];
      if s.actors[a].RefreshGet? then
        && s.actors[a].token in s.server.objects
        && Labelled(s.server.objects[s.actors[a].token].body, RefreshToken, next.rec.request)
      else IsRotation(s.actors[a]) && s.actors[a].rec.request == next.rec.request
  {
  }

  /** In a reachable state all stored refresh tokens of a session are the one that is being used. */
  lemma OnlyTokenIsGood(t: Timed, token: string)
    requires Inv(t.s) && ClocksOk(t) && Unexpired(t, token, RefreshToken)
    requires token in t.s.server.objects && t.s.server.objects[token].body.kind == RefreshToken
    ensures RefreshGoodAt(t, t.s.server.objects[token].body.request, t.now)
  {
    var request := t.s.server.objects[token].body.request;
    forall n | n in t.s.server.objects && Labelled(t.s.server.objects[n].body, RefreshToken, request)
      ensures n == token
    {
      assert RecordOk(t.s, t.s.server.objects[n].body) && RecordOk(t.s, t.s.server.objects[token].body);
      assert HoldsRefresh(t.s, request, Stored(n)) && HoldsRefresh(t.s, request, Stored(token));
    }
  }

  lemma RotatorTimes(cfg: Config, t: Timed, a: nat, c: Choice)
    requires TimedInv(cfg, t) && Enabled(cfg, t, Continue(a, c))
    requires var u := DoStep(cfg, t, Continue(a, c)); a in u.s.actors && IsRotation(u.s.actors[a])
    ensures var u := DoStep(cfg, t, Continue(a, c)); ActorTimes(cfg, u, a, u.s.actors[a])
  {
    var u := DoStep(cfg, t, Continue(a, c));
    RotationComesFrom(t.s, a, c);
    PerformIsPlain(t.s, Continue(a, c));
    assert ActorTimes(cfg, t, a, t.s.actors[a]);
    var request := u.s.actors[a].rec.request;
    if t.s.actors[a].RefreshGet? {
      OnlyTokenIsGood(t, t.s.actors[a].token);
      RefreshStaysGood(t, u, request, t.now);
    } else {
      RefreshStaysGood(t, u, request, t.since[a]);
    }
  }

  /** A redeemer came from reading the code, or has just read it. */
  lemma RedeemerComesFrom(s: State, a: nat, c: Choice)
    requires a in s.actors && a in Advance(s, a, c).actors
    requires Advance(s, a, c).actors[a].RedeemMeta? || Advance(s, a, c).actors[a].RedeemUpdate?
    ensures var next := Advance(s, a, c).actors[a];
      if s.actors[a].RedeemGet? then
        && s.actors[a].code == next.code && next.code in s.server.objects
        && s.server.objects[next.code].body.kind == AuthCode && s.server.objects[next.code].body.active
      else s.actors[a].RedeemMeta? && s.actors[a].code == next.code
  {
  }

  lemma RedeemerTimes(cfg: Config, t: Timed, a: nat, c: Choice)
    requires TimedInv(cfg, t) && Enabled(cfg, t, Continue(a, c))
    requires var u := DoStep(cfg, t, Continue(a, c)); a in u.s.actors && (u.s.actors[a].RedeemMeta? || u.s.actors[a].RedeemUpdate?)
    ensures var u := DoStep(cfg, t, Continue(a, c)); ActorTimes(cfg, u, a, u.s.actors[a])
  {
    RedeemerComesFrom(t.s, a, c);
    assert ActorTimes(cfg, t, a, t.s.actors[a]);
  }

  lemma SweepsBegin(s: State, a: nat, c: Choice)
    requires a in s.actors && a in Advance(s, a, c).actors
    ensures !Advance(s, a, c).actors[a].SweepRevoke?
  {
  }

  lemma ActingActorTimes(cfg: Config, t: Timed, action: Action, a: nat)
    requires TimedInv(cfg, t) && Enabled(cfg, t, action) && Acts(action, a) && a in DoStep(cfg, t, action).s.actors
    ensures var u := DoStep(cfg, t, action); ActorTimes(cfg, u, a, u.s.actors[a])
  {
    var u := DoStep(cfg, t, action);
    if action.Continue? {
      SweepsBegin(t.s, a, action.choice);
      if IsRotation(u.s.actors[a]) {
        RotatorTimes(cfg, t, a, action.choice);
      } else if u.s.actors[a].RedeemMeta? || u.s.actors[a].RedeemUpdate? {
        RedeemerTimes(cfg, t, a, action.choice);
      }
    } else if action.BeginSweep? {
      assert u.s.server == t.s.server;
    } else if (action.BeginRedeem? || action.BeginRefresh?) && a in t.s.actors {
      assert ActorTimes(cfg, t, a, t.s.actors[a]) && ActorOk(t.s, t.s.actors[a]);
      TimesStay(cfg, t, action, a, t.s.actors[a]);
    }
  }

  lemma StepKeeps(cfg: Config, t: Timed, action: Action)
    requires TimedInv(cfg, t) && Enabled(cfg, t, action)
    ensures TimedInv(cfg, DoStep(cfg, t, action))
  {
    var u := DoStep(cfg, t, action);
    PerformKeeps(t.s, action);
    ClocksStay(cfg, t, action);
    LossesOk(cfg, t, action);
    forall a <- u.s.actors ensures ActorTimes(cfg, u, a, u.s.actors[a]) {
      if Acts(action, a) {
        ActingActorTimes(cfg, t, action, a);
      } else {
        OthersDoNotMove(t.s, action, a);
        assert ActorTimes(cfg, t, a, t.s.actors[a]) && ActorOk(t.s, t.s.actors[a]);
        TimesStay(cfg, t, action, a, t.s.actors[a]);
      }
    }
  }

  lemma {:induction false} TimedRunKeeps(cfg: Config, actions: seq<TimedAction>)
    ensures TimedInv(cfg, TimedRun(cfg, actions))
  {
    if actions != [] {
      var before, last := TimedRun(cfg, actions[..|actions| - 1]), actions[|actions| - 1];
      TimedRunKeeps(cfg, actions[..|actions| - 1]);
      match last {
        case Tick(d) => TickKeeps(cfg, before, d);
        case Step(action) => if Enabled(cfg, before, action) { StepKeeps(cfg, before, action); }
      }
    }
  }

  /** How long after a refresh token can last be accepted its Secret becomes due, at the earliest. */
  const MARGIN: int := ACCESS_TOKEN_LIFESPAN - SECOND + 2

  /** If the age of views and the duration of requests stay below the margin together, no sweep revokes for a session that lives on. */
  lemma FreshViewsSpareTheLiving(cfg: Config, actions: seq<TimedAction>, a: nat)
    requires cfg.maxAge + cfg.delay < MARGIN
    requires IsRevoking(TimedRun(cfg, actions).s, a)
    ensures var s := TimedRun(cfg, actions).s; !LivesOn(s, s.actors[a].view.body.request, s.actors[a].name)
  {
    var t := TimedRun(cfg, actions);
    TimedRunKeeps(cfg, actions);
    if LivesOn(t.s, t.s.actors[a].view.body.request, t.s.actors[a].name) {
      LateIfLiving(cfg, t, a);
    }
  }

  lemma LateIfLiving(cfg: Config, t: Timed, a: nat)
    requires TimedInv(cfg, t) && IsRevoking(t.s, a) && LivesOn(t.s, t.s.actors[a].view.body.request, t.s.actors[a].name)
    ensures cfg.maxAge + cfg.delay >= MARGIN
  {
    var SweepRevoke(name, view) := t.s.actors[a];
    var request := view.body.request;
    assert ActorTimes(cfg, t, a, t.s.actors[a]) && ActorOk(t.s, t.s.actors[a]);
    LivingHolds(t.s, request, name);
    var h :| Holds(t.s, request, h) && h != Stored(name);
    if Current(t.s, name, view) {
      EligibleHolds(t.s, request, name);
      OneHolds(t.s, request, h, Stored(name));
    }
    assert LossOk(cfg, t, name, view) by { assert (name, view) in t.s.history; }
    NeverDueWhileNeeded(view.body.kind, t.created[name], t.since[a]);
  }
}
