/**
 Downstream OAuth sessions as stored in Kubernetes Secrets, and everybody who changes them: the
 authorize endpoint, authcode redemption, authcode replay, refresh, and the garbage collector.

 Each actor makes one API call per step, and `Run` plays an arbitrary list of steps, so a statement
 about `Run(actions)` for all `actions` is a statement about every interleaving.
 */
module Sessions {
  import opened Options
  import opened ApiServer

  datatype Kind = AuthCode | AccessToken | RefreshToken | Pkce | OpenIDConnect

  /**
   What a session Secret says. `upstream` numbers the upstream token inside it, 0 being the one
   from the original login. `active` is only meaningful for an authcode.
   */
  datatype Record = Record(kind: Kind, request: string, offline: bool, active: bool, upstream: nat)

  /** The garbage collector's rule for which Secret holds the upstream token worth revoking. */
  predicate Eligible(rec: Record) {
    match rec.kind
    case AuthCode => rec.active
    case AccessToken => !rec.offline
    case RefreshToken => true
    case Pkce => false
    case OpenIDConnect => false
  }

  /** Where an actor is, named after the API call it makes next. */
  datatype Actor =
    // InvalidateAuthorizeCodeSession: getSession, then the two calls of Update.
    | RedeemGet(code: string)
    | RedeemMeta(code: string, rv: nat, rec: Record)
    | RedeemUpdate(code: string, rv: nat, rec: Record)
    // Token creation, after an invalidation or after a rotation.
    | MintAccess(rec: Record)
    | MintRefresh(rec: Record)
    // Refresh: read the session, then DeleteByLabel for each token kind.
    | RefreshGet(token: string)
    | ListAccess(rec: Record)
    | DeleteAccess(rec: Record, left: seq<string>)
    | ListRefresh(rec: Record)
    | DeleteRefresh(rec: Record, left: seq<string>)
    // A used authcode came in again: DeleteByLabel for each token kind, errors ignored.
    | ReplayList(kind: Kind, request: string)
    | ReplayDelete(kind: Kind, request: string, left: seq<string>)
    // One Secret of a sweep, as the informer showed it.
    | SweepRevoke(name: string, view: Object<Record>)
    | SweepDelete(name: string, view: Object<Record>)

  /** What the environment decides during a step. */
  datatype Choice = Choice(signature: string, listing: seq<string>, rotated: bool)

  datatype Action =
    | Authorize(name: string, request: string, offline: bool)
    | StoreCompanion(name: string, kind: Kind, request: string)
    | DropCompanion(name: string)
    | BeginRedeem(actor: nat, name: string)
    | BeginRefresh(actor: nat, name: string)
    | BeginSweep(actor: nat, name: string, view: Object<Record>)   // whether due or not: deadlines come with the clock
    | Continue(actor: nat, choice: Choice)
    | Abandon(actor: nat)

  /**
   `used` holds every Secret name ever created, `sessions` the sessions with whether offline_access
   was granted, `history` every version ever stored (an informer may show any of them),
   `invalidated` the authcodes whose invalidation succeeded, in order, and `issued` the number of
   the newest upstream token.
   */
  datatype State = State(
    server: Server<Record>,
    actors: map<nat, Actor>,
    used: set<string>,
    sessions: map<string, bool>,
    history: set<(string, Object<Record>)>,
    invalidated: seq<string>,
    issued: nat)

  function Init(): State {
    State(ApiServer.Empty(), map[], {}, map[], {}, [], 0)
  }

  // Building blocks of the steps.

  function Become(s: State, a: nat, actor: Actor): State {
    s.(actors := s.actors[a := actor])
  }

  function Finish(s: State, a: nat): State {
    s.(actors := s.actors - {a})
  }

  function Remember(s: State, name: string, server: Server<Record>): State
    requires name in server.objects
  {
    s.(server := server, used := s.used + {name}, history := s.history + {(name, server.objects[name])})
  }

  /** Stores a record under a signature never seen before; any other signature is not a step. */
  function Store(s: State, name: string, rec: Record): (r: Option<State>) {
    if name in s.used then None
    else match ApiServer.Create(s.server, name, rec)
      case Ok(server) => Some(Remember(s, name, server))
      case Err(_) => None
  }

  function Remove(s: State, name: string, pre: Option<Precondition>): (r: Option<State>) {
    match ApiServer.Delete(s.server, name, pre)
    case Ok(server) => Some(s.(server := server))
    case Err(_) => None
  }

  predicate Labelled(rec: Record, kind: Kind, request: string) {
    rec.kind == kind && rec.request == request
  }

  /** `names` is one possible answer to listing the Secrets with these labels. */
  predicate Lists(server: Server<Record>, kind: Kind, request: string, names: seq<string>) {
    && (forall i, j :: 0 <= i < j < |names| ==> names[i] != names[j])
    && (forall n <- names :: n in server.objects && Labelled(server.objects[n].body, kind, request))
    && (forall n <- server.objects :: Labelled(server.objects[n].body, kind, request) ==> n in names)
  }

  function Access(rec: Record): Record {
    Record(AccessToken, rec.request, rec.offline, false, rec.upstream)
  }

  function Refresh(rec: Record): Record {
    Record(RefreshToken, rec.request, rec.offline, false, rec.upstream)
  }

  // One API call of one actor.

  function Redeem(s: State, a: nat): State
    requires a in s.actors && (s.actors[a].RedeemGet? || s.actors[a].RedeemMeta? || s.actors[a].RedeemUpdate?)
  {
    match s.actors[a]
    case RedeemGet(code) =>
      (match ApiServer.Get(s.server, code)
       case Err(_) => Finish(s, a)
       case Ok(o) =>
         if o.body.kind != AuthCode then Finish(s, a)
         else if !o.body.active then Become(s, a, ReplayList(AccessToken, o.body.request))
         else Become(s, a, RedeemMeta(code, o.rv, o.body)))
    case RedeemMeta(code, rv, rec) =>
      (match ApiServer.Get(s.server, code)
       case Err(_) => Finish(s, a)
       case Ok(_) => Become(s, a, RedeemUpdate(code, rv, rec)))
    case RedeemUpdate(code, rv, rec) =>
      (match ApiServer.Update(s.server, code, rv, rec.(active := false))
       case Err(_) => Finish(s, a)
       case Ok(server) =>
         Become(Remember(s, code, server).(invalidated := s.invalidated + [code]), a, MintAccess(rec)))
  }

  function Mint(s: State, a: nat, signature: string): State
    requires a in s.actors && (s.actors[a].MintAccess? || s.actors[a].MintRefresh?)
  {
    match s.actors[a]
    case MintAccess(rec) =>
      (match Store(s, signature, Access(rec))
       case None => s
       case Some(t) => if rec.offline then Become(t, a, MintRefresh(rec)) else Finish(t, a))
    case MintRefresh(rec) =>
      (match Store(s, signature, Refresh(rec))
       case None => s
       case Some(t) => Finish(t, a))
  }

  /** The upstream refresh may or may not have returned a new upstream token. */
  function BeginRotation(s: State, a: nat, token: string, rotated: bool): State {
    match ApiServer.Get(s.server, token)
    case Err(_) => Finish(s, a)
    case Ok(o) =>
      if o.body.kind != RefreshToken then Finish(s, a)
      else if rotated then Become(s.(issued := s.issued + 1), a, ListAccess(o.body.(upstream := s.issued + 1)))
      else Become(s, a, ListAccess(o.body))
  }

  function Rotate(s: State, a: nat, listing: seq<string>): State
    requires a in s.actors
    requires s.actors[a].ListAccess? || s.actors[a].DeleteAccess? || s.actors[a].ListRefresh? || s.actors[a].DeleteRefresh?
  {
    match s.actors[a]
    case ListAccess(rec) =>
      if !Lists(s.server, AccessToken, rec.request, listing) then s
      else if listing == [] then Finish(s, a)
      else Become(s, a, DeleteAccess(rec, listing))
    case DeleteAccess(rec, left) =>
      if left == [] then Finish(s, a)
      else (match Remove(s, left[0], None)
            case None => Finish(s, a)
            case Some(t) => Become(t, a, if |left| == 1 then ListRefresh(rec) else DeleteAccess(rec, left[1..])))
    case ListRefresh(rec) =>
      if !Lists(s.server, RefreshToken, rec.request, listing) then s
      else if listing == [] then Finish(s, a)
      else Become(s, a, DeleteRefresh(rec, listing))
    case DeleteRefresh(rec, left) =>
      if left == [] then Finish(s, a)
      else (match Remove(s, left[0], None)
            case None => Finish(s, a)
            case Some(t) => Become(t, a, if |left| == 1 then MintAccess(rec) else DeleteRefresh(rec, left[1..])))
  }

  function AfterReplay(s: State, a: nat, kind: Kind, request: string): State {
    if kind == AccessToken then Become(s, a, ReplayList(RefreshToken, request)) else Finish(s, a)
  }

  function Replay(s: State, a: nat, listing: seq<string>): State
    requires a in s.actors && (s.actors[a].ReplayList? || s.actors[a].ReplayDelete?)
  {
    match s.actors[a]
    case ReplayList(kind, request) =>
      if !Lists(s.server, kind, request, listing) then s
      else Become(s, a, ReplayDelete(kind, request, listing))
    case ReplayDelete(kind, request, left) =>
      if left == [] then AfterReplay(s, a, kind, request)
      else (match Remove(s, left[0], None)
            case None => AfterReplay(s, a, kind, request)
            case Some(t) => Become(t, a, ReplayDelete(kind, request, left[1..])))
  }

  function Sweep(s: State, a: nat): State
    requires a in s.actors && (s.actors[a].SweepRevoke? || s.actors[a].SweepDelete?)
  {
    match s.actors[a]
    case SweepRevoke(name, view) => Become(s, a, SweepDelete(name, view))
    case SweepDelete(name, view) =>
      (match Remove(s, name, Some(Precondition(view.uid, view.rv)))
       case None => Finish(s, a)
       case Some(t) => Finish(t, a))
  }

  function Advance(s: State, a: nat, c: Choice): State
    requires a in s.actors
  {
    match s.actors[a]
    case RedeemGet(_) => Redeem(s, a)
    case RedeemMeta(_, _, _) => Redeem(s, a)
    case RedeemUpdate(_, _, _) => Redeem(s, a)
    case MintAccess(_) => Mint(s, a, c.signature)
    case MintRefresh(_) => Mint(s, a, c.signature)
    case RefreshGet(token) => BeginRotation(s, a, token, c.rotated)
    case ListAccess(_) => Rotate(s, a, c.listing)
    case DeleteAccess(_, _) => Rotate(s, a, c.listing)
    case ListRefresh(_) => Rotate(s, a, c.listing)
    case DeleteRefresh(_, _) => Rotate(s, a, c.listing)
    case ReplayList(_, _) => Replay(s, a, c.listing)
    case ReplayDelete(_, _, _) => Replay(s, a, c.listing)
    case SweepRevoke(_, _) => Sweep(s, a)
    case SweepDelete(_, _) => Sweep(s, a)
  }

  /** One step. A step the environment cannot take leaves the state as it is. */
  function Perform(s: State, action: Action): State {
    match action
    case Authorize(name, request, offline) =>
      if request in s.sessions then s
      else (match Store(s, name, Record(AuthCode, request, offline, true, 0))
            case None => s
            case Some(t) => t.(sessions := t.sessions[request := offline]))
    case StoreCompanion(name, kind, request) =>
      if request !in s.sessions || (kind != Pkce && kind != OpenIDConnect) then s
      else (match Store(s, name, Record(kind, request, s.sessions[request], false, 0))
            case None => s
            case Some(t) => t)
    case DropCompanion(name) =>
      if name !in s.server.objects || s.server.objects[name].body.kind != Pkce then s
      else (match Remove(s, name, None) case None => s case Some(t) => t)
    case BeginRedeem(a, name) => if a in s.actors then s else Become(s, a, RedeemGet(name))
    case BeginRefresh(a, name) => if a in s.actors then s else Become(s, a, RefreshGet(name))
    case BeginSweep(a, name, view) =>
      if a in s.actors || (name, view) !in s.history then s else Become(s, a, SweepRevoke(name, view))
    case Continue(a, c) => if a in s.actors then Advance(s, a, c) else s
    case Abandon(a) => Finish(s, a)
  }

  function Run(actions: seq<Action>): State {
    if actions == [] then Init()
    else Perform(Run(actions[..|actions| - 1]), actions[|actions| - 1])
  }
}
