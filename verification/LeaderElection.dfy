/**
 Leader election for write permission. Each process has an in-memory flag (`canWrite`) that the
 client-go elector's callbacks raise and lower, and that is lowered before a lease release is sent.
 The elector itself is the environment: it acquires, renews, gives up and releases as client-go
 documents. All processes share one clock, in seconds.
 */
module LeaderElection {
  import opened Options

  const LEASE_DURATION: real := 137.0
  const RENEW_DEADLINE: real := 107.0
  const RETRY_PERIOD: real := 26.0

  /** How much longer a lease lasts than its holder needs to notice that it cannot renew it. */
  const SLACK: real := LEASE_DURATION - RENEW_DEADLINE - RETRY_PERIOD

  /**
   `ackDelay` bounds the time between the server's applying a lease write and the writer's learning
   of it. `lateStart` says whether the goroutine of OnStartedLeading may be so late that it runs
   after the election it belongs to was given up.
   */
  datatype Config = Config(ackDelay: real, lateStart: bool)

  datatype Lease = Lease(holder: Option<nat>, version: nat, written: real)

  /** The lease record a process last saw, and when it first saw it. */
  datatype Seen = Seen(version: nat, holder: Option<nat>, since: real)

  /** A lease write that the server applied. */
  datatype Write = Write(at: real, version: nat)

  datatype Mode =
    | Follower
    | Acquiring(write: Write)
    | Leading(acked: Write, ackedAt: real, inFlight: Option<Write>)
    | Releasing

  datatype Process = Process(canWrite: bool, mode: Mode, startPending: bool, seen: Option<Seen>)

  datatype State = State(now: real, lease: Lease, procs: map<nat, Process>)

  datatype Action =
    | Spawn(p: nat)            // a process starts, or restarts after a crash
    | Tick(d: real)
    | Observe(p: nat)          // Get
    | WriteLease(p: nat)       // Update with the process as holder, to acquire or to renew
    | Ack(p: nat)              // the answer to that Update arrives
    | LoseAck(p: nat)          // the answer never arrives
    | StartedLeading(p: nat)   // OnStartedLeading runs
    | ControllersStopped(p: nat)
    | GiveUp(p: nat)           // the elector stops leading; the flag drops before anything is sent
    | ReleaseLease(p: nat)     // the empty-holder Update reaches the server
    | SkipRelease(p: nat)      // ... or fails, or is not attempted

  function Init(): State {
    State(0.0, Lease(None, 0, 0.0), map[])
  }

  function Fresh(): Process {
    Process(false, Follower, false, None)
  }

  function With(s: State, p: nat, proc: Process): State {
    s.(procs := s.procs[p := proc])
  }

  /** The elector gives up no later than one retry period and one renew deadline after a renewal. */
  predicate MayWait(s: State, until: real) {
    forall p <- s.procs :: s.procs[p].mode.Leading? ==> until <= s.procs[p].mode.ackedAt + RETRY_PERIOD + RENEW_DEADLINE
  }

  /** The lease as last seen is free, its own, or has not changed for the whole lease duration. */
  predicate MayTake(s: State, p: nat, seen: Seen) {
    seen.holder == None || seen.holder == Some(p) || seen.since + LEASE_DURATION <= s.now
  }

  function Look(s: State, proc: Process): Process {
    if proc.seen.Some? && proc.seen.value.version == s.lease.version then proc
    else proc.(seen := Some(Seen(s.lease.version, s.lease.holder, s.now)))
  }

  function DoWrite(s: State, p: nat): State
    requires p in s.procs
  {
    var proc := s.procs[p];
    if !proc.seen.Some? || proc.seen.value.version != s.lease.version then s
    else
      var write := Write(s.now, s.lease.version + 1);
      var lease := Lease(Some(p), s.lease.version + 1, s.now);
      match proc.mode
      case Follower =>
        if MayTake(s, p, proc.seen.value) then With(s.(lease := lease), p, proc.(mode := Acquiring(write))) else s
      case Leading(_, _, None) =>
        if proc.seen.value.holder == Some(p) then With(s.(lease := lease), p, proc.(mode := proc.mode.(inFlight := Some(write)))) else s
      case _ => s
  }

  function DoAck(cfg: Config, s: State, p: nat): State
    requires p in s.procs
  {
    var proc := s.procs[p];
    match proc.mode
    case Acquiring(write) =>
      if s.now <= write.at + cfg.ackDelay
      then With(s, p, proc.(mode := Leading(write, s.now, None), startPending := true, seen := Some(Seen(write.version, Some(p), s.now))))
      else s
    case Leading(_, _, Some(write)) =>
      if s.now <= write.at + cfg.ackDelay
      then With(s, p, proc.(mode := Leading(write, s.now, None), seen := Some(Seen(write.version, Some(p), s.now))))
      else s
    case _ => s
  }

  function DoLoseAck(s: State, p: nat): State
    requires p in s.procs
  {
    var proc := s.procs[p];
    match proc.mode
    case Acquiring(_) => With(s, p, proc.(mode := Follower))
    case Leading(acked, at, _) => With(s, p, proc.(mode := Leading(acked, at, None)))
    case _ => s
  }

  /** releaseLock.Update: the flag is lowered first. OnStoppedLeading lowers it once more at the end. */
  function DoGiveUp(cfg: Config, s: State, p: nat): State
    requires p in s.procs
  {
    var proc := s.procs[p];
    if !proc.mode.Leading? then s
    else With(s, p, proc.(mode := Releasing, canWrite := false, startPending := proc.startPending && cfg.lateStart))
  }

  function DoRelease(s: State, p: nat): State
    requires p in s.procs
  {
    var proc := s.procs[p];
    if !proc.mode.Releasing? || !proc.seen.Some? || proc.seen.value.version != s.lease.version || proc.seen.value.holder != Some(p) then s
    else With(s.(lease := Lease(None, s.lease.version + 1, s.now)), p, proc.(mode := Follower, canWrite := false))
  }

  function Perform(cfg: Config, s: State, action: Action): State {
    match action
    case Spawn(p) => With(s, p, Fresh())
    case Tick(d) => if d > 0.0 && MayWait(s, s.now + d) then s.(now := s.now + d) else s
    case Observe(p) => if p in s.procs then With(s, p, Look(s, s.procs[p])) else s
    case WriteLease(p) => if p in s.procs then DoWrite(s, p) else s
    case Ack(p) => if p in s.procs then DoAck(cfg, s, p) else s
    case LoseAck(p) => if p in s.procs then DoLoseAck(s, p) else s
    case StartedLeading(p) =>
      if p in s.procs && s.procs[p].startPending then With(s, p, s.procs[p].(canWrite := true, startPending := false)) else s
    case ControllersStopped(p) => if p in s.procs then With(s, p, s.procs[p].(canWrite := false)) else s
    case GiveUp(p) => if p in s.procs then DoGiveUp(cfg, s, p) else s
    case ReleaseLease(p) => if p in s.procs then DoRelease(s, p) else s
    case SkipRelease(p) =>
      if p in s.procs && s.procs[p].mode.Releasing? then With(s, p, s.procs[p].(mode := Follower, canWrite := false)) else s
  }

  function Run(cfg: Config, actions: seq<Action>): State {
    if actions == [] then Init()
    else Perform(cfg, Run(cfg, actions[..|actions| - 1]), actions[|actions| - 1])
  }

  ghost predicate TwoWriters(s: State) {
    exists p, q :: p in s.procs && q in s.procs && p != q && s.procs[p].canWrite && s.procs[q].canWrite
  }

  /** No run ever has two processes that may write at the same time. */
  ghost predicate Exclusive(cfg: Config) {
    forall actions :: !TwoWriters(Run(cfg, actions))
  }

  // Why it holds.

  /** As long as the answer to an applied write may still come, the lease is still the writer's. */
  ghost predicate WriteOk(cfg: Config, s: State, p: nat, write: Write) {
    && write.version <= s.lease.version
    && (s.now <= write.at + cfg.ackDelay ==> s.lease.holder == Some(p) && write.at <= s.lease.written)
  }

  ghost predicate SeenOk(s: State, seen: Seen) {
    && seen.version <= s.lease.version
    && (seen.version == s.lease.version ==> seen.holder == s.lease.holder && s.lease.written <= seen.since)
  }

  ghost predicate ModeOk(cfg: Config, s: State, p: nat, mode: Mode) {
    match mode
    case Follower => true
    case Releasing => true
    case Acquiring(write) => WriteOk(cfg, s, p, write)
    case Leading(acked, ackedAt, inFlight) =>
      && s.lease.holder == Some(p)
      && acked.at <= s.lease.written
      && s.now <= ackedAt + RETRY_PERIOD + RENEW_DEADLINE
      && ackedAt <= acked.at + cfg.ackDelay
      && (inFlight.Some? ==> WriteOk(cfg, s, p, inFlight.value))
  }

  ghost predicate ProcessOk(cfg: Config, s: State, p: nat, proc: Process) {
    && (proc.canWrite || proc.startPending ==> proc.mode.Leading?)
    && (proc.seen.Some? ==> SeenOk(s, proc.seen.value))
    && ModeOk(cfg, s, p, proc.mode)
  }

  ghost predicate Inv(cfg: Config, s: State) {
    && s.lease.written <= s.now
    && forall p <- s.procs :: ProcessOk(cfg, s, p, s.procs[p])
  }

  /** The configurations in which a stale leader has always noticed before the lease can change hands. */
  ghost predicate Safe(cfg: Config) {
    0.0 <= cfg.ackDelay < SLACK && !cfg.lateStart
  }

  /** While somebody leads, or has just acquired, nobody else's view of the lease allows taking it. */
  lemma HeldLeaseIsNotTaken(cfg: Config, s: State, p: nat, q: nat)
    requires Safe(cfg) && Inv(cfg, s) && p in s.procs && q in s.procs && p != q
    requires s.procs[p].seen.Some? && s.procs[p].seen.value.version == s.lease.version
    requires MayTake(s, p, s.procs[p].seen.value)
    ensures !s.procs[q].mode.Leading?
    ensures s.procs[q].mode.Acquiring? ==> s.procs[q].mode.write.at + cfg.ackDelay < s.now
  {
    assert ProcessOk(cfg, s, p, s.procs[p]) && ProcessOk(cfg, s, q, s.procs[q]);
  }

  lemma WriteKeeps(cfg: Config, s: State, p: nat)
    requires Safe(cfg) && Inv(cfg, s) && p in s.procs
    ensures Inv(cfg, DoWrite(s, p))
  {
    var t := DoWrite(s, p);
    assert ProcessOk(cfg, s, p, s.procs[p]);
    forall q <- t.procs ensures ProcessOk(cfg, t, q, t.procs[q]) {
      assert ProcessOk(cfg, s, q, s.procs[q]);
      if t != s && q != p {
        HeldLeaseIsNotTaken(cfg, s, p, q);
      }
    }
  }

  lemma ReleaseKeeps(cfg: Config, s: State, p: nat)
    requires Safe(cfg) && Inv(cfg, s) && p in s.procs
    ensures Inv(cfg, DoRelease(s, p))
  {
    var t := DoRelease(s, p);
    assert ProcessOk(cfg, s, p, s.procs[p]);
    forall q <- t.procs ensures ProcessOk(cfg, t, q, t.procs[q]) {
      assert ProcessOk(cfg, s, q, s.procs[q]);
    }
  }

  /** A step that changes nothing but one process is fine if that process is. */
  lemma WithKeeps(cfg: Config, s: State, p: nat, proc: Process)
    requires Inv(cfg, s) && ProcessOk(cfg, s, p, proc)
    ensures Inv(cfg, With(s, p, proc))
  {
    var t := With(s, p, proc);
    forall q <- t.procs ensures ProcessOk(cfg, t, q, t.procs[q]) {
      assert q != p ==> ProcessOk(cfg, s, q, s.procs[q]);
    }
  }

  lemma TickKeeps(cfg: Config, s: State, d: real)
    requires Safe(cfg) && Inv(cfg, s)
    ensures Inv(cfg, Perform(cfg, s, Tick(d)))
  {
    var t := Perform(cfg, s, Tick(d));
    forall q <- t.procs ensures ProcessOk(cfg, t, q, t.procs[q]) {
      assert ProcessOk(cfg, s, q, s.procs[q]);
    }
  }

  lemma AckKeeps(cfg: Config, s: State, p: nat)
    requires Safe(cfg) && Inv(cfg, s) && p in s.procs
    ensures Inv(cfg, DoAck(cfg, s, p))
  {
    assert ProcessOk(cfg, s, p, s.procs[p]);
    WithKeeps(cfg, s, p, DoAck(cfg, s, p).procs[p]);
  }

  lemma RetreatKeeps(cfg: Config, s: State, p: nat)
    requires Safe(cfg) && Inv(cfg, s) && p in s.procs
    ensures Inv(cfg, DoLoseAck(s, p)) && Inv(cfg, DoGiveUp(cfg, s, p))
  {
    assert ProcessOk(cfg, s, p, s.procs[p]);
    WithKeeps(cfg, s, p, DoLoseAck(s, p).procs[p]);
    WithKeeps(cfg, s, p, DoGiveUp(cfg, s, p).procs[p]);
  }

  lemma FlagKeeps(cfg: Config, s: State, p: nat)
    requires Safe(cfg) && Inv(cfg, s) && p in s.procs
    ensures Inv(cfg, Perform(cfg, s, Observe(p))) && Inv(cfg, Perform(cfg, s, StartedLeading(p)))
    ensures Inv(cfg, Perform(cfg, s, ControllersStopped(p))) && Inv(cfg, Perform(cfg, s, SkipRelease(p)))
  {
    var proc := s.procs[p];
    assert ProcessOk(cfg, s, p, proc);
    WithKeeps(cfg, s, p, Look(s, proc));
    WithKeeps(cfg, s, p, proc.(canWrite := proc.canWrite || proc.startPending, startPending := false));
    WithKeeps(cfg, s, p, proc.(canWrite := false));
    if proc.mode.Releasing? {
      WithKeeps(cfg, s, p, proc.(mode := Follower, canWrite := false));
    }
  }

  lemma PerformKeeps(cfg: Config, s: State, action: Action)
    requires Safe(cfg) && Inv(cfg, s)
    ensures Inv(cfg, Perform(cfg, s, action))
  {
    match action {
      case Tick(d) => TickKeeps(cfg, s, d);
      case Spawn(p) => WithKeeps(cfg, s, p, Fresh());
      case WriteLease(p) => if p in s.procs { WriteKeeps(cfg, s, p); }
      case ReleaseLease(p) => if p in s.procs { ReleaseKeeps(cfg, s, p); }
      case Ack(p) => if p in s.procs { AckKeeps(cfg, s, p); }
      case LoseAck(p) => if p in s.procs { RetreatKeeps(cfg, s, p); }
      case GiveUp(p) => if p in s.procs { RetreatKeeps(cfg, s, p); }
      case _ => if action.p in s.procs { FlagKeeps(cfg, s, action.p); }
    }
  }

  lemma {:induction false} RunKeeps(cfg: Config, actions: seq<Action>)
    requires Safe(cfg)
    ensures Inv(cfg, Run(cfg, actions))
  {
    if actions != [] {
      RunKeeps(cfg, actions[..|actions| - 1]);
      PerformKeeps(cfg, Run(cfg, actions[..|actions| - 1]), actions[|actions| - 1]);
    }
  }

  lemma SafeMeansExclusive(cfg: Config)
    requires Safe(cfg)
    ensures Exclusive(cfg)
  {
    forall actions ensures !TwoWriters(Run(cfg, actions)) {
      RunKeeps(cfg, actions);
      var s := Run(cfg, actions);
      forall p | p in s.procs && s.procs[p].canWrite ensures s.lease.holder == Some(p) {
        assert ProcessOk(cfg, s, p, s.procs[p]);
      }
    }
  }

  // The flag is down whenever it must be.

  ghost predicate FlagIsDown(s: State, p: nat) {
    p in s.procs ==> !s.procs[p].canWrite
  }

  lemma FlagStaysDownFor(cfg: Config, s: State, p: nat, action: Action)
    requires FlagIsDown(s, p) && action != StartedLeading(p)
    ensures FlagIsDown(Perform(cfg, s, action), p)
  {
    match action {
      case WriteLease(q) => if q in s.procs { assert DoWrite(s, q).procs.Keys == s.procs.Keys; }
      case _ =>
    }
  }

  lemma {:induction false} FlagStaysDown(cfg: Config, s: State, p: nat, more: seq<Action>)
    requires FlagIsDown(s, p) && forall action <- more :: action != StartedLeading(p)
    ensures FlagIsDown(Resume(cfg, s, more), p)
    decreases |more|
  {
    if more != [] {
      assert more[0] in more;
      FlagStaysDownFor(cfg, s, p, more[0]);
      assert forall action <- more[1..] :: action in more;
      FlagStaysDown(cfg, Perform(cfg, s, more[0]), p, more[1..]);
    }
  }

  /**
   In every configuration and after every run: once its controllers have stopped, or it has given up
   leading, or has just come up, a process may not write, until it is told that it leads again.
   */
  lemma StoppedMayNotWrite(cfg: Config, actions: seq<Action>, p: nat, stop: Action, more: seq<Action>)
    requires stop == ControllersStopped(p) || stop == Spawn(p) || (stop == GiveUp(p) && IsLeading(Run(cfg, actions), p))
    requires forall action <- more :: action != StartedLeading(p)
    ensures FlagIsDown(Run(cfg, actions + [stop] + more), p)
  {
    assert (actions + [stop])[..|actions|] == actions;
    assert Run(cfg, actions + [stop]) == Perform(cfg, Run(cfg, actions), stop);
    RunResumes(cfg, actions + [stop], more);
    FlagStaysDown(cfg, Run(cfg, actions + [stop]), p, more);
  }

  predicate IsLeading(s: State, p: nat) {
    p in s.procs && s.procs[p].mode.Leading?
  }

  /** A process whose write of the lease was answered in time leads, and may write once it is told so. */
  lemma LeadersAreToldToWrite(cfg: Config, s: State, p: nat)
    requires p in s.procs && s.procs[p].mode.Acquiring? && s.now <= s.procs[p].mode.write.at + cfg.ackDelay
    ensures var t := Perform(cfg, Perform(cfg, s, Ack(p)), StartedLeading(p));
      IsLeading(t, p) && t.procs[p].canWrite
    ensures var t := Perform(cfg, s, LoseAck(p)); p in t.procs && t.procs[p].mode == Follower
  {
  }

  // Why nothing less will do.

  function Resume(cfg: Config, s: State, actions: seq<Action>): State
    decreases |actions|
  {
    if actions == [] then s else Resume(cfg, Perform(cfg, s, actions[0]), actions[1..])
  }

  /** Nobody leads for longer than 133 seconds after the answer to its last renewal. */
  ghost predicate LeadsInTime(s: State) {
    forall p <- s.procs :: s.procs[p].mode.Leading? ==> s.now <= s.procs[p].mode.ackedAt + 133.0
  }

  /** This version of the lease, if it is still the current one, has this holder. */
  ghost predicate TrueOf(lease: Lease, version: nat, holder: Option<nat>) {
    version <= lease.version && (version == lease.version ==> lease.holder == holder)
  }

  /** What a process saw of the lease, and what it wrote, is what was there. */
  ghost predicate KnowsTruth(lease: Lease, p: nat, proc: Process) {
    && (proc.seen.Some? ==> TrueOf(lease, proc.seen.value.version, proc.seen.value.holder))
    && (proc.mode.Acquiring? ==> TrueOf(lease, proc.mode.write.version, Some(p)))
    && (proc.mode.Leading? && proc.mode.inFlight.Some? ==> TrueOf(lease, proc.mode.inFlight.value.version, Some(p)))
  }

  ghost predicate AllKnowTruth(s: State) {
    forall p <- s.procs :: KnowsTruth(s.lease, p, s.procs[p])
  }

  lemma LimitsAreKept(cfg: Config, s: State, action: Action)
    requires LeadsInTime(s) && AllKnowTruth(s)
    ensures LeadsInTime(Perform(cfg, s, action)) && AllKnowTruth(Perform(cfg, s, action))
  {
  }

  lemma {:induction false} LimitsHold(cfg: Config, actions: seq<Action>)
    ensures LeadsInTime(Run(cfg, actions)) && AllKnowTruth(Run(cfg, actions))
  {
    if actions != [] {
      LimitsHold(cfg, actions[..|actions| - 1]);
      LimitsAreKept(cfg, Run(cfg, actions[..|actions| - 1]), actions[|actions| - 1]);
    }
  }

  /**
   In every run, whatever the delays: a leader whose renewals are not answered has stopped leading
   after 133 seconds, and a lease that another process holds is only taken by one that has seen no
   change of it for 137 seconds.
   */
  lemma LeadingIsLimited(cfg: Config, actions: seq<Action>, p: nat)
    requires p in Run(cfg, actions).procs
    ensures var s := Run(cfg, actions);
      s.procs[p].mode.Leading? ==> s.now <= s.procs[p].mode.ackedAt + 133.0
    ensures var s := Run(cfg, actions);
      Perform(cfg, s, WriteLease(p)).lease != s.lease && s.lease.holder != None && s.lease.holder != Some(p) ==>
        s.procs[p].seen.Some? && s.procs[p].seen.value.since + 137.0 <= s.now
  {
    LimitsHold(cfg, actions);
    assert KnowsTruth(Run(cfg, actions).lease, p, Run(cfg, actions).procs[p]);
  }

  /** All that it takes for another process to follow a leader that gives up: no time need pass. */
  function PlayHandover(cfg: Config, s: State, p: nat, q: nat): State {
    var released := Perform(cfg, Perform(cfg, s, GiveUp(p)), ReleaseLease(p));
    var taken := Perform(cfg, Perform(cfg, released, Observe(q)), WriteLease(q));
    Perform(cfg, Perform(cfg, taken, Ack(q)), StartedLeading(q))
  }

  /** A leader that gives up and releases its lease may not write any more, and lets another process lead and write at once. */
  lemma ReleaseHandsOver(cfg: Config, s: State, p: nat, q: nat)
    requires cfg.ackDelay >= 0.0 && p in s.procs && q in s.procs && p != q
    requires s.procs[p].mode.Leading? && s.procs[p].seen == Some(Seen(s.lease.version, Some(p), s.procs[p].mode.ackedAt))
    requires s.procs[q].mode.Follower? && (s.procs[q].seen.Some? ==> s.procs[q].seen.value.version <= s.lease.version)
    ensures var t := PlayHandover(cfg, s, p, q);
      && t.now == s.now && t.lease.holder == Some(q)
      && p in t.procs && q in t.procs && !t.procs[p].canWrite && t.procs[p].mode.Follower?
      && t.procs[q].canWrite && t.procs[q].mode.Leading?
      && (forall r <- s.procs :: r != p && r != q ==> r in t.procs && t.procs[r] == s.procs[r])
  {
    var s1 := Perform(cfg, s, GiveUp(p));
    assert s1.procs[p].mode.Releasing? && s1.procs[q] == s.procs[q] && s1.lease == s.lease;
    var s2 := Perform(cfg, s1, ReleaseLease(p));
    assert s2.lease == Lease(None, s.lease.version + 1, s.now) && s2.procs[q] == s.procs[q];
    var s3 := Perform(cfg, s2, Observe(q));
    assert s3.procs[q] == s.procs[q].(seen := Some(Seen(s2.lease.version, None, s.now)));
    var s4 := Perform(cfg, s3, WriteLease(q));
    assert s4.procs[q].mode == Acquiring(Write(s.now, s2.lease.version + 1)) && s4.lease.holder == Some(q);
  }

  /** A leader that gives up but cannot release its lease may not write either; it stays out of the way until it acquires the lease again. */
  lemma GivingUpWithoutRelease(cfg: Config, s: State, p: nat)
    requires p in s.procs && s.procs[p].mode.Leading?
    ensures var t := Perform(cfg, Perform(cfg, s, GiveUp(p)), SkipRelease(p));
      && t.lease == s.lease && t.now == s.now
      && t.procs.Keys == s.procs.Keys && t.procs[p].mode.Follower? && !t.procs[p].canWrite
      && (forall r <- s.procs :: r != p ==> t.procs[r] == s.procs[r])
  {
  }

  lemma {:induction false} RunResumes(cfg: Config, before: seq<Action>, actions: seq<Action>)
    ensures Run(cfg, before + actions) == Resume(cfg, Run(cfg, before), actions)
    decreases |actions|
  {
    if actions == [] {
      assert before + actions == before;
    } else {
      var first := before + [actions[0]];
      assert first[..|before|] == before;
      assert before + actions == first + actions[1..];
      RunResumes(cfg, first, actions[1..]);
    }
  }

  // A run in which process 0 hears of its acquisition only when the slack is used up.

  const FIRST_STEPS := [Spawn(0), Spawn(1), Observe(0), WriteLease(0), Observe(1)]

  const FIRST_WRITTEN := State(0.0, Lease(Some(0), 1, 0.0), map[
    0 := Process(false, Acquiring(Write(0.0, 1)), false, Some(Seen(0, None, 0.0))),
    1 := Process(false, Follower, false, Some(Seen(1, Some(0), 0.0)))])

  const NEXT_STEPS := [Tick(SLACK), Ack(0), StartedLeading(0), Tick(LEASE_DURATION - SLACK), WriteLease(1)]

  const SECOND_WRITTEN := State(LEASE_DURATION, Lease(Some(1), 2, LEASE_DURATION), map[
    0 := Process(true, Leading(Write(0.0, 1), SLACK, None), false, Some(Seen(1, Some(0), SLACK))),
    1 := Process(false, Acquiring(Write(LEASE_DURATION, 2)), false, Some(Seen(1, Some(0), 0.0)))])

  lemma FirstIsWritten(cfg: Config)
    ensures Resume(cfg, Init(), FIRST_STEPS) == FIRST_WRITTEN
  {
    FiveSteps(cfg, Init(), FIRST_STEPS);
  }

  lemma SecondIsWritten(cfg: Config)
    requires cfg.ackDelay >= SLACK
    ensures Resume(cfg, FIRST_WRITTEN, NEXT_STEPS) == SECOND_WRITTEN
  {
    FiveSteps(cfg, FIRST_WRITTEN, NEXT_STEPS);
    var s := FIRST_WRITTEN.(now := SLACK);
    assert Perform(cfg, FIRST_WRITTEN, Tick(SLACK)) == s;
    var leader := Process(true, Leading(Write(0.0, 1), SLACK, None), false, Some(Seen(1, Some(0), SLACK)));
    assert Perform(cfg, Perform(cfg, s, Ack(0)), StartedLeading(0)) == With(s, 0, leader);
    assert Perform(cfg, With(s, 0, leader), Tick(LEASE_DURATION - SLACK)) == With(s, 0, leader).(now := LEASE_DURATION);
  }

  /** An answer that takes as long as the slack lets the old leader believe in its lease until the moment it expires. */
  lemma SlowAnswersBreakExclusion(cfg: Config)
    requires cfg.ackDelay >= SLACK
    ensures !Exclusive(cfg)
  {
    FirstIsWritten(cfg);
    SecondIsWritten(cfg);
    var last := [Ack(1), StartedLeading(1)];
    TwoSteps(cfg, SECOND_WRITTEN, last);
    ThreeRuns(cfg, FIRST_STEPS, NEXT_STEPS, last);
    var s := Run(cfg, FIRST_STEPS + NEXT_STEPS + last);
    assert s.procs[0].canWrite && s.procs[1].canWrite;
  }

  lemma FiveSteps(cfg: Config, s: State, a: seq<Action>)
    requires |a| == 5
    ensures Resume(cfg, s, a) ==
      Perform(cfg, Perform(cfg, Perform(cfg, Perform(cfg, Perform(cfg, s, a[0]), a[1]), a[2]), a[3]), a[4])
  {
    var s1 := Perform(cfg, s, a[0]);
    var s2 := Perform(cfg, s1, a[1]);
    var s3 := Perform(cfg, s2, a[2]);
    TwoSteps(cfg, s3, a[3..]);
    assert a[1..][1..] == a[2..] && a[2..][1..] == a[3..];
    assert Resume(cfg, s2, a[2..]) == Resume(cfg, s3, a[3..]);
    assert Resume(cfg, s1, a[1..]) == Resume(cfg, s2, a[2..]);
  }

  lemma TwoSteps(cfg: Config, s: State, a: seq<Action>)
    requires |a| == 2
    ensures Resume(cfg, s, a) == Perform(cfg, Perform(cfg, s, a[0]), a[1])
  {
    var rest := a[1..];
    assert rest[0] == a[1] && rest[1..] == [];
    assert Resume(cfg, Perform(cfg, s, a[0]), rest) == Resume(cfg, Perform(cfg, Perform(cfg, s, a[0]), a[1]), []);
  }

  lemma ThreeRuns(cfg: Config, a: seq<Action>, b: seq<Action>, c: seq<Action>)
    ensures Run(cfg, a + b + c) == Resume(cfg, Resume(cfg, Resume(cfg, Init(), a), b), c)
  {
    RunResumes(cfg, [], a);
    assert [] + a == a;
    RunResumes(cfg, a, b);
    RunResumes(cfg, a + b, c);
  }

  // A run in which process 0 is told that it leads only after it has released the lease.

  const LEAD_STEPS := [Spawn(0), Spawn(1), Observe(0), WriteLease(0), Ack(0)]

  const LEADING := State(0.0, Lease(Some(0), 1, 0.0), map[
    0 := Process(false, Leading(Write(0.0, 1), 0.0, None), true, Some(Seen(1, Some(0), 0.0))),
    1 := Fresh()])

  const RELEASE_STEPS := [GiveUp(0), ReleaseLease(0), StartedLeading(0), Observe(1), WriteLease(1)]

  const RELEASED := State(0.0, Lease(Some(1), 3, 0.0), map[
    0 := Process(true, Follower, false, Some(Seen(1, Some(0), 0.0))),
    1 := Process(false, Acquiring(Write(0.0, 3)), false, Some(Seen(2, None, 0.0)))])

  lemma FirstLeads(cfg: Config)
    requires cfg.ackDelay >= 0.0
    ensures Resume(cfg, Init(), LEAD_STEPS) == LEADING
  {
    FiveSteps(cfg, Init(), LEAD_STEPS);
  }

  lemma FirstIsToldLate(cfg: Config)
    requires cfg.lateStart
    ensures Resume(cfg, LEADING, RELEASE_STEPS) == RELEASED
  {
    FiveSteps(cfg, LEADING, RELEASE_STEPS);
  }

  /** A start callback that runs after its election was released raises a flag that nothing lowers. */
  lemma LateStartsBreakExclusion(cfg: Config)
    requires cfg.ackDelay >= 0.0 && cfg.lateStart
    ensures !Exclusive(cfg)
  {
    FirstLeads(cfg);
    FirstIsToldLate(cfg);
    var last := [Ack(1), StartedLeading(1)];
    TwoSteps(cfg, RELEASED, last);
    ThreeRuns(cfg, LEAD_STEPS, RELEASE_STEPS, last);
    var s := Run(cfg, LEAD_STEPS + RELEASE_STEPS + last);
    assert s.procs[0].canWrite && s.procs[1].canWrite;
  }

  /**
   No two processes can ever write at the same time exactly if lease answers arrive in less than
   the four seconds of slack and the start callback of an election is not overtaken by its end.
   */
  lemma ExclusiveExactlyWhenSafe(cfg: Config)
    requires cfg.ackDelay >= 0.0
    ensures SLACK == 4.0
    ensures Exclusive(cfg) <==> cfg.ackDelay < SLACK && !cfg.lateStart
  {
    if Safe(cfg) {
      SafeMeansExclusive(cfg);
    } else if cfg.lateStart {
      LateStartsBreakExclusion(cfg);
    } else {
      SlowAnswersBreakExclusion(cfg);
    }
  }
}
