/** The write flag and the middleware that asks for it, together: at most one process gets writes past its check. */
module LeaderWrites {
  import opened Options
  import KubeClient
  import LeaderElection

  /** A write request, with the middlewares before and after the leader check, and the server it is for. */
  datatype Write = Write(
    before: seq<KubeClient.Middleware>,
    after: seq<KubeClient.Middleware>,
    info: KubeClient.Info,
    body: KubeClient.Object,
    kind: Option<KubeClient.GVK>,
    api: KubeClient.Api)

  /** The request goes out if a process makes it in this state. */
  predicate GoesOut(s: LeaderElection.State, p: nat, w: Write) {
    && p in s.procs && KubeClient.IsWrite(w.info.verb)
    && KubeClient.Trip(w.before + [KubeClient.LeaderCheck(s.procs[p].canWrite)] + w.after, w.info, w.body, w.kind, w.api).Sent?
  }

  /** At no moment of any run can two processes get a write past their checks. */
  ghost predicate OneWriter(cfg: LeaderElection.Config) {
    forall actions, p, q, v, w :: GoesOut(LeaderElection.Run(cfg, actions), p, v) && GoesOut(LeaderElection.Run(cfg, actions), q, w) ==> p == q
  }

  lemma GoesOutOnlyWithFlag(s: LeaderElection.State, p: nat, w: Write)
    requires GoesOut(s, p, w)
    ensures s.procs[p].canWrite
  {
    KubeClient.WritesNeedLeadership(w.before, w.after, s.procs[p].canWrite, w.info, w.body, w.kind, w.api);
  }

  /** A plain update, with no other middleware. */
  function PlainWrite(): Write {
    var obj := KubeClient.Object(KubeClient.GVK("g", "v", "k"), [], None, "");
    Write([], [], KubeClient.Info(KubeClient.Update, "g", "v", "r", ""), obj, None, (wire: KubeClient.Wire) => KubeClient.Reply(200, KubeClient.Opaque("")))
  }

  lemma FlagLetsPlainWriteOut(s: LeaderElection.State, p: nat)
    requires p in s.procs && s.procs[p].canWrite
    ensures GoesOut(s, p, PlainWrite())
  {
    var w := PlainWrite();
    KubeClient.WritesNeedLeadership(w.before, w.after, true, w.info, w.body, w.kind, w.api);
    assert w.before + w.after == [];
  }

  /** Exactly the configurations that keep the flag exclusive keep writes exclusive. */
  lemma OneWriterExactlyWhenSafe(cfg: LeaderElection.Config)
    requires cfg.ackDelay >= 0.0
    ensures OneWriter(cfg) <==> cfg.ackDelay < LeaderElection.SLACK && !cfg.lateStart
  {
    LeaderElection.ExclusiveExactlyWhenSafe(cfg);
    if LeaderElection.Exclusive(cfg) {
      ExclusiveMeansOneWriter(cfg);
    } else {
      var actions :| LeaderElection.TwoWriters(LeaderElection.Run(cfg, actions));
      var s := LeaderElection.Run(cfg, actions);
      var p, q :| p in s.procs && q in s.procs && p != q && s.procs[p].canWrite && s.procs[q].canWrite;
      FlagLetsPlainWriteOut(s, p);
      FlagLetsPlainWriteOut(s, q);
    }
  }

  lemma ExclusiveMeansOneWriter(cfg: LeaderElection.Config)
    requires LeaderElection.Exclusive(cfg)
    ensures OneWriter(cfg)
  {
    forall actions, p, q, v, w | GoesOut(LeaderElection.Run(cfg, actions), p, v) && GoesOut(LeaderElection.Run(cfg, actions), q, w)
      ensures p == q
    {
      var s := LeaderElection.Run(cfg, actions);
      GoesOutOnlyWithFlag(s, p, v);
      GoesOutOnlyWithFlag(s, q, w);
      assert !LeaderElection.TwoWriters(s);
    }
  }

  /** And none at all gets out of a process whose controllers have stopped, until it leads again. */
  lemma NothingGoesOutAfterStop(cfg: LeaderElection.Config, actions: seq<LeaderElection.Action>, p: nat, more: seq<LeaderElection.Action>, w: Write)
    requires forall action <- more :: action != LeaderElection.StartedLeading(p)
    ensures !GoesOut(LeaderElection.Run(cfg, actions + [LeaderElection.ControllersStopped(p)] + more), p, w)
  {
    LeaderElection.StoppedMayNotWrite(cfg, actions, p, LeaderElection.ControllersStopped(p), more);
    var s := LeaderElection.Run(cfg, actions + [LeaderElection.ControllersStopped(p)] + more);
    if GoesOut(s, p, w) {
      GoesOutOnlyWithFlag(s, p, w);
    }
  }
}
