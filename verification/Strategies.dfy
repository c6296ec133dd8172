/** Merging an integration strategy into the status of a CredentialIssuer. */
module Strategies {
  import opened Options
  import opened Sorting
  import opened KeyedLists

  const KUBE_CLUSTER_SIGNING_CERTIFICATE := "KubeClusterSigningCertificate"
  const IMPERSONATION_PROXY := "ImpersonationProxy"

  datatype Frontend = TokenCredentialRequestAPI(server: string, caData: string) | ImpersonationProxy(endpoint: string, caData: string)

  datatype Strategy = Strategy(
    strategyType: string,
    status: string,
    reason: string,
    message: string,
    lastUpdateTime: int,
    frontend: Option<Frontend>)

  datatype KubeConfigInfo = KubeConfigInfo(server: string, caData: string)

  function Type(s: Strategy): string { s.strategyType }

  function Weight(t: string): int {
    if t == KUBE_CLUSTER_SIGNING_CERTIFICATE then 2 else if t == IMPERSONATION_PROXY then 1 else 0
  }

  /** Heavier types first, then by name. */
  predicate Less(a: Strategy, b: Strategy) {
    var wa, wb := Weight(a.strategyType), Weight(b.strategyType);
    if wa != wb then wa > wb else StringLess(a.strategyType, b.strategyType)
  }

  predicate EqualExceptLastUpdated(a: Strategy, b: Strategy) {
    a.(lastUpdateTime := 0) == b.(lastUpdateTime := 0)
  }

  // The specification, on the strategies as a map from their types.

  type Content = map<string, Strategy>

  function Merge(m: Content, s: Strategy): Content {
    if s.strategyType in m && EqualExceptLastUpdated(m[s.strategyType], s) then m else m[s.strategyType := s]
  }

  function Mirror(info: Option<KubeConfigInfo>, s: Strategy): Option<KubeConfigInfo> {
    match s.frontend
    case Some(TokenCredentialRequestAPI(server, caData)) => Some(KubeConfigInfo(server, caData))
    case _ => info
  }

  // The code.

  class Status {
    var strategies: seq<Strategy>
    var kubeConfigInfo: Option<KubeConfigInfo>

    method MergeStrategy(s: Strategy, ghost m: Content)
      requires Represents(Type, strategies, m)
      modifies this
      ensures Represents(Type, strategies, Merge(m, s)) && Canonical(Less, strategies)
      ensures kubeConfigInfo == Mirror(old(kubeConfigInfo), s)
    {
      var existing := -1;
      for i := 0 to |strategies|
        invariant strategies == old(strategies) && kubeConfigInfo == old(kubeConfigInfo)
        invariant existing < 0 && forall j :: 0 <= j < i ==> Type(strategies[j]) != s.strategyType
      {
        if strategies[i].strategyType == s.strategyType {
          existing := i;
          break;
        }
      }
      if existing >= 0 {
        if !EqualExceptLastUpdated(strategies[existing], s) {
          ReplaceRepresents(Type, strategies, m, existing, s);
          strategies := strategies[existing := s];
        }
      } else {
        AppendRepresents(Type, strategies, m, s);
        strategies := strategies + [s];
      }
      TypeOrder();
      SortRepresents(Type, Less, strategies, Merge(m, s));
      strategies := StableSort(Less, strategies);
      if s.frontend.Some? && s.frontend.value.TokenCredentialRequestAPI? {
        kubeConfigInfo := Some(KubeConfigInfo(s.frontend.value.server, s.frontend.value.caData));
      }
    }
  }

  lemma TypeOrder()
    ensures OrdersByKey(Type, Less)
  {
    StringOrder();
  }

  // What merging promises.

  /** Nothing about a strategy changed but, perhaps, the time. */
  predicate Unchanged(a: Strategy, b: Strategy) {
    a.status == b.status && a.reason == b.reason && a.message == b.message && a.frontend == b.frontend
  }

  /**
   The reported strategy is held as it was reported, with the time of the last report that said
   something else; no other strategy is touched. The old kubeconfig field follows the reports about
   the token credential request API and no others.
   */
  lemma ReportIsHeld(m: Content, s: Strategy, info: Option<KubeConfigInfo>)
    requires forall t <- m :: m[t].strategyType == t
    ensures var r := Merge(m, s);
      && r.Keys == m.Keys + {s.strategyType}
      && (forall t <- m :: t != s.strategyType ==> r[t] == m[t])
      && r[s.strategyType].strategyType == s.strategyType && Unchanged(r[s.strategyType], s)
      && r[s.strategyType].lastUpdateTime ==
           if s.strategyType in m && Unchanged(m[s.strategyType], s) then m[s.strategyType].lastUpdateTime else s.lastUpdateTime
    ensures s.frontend.Some? && s.frontend.value.TokenCredentialRequestAPI? ==>
      Mirror(info, s).Some? && Mirror(info, s).value.server == s.frontend.value.server && Mirror(info, s).value.caData == s.frontend.value.caData
    ensures s.frontend.None? || s.frontend.value.ImpersonationProxy? ==> Mirror(info, s) == info
  {
    if s.strategyType in m {
      var was := m[s.strategyType];
      assert Unchanged(was, s) ==> was.(lastUpdateTime := 0) == s.(lastUpdateTime := 0);
      assert was.(lastUpdateTime := 0) == s.(lastUpdateTime := 0) ==>
        was.(lastUpdateTime := 0).status == s.(lastUpdateTime := 0).status && was.(lastUpdateTime := 0).frontend == s.(lastUpdateTime := 0).frontend;
    }
  }

  /** Merging a strategy again at a later time changes neither list nor mirror, so the status is not written again. */
  lemma RepeatedMergeWritesNothing(m: Content, s: Strategy, later: int, xs: seq<Strategy>, ys: seq<Strategy>, info: Option<KubeConfigInfo>)
    requires Represents(Type, xs, Merge(m, s)) && Canonical(Less, xs)
    requires Represents(Type, ys, Merge(Merge(m, s), s.(lastUpdateTime := later))) && Canonical(Less, ys)
    ensures xs == ys
    ensures Mirror(Mirror(info, s), s.(lastUpdateTime := later)) == Mirror(info, s)
  {
    TypeOrder();
    CanonicalIsUnique(Type, Less, xs, ys, Merge(m, s));
  }

  /** At most one of the two reports is mirrored, or both to the same effect. */
  predicate MirrorsAgree(a: Strategy, b: Strategy) {
    Mirror(None, a) == None || Mirror(None, b) == None || Mirror(None, a) == Mirror(None, b)
  }

  /**
   Two controllers that report different strategies end with the same list in whatever order they
   report, and with the same mirror exactly if their mirrors agree.
   */
  lemma ReportsCommute(m: Content, a: Strategy, b: Strategy, xs: seq<Strategy>, ys: seq<Strategy>)
    requires a.strategyType != b.strategyType
    requires Represents(Type, xs, Merge(Merge(m, a), b)) && Canonical(Less, xs)
    requires Represents(Type, ys, Merge(Merge(m, b), a)) && Canonical(Less, ys)
    ensures xs == ys
    ensures forall info :: Mirror(Mirror(info, a), b) == Mirror(Mirror(info, b), a) <==> MirrorsAgree(a, b)
  {
    assert Merge(Merge(m, a), b) == Merge(Merge(m, b), a);
    TypeOrder();
    CanonicalIsUnique(Type, Less, xs, ys, Merge(Merge(m, a), b));
  }

  /** Signing with the cluster's own key is preferred to the impersonation proxy, and that to anything else; the rest is by name. */
  ghost predicate Preferred(t: string, u: string) {
    || (t == "KubeClusterSigningCertificate" && u != t)
    || (t == "ImpersonationProxy" && u != t && u != "KubeClusterSigningCertificate")
    || (t !in {"KubeClusterSigningCertificate", "ImpersonationProxy"} && u !in {"KubeClusterSigningCertificate", "ImpersonationProxy"} &&
          exists k: nat :: FirstDifference(t, u, k))
  }

  /** The list is in the order of preference, so the most preferred strategy that is present comes first. */
  lemma PreferredComeFirst(xs: seq<Strategy>, i: nat, j: nat)
    requires Canonical(Less, xs) && i < j < |xs|
    ensures Preferred(xs[i].strategyType, xs[j].strategyType)
  {
    assert Less(xs[i], xs[j]);
    StringLessMeans(xs[i].strategyType, xs[j].strategyType);
    StringLessTotal(xs[i].strategyType, xs[j].strategyType);
  }
}
