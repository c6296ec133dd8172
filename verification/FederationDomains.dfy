/** Which FederationDomains are served: those that are valid and clash with no other. */
module FederationDomains {
  import opened Ascii
  import opened Options

  /** `hostname` is the host without port. */
  datatype Parts = Parts(scheme: string, host: string, hostname: string, path: string, hasUser: bool, query: string, fragment: string)

  /** An issuer URL as net/url parses it: where there is a scheme, a path that is not empty begins with a slash. */
  type Url = u: Parts |
    && ':' !in u.scheme && '/' !in u.host
    && (u.path == "" || u.path[0] == '/' || u.scheme == "")
    witness Parts("", "", "", "", false, "", "")

  /** `url` is None if the issuer does not parse. */
  datatype Domain = Domain(namespace: string, name: string, issuer: string, url: Option<Url>, tlsSecret: Option<string>)

  datatype Status = Success | Duplicate | SameIssuerHostMustUseSameSecret | Invalid

  function IssuerKey(u: Url): string {
    u.scheme + "://" + ToLower(u.host) + u.path
  }

  function HostnameKey(u: Url): string {
    ToLower(u.hostname)
  }

  /** NewFederationDomainIssuer accepts the issuer. */
  predicate Valid(d: Domain) {
    && d.issuer != ""
    && d.url.Some?
    && d.url.value.scheme == "https"
    && !d.url.value.hasUser
    && (d.url.value.path == "" || d.url.value.path[|d.url.value.path| - 1] != '/')
    && d.url.value.query == ""
    && d.url.value.fragment == ""
  }

  predicate HasKey(d: Domain, key: string) {
    d.url.Some? && IssuerKey(d.url.value) == key
  }

  predicate HasHost(d: Domain, host: string) {
    d.url.Some? && HostnameKey(d.url.value) == host
  }

  // The specification.

  function Count(ds: seq<Domain>, key: string): nat {
    if ds == [] then 0 else Count(ds[..|ds| - 1], key) + (if HasKey(ds[|ds| - 1], key) then 1 else 0)
  }

  function SecretsOf(ds: seq<Domain>, host: string): set<string> {
    set d | d in ds && HasHost(d, host) && d.tlsSecret.Some? :: d.tlsSecret.value
  }

  function Judge(ds: seq<Domain>, d: Domain): Status {
    if d.url.Some? && Count(ds, IssuerKey(d.url.value)) > 1 then Duplicate
    else if d.url.Some? && |SecretsOf(ds, HostnameKey(d.url.value))| > 1 then SameIssuerHostMustUseSameSecret
    else if !Valid(d) then Invalid
    else Success
  }

  /** Whether writing a status to the domain with this namespace and name works. */
  type StatusWrite = (string, string, Status) -> bool

  /** The domains of `some` that are handed to the provider setter, judged among all of `ds`. */
  function Accepted(ds: seq<Domain>, some: seq<Domain>, writeOk: StatusWrite): seq<Domain> {
    if some == [] then []
    else
      var last := some[|some| - 1];
      Accepted(ds, some[..|some| - 1], writeOk) +
      (if Judge(ds, last) == Success && writeOk(last.namespace, last.name, Success) then [last] else [])
  }

  // The code: one pass to count, one pass to judge.

  ghost predicate Counted(ds: seq<Domain>, counts: map<string, nat>, secrets: map<string, set<string>>) {
    && (forall key :: Count(ds, key) == if key in counts then counts[key] else 0)
    && (forall host :: SecretsOf(ds, host) == if host in secrets then secrets[host] else {})
  }

  method CountIssuers(ds: seq<Domain>) returns (counts: map<string, nat>, secrets: map<string, set<string>>)
    ensures Counted(ds, counts, secrets)
  {
    counts, secrets := map[], map[];
    for i := 0 to |ds|
      invariant Counted(ds[..i], counts, secrets)
    {
      var d := ds[i];
      assert ds[..i + 1] == ds[..i] + [d] && ds[..i + 1][..i] == ds[..i];
      forall host ensures SecretsOf(ds[..i + 1], host) ==
        SecretsOf(ds[..i], host) + (if HasHost(d, host) && d.tlsSecret.Some? then {d.tlsSecret.value} else {})
      {
      }
      if d.url.None? {
        continue;
      }
      var key, host := IssuerKey(d.url.value), HostnameKey(d.url.value);
      counts := counts[key := (if key in counts then counts[key] else 0) + 1];
      if host !in secrets {
        secrets := secrets[host := {}];
      }
      if d.tlsSecret.Some? {
        secrets := secrets[host := secrets[host] + {d.tlsSecret.value}];
      }
    }
    assert ds[..|ds|] == ds;
  }

  method Check(ghost ds: seq<Domain>, counts: map<string, nat>, secrets: map<string, set<string>>, d: Domain) returns (status: Status)
    requires Counted(ds, counts, secrets)
    ensures status == Judge(ds, d)
  {
    if d.url.Some? {
      var key, host := IssuerKey(d.url.value), HostnameKey(d.url.value);
      assert Count(ds, key) == if key in counts then counts[key] else 0;
      assert SecretsOf(ds, host) == if host in secrets then secrets[host] else {};
      if key in counts && counts[key] > 1 {
        return Duplicate;
      }
      if host in secrets && |secrets[host]| > 1 {
        return SameIssuerHostMustUseSameSecret;
      }
    }
    return if Valid(d) then Success else Invalid;
  }

  lemma AcceptedOneMore(ds: seq<Domain>, writeOk: StatusWrite, i: nat)
    requires i < |ds|
    ensures Accepted(ds, ds[..i + 1], writeOk) ==
            Accepted(ds, ds[..i], writeOk) +
            (if Judge(ds, ds[i]) == Success && writeOk(ds[i].namespace, ds[i].name, Success) then [ds[i]] else [])
  {
    assert ds[..i + 1][..i] == ds[..i];
  }

  method Sync(ds: seq<Domain>, writeOk: StatusWrite) returns (accepted: seq<Domain>, statuses: seq<Status>, ok: bool)
    ensures accepted == Accepted(ds, ds, writeOk)
    ensures |statuses| == |ds| && forall i :: 0 <= i < |ds| ==> statuses[i] == Judge(ds, ds[i])
    ensures ok <==> forall i :: 0 <= i < |ds| ==> writeOk(ds[i].namespace, ds[i].name, statuses[i])
  {
    var counts, secrets := CountIssuers(ds);
    accepted, statuses, ok := [], [], true;
    for i := 0 to |ds|
      invariant accepted == Accepted(ds, ds[..i], writeOk)
      invariant |statuses| == i && forall j :: 0 <= j < i ==> statuses[j] == Judge(ds, ds[j])
      invariant ok <==> forall j :: 0 <= j < i ==> writeOk(ds[j].namespace, ds[j].name, statuses[j])
    {
      var d := ds[i];
      AcceptedOneMore(ds, writeOk, i);
      var status := Check(ds, counts, secrets, d);
      statuses := statuses + [status];
      if !writeOk(d.namespace, d.name, status) {
        ok := false;
      } else if status == Success {
        accepted := accepted + [d];
      }
    }
    assert ds[..|ds|] == ds;
  }

  // What it means.

  lemma {:induction false} CountConcat(a: seq<Domain>, b: seq<Domain>, key: string)
    ensures Count(a + b, key) == Count(a, key) + Count(b, key)
  {
    if b == [] {
      assert a + b == a;
    } else {
      assert (a + b)[..|a + b| - 1] == a + b[..|b| - 1];
      CountConcat(a, b[..|b| - 1], key);
    }
  }

  lemma CountOne(d: Domain, key: string)
    ensures Count([d], key) == if HasKey(d, key) then 1 else 0
  {
    assert [d][..0] == [];
  }

  /** More than one domain with a key means two different places in the list, and the other way round. */
  lemma {:induction false} CountedTwice(ds: seq<Domain>, i: nat, key: string)
    requires i < |ds| && HasKey(ds[i], key)
    ensures Count(ds, key) > 1 <==> exists j :: 0 <= j < |ds| && j != i && HasKey(ds[j], key)
  {
    var a, b := ds[..i], ds[i + 1..];
    assert ds == a + [ds[i]] + b;
    CountConcat(a + [ds[i]], b, key);
    CountConcat(a, [ds[i]], key);
    CountOne(ds[i], key);
    CountedAtAll(a, key);
    CountedAtAll(b, key);
    if j :| 0 <= j < |ds| && j != i && HasKey(ds[j], key) {
      assert if j < i then a[j] == ds[j] else b[j - i - 1] == ds[j];
    }
    if k :| 0 <= k < |a| && HasKey(a[k], key) { assert HasKey(ds[k], key); }
    if k :| 0 <= k < |b| && HasKey(b[k], key) { assert HasKey(ds[i + 1 + k], key); }
  }

  lemma {:induction false} CountedAtAll(ds: seq<Domain>, key: string)
    ensures Count(ds, key) > 0 <==> exists j :: 0 <= j < |ds| && HasKey(ds[j], key)
  {
    if ds != [] {
      var last := |ds| - 1;
      CountedAtAll(ds[..last], key);
      assert (exists j :: 0 <= j < |ds| && HasKey(ds[j], key)) <==>
             (exists j :: 0 <= j < last && HasKey(ds[..last][j], key)) || HasKey(ds[last], key);
    }
  }

  lemma SetOfTwo(s: set<string>)
    ensures |s| > 1 <==> exists x, y :: x in s && y in s && x != y
  {
    if x, y :| x in s && y in s && x != y {
      assert {x, y} <= s;
      assert |{x, y}| == 2;
      SubsetSize({x, y}, s);
    }
    if |s| > 1 {
      var x :| x in s;
      assert |s - {x}| == |s| - 1;
      var y :| y in s - {x};
    }
  }

  lemma {:induction false} SubsetSize(a: set<string>, b: set<string>)
    requires a <= b
    ensures |a| <= |b|
  {
    if a != {} {
      var x :| x in a;
      SubsetSize(a - {x}, b - {x});
    }
  }

  /** Two domains on one hostname that ask for different serving certificates. */
  ghost predicate SecretClash(ds: seq<Domain>, host: string) {
    exists d, e :: d in ds && e in ds && HasHost(d, host) && HasHost(e, host)
      && d.tlsSecret.Some? && e.tlsSecret.Some? && d.tlsSecret != e.tlsSecret
  }

  lemma SecretClashIsCounted(ds: seq<Domain>, host: string)
    ensures |SecretsOf(ds, host)| > 1 <==> SecretClash(ds, host)
  {
    SetOfTwo(SecretsOf(ds, host));
    if x, y :| x in SecretsOf(ds, host) && y in SecretsOf(ds, host) && x != y {
      var d :| d in ds && HasHost(d, host) && d.tlsSecret == Some(x);
      var e :| e in ds && HasHost(e, host) && e.tlsSecret == Some(y);
      assert d.tlsSecret != e.tlsSecret;
    }
    if SecretClash(ds, host) {
      var d, e :| d in ds && e in ds && HasHost(d, host) && HasHost(e, host)
        && d.tlsSecret.Some? && e.tlsSecret.Some? && d.tlsSecret != e.tlsSecret;
      assert d.tlsSecret.value in SecretsOf(ds, host) && e.tlsSecret.value in SecretsOf(ds, host);
    }
  }

  // The keys, by what they are made of.

  lemma SplitsAlike(c: char, a: string, x: string, b: string, y: string)
    requires c !in a && c !in b && (x == "" || x[0] == c) && (y == "" || y[0] == c)
    requires a + x == b + y
    ensures a == b && x == y
  {
    var s := a + x;
    assert forall i :: 0 <= i < |a| ==> s[i] in a;
    assert forall i :: 0 <= i < |b| ==> s[i] in b;
    assert |a| < |s| ==> s[|a|] == c;
    assert |b| < |s| ==> s[|b|] == c;
    assert a == (a + x)[..|a|] && b == (b + y)[..|b|];
    assert x == (a + x)[|a|..] && y == (b + y)[|b|..];
  }

  ghost predicate SameIssuer(u: Url, v: Url) {
    u.scheme == v.scheme && SameUpToCase(u.host, v.host) && u.path == v.path
  }

  /** Two URLs have the same key exactly if they differ at most in the case of the host, in query, fragment and user. */
  lemma KeysMeanSameIssuer(u: Url, v: Url)
    requires u.scheme != ""
    ensures IssuerKey(u) == IssuerKey(v) <==> SameIssuer(u, v)
  {
    ToLowerMeans(u.host, v.host);
    if IssuerKey(u) == IssuerKey(v) {
      var g, h := ToLower(u.host), ToLower(v.host);
      var x, y := "://" + (g + u.path), "://" + (h + v.path);
      assert IssuerKey(u) == u.scheme + x && IssuerKey(v) == v.scheme + y;
      SplitsAlike(':', u.scheme, x, v.scheme, y);
      assert g + u.path == h + v.path by { assert x[3..] == g + u.path && y[3..] == h + v.path; }
      assert '/' !in g && '/' !in h;
      SplitsAlike('/', g, u.path, h, v.path);
    }
  }

  /** Another domain of the list has the same issuer. */
  ghost predicate IssuerTwice(ds: seq<Domain>, i: nat)
    requires i < |ds| && ds[i].url.Some?
  {
    exists j :: 0 <= j < |ds| && j != i && ds[j].url.Some? && SameIssuer(ds[i].url.value, ds[j].url.value)
  }

  ghost predicate IsOnHost(d: Domain, hostname: string) {
    d.url.Some? && SameUpToCase(d.url.value.hostname, hostname)
  }

  /** Two domains of the list are on this hostname and name different serving certificates. */
  ghost predicate SecretsDiffer(ds: seq<Domain>, hostname: string) {
    exists d, e :: d in ds && e in ds && IsOnHost(d, hostname) && IsOnHost(e, hostname)
      && d.tlsSecret.Some? && e.tlsSecret.Some? && d.tlsSecret != e.tlsSecret
  }

  ghost predicate IssuerIsFine(issuer: string, u: Url) {
    && issuer != "" && u.scheme == "https" && !u.hasUser && u.query == "" && u.fragment == ""
    && !exists stem: string :: u.path == stem + "/"
  }

  lemma CountedMeansTwice(ds: seq<Domain>, i: nat)
    requires i < |ds| && ds[i].url.Some? && ds[i].url.value.scheme != ""
    ensures Count(ds, IssuerKey(ds[i].url.value)) > 1 <==> IssuerTwice(ds, i)
  {
    var u := ds[i].url.value;
    CountedTwice(ds, i, IssuerKey(u));
    forall j | 0 <= j < |ds| && ds[j].url.Some? ensures HasKey(ds[j], IssuerKey(u)) <==> SameIssuer(u, ds[j].url.value) {
      KeysMeanSameIssuer(u, ds[j].url.value);
    }
  }

  lemma SecretsOfMeansDiffer(ds: seq<Domain>, hostname: string)
    ensures |SecretsOf(ds, ToLower(hostname))| > 1 <==> SecretsDiffer(ds, hostname)
  {
    SecretClashIsCounted(ds, ToLower(hostname));
    forall d: Domain ensures HasHost(d, ToLower(hostname)) <==> IsOnHost(d, hostname) {
      if d.url.Some? { ToLowerMeans(d.url.value.hostname, hostname); }
    }
  }

  lemma ValidMeansFine(d: Domain)
    ensures Valid(d) <==> d.url.Some? && IssuerIsFine(d.issuer, d.url.value)
  {
    if d.url.Some? && d.url.value.path != "" {
      var path := d.url.value.path;
      assert path == path[..|path| - 1] + [path[|path| - 1]];
    }
  }

  /**
   The status of every domain: a second domain with the issuer is reported before different
   certificates on the hostname, and those before anything wrong with the issuer itself. An issuer
   that does not parse is invalid, and one without a scheme is refused in any case.
   */
  lemma StatusMeans(ds: seq<Domain>, i: nat)
    requires i < |ds|
    ensures ds[i].url.None? ==> Judge(ds, ds[i]) == Invalid
    ensures ds[i].url.Some? && ds[i].url.value.scheme == "" ==> Judge(ds, ds[i]) != Success
    ensures ds[i].url.Some? && ds[i].url.value.scheme != "" ==>
      Judge(ds, ds[i]) ==
        if IssuerTwice(ds, i) then Duplicate
        else if SecretsDiffer(ds, ds[i].url.value.hostname) then SameIssuerHostMustUseSameSecret
        else if IssuerIsFine(ds[i].issuer, ds[i].url.value) then Success
        else Invalid
  {
    if ds[i].url.Some? && ds[i].url.value.scheme != "" {
      CountedMeansTwice(ds, i);
      SecretsOfMeansDiffer(ds, ds[i].url.value.hostname);
      ValidMeansFine(ds[i]);
    }
  }

  lemma {:induction false} AcceptedAreGood(ds: seq<Domain>, some: seq<Domain>, writeOk: StatusWrite)
    ensures forall d :: d in Accepted(ds, some, writeOk) <==> d in some && Judge(ds, d) == Success && writeOk(d.namespace, d.name, Success)
  {
    if some != [] {
      var init, last := some[..|some| - 1], some[|some| - 1];
      AcceptedAreGood(ds, init, writeOk);
      assert some == init + [last];
    }
  }

  /** A domain is served exactly if its issuer is a fine one that no other domain has, its hostname has no clash of certificates, and its status could be written. */
  lemma ServedExactlyIfNoClash(ds: seq<Domain>, writeOk: StatusWrite, i: nat)
    requires i < |ds|
    ensures ds[i] in Accepted(ds, ds, writeOk) <==>
      && ds[i].url.Some? && IssuerIsFine(ds[i].issuer, ds[i].url.value)
      && !IssuerTwice(ds, i)
      && !SecretsDiffer(ds, ds[i].url.value.hostname)
      && writeOk(ds[i].namespace, ds[i].name, Success)
  {
    AcceptedAreGood(ds, ds, writeOk);
    ValidMeansFine(ds[i]);
    StatusMeans(ds, i);
  }

  /** Among the domains that are served no issuer occurs twice, and no hostname with two certificates. */
  lemma ServedDomainsDoNotClash(ds: seq<Domain>, writeOk: StatusWrite, i: nat, j: nat)
    requires i < |ds| && j < |ds| && i != j
    requires ds[i] in Accepted(ds, ds, writeOk) && ds[j] in Accepted(ds, ds, writeOk)
    ensures ds[i].url.Some? && ds[j].url.Some?
    ensures !SameIssuer(ds[i].url.value, ds[j].url.value)
    ensures SameUpToCase(ds[i].url.value.hostname, ds[j].url.value.hostname) && ds[i].tlsSecret.Some? && ds[j].tlsSecret.Some? ==>
            ds[i].tlsSecret == ds[j].tlsSecret
  {
    ServedExactlyIfNoClash(ds, writeOk, i);
    ServedExactlyIfNoClash(ds, writeOk, j);
  }

  lemma {:induction false} CountIgnoresOrder(ds: seq<Domain>, es: seq<Domain>, key: string)
    requires multiset(ds) == multiset(es)
    ensures Count(ds, key) == Count(es, key)
  {
    if ds == [] {
      assert |multiset(es)| == 0;
    } else {
      var init, last := ds[..|ds| - 1], ds[|ds| - 1];
      assert ds == init + [last];
      assert last in multiset(es);
      var k :| 0 <= k < |es| && es[k] == last;
      var a, b := es[..k], es[k + 1..];
      assert es == a + [last] + b;
      assert multiset(a + b) == multiset(es) - multiset{last};
      CountIgnoresOrder(init, a + b, key);
      CountConcat(a + [last], b, key);
      CountConcat(a, [last], key);
      CountConcat(a, b, key);
      CountOne(last, key);
    }
  }

  /** The same domains in any other order are judged the same, and the same ones are served. */
  lemma OrderDoesNotMatter(ds: seq<Domain>, es: seq<Domain>, writeOk: StatusWrite, d: Domain)
    requires multiset(ds) == multiset(es)
    ensures Judge(ds, d) == Judge(es, d)
    ensures d in Accepted(ds, ds, writeOk) <==> d in Accepted(es, es, writeOk)
  {
    assert forall x :: x in ds <==> x in multiset(ds);
    assert forall x :: x in es <==> x in multiset(es);
    if d.url.Some? {
      CountIgnoresOrder(ds, es, IssuerKey(d.url.value));
      assert SecretsOf(ds, HostnameKey(d.url.value)) == SecretsOf(es, HostnameKey(d.url.value));
    }
    AcceptedAreGood(ds, ds, writeOk);
    AcceptedAreGood(es, es, writeOk);
  }
}
