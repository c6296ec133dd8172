/** Parsing and printing of "host[:port]" endpoint addresses. */
module EndpointAddr {
  import opened Options

  datatype HostPort = HostPort(host: string, port: nat)

  datatype Error = BadSyntax | InvalidPort | InvalidHost

  datatype Result = Ok(value: HostPort) | Err(error: Error)

  function IndexByte(s: string, c: char): (i: int)
    ensures -1 <= i < |s|
    ensures i < 0 <==> c !in s
    ensures 0 <= i ==> s[i] == c && c !in s[..i]
  {
    if s == [] then -1
    else if s[0] == c then 0
    else
      var rest := IndexByte(s[1..], c);
      assert s == [s[0]] + s[1..];
      if rest < 0 then -1
      else
        assert s[..rest + 1] == [s[0]] + s[1..][..rest];
        rest + 1
  }

  function LastByte(s: string, c: char): (i: int)
    ensures -1 <= i < |s|
    ensures i < 0 <==> c !in s
    ensures 0 <= i ==> s[i] == c && c !in s[i + 1..]
  {
    if s == [] then -1
    else
      var n := |s| - 1;
      if s[n] == c then n
      else
        var i := LastByte(s[..n], c);
        assert s == s[..n] + [s[n]];
        assert 0 <= i ==> s[i + 1..] == s[..n][i + 1..] + [s[n]];
        i
  }

  /** net.SplitHostPort. */
  function SplitHostPort(s: string): Option<(string, string)> {
    var i := LastByte(s, ':');
    if i < 0 then None
    else if s[0] == '[' then
      var end := IndexByte(s, ']');
      if end < 0 || end + 1 != i then None
      else if '[' in s[1..] || ']' in s[end + 1..] then None
      else Some((s[1..end], s[i + 1..]))
    else if ':' in s[..i] || '[' in s || ']' in s then None
    else Some((s[..i], s[i + 1..]))
  }

  /** net.JoinHostPort. */
  function JoinHostPort(host: string, port: string): string {
    if ':' in host then "[" + host + "]:" + port else host + ":" + port
  }

  /** strconv.Itoa on a non-negative number. */
  function Itoa(n: nat): (s: string)
    ensures |s| > 0 && forall c :: c in s ==> '0' <= c <= '9'
  {
    var digit := '0' + (n % 10) as char;
    if n < 10 then [digit] else Itoa(n / 10) + [digit]
  }

  /** The value of a string of digits; None if some character is not a digit. */
  function Digits(s: string): Option<nat> {
    if s == [] then Some(0)
    else
      var c := s[|s| - 1];
      var most := Digits(s[..|s| - 1]);
      if most.Some? && '0' <= c <= '9' then Some(most.value * 10 + (c - '0') as int) else None
  }

  /**
   * strconv.Atoi with its error dropped: 0 for a syntax error. Numbers beyond the
   * int range are not clamped here; clamped or not, they are no port numbers.
   */
  function Atoi(s: string): int {
    var signed := s != [] && (s[0] == '-' || s[0] == '+');
    var digits := if signed then s[1..] else s;
    if digits == [] || Digits(digits).None? then 0
    else if signed && s[0] == '-' then 0 - Digits(digits).value
    else Digits(digits).value
  }

  /** Parse, for any notion of a valid host (an IP address or an RFC 1123 host name). */
  function Parse(validHost: string -> bool, endpoint: string, defaultPort: nat): Result {
    var direct := SplitHostPort(endpoint);
    var split := if direct.Some? then direct else SplitHostPort(JoinHostPort(endpoint, Itoa(defaultPort)));
    if split.None? then Err(BadSyntax)
    else
      var port := Atoi(split.value.1);
      if !(1 <= port <= 65535) then Err(InvalidPort)
      else if !validHost(split.value.0) then Err(InvalidHost)
      else Ok(HostPort(split.value.0, port))
  }

  function Endpoint(h: HostPort): string {
    JoinHostPort(h.host, Itoa(h.port))
  }

  // Properties.

  predicate NoBrackets(s: string) {
    '[' !in s && ']' !in s
  }

  lemma FirstIs(s: string, c: char, i: nat)
    requires i < |s| && s[i] == c && c !in s[..i]
    ensures IndexByte(s, c) == i
  {
  }

  lemma LastIs(s: string, c: char, i: nat)
    requires i < |s| && s[i] == c && c !in s[i + 1..]
    ensures LastByte(s, c) == i
  {
  }

  /** Splitting undoes joining, for every host without brackets and every port without colon or brackets. */
  lemma SplitUndoesJoin(host: string, port: string)
    requires NoBrackets(host) && NoBrackets(port) && ':' !in port
    ensures SplitHostPort(JoinHostPort(host, port)) == Some((host, port))
  {
    if ':' in host {
      BracketedSplits(host, port);
    } else {
      var s := host + ":" + port;
      assert s[|host| + 1..] == port && s[..|host|] == host;
      LastIs(s, ':', |host|);
      assert '[' !in s && ']' !in s;
      assert s[0] != '[';
    }
  }

  lemma BracketedSplits(host: string, port: string)
    requires NoBrackets(host) && NoBrackets(port) && ':' !in port
    ensures SplitHostPort("[" + host + "]:" + port) == Some((host, port))
  {
    var s := "[" + host + "]:" + port;
    var end := |host| + 1;
    assert s[end + 2..] == port && s[1..end] == host;
    assert s[..end] == "[" + host && s[1..] == host + "]:" + port && s[end + 1..] == ":" + port;
    FirstIs(s, ']', end);
    LastIs(s, ':', end + 1);
  }

  lemma JoinUndoesBracketedSplit(s: string)
    requires SplitHostPort(s).Some? && s[0] == '['
    ensures var (host, port) := SplitHostPort(s).value; s == "[" + host + "]:" + port && NoBrackets(host) && NoBrackets(port)
  {
    var (host, port) := SplitHostPort(s).value;
    var end := IndexByte(s, ']');
    assert s == s[..end] + s[end..] && s[..end] == "[" + host && s[end..] == "]:" + port;
    assert forall c :: c in host ==> c in s[1..] && c in s[..end];
    assert forall c :: c in port ==> c in s[1..] && c in s[end + 1..];
  }

  lemma JoinUndoesPlainSplit(s: string)
    requires SplitHostPort(s).Some? && s[0] != '['
    ensures var (host, port) := SplitHostPort(s).value; s == JoinHostPort(host, port) && NoBrackets(host) && NoBrackets(port)
  {
    var (host, port) := SplitHostPort(s).value;
    assert s == host + ":" + port;
    assert forall c :: c in host || c in port ==> c in s;
  }

  /** What is split off has no brackets, the port has no colon, and joining gives the input back, up to needless brackets. */
  lemma JoinUndoesSplit(s: string)
    requires SplitHostPort(s).Some?
    ensures var (host, port) := SplitHostPort(s).value;
      && NoBrackets(host) && NoBrackets(port) && ':' !in port
      && (s == JoinHostPort(host, port) || s == "[" + host + "]:" + port)
  {
    if s[0] == '[' {
      JoinUndoesBracketedSplit(s);
    } else {
      JoinUndoesPlainSplit(s);
    }
  }

  lemma {:induction false} DigitsOfItoa(n: nat)
    ensures Digits(Itoa(n)) == Some(n)
  {
    var digit := '0' + (n % 10) as char;
    if n < 10 {
      assert [digit][..0] == [];
    } else {
      DigitsOfItoa(n / 10);
      assert Itoa(n)[..|Itoa(n)| - 1] == Itoa(n / 10);
    }
  }

  lemma AtoiUndoesItoa(n: nat)
    ensures Atoi(Itoa(n)) == n
  {
    DigitsOfItoa(n);
    assert Itoa(n)[0] in Itoa(n);
  }

  lemma PortsArePlain(n: nat)
    ensures NoBrackets(Itoa(n)) && ':' !in Itoa(n)
  {
    assert !('0' <= '[' <= '9') && !('0' <= ']' <= '9') && !('0' <= ':' <= '9');
  }

  /** Exactly the valid pairs print to something that parses back to them. */
  lemma EndpointParsesExactlyIfValid(validHost: string -> bool, h: HostPort, d: nat)
    requires NoBrackets(h.host)
    ensures Parse(validHost, Endpoint(h), d) == Ok(h) <==> validHost(h.host) && 1 <= h.port <= 65535
  {
    PortsArePlain(h.port);
    SplitUndoesJoin(h.host, Itoa(h.port));
    AtoiUndoesItoa(h.port);
  }

  lemma ParsedIsValid(validHost: string -> bool, s: string, d: nat)
    requires Parse(validHost, s, d).Ok?
    ensures var h := Parse(validHost, s, d).value; NoBrackets(h.host) && validHost(h.host) && 1 <= h.port <= 65535
  {
    JoinUndoesSplit(if SplitHostPort(s).Some? then s else JoinHostPort(s, Itoa(d)));
  }

  /** Whatever parses prints to something that parses to the same host and port, whatever default is given. */
  lemma ParseUndoesEndpoint(validHost: string -> bool, s: string, d: nat, d2: nat)
    requires Parse(validHost, s, d).Ok?
    ensures Parse(validHost, Endpoint(Parse(validHost, s, d).value), d2) == Parse(validHost, s, d)
  {
    ParsedIsValid(validHost, s, d);
    EndpointParsesExactlyIfValid(validHost, Parse(validHost, s, d).value, d2);
  }

  /** A host name, or an IPv6 address without brackets, gets the default port. */
  lemma DefaultPortIsUsed(validHost: string -> bool, host: string, d: nat)
    requires NoBrackets(host)
    requires ':' !in host || ':' in host[..LastByte(host, ':')]
    ensures Parse(validHost, host, d) == Parse(validHost, Endpoint(HostPort(host, d)), d)
    ensures Parse(validHost, host, d) == Ok(HostPort(host, d)) <==> validHost(host) && 1 <= d <= 65535
  {
    assert SplitHostPort(host).None?;
    PortsArePlain(d);
    SplitUndoesJoin(host, Itoa(d));
    EndpointParsesExactlyIfValid(validHost, HostPort(host, d), d);
  }

  /** The plain and the bracketed way to write a host and a port. */
  ghost predicate Writes(s: string, host: string, port: string) {
    && NoBrackets(host) && NoBrackets(port) && ':' !in port
    && (s == "[" + host + "]:" + port || (':' !in host && s == host + ":" + port))
  }

  /** Exactly what is written in one of the two ways splits, into the host and port that are written. */
  lemma SplitsExactlyIfWritten(s: string, host: string, port: string)
    ensures SplitHostPort(s) == Some((host, port)) <==> Writes(s, host, port)
  {
    if SplitHostPort(s) == Some((host, port)) {
      JoinUndoesSplit(s);
    }
    if Writes(s, host, port) {
      if s == "[" + host + "]:" + port {
        BracketedSplits(host, port);
      } else {
        assert s == JoinHostPort(host, port);
        SplitUndoesJoin(host, port);
      }
    }
  }

  /** What is written with a port parses to that host and port; a bad port is reported before a bad host. */
  lemma WrittenParses(validHost: string -> bool, s: string, host: string, port: string, d: nat)
    requires Writes(s, host, port)
    ensures Parse(validHost, s, d) ==
      if Atoi(port) < 1 || 65535 < Atoi(port) then Err(InvalidPort)
      else if !validHost(host) then Err(InvalidHost)
      else Ok(HostPort(host, Atoi(port)))
  {
    SplitsExactlyIfWritten(s, host, port);
  }

  /** A number may be written with leading zeros and a sign; what is no number counts as 0. */
  lemma NumbersMayBeSigned(n: nat, zeros: string, s: string)
    requires forall i :: 0 <= i < |zeros| ==> zeros[i] == '0'
    requires s == zeros + Itoa(n)
    ensures Atoi(s) == n && Atoi("+" + s) == n && Atoi("-" + s) == 0 - n
  {
    assert Digits(s) == Some(n) by {
      DigitsOfItoa(n);
      LeadingZeros(zeros, Itoa(n));
    }
    assert '0' <= s[0] <= '9' by { assert s[0] in zeros || s[0] in Itoa(n); }
    SignsAreRead(s, n);
  }

  lemma SignsAreRead(s: string, n: nat)
    requires s != [] && Digits(s) == Some(n) && '0' <= s[0] <= '9'
    ensures Atoi(s) == n && Atoi("+" + s) == n && Atoi("-" + s) == 0 - n
  {
    assert ("+" + s)[1..] == s && ("-" + s)[1..] == s;
  }

  lemma {:induction false} LeadingZeros(zeros: string, s: string)
    requires forall i :: 0 <= i < |zeros| ==> zeros[i] == '0'
    ensures Digits(zeros + s) == Digits(s)
    decreases |zeros|, |s|
  {
    if s != [] {
      assert (zeros + s)[..|zeros + s| - 1] == zeros + s[..|s| - 1];
      LeadingZeros(zeros, s[..|s| - 1]);
    } else if zeros != [] {
      var fewer := zeros[..|zeros| - 1];
      assert zeros == fewer + ['0'] && zeros + s == zeros && fewer + s == fewer;
      LeadingZeros(fewer, s);
    } else {
      assert zeros + s == s;
    }
  }

  lemma {:induction false} OnlyDigitsCount(s: string, i: nat)
    requires i < |s| && !('0' <= s[i] <= '9')
    ensures Digits(s).None?
  {
    if i < |s| - 1 {
      OnlyDigitsCount(s[..|s| - 1], i);
    }
  }

  lemma OthersAreNoNumbers(s: string, i: nat)
    requires i < |s| && !('0' <= s[i] <= '9')
    requires i > 0 || (s[0] != '+' && s[0] != '-')
    ensures Atoi(s) == 0
  {
    OnlyDigitsCount(s, i);
    if i > 0 {
      OnlyDigitsCount(s[1..], i - 1);
    }
  }
}
