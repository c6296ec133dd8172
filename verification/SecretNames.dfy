/**
 How a signature becomes the name of the Secret that stores its session: base64-decode it if it
 looks like base64, then lower-case base32 (sections 4 to 6 of RFC 4648).
 */
module SecretNames {
  import opened Ascii
  import opened Options

  type Byte = b: int | 0 <= b < 256

  // Numbers as bits, most significant first.

  function Pow2(n: nat): (p: nat)
    ensures p >= 1
  {
    if n == 0 then 1 else 2 * Pow2(n - 1)
  }

  /** n times k, by addition only. */
  function Times(n: nat, k: nat): (r: nat) {
    if k == 0 then 0 else n + Times(n, k - 1)
  }

  function Bits(v: nat, n: nat): (bits: seq<bool>)
    ensures |bits| == n
  {
    if n == 0 then [] else Bits(v / 2, n - 1) + [v % 2 == 1]
  }

  function Value(bits: seq<bool>): (v: nat)
    ensures v < Pow2(|bits|)
  {
    if bits == [] then 0
    else 2 * Value(bits[..|bits| - 1]) + (if bits[|bits| - 1] then 1 else 0)
  }

  lemma {:induction false} ValueOfBits(v: nat, n: nat)
    requires v < Pow2(n)
    ensures Value(Bits(v, n)) == v
  {
    if n > 0 {
      ValueOfBits(v / 2, n - 1);
      assert Bits(v, n)[..n - 1] == Bits(v / 2, n - 1);
    }
  }

  lemma {:induction false} BitsOfValue(bits: seq<bool>)
    ensures Bits(Value(bits), |bits|) == bits
  {
    if bits != [] {
      BitsOfValue(bits[..|bits| - 1]);
    }
  }

  // Regrouping: bytes to groups of n bits, the last one filled up with zeros, and back.

  function BytesToBits(bytes: seq<Byte>): (bits: seq<bool>)
    ensures |bits| == 8 * |bytes|
  {
    if bytes == [] then [] else Bits(bytes[0], 8) + BytesToBits(bytes[1..])
  }

  function BitsToBytes(bits: seq<bool>): (bytes: seq<Byte>)
    requires |bits| % 8 == 0
    ensures 8 * |bytes| == |bits|
  {
    if bits == [] then [] else
      assert Pow2(8) == 256;
      [Value(bits[..8])] + BitsToBytes(bits[8..])
  }

  function Zeros(n: nat): seq<bool> {
    seq(n, _ => false)
  }

  function Groups(bits: seq<bool>, n: nat): (groups: seq<nat>)
    requires n > 0
    ensures |bits| <= Times(n, |groups|) < |bits| + n
    ensures forall i :: 0 <= i < |groups| ==> groups[i] < Pow2(n)
  {
    if bits == [] then []
    else if |bits| < n then [Value(bits + Zeros(n - |bits|))]
    else [Value(bits[..n])] + Groups(bits[n..], n)
  }

  function Ungroup(groups: seq<nat>, n: nat): (bits: seq<bool>)
    ensures |bits| == Times(n, |groups|)
  {
    if groups == [] then [] else Bits(groups[0], n) + Ungroup(groups[1..], n)
  }

  /** Reading groups back drops the bits that do not fill a byte. */
  function Regroup(groups: seq<nat>, n: nat): (bytes: seq<Byte>) {
    var bits := Ungroup(groups, n);
    BitsToBytes(bits[..|bits| / 8 * 8])
  }

  lemma {:induction false} BytesOfBits(bytes: seq<Byte>)
    ensures BitsToBytes(BytesToBits(bytes)) == bytes
  {
    if bytes != [] {
      var bits := BytesToBits(bytes);
      assert bits[..8] == Bits(bytes[0], 8) && bits[8..] == BytesToBits(bytes[1..]);
      assert Pow2(8) == 256;
      ValueOfBits(bytes[0], 8);
      BytesOfBits(bytes[1..]);
    }
  }

  lemma UngroupCons(g: nat, rest: seq<nat>, n: nat)
    ensures Ungroup([g] + rest, n) == Bits(g, n) + Ungroup(rest, n)
  {
    assert ([g] + rest)[1..] == rest;
  }

  /** A full group followed by groups that give back `rest`. */
  lemma UngroupFirst(full: seq<bool>, groups: seq<nat>, rest: seq<bool>)
    requires |rest| <= Times(|full|, |groups|)
    requires Ungroup(groups, |full|)[..|rest|] == rest
    ensures |full + rest| <= Times(|full|, |groups| + 1)
    ensures Ungroup([Value(full)] + groups, |full|)[..|full + rest|] == full + rest
  {
    BitsOfValue(full);
    UngroupCons(Value(full), groups, |full|);
    var bits := Ungroup(groups, |full|);
    assert (full + bits)[..|full + rest|] == full + bits[..|rest|];
  }

  lemma {:induction false} GroupsUngroup(bits: seq<bool>, n: nat)
    requires n > 0
    ensures Ungroup(Groups(bits, n), n)[..|bits|] == bits
  {
    if bits == [] {
    } else if |bits| < n {
      var filled := bits + Zeros(n - |bits|);
      UngroupFirst(filled, [], []);
      assert Groups(bits, n) == [Value(filled)] + [];
      assert Ungroup(Groups(bits, n), n)[..|bits|] == (filled + [])[..|bits|] == bits;
    } else {
      GroupsUngroup(bits[n..], n);
      UngroupFirst(bits[..n], Groups(bits[n..], n), bits[n..]);
      assert bits[..n] + bits[n..] == bits;
    }
  }

  /** Regrouping bytes of any number into groups of up to 8 bits loses nothing. */
  lemma RegroupRoundTrip(bytes: seq<Byte>, n: nat)
    requires 1 <= n <= 8
    ensures Regroup(Groups(BytesToBits(bytes), n), n) == bytes
  {
    var bits := BytesToBits(bytes);
    var back := Ungroup(Groups(bits, n), n);
    GroupsUngroup(bits, n);
    assert |back| / 8 * 8 == |bits|;
    BytesOfBits(bytes);
  }

  // Alphabets.

  function Char32(v: nat): (c: char)
    requires v < 32
  {
    if v < 26 then ('A' as int + v) as char else ('2' as int + v - 26) as char
  }

  function Char64(v: nat, url: bool): (c: char)
    requires v < 64
  {
    if v < 26 then ('A' as int + v) as char
    else if v < 52 then ('a' as int + v - 26) as char
    else if v < 62 then ('0' as int + v - 52) as char
    else if v == 62 then (if url then '-' else '+')
    else (if url then '_' else '/')
  }

  function Value64(c: char, url: bool): (v: Option<nat>)
    ensures v.Some? ==> v.value < 64 && Char64(v.value, url) == c
    ensures v.None? ==> forall w: nat :: w < 64 ==> Char64(w, url) != c
  {
    if 'A' <= c <= 'Z' then Some(c as int - 'A' as int)
    else if 'a' <= c <= 'z' then Some(c as int - 'a' as int + 26)
    else if '0' <= c <= '9' then Some(c as int - '0' as int + 52)
    else if c == (if url then '-' else '+') then Some(62)
    else if c == (if url then '_' else '/') then Some(63)
    else None
  }

  function Lower32(bytes: seq<Byte>): (s: string) {
    var groups := Groups(BytesToBits(bytes), 5);
    assert Pow2(5) == 32;
    seq(|groups|, i requires 0 <= i < |groups| => LowerChar(Char32(groups[i])))
  }

  /** Base64 without padding, in the URL or in the standard alphabet. */
  function RawEncode(bytes: seq<Byte>, url: bool): (s: string) {
    var groups := Groups(BytesToBits(bytes), 6);
    assert Pow2(6) == 64;
    seq(|groups|, i requires 0 <= i < |groups| => Char64(groups[i], url))
  }

  function RawURLEncode(bytes: seq<Byte>): (s: string) {
    RawEncode(bytes, true)
  }

  /** Base64 with padding up to a multiple of four characters. */
  function PaddedEncode(bytes: seq<Byte>, url: bool): (s: string) {
    RawEncode(bytes, url) + Padding(RawEncode(bytes, url))
  }

  function Padding(raw: string): string {
    if |raw| % 4 == 2 then "==" else if |raw| % 4 == 3 then "=" else ""
  }

  // Decoding, as Go's encoding/base64 does it: newlines are skipped, and spare bits are not checked.

  function SkipNewlines(s: string): (r: string) {
    if s == [] then []
    else if s[0] == '\r' || s[0] == '\n' then SkipNewlines(s[1..])
    else [s[0]] + SkipNewlines(s[1..])
  }

  function Values64(s: string, url: bool): (r: Option<seq<nat>>) {
    if s == [] then Some([])
    else match (Value64(s[0], url), Values64(s[1..], url))
      case (Some(v), Some(vs)) => Some([v] + vs)
      case _ => None
  }

  function DecodeBody(s: string, url: bool): (r: Option<seq<Byte>>) {
    match Values64(s, url)
    case Some(vs) => if |vs| % 4 == 1 then None else Some(Regroup(vs, 6))
    case None => None
  }

  function RawDecode(s: string, url: bool): (r: Option<seq<Byte>>) {
    DecodeBody(SkipNewlines(s), url)
  }

  function PaddedDecode(s: string, url: bool): (r: Option<seq<Byte>>) {
    match StripPadding(SkipNewlines(s))
    case Some(raw) => DecodeBody(raw, url)
    case None => None
  }

  function StripPadding(t: string): (raw: Option<string>) {
    if |t| % 4 != 0 then None
    else if |t| > 0 && t[|t| - 2] == '=' && t[|t| - 1] == '=' then Some(t[..|t| - 2])
    else if |t| > 0 && t[|t| - 1] == '=' then Some(t[..|t| - 1])
    else Some(t)
  }

  /** A Go string holds bytes. */
  predicate IsByteString(s: string) {
    forall i :: 0 <= i < |s| ==> s[i] as int < 256
  }

  function StringBytes(s: string): (bytes: seq<Byte>)
    requires IsByteString(s)
  {
    seq(|s|, i requires 0 <= i < |s| => s[i] as int)
  }

  function MaybeBase64Decode(signature: string): (bytes: seq<Byte>)
    requires IsByteString(signature)
  {
    match RawDecode(signature, true) case Some(b) => b case None =>
    match PaddedDecode(signature, true) case Some(b) => b case None =>
    match RawDecode(signature, false) case Some(b) => b case None =>
    match PaddedDecode(signature, false) case Some(b) => b case None =>
    StringBytes(signature)
  }

  const NAME_PREFIX := "pinniped-storage-"

  function GetName(resource: string, signature: string): (name: string)
    requires IsByteString(signature)
  {
    NAME_PREFIX + resource + "-" + Lower32(MaybeBase64Decode(signature))
  }

  /** The storage signature of an OIDCClient is its UID, encoded so that it decodes to itself. */
  function UidToSignature(uid: seq<Byte>): (signature: string) {
    RawURLEncode(uid)
  }

  // What names promise.

  lemma Lower32Chars(bytes: seq<Byte>)
    ensures forall c <- Lower32(bytes) :: 'a' <= c <= 'z' || '2' <= c <= '7'
  {
    var groups := Groups(BytesToBits(bytes), 5);
    assert Pow2(5) == 32;
    assert forall i :: 0 <= i < |groups| ==> var c := Lower32(bytes)[i]; 'a' <= c <= 'z' || '2' <= c <= '7';
  }

  lemma Lower32Injective(a: seq<Byte>, b: seq<Byte>)
    requires Lower32(a) == Lower32(b)
    ensures a == b
  {
    var ga, gb := Groups(BytesToBits(a), 5), Groups(BytesToBits(b), 5);
    assert Pow2(5) == 32;
    assert |ga| == |Lower32(a)| == |gb|;
    forall i | 0 <= i < |ga| ensures ga[i] == gb[i] {
      assert Lower32(a)[i] == Lower32(b)[i];
    }
    assert ga == gb;
    RegroupRoundTrip(a, 5);
    RegroupRoundTrip(b, 5);
  }

  /** The right alphabet reads what was written; the other one reads the same or nothing. */
  lemma {:induction false} ValuesOfChars(groups: seq<nat>, s: string, url: bool)
    requires |s| == |groups|
    requires forall i :: 0 <= i < |s| ==> groups[i] < 64 && s[i] == Char64(groups[i], url)
    ensures SkipNewlines(s) == s
    ensures Values64(s, url) == Some(groups)
    ensures Values64(s, !url) == None || Values64(s, !url) == Some(groups)
  {
    if s != [] {
      assert Value64(s[0], url) == Some(groups[0]);
      assert Value64(s[0], !url) == None || Value64(s[0], !url) == Some(groups[0]);
      ValuesOfChars(groups[1..], s[1..], url);
      assert [groups[0]] + groups[1..] == groups;
    }
  }

  lemma {:induction false} TimesSix(k: nat)
    ensures Times(6, k) == 6 * k
  {
    if k > 0 {
      TimesSix(k - 1);
    }
  }

  lemma EncodedIsText(bytes: seq<Byte>, url: bool)
    ensures var s := RawEncode(bytes, url); IsByteString(s) && '=' !in s
  {
    var groups, s := Groups(BytesToBits(bytes), 6), RawEncode(bytes, url);
    assert forall i :: 0 <= i < |s| ==> s[i] == Char64(groups[i], url) && s[i] != '=';
  }

  /** No bytes are encoded in a text whose length is one more than a multiple of four. */
  lemma NotOneOver(text: nat, bytes: nat)
    requires 8 * bytes <= 6 * text < 8 * bytes + 6
    ensures text % 4 != 1
  {
  }

  lemma CharsAreRead(bytes: seq<Byte>, url: bool)
    ensures var groups, s := Groups(BytesToBits(bytes), 6), RawEncode(bytes, url);
      && |s| % 4 != 1 && SkipNewlines(s) == s
      && Values64(s, url) == Some(groups) && (Values64(s, !url) == None || Values64(s, !url) == Some(groups))
  {
    var groups, s := Groups(BytesToBits(bytes), 6), RawEncode(bytes, url);
    ValuesOfChars(groups, s, url) by { assert Pow2(6) == 64; }
    TimesSix(|groups|);
    NotOneOver(|groups|, |bytes|);
  }

  lemma BodyIsDecoded(bytes: seq<Byte>, url: bool)
    ensures var s := RawEncode(bytes, url);
      && IsByteString(s) && |s| % 4 != 1 && '=' !in s && SkipNewlines(s) == s
      && DecodeBody(s, url) == Some(bytes)
      && (DecodeBody(s, !url) == None || DecodeBody(s, !url) == Some(bytes))
  {
    EncodedIsText(bytes, url);
    CharsAreRead(bytes, url);
    RegroupRoundTrip(bytes, 6);
  }

  lemma CanonicalIsAccepted(bytes: seq<Byte>)
    ensures IsByteString(RawURLEncode(bytes))
    ensures RawDecode(RawURLEncode(bytes), true) == Some(bytes)
  {
    BodyIsDecoded(bytes, true);
  }

  lemma {:induction false} EqualsSignIsNoDigit(s: string, url: bool)
    requires '=' in s
    ensures Values64(s, url) == None
  {
    if s[0] != '=' {
      assert s == [s[0]] + s[1..];
      EqualsSignIsNoDigit(s[1..], url);
    }
  }

  lemma {:induction false} NothingToSkip(s: string, t: string)
    requires SkipNewlines(s) == s && '\r' !in t && '\n' !in t
    ensures SkipNewlines(s + t) == s + t
    decreases |s| + |t|
  {
    if s != [] {
      assert (s + t)[1..] == s[1..] + t;
      assert s[0] != '\r' && s[0] != '\n' by { SkippingShortens(s[1..]); }
      NothingToSkip(s[1..], t);
    } else if t != [] {
      assert s + t == t && t == [t[0]] + t[1..];
      NothingToSkip([], t[1..]);
      assert [] + t[1..] == t[1..];
    }
  }

  lemma {:induction false} SkippingShortens(s: string)
    ensures |SkipNewlines(s)| <= |s|
  {
    if s != [] {
      SkippingShortens(s[1..]);
    }
  }

  /** Padding is stripped by the decoders that expect it, and refused by the others. */
  lemma PaddingIsStripped(raw: string, u: bool)
    requires '=' !in raw && SkipNewlines(raw) == raw && |raw| % 4 != 1
    ensures PaddedDecode(raw + Padding(raw), u) == DecodeBody(raw, u)
    ensures RawDecode(raw + Padding(raw), u) == if Padding(raw) == "" then DecodeBody(raw, u) else None
  {
    var s := raw + Padding(raw);
    assert SkipNewlines(s) == s by { NothingToSkip(raw, Padding(raw)); }
    StripUndoesPadding(raw);
    if Padding(raw) == "" {
      assert s == raw;
    } else {
      assert '=' in s by { assert s[|raw|] == '='; }
      EqualsSignIsNoDigit(s, u);
    }
  }

  lemma StripUndoesPadding(raw: string)
    requires '=' !in raw && |raw| % 4 != 1
    ensures StripPadding(raw + Padding(raw)) == Some(raw)
  {
    var s := raw + Padding(raw);
    assert s[..|raw|] == raw;
    assert |raw| > 0 ==> s[|raw| - 1] == raw[|raw| - 1] && raw[|raw| - 1] in raw;
    if |raw| % 4 == 2 {
      assert |s| == |raw| + 2 && s[|s| - 2] == '=' && s[|s| - 1] == '=';
    } else if |raw| % 4 == 3 {
      assert |s| == |raw| + 1 && s[|s| - 2] == raw[|raw| - 1] && s[|s| - 1] == '=';
    } else {
      assert s == raw;
    }
  }

  lemma UnpaddedIsRefusedOrRead(raw: string, u: bool)
    requires '=' !in raw && SkipNewlines(raw) == raw
    ensures RawDecode(raw, u) == DecodeBody(raw, u)
    ensures PaddedDecode(raw, u) == None || PaddedDecode(raw, u) == DecodeBody(raw, u)
  {
    assert |raw| > 0 ==> raw[|raw| - 1] in raw;
  }

  lemma DecodedInTurn(s: string, bytes: seq<Byte>, url: bool)
    requires IsByteString(s)
    requires RawDecode(s, true) == None || RawDecode(s, true) == Some(bytes)
    requires PaddedDecode(s, true) == None || PaddedDecode(s, true) == Some(bytes)
    requires RawDecode(s, false) == None || RawDecode(s, false) == Some(bytes)
    requires PaddedDecode(s, false) == None || PaddedDecode(s, false) == Some(bytes)
    requires RawDecode(s, url) == Some(bytes) || PaddedDecode(s, url) == Some(bytes)
    ensures MaybeBase64Decode(s) == bytes
  {
  }

  /** Every one of the four base64 encodings of any bytes is decoded to these bytes. */
  lemma EveryEncodingDecodes(bytes: seq<Byte>, url: bool, padded: bool)
    ensures var s := if padded then PaddedEncode(bytes, url) else RawEncode(bytes, url);
      IsByteString(s) && MaybeBase64Decode(s) == bytes
  {
    BodyIsDecoded(bytes, url);
    var raw := RawEncode(bytes, url);
    if padded {
      PaddingIsStripped(raw, true);
      PaddingIsStripped(raw, false);
      assert IsByteString(raw + Padding(raw));
      DecodedInTurn(raw + Padding(raw), bytes, url);
    } else {
      UnpaddedIsRefusedOrRead(raw, true);
      UnpaddedIsRefusedOrRead(raw, false);
      DecodedInTurn(raw, bytes, url);
    }
  }

  /** And what no decoder takes is used as it is. */
  lemma UndecodableIsItself(s: string)
    requires IsByteString(s) && !Decodable(s)
    ensures |MaybeBase64Decode(s)| == |s| && forall i :: 0 <= i < |s| ==> MaybeBase64Decode(s)[i] == s[i] as int
  {
  }

  /** A canonical unpadded URL encoding decodes to what was encoded, and none of the other decoders is reached. */
  lemma CanonicalDecodes(bytes: seq<Byte>)
    ensures IsByteString(RawURLEncode(bytes))
    ensures MaybeBase64Decode(RawURLEncode(bytes)) == bytes
  {
    CanonicalIsAccepted(bytes);
  }

  /** Two names are equal exactly when the resources and the decoded signatures are. */
  lemma NamesAgreeExactlyWhenDecodedAgree(r1: string, s1: string, r2: string, s2: string)
    requires IsByteString(s1) && IsByteString(s2)
    ensures GetName(r1, s1) == GetName(r2, s2) <==> r1 == r2 && MaybeBase64Decode(s1) == MaybeBase64Decode(s2)
  {
    var b1, b2 := MaybeBase64Decode(s1), MaybeBase64Decode(s2);
    if GetName(r1, s1) == GetName(r2, s2) {
      SplitsAtLastDash(NAME_PREFIX + r1, Lower32(b1), NAME_PREFIX + r2, Lower32(b2)) by {
        Lower32Chars(b1);
        Lower32Chars(b2);
      }
      assert r1 == (NAME_PREFIX + r1)[|NAME_PREFIX|..];
      Lower32Injective(b1, b2);
    }
  }

  lemma SplitsAtLastDash(p: string, e: string, q: string, f: string)
    requires p + "-" + e == q + "-" + f
    requires '-' !in e && '-' !in f
    ensures p == q && e == f
  {
    var name := p + "-" + e;
    assert name[|p|] == '-' && name[|q|] == '-';
    NoLaterDash(p, e, |q|);
    NoLaterDash(q, f, |p|);
    assert p == name[..|p|] && e == name[|p| + 1..];
    assert q == name[..|q|] && f == name[|q| + 1..];
  }

  lemma NoLaterDash(p: string, e: string, i: nat)
    requires '-' !in e && i <= |p + e| && (p + "-" + e)[i] == '-'
    ensures i <= |p|
  {
    var name := p + "-" + e;
    assert forall j :: |p| < j < |name| ==> name[j] == e[j - |p| - 1] && name[j] in e;
  }

  /** So canonical signatures, and with them OIDCClient UIDs, have names of their own. */
  lemma CanonicalNamesAreDistinct(r1: string, b1: seq<Byte>, r2: string, b2: seq<Byte>)
    ensures IsByteString(RawURLEncode(b1)) && IsByteString(RawURLEncode(b2))
    ensures GetName(r1, RawURLEncode(b1)) == GetName(r2, RawURLEncode(b2)) <==> r1 == r2 && b1 == b2
  {
    CanonicalDecodes(b1);
    CanonicalDecodes(b2);
    NamesAgreeExactlyWhenDecodedAgree(r1, RawURLEncode(b1), r2, RawURLEncode(b2));
  }

  lemma DistinctClientsGetDistinctSecrets(resource: string, uid1: seq<Byte>, uid2: seq<Byte>)
    requires uid1 != uid2
    ensures IsByteString(UidToSignature(uid1)) && IsByteString(UidToSignature(uid2))
    ensures GetName(resource, UidToSignature(uid1)) != GetName(resource, UidToSignature(uid2))
  {
    CanonicalNamesAreDistinct(resource, uid1, resource, uid2);
  }

  lemma {:induction false} NewlineIsSkipped(s: string)
    ensures SkipNewlines(s + "\n") == SkipNewlines(s)
  {
    if s == [] {
      assert SkipNewlines("\n") == [] by { assert "\n"[1..] == []; }
    } else {
      assert (s + "\n")[1..] == s[1..] + "\n";
      NewlineIsSkipped(s[1..]);
    }
  }

  /** Some decoder takes the signature. */
  predicate Decodable(s: string) {
    RawDecode(s, true).Some? || PaddedDecode(s, true).Some? || RawDecode(s, false).Some? || PaddedDecode(s, false).Some?
  }

  lemma NewlineIsNotDecoded(s: string)
    requires IsByteString(s)
    ensures IsByteString(s + "\n")
    ensures MaybeBase64Decode(s) == MaybeBase64Decode(s + "\n") <==> Decodable(s)
  {
    DecodersSkipNewline(s, true);
    DecodersSkipNewline(s, false);
    if !Decodable(s) {
      assert |MaybeBase64Decode(s)| == |s|;
    }
  }

  lemma DecodersSkipNewline(s: string, url: bool)
    ensures RawDecode(s + "\n", url) == RawDecode(s, url) && PaddedDecode(s + "\n", url) == PaddedDecode(s, url)
  {
    NewlineIsSkipped(s);
  }

  /**
   Signatures that are not canonical may share a name: a newline at the end makes no difference
   exactly if some decoder takes the signature, and otherwise it does.
   */
  lemma NonCanonicalSignaturesCollide(resource: string, s: string)
    requires IsByteString(s)
    ensures IsByteString(s + "\n") && s != s + "\n"
    ensures GetName(resource, s) == GetName(resource, s + "\n") <==> Decodable(s)
  {
    NewlineIsNotDecoded(s);
    NamesAgreeExactlyWhenDecodedAgree(resource, s, resource, s + "\n");
  }

  // Which text the bytes get: the same number, written with other digits.

  /** The number that digits of `width` bits each stand for, most significant first. */
  function NumberOf(digits: seq<nat>, width: nat): nat {
    if digits == [] then 0 else digits[0] * Pow2(Times(width, |digits| - 1)) + NumberOf(digits[1..], width)
  }

  lemma {:induction false} ValueConcat(a: seq<bool>, b: seq<bool>)
    ensures Value(a + b) == Value(a) * Pow2(|b|) + Value(b)
  {
    if b == [] {
      assert a + b == a;
    } else {
      var init, last := b[..|b| - 1], if b[|b| - 1] then 1 else 0;
      assert (a + b)[..|a + b| - 1] == a + init;
      ValueConcat(a, init);
      Doubled(Value(a), Pow2(|init|), Value(init), last);
    }
  }

  lemma Doubled(v: nat, p: nat, w: nat, last: nat)
    ensures 2 * (v * p + w) + last == v * (2 * p) + (2 * w + last)
  {
  }

  lemma {:induction false} ValueOfUngroup(groups: seq<nat>, n: nat)
    requires forall i :: 0 <= i < |groups| ==> groups[i] < Pow2(n)
    ensures Value(Ungroup(groups, n)) == NumberOf(groups, n)
  {
    if groups != [] {
      ValueOfUngroup(groups[1..], n);
      ValueConcat(Bits(groups[0], n), Ungroup(groups[1..], n));
      ValueOfBits(groups[0], n);
    }
  }

  lemma {:induction false} BytesAreGroups(bytes: seq<Byte>)
    ensures BytesToBits(bytes) == Ungroup(bytes, 8)
  {
    if bytes != [] {
      BytesAreGroups(bytes[1..]);
    }
  }

  lemma {:induction false} ZerosWeighNothing(n: nat)
    ensures Value(Zeros(n)) == 0
  {
    if n > 0 {
      ZerosWeighNothing(n - 1);
      assert Zeros(n)[..n - 1] == Zeros(n - 1);
    }
  }

  lemma ShortIsFilled(bits: seq<bool>, n: nat)
    requires 0 < |bits| < n
    ensures Ungroup(Groups(bits, n), n) == bits + Zeros(n - |bits|)
  {
    var filled := bits + Zeros(n - |bits|);
    BitsOfValue(filled);
    assert Groups(bits, n) == [Value(filled)] + [];
    UngroupCons(Value(filled), [], n);
    assert Bits(Value(filled), n) + Ungroup([], n) == filled;
  }

  lemma FirstGroup(bits: seq<bool>, n: nat)
    requires 0 < n <= |bits|
    ensures Ungroup(Groups(bits, n), n) == bits[..n] + Ungroup(Groups(bits[n..], n), n)
  {
    BitsOfValue(bits[..n]);
    UngroupCons(Value(bits[..n]), Groups(bits[n..], n), n);
  }

  /** What is filled up are zeros. */
  lemma {:induction false} GroupsFillWithZeros(bits: seq<bool>, n: nat)
    requires n > 0
    ensures var back := Ungroup(Groups(bits, n), n); back == bits + Zeros(|back| - |bits|)
  {
    if bits == [] {
    } else if |bits| < n {
      assert Ungroup(Groups(bits, n), n) == bits + Zeros(n - |bits|) by { ShortIsFilled(bits, n); }
    } else {
      var back := Ungroup(Groups(bits[n..], n), n);
      var zeros := Zeros(|back| - |bits[n..]|);
      assert back == bits[n..] + zeros by { GroupsFillWithZeros(bits[n..], n); }
      assert Ungroup(Groups(bits, n), n) == bits[..n] + back by { FirstGroup(bits, n); }
      assert bits[..n] + (bits[n..] + zeros) == bits + zeros;
    }
  }

  /** Grouping keeps the number, but for the zeros at the end. */
  lemma GroupsKeepTheNumber(bytes: seq<Byte>, n: nat)
    requires n > 0
    ensures var groups := Groups(BytesToBits(bytes), n);
      NumberOf(groups, n) == NumberOf(bytes, 8) * Pow2(Times(n, |groups|) - 8 * |bytes|)
  {
    var bits := BytesToBits(bytes);
    var groups := Groups(bits, n);
    var back := Ungroup(groups, n);
    var fill := |back| - |bits|;
    assert Value(back) == Value(bits) * Pow2(fill) by {
      GroupsFillWithZeros(bits, n);
      var zeros := Zeros(fill);
      ValueConcat(bits, zeros);
      ZerosWeighNothing(fill);
    }
    ValueOfUngroup(groups, n);
    assert Value(bits) == NumberOf(bytes, 8) by {
      BytesAreGroups(bytes);
      assert Pow2(8) == 256;
      ValueOfUngroup(bytes, 8);
    }
  }

  lemma NumberIsKept(bytes: seq<Byte>, n: nat, digits: seq<nat>, fill: nat)
    requires n > 0 && digits == Groups(BytesToBits(bytes), n) && fill == Times(n, |digits|) - 8 * |bytes|
    ensures NumberOf(digits, n) == NumberOf(bytes, 8) * Pow2(fill)
  {
    assert NumberOf(digits, n) == NumberOf(bytes, 8) * Pow2(fill) by { GroupsKeepTheNumber(bytes, n); }
  }

  /** A lower-case letter of table 3 in section 6 of RFC 4648: a to z are 0 to 25, 2 to 7 are 26 to 31. */
  function Digit32(c: char): nat {
    if 'a' <= c <= 'z' then c as int - 'a' as int
    else if '2' <= c <= '7' then c as int - '2' as int + 26
    else 32
  }

  function Digits32(s: string): seq<nat> {
    seq(|s|, i requires 0 <= i < |s| => Digit32(s[i]))
  }

  lemma {:induction false} TimesFive(k: nat)
    ensures Times(5, k) == 5 * k
  {
    if k > 0 {
      TimesFive(k - 1);
    }
  }

  /**
   The text is the number that the bytes are, in base 32, with as few zero bits at its end as make
   full digits. Nothing else has this number and this length.
   */
  lemma Lower32Means(bytes: seq<Byte>)
    ensures var text := Lower32(bytes);
      && 8 * |bytes| <= 5 * |text| < 8 * |bytes| + 5
      && (forall i :: 0 <= i < |text| ==> Digits32(text)[i] < 32)
      && NumberOf(Digits32(text), 5) == NumberOf(bytes, 8) * Pow2(5 * |text| - 8 * |bytes|)
  {
    Lower32Digits(bytes);
    GroupsKeepTheNumber(bytes, 5);
  }

  lemma Lower32Digits(bytes: seq<Byte>)
    ensures var text, groups := Lower32(bytes), Groups(BytesToBits(bytes), 5);
      && |text| == |groups| && Times(5, |groups|) == 5 * |text| && 8 * |bytes| <= 5 * |text| < 8 * |bytes| + 5
      && Digits32(text) == groups && forall i :: 0 <= i < |text| ==> Digits32(text)[i] < 32
  {
    var text, groups := Lower32(bytes), Groups(BytesToBits(bytes), 5);
    assert Pow2(5) == 32;
    TimesFive(|groups|);
    assert forall i :: 0 <= i < |groups| ==> Digit32(text[i]) == groups[i];
  }

  /** A letter of tables 1 and 2 in sections 4 and 5 of RFC 4648. */
  function Digit64(c: char, url: bool): nat {
    if 'A' <= c <= 'Z' then c as int - 'A' as int
    else if 'a' <= c <= 'z' then c as int - 'a' as int + 26
    else if '0' <= c <= '9' then c as int - '0' as int + 52
    else if (url && c == '-') || (!url && c == '+') then 62
    else if (url && c == '_') || (!url && c == '/') then 63
    else 64
  }

  function Digits64(s: string, url: bool): seq<nat> {
    seq(|s|, i requires 0 <= i < |s| => Digit64(s[i], url))
  }

  lemma RawEncodeDigits(bytes: seq<Byte>, url: bool)
    ensures var text, groups := RawEncode(bytes, url), Groups(BytesToBits(bytes), 6);
      && |text| == |groups| && Times(6, |groups|) == 6 * |text| && 8 * |bytes| <= 6 * |text| < 8 * |bytes| + 6
      && Digits64(text, url) == groups && forall i :: 0 <= i < |text| ==> Digits64(text, url)[i] < 64
  {
    var text, groups := RawEncode(bytes, url), Groups(BytesToBits(bytes), 6);
    assert Pow2(6) == 64;
    TimesSix(|groups|);
    forall i | 0 <= i < |groups| ensures Digits64(text, url)[i] == groups[i] {
      Digit64OfChar(groups[i], url);
    }
  }

  lemma Digit64OfChar(v: nat, url: bool)
    requires v < 64
    ensures Digit64(Char64(v, url), url) == v
  {
  }

  /** The same in base 64. */
  lemma RawEncodeMeans(bytes: seq<Byte>, url: bool)
    ensures var text := RawEncode(bytes, url);
      && 8 * |bytes| <= 6 * |text| < 8 * |bytes| + 6
      && (forall i :: 0 <= i < |text| ==> Digits64(text, url)[i] < 64)
      && NumberOf(Digits64(text, url), 6) == NumberOf(bytes, 8) * Pow2(6 * |text| - 8 * |bytes|)
  {
    var text := RawEncode(bytes, url);
    RawEncodeDigits(bytes, url);
    NumberIsKept(bytes, 6, Digits64(text, url), 6 * |text| - 8 * |bytes|);
  }

  /** The name that a session gets whose signature is any base64 encoding of some bytes. */
  lemma NameOfEncodedSignature(resource: string, bytes: seq<Byte>, url: bool, padded: bool)
    ensures var s := if padded then PaddedEncode(bytes, url) else RawEncode(bytes, url);
      IsByteString(s) && GetName(resource, s) == "pinniped-storage-" + resource + "-" + Lower32(bytes)
  {
    EveryEncodingDecodes(bytes, url, padded);
  }
}
