/** Reading a server address and writing it back: which addresses there are, which of them their text gives back, and
    that no text of a pinned address cut short is an address. */
module AddressRoundTrip {
  import opened Wrappers
  import opened Decimals
  import opened Hex
  import opened CanonicalProofs
  import opened ServerAddress

  // ---- what reading gives ----

  predicate PlainText(s: string) {
    '/' !in s && '?' !in s && '@' !in s && '#' !in s
  }

  predicate HostOk(host: string, isIp: IpReader) {
    host != "" && PlainText(host) && host[0] != '[' && (':' in host ==> isIp(host))
  }

  predicate PortOk(port: Option<nat>) {
    port.Some? ==> 0 < port.value < 0x10000
  }

  predicate WellFormed(a: Address, isIp: IpReader) {
    && HostOk(a.host, isIp) && 0 < a.port < 0x10000
    && match a.mode
       case Pinned(fingerprint) => |fingerprint| == FINGERPRINT_LENGTH
       case WebPki => !isIp(a.host)
  }

  lemma SplitHostGives(authority: string, isIp: IpReader)
    requires authority != "" && PlainText(authority) && SplitHost(authority, isIp).Ok?
    requires SplitHost(authority, isIp).value.0 != ""
    ensures HostOk(SplitHost(authority, isIp).value.0, isIp)
    ensures |SplitHost(authority, isIp).value.0| <= |authority|
  {
    if authority[0] == '[' {
      var rest := authority[1..];
      var host := rest[..Find(rest, ']')];
      assert isIp(host);
      assert IpCharacter(host[0]);
    }
  }

  lemma SplitAuthorityGives(authority: string, isIp: IpReader)
    requires '#' !in authority && SplitAuthority(authority, isIp).Ok?
    ensures var split := SplitAuthority(authority, isIp).value;
            HostOk(split.host, isIp) && PortOk(split.port) && |split.host| <= |authority|
  {
    SplitHostGives(authority, isIp);
  }

  /** Every address that is read is well formed. */
  lemma ParsedWellFormed(input: string, isIp: IpReader)
    requires Parse(input, isIp).Ok?
    ensures WellFormed(Parse(input, isIp).value, isIp)
  {
    var s := Trim(input);
    if HasScheme(s, WEBPKI_SCHEME) {
      SplitAuthorityGives(s[|WEBPKI_SCHEME|..], isIp);
    } else {
      var rest := s[|PINNED_SCHEME|..];
      SplitAuthorityGives(rest[..Find(rest, '#')], isIp);
    }
  }

  // ---- reading what is written ----

  lemma {:induction false} FindAt(a: string, c: char, b: string)
    requires c !in a
    ensures Find(a + ([c] + b), c) == |a|
  {
    if a != "" {
      assert (a + ([c] + b))[1..] == a[1..] + ([c] + b);
      FindAt(a[1..], c, b);
    }
  }

  lemma FindNone(a: string, c: char)
    requires c !in a
    ensures Find(a, c) == |a|
  {
  }

  lemma Halves(high: nat, low: nat, b: nat)
    requires high < 16 && low < 16 && b == 16 * high + low
    ensures b < 256 && b / 16 == high && b % 16 == low
  {
  }

  lemma {:induction false} ReadHexDigits(s: string, i: nat)
    requires |s| % 2 == 0 && ReadHex(s).Some? && 2 * i < |s|
    ensures var b := ReadHex(s).value[i]; s[2 * i] == HexDigit(b / 16) && s[2 * i + 1] == HexDigit(b % 16)
  {
    var n := |s| - 2;
    if 2 * i < n {
      ReadHexDigits(s[..n], i);
    } else {
      Halves(HexValue(s[n]).value, HexValue(s[n + 1]).value, ReadHex(s).value[i]);
    }
  }

  lemma SamePairs(s: string, t: string)
    requires |s| == |t| && |s| % 2 == 0
    requires forall i :: 0 <= i < |s| / 2 ==> s[2 * i] == t[2 * i] && s[2 * i + 1] == t[2 * i + 1]
    ensures s == t
  {
    forall k | 0 <= k < |s|
      ensures s[k] == t[k]
    {
      var i := k / 2;
      assert s[2 * i] == t[2 * i] && s[2 * i + 1] == t[2 * i + 1];
    }
  }

  lemma ReadHexIsText(s: string)
    requires |s| % 2 == 0 && ReadHex(s).Some?
    ensures s == HexText(ReadHex(s).value)
  {
    var t := HexText(ReadHex(s).value);
    forall i | 0 <= i < |s| / 2
      ensures s[2 * i] == t[2 * i] && s[2 * i + 1] == t[2 * i + 1]
    {
      ReadHexDigits(s, i);
      HexTextAt(ReadHex(s).value, i);
    }
    SamePairs(s, t);
  }

  lemma {:induction false} ReadHexOfDigits(s: string)
    requires |s| % 2 == 0 && forall i :: 0 <= i < |s| ==> HexValue(s[i]).Some?
    ensures ReadHex(s).Some?
  {
    if s != "" {
      ReadHexOfDigits(s[..|s| - 2]);
    }
  }

  lemma {:induction false} HexTextIsDigits(bytes: seq<Byte>)
    ensures forall i :: 0 <= i < |HexText(bytes)| ==> HexValue(HexText(bytes)[i]).Some?
  {
    if bytes != [] {
      HexTextIsDigits(bytes[..|bytes| - 1]);
    }
  }

  lemma ReadHexOfText(bytes: seq<Byte>)
    ensures ReadHex(HexText(bytes)) == Some(bytes)
  {
    HexTextIsDigits(bytes);
    ReadHexOfDigits(HexText(bytes));
    ReadHexIsText(HexText(bytes));
    HexTextInjective(ReadHex(HexText(bytes)).value, bytes);
  }

  /** A fingerprint is read exactly from its own text: one spelling, in small letters. */
  lemma FingerprintExactlyWhen(fragment: string, fingerprint: seq<Byte>)
    ensures ReadFingerprint(fragment) == Some(fingerprint)
       <==> |fingerprint| == FINGERPRINT_LENGTH && fragment == HexText(fingerprint)
  {
    ReadHexOfText(fingerprint);
    if ReadFingerprint(fragment).Some? {
      ReadHexIsText(fragment);
    }
  }

  lemma ReadPortOfDecimal(port: nat)
    requires port < 0x10000
    ensures ReadPort(Decimal(port)) == Some(port)
  {
    NumberOfDecimal(port);
    assert IsDigit(Decimal(port)[0]);
  }

  lemma IpHasNoBracket(host: string, isIp: IpReader)
    requires isIp(host)
    ensures ']' !in host
  {
    assert forall i :: 0 <= i < |host| ==> IpCharacter(host[i]);
  }

  lemma CutApart(a: string, c: char, b: string)
    ensures (a + ([c] + b))[..|a|] == a && (a + ([c] + b))[|a| + 1..] == b
  {
  }

  lemma BracketedHost(host: string, tail: string, isIp: IpReader)
    requires isIp(host) && (tail == "" || tail[0] == ':')
    ensures SplitHost("[" + (host + ([']'] + tail)), isIp) == Ok((host, if tail == "" then None else Some(tail[1..])))
  {
    var rest := host + ([']'] + tail);
    assert ("[" + rest)[1..] == rest;
    IpHasNoBracket(host, isIp);
    FindAt(host, ']', tail);
    CutApart(host, ']', tail);
  }

  lemma PlainHost(host: string, port: string, isIp: IpReader)
    requires host != "" && host[0] != '[' && ':' !in host
    ensures SplitHost(host, isIp) == Ok((host, None))
    ensures SplitHost(host + ([':'] + port), isIp) == Ok((host, Some(port)))
  {
    FindNone(host, ':');
    FindAt(host, ':', port);
    CutApart(host, ':', port);
  }

  lemma SplitHostOfText(host: string, port: string, isIp: IpReader)
    requires HostOk(host, isIp)
    ensures SplitHost(HostText(host), isIp) == Ok((host, None))
    ensures SplitHost(HostText(host) + (":" + port), isIp) == Ok((host, Some(port)))
  {
    if ':' in host {
      var tail := ":" + port;
      BracketedHost(host, "", isIp);
      assert host + "]" == host + ([']'] + "");
      BracketedHost(host, tail, isIp);
      BracketSplit("[", host, "]", tail);
      assert tail[1..] == port;
    } else {
      PlainHost(host, port, isIp);
    }
  }

  lemma AuthorityPlain(host: string, port: Option<nat>, isIp: IpReader)
    requires HostOk(host, isIp)
    ensures PlainText(AuthorityText(host, port))
  {
    assert PlainText(HostText(host));
    if port.Some? {
      DecimalPlain(port.value);
    }
  }

  lemma DecimalPlain(n: nat)
    ensures PlainText(":" + Decimal(n))
  {
    assert forall i :: 0 <= i < |Decimal(n)| ==> IsDigit(Decimal(n)[i]);
  }

  /** A host and port are read back from their text, whether or not the port is written. */
  lemma SplitAuthorityOfText(host: string, port: Option<nat>, isIp: IpReader)
    requires HostOk(host, isIp) && PortOk(port)
    ensures SplitAuthority(AuthorityText(host, port), isIp) == Ok(Authority(host, port))
  {
    AuthorityPlain(host, port, isIp);
    if port.Some? {
      SplitHostOfText(host, Decimal(port.value), isIp);
      ReadPortOfDecimal(port.value);
    } else {
      SplitHostOfText(host, "", isIp);
    }
  }

  // ---- surrounding space ----

  predicate Tight(s: string) {
    s != "" && !IsSpace(s[0]) && !IsSpace(s[|s| - 1])
  }

  lemma TightKept(s: string)
    requires Tight(s)
    ensures Trim(s) == s
  {
  }

  lemma {:induction false} TrimEndShorter(s: string)
    ensures TrimEnd(s) <= s
    ensures s != "" && IsSpace(s[|s| - 1]) ==> |TrimEnd(s)| < |s|
  {
    if s != "" && IsSpace(s[|s| - 1]) {
      TrimEndShorter(s[..|s| - 1]);
    }
  }

  lemma {:induction false} TrimEndAfter(p: string, s: string)
    requires p != "" && !IsSpace(p[|p| - 1])
    ensures TrimEnd(p + s) == p + TrimEnd(s)
  {
    if s == "" {
      assert p + s == p;
    } else if IsSpace(s[|s| - 1]) {
      TrimEndAfter(p, s[..|s| - 1]);
      assert (p + s)[..|p + s| - 1] == p + s[..|s| - 1];
    }
  }

  // ---- the round trip ----

  function WrittenPort(a: Address): Option<nat> {
    if a.mode.WebPki? && a.port == WEBPKI_DEFAULT_PORT then None else Some(a.port)
  }

  lemma SchemeRead(scheme: string, rest: string)
    requires scheme in {PINNED_SCHEME, WEBPKI_SCHEME}
    ensures HasScheme(scheme + rest, scheme) && (scheme + rest)[|scheme|..] == rest
    ensures HasScheme(scheme + rest, WEBPKI_SCHEME) <==> scheme == WEBPKI_SCHEME
  {
    var s := scheme + rest;
    assert scheme == PINNED_SCHEME ==> s[4] == ':';
    assert forall i :: 0 <= i < |scheme| ==> s[i] == scheme[i];
  }

  lemma PinnedRest(a: Address, authority: string, hex: string, isIp: IpReader)
    requires WellFormed(a, isIp) && a.mode.Pinned?
    requires '#' !in authority && ReadFingerprint(hex) == Some(a.mode.fingerprint)
    requires SplitAuthority(authority, isIp) == Ok(Authority(a.host, Some(a.port)))
    ensures ParsePinned(authority + (['#'] + hex), isIp) == Ok(a)
  {
    FindAt(authority, '#', hex);
    CutApart(authority, '#', hex);
  }

  /** A printed pinned address, without the space around it, is read back. */
  lemma PinnedReadBack(a: Address, isIp: IpReader)
    requires WellFormed(a, isIp) && a.mode.Pinned?
    ensures ParseTrimmed(Display(a), isIp) == Ok(a)
  {
    var authority, hex := AuthorityText(a.host, Some(a.port)), HexText(a.mode.fingerprint);
    AuthorityPlain(a.host, Some(a.port), isIp);
    ReadHexOfText(a.mode.fingerprint);
    SplitAuthorityOfText(a.host, Some(a.port), isIp);
    PinnedRest(a, authority, hex, isIp);
    SchemeRead(PINNED_SCHEME, authority + ("#" + hex));
  }

  /** So is a WebPKI one, with its port written or left out. */
  lemma WebPkiReadBack(a: Address, port: Option<nat>, isIp: IpReader)
    requires WellFormed(a, isIp) && a.mode.WebPki?
    requires a.port == if port.Some? then port.value else WEBPKI_DEFAULT_PORT
    ensures ParseTrimmed(WEBPKI_SCHEME + AuthorityText(a.host, port), isIp) == Ok(a)
  {
    SchemeRead(WEBPKI_SCHEME, AuthorityText(a.host, port));
    AuthorityPlain(a.host, port, isIp);
    SplitAuthorityOfText(a.host, port, isIp);
  }

  /** The one family of addresses whose text is another address's, or none's: the port is left out, so that space at the
      end of the host ends the text and is trimmed off. */
  predicate LosesSpace(a: Address)
    requires a.host != ""
  {
    a.mode.WebPki? && a.port == WEBPKI_DEFAULT_PORT && IsSpace(a.host[|a.host| - 1])
  }

  lemma LastOf(a: string, b: string)
    requires b != ""
    ensures (a + b)[|a + b| - 1] == b[|b| - 1]
  {
  }

  lemma DisplayEnds(a: Address, isIp: IpReader)
    requires WellFormed(a, isIp)
    ensures Tight(Display(a)) <==> !LosesSpace(a)
  {
    assert Display(a)[0] == 's';
    match a.mode
    case Pinned(fingerprint) =>
      HexEnds(fingerprint);
      var hex, authority := HexText(fingerprint), AuthorityText(a.host, Some(a.port));
      LastOf("#", hex);
      LastOf(authority, "#" + hex);
      LastOf(PINNED_SCHEME, authority + ("#" + hex));
    case WebPki =>
      var port := WrittenPort(a);
      AuthorityEnds(a.host, port);
      LastOf(WEBPKI_SCHEME, AuthorityText(a.host, port));
  }

  lemma HexEnds(bytes: seq<Byte>)
    requires bytes != []
    ensures HexText(bytes) != "" && !IsSpace(HexText(bytes)[|HexText(bytes)| - 1])
  {
    var n := |bytes| - 1;
    assert HexText(bytes)[|HexText(bytes)| - 1] == HexDigit(bytes[n] % 16);
  }

  lemma AuthorityEnds(host: string, port: Option<nat>)
    requires host != "" && (port.None? ==> ':' !in host)
    ensures var s := AuthorityText(host, port);
            s != "" && (IsSpace(s[|s| - 1]) <==> port.None? && IsSpace(host[|host| - 1]))
  {
    if port.Some? {
      var digits := Decimal(port.value);
      assert IsDigit(digits[|digits| - 1]);
      LastOf(":", digits);
      LastOf(HostText(host), ":" + digits);
    }
  }

  /** What is read from trimmed text has a host no longer than the text. */
  lemma ShorterHost(host: string, isIp: IpReader)
    requires '#' !in host && ParseTrimmed(WEBPKI_SCHEME + host, isIp).Ok?
    ensures |ParseTrimmed(WEBPKI_SCHEME + host, isIp).value.host| <= |host|
  {
    SchemeRead(WEBPKI_SCHEME, host);
    SplitAuthorityGives(host, isIp);
  }

  lemma SpaceTrimmed(host: string)
    requires host != "" && IsSpace(host[|host| - 1])
    ensures Trim(WEBPKI_SCHEME + host) == WEBPKI_SCHEME + TrimEnd(host)
    ensures TrimEnd(host) < host
  {
    assert (WEBPKI_SCHEME + host)[0] == 's';
    TrimEndAfter(WEBPKI_SCHEME, host);
    TrimEndShorter(host);
  }

  lemma SpaceLost(a: Address, isIp: IpReader)
    requires WellFormed(a, isIp) && LosesSpace(a)
    ensures Parse(Display(a), isIp) != Ok(a)
  {
    SpaceTrimmed(a.host);
    assert Display(a) == WEBPKI_SCHEME + a.host;
    assert '#' !in TrimEnd(a.host);
    if Parse(Display(a), isIp).Ok? {
      ShorterHost(TrimEnd(a.host), isIp);
    }
  }

  /** Writing an address and reading it back gives the address, exactly outside that family. */
  lemma AddressRoundTrip(a: Address, isIp: IpReader)
    requires WellFormed(a, isIp)
    ensures Parse(Display(a), isIp) == Ok(a) <==> !LosesSpace(a)
  {
    if LosesSpace(a) {
      SpaceLost(a, isIp);
    } else {
      DisplayEnds(a, isIp);
      TightKept(Display(a));
      if a.mode.Pinned? {
        PinnedReadBack(a, isIp);
      } else {
        WebPkiReadBack(a, WrittenPort(a), isIp);
      }
    }
  }

  /** The text that always gives an address back: its port is written even where it need not be. */
  function Explicit(a: Address): string {
    if a.mode.Pinned? then Display(a) else WEBPKI_SCHEME + AuthorityText(a.host, Some(a.port))
  }

  /** An address can be read from some text exactly when it is well formed. */
  lemma ReadableExactlyWhen(a: Address, isIp: IpReader)
    ensures (exists input :: Parse(input, isIp) == Ok(a)) <==> WellFormed(a, isIp)
  {
    if input :| Parse(input, isIp) == Ok(a) {
      ParsedWellFormed(input, isIp);
    }
    if WellFormed(a, isIp) {
      ExplicitReadBack(a, isIp);
    }
  }

  lemma ExplicitReadBack(a: Address, isIp: IpReader)
    requires WellFormed(a, isIp)
    ensures Parse(Explicit(a), isIp) == Ok(a)
  {
    if a.mode.Pinned? {
      AddressRoundTrip(a, isIp);
    } else {
      var s := Explicit(a);
      AuthorityEnds(a.host, Some(a.port));
      LastOf(WEBPKI_SCHEME, AuthorityText(a.host, Some(a.port)));
      assert s[0] == 's';
      TightKept(s);
      WebPkiReadBack(a, Some(a.port), isIp);
    }
  }

  // ---- what is ignored, and what never is ----

  predicate AllSpace(s: string) {
    forall i :: 0 <= i < |s| ==> IsSpace(s[i])
  }

  lemma {:induction false} TrimStartAfter(a: string, s: string)
    requires AllSpace(a)
    ensures TrimStart(a + s) == TrimStart(s)
  {
    if a == "" {
      assert a + s == s;
    } else {
      assert (a + s)[1..] == a[1..] + s;
      TrimStartAfter(a[1..], s);
    }
  }

  lemma {:induction false} TrimStartBefore(s: string, b: string)
    ensures TrimStart(s + b) == if TrimStart(s) == "" then TrimStart(b) else TrimStart(s) + b
  {
    if s == "" {
      assert s + b == b;
    } else if IsSpace(s[0]) {
      assert (s + b)[1..] == s[1..] + b;
      TrimStartBefore(s[1..], b);
    }
  }

  lemma {:induction false} TrimEndBefore(s: string, b: string)
    requires AllSpace(b)
    ensures TrimEnd(s + b) == TrimEnd(s)
  {
    if b == "" {
      assert s + b == s;
    } else {
      assert (s + b)[..|s + b| - 1] == s + b[..|b| - 1];
      TrimEndBefore(s, b[..|b| - 1]);
    }
  }

  /** White space around an address makes no difference. */
  lemma SpaceIgnored(a: string, s: string, b: string, isIp: IpReader)
    requires AllSpace(a) && AllSpace(b)
    ensures Parse(a + (s + b), isIp) == Parse(s, isIp)
  {
    TrimStartAfter(a, s + b);
    TrimStartBefore(s, b);
    TrimStartAfter(b, "");
    assert b + "" == b;
    TrimEndBefore(TrimStart(s), b);
  }

  /** Nor does the case in which the scheme is written. */
  lemma SchemeCaseIgnored(written: string, scheme: string, rest: string, isIp: IpReader)
    requires scheme in {PINNED_SCHEME, WEBPKI_SCHEME} && |written| == |scheme| && HasScheme(written, scheme)
    ensures ParseTrimmed(written + rest, isIp) == ParseTrimmed(scheme + rest, isIp)
  {
    SchemeRead(scheme, rest);
    var s := written + rest;
    assert s[|scheme|..] == rest;
    assert forall i :: 0 <= i < |scheme| ==> s[i] == written[i];
    assert scheme == PINNED_SCHEME ==> LowerCharacter(s[4]) == ':';
  }

  lemma SchemesApart(s: string)
    requires HasScheme(s, WEBPKI_SCHEME)
    ensures !HasScheme(s, PINNED_SCHEME) && '#' !in s[..|WEBPKI_SCHEME|]
  {
    assert LowerCharacter(s[4]) == '+';
    assert forall i :: 0 <= i < |WEBPKI_SCHEME| ==> WEBPKI_SCHEME[i] != '#';
    assert forall i :: 0 <= i < |WEBPKI_SCHEME| ==> LowerCharacter(s[i]) != '#';
  }

  lemma InHalves(c: char, s: string, at: nat)
    requires at <= |s|
    ensures c in s <==> c in s[..at] || c in s[at..]
  {
    assert s == s[..at] + s[at..];
  }

  lemma WebPkiStated(s: string, isIp: IpReader)
    requires HasScheme(s, WEBPKI_SCHEME) && ParseTrimmed(s, isIp).Ok?
    ensures ParseTrimmed(s, isIp).value.mode.WebPki? && '#' !in s
  {
    SchemesApart(s);
    InHalves('#', s, |WEBPKI_SCHEME|);
  }

  lemma PinnedStated(s: string, isIp: IpReader)
    requires !HasScheme(s, WEBPKI_SCHEME) && ParseTrimmed(s, isIp).Ok?
    ensures HasScheme(s, PINNED_SCHEME) && ParseTrimmed(s, isIp).value.mode.Pinned? && '#' in s
  {
    var rest := s[|PINNED_SCHEME|..];
    assert rest[Find(rest, '#')] == '#';
    InHalves('#', s, |PINNED_SCHEME|);
  }

  /** The mode is stated, never inferred: it is the scheme's, and a fingerprint is there exactly in pinned mode. */
  lemma ModeStated(s: string, isIp: IpReader)
    requires ParseTrimmed(s, isIp).Ok?
    ensures ParseTrimmed(s, isIp).value.mode.WebPki? <==> HasScheme(s, WEBPKI_SCHEME)
    ensures ParseTrimmed(s, isIp).value.mode.Pinned? <==> HasScheme(s, PINNED_SCHEME)
    ensures ParseTrimmed(s, isIp).value.mode.Pinned? <==> '#' in s
  {
    if HasScheme(s, WEBPKI_SCHEME) {
      WebPkiStated(s, isIp);
      SchemesApart(s);
    } else {
      PinnedStated(s, isIp);
    }
  }

  // ---- no two addresses print alike ----

  lemma ModesNeverAlike(a: Address, b: Address)
    requires a.mode.Pinned? && b.mode.WebPki?
    ensures Display(a) != Display(b)
  {
    assert Display(a)[4] == ':' && Display(b)[4] == '+';
  }

  lemma AuthorityInjective(h: string, p: Option<nat>, k: string, q: Option<nat>, isIp: IpReader)
    requires HostOk(h, isIp) && HostOk(k, isIp) && PortOk(p) && PortOk(q)
    requires AuthorityText(h, p) == AuthorityText(k, q)
    ensures h == k && p == q
  {
    SplitAuthorityOfText(h, p, isIp);
    SplitAuthorityOfText(k, q, isIp);
  }

  /** Different addresses print differently, even those whose text does not give them back. */
  lemma DisplayInjective(a: Address, b: Address, isIp: IpReader)
    requires WellFormed(a, isIp) && WellFormed(b, isIp) && Display(a) == Display(b)
    ensures a == b
  {
    if a.mode.Pinned? && b.mode.Pinned? {
      PinnedInjective(a, b, isIp);
    } else if a.mode.WebPki? && b.mode.WebPki? {
      SameLengthSplit(WEBPKI_SCHEME, WEBPKI_SCHEME,
                      AuthorityText(a.host, WrittenPort(a)), AuthorityText(b.host, WrittenPort(b)));
      AuthorityInjective(a.host, WrittenPort(a), b.host, WrittenPort(b), isIp);
    } else if a.mode.Pinned? {
      ModesNeverAlike(a, b);
    } else {
      ModesNeverAlike(b, a);
    }
  }

  lemma PinnedInjective(a: Address, b: Address, isIp: IpReader)
    requires WellFormed(a, isIp) && WellFormed(b, isIp) && a.mode.Pinned? && b.mode.Pinned?
    requires Display(a) == Display(b)
    ensures a == b
  {
    PinnedReadBack(a, isIp);
    PinnedReadBack(b, isIp);
  }

  // ---- deletion ----

  lemma PrefixTrimmed(p: string)
    requires p == "" || p[0] == 's'
    ensures Trim(p) <= p
  {
    TrimEndShorter(p);
  }

  lemma TruncatedRefused(t: string, a: Address, isIp: IpReader)
    requires WellFormed(a, isIp) && a.mode.Pinned? && t < Display(a)
    ensures ParseTrimmed(t, isIp) in {Err(UnknownScheme), Err(InvalidFingerprint)}
  {
    assert !HasScheme(t, WEBPKI_SCHEME) by {
      assert |t| > 4 ==> t[4] == Display(a)[4] == ':';
    }
    if HasScheme(t, PINNED_SCHEME) {
      var rest := t[|PINNED_SCHEME|..];
      var authority, hex := AuthorityText(a.host, Some(a.port)), HexText(a.mode.fingerprint);
      assert rest < authority + ("#" + hex) by {
        assert Display(a)[|PINNED_SCHEME|..] == authority + ("#" + hex);
      }
      AuthorityPlain(a.host, Some(a.port), isIp);
      TruncatedFragment(rest, authority, hex);
    }
  }

  lemma TruncatedFragment(rest: string, authority: string, hex: string)
    requires '#' !in authority && rest < authority + ("#" + hex)
    ensures var at := Find(rest, '#'); at == |rest| || |rest[at + 1..]| < |hex|
  {
    if |rest| <= |authority| {
      assert rest == authority[..|rest|];
    } else {
      var cut := rest[|authority| + 1..];
      assert rest == authority + (['#'] + cut);
      FindAt(authority, '#', cut);
    }
  }

  /** Cutting a printed pinned address short anywhere leaves no address at all: never one of the other mode. */
  lemma NoPrefixParses(a: Address, p: string, isIp: IpReader)
    requires WellFormed(a, isIp) && a.mode.Pinned? && p < Display(a)
    ensures Parse(p, isIp) in {Err(UnknownScheme), Err(InvalidFingerprint)}
  {
    assert p != "" ==> p[0] == Display(a)[0] == 's';
    PrefixTrimmed(p);
    TruncatedRefused(Trim(p), a, isIp);
  }
}
