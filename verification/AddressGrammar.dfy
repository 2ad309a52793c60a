/** Exactly which texts are server addresses, as which addresses, and what is said of the others. */
module AddressGrammar {
  import opened Wrappers
  import opened Decimals
  import opened Hex
  import opened CanonicalProofs
  import opened ServerAddress
  import opened AddressRoundTrip

  // ---- hosts and ports as they may be spelled ----

  /** A port: nothing, or a colon, a plus sign or none, and digits, leading zeros included. */
  datatype PortSpelling = NoPort | PortSpelling(plus: bool, digits: string)

  /** A host, in brackets or not, and its port. */
  datatype Spelling = Spelling(host: string, bracketed: bool, port: PortSpelling)

  function PortText(p: PortSpelling): string {
    if p.NoPort? then "" else ":" + (if p.plus then "+" + p.digits else p.digits)
  }

  function HostSpelled(s: Spelling): string {
    if s.bracketed then "[" + (s.host + "]") else s.host
  }

  function Spelled(s: Spelling): string {
    HostSpelled(s) + PortText(s.port)
  }

  predicate PortSpellingOk(p: PortSpelling) {
    p.PortSpelling? ==> p.digits != "" && AllDigits(p.digits) && 0 < Number(p.digits) < 65536
  }

  /** Brackets hold an IP address; without them there is no colon, and no opening bracket to begin with. */
  predicate SpellingOk(s: Spelling, isIp: IpReader) {
    && s.host != "" && '/' !in s.host && '?' !in s.host && '@' !in s.host && PortSpellingOk(s.port)
    && if s.bracketed then isIp(s.host) else ':' !in s.host && s.host[0] != '['
  }

  function PortNamed(p: PortSpelling): Option<nat>
    requires PortSpellingOk(p)
  {
    if p.NoPort? then None else Some(Number(p.digits))
  }

  // ---- the port ----

  lemma PortReads(p: PortSpelling)
    requires p.PortSpelling? && p.digits != "" && AllDigits(p.digits) && Number(p.digits) < 65536
    ensures ReadPort(PortText(p)[1..]) == Some(Number(p.digits))
  {
    var text := PortText(p)[1..];
    assert IsDigit(p.digits[0]);
    if p.plus {
      assert text == "+" + p.digits && text[1..] == p.digits;
    } else {
      assert text == p.digits;
    }
  }

  lemma ReadPortSpelled(text: string) returns (p: PortSpelling)
    requires ReadPort(text).Some?
    ensures p.PortSpelling? && p.digits != "" && AllDigits(p.digits) && Number(p.digits) == ReadPort(text).value
    ensures PortText(p) == ":" + text
  {
    if text[0] == '+' {
      p := PortSpelling(true, text[1..]);
      assert text == "+" + text[1..];
    } else {
      p := PortSpelling(false, text);
    }
  }

  lemma NoneOf(c: char, a: string, b: string)
    ensures c in a + b <==> c in a || c in b
  {
  }

  lemma PortPlain(p: PortSpelling, c: char)
    requires PortSpellingOk(p) && c in {'/', '?', '@', '#'}
    ensures c !in PortText(p)
  {
    if p.PortSpelling? {
      assert forall i :: 0 <= i < |p.digits| ==> IsDigit(p.digits[i]);
      NoneOf(c, "+", p.digits);
      NoneOf(c, ":", if p.plus then "+" + p.digits else p.digits);
    }
  }

  lemma SpelledPlain(s: Spelling, isIp: IpReader, c: char)
    requires SpellingOk(s, isIp) && c in {'/', '?', '@', '#'}
    ensures c in Spelled(s) <==> c in s.host
  {
    PortPlain(s.port, c);
    NoneOf(c, HostSpelled(s), PortText(s.port));
    NoneOf(c, s.host, "]");
    NoneOf(c, "[", s.host + "]");
  }

  // ---- the authority ----

  /** What is spelled so is read so. */
  lemma SpelledHost(s: Spelling, isIp: IpReader)
    requires SpellingOk(s, isIp)
    ensures Spelled(s) != ""
    ensures SplitHost(Spelled(s), isIp) == Ok((s.host, if s.port.NoPort? then None else Some(PortText(s.port)[1..])))
  {
    var tail := PortText(s.port);
    if s.bracketed {
      BracketedHost(s.host, tail, isIp);
      BracketSplit("[", s.host, "]", tail);
      assert s.host + ("]" + tail) == s.host + ([']'] + tail);
    } else if s.port.NoPort? {
      PlainHost(s.host, "", isIp);
      assert Spelled(s) == s.host;
    } else {
      PlainHost(s.host, tail[1..], isIp);
      assert tail == [':'] + tail[1..];
    }
  }

  lemma SpelledIsRead(s: Spelling, isIp: IpReader)
    requires SpellingOk(s, isIp)
    ensures SplitAuthority(Spelled(s), isIp) == Ok(Authority(s.host, PortNamed(s.port)))
  {
    SpelledPlain(s, isIp, '/');
    SpelledPlain(s, isIp, '?');
    SpelledPlain(s, isIp, '@');
    SpelledHost(s, isIp);
    if s.port.PortSpelling? {
      PortReads(s.port);
    }
  }

  lemma Rejoined(s: string, at: nat)
    requires at < |s|
    ensures s == s[..at] + ([s[at]] + s[at + 1..])
  {
  }

  lemma BracketCut(authority: string)
    requires authority != "" && authority[0] == '[' && Find(authority[1..], ']') < |authority| - 1
    ensures var at := Find(authority[1..], ']');
            authority == HostSpelled(Spelling(authority[1..][..at], true, NoPort)) + authority[1..][at + 1..]
  {
    var rest := authority[1..];
    var at := Find(rest, ']');
    Rejoined(rest, at);
    Rejoined(authority, 0);
    assert authority[..0] == [];
    BracketSplit("[", rest[..at], "]", rest[at + 1..]);
  }

  function TailOf(text: Option<string>): string {
    if text.None? then "" else ":" + text.value
  }

  lemma BracketedIsSpelled(authority: string, isIp: IpReader)
    requires authority != "" && authority[0] == '[' && SplitHost(authority, isIp).Ok?
    ensures var (host, text) := SplitHost(authority, isIp).value;
            isIp(host) && authority == HostSpelled(Spelling(host, true, NoPort)) + TailOf(text)
  {
    BracketCut(authority);
    var after := authority[1..][Find(authority[1..], ']') + 1..];
    if after != "" {
      Rejoined(after, 0);
      assert after[..0] == [];
    }
  }

  lemma PlainIsSpelled(authority: string, isIp: IpReader)
    requires authority != "" && authority[0] != '['
    ensures SplitHost(authority, isIp).Ok?
    ensures var (host, text) := SplitHost(authority, isIp).value;
            ':' !in host && (host != "" ==> host[0] != '[')
            && authority == HostSpelled(Spelling(host, false, NoPort)) + TailOf(text)
  {
    var at := Find(authority, ':');
    if at < |authority| {
      Rejoined(authority, at);
    }
  }

  lemma HostIsSpelled(authority: string, isIp: IpReader) returns (host: string, bracketed: bool, tail: string)
    requires authority != "" && SplitHost(authority, isIp).Ok?
    ensures host == SplitHost(authority, isIp).value.0 && tail == TailOf(SplitHost(authority, isIp).value.1)
    ensures authority == HostSpelled(Spelling(host, bracketed, NoPort)) + tail
    ensures if bracketed then isIp(host) else ':' !in host && (host != "" ==> host[0] != '[')
  {
    host, bracketed := SplitHost(authority, isIp).value.0, authority[0] == '[';
    tail := TailOf(SplitHost(authority, isIp).value.1);
    if bracketed {
      BracketedIsSpelled(authority, isIp);
    } else {
      PlainIsSpelled(authority, isIp);
    }
  }

  lemma ReadIsSpelled(authority: string, isIp: IpReader) returns (s: Spelling)
    requires SplitAuthority(authority, isIp).Ok?
    ensures SpellingOk(s, isIp) && Spelled(s) == authority
    ensures SplitAuthority(authority, isIp).value == Authority(s.host, PortNamed(s.port))
  {
    var host, bracketed, tail := HostIsSpelled(authority, isIp);
    var port := NoPort;
    if SplitHost(authority, isIp).value.1.Some? {
      port := ReadPortSpelled(SplitHost(authority, isIp).value.1.value);
    }
    s := Spelling(host, bracketed, port);
    assert PortText(port) == tail;
    HostIn(host, bracketed, tail, '/');
    HostIn(host, bracketed, tail, '?');
    HostIn(host, bracketed, tail, '@');
  }

  lemma HostIn(host: string, bracketed: bool, tail: string, c: char)
    requires c !in HostSpelled(Spelling(host, bracketed, NoPort)) + tail
    ensures c !in host
  {
    NoneOf(c, HostSpelled(Spelling(host, bracketed, NoPort)), tail);
    NoneOf(c, host, "]");
    NoneOf(c, "[", host + "]");
  }

  /** A host and port are read exactly from their spellings. */
  lemma AuthorityExactlyWhen(authority: string, isIp: IpReader, host: string, port: Option<nat>)
    ensures SplitAuthority(authority, isIp) == Ok(Authority(host, port)) <==>
              exists s :: SpellingOk(s, isIp) && authority == Spelled(s) && s.host == host && PortNamed(s.port) == port
  {
    if SplitAuthority(authority, isIp) == Ok(Authority(host, port)) {
      var s := ReadIsSpelled(authority, isIp);
    }
    forall s | SpellingOk(s, isIp) && authority == Spelled(s) && s.host == host && PortNamed(s.port) == port
      ensures SplitAuthority(authority, isIp) == Ok(Authority(host, port))
    {
      SpelledIsRead(s, isIp);
    }
  }

  // ---- addresses ----

  /** The text, white space around it aside, spells the address: a scheme in any case, host and port, and for a pinned one
      a port and the fingerprint's 64 digits; for the other, a name for a host, and 443 where no port is given. */
  predicate SpellsAs(t: string, a: Address, s: Spelling, isIp: IpReader) {
    && SpellingOk(s, isIp) && '#' !in s.host && a.host == s.host
    && match a.mode
       case Pinned(fingerprint) =>
         && s.port.PortSpelling? && a.port == Number(s.port.digits) && |fingerprint| == 32
         && HasScheme(t, "sund://") && t[7..] == Spelled(s) + ("#" + HexText(fingerprint))
       case WebPki =>
         && !isIp(s.host) && a.port == (if s.port.NoPort? then 443 else Number(s.port.digits))
         && HasScheme(t, "sund+webpki://") && t[14..] == Spelled(s)
  }

  ghost predicate SpellsAddress(t: string, a: Address, isIp: IpReader) {
    exists s :: SpellsAs(t, a, s, isIp)
  }

  lemma PinnedIsRead(rest: string, s: Spelling, fingerprint: seq<Byte>, isIp: IpReader)
    requires SpellingOk(s, isIp) && '#' !in s.host && s.port.PortSpelling? && |fingerprint| == 32
    requires rest == Spelled(s) + ("#" + HexText(fingerprint))
    ensures ParsePinned(rest, isIp) == Ok(Address(Pinned(fingerprint), s.host, Number(s.port.digits)))
  {
    SpelledPlain(s, isIp, '#');
    FingerprintCut(rest, Spelled(s), fingerprint);
    SpelledIsRead(s, isIp);
  }

  lemma FingerprintCut(rest: string, authority: string, fingerprint: seq<Byte>)
    requires '#' !in authority && |fingerprint| == 32 && rest == authority + ("#" + HexText(fingerprint))
    ensures var at := Find(rest, '#');
            at < |rest| && rest[..at] == authority && ReadFingerprint(rest[at + 1..]) == Some(fingerprint)
  {
    assert "#" + HexText(fingerprint) == ['#'] + HexText(fingerprint);
    FindAt(authority, '#', HexText(fingerprint));
    CutApart(authority, '#', HexText(fingerprint));
    FingerprintExactlyWhen(HexText(fingerprint), fingerprint);
  }

  lemma WebPkiIsRead(s: Spelling, isIp: IpReader)
    requires SpellingOk(s, isIp) && '#' !in s.host && !isIp(s.host)
    ensures ParseWebPki(Spelled(s), isIp)
         == Ok(Address(WebPki, s.host, if s.port.NoPort? then 443 else Number(s.port.digits)))
  {
    SpelledPlain(s, isIp, '#');
    SpelledIsRead(s, isIp);
  }

  lemma SpelledAddressIsRead(t: string, a: Address, isIp: IpReader)
    requires SpellsAddress(t, a, isIp)
    ensures ParseTrimmed(t, isIp) == Ok(a)
  {
    var s :| SpellsAs(t, a, s, isIp);
    match a.mode
    case Pinned(fingerprint) =>
      PinnedIsRead(t[7..], s, fingerprint, isIp);
      OneScheme(t);
    case WebPki => WebPkiIsRead(s, isIp);
  }

  lemma OneScheme(t: string)
    requires HasScheme(t, "sund://")
    ensures !HasScheme(t, "sund+webpki://")
  {
    assert LowerCharacter(t[4]) == ':';
  }

  lemma PinnedIsSpelled(rest: string, isIp: IpReader) returns (s: Spelling, fingerprint: seq<Byte>)
    requires ParsePinned(rest, isIp).Ok?
    ensures SpellingOk(s, isIp) && '#' !in s.host && s.port.PortSpelling? && |fingerprint| == 32
    ensures rest == Spelled(s) + ("#" + HexText(fingerprint))
    ensures ParsePinned(rest, isIp).value == Address(Pinned(fingerprint), s.host, Number(s.port.digits))
  {
    var at := Find(rest, '#');
    PinnedParts(rest, isIp);
    fingerprint := ReadFingerprint(rest[at + 1..]).value;
    FingerprintExactlyWhen(rest[at + 1..], fingerprint);
    s := ReadIsSpelled(rest[..at], isIp);
    SpelledPlain(s, isIp, '#');
    CutBack(rest, at);
  }

  lemma PinnedHasFingerprint(rest: string, isIp: IpReader)
    requires ParsePinned(rest, isIp) != Err(InvalidFingerprint)
    ensures var at := Find(rest, '#'); at < |rest| && ReadFingerprint(rest[at + 1..]).Some?
  {
  }

  lemma PinnedHasAuthority(rest: string, isIp: IpReader)
    requires ParsePinned(rest, isIp).Ok?
    ensures SplitAuthority(rest[..Find(rest, '#')], isIp).Ok?
    ensures SplitAuthority(rest[..Find(rest, '#')], isIp).value.port.Some?
  {
  }

  lemma PinnedParts(rest: string, isIp: IpReader)
    requires ParsePinned(rest, isIp).Ok?
    ensures var at := Find(rest, '#');
            && at < |rest| && ReadFingerprint(rest[at + 1..]).Some? && SplitAuthority(rest[..at], isIp).Ok?
            && SplitAuthority(rest[..at], isIp).value.port.Some?
            && ParsePinned(rest, isIp).value == Address(Pinned(ReadFingerprint(rest[at + 1..]).value),
                                                        SplitAuthority(rest[..at], isIp).value.host,
                                                        SplitAuthority(rest[..at], isIp).value.port.value)
  {
    PinnedHasFingerprint(rest, isIp);
    PinnedHasAuthority(rest, isIp);
  }

  lemma CutBack(rest: string, at: nat)
    requires at < |rest| && rest[at] == '#'
    ensures rest == rest[..at] + ("#" + rest[at + 1..])
  {
  }

  lemma ReadPinnedSpelled(t: string, isIp: IpReader)
    requires HasScheme(t, "sund://") && ParsePinned(t[7..], isIp).Ok?
    ensures SpellsAddress(t, ParsePinned(t[7..], isIp).value, isIp)
  {
    var s, fingerprint := PinnedIsSpelled(t[7..], isIp);
    assert SpellsAs(t, ParsePinned(t[7..], isIp).value, s, isIp);
  }

  lemma ReadWebPkiSpelled(t: string, isIp: IpReader)
    requires HasScheme(t, "sund+webpki://") && ParseWebPki(t[14..], isIp).Ok?
    ensures SpellsAddress(t, ParseWebPki(t[14..], isIp).value, isIp)
  {
    var s := ReadIsSpelled(t[14..], isIp);
    SpelledPlain(s, isIp, '#');
    assert SpellsAs(t, ParseWebPki(t[14..], isIp).value, s, isIp);
  }

  /** A text is read as an address exactly when it spells it. */
  lemma ReadExactlyWhen(input: string, a: Address, isIp: IpReader)
    ensures Parse(input, isIp) == Ok(a) <==> SpellsAddress(Trim(input), a, isIp)
  {
    var t := Trim(input);
    if SpellsAddress(t, a, isIp) {
      SpelledAddressIsRead(t, a, isIp);
    }
    if Parse(input, isIp) == Ok(a) {
      if HasScheme(t, "sund+webpki://") {
        ReadWebPkiSpelled(t, isIp);
      } else {
        ReadPinnedSpelled(t, isIp);
      }
    }
  }

  /** The text of an address: its scheme, its host, in brackets if it holds a colon, its port unless it is 443 and the mode
      is WebPKI, and the fingerprint of a pinned one. */
  lemma DisplayText(a: Address, isIp: IpReader)
    requires HostOk(a.host, isIp)
    ensures var host := if ':' in a.host then "[" + a.host + "]" else a.host;
            Display(a) == match a.mode
                          case Pinned(fingerprint) => "sund://" + host + ":" + Decimal(a.port) + "#" + HexText(fingerprint)
                          case WebPki => "sund+webpki://" + host + (if a.port == 443 then "" else ":" + Decimal(a.port))
  {
    var host := if ':' in a.host then "[" + a.host + "]" else a.host;
    Assoc("[", a.host, "]");
    assert HostText(a.host) == host;
    var port := ":" + Decimal(a.port);
    match a.mode
    case Pinned(fingerprint) =>
      Assoc("sund://" + host, ":", Decimal(a.port));
      Assoc("sund://", host, port);
      Assoc("sund://" + (host + port), "#", HexText(fingerprint));
      Assoc("sund://", host + port, "#" + HexText(fingerprint));
    case WebPki => Assoc("sund+webpki://", host, if a.port == 443 then "" else port);
  }

  // ---- what is said of the others ----

  /** The authority holds what belongs to a path, a query or a user. */
  predicate Garbage(authority: string) {
    '/' in authority || '?' in authority || '@' in authority
  }

  /** It begins with a host, and goes on with something that is no port. */
  predicate BadPortAfter(authority: string, s: Spelling, tail: string, isIp: IpReader) {
    && SpellingOk(s, isIp) && s.port.NoPort? && tail != "" && authority == HostSpelled(s) + tail
    && (s.bracketed || tail[0] == ':')
    && !(tail[0] == ':' && ReadPort(tail[1..]).Some? && ReadPort(tail[1..]).value > 0)
  }

  ghost predicate BadPort(authority: string, isIp: IpReader) {
    exists s, tail :: BadPortAfter(authority, s, tail, isIp)
  }

  /** Whatever has a host without a good port is not a bad host. */
  lemma HostFound(authority: string, s: Spelling, tail: string, isIp: IpReader)
    requires BadPortAfter(authority, s, tail, isIp) && !Garbage(authority)
    ensures SplitAuthority(authority, isIp) == Err(InvalidPort)
  {
    if s.bracketed {
      BracketSplit("[", s.host, "]", tail);
      assert authority == "[" + (s.host + ([']'] + tail));
      var rest := s.host + ([']'] + tail);
      assert authority[1..] == rest;
      IpHasNoBracket(s.host, isIp);
      FindAt(s.host, ']', tail);
      CutApart(s.host, ']', tail);
    } else {
      assert tail == [':'] + tail[1..];
      PlainHost(s.host, tail[1..], isIp);
    }
  }

  lemma PortFoundBad(authority: string, isIp: IpReader)
    requires SplitAuthority(authority, isIp) == Err(InvalidPort)
    ensures BadPort(authority, isIp) && !Garbage(authority)
  {
    if authority[0] == '[' {
      BracketedPortBad(authority, isIp);
    } else {
      var at := Find(authority, ':');
      assert authority == authority[..at] + authority[at..];
      assert BadPortAfter(authority, Spelling(authority[..at], false, NoPort), authority[at..], isIp);
    }
  }

  lemma BracketedPortBad(authority: string, isIp: IpReader)
    requires SplitAuthority(authority, isIp) == Err(InvalidPort) && authority[0] == '['
    ensures BadPort(authority, isIp)
  {
    var rest := authority[1..];
    var at := Find(rest, ']');
    var host, tail := rest[..at], rest[at + 1..];
    BracketCut(authority);
    HostIn(host, true, tail, '/');
    HostIn(host, true, tail, '?');
    HostIn(host, true, tail, '@');
    assert BadPortAfter(authority, Spelling(host, true, NoPort), tail, isIp);
  }

  /** An authority that is not read holds a path, a query or a user; or else has a host with a bad port; or else is refused
      for its host. */
  lemma AuthorityRefusedFor(authority: string, isIp: IpReader)
    requires SplitAuthority(authority, isIp).Err?
    ensures SplitAuthority(authority, isIp).error
         == if Garbage(authority) then TrailingGarbage else if BadPort(authority, isIp) then InvalidPort else InvalidHost
  {
    if !Garbage(authority) {
      if s, tail :| BadPortAfter(authority, s, tail, isIp) {
        HostFound(authority, s, tail, isIp);
      } else if SplitAuthority(authority, isIp) == Err(InvalidPort) {
        PortFoundBad(authority, isIp);
      }
    }
  }

  /** Before a number sign, and after it the digits of a fingerprint. */
  predicate Fingerprinted(rest: string, authority: string, fingerprint: seq<Byte>) {
    '#' !in authority && |fingerprint| == 32 && rest == authority + ("#" + HexText(fingerprint))
  }

  /** What is said of a text with the scheme of a pinned address that spells none: its fingerprint is wrong; or else what is
      wrong with its authority; or else that it has no port. */
  lemma PinnedRefusedFor(rest: string, isIp: IpReader)
    ensures ParsePinned(rest, isIp) == Err(InvalidFingerprint) <==>
              forall authority, fingerprint :: !Fingerprinted(rest, authority, fingerprint)
    ensures forall authority, fingerprint :: Fingerprinted(rest, authority, fingerprint) && ParsePinned(rest, isIp).Err? ==>
              ParsePinned(rest, isIp).error
                == match SplitAuthority(authority, isIp) case Err(error) => error case Ok(_) => InvalidPort
  {
    forall authority, fingerprint | Fingerprinted(rest, authority, fingerprint)
      ensures ParsePinned(rest, isIp) != Err(InvalidFingerprint)
      ensures ParsePinned(rest, isIp).Err? ==>
                ParsePinned(rest, isIp).error
                  == match SplitAuthority(authority, isIp) case Err(error) => error case Ok(_) => InvalidPort
    {
      FingerprintCut(rest, authority, fingerprint);
      NeverFingerprint(authority, isIp);
    }
    if ParsePinned(rest, isIp) != Err(InvalidFingerprint) {
      PinnedHasFingerprint(rest, isIp);
      var at := Find(rest, '#');
      var fingerprint := ReadFingerprint(rest[at + 1..]).value;
      FingerprintExactlyWhen(rest[at + 1..], fingerprint);
      CutBack(rest, at);
      assert Fingerprinted(rest, rest[..at], fingerprint);
    }
  }

  lemma NeverFingerprint(authority: string, isIp: IpReader)
    ensures SplitAuthority(authority, isIp) != Err(InvalidFingerprint)
  {
  }

  /** And with the scheme of the other: a fingerprint that should not be there; or else what is wrong with its authority; or
      else that its host is an IP address. */
  lemma WebPkiRefusedFor(rest: string, isIp: IpReader)
    requires ParseWebPki(rest, isIp).Err?
    ensures ParseWebPki(rest, isIp).error
         == if '#' in rest then UnexpectedFingerprint
            else match SplitAuthority(rest, isIp) case Err(error) => error case Ok(_) => IpLiteralNotAllowed
  {
  }

  /** Without either scheme a text is no address at all. */
  lemma SchemeExactlyWhen(input: string, isIp: IpReader)
    ensures Parse(input, isIp) == Err(UnknownScheme) <==>
              !HasScheme(Trim(input), "sund://") && !HasScheme(Trim(input), "sund+webpki://")
  {
  }

  // ---- characters ----

  /** White space is the 25 characters Unicode has for it. */
  lemma SpaceIs(c: char)
    ensures IsSpace(c) <==>
              c as int in {9, 10, 11, 12, 13, 32, 133, 160, 5760, 8192, 8193, 8194, 8195, 8196, 8197, 8198, 8199, 8200,
                           8201, 8202, 8232, 8233, 8239, 8287, 12288}
  {
  }

  /** A text has a scheme if it begins with it but for capitals in place of small letters. */
  lemma SchemeIs(s: string, scheme: string)
    requires scheme in {"sund://", "sund+webpki://"}
    ensures HasScheme(s, scheme) <==>
              && |scheme| <= |s|
              && forall i :: 0 <= i < |scheme| ==>
                   s[i] == scheme[i] || ('a' <= scheme[i] <= 'z' && s[i] as int + 32 == scheme[i] as int)
  {
    assert forall i :: 0 <= i < |scheme| ==> !('A' <= scheme[i] <= 'Z');
    if |scheme| <= |s| {
      forall i | 0 <= i < |scheme|
        ensures LowerCharacter(s[i]) == scheme[i] <==>
                  s[i] == scheme[i] || ('a' <= scheme[i] <= 'z' && s[i] as int + 32 == scheme[i] as int)
      {
        LowerIs(s[i], scheme[i]);
      }
    }
  }

  lemma LowerIs(c: char, small: char)
    requires !('A' <= small <= 'Z')
    ensures LowerCharacter(c) == small <==> c == small || ('a' <= small <= 'z' && c as int + 32 == small as int)
  {
  }
}
