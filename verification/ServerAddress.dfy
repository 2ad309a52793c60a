/** The addresses of servers, each with its way of trusting the server: the reader and the writer. */
module ServerAddress {
  import opened Wrappers
  import opened Decimals
  import opened Hex

  const FINGERPRINT_LENGTH: nat := 32
  const PINNED_SCHEME: string := "sund://"
  const WEBPKI_SCHEME: string := "sund+webpki://"
  const WEBPKI_DEFAULT_PORT: nat := 443

  datatype TrustMode = Pinned(fingerprint: seq<Byte>) | WebPki

  datatype Address = Address(mode: TrustMode, host: string, port: nat)

  datatype AddressError =
    | UnknownScheme
    | InvalidHost
    | InvalidPort
    | InvalidFingerprint
    | UnexpectedFingerprint
    | IpLiteralNotAllowed
    | TrailingGarbage

  /** The characters an IP address is written with. */
  predicate IpCharacter(c: char) {
    IsDigit(c) || 'a' <= c <= 'f' || 'A' <= c <= 'F' || c == ':' || c == '.'
  }

  ghost predicate ReadsIpCharacters(isIp: string -> bool) {
    !isIp("") && forall s, i :: isIp(s) && 0 <= i < |s| ==> IpCharacter(s[i])
  }

  /** Which texts are IP addresses is the platform's to say, but they are not empty and hold no other characters. */
  type IpReader = isIp: string -> bool | ReadsIpCharacters(isIp) ghost witness ((s: string) => false)

  // ---- splitting text ----

  /** Unicode white space. */
  predicate IsSpace(c: char) {
    var n := c as int;
    || 9 <= n <= 13 || n == 32 || n == 0x85 || n == 0xA0 || n == 0x1680 || 0x2000 <= n <= 0x200A
    || n == 0x2028 || n == 0x2029 || n == 0x202F || n == 0x205F || n == 0x3000
  }

  function TrimStart(s: string): string {
    if s != "" && IsSpace(s[0]) then TrimStart(s[1..]) else s
  }

  function TrimEnd(s: string): string {
    if s != "" && IsSpace(s[|s| - 1]) then TrimEnd(s[..|s| - 1]) else s
  }

  function Trim(s: string): string {
    TrimEnd(TrimStart(s))
  }

  function LowerCharacter(c: char): char {
    if 'A' <= c <= 'Z' then 'a' + (c - 'A') else c
  }

  /** Whether a text starts with a scheme, in any mixture of cases. */
  predicate HasScheme(s: string, scheme: string) {
    |s| >= |scheme| && forall i :: 0 <= i < |scheme| ==> LowerCharacter(s[i]) == scheme[i]
  }

  /** The first place of a character; the end of the text if it has none. */
  function Find(s: string, c: char): (n: nat)
    ensures n <= |s| && c !in s[..n] && (n < |s| ==> s[n] == c)
  {
    if s == "" || s[0] == c then 0
    else
      var n := Find(s[1..], c);
      assert s[..n + 1] == [s[0]] + s[1..][..n];
      n + 1
  }

  // ---- reading ----

  /** The bytes some hexadecimal digits name; capital letters are refused. */
  function ReadHex(s: string): (r: Option<seq<Byte>>)
    requires |s| % 2 == 0
    ensures r.Some? ==> 2 * |r.value| == |s|
  {
    if s == "" then Some([])
    else
      var n := |s| - 2;
      var before, high, low := ReadHex(s[..n]), HexValue(s[n]), HexValue(s[n + 1]);
      if before.None? || high.None? || low.None? then None
      else
        Some(before.value + [16 * high.value + low.value])
  }

  function ReadFingerprint(fragment: string): Option<seq<Byte>> {
    if |fragment| != 2 * FINGERPRINT_LENGTH then None else ReadHex(fragment)
  }

  /** A port as the standard library reads a 16-bit number: a plus sign and leading zeros are let pass. */
  function ReadPort(text: string): (port: Option<nat>)
    ensures port.Some? ==> port.value < 0x10000
  {
    var digits := if text != "" && text[0] == '+' then text[1..] else text;
    if digits == "" || !AllDigits(digits) || Number(digits) >= 0x10000 then None else Some(Number(digits))
  }

  datatype Authority = Authority(host: string, port: Option<nat>)

  /** A host and what follows its colon, if it has one; an address in brackets may hold colons of its own. */
  function SplitHost(authority: string, isIp: IpReader): Result<(string, Option<string>), AddressError>
    requires authority != ""
  {
    if authority[0] == '[' then
      var rest := authority[1..];
      var at := Find(rest, ']');
      if at == |rest| || !isIp(rest[..at]) then Err(InvalidHost)
      else
        var after := rest[at + 1..];
        if after == "" then Ok((rest[..at], None))
        else if after[0] != ':' then Err(InvalidPort)
        else Ok((rest[..at], Some(after[1..])))
    else
      var at := Find(authority, ':');
      if at == |authority| then Ok((authority, None)) else Ok((authority[..at], Some(authority[at + 1..])))
  }

  function SplitAuthority(authority: string, isIp: IpReader): Result<Authority, AddressError> {
    if authority == "" then Err(InvalidHost)
    else if '/' in authority || '?' in authority || '@' in authority then Err(TrailingGarbage)
    else
      match SplitHost(authority, isIp)
      case Err(error) => Err(error)
      case Ok((host, text)) =>
        if host == "" || (':' in host && !isIp(host)) then Err(InvalidHost)
        else if text.None? then Ok(Authority(host, None))
        else
          var port := ReadPort(text.value);
          if port.None? || port.value == 0 then Err(InvalidPort) else Ok(Authority(host, port))
  }

  function ParsePinned(rest: string, isIp: IpReader): Result<Address, AddressError> {
    var at := Find(rest, '#');
    if at == |rest| then Err(InvalidFingerprint)
    else
      var fingerprint := ReadFingerprint(rest[at + 1..]);
      if fingerprint.None? then Err(InvalidFingerprint)
      else
        match SplitAuthority(rest[..at], isIp)
        case Err(error) => Err(error)
        case Ok(authority) =>
          if authority.port.None? then Err(InvalidPort)
          else Ok(Address(Pinned(fingerprint.value), authority.host, authority.port.value))
  }

  function ParseWebPki(rest: string, isIp: IpReader): Result<Address, AddressError> {
    if '#' in rest then Err(UnexpectedFingerprint)
    else
      match SplitAuthority(rest, isIp)
      case Err(error) => Err(error)
      case Ok(authority) =>
        if isIp(authority.host) || (authority.host != "" && authority.host[0] == '[') then Err(IpLiteralNotAllowed)
        else Ok(Address(WebPki, authority.host, if authority.port.Some? then authority.port.value else WEBPKI_DEFAULT_PORT))
  }

  function ParseTrimmed(s: string, isIp: IpReader): Result<Address, AddressError> {
    if HasScheme(s, WEBPKI_SCHEME) then ParseWebPki(s[|WEBPKI_SCHEME|..], isIp)
    else if HasScheme(s, PINNED_SCHEME) then ParsePinned(s[|PINNED_SCHEME|..], isIp)
    else Err(UnknownScheme)
  }

  function Parse(input: string, isIp: IpReader): Result<Address, AddressError> {
    ParseTrimmed(Trim(input), isIp)
  }

  lemma ReadHexStep(s: string, i: nat)
    requires 2 * (i + 1) <= |s|
    ensures var before, high, low := ReadHex(s[..2 * i]), HexValue(s[2 * i]), HexValue(s[2 * i + 1]);
            ReadHex(s[..2 * (i + 1)])
            == if before.None? || high.None? || low.None? then None
               else Some(before.value + [16 * high.value + low.value])
  {
    var t := s[..2 * (i + 1)];
    assert t[..|t| - 2] == s[..2 * i] && t[|t| - 2] == s[2 * i] && t[|t| - 1] == s[2 * i + 1];
  }

  /** The loop that fills the fingerprint byte by byte. */
  method ParseFingerprint(fragment: string) returns (r: Option<seq<Byte>>)
    ensures r == ReadFingerprint(fragment)
  {
    var n := FINGERPRINT_LENGTH;
    if |fragment| != 2 * n {
      return None;
    }
    var out := new Byte[n](i => 0);
    for i := 0 to n
      invariant ReadHex(fragment[..2 * i]) == Some(out[..i])
    {
      ReadHexStep(fragment, i);
      var high, low := HexValue(fragment[2 * i]), HexValue(fragment[2 * i + 1]);
      if high.None? || low.None? {
        HexPrefix(fragment, i + 1);
        return None;
      }
      ghost var before := out[..i];
      out[i] := 16 * high.value + low.value;
      assert out[..i] == before && out[..i + 1] == out[..i] + [out[i]];
    }
    assert fragment[..2 * n] == fragment && out[..n] == out[..];
    r := Some(out[..]);
  }

  /** Reading stops at the first pair that is not a byte. */
  lemma {:induction false} HexPrefix(s: string, pairs: nat)
    requires |s| % 2 == 0 && 2 * pairs <= |s|
    requires ReadHex(s[..2 * pairs]).None?
    ensures ReadHex(s).None?
  {
    if 2 * pairs < |s| {
      var n := |s| - 2;
      assert s[..n][..2 * pairs] == s[..2 * pairs];
      HexPrefix(s[..n], pairs);
    } else {
      assert s[..2 * pairs] == s;
    }
  }

  // ---- writing ----

  function HostText(host: string): string {
    if ':' in host && host[0] != '[' then "[" + (host + "]") else host
  }

  function AuthorityText(host: string, port: Option<nat>): string {
    if port.Some? then HostText(host) + (":" + Decimal(port.value)) else HostText(host)
  }

  function Display(a: Address): string {
    match a.mode
    case Pinned(fingerprint) => PINNED_SCHEME + (AuthorityText(a.host, Some(a.port)) + ("#" + HexText(fingerprint)))
    case WebPki => WEBPKI_SCHEME + AuthorityText(a.host, if a.port == WEBPKI_DEFAULT_PORT then None else Some(a.port))
  }

  method Print(a: Address) returns (s: string)
    ensures s == Display(a)
  {
    var host := HostText(a.host);
    match a.mode
    case Pinned(fingerprint) =>
      s := PINNED_SCHEME + (host + (":" + Decimal(a.port)));
      s := s + "#";
      ghost var before := s;
      for i := 0 to |fingerprint|
        invariant s == before + HexText(fingerprint[..i])
      {
        assert fingerprint[..i + 1][..i] == fingerprint[..i];
        s := s + HexByte(fingerprint[i]);
      }
      assert fingerprint[..|fingerprint|] == fingerprint;
      assert s == Display(a);
    case WebPki =>
      if a.port == WEBPKI_DEFAULT_PORT {
        s := WEBPKI_SCHEME + host;
      } else {
        s := WEBPKI_SCHEME + (host + (":" + Decimal(a.port)));
      }
  }
}
