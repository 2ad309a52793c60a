/** Lower-case hexadecimal, written and read. */
module Hex {
  import opened Wrappers

  function HexDigit(n: nat): (c: char)
    requires n < 16
    ensures '0' <= c <= '9' || 'a' <= c <= 'f'
  {
    if n < 10 then '0' + n as char else 'a' + (n - 10) as char
  }

  function HexValue(c: char): (v: Option<nat>)
    ensures v.Some? ==> v.value < 16 && HexDigit(v.value) == c
    ensures v.Some? <==> '0' <= c <= '9' || 'a' <= c <= 'f'
  {
    if '0' <= c <= '9' then Some(c as int - '0' as int)
    else if 'a' <= c <= 'f' then Some(c as int - 'a' as int + 10)
    else None
  }

  lemma HexValueOfDigit(n: nat)
    requires n < 16
    ensures HexValue(HexDigit(n)) == Some(n)
  {
  }

  type Byte = b: int | 0 <= b < 256

  /** A byte as two digits, high half first. */
  function HexByte(b: Byte): (s: string)
    ensures |s| == 2
  {
    [HexDigit(b / 16), HexDigit(b % 16)]
  }

  function HexText(bytes: seq<Byte>): (s: string)
    ensures |s| == 2 * |bytes|
  {
    if bytes == [] then "" else HexText(bytes[..|bytes| - 1]) + HexByte(bytes[|bytes| - 1])
  }

  lemma HexByteInjective(a: Byte, b: Byte)
    requires HexByte(a) == HexByte(b)
    ensures a == b
  {
    HexValueOfDigit(a / 16);
    HexValueOfDigit(b / 16);
    HexValueOfDigit(a % 16);
    HexValueOfDigit(b % 16);
    assert HexByte(a)[0] == HexByte(b)[0] && HexByte(a)[1] == HexByte(b)[1];
  }

  lemma {:induction false} HexTextAt(bytes: seq<Byte>, i: nat)
    requires i < |bytes|
    ensures HexText(bytes)[2 * i] == HexDigit(bytes[i] / 16) && HexText(bytes)[2 * i + 1] == HexDigit(bytes[i] % 16)
  {
    var n := |bytes| - 1;
    if i < n {
      HexTextAt(bytes[..n], i);
    }
  }

  lemma HexTextInjective(a: seq<Byte>, b: seq<Byte>)
    requires HexText(a) == HexText(b)
    ensures a == b
  {
    assert |a| == |b|;
    forall i | 0 <= i < |a|
      ensures a[i] == b[i]
    {
      HexTextAt(a, i);
      HexTextAt(b, i);
      HexByteInjective(a[i], b[i]);
    }
  }
}
