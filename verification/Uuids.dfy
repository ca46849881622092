/**
 UUIDs as 128-bit numbers, with the 8-4-4-4-12 hexadecimal text form both Python's `str(UUID)` and
 .NET's "D" format produce.
 */
module Uuids {
  import opened Text

  const HEX_DIGITS: nat := 32

  function Pow16(n: nat): (p: nat)
    ensures p >= 1
  {
    if n == 0 then 1 else 16 * Pow16(n - 1)
  }

  type Uuid = n: nat | n < 0x1_0000_0000_0000_0000_0000_0000_0000_0000

  lemma UuidLimit()
    ensures Pow16(HEX_DIGITS) == 0x1_0000_0000_0000_0000_0000_0000_0000_0000
  {
    assert Pow16(8) == 0x1_0000_0000;
    assert Pow16(16) == 0x1_0000_0000_0000_0000;
    assert Pow16(24) == 0x1_0000_0000_0000_0000_0000_0000;
  }

  function HexDigit(d: nat): (c: char)
    requires d < 16
  {
    if d < 10 then '0' + d as char else 'a' + (d - 10) as char
  }

  /** Reads one hexadecimal digit, in either case. */
  function HexValue(c: char): (d: Option<nat>)
    ensures d.Some? ==> d.value < 16
  {
    if '0' <= c <= '9' then Some((c - '0') as nat)
    else if 'a' <= c <= 'f' then Some((c - 'a') as nat + 10)
    else if 'A' <= c <= 'F' then Some((c - 'A') as nat + 10)
    else None
  }

  function Hex(n: nat, width: nat): (text: string)
    ensures |text| == width
    ensures forall i :: 0 <= i < width ==> text[i] in "0123456789abcdef"
  {
    if width == 0 then "" else Hex(n / 16, width - 1) + [HexDigit(n % 16)]
  }

  function Unhex(text: string): (n: Option<nat>)
    ensures n.Some? ==> n.value < Pow16(|text|)
  {
    if text == "" then Some(0)
    else
      var head := Unhex(text[..|text| - 1]);
      var last := HexValue(text[|text| - 1]);
      if head.None? || last.None? then None else Some(16 * head.value + last.value)
  }

  function Hyphenate(h: string): (text: string)
    requires |h| == HEX_DIGITS
    ensures |text| == 36
  {
    h[..8] + "-" + h[8..12] + "-" + h[12..16] + "-" + h[16..20] + "-" + h[20..]
  }

  function Render(u: Uuid): (text: string)
    ensures |text| == 36
  {
    Hyphenate(Hex(u, HEX_DIGITS))
  }

  function Parse(text: string): (u: Option<Uuid>)
  {
    UuidLimit();
    if |text| != 36 || text[8] != '-' || text[13] != '-' || text[18] != '-' || text[23] != '-' then None
    else Unhex(text[..8] + text[9..13] + text[14..18] + text[19..23] + text[24..])
  }

  lemma HexDigitValue(d: nat)
    requires d < 16
    ensures HexValue(HexDigit(d)) == Some(d)
  {
  }

  /** Both cases of the letters read, and nothing else does. */
  lemma HexValueIff(c: char, d: nat)
    requires d < 16
    ensures HexValue(c) == Some(d) <==> c == "0123456789abcdef"[d] || c == "0123456789ABCDEF"[d]
  {
  }

  lemma {:induction false} UnhexHex(n: nat, width: nat)
    requires n < Pow16(width)
    ensures Unhex(Hex(n, width)) == Some(n)
  {
    if width > 0 {
      UnhexHex(n / 16, width - 1);
      HexDigitValue(n % 16);
      var head, last := Hex(n / 16, width - 1), HexDigit(n % 16);
      assert (head + [last])[..width - 1] == head;
    }
  }

  /** Taking the hyphens out again. */
  lemma HyphensAside(h: string)
    requires |h| == HEX_DIGITS
    ensures var text := Hyphenate(h);
            && text[8] == '-' && text[13] == '-' && text[18] == '-' && text[23] == '-'
            && text[..8] + text[9..13] + text[14..18] + text[19..23] + text[24..] == h
  {
    var text := Hyphenate(h);
    var a, b, c, d, e := h[..8], h[8..12], h[12..16], h[16..20], h[20..];
    assert h == a + b + c + d + e;
    assert text[..8] == a;
    assert text[9..13] == b;
    assert text[14..18] == c;
    assert text[19..23] == d;
    assert text[24..] == e;
  }

  /** The text form is lossless. */
  lemma ParseRender(u: Uuid)
    ensures Parse(Render(u)) == Some(u)
  {
    hide Hex, Unhex, Hyphenate, Pow16;
    UuidLimit();
    HyphensAside(Hex(u, HEX_DIGITS));
    UnhexHex(u, HEX_DIGITS);
  }

  lemma RenderInjective(a: Uuid, b: Uuid)
    requires Render(a) == Render(b)
    ensures a == b
  {
    hide Render, Parse;
    ParseRender(a);
    ParseRender(b);
  }

  /** The text form uses hexadecimal digits and hyphens only. */
  lemma RenderAlphabet(u: Uuid, c: char)
    requires c !in "0123456789abcdef-"
    ensures c !in Render(u)
  {
    var h := Hex(u, HEX_DIGITS);
    assert c !in h;
  }
}
