/** UTF-8, as far as a well-formed text needs it, and base64url without padding. */
module TextEncodings {
  import opened Text

  type Byte = n: nat | n < 256

  // ----- UTF-8

  function Utf8Char(c: char): (bytes: seq<Byte>)
    ensures 1 <= |bytes| <= 4
  {
    var n := c as int;
    if n < 0x80 then [n]
    else if n < 0x800 then [0xC0 + n / 64, 0x80 + n % 64]
    else if n < 0x10000 then [0xE0 + n / 4096, 0x80 + n / 64 % 64, 0x80 + n % 64]
    else [0xF0 + n / 262144, 0x80 + n / 4096 % 64, 0x80 + n / 64 % 64, 0x80 + n % 64]
  }

  function Utf8(text: string): (bytes: seq<Byte>)
    ensures |bytes| >= |text|
  {
    if text == "" then [] else Utf8Char(text[0]) + Utf8(text[1..])
  }

  predicate Continues(b: Byte)
  {
    0x80 <= b < 0xC0
  }

  /** The six bits a continuation byte carries. */
  function Low(b: Byte): int
  {
    b as int - 0x80
  }

  /** A scalar value: no surrogate, and no more than U+10FFFF. */
  predicate Scalar(n: int)
  {
    0 <= n < 0xD800 || 0xE000 <= n < 0x110000
  }

  /** The first character, and how many bytes it took; overlong and surrogate forms are ill-formed. */
  function FirstChar(bytes: seq<Byte>): (r: Option<(char, nat)>)
    requires bytes != []
    ensures r.Some? ==> 1 <= r.value.1 <= |bytes|
  {
    var b := bytes[0];
    if b < 0x80 then Some((b as char, 1))
    else if 0xC0 <= b < 0xE0 && |bytes| >= 2 && Continues(bytes[1]) then
      var n := (b as int - 0xC0) * 64 + Low(bytes[1]);
      if n < 0x80 then None else Some((n as char, 2))
    else if 0xE0 <= b < 0xF0 && |bytes| >= 3 && Continues(bytes[1]) && Continues(bytes[2]) then
      var n := (b as int - 0xE0) * 4096 + Low(bytes[1]) * 64 + Low(bytes[2]);
      if n < 0x800 || !Scalar(n) then None else Some((n as char, 3))
    else if 0xF0 <= b < 0xF8 && |bytes| >= 4 && Continues(bytes[1]) && Continues(bytes[2])
            && Continues(bytes[3]) then
      var n := (b as int - 0xF0) * 262144 + Low(bytes[1]) * 4096 + Low(bytes[2]) * 64 + Low(bytes[3]);
      if n < 0x10000 || !Scalar(n) then None else Some((n as char, 4))
    else None
  }

  /** The text of well-formed bytes. */
  function WellFormedText(bytes: seq<Byte>): Option<string>
    decreases |bytes|
  {
    if bytes == [] then Some("")
    else
      var first := FirstChar(bytes);
      if first.None? then None
      else
        var rest := WellFormedText(bytes[first.value.1..]);
        if rest.None? then None else Some([first.value.0] + rest.value)
  }

  lemma DivideTwice(n: int, m: int)
    requires n >= 0 && (m == 64 || m == 4096)
    ensures n / m / 64 == n / (m * 64)
  {
    var q, r := n / m, n / m / 64;
    assert n == m * q + n % m && q == 64 * r + q % 64;
    if m == 64 {
      assert n == 4096 * r + (64 * (q % 64) + n % 64);
    } else {
      assert n == 262144 * r + (4096 * (q % 64) + n % 4096);
    }
  }

  /** Splitting a number into six-bit digits. */
  lemma SixBits(n: int)
    requires n >= 0
    ensures n == n / 64 * 64 + n % 64
    ensures n == n / 4096 * 4096 + n / 64 % 64 * 64 + n % 64
    ensures n == n / 262144 * 262144 + n / 4096 % 64 * 4096 + n / 64 % 64 * 64 + n % 64
  {
    DivideTwice(n, 64);
    DivideTwice(n, 4096);
    var a, b := n / 64, n / 4096;
    assert a == a / 64 * 64 + a % 64;
    assert b == b / 64 * 64 + b % 64;
  }

  lemma FirstCharReads(c: char, rest: seq<Byte>)
    ensures FirstChar(Utf8Char(c) + rest) == Some((c, |Utf8Char(c)|))
  {
    var n := c as int;
    var head := Utf8Char(c);
    var bytes := head + rest;
    SixBits(n);
    assert Scalar(n);
    assert bytes[0] == head[0] && (|head| > 1 ==> bytes[1] == head[1]);
    assert (|head| > 2 ==> bytes[2] == head[2]) && (|head| > 3 ==> bytes[3] == head[3]);
  }

  lemma {:induction false} Utf8RoundTrip(text: string)
    ensures WellFormedText(Utf8(text)) == Some(text)
  {
    if text == "" {
    } else {
      var bytes := Utf8Char(text[0]);
      hide FirstChar, Utf8Char;
      FirstCharReads(text[0], Utf8(text[1..]));
      assert (bytes + Utf8(text[1..]))[|bytes|..] == Utf8(text[1..]);
      Utf8RoundTrip(text[1..]);
      assert text == [text[0]] + text[1..];
    }
  }

  // ----- nothing else decodes

  /** Six-bit digits are found again. */
  lemma DigitsOf(a: int, b: int, c: int, d: int)
    requires 0 <= a && 0 <= b < 64 && 0 <= c < 64 && 0 <= d < 64
    ensures var n := a * 262144 + b * 4096 + c * 64 + d;
            n / 262144 == a && n / 4096 % 64 == b && n / 64 % 64 == c && n % 64 == d
  {
    var n := a * 262144 + b * 4096 + c * 64 + d;
    var m := a * 4096 + b * 64 + c;
    assert n == m * 64 + d && n / 64 == m;
    assert m == (a * 64 + b) * 64 + c && m / 64 == a * 64 + b;
    assert n / 4096 == a * 64 + b;
  }

  /** What is read as a character is that character's encoding, and no other spelling of it. */
  lemma FirstCharIsEncoded(bytes: seq<Byte>)
    requires bytes != [] && FirstChar(bytes).Some?
    ensures var (c, n) := FirstChar(bytes).value; bytes[..n] == Utf8Char(c)
  {
    var (c, n) := FirstChar(bytes).value;
    if n == 2 {
      DigitsOf(0, 0, bytes[0] - 0xC0, Low(bytes[1]));
    } else if n == 3 {
      DigitsOf(0, bytes[0] - 0xE0, Low(bytes[1]), Low(bytes[2]));
    } else if n == 4 {
      DigitsOf(bytes[0] - 0xF0, Low(bytes[1]), Low(bytes[2]), Low(bytes[3]));
    }
  }

  /** Bytes are read as a text only if they are its encoding: each text has one spelling. */
  lemma {:induction false} OnlyUtf8Decodes(bytes: seq<Byte>)
    requires WellFormedText(bytes).Some?
    ensures Utf8(WellFormedText(bytes).value) == bytes
    decreases |bytes|
  {
    if bytes == [] {
    } else {
      FirstCharIsEncoded(bytes);
      hide FirstChar, Utf8Char;
      var (c, n) := FirstChar(bytes).value;
      OnlyUtf8Decodes(bytes[n..]);
      assert bytes == bytes[..n] + bytes[n..];
      var text := WellFormedText(bytes).value;
      assert text[1..] == WellFormedText(bytes[n..]).value;
    }
  }

  // ----- base64url, section 5 of RFC 4648

  type Sextet = n: nat | n < 64

  function Letter(v: Sextet): char
  {
    if v < 26 then 'A' + v as char
    else if v < 52 then 'a' + (v - 26) as char
    else if v < 62 then '0' + (v - 52) as char
    else if v == 62 then '-' else '_'
  }

  function LetterValue(c: char): Option<Sextet>
  {
    if 'A' <= c <= 'Z' then Some((c - 'A') as int)
    else if 'a' <= c <= 'z' then Some((c - 'a') as int + 26)
    else if '0' <= c <= '9' then Some((c - '0') as int + 52)
    else if c == '-' then Some(62)
    else if c == '_' then Some(63)
    else None
  }

  function Base64Url(bytes: seq<Byte>): (text: string)
  {
    if |bytes| == 0 then ""
    else if |bytes| == 1 then [Letter(bytes[0] / 4), Letter(bytes[0] % 4 * 16)]
    else if |bytes| == 2 then
      [Letter(bytes[0] / 4), Letter(bytes[0] % 4 * 16 + bytes[1] / 16), Letter(bytes[1] % 16 * 4)]
    else
      [Letter(bytes[0] / 4), Letter(bytes[0] % 4 * 16 + bytes[1] / 16),
       Letter(bytes[1] % 16 * 4 + bytes[2] / 64), Letter(bytes[2] % 64)]
      + Base64Url(bytes[3..])
  }

  /** A group of two, three or four letters as one, two or three bytes. */
  function Group(text: string): Option<seq<Byte>>
  {
    if |text| < 2 || |text| > 4 || exists i :: 0 <= i < |text| && LetterValue(text[i]).None? then None
    else
      var a, b := LetterValue(text[0]).value, LetterValue(text[1]).value;
      var first := [a * 4 + b / 16];
      if |text| == 2 then Some(first)
      else
        var c := LetterValue(text[2]).value;
        var second := first + [b % 16 * 16 + c / 4];
        if |text| == 3 then Some(second) else Some(second + [c % 4 * 64 + LetterValue(text[3]).value])
  }

  function FromBase64Url(text: string): Option<seq<Byte>>
    decreases |text|
  {
    if text == "" then Some([])
    else if |text| <= 4 then Group(text)
    else
      var first, rest := Group(text[..4]), FromBase64Url(text[4..]);
      if first.None? || rest.None? then None else Some(first.value + rest.value)
  }

  lemma LetterReads(v: Sextet)
    ensures LetterValue(Letter(v)) == Some(v)
  {
  }

  /** Bytes cut into sextets and put together again. */
  lemma Sextets(x: Byte, y: Byte, z: Byte)
    ensures x / 4 * 4 + x % 4 * 16 / 16 == x
    ensures (x % 4 * 16 + y / 16) / 16 == x % 4 && (x % 4 * 16 + y / 16) % 16 == y / 16
    ensures y / 16 * 16 + y % 16 * 4 / 4 == y
    ensures (y % 16 * 4 + z / 64) / 4 == y % 16 && (y % 16 * 4 + z / 64) % 4 == z / 64
    ensures z / 64 * 64 + z % 64 == z
  {
  }

  lemma GroupOf(text: string, a: Sextet, b: Sextet, c: Sextet, d: Sextet)
    requires 2 <= |text| <= 4 && text[0] == Letter(a) && text[1] == Letter(b)
    requires |text| > 2 ==> text[2] == Letter(c)
    requires |text| > 3 ==> text[3] == Letter(d)
    ensures Group(text).Some? && |Group(text).value| == |text| - 1
    ensures Group(text).value[0] == a * 4 + b / 16
    ensures |text| > 2 ==> Group(text).value[1] == b % 16 * 16 + c / 4
    ensures |text| > 3 ==> Group(text).value[2] == c % 4 * 64 + d
  {
    LetterReads(a);
    LetterReads(b);
    LetterReads(c);
    LetterReads(d);
    hide Letter, LetterValue;
  }

  lemma GroupReads(bytes: seq<Byte>)
    requires 1 <= |bytes| <= 3
    ensures Group(Base64Url(bytes)) == Some(bytes)
    ensures |Base64Url(bytes)| == |bytes| + 1
  {
    hide Letter, LetterValue, Group;
    var x := bytes[0];
    if |bytes| == 1 {
      Sextets(x, 0, 0);
      GroupOf(Base64Url(bytes), x / 4, x % 4 * 16, 0, 0);
      assert Group(Base64Url(bytes)).value == [x] == bytes;
    } else if |bytes| == 2 {
      var y := bytes[1];
      Sextets(x, y, 0);
      GroupOf(Base64Url(bytes), x / 4, x % 4 * 16 + y / 16, y % 16 * 4, 0);
      assert Group(Base64Url(bytes)).value == [x, y] == bytes;
    } else {
      var y, z := bytes[1], bytes[2];
      Sextets(x, y, z);
      assert bytes[3..] == [] && Base64Url([]) == "";
      var text := [Letter(x / 4), Letter(x % 4 * 16 + y / 16), Letter(y % 16 * 4 + z / 64), Letter(z % 64)];
      assert Base64Url(bytes) == text + "" == text;
      GroupOf(text, x / 4, x % 4 * 16 + y / 16, y % 16 * 4 + z / 64, z % 64);
      assert Group(text).value == [x, y, z] == bytes;
    }
  }

  lemma {:induction false} Base64UrlRoundTrip(bytes: seq<Byte>)
    ensures FromBase64Url(Base64Url(bytes)) == Some(bytes)
    ensures bytes != [] ==> |Base64Url(bytes)| >= 2
  {
    if 0 < |bytes| <= 3 {
      GroupReads(bytes);
    } else if |bytes| > 3 {
      var head, tail := bytes[..3], bytes[3..];
      GroupReads(head);
      Base64UrlRoundTrip(tail);
      assert Base64Url(bytes) == Base64Url(head) + Base64Url(tail) by {
        assert head[3..] == [];
      }
      hide Base64Url, Group;
      var text := Base64Url(head) + Base64Url(tail);
      assert text[..4] == Base64Url(head) && text[4..] == Base64Url(tail);
      assert bytes == head + tail;
    }
  }

  /** Only letters that need no escaping in a URL. */
  lemma {:induction false} Base64UrlAlphabet(bytes: seq<Byte>)
    ensures forall i :: 0 <= i < |Base64Url(bytes)| ==> LetterValue(Base64Url(bytes)[i]).Some?
  {
    forall v: Sextet
      ensures LetterValue(Letter(v)).Some?
    {
      LetterReads(v);
    }
    hide Letter, LetterValue;
    if |bytes| >= 3 {
      Base64UrlAlphabet(bytes[3..]);
    }
  }
}
