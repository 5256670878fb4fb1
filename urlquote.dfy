/** `urllib.parse.quote(payload)` with its default `safe='/'`, and the test
    URL `base + quote(payload)` that both sweeps request. `quote` encodes the
    string as UTF-8 and writes every byte outside the unreserved set
    (ASCII letters, digits, `_.-~`) and `/` as `%XX` with upper-case hex
    digits, as section 2.1 of RFC 3986 describes. */
module UrlQuote {

  newtype byte = x: int | 0 <= x < 256

  /** The UTF-8 encoding of one Unicode scalar value. */
  function Utf8Char(c: char): (bs: seq<byte>)
    ensures 1 <= |bs| <= 4
    ensures |bs| == 1 <==> (c as int) < 0x80
    ensures |bs| == 1 ==> bs[0] as int == c as int
  {
    var n := c as int;
    if n < 0x80 then [n as byte]
    else if n < 0x800 then [(0xC0 + n / 64) as byte, (0x80 + n % 64) as byte]
    else if n < 0x1_0000 then
      [(0xE0 + n / 4096) as byte, (0x80 + (n / 64) % 64) as byte, (0x80 + n % 64) as byte]
    else
      [(0xF0 + n / 262144) as byte, (0x80 + (n / 4096) % 64) as byte,
       (0x80 + (n / 64) % 64) as byte, (0x80 + n % 64) as byte]
  }

  /** `s.encode("utf-8")` */
  function Utf8(s: string): seq<byte>
  {
    if s == [] then [] else Utf8Char(s[0]) + Utf8(s[1..])
  }

  /** The bytes `quote` leaves as they are: the unreserved characters of
      RFC 3986 and the default safe character `/`. */
  predicate IsSafeByte(b: byte) {
    ('A' as byte <= b <= 'Z' as byte) || ('a' as byte <= b <= 'z' as byte)
    || ('0' as byte <= b <= '9' as byte)
    || b == '_' as byte || b == '.' as byte || b == '-' as byte || b == '~' as byte
    || b == '/' as byte
  }

  function HexDigit(n: int): (c: char)
    requires 0 <= n < 16
  {
    if n < 10 then (48 + n) as char else (55 + n) as char
  }

  predicate IsHexDigit(c: char) {
    ('0' <= c <= '9') || ('A' <= c <= 'F') || ('a' <= c <= 'f')
  }

  function HexValue(c: char): (n: int)
    requires IsHexDigit(c)
    ensures 0 <= n < 16
  {
    if '0' <= c <= '9' then c as int - 48
    else if 'A' <= c <= 'F' then c as int - 55
    else c as int - 87
  }

  /** One byte as `quote` writes it. */
  function QuoteByte(b: byte): string
  {
    if IsSafeByte(b) then [b as int as char]
    else ['%', HexDigit(b as int / 16), HexDigit(b as int % 16)]
  }

  function QuoteBytes(bs: seq<byte>): string
  {
    if bs == [] then [] else QuoteByte(bs[0]) + QuoteBytes(bs[1..])
  }

  /** `urllib.parse.quote(s)`, one character's UTF-8 bytes at a time. */
  function Quote(s: string): string
  {
    if s == [] then [] else QuoteBytes(Utf8Char(s[0])) + Quote(s[1..])
  }

  lemma {:induction false} QuoteBytesAppend(a: seq<byte>, b: seq<byte>)
    ensures QuoteBytes(a + b) == QuoteBytes(a) + QuoteBytes(b)
  {
    if a != [] {
      assert (a + b)[1..] == a[1..] + b;
      QuoteBytesAppend(a[1..], b);
    } else {
      assert a + b == b;
    }
  }

  /** Quoting a string is percent-encoding its UTF-8 bytes. */
  lemma {:induction false} QuoteIsQuoteBytes(s: string)
    ensures Quote(s) == QuoteBytes(Utf8(s))
  {
    if s != [] {
      QuoteIsQuoteBytes(s[1..]);
      QuoteBytesAppend(Utf8Char(s[0]), Utf8(s[1..]));
    }
  }

  /** `urllib.parse.unquote_to_bytes(s)`: `%XX` with two hex digits becomes
      that byte, every other character its UTF-8 bytes. The partner of Quote. */
  function UnquoteToBytes(s: string): seq<byte>
  {
    if s == [] then []
    else if |s| >= 3 && s[0] == '%' && IsHexDigit(s[1]) && IsHexDigit(s[2]) then
      [(16 * HexValue(s[1]) + HexValue(s[2])) as byte] + UnquoteToBytes(s[3..])
    else Utf8Char(s[0]) + UnquoteToBytes(s[1..])
  }

  /** The characters that can appear in quoted text. */
  predicate IsQuotedChar(c: char) {
    (c as int < 0x80 && IsSafeByte(c as int as byte)) || c == '%'
  }

  lemma HexRoundTrip(n: int)
    requires 0 <= n < 16
    ensures IsHexDigit(HexDigit(n)) && HexValue(HexDigit(n)) == n
  {
  }

  lemma QuoteByteThenUnquote(b: byte, rest: string)
    ensures UnquoteToBytes(QuoteByte(b) + rest) == [b] + UnquoteToBytes(rest)
  {
    var q := QuoteByte(b);
    if IsSafeByte(b) {
      assert (q + rest)[0] == b as int as char && (q + rest)[1..] == rest;
    } else {
      HexRoundTrip(b as int / 16);
      HexRoundTrip(b as int % 16);
      assert (q + rest)[3..] == rest;
    }
  }

  /** Percent-decoding undoes the percent-encoding byte for byte. */
  lemma {:induction false} UnquoteQuoteBytes(bs: seq<byte>)
    ensures UnquoteToBytes(QuoteBytes(bs)) == bs
  {
    if bs != [] {
      QuoteByteThenUnquote(bs[0], QuoteBytes(bs[1..]));
      UnquoteQuoteBytes(bs[1..]);
    }
  }

  /** `unquote_to_bytes(quote(s))` gives back the UTF-8 bytes of `s`. */
  lemma QuoteRoundTrip(s: string)
    ensures UnquoteToBytes(Quote(s)) == Utf8(s)
  {
    QuoteIsQuoteBytes(s);
    UnquoteQuoteBytes(Utf8(s));
  }

  /** Quoted text is made of unreserved characters, `/` and `%` only, so it
      holds no `?`, `=`, `&`, `#` or space of its own. */
  lemma {:induction false} QuoteBytesAlphabet(bs: seq<byte>)
    ensures forall k :: 0 <= k < |QuoteBytes(bs)| ==> IsQuotedChar(QuoteBytes(bs)[k])
  {
    if bs != [] {
      QuoteBytesAlphabet(bs[1..]);
      var q, rest := QuoteByte(bs[0]), QuoteBytes(bs[1..]);
      assert forall k :: 0 <= k < |q| ==> IsQuotedChar(q[k]);
      assert QuoteBytes(bs) == q + rest;
      forall k | 0 <= k < |q + rest| ensures IsQuotedChar((q + rest)[k]) {
        if k >= |q| { assert (q + rest)[k] == rest[k - |q|]; }
      }
    }
  }

  lemma QuoteAlphabet(s: string)
    ensures forall k :: 0 <= k < |Quote(s)| ==> IsQuotedChar(Quote(s)[k])
  {
    QuoteIsQuoteBytes(s);
    QuoteBytesAlphabet(Utf8(s));
  }

  /** A string of unreserved characters and `/` is its own quoting. */
  lemma {:induction false} QuoteSafeIdentity(s: string)
    requires forall k :: 0 <= k < |s| ==> s[k] as int < 0x80 && IsSafeByte(s[k] as int as byte)
    ensures Quote(s) == s
  {
    if s != [] {
      QuoteSafeIdentity(s[1..]);
      assert QuoteBytes(Utf8Char(s[0])) == [s[0]];
    }
  }

  /** `base_url + urllib.parse.quote(payload)` */
  function TestUrl(base: string, payload: string): string
  {
    base + Quote(payload)
  }

  /** A test URL starts with the base, and the payload's UTF-8 bytes can be
      read back from the rest of it. */
  lemma TestUrlParts(base: string, payload: string)
    ensures var url := TestUrl(base, payload);
            |base| <= |url| && url[..|base|] == base
            && UnquoteToBytes(url[|base|..]) == Utf8(payload)
  {
    var url := TestUrl(base, payload);
    assert url[|base|..] == Quote(payload);
    QuoteRoundTrip(payload);
  }
}
