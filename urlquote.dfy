/** `urllib.parse.quote(s)` with its default `safe='/'`: the string is
    encoded as UTF-8 and every byte outside the unreserved set of section
    2.3 of RFC 3986, plus `/`, is written as a percent-encoded octet
    (section 2.1 of RFC 3986) with uppercase hexadecimal digits. A
    percent-decoder is the partner of the encoder. */
module UrlQuote {

  import opened PyJson

  type byte = x: int | 0 <= x < 256

  // ---------------------------------------------------------------------
  // UTF-8
  // ---------------------------------------------------------------------

  /** The UTF-8 bytes of one Unicode scalar value. */
  function EncodeChar(c: char): (r: seq<byte>)
    ensures 1 <= |r| <= 4
    ensures c as int < 128 <==> |r| == 1
    ensures c as int < 128 ==> r == [c as int]
    ensures c as int >= 128 ==> forall k :: 0 <= k < |r| ==> r[k] >= 128
  {
    var n := c as int;
    if n < 0x80 then [n]
    else if n < 0x800 then [0xC0 + n / 0x40, 0x80 + n % 0x40]
    else if n < 0x1_0000 then [0xE0 + n / 0x1000, 0x80 + n / 0x40 % 0x40, 0x80 + n % 0x40]
    else [0xF0 + n / 0x4_0000, 0x80 + n / 0x1000 % 0x40, 0x80 + n / 0x40 % 0x40, 0x80 + n % 0x40]
  }

  /** The scalar value whose UTF-8 encoding is `bs`: its length says how
      many marker bits the lead byte carries, and each continuation byte
      gives six more bits. */
  function DecodeChar(bs: seq<byte>): int
    requires 1 <= |bs| <= 4
  {
    var b: seq<int> := bs;
    if |b| == 1 then b[0]
    else if |b| == 2 then (b[0] - 0xC0) * 0x40 + (b[1] - 0x80)
    else if |b| == 3 then ((b[0] - 0xE0) * 0x40 + (b[1] - 0x80)) * 0x40 + (b[2] - 0x80)
    else (((b[0] - 0xF0) * 0x40 + (b[1] - 0x80)) * 0x40 + (b[2] - 0x80)) * 0x40 + (b[3] - 0x80)
  }

  /** The three 6-bit groups of a value below 0x1_0000 put back together. */
  lemma ThreeGroups(n: int)
    requires 0 <= n
    ensures (n / 0x1000 * 0x40 + n / 0x40 % 0x40) * 0x40 + n % 0x40 == n
  {
    assert n / 0x40 == n / 0x1000 * 0x40 + n / 0x40 % 0x40;
  }

  /** The four 6-bit groups of a value put back together. */
  lemma FourGroups(n: int)
    requires 0 <= n
    ensures ((n / 0x4_0000 * 0x40 + n / 0x1000 % 0x40) * 0x40 + n / 0x40 % 0x40) * 0x40 + n % 0x40 == n
  {
    ThreeGroups(n / 0x40);
    assert n / 0x40 / 0x1000 == n / 0x4_0000 && n / 0x40 / 0x40 == n / 0x1000;
  }

  /** Decoding a character's bytes gives the character back. */
  lemma DecodeEncodeChar(c: char)
    ensures DecodeChar(EncodeChar(c)) == c as int
  {
    var n := c as int;
    if 0x800 <= n < 0x1_0000 {
      ThreeGroups(n);
    } else if n >= 0x1_0000 {
      FourGroups(n);
    }
  }

  /** `s.encode("utf-8")`. */
  function Utf8(s: string): seq<byte>
    decreases |s|
  {
    if s == [] then [] else EncodeChar(s[0]) + Utf8(s[1..])
  }

  lemma {:induction false} Utf8Concat(a: string, b: string)
    ensures Utf8(a + b) == Utf8(a) + Utf8(b)
    decreases |a|
  {
    if a == [] {
      assert a + b == b;
    } else {
      assert (a + b)[1..] == a[1..] + b;
      Utf8Concat(a[1..], b);
    }
  }

  // ---------------------------------------------------------------------
  // Percent-encoding
  // ---------------------------------------------------------------------

  /** The bytes `quote` leaves as they are: ASCII letters, digits,
      `_ . - ~` and the default safe character `/`. */
  predicate SafeByte(b: byte) {
    || ('A' as int <= b <= 'Z' as int)
    || ('a' as int <= b <= 'z' as int)
    || ('0' as int <= b <= '9' as int)
    || b == '_' as int || b == '.' as int || b == '-' as int || b == '~' as int
    || b == '/' as int
  }

  predicate SafeChar(c: char) {
    c as int < 256 && SafeByte(c as int)
  }

  /** The uppercase hexadecimal digit of `d`. */
  function HexDigit(d: nat): (c: char)
    requires d < 16
    ensures '0' <= c <= '9' || 'A' <= c <= 'F'
  {
    if d < 10 then ('0' as int + d) as char else ('A' as int + d - 10) as char
  }

  predicate IsHex(c: char) {
    '0' <= c <= '9' || 'A' <= c <= 'F' || 'a' <= c <= 'f'
  }

  function HexValue(c: char): (d: nat)
    requires IsHex(c)
    ensures d < 16
  {
    if '0' <= c <= '9' then c as int - '0' as int
    else if 'A' <= c <= 'F' then c as int - 'A' as int + 10
    else c as int - 'a' as int + 10
  }

  /** One byte's text: itself when safe, `%XX` otherwise. */
  function QuoteByte(b: byte): (r: string)
    ensures SafeByte(b) ==> r == [b as char]
    ensures !SafeByte(b) ==> |r| == 3 && r[0] == '%' && r[1] == HexDigit(b / 16) && r[2] == HexDigit(b % 16)
  {
    if SafeByte(b) then [b as char] else ['%', HexDigit(b / 16), HexDigit(b % 16)]
  }

  /** `quote` applied to the bytes of a string. */
  function Quote(bs: seq<byte>): string
    decreases |bs|
  {
    if bs == [] then [] else QuoteByte(bs[0]) + Quote(bs[1..])
  }

  /** Percent-decoding: `%` and two hexadecimal digits (either case) stand
      for one byte, and any other ASCII character for its own code. A `%`
      without two hexadecimal digits after it, or a character outside
      ASCII, is not valid percent-encoded text. */
  function Unquote(s: string): Option<seq<byte>>
    decreases |s|
  {
    if s == [] then Some([])
    else if s[0] == '%' then
      if |s| >= 3 && IsHex(s[1]) && IsHex(s[2]) then
        match Unquote(s[3..])
        case None => None
        case Some(rest) => Some([HexValue(s[1]) * 16 + HexValue(s[2])] + rest)
      else None
    else if s[0] as int < 128 then
      match Unquote(s[1..])
      case None => None
      case Some(rest) => Some([s[0] as int] + rest)
    else None
  }

  lemma HexRoundTrip(b: byte)
    ensures HexValue(HexDigit(b / 16)) * 16 + HexValue(HexDigit(b % 16)) == b
  {
  }

  /** Percent-decoding the text of `quote` gives back the bytes. */
  lemma {:induction false} UnquoteQuote(bs: seq<byte>)
    ensures Unquote(Quote(bs)) == Some(bs)
    decreases |bs|
  {
    if bs != [] {
      UnquoteQuote(bs[1..]);
      var head, tail := QuoteByte(bs[0]), Quote(bs[1..]);
      var s := head + tail;
      if SafeByte(bs[0]) {
        assert s[0] == bs[0] as char && s[1..] == tail;
      } else {
        HexRoundTrip(bs[0]);
        assert s[..3] == head && s[3..] == tail;
      }
      assert bs == [bs[0]] + bs[1..];
    }
  }

  /** The number of safe bytes. */
  function SafeCount(bs: seq<byte>): (n: nat)
    ensures n <= |bs|
    decreases |bs|
  {
    if bs == [] then 0 else (if SafeByte(bs[0]) then 1 else 0) + SafeCount(bs[1..])
  }

  /** Every safe byte takes one character, every other byte three. */
  lemma {:induction false} QuoteLength(bs: seq<byte>)
    ensures |Quote(bs)| == SafeCount(bs) + 3 * (|bs| - SafeCount(bs))
    decreases |bs|
  {
    if bs != [] {
      QuoteLength(bs[1..]);
    }
  }

  /** The text contains only safe characters, `%` and uppercase
      hexadecimal digits; in particular none of the delimiters `? & = :`
      that would split the query string it is put into. */
  lemma {:induction false} QuoteAlphabet(bs: seq<byte>)
    ensures forall k :: 0 <= k < |Quote(bs)| ==>
      SafeChar(Quote(bs)[k]) || Quote(bs)[k] == '%' || 'A' <= Quote(bs)[k] <= 'F'
    ensures forall k :: 0 <= k < |Quote(bs)| ==>
      Quote(bs)[k] != '?' && Quote(bs)[k] != '&' && Quote(bs)[k] != '=' && Quote(bs)[k] != ':'
    decreases |bs|
  {
    if bs != [] {
      QuoteAlphabet(bs[1..]);
      var head, tail := QuoteByte(bs[0]), Quote(bs[1..]);
      assert forall k :: |head| <= k < |head| + |tail| ==> (head + tail)[k] == tail[k - |head|];
    }
  }

  /** Quoting works byte by byte, so it distributes over concatenation. */
  lemma {:induction false} QuoteConcat(a: seq<byte>, b: seq<byte>)
    ensures Quote(a + b) == Quote(a) + Quote(b)
    decreases |a|
  {
    if a == [] {
      assert a + b == b;
    } else {
      assert (a + b)[1..] == a[1..] + b;
      QuoteConcat(a[1..], b);
    }
  }

  predicate SafeText(s: string) {
    forall k :: 0 <= k < |s| ==> SafeChar(s[k])
  }

  /** A string made only of safe characters is left unchanged. */
  lemma {:induction false} QuoteSafeText(s: string)
    requires SafeText(s)
    ensures Quote(Utf8(s)) == s
    decreases |s|
  {
    if s != [] {
      var c, tail := s[0], s[1..];
      assert SafeChar(c);
      var b: byte := c as int;
      assert EncodeChar(c) == [b];
      var rest := Utf8(tail);
      assert Utf8(s) == [b] + rest;
      assert SafeText(tail) by {
        forall k | 0 <= k < |tail| ensures SafeChar(tail[k]) {
          assert tail[k] == s[k + 1];
        }
      }
      QuoteSafeText(tail);
      assert ([b] + rest)[0] == b && ([b] + rest)[1..] == rest;
      assert Quote([b] + rest) == QuoteByte(b) + Quote(rest);
      assert s == [c] + tail;
    }
  }

  /** Quoting a string distributes over concatenation. */
  lemma QuoteTextConcat(a: string, b: string)
    ensures Quote(Utf8(a + b)) == Quote(Utf8(a)) + Quote(Utf8(b))
  {
    Utf8Concat(a, b);
    QuoteConcat(Utf8(a), Utf8(b));
  }

  /** An ASCII character is quoted as its one byte is. */
  lemma QuoteAsciiChar(c: char)
    requires c as int < 128
    ensures Quote(Utf8([c])) == QuoteByte(c as int)
  {
    assert [c][1..] == [];
    assert Utf8([c]) == [c as int];
    assert [c as int][1..] == [];
  }

  lemma QuoteAppendChar(s: string, c: char)
    requires c as int < 128
    ensures Quote(Utf8(s + [c])) == Quote(Utf8(s)) + QuoteByte(c as int)
  {
    QuoteAsciiChar(c);
    QuoteTextConcat(s, [c]);
  }

  lemma QuoteAppendSafe(s: string, t: string)
    requires SafeText(t)
    ensures Quote(Utf8(s + t)) == Quote(Utf8(s)) + t
  {
    QuoteSafeText(t);
    QuoteTextConcat(s, t);
  }
}
