/**
 * The URI component codec the runtime package relies on: `encodeURIComponent`,
 * `decodeURIComponent` (which throws `URIError` on a malformed escape: `None` here) and the
 * `application/x-www-form-urlencoded` decoding behind `URLSearchParams.get`, which never fails.
 * Escapes carry UTF-8 bytes; characters are Unicode scalar values.
 */
module UriCodec {
  import opened Wrappers
  import opened Text

  /** The characters `encodeURIComponent` leaves as they are. */
  predicate Unreserved(c: char) {
    ('A' <= c <= 'Z') || ('a' <= c <= 'z') || ('0' <= c <= '9')
    || c == '-' || c == '_' || c == '.' || c == '!' || c == '~' || c == '*' || c == '\'' || c == '(' || c == ')'
  }

  predicate IsByte(b: nat) {
    b < 256
  }

  /** The UTF-8 encoding of one scalar value. */
  function Utf8(c: char): (bytes: seq<nat>)
    ensures 1 <= |bytes| <= 4
    ensures forall k :: 0 <= k < |bytes| ==> IsByte(bytes[k])
  {
    var cp := c as int;
    if cp < 0x80 then [cp]
    else if cp < 0x800 then [0xC0 + cp / 64, 0x80 + cp % 64]
    else if cp < 0x10000 then [0xE0 + cp / 4096, 0x80 + (cp / 64) % 64, 0x80 + cp % 64]
    else [0xF0 + cp / 262144, 0x80 + (cp / 4096) % 64, 0x80 + (cp / 64) % 64, 0x80 + cp % 64]
  }

  /** Upper-case hexadecimal digit, as `encodeURIComponent` writes them. */
  function HexDigit(d: nat): char
    requires d < 16
  {
    if d < 10 then ('0' as int + d) as char else ('A' as int + d - 10) as char
  }

  /** The value of a hexadecimal digit of either case. */
  function HexValue(c: char): (r: Option<nat>)
    ensures r.Some? ==> r.value < 16
  {
    if '0' <= c <= '9' then Some(c as int - '0' as int)
    else if 'A' <= c <= 'F' then Some(c as int - 'A' as int + 10)
    else if 'a' <= c <= 'f' then Some(c as int - 'a' as int + 10)
    else None
  }

  function Escape(b: nat): (e: string)
    requires IsByte(b)
    ensures |e| == 3 && e[0] == '%'
  {
    ['%', HexDigit(b / 16), HexDigit(b % 16)]
  }

  function EscapeBytes(bs: seq<nat>): (e: string)
    requires forall k :: 0 <= k < |bs| ==> IsByte(bs[k])
    ensures |e| == 3 * |bs|
  {
    if bs == [] then [] else Escape(bs[0]) + EscapeBytes(bs[1..])
  }

  function EncodeChar(c: char): string {
    if Unreserved(c) then [c] else EscapeBytes(Utf8(c))
  }

  /** `encodeURIComponent(s)` */
  function EncodeURIComponent(s: string): string {
    if s == [] then [] else EncodeChar(s[0]) + EncodeURIComponent(s[1..])
  }

  /** The byte written as `%HH` at the start of `s`, if any. */
  function EscapedByte(s: string): (r: Option<nat>)
    ensures r.Some? ==> IsByte(r.value)
  {
    if |s| >= 3 && s[0] == '%' && HexValue(s[1]).Some? && HexValue(s[2]).Some? then
      Some(16 * HexValue(s[1]).value + HexValue(s[2]).value)
    else None
  }

  /**
   * The length of the UTF-8 sequence a lead byte opens (the number of its leading one bits,
   * 1 for an ASCII byte); 0 when the byte cannot lead a sequence (one or more than four
   * leading one bits).
   */
  function SequenceLength(b: nat): nat {
    if b < 0x80 then 1
    else if b < 0xC0 then 0
    else if b < 0xE0 then 2
    else if b < 0xF0 then 3
    else if b < 0xF8 then 4
    else 0
  }

  /**
   * Reads `k` escaped continuation bytes (each `10xxxxxx`) at the start of `s`, shifting the
   * six payload bits of each into `acc`.
   */
  function ContinuationBits(s: string, k: nat, acc: nat): (r: Option<nat>)
    ensures r.Some? ==> 3 * k <= |s|
  {
    if k == 0 then Some(acc)
    else
      match EscapedByte(s)
      case None => None
      case Some(b) =>
        if b < 0x80 || 0xC0 <= b then None
        else ContinuationBits(s[3..], k - 1, acc * 64 + (b - 0x80))
  }

  /** A code point is valid for an `n`-byte sequence when that is its shortest encoding and it is not a surrogate. */
  predicate ValidForLength(cp: int, n: nat) {
    if n == 2 then 0x80 <= cp < 0x800
    else if n == 3 then 0x800 <= cp < 0x10000 && !(0xD800 <= cp < 0xE000)
    else n == 4 && 0x10000 <= cp < 0x11_0000
  }

  /**
   * One escaped UTF-8 sequence at the start of `s`: the character it denotes and the number of
   * characters of `s` it spans; `None` where `decodeURIComponent` throws `URIError`.
   */
  function DecodeEscapeGroup(s: string): (r: Option<(char, nat)>)
    ensures r.Some? ==> 3 <= r.value.1 <= |s|
  {
    match EscapedByte(s)
    case None => None
    case Some(b0) =>
      var n := SequenceLength(b0);
      if n == 0 then None
      else if n == 1 then Some((b0 as char, 3))
      else
        match ContinuationBits(s[3..], n - 1, LeadBits(b0))
        case None => None
        case Some(cp) =>
          if ValidForLength(cp, n) then Some((cp as char, 3 * n)) else None
  }

  /** `decodeURIComponent(s)`; `None` where it throws `URIError`. */
  function DecodeURIComponent(s: string): Option<string>
    decreases |s|
  {
    if s == [] then Some([])
    else if s[0] != '%' then
      match DecodeURIComponent(s[1..])
      case None => None
      case Some(t) => Some([s[0]] + t)
    else
      match DecodeEscapeGroup(s)
      case None => None
      case Some((c, n)) =>
        match DecodeURIComponent(s[n..])
        case None => None
        case Some(t) => Some([c] + t)
  }

  /** The least byte a UTF-8 decoder accepts right after lead byte `b0` (the WHATWG Encoding Standard, section 9.1.1). */
  function SecondLow(b0: nat): nat {
    if b0 == 0xE0 then 0xA0 else if b0 == 0xF0 then 0x90 else 0x80
  }

  /** The greatest byte a UTF-8 decoder accepts right after lead byte `b0`. */
  function SecondHigh(b0: nat): nat {
    if b0 == 0xED then 0x9F else if b0 == 0xF4 then 0x8F else 0xBF
  }

  /**
   * How many of at most `k` escaped bytes at the start of `s` a UTF-8 decoder accepts as
   * continuation bytes, the first within `lo..hi` and the others within `0x80..0xBF`.
   */
  function AcceptedContinuations(s: string, k: nat, lo: nat, hi: nat): (c: nat)
    ensures c <= k && 3 * c <= |s|
    ensures c > 0 ==> EscapedByte(s).Some? && lo <= EscapedByte(s).value <= hi
  {
    if k == 0 then 0
    else
      match EscapedByte(s)
      case None => 0
      case Some(b) => if lo <= b <= hi then 1 + AcceptedContinuations(s[3..], k - 1, 0x80, 0xBF) else 0
  }

  /**
   * The number of escapes a UTF-8 decoder consumes for one ill-formed sequence at the start of
   * `s` (its maximal subpart): the lead byte, when it can lead a sequence, with the continuation
   * bytes accepted after it; the byte that breaks the sequence is read again.
   */
  function IllFormedSpan(s: string): (m: nat)
    requires EscapedByte(s).Some?
    ensures 1 <= m <= 4 && 3 * m <= |s|
    ensures m > 1 ==> 0xC2 <= EscapedByte(s).value <= 0xF4
  {
    var b0 := EscapedByte(s).value;
    if b0 < 0xC2 || 0xF4 < b0 then 1
    else 1 + AcceptedContinuations(s[3..], SequenceLength(b0) - 1, SecondLow(b0), SecondHigh(b0))
  }

  /**
   * Percent-decoding of a name or value of `application/x-www-form-urlencoded` data:
   * `+` is a space, an escaped UTF-8 sequence is its character, the escapes of each maximal
   * subpart of an ill-formed sequence are one U+FFFD, and a `%` without two hexadecimal digits
   * stays as it is.
   */
  function FormDecode(s: string): (r: string)
    ensures |r| <= |s|
    decreases |s|
  {
    if s == [] then []
    else if s[0] == '+' then " " + FormDecode(s[1..])
    else if EscapedByte(s).Some? then
      match DecodeEscapeGroup(s)
      case Some((c, n)) => [c] + FormDecode(s[n..])
      case None => "\U{FFFD}" + FormDecode(s[3 * IllFormedSpan(s)..])
    else [s[0]] + FormDecode(s[1..])
  }

  /** The value of the first pair named `name` among `&`-separated pairs; empty pairs are skipped. */
  function FirstValue(pairs: seq<string>, name: string): Option<string> {
    if pairs == [] then None
    else if pairs[0] == [] then FirstValue(pairs[1..], name)
    else
      var p := pairs[0];
      var i := IndexOfChar(p, '=');
      var v := if i < |p| then FormDecode(p[i + 1..]) else "";
      if FormDecode(p[..i]) == name then Some(v) else FirstValue(pairs[1..], name)
  }

  /** `new URLSearchParams(query).get(name)`; a leading `?` of the query is dropped. */
  function SearchParamsGet(query: string, name: string): Option<string> {
    var q := if query != [] && query[0] == '?' then query[1..] else query;
    FirstValue(Split(q, '&'), name)
  }

  // ---------------------------------------------------------------------------------------
  // Round trips

  lemma HexRoundTrip(d: nat)
    requires d < 16
    ensures HexValue(HexDigit(d)) == Some(d)
  {
  }

  lemma {:induction false} EscapedByteOfEscape(b: nat, rest: string)
    requires IsByte(b)
    ensures EscapedByte(Escape(b) + rest) == Some(b)
  {
    HexRoundTrip(b / 16);
    HexRoundTrip(b % 16);
  }

  /** The value `ContinuationBits` accumulates from the payload bits of `bs`. */
  function Shifted(acc: nat, bs: seq<nat>): nat
    requires forall k :: 0 <= k < |bs| ==> 0x80 <= bs[k]
    decreases |bs|
  {
    if bs == [] then acc else Shifted(acc * 64 + (bs[0] - 0x80), bs[1..])
  }

  /** Reading the escapes of continuation bytes back. */
  lemma {:induction false} ContinuationOfEscapes(bs: seq<nat>, rest: string, acc: nat)
    requires forall k :: 0 <= k < |bs| ==> 0x80 <= bs[k] < 0xC0
    ensures ContinuationBits(EscapeBytes(bs) + rest, |bs|, acc) == Some(Shifted(acc, bs))
    decreases |bs|
  {
    if bs != [] {
      var s := EscapeBytes(bs) + rest;
      assert s == Escape(bs[0]) + (EscapeBytes(bs[1..]) + rest);
      EscapedByteOfEscape(bs[0], EscapeBytes(bs[1..]) + rest);
      assert s[3..] == EscapeBytes(bs[1..]) + rest;
      ContinuationOfEscapes(bs[1..], rest, acc * 64 + (bs[0] - 0x80));
    }
  }

  /** The payload bits of the lead byte of a multi-byte encoding. */
  function LeadBits(b0: nat): nat
    requires b0 >= 0xC0
  {
    if b0 < 0xE0 then b0 - 0xC0 else if b0 < 0xF0 then b0 - 0xE0 else b0 - 0xF0
  }

  /** The bits of a multi-byte encoding reassemble the code point. */
  lemma Utf8Bits(c: char)
    requires c as int >= 0x80
    ensures SequenceLength(Utf8(c)[0]) == |Utf8(c)|
    ensures Shifted(LeadBits(Utf8(c)[0]), Utf8(c)[1..]) == c as int
  {
    var cp := c as int;
    if cp < 0x800 {
      TwoByteBits(cp, Utf8(c));
    } else if cp < 0x10000 {
      ThreeByteBits(cp, Utf8(c));
    } else {
      FourByteBits(cp, Utf8(c));
    }
  }

  lemma TwoByteBits(cp: int, bs: seq<nat>)
    requires 0x80 <= cp < 0x800
    requires bs == [0xC0 + cp / 64, 0x80 + cp % 64]
    ensures SequenceLength(bs[0]) == 2
    ensures Shifted(LeadBits(bs[0]), bs[1..]) == cp
  {
    assert bs[1..] == [0x80 + cp % 64];
    assert Shifted(LeadBits(bs[0]), bs[1..]) == (cp / 64) * 64 + cp % 64;
  }

  lemma ThreeByteBits(cp: int, bs: seq<nat>)
    requires 0x800 <= cp < 0x10000
    requires bs == [0xE0 + cp / 4096, 0x80 + (cp / 64) % 64, 0x80 + cp % 64]
    ensures SequenceLength(bs[0]) == 3
    ensures Shifted(LeadBits(bs[0]), bs[1..]) == cp
  {
    var hi := cp / 64;
    assert hi == (cp / 4096) * 64 + hi % 64;
    assert bs[1..][1..] == [0x80 + cp % 64];
    assert Shifted(LeadBits(bs[0]), bs[1..]) == Shifted(hi, [0x80 + cp % 64]);
    assert Shifted(hi, [0x80 + cp % 64]) == hi * 64 + cp % 64;
  }

  lemma FourByteBits(cp: int, bs: seq<nat>)
    requires 0x10000 <= cp < 0x11_0000
    requires bs == [0xF0 + cp / 262144, 0x80 + (cp / 4096) % 64, 0x80 + (cp / 64) % 64, 0x80 + cp % 64]
    ensures SequenceLength(bs[0]) == 4
    ensures Shifted(LeadBits(bs[0]), bs[1..]) == cp
  {
    var top := cp / 4096;
    var hi := cp / 64;
    assert top == (cp / 262144) * 64 + top % 64;
    assert hi == top * 64 + hi % 64;
    assert bs[1..][1..] == [0x80 + hi % 64, 0x80 + cp % 64];
    assert bs[1..][1..][1..] == [0x80 + cp % 64];
    assert Shifted(LeadBits(bs[0]), bs[1..]) == Shifted(top, [0x80 + hi % 64, 0x80 + cp % 64]);
    assert Shifted(top, [0x80 + hi % 64, 0x80 + cp % 64]) == Shifted(hi, [0x80 + cp % 64]);
    assert Shifted(hi, [0x80 + cp % 64]) == hi * 64 + cp % 64;
  }

  /** An escaped character is read back as one escape group spanning exactly its escapes. */
  lemma {:induction false} DecodeEncodedChar(c: char, rest: string)
    requires !Unreserved(c)
    ensures DecodeEscapeGroup(EncodeChar(c) + rest) == Some((c, |EncodeChar(c)|))
  {
    var bs := Utf8(c);
    var s := EscapeBytes(bs) + rest;
    assert EncodeChar(c) == EscapeBytes(bs);
    assert s == Escape(bs[0]) + (EscapeBytes(bs[1..]) + rest);
    EscapedByteOfEscape(bs[0], EscapeBytes(bs[1..]) + rest);
    assert s[3..] == EscapeBytes(bs[1..]) + rest;
    if c as int >= 0x80 {
      Utf8Bits(c);
      ContinuationOfEscapes(bs[1..], rest, LeadBits(bs[0]));
    }
  }

  /** `decodeURIComponent(encodeURIComponent(s)) == s` for every string. */
  lemma {:induction false} DecodeEncode(s: string)
    ensures DecodeURIComponent(EncodeURIComponent(s)) == Some(s)
  {
    if s != [] {
      var e := EncodeURIComponent(s);
      var rest := EncodeURIComponent(s[1..]);
      assert e == EncodeChar(s[0]) + rest;
      DecodeEncode(s[1..]);
      if Unreserved(s[0]) {
        assert e[0] == s[0] && e[1..] == rest;
      } else {
        DecodeEncodedChar(s[0], rest);
        assert e[0] == '%';
        assert e[|EncodeChar(s[0])|..] == rest;
      }
      assert [s[0]] + s[1..] == s;
    }
  }

  /** A prefix free of `%` decodes to itself, whatever follows it. */
  lemma {:induction false} DecodePlainPrefix(a: string, b: string)
    requires '%' !in a
    ensures DecodeURIComponent(a + b) ==
      match DecodeURIComponent(b) case Some(t) => Some(a + t) case None => None
  {
    if a != [] {
      assert (a + b)[0] == a[0] && (a + b)[1..] == a[1..] + b;
      DecodePlainPrefix(a[1..], b);
      match DecodeURIComponent(b) {
        case Some(t) => assert [a[0]] + (a[1..] + t) == a + t;
        case None =>
      }
    } else {
      assert a + b == b;
      match DecodeURIComponent(b) {
        case Some(t) => assert a + t == t;
        case None =>
      }
    }
  }

  /** Text free of `%` and `+` is its own form decoding. */
  lemma {:induction false} FormDecodePlain(s: string)
    requires '%' !in s && '+' !in s
    ensures FormDecode(s) == s
  {
    if s != [] {
      FormDecodePlain(s[1..]);
    }
  }

  /** An escaped byte that cannot lead a sequence (a stray continuation byte, say) is one U+FFFD on its own. */
  lemma FormDecodeStrayByte(b: nat, rest: string)
    requires IsByte(b) && SequenceLength(b) == 0
    ensures FormDecode(Escape(b) + rest) == "\U{FFFD}" + FormDecode(rest)
  {
    var e := Escape(b) + rest;
    EscapedByteOfEscape(b, rest);
    assert e[3..] == rest;
  }

  /** A three-byte sequence cut short after its second byte is a single U+FFFD; the next character stays. */
  lemma FormDecodeTruncatedSequence()
    ensures FormDecode("%E2%82A") == "\U{FFFD}A"
  {
    var s := "%E2%82A";
    assert EscapedByte(s) == Some(0xE2);
    assert s[3..] == "%82A" && s[3..][3..] == "A";
    assert EscapedByte("%82A") == Some(0x82);
    assert EscapedByte("A").None?;
    assert IllFormedSpan(s) == 2;
    assert s[6..] == "A";
  }

  /** The value of a lone `name=value` pair is read back, form-decoded. */
  lemma {:induction false} SearchParamsGetPair(name: string, value: string)
    requires name != [] && name[0] != '?'
    requires '=' !in name
    requires '&' !in name && '%' !in name && '+' !in name
    requires '&' !in value
    ensures SearchParamsGet(name + "=" + value, name) == Some(FormDecode(value))
  {
    var p := name + "=" + value;
    assert '&' !in p;
    assert Split(p, '&') == [p] by {
      assert IndexOfChar(p, '&') == |p|;
    }
    assert IndexOfChar(p, '=') == |name| by {
      assert p[|name|] == '=';
      assert forall j :: 0 <= j < |name| ==> p[j] == name[j];
    }
    assert p[..|name|] == name;
    assert p[|name| + 1..] == value;
    FormDecodePlain(name);
  }

  /** The value of a lone `name=value` pair is read back when neither part needs decoding. */
  lemma SearchParamsGetSingle(name: string, value: string)
    requires name != [] && name[0] != '?'
    requires '=' !in name
    requires '&' !in name && '%' !in name && '+' !in name
    requires '&' !in value && '%' !in value && '+' !in value
    ensures SearchParamsGet(name + "=" + value, name) == Some(value)
  {
    SearchParamsGetPair(name, value);
    FormDecodePlain(value);
  }

  /** `encodeURIComponent` writes only unreserved characters and `%`. */
  lemma {:induction false} EncodedAlphabet(s: string)
    ensures forall k :: 0 <= k < |EncodeURIComponent(s)| ==> Unreserved(EncodeURIComponent(s)[k]) || EncodeURIComponent(s)[k] == '%'
  {
    if s != [] {
      EncodedAlphabet(s[1..]);
      EscapesAlphabet(Utf8(s[0]));
    }
  }

  lemma {:induction false} EscapesAlphabet(bs: seq<nat>)
    requires forall k :: 0 <= k < |bs| ==> IsByte(bs[k])
    ensures forall k :: 0 <= k < |EscapeBytes(bs)| ==> Unreserved(EscapeBytes(bs)[k]) || EscapeBytes(bs)[k] == '%'
  {
    if bs != [] {
      EscapesAlphabet(bs[1..]);
    }
  }

  /** One encoded character is form-decoded back, whatever follows it. */
  lemma FormDecodeEncodedChar(c: char, rest: string)
    ensures FormDecode(EncodeChar(c) + rest) == [c] + FormDecode(rest)
  {
    if Unreserved(c) {
      FormDecodeUnreserved(c, rest);
    } else {
      FormDecodeEscaped(c, rest);
    }
  }

  lemma FormDecodeUnreserved(c: char, rest: string)
    requires Unreserved(c)
    ensures FormDecode([c] + rest) == [c] + FormDecode(rest)
  {
    var e := [c] + rest;
    assert e[0] == c && e[1..] == rest;
    assert EscapedByte(e).None?;
  }

  lemma FormDecodeEscaped(c: char, rest: string)
    requires !Unreserved(c)
    ensures FormDecode(EncodeChar(c) + rest) == [c] + FormDecode(rest)
  {
    var e := EncodeChar(c) + rest;
    DecodeEncodedChar(c, rest);
    var bs := Utf8(c);
    EscapedByteOfEscape(bs[0], EscapeBytes(bs[1..]) + rest);
    assert e == Escape(bs[0]) + (EscapeBytes(bs[1..]) + rest);
    assert e[0] == '%';
    assert EscapedByte(e).Some?;
    assert DecodeEscapeGroup(e) == Some((c, |EncodeChar(c)|));
    FormDecodeGroup(e, c, |EncodeChar(c)|);
    assert e[|EncodeChar(c)|..] == rest;
  }

  /** A well-formed escaped sequence is form-decoded to its character. */
  lemma FormDecodeGroup(s: string, c: char, n: nat)
    requires EscapedByte(s).Some? && DecodeEscapeGroup(s) == Some((c, n))
    ensures FormDecode(s) == [c] + FormDecode(s[n..])
  {
  }

  /** Form decoding reads back what `encodeURIComponent` wrote, as `decodeURIComponent` does. */
  lemma {:induction false} FormDecodeEncode(s: string)
    ensures FormDecode(EncodeURIComponent(s)) == s
  {
    if s != [] {
      FormDecodeEncode(s[1..]);
      FormDecodeEncodedChar(s[0], EncodeURIComponent(s[1..]));
      assert [s[0]] + s[1..] == s;
    }
  }
}
