/** `encodeURIComponent` and its inverse `decodeURIComponent` (ECMA-262, section 19.2.6,
    URI Handling Functions), over strings of Unicode scalar values. */
module UriEncoding {
  import opened Js

  /** The uriMark characters, which pass through unescaped with letters and digits. */
  const UriMarks: set<char> := {'-', '_', '.', '!', '~', '*', '\'', '(', ')'}

  /** uriUnreserved: ASCII letters, decimal digits and the uriMark characters. */
  predicate IsUnreserved(c: char) {
    'a' <= c <= 'z' || 'A' <= c <= 'Z' || '0' <= c <= '9' || c in UriMarks
  }

  /** The hexadecimal digits, upper case as encoding writes them. */
  const UpperHexDigits := "0123456789ABCDEF"

  /** True for a character of `UpperHexDigits`. */
  predicate IsUpperHexDigit(c: char) {
    '0' <= c <= '9' || 'A' <= c <= 'F'
  }

  lemma UpperHexDigitsListed(c: char)
    ensures IsUpperHexDigit(c) <==> c in UpperHexDigits
  {
    if IsUpperHexDigit(c) {
      var d := if c <= '9' then c as int - '0' as int else c as int - 'A' as int + 10;
      assert UpperHexDigits[d] == c;
    }
  }

  /** The upper-case hexadecimal digit of `d`. */
  function HexDigit(d: nat): (c: char)
    requires d < 16
    ensures c == UpperHexDigits[d] && IsUpperHexDigit(c)
    ensures IsUnreserved(c) && c != '%'
  {
    if d < 10 then ('0' as int + d) as char else ('A' as int + d - 10) as char
  }

  /** The value of a hexadecimal digit of either case. */
  function HexValue(c: char): (r: Nullable<nat>)
    ensures r.NonNull? ==> r.value < 16
  {
    if '0' <= c <= '9' then NonNull(c as int - '0' as int)
    else if 'A' <= c <= 'F' then NonNull(c as int - 'A' as int + 10)
    else if 'a' <= c <= 'f' then NonNull(c as int - 'a' as int + 10)
    else Null
  }

  lemma HexRoundTrip(d: nat)
    requires d < 16
    ensures HexValue(HexDigit(d)) == NonNull(d)
  {
  }

  /** The UTF-8 encoding of a code point, most significant byte first. */
  function Utf8Bytes(cp: nat): (r: seq<nat>)
    requires cp <= 0x10FFFF
    ensures 1 <= |r| <= 4
    ensures forall i :: 0 <= i < |r| ==> r[i] < 0x100
    ensures forall i :: 1 <= i < |r| ==> 0x80 <= r[i] < 0xC0
  {
    if cp < 0x80 then [cp]
    else if cp < 0x800 then [0xC0 + cp / 0x40, 0x80 + cp % 0x40]
    else if cp < 0x1_0000 then [0xE0 + cp / 0x1000, 0x80 + (cp / 0x40) % 0x40, 0x80 + cp % 0x40]
    else [0xF0 + cp / 0x4_0000, 0x80 + (cp / 0x1000) % 0x40, 0x80 + (cp / 0x40) % 0x40, 0x80 + cp % 0x40]
  }

  /** True when every character is unreserved or the `%` that starts an escape. */
  predicate IsEncodedText(r: string) {
    forall i :: 0 <= i < |r| ==> IsUnreserved(r[i]) || r[i] == '%'
  }

  lemma EncodedTextConcat(a: string, b: string)
    requires IsEncodedText(a) && IsEncodedText(b)
    ensures IsEncodedText(a + b)
  {
    assert forall i :: |a| <= i < |a + b| ==> (a + b)[i] == b[i - |a|];
  }

  /** True when every `%` is followed by two upper-case hexadecimal digits. */
  predicate HasUpperEscapes(r: string) {
    forall i :: 0 <= i < |r| && r[i] == '%' ==>
      i + 2 < |r| && IsUpperHexDigit(r[i + 1]) && IsUpperHexDigit(r[i + 2])
  }

  lemma UpperEscapesConcat(a: string, b: string)
    requires HasUpperEscapes(a) && HasUpperEscapes(b)
    ensures HasUpperEscapes(a + b)
  {
    forall i | 0 <= i < |a + b| && (a + b)[i] == '%'
      ensures i + 2 < |a + b| && IsUpperHexDigit((a + b)[i + 1]) && IsUpperHexDigit((a + b)[i + 2])
    {
      if i < |a| {
        assert a[i] == '%';
      } else {
        assert b[i - |a|] == '%';
      }
    }
  }

  /** `%XX` for one byte. */
  function Escape(b: nat): (r: string)
    requires b < 0x100
    ensures |r| == 3 && r[0] == '%' && IsEncodedText(r)
  {
    ['%', HexDigit(b / 16), HexDigit(b % 16)]
  }

  predicate AllBytes(bs: seq<nat>) {
    forall i :: 0 <= i < |bs| ==> bs[i] < 0x100
  }

  /** The escapes of a byte sequence, one after another. */
  function EscapeAll(bs: seq<nat>): (r: string)
    requires AllBytes(bs)
    ensures |r| == 3 * |bs|
    ensures IsEncodedText(r)
  {
    if |bs| == 0 then []
    else
      var head := Escape(bs[0]);
      var tail := EscapeAll(bs[1..]);
      EncodedTextConcat(head, tail);
      head + tail
  }

  /** An escape writes its two digits in upper case. */
  lemma EscapeUpper(b: nat)
    requires b < 0x100
    ensures IsUpperHexDigit(Escape(b)[1]) && IsUpperHexDigit(Escape(b)[2])
    ensures HasUpperEscapes(Escape(b))
  {
    var r := Escape(b);
    assert forall i :: 0 <= i < 3 && r[i] == '%' ==> i == 0;
  }

  /** Every escape of a byte sequence uses upper-case digits. */
  lemma {:induction false} EscapeAllUpper(bs: seq<nat>)
    requires AllBytes(bs)
    ensures HasUpperEscapes(EscapeAll(bs))
  {
    if |bs| > 0 {
      var head := Escape(bs[0]);
      EscapeAllUpper(bs[1..]);
      EscapeUpper(bs[0]);
      UpperEscapesConcat(head, EscapeAll(bs[1..]));
    }
  }

  lemma EncodeCharUpper(c: char)
    ensures HasUpperEscapes(EncodeChar(c))
  {
    if !IsUnreserved(c) {
      EscapeAllUpper(Utf8Bytes(c as nat));
    }
  }

  /** One character as `encodeURIComponent` writes it. */
  function EncodeChar(c: char): (r: string)
    ensures |r| > 0 && IsEncodedText(r)
    ensures IsUnreserved(c) <==> r == [c]
  {
    if IsUnreserved(c) then [c] else EscapeAll(Utf8Bytes(c as nat))
  }

  /** `encodeURIComponent(s)`. Every unreserved character is kept, and the output
      holds nothing but unreserved characters and the `%` of the escapes, each
      followed by two upper-case hexadecimal digits. */
  function Encode(s: string): (r: string)
    ensures |r| >= |s| && IsEncodedText(r)
    ensures HasUpperEscapes(r)
    ensures (forall i :: 0 <= i < |s| ==> IsUnreserved(s[i])) ==> r == s
  {
    if |s| == 0 then []
    else
      var head := EncodeChar(s[0]);
      var tail := Encode(s[1..]);
      EncodedTextConcat(head, tail);
      EncodeCharUpper(s[0]);
      UpperEscapesConcat(head, tail);
      head + tail
  }

  /** The characters that delimit the parts of a URL. */
  const UrlDelimiters: set<char> := {'/', '?', '#', '&', ' ', '@', '='}

  /** The encoded text holds none of the characters that delimit URL parts. */
  lemma EncodeHasNoDelimiters(s: string)
    ensures var e := Encode(s);
            forall i :: 0 <= i < |e| ==> e[i] !in UrlDelimiters
  {
    DelimitersAreReserved();
  }

  lemma DelimitersAreReserved()
    ensures forall c :: c in UrlDelimiters ==> !IsUnreserved(c) && c != '%'
  {
  }

  /** A reserved character other than `%` never appears in encoded text. */
  lemma ReservedNotEncoded(s: string, x: char)
    requires !IsUnreserved(x) && x != '%'
    ensures x !in Encode(s)
  {
    var e := Encode(s);
    assert forall i :: 0 <= i < |e| ==> e[i] != x;
  }

  /** What `decodeURIComponent` returns, or the `URIError` it throws. */
  datatype DecodeResult = Decoded(value: string) | UriError

  /** A decoded character and the number of input characters it took. */
  datatype Scanned = Scanned(c: char, width: nat)

  /** The byte written as `%XX` at the start of `s`. */
  function EscapedByte(s: string): (r: Nullable<nat>)
    ensures r.NonNull? ==> |s| >= 3 && r.value < 0x100
  {
    if |s| >= 3 && s[0] == '%' then
      match (HexValue(s[1]), HexValue(s[2]))
      case (NonNull(h), NonNull(l)) => NonNull(16 * h + l)
      case _ => Null
    else Null
  }

  /** The length of the UTF-8 sequence a byte starts; 0 for a continuation byte or
      a byte with five or more leading one bits, neither of which can start one. */
  function Utf8Length(b: nat): (n: nat)
    ensures n <= 4
  {
    if b < 0x80 then 1
    else if b < 0xC0 then 0
    else if b < 0xE0 then 2
    else if b < 0xF0 then 3
    else if b < 0xF8 then 4
    else 0
  }

  /** The payload bits of the leading byte of an `n`-byte sequence. */
  function LeadBits(b: nat, n: nat): nat {
    if n == 2 then b % 0x20 else if n == 3 then b % 0x10 else b % 0x08
  }

  /** The smallest code point an `n`-byte sequence may encode (longer forms are overlong). */
  function MinCodePoint(n: nat): nat {
    if n <= 1 then 0 else if n == 2 then 0x80 else if n == 3 then 0x800 else 0x1_0000
  }

  /** `acc` extended by the payloads of `count` escaped continuation bytes at the start of `s`. */
  function Continuations(s: string, count: nat, acc: nat): (r: Nullable<nat>)
    decreases count
  {
    if count == 0 then NonNull(acc)
    else match EscapedByte(s)
      case Null => Null
      case NonNull(b) =>
        if 0x80 <= b < 0xC0 then Continuations(s[3..], count - 1, acc * 0x40 + (b - 0x80)) else Null
  }

  /** True for a code point an `n`-byte sequence may validly encode. */
  predicate IsValidScalar(cp: nat, n: nat) {
    MinCodePoint(n) <= cp <= 0x10FFFF && !(0xD800 <= cp <= 0xDFFF)
  }

  /** The character encoded by the escape sequence at the start of `s`. */
  function ScanEscape(s: string): (r: Nullable<Scanned>)
    ensures r.NonNull? ==> 3 <= r.value.width <= |s|
  {
    match EscapedByte(s)
    case Null => Null
    case NonNull(b) =>
      var n := Utf8Length(b);
      if n == 0 || |s| < 3 * n then Null
      else if n == 1 then NonNull(Scanned(b as char, 3))
      else match Continuations(s[3..], n - 1, LeadBits(b, n))
        case Null => Null
        case NonNull(cp) => if IsValidScalar(cp, n) then NonNull(Scanned(cp as char, 3 * n)) else Null
  }

  /** `c` in front of a decoded string; an error stays an error. */
  function Prepend(c: char, d: DecodeResult): (r: DecodeResult)
    ensures d.Decoded? <==> r.Decoded?
    ensures d.Decoded? ==> r.value == [c] + d.value
  {
    match d
    case UriError => UriError
    case Decoded(v) => Decoded([c] + v)
  }

  /** `decodeURIComponent(s)`: every escape sequence decodes to its character, and a
      malformed escape, an invalid or overlong UTF-8 sequence or an encoded
      surrogate throws `URIError`. */
  function Decode(s: string): (r: DecodeResult)
    ensures r.Decoded? ==> |r.value| <= |s|
    decreases |s|
  {
    if |s| == 0 then Decoded([])
    else if s[0] != '%' then Prepend(s[0], Decode(s[1..]))
    else match ScanEscape(s)
      case Null => UriError
      case NonNull(sc) => Prepend(sc.c, Decode(s[sc.width..]))
  }

  /** The payloads of continuation bytes, folded in. */
  function Fold(acc: nat, bs: seq<nat>): nat
    requires forall i :: 0 <= i < |bs| ==> 0x80 <= bs[i]
    decreases |bs|
  {
    if |bs| == 0 then acc else Fold(acc * 0x40 + (bs[0] - 0x80), bs[1..])
  }

  lemma EscapedByteOfEscape(b: nat, rest: string)
    requires b < 0x100
    ensures EscapedByte(Escape(b) + rest) == NonNull(b)
  {
    HexRoundTrip(b / 16);
    HexRoundTrip(b % 16);
  }

  /** The first escape of a byte sequence, and what follows it. */
  lemma EscapeAllCons(bs: seq<nat>, rest: string)
    requires |bs| > 0 && AllBytes(bs)
    ensures EscapeAll(bs) + rest == Escape(bs[0]) + (EscapeAll(bs[1..]) + rest)
    ensures (EscapeAll(bs) + rest)[3..] == EscapeAll(bs[1..]) + rest
  {
    assert EscapeAll(bs) == Escape(bs[0]) + EscapeAll(bs[1..]);
    ConcatShift(Escape(bs[0]), EscapeAll(bs[1..]), rest);
  }

  lemma ConcatShift<T>(h: seq<T>, t: seq<T>, rest: seq<T>)
    ensures (h + t) + rest == h + (t + rest)
    ensures (h + (t + rest))[|h|..] == t + rest
  {
  }

  /** Escaped continuation bytes read back as their payloads. */
  lemma {:induction false} ContinuationsOfEscapes(bs: seq<nat>, rest: string, acc: nat)
    requires forall i :: 0 <= i < |bs| ==> 0x80 <= bs[i] < 0xC0
    ensures Continuations(EscapeAll(bs) + rest, |bs|, acc) == NonNull(Fold(acc, bs))
  {
    if |bs| > 0 {
      EscapeAllCons(bs, rest);
      EscapedByteOfEscape(bs[0], EscapeAll(bs[1..]) + rest);
      ContinuationsOfEscapes(bs[1..], rest, acc * 0x40 + (bs[0] - 0x80));
    }
  }

  lemma FoldOne(acc: nat, b: nat)
    requires 0x80 <= b
    ensures Fold(acc, [b]) == acc * 0x40 + (b - 0x80)
  {
    assert [b][1..] == [];
  }

  lemma FoldStep(acc: nat, bs: seq<nat>)
    requires |bs| > 0 && forall i :: 0 <= i < |bs| ==> 0x80 <= bs[i]
    ensures Fold(acc, bs) == Fold(acc * 0x40 + (bs[0] - 0x80), bs[1..])
  {
  }

  /** A code point is its quotient and remainder by 64, recombined. */
  lemma SplitSix(x: nat)
    ensures x == (x / 0x40) * 0x40 + x % 0x40
  {
  }

  lemma FoldTwo(cp: nat)
    requires 0x80 <= cp < 0x800
    ensures var bs := Utf8Bytes(cp);
            Utf8Length(bs[0]) == 2 && Fold(LeadBits(bs[0], 2), bs[1..]) == cp
  {
    var bs := Utf8Bytes(cp);
    assert LeadBits(bs[0], 2) == cp / 0x40;
    FoldOne(cp / 0x40, bs[1]);
    SplitSix(cp);
  }

  lemma FoldThree(cp: nat)
    requires 0x800 <= cp < 0x1_0000
    ensures var bs := Utf8Bytes(cp);
            Utf8Length(bs[0]) == 3 && Fold(LeadBits(bs[0], 3), bs[1..]) == cp
  {
    var bs := Utf8Bytes(cp);
    var hi := cp / 0x40;
    assert hi / 0x40 == cp / 0x1000;
    assert LeadBits(bs[0], 3) == hi / 0x40;
    FoldStep(hi / 0x40, bs[1..]);
    assert bs[1..][1..] == [bs[2]];
    FoldOne((hi / 0x40) * 0x40 + hi % 0x40, bs[2]);
    SplitSix(hi);
    SplitSix(cp);
  }

  lemma FoldFour(cp: nat)
    requires 0x1_0000 <= cp <= 0x10FFFF
    ensures var bs := Utf8Bytes(cp);
            Utf8Length(bs[0]) == 4 && Fold(LeadBits(bs[0], 4), bs[1..]) == cp
  {
    var bs := Utf8Bytes(cp);
    var hi := cp / 0x40;
    var top := hi / 0x40;
    assert top == cp / 0x1000;
    assert top / 0x40 == cp / 0x4_0000;
    assert LeadBits(bs[0], 4) == top / 0x40;
    FoldStep(top / 0x40, bs[1..]);
    assert bs[1..][1..] == bs[2..];
    FoldStep((top / 0x40) * 0x40 + top % 0x40, bs[2..]);
    assert bs[2..][1..] == [bs[3]];
    SplitSix(top);
    FoldOne(top * 0x40 + hi % 0x40, bs[3]);
    SplitSix(hi);
    SplitSix(cp);
  }

  /** The escapes of an ASCII character scan back to it. */
  lemma ScanEncodedAscii(c: char, rest: string)
    requires !IsUnreserved(c) && (c as nat) < 0x80
    ensures ScanEscape(EncodeChar(c) + rest) == NonNull(Scanned(c, |EncodeChar(c)|))
  {
    var cp := c as nat;
    assert EncodeChar(c) == Escape(cp);
    EscapedByteOfEscape(cp, rest);
  }

  /** A well-formed escaped multi-byte sequence scans to the code point it encodes. */
  lemma ScanEscapedSequence(bs: seq<nat>, rest: string)
    requires 2 <= |bs| <= 4 && AllBytes(bs) && Utf8Length(bs[0]) == |bs|
    requires forall i :: 1 <= i < |bs| ==> 0x80 <= bs[i] < 0xC0
    requires IsValidScalar(Fold(LeadBits(bs[0], |bs|), bs[1..]), |bs|)
    ensures ScanEscape(EscapeAll(bs) + rest)
         == NonNull(Scanned(Fold(LeadBits(bs[0], |bs|), bs[1..]) as char, 3 * |bs|))
  {
    var s := EscapeAll(bs) + rest;
    var tail := EscapeAll(bs[1..]) + rest;
    EscapeAllCons(bs, rest);
    EscapedByteOfEscape(bs[0], tail);
    ContinuationsOfEscapes(bs[1..], rest, LeadBits(bs[0], |bs|));
    ScanMultibyteEscape(s, bs[0], |bs|, Fold(LeadBits(bs[0], |bs|), bs[1..]));
  }

  /** How `ScanEscape` reads a multi-byte sequence. */
  lemma ScanMultibyteEscape(s: string, b: nat, n: nat, cp: nat)
    requires EscapedByte(s) == NonNull(b) && Utf8Length(b) == n >= 2 && |s| >= 3 * n
    requires Continuations(s[3..], n - 1, LeadBits(b, n)) == NonNull(cp) && IsValidScalar(cp, n)
    ensures ScanEscape(s) == NonNull(Scanned(cp as char, 3 * n))
  {
  }

  /** The escapes of a character beyond ASCII scan back to it. */
  lemma ScanEncodedMultibyte(c: char, rest: string)
    requires (c as nat) >= 0x80
    ensures ScanEscape(EncodeChar(c) + rest) == NonNull(Scanned(c, |EncodeChar(c)|))
  {
    var cp := c as nat;
    var bs := Utf8Bytes(cp);
    assert EncodeChar(c) == EscapeAll(bs);
    if cp < 0x800 {
      FoldTwo(cp);
    } else if cp < 0x1_0000 {
      FoldThree(cp);
    } else {
      FoldFour(cp);
    }
    ScanEscapedSequence(bs, rest);
  }

  /** Decoding an encoded character followed by more text yields the character first. */
  lemma DecodeEncodedChar(c: char, t: string)
    ensures Decode(EncodeChar(c) + t) == Prepend(c, Decode(t))
  {
    if IsUnreserved(c) {
      DecodePlainStep(c, t);
    } else {
      if (c as nat) < 0x80 {
        ScanEncodedAscii(c, t);
      } else {
        ScanEncodedMultibyte(c, t);
      }
      DecodeEscapeStep(EncodeChar(c), t, c);
    }
  }

  lemma EncodeStep(s: string)
    requires |s| > 0
    ensures Encode(s) == EncodeChar(s[0]) + Encode(s[1..])
  {
  }

  /** A character other than `%` decodes to itself. */
  lemma DecodePlainStep(c: char, t: string)
    requires c != '%'
    ensures Decode([c] + t) == Prepend(c, Decode(t))
  {
    assert ([c] + t)[1..] == t;
  }

  /** An escape sequence decodes to the character it scans to. */
  lemma DecodeEscapeStep(e: string, t: string, c: char)
    requires |e| > 0 && e[0] == '%' && ScanEscape(e + t) == NonNull(Scanned(c, |e|))
    ensures Decode(e + t) == Prepend(c, Decode(t))
  {
    assert (e + t)[|e|..] == t;
  }

  /** Decoding the encoding of a string gives the string back. */
  lemma {:induction false} DecodeEncode(s: string)
    ensures Decode(Encode(s)) == Decoded(s)
  {
    if |s| > 0 {
      var tail := Encode(s[1..]);
      EncodeStep(s);
      DecodeEncode(s[1..]);
      DecodeEncodedChar(s[0], tail);
      assert Decode(Encode(s)) == Prepend(s[0], Decoded(s[1..]));
      assert [s[0]] + s[1..] == s;
    }
  }

  /** Text without escapes decodes to itself. */
  lemma {:induction false} DecodeWithoutEscapes(s: string)
    requires forall i :: 0 <= i < |s| ==> s[i] != '%'
    ensures Decode(s) == Decoded(s)
  {
    if |s| > 0 {
      assert s == [s[0]] + s[1..];
      DecodePlainStep(s[0], s[1..]);
      DecodeWithoutEscapes(s[1..]);
    }
  }

  /** A lone `%` is malformed. */
  lemma LonePercentIsError()
    ensures Decode("%") == UriError
  {
  }

  /** An encoded surrogate (`%ED%A0%80`, U+D800) is rejected. */
  lemma EncodedSurrogateIsError()
    ensures Decode("%ED%A0%80") == UriError
  {
    var s := "%ED%A0%80";
    assert EscapedByte(s) == NonNull(0xED);
    assert s[3..] == "%A0%80";
    assert EscapedByte(s[3..]) == NonNull(0xA0);
    assert s[3..][3..] == "%80";
    assert EscapedByte("%80") == NonNull(0x80);
    assert Continuations(s[3..], 2, 0xD) == NonNull(0xD800);
  }
}
