/** UTF-8 as RFC 3629 defines it, and the strict decoder that reports where and how it failed. */
module Utf8 {

  type byte = b: int | 0 <= b < 256

  /** The line feed. */
  const LF: byte := 0x0A

  // ----- Encoding (section 3) -----

  function EncodeChar(c: char): (bs: seq<byte>)
    ensures 1 <= |bs| <= 4
  {
    var n := c as int;
    var n1 := n / 64;
    var n2 := n1 / 64;
    if n < 0x80 then [n]
    else if n < 0x800 then [0xC0 + n1, 0x80 + n % 64]
    else if n < 0x1_0000 then [0xE0 + n2, 0x80 + n1 % 64, 0x80 + n % 64]
    else [0xF0 + n2 / 64, 0x80 + n2 % 64, 0x80 + n1 % 64, 0x80 + n % 64]
  }

  function Encode(s: string): seq<byte> {
    if s == "" then [] else EncodeChar(s[0]) + Encode(s[1..])
  }

  // ----- Decoding (section 4) -----

  /** The length a lead byte announces, 0 for a byte no character starts with. */
  function Length(lead: byte): nat {
    if lead < 0x80 then 1
    else if 0xC2 <= lead <= 0xDF then 2
    else if 0xE0 <= lead <= 0xEF then 3
    else if 0xF0 <= lead <= 0xF4 then 4
    else 0
  }

  predicate Tail(b: byte) {
    0x80 <= b <= 0xBF
  }

  /** The second byte, which also rules out overlong forms, surrogates and values past U+10FFFF. */
  predicate SecondOk(lead: byte, b: byte) {
    Tail(b) &&
    (lead == 0xE0 ==> b >= 0xA0) && (lead == 0xED ==> b <= 0x9F) &&
    (lead == 0xF0 ==> b >= 0x90) && (lead == 0xF4 ==> b <= 0x8F)
  }

  /** The payload of a byte whose marker bits are `mark`. */
  function Bits(b: byte, mark: byte): int {
    b as int - mark as int
  }

  datatype Head = Char(c: char, length: nat) | End | Wrong

  predicate WellBegun(bs: seq<byte>)
    requires bs != []
  {
    var n := Length(bs[0]);
    && n > 0
    && (n >= 2 && |bs| >= 2 ==> SecondOk(bs[0], bs[1]))
    && (n >= 3 && |bs| >= 3 ==> Tail(bs[2]))
    && (n >= 4 && |bs| >= 4 ==> Tail(bs[3]))
  }

  /** The first character of a non-empty byte string, or why there is none. */
  function First(bs: seq<byte>): (h: Head)
    requires bs != []
    ensures h.Char? ==> 0 < h.length <= |bs|
  {
    var n := Length(bs[0]);
    if !WellBegun(bs) then Wrong
    else if |bs| < n then End
    else if n == 1 then Char(bs[0] as char, 1)
    else if n == 2 then Char((Bits(bs[0], 0xC0) * 64 + Bits(bs[1], 0x80)) as char, 2)
    else if n == 3 then
      Char(((Bits(bs[0], 0xE0) * 64 + Bits(bs[1], 0x80)) * 64 + Bits(bs[2], 0x80)) as char, 3)
    else
      Char(
        (((Bits(bs[0], 0xF0) * 64 + Bits(bs[1], 0x80)) * 64 + Bits(bs[2], 0x80)) * 64 + Bits(bs[3], 0x80)) as char, 4)
  }

  /** Strict decoding: the text, or the text before the first error. `Truncated` is the error whose
      reason is "unexpected end of data" and whose range reaches the end of the bytes. */
  datatype Decoded = Valid(text: string) | Truncated(text: string) | Invalid(text: string)

  function Prepend(s: string, d: Decoded): Decoded {
    match d
    case Valid(t) => Valid(s + t)
    case Truncated(t) => Truncated(s + t)
    case Invalid(t) => Invalid(s + t)
  }

  function Decode(bs: seq<byte>): Decoded
    decreases |bs|
  {
    if bs == [] then Valid("")
    else match First(bs)
      case Char(c, n) => Prepend([c], Decode(bs[n..]))
      case End => Truncated("")
      case Wrong => Invalid("")
  }

  // ----- Round trips -----

  lemma {:induction false} FirstOfChar(c: char, rest: seq<byte>)
    ensures First(EncodeChar(c) + rest) == Char(c, |EncodeChar(c)|)
  {
    var n := c as int;
    assert n < 0xD800 || 0xE000 <= n < 0x11_0000;
    var n1 := n / 64;
    var n2 := n1 / 64;
    assert n == n1 * 64 + n % 64 && n1 == n2 * 64 + n1 % 64 && n2 == n2 / 64 * 64 + n2 % 64;
  }

  /** A character cut short is reported as an unexpected end, never as an invalid byte. */
  lemma {:induction false} FirstOfCut(c: char, k: nat)
    requires 0 < k < |EncodeChar(c)|
    ensures First(EncodeChar(c)[..k]) == End
  {
    FirstOfChar(c, []);
    assert EncodeChar(c) + [] == EncodeChar(c);
  }

  lemma {:induction false} PrependTwice(s: string, t: string, d: Decoded)
    ensures Prepend(s, Prepend(t, d)) == Prepend(s + t, d)
  {
    assert s + (t + d.text) == s + t + d.text;
  }

  lemma {:induction false} DecodeEncoded(s: string, rest: seq<byte>)
    ensures Decode(Encode(s) + rest) == Prepend(s, Decode(rest))
    decreases |s|
  {
    if s == "" {
      assert Encode(s) + rest == rest;
    } else {
      var bs := EncodeChar(s[0]) + (Encode(s[1..]) + rest);
      assert Encode(s) + rest == bs;
      FirstOfChar(s[0], Encode(s[1..]) + rest);
      assert bs[|EncodeChar(s[0])|..] == Encode(s[1..]) + rest;
      DecodeEncoded(s[1..], rest);
      PrependTwice([s[0]], s[1..], Decode(rest));
      assert [s[0]] + s[1..] == s;
    }
  }

  lemma {:induction false} RoundTrip(s: string)
    ensures Decode(Encode(s)) == Valid(s)
  {
    DecodeEncoded(s, []);
    assert Encode(s) + [] == Encode(s);
  }

  /** Every prefix of an encoded text decodes to a prefix of the text, at worst truncated. */
  lemma {:induction false} DecodePrefix(s: string, k: nat) returns (j: nat)
    requires k <= |Encode(s)|
    ensures j <= |s| && Decode(Encode(s)[..k]).text == s[..j] && !Decode(Encode(s)[..k]).Invalid?
    ensures j == |s| <==> k == |Encode(s)|
    ensures Decode(Encode(s)[..k]).Valid? ==> Encode(s)[..k] == Encode(s[..j])
    decreases |s|
  {
    hide First, EncodeChar;
    if s == "" {
      j := 0;
    } else {
      var n := |EncodeChar(s[0])|;
      var p := Encode(s)[..k];
      if k == 0 {
        j := 0;
      } else if k < n {
        j := 0;
        assert p == EncodeChar(s[0])[..k];
        FirstOfCut(s[0], k);
      } else {
        j := DecodePrefix(s[1..], k - n);
        var q := Encode(s[1..])[..k - n];
        assert p == EncodeChar(s[0]) + q;
        FirstOfChar(s[0], q);
        assert p[n..] == q;
        j := j + 1;
        assert [s[0]] + s[1..][..j - 1] == s[..j];
        assert s[..j][1..] == s[1..][..j - 1];
      }
    }
  }

  lemma {:induction false} DecodeConcat(a: seq<byte>, b: seq<byte>)
    requires Decode(a).Valid?
    ensures Decode(a + b) == Prepend(Decode(a).text, Decode(b))
    decreases |a|
  {
    if a == [] {
      assert a + b == b;
    } else {
      var h := First(a);
      FirstStable(a, b);
      assert (a + b)[h.length..] == a[h.length..] + b;
      DecodeConcat(a[h.length..], b);
      PrependTwice([h.c], Decode(a[h.length..]).text, Decode(b));
    }
  }

  lemma {:induction false} FirstStable(a: seq<byte>, b: seq<byte>)
    requires a != [] && !First(a).End?
    ensures First(a + b) == First(a)
  {
  }

  /** Bytes that are not UTF-8 before their end stay so, whatever follows. */
  lemma {:induction false} InvalidStays(bs: seq<byte>, more: seq<byte>)
    requires Decode(bs).Invalid?
    ensures Decode(bs + more).Invalid?
    decreases |bs|
  {
    FirstStable(bs, more);
    hide First;
    if First(bs).Char? {
      var n := First(bs).length;
      assert (bs + more)[n..] == bs[n..] + more;
      InvalidStays(bs[n..], more);
    }
  }

  lemma {:induction false} EncodeConcat(s: string, t: string)
    ensures Encode(s + t) == Encode(s) + Encode(t)
    decreases |s|
  {
    if s == "" {
      assert s + t == t;
    } else {
      assert (s + t)[1..] == s[1..] + t;
      EncodeConcat(s[1..], t);
    }
  }

  /** Decoding loses nothing: valid UTF-8 is the encoding of its text. */
  lemma {:induction false} EncodeDecoded(bs: seq<byte>)
    requires Decode(bs).Valid?
    ensures Encode(Decode(bs).text) == bs
    decreases |bs|
  {
    hide First, EncodeChar;
    if bs != [] {
      var h := First(bs);
      EncodeDecoded(bs[h.length..]);
      EncodeFirst(bs);
      var t := Decode(bs[h.length..]).text;
      assert ([h.c] + t)[1..] == t;
      assert bs == bs[..h.length] + bs[h.length..];
    }
  }

  lemma {:induction false} EncodeFirst(bs: seq<byte>)
    requires bs != [] && First(bs).Char?
    ensures EncodeChar(First(bs).c) == bs[..First(bs).length]
  {
    var h := First(bs);
    if h.length == 3 {
      EncodeThree(bs);
    } else if h.length == 4 {
      EncodeFour(bs);
    } else if h.length == 2 {
      Sextet(Bits(bs[0], 0xC0), Bits(bs[1], 0x80));
    }
  }

  lemma {:induction false} EncodeThree(bs: seq<byte>)
    requires bs != [] && First(bs).Char? && First(bs).length == 3
    ensures EncodeChar(First(bs).c) == bs[..3]
  {
    Sextet(Bits(bs[0], 0xE0) * 64 + Bits(bs[1], 0x80), Bits(bs[2], 0x80));
    Sextet(Bits(bs[0], 0xE0), Bits(bs[1], 0x80));
  }

  lemma {:induction false} EncodeFour(bs: seq<byte>)
    requires bs != [] && First(bs).Char? && First(bs).length == 4
    ensures EncodeChar(First(bs).c) == bs[..4]
  {
    Sextet((Bits(bs[0], 0xF0) * 64 + Bits(bs[1], 0x80)) * 64 + Bits(bs[2], 0x80), Bits(bs[3], 0x80));
    Sextet(Bits(bs[0], 0xF0) * 64 + Bits(bs[1], 0x80), Bits(bs[2], 0x80));
    Sextet(Bits(bs[0], 0xF0), Bits(bs[1], 0x80));
  }

  lemma {:induction false} Sextet(x: int, y: int)
    requires 0 <= y < 64
    ensures (x * 64 + y) / 64 == x && (x * 64 + y) % 64 == y
  {
  }

  lemma {:induction false} AsciiOnly(c: char, i: nat)
    requires i < |EncodeChar(c)|
    ensures c as int >= 0x80 ==> EncodeChar(c)[i] >= 0x80
  {
  }

  /** An ASCII byte occurs in an encoded text only as that character. */
  lemma {:induction false} AsciiByte(s: string, a: char)
    requires a as int < 0x80 && a !in s
    ensures (a as int) !in Encode(s)
    decreases |s|
  {
    if s != "" {
      AsciiByte(s[1..], a);
      assert s[0] in s;
      forall i | 0 <= i < |EncodeChar(s[0])| ensures EncodeChar(s[0])[i] != a as int { AsciiOnly(s[0], i); }
    }
  }

  // ----- A character cut short -----

  lemma {:induction false} DecodeFirst(bs: seq<byte>)
    requires bs != []
    ensures match First(bs)
            case Char(c, n) => Decode(bs) == Prepend([c], Decode(bs[n..])) && EncodeChar(c) == bs[..n]
            case End => Decode(bs) == Truncated("")
            case Wrong => Decode(bs) == Invalid("")
  {
    if First(bs).Char? { EncodeFirst(bs); }
    hide First, EncodeChar;
  }

  lemma {:induction false} JoinCut<T>(x: seq<T>, y: seq<T>, z: seq<T>, s: seq<T>, n: nat)
    requires n <= |s| && s[..n] == x && s[n..] == y + z
    ensures s == x + y + z
  {
    assert s == s[..n] + s[n..];
    assert x + (y + z) == x + y + z;
  }

  /** Text, then the first bytes of one more character. */
  lemma {:induction false} TruncatedIs(bs: seq<byte>) returns (part: seq<byte>)
    requires Decode(bs).Truncated?
    ensures bs == Encode(Decode(bs).text) + part && part != [] && First(part) == End
    decreases |bs|
  {
    assert bs != [] && Encode("") == [];
    hide Decode, Encode, EncodeChar, First;
    DecodeFirst(bs);
    if First(bs).End? {
      part := bs;
      assert [] + part == part;
    } else {
      var c, n := First(bs).c, First(bs).length;
      part := TruncatedIs(bs[n..]);
      var t := Decode(bs[n..]).text;
      OneThenText(c, t);
      JoinCut(EncodeChar(c), Encode(t), part, bs, n);
    }
  }

  lemma {:induction false} OneThenText(c: char, t: string)
    ensures Encode([c] + t) == EncodeChar(c) + Encode(t)
  {
    assert ([c] + t)[1..] == t;
  }

  /** The byte to put at place `i` of a character with this lead byte. */
  function Filler(lead: byte, i: nat): byte {
    if i == 1 && lead == 0xE0 then 0xA0 else if i == 1 && lead == 0xF0 then 0x90 else 0x80
  }

  function Filled(part: seq<byte>): seq<byte>
    requires part != [] && |part| <= Length(part[0])
    decreases Length(part[0]) - |part|
  {
    if |part| == Length(part[0]) then part else Filled(part + [Filler(part[0], |part|)])
  }

  /** Whatever is cut short can be finished. */
  lemma {:induction false} FilledIs(part: seq<byte>)
    requires part != [] && WellBegun(part) && |part| <= Length(part[0])
    ensures part <= Filled(part) && First(Filled(part)) != Wrong && First(Filled(part)) != End
    ensures First(Filled(part)).length == |Filled(part)|
    decreases Length(part[0]) - |part|
  {
    if |part| < Length(part[0]) {
      var more := part + [Filler(part[0], |part|)];
      FilledIs(more);
    }
  }

  /** Such bytes start some character, and only ones outside ASCII. */
  lemma {:induction false} PartStarts(part: seq<byte>) returns (c: char)
    requires part != [] && First(part) == End
    ensures part < EncodeChar(c) && part[0] >= 0xC2
  {
    FilledIs(part);
    var whole := Filled(part);
    EncodeFirst(whole);
    c := First(whole).c;
    assert whole[..|whole|] == whole;
    assert |whole| == Length(whole[0]);
  }

  lemma {:induction false} AsciiByteFirst(c: char)
    ensures EncodeChar(c)[0] < 0x80 <==> (c as int) < 0x80
  {
  }
}
