/** `is_torn_append`: when the bytes of a final line are an append that stopped half way. */
module TornAppend {
  import opened JsonGrammar
  import opened NumberTokens
  import opened TornRecord
  import opened PrefixFree
  import opened Utf8

  const BOM: seq<byte> := [0xEF, 0xBB, 0xBF]
  const NUL: byte := 0

  predicate EndsWithLf(line: seq<byte>) {
    line != [] && line[|line| - 1] == LF
  }

  function StripBom(line: seq<byte>, strip: bool): seq<byte> {
    if strip && BOM <= line then line[3..] else line
  }

  /** `rstrip(b"\x00")` */
  function StripNuls(bs: seq<byte>): (r: seq<byte>)
    ensures r <= bs
    ensures r == [] || r[|r| - 1] != NUL
  {
    if bs != [] && bs[|bs| - 1] == NUL then StripNuls(bs[..|bs| - 1]) else bs
  }

  /** What is tested once the byte-order mark and the padding are off. */
  ghost predicate IsTornBody(body: seq<byte>) {
    && NUL !in body
    && !Decode(body).Invalid?
    && (Blank(Decode(body).text) || IsCutObject(Decode(body).text))
  }

  ghost predicate IsTorn(line: seq<byte>, stripBom: bool) {
    !EndsWithLf(line) && IsTornBody(StripNuls(StripBom(line, stripBom)))
  }

  method IsTornAppend(line: seq<byte>, stripBom: bool) returns (torn: bool)
    ensures torn <==> IsTorn(line, stripBom)
  {
    if EndsWithLf(line) {
      return false;
    }
    var body := StripNuls(StripBom(line, stripBom));
    if NUL in body {
      return false;
    }
    var decoded := Decode(body);
    if decoded.Invalid? {
      return false;
    }
    if Blank(decoded.text) {
      return true;
    }
    torn := IsCutJsonObject(decoded.text);
  }

  /** Any number of NUL bytes. */
  predicate Nuls(bs: seq<byte>) {
    forall i :: 0 <= i < |bs| ==> bs[i] == NUL
  }

  lemma {:induction false} StripPadding(bs: seq<byte>, nuls: seq<byte>)
    requires Nuls(nuls) && (bs == [] || bs[|bs| - 1] != NUL)
    ensures StripNuls(bs + nuls) == bs
    decreases |nuls|
  {
    if nuls == [] {
      assert bs + nuls == bs;
    } else {
      assert (bs + nuls)[..|bs + nuls| - 1] == bs + nuls[..|nuls| - 1];
      StripPadding(bs, nuls[..|nuls| - 1]);
    }
  }

  /** A byte-order mark is taken off where stripping is asked for, and nothing else is. */
  lemma {:induction false} BomOff(line: seq<byte>, strip: bool, rest: seq<byte>)
    ensures StripBom(line, strip) == rest <==> line == (if strip && BOM <= line then BOM else []) + rest
  {
    if strip && BOM <= line { assert line == BOM + line[3..]; } else { assert [] + rest == rest; }
  }

  /** What is left of a line without byte-order mark and padding: it ends in no NUL, and what is behind it is NULs. */
  lemma {:induction false} StripIs(line: seq<byte>, strip: bool, body: seq<byte>)
    ensures StripNuls(StripBom(line, strip)) == body <==>
            && (body != [] ==> body[|body| - 1] != NUL)
            && exists nuls :: Nuls(nuls) && line == (if strip && BOM <= line then BOM else []) + (body + nuls)
  {
    var mark, rest := if strip && BOM <= line then BOM else [], StripBom(line, strip);
    BomOff(line, strip, rest);
    var nuls := PaddingOff(rest);
    hide StripBom, StripNuls;
    assert line == mark + (StripNuls(rest) + nuls);
    if exists nuls :: Nuls(nuls) && line == mark + (body + nuls) {
      var pad :| Nuls(pad) && line == mark + (body + pad);
      BomOff(line, strip, body + pad);
      if body == [] || body[|body| - 1] != NUL { StripPadding(body, pad); }
    }
  }

  lemma {:induction false} PaddingOff(bs: seq<byte>) returns (nuls: seq<byte>)
    ensures Nuls(nuls) && bs == StripNuls(bs) + nuls
    decreases |bs|
  {
    nuls := [];
    if bs != [] && bs[|bs| - 1] == NUL {
      var less := PaddingOff(bs[..|bs| - 1]);
      nuls := less + [NUL];
    }
  }

  // ----- JSON texts contain no NUL and start with an ASCII character -----

  predicate NoNul(s: string) {
    '\0' !in s
  }

  lemma {:induction false} NumberNoNul(q: State, s: string)
    requires !Run(q, s).Dead?
    ensures NoNul(s)
  {
    NumberChars(q, s);
  }

  lemma {:induction false} StringNoNul(s: string)
    requires StringTail(s)
    ensures NoNul(s)
    decreases |s|
  {
    var n := CharLength(s);
    if n > 0 {
      StringNoNul(s[n..]);
      assert s == s[..n] + s[n..];
      forall i | 0 <= i < n ensures s[..n][i] != '\0' {
        if i >= 2 { assert HexDigit(s[2..6][i - 2]); }
      }
    }
  }

  lemma {:induction false} ScalarNoNul(token: string)
    requires IsScalar(token)
    ensures NoNul(token)
  {
    if IsString(token) {
      StringNoNul(token[1..]);
      assert token == [token[0]] + token[1..];
    } else if IsNumber(token) {
      NumberPattern(token);
      NumberNoNul(Start, token);
    }
  }

  lemma {:induction false} LabelNoNul(closer: char, lead: string)
    requires IsLabel(closer, lead)
    ensures NoNul(lead)
  {
    if closer == '}' {
      var name: string, w: string, w': string :|
        IsString(name) && Blank(w) && Blank(w') && lead == name + w + ":" + w';
      ScalarNoNul(name);
    }
  }

  lemma {:induction false} ValueNoNul(v: Value)
    requires WellFormed(v)
    ensures NoNul(Text(v))
    decreases v
  {
    match v
    case Scalar(token) => ScalarNoNul(token);
    case Container(closer, pad, es) => ElementsNoNul(closer, es);
  }

  lemma {:induction false} ElementsNoNul(closer: char, es: Elements)
    requires IsCloser(closer) && ElementsWellFormed(closer, es)
    ensures NoNul(ElementsText(closer, es))
    decreases es
  {
    if es.Item? {
      LabelNoNul(closer, es.lead);
      ValueNoNul(es.value);
      if es.rest.Comma? { ElementsNoNul(closer, es.rest.next); }
    }
  }

  /** No BOM in front: the first byte is whitespace or the first character of a value. */
  lemma {:induction false} AsciiFirst(w: string, v: Value, t: string)
    requires Blank(w) && WellFormed(v)
    ensures var s := w + Text(v) + t; s != "" && s[0] as int < 0x80 && !(BOM <= Encode(s))
  {
    var s := w + Text(v) + t;
    ValueHead(v);
    assert s[0] == if w != "" then w[0] else Text(v)[0];
    if v.Scalar? { ScalarHead(v.token); }
    assert Encode(s)[0] == EncodeChar(s[0])[0];
  }

  /** The line the writer left: an optional byte-order mark, some bytes of the record, NUL padding. */
  function Line(bom: bool, bytes: seq<byte>, nuls: seq<byte>): seq<byte> {
    (if bom then BOM else []) + bytes + nuls
  }

  lemma {:induction false} LineBody(bom: bool, bytes: seq<byte>, nuls: seq<byte>)
    requires Nuls(nuls) && NUL !in bytes && (!bom ==> !(BOM <= bytes))
    ensures StripNuls(StripBom(Line(bom, bytes, nuls), bom)) == bytes
    ensures !bom ==> forall strip: bool :: StripNuls(StripBom(Line(bom, bytes, nuls), strip)) == bytes
  {
    assert bytes == [] || bytes[|bytes| - 1] in bytes;
    StripPadding(bytes, nuls);
    hide StripNuls;
    var line := Line(bom, bytes, nuls);
    if bom {
      assert line[..3] == BOM && line[3..] == bytes + nuls;
    } else {
      assert line == bytes + nuls;
      NoBomPadded(bytes, nuls);
    }
  }

  lemma {:induction false} NoBomPadded(bytes: seq<byte>, nuls: seq<byte>)
    requires Nuls(nuls) && !(BOM <= bytes)
    ensures !(BOM <= bytes + nuls)
  {
    var line := bytes + nuls;
    assert 3 <= |bytes| ==> line[..3] == bytes[..3];
    assert |bytes| < 3 && |bytes| < |line| ==> line[|bytes|] == NUL;
  }

  /** Every proper prefix of an object's bytes is recognised as a torn append: cut between
      characters or inside one, and however many NULs a crash left behind it. */
  lemma {:induction false} ProperPrefixIsTorn(w: string, x: string, k: nat, nuls: seq<byte>, bom: bool)
    requires Blank(w) && IsObject(x)
    requires k < |Encode(w + x)| && Nuls(nuls)
    requires !EndsWithLf(Line(bom, Encode(w + x)[..k], nuls))
    ensures IsTorn(Line(bom, Encode(w + x)[..k], nuls), bom)
    ensures !bom ==> IsTorn(Line(bom, Encode(w + x)[..k], nuls), true)
  {
    var s := w + x;
    var p := Encode(s)[..k];
    ObjectBytes(w, x);
    assert p <= Encode(s);
    assert NUL !in p;
    LineBody(bom, p, nuls);
    CutText(w, x, k);
  }

  lemma {:induction false} ObjectBytes(w: string, x: string)
    requires Blank(w) && IsObject(x)
    ensures NUL !in Encode(w + x)
    ensures forall k: nat :: k <= |Encode(w + x)| ==> !(BOM <= Encode(w + x)[..k])
  {
    var v :| WellFormed(v) && v.Container? && v.closer == '}' && x == Text(v);
    ValueNoNul(v);
    AsciiByte(w + x, '\0');
    AsciiFirst(w, v, "");
    assert w + x + "" == w + x;
  }

  /** The characters before the cut. */
  lemma {:induction false} CutText(w: string, x: string, k: nat)
    requires Blank(w) && IsObject(x) && k < |Encode(w + x)|
    ensures var d := Decode(Encode(w + x)[..k]); !d.Invalid? && (Blank(d.text) || IsCutObject(d.text))
  {
    var s := w + x;
    var j := DecodePrefix(s, k);
    assert s[..j] + s[j..] == s;
    assert s[..|w|] == w && s[|w|..] == x;
    assert IsPaddedObject(s);
  }

  /** No complete JSON value is ever taken for a torn append, padded with NULs or not: dropping a
      torn suffix cannot discard a complete record. */
  lemma {:induction false} CompleteIsNotTorn(s: string, nuls: seq<byte>, bom: bool)
    requires IsJsonText(s) && Nuls(nuls)
    ensures !IsTorn(Line(bom, Encode(s), nuls), bom)
    ensures !bom ==> !IsTorn(Line(bom, Encode(s), nuls), true)
  {
    var w: string, x: string, w': string :| Blank(w) && Blank(w') && IsValue(x) && s == w + x + w';
    var v :| WellFormed(v) && x == Text(v);
    ValueNoNul(v);
    AsciiByte(s, '\0');
    AsciiFirst(w, v, w');
    LineBody(bom, Encode(s), nuls);
    RoundTrip(s);
    CompleteIsNotCut(s);
  }
}
