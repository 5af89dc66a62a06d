/** Where the bytes stop: `is_torn_append` on any bytes, against what some more bytes could make of them. */
module CutBytes {
  import opened JsonGrammar
  import opened NumberTokens
  import opened TornRecord
  import opened PrefixFree
  import opened Utf8
  import opened TornAppend
  import opened NonAscii

  /** Some more bytes make a JSON object of these, behind optional whitespace. */
  ghost predicate Completable(bs: seq<byte>) {
    exists more: seq<byte>, s: string :: more != [] && bs + more == Encode(s) && IsPaddedObject(s)
  }

  lemma {:induction false} MoreCharacters(t: string, more: seq<byte>, s: string)
    requires more != [] && Encode(t) + more == Encode(s)
    ensures t < s && t + s[|t|..] == s && s[|t|..] != ""
  {
    RoundTrip(t);
    var j := DecodePrefix(s, |Encode(t)|);
    assert Encode(s)[..|Encode(t)|] == Encode(t);
    assert t == s[..j];
  }

  /** Only ASCII characters end an object. */
  lemma {:induction false} ObjectEnd(s: string)
    requires IsPaddedObject(s)
    ensures s != "" && !Beyond(s[|s| - 1]) && !Blank(s)
  {
    var n: nat :| n <= |s| && Blank(s[..n]) && IsObject(s[n..]);
    var v :| WellFormed(v) && v.Container? && v.closer == '}' && s[n..] == Text(v);
    ElementsEnd('}', v.elements);
    assert s[|s| - 1] == s[n..][|s| - n - 1];
    assert s[n] == s[n..][0];
  }

  lemma {:induction false} ElementsEnd(closer: char, es: Elements)
    requires ElementsWellFormed(closer, es)
    ensures var t := ElementsText(closer, es); t != "" && t[|t| - 1] == closer
    decreases es
  {
    if es.Item? && es.rest.Comma? { ElementsEnd(closer, es.rest.next); }
  }

  /** A blank text is the start of an object. */
  lemma {:induction false} BlankStarts(t: string)
    requires Blank(t)
    ensures IsPaddedObject(t + "{}")
  {
    var v := Container('}', "", NoElements);
    assert WellFormed(v) && Text(v) == "{}";
    assert (t + "{}")[..|t|] == t && (t + "{}")[|t|..] == "{}";
  }

  /** Some more text makes a JSON object of this one, behind optional whitespace. */
  ghost predicate Unfinished(t: string) {
    exists u: string :: u != "" && IsPaddedObject(t + u)
  }

  lemma {:induction false} UnfinishedIs(t: string)
    ensures Unfinished(t) <==> Blank(t) || IsCutObject(t)
  {
    if Blank(t) { BlankStarts(t); }
  }

  /** On whole characters: torn, if and only if some more bytes complete it. */
  lemma {:induction false} WholeCharacters(bs: seq<byte>)
    requires Decode(bs).Valid?
    ensures IsTornBody(bs) <==> Completable(bs)
  {
    var t := Decode(bs).text;
    hide Decode, IsCutObject, IsPaddedObject, Blank;
    EncodeDecoded(bs);
    if IsTornBody(bs) {
      UnfinishedIs(t);
      var u: string :| u != "" && IsPaddedObject(t + u);
      EncodeConcat(t, u);
      assert bs + Encode(u) == Encode(t + u) && Encode(u) != [];
    }
    if Completable(bs) {
      var more: seq<byte>, s: string :| more != [] && bs + more == Encode(s) && IsPaddedObject(s);
      MoreCharacters(t, more, s);
      NoNulBytes(s);
      assert forall i :: 0 <= i < |bs| ==> bs[i] == (bs + more)[i];
      CutOf(t, s);
    }
  }

  lemma {:induction false} CutOf(t: string, s: string)
    requires t < s && IsPaddedObject(s)
    ensures Blank(t) || IsCutObject(t)
  {
    assert t + s[|t|..] == s;
  }

  lemma {:induction false} NoNulBytes(s: string)
    requires IsPaddedObject(s)
    ensures NUL !in Encode(s)
  {
    var n: nat :| n <= |s| && Blank(s[..n]) && IsObject(s[n..]);
    ObjectBytes(s[..n], s[n..]);
    assert s[..n] + s[n..] == s;
  }

  /** Any character outside ASCII; which one does not matter. */
  const E_ACUTE: char := '\U{E9}'

  /** What a cut character and the bytes behind it make: one more character, then more. */
  lemma {:induction false} OneMoreThere(t: string, part: seq<byte>, more: seq<byte>, s: string)
    returns (c: char, u: string)
    requires part != [] && First(part) == End && more != [] && Encode(t) + part + more == Encode(s)
    ensures Beyond(c) && s == t + [c] + u
  {
    var c0 := PartStarts(part);
    var tail := part + more;
    assert Encode(t) + tail == Encode(s);
    MoreCharacters(t, tail, s);
    var x := s[|t|..];
    EncodeConcat(t, x);
    assert Encode(s)[|Encode(t)|..] == tail && Encode(s)[|Encode(t)|..] == Encode(x);
    c, u := x[0], x[1..];
    JoinCut(t, [c], u, s, |t|);
    assert Encode(x) == EncodeChar(c) + Encode(u);
    assert tail[0] == part[0] && (EncodeChar(c) + Encode(u))[0] == EncodeChar(c)[0];
    AsciiByteFirst(c);
  }

  /** Inside a character: some more bytes complete it if and only if the text goes on with a character outside
      ASCII, that is, if the cut is inside a string. */
  lemma {:induction false} HalfCharacter(bs: seq<byte>)
    requires Decode(bs).Truncated?
    ensures Completable(bs) <==> Unfinished(Decode(bs).text + [E_ACUTE])
  {
    var t := Decode(bs).text;
    OutsideIsCut(t, E_ACUTE);
    var part := TruncatedIs(bs);
    hide Decode, IsCutObject, IsPaddedObject, First;
    if Completable(bs) {
      var more: seq<byte>, s: string :| more != [] && bs + more == Encode(s) && IsPaddedObject(s);
      var c, u := OneMoreThere(t, part, more, s);
      ObjectEnd(s);
      GoesOn(t, c, u);
      Interchange(t, c, E_ACUTE);
    }
    if IsCutObject(t + [E_ACUTE]) {
      var c := PartStarts(part);
      AsciiByteFirst(c);
      Interchange(t, E_ACUTE, c);
      Finished(t, part, c);
    }
  }

  lemma {:induction false} OutsideIsCut(t: string, c: char)
    requires Beyond(c)
    ensures Unfinished(t + [c]) <==> IsCutObject(t + [c])
  {
    assert (t + [c])[|t|] == c;
    UnfinishedIs(t + [c]);
  }

  lemma {:induction false} GoesOn(t: string, c: char, u: string)
    requires Beyond(c) && IsPaddedObject(t + [c] + u) && !Beyond((t + [c] + u)[|t + [c] + u| - 1])
    ensures IsCutObject(t + [c])
  {
    assert (t + [c])[|t|] == c;
    assert u == "" ==> t + [c] + u == t + [c];
    hide IsPaddedObject;
  }

  lemma {:induction false} Finished(t: string, part: seq<byte>, c: char)
    requires part < EncodeChar(c) && IsCutObject(t + [c])
    ensures Completable(Encode(t) + part)
  {
    hide IsPaddedObject, EncodeChar;
    var u: string :| u != "" && IsPaddedObject(t + [c] + u);
    var more := EncodeChar(c)[|part|..] + Encode(u);
    EncodeConcat(t + [c], u);
    EncodeConcat(t, [c]);
    assert Encode([c]) == EncodeChar(c) by { assert [c][1..] == ""; }
    assert EncodeChar(c) == part + EncodeChar(c)[|part|..];
    assert Encode(t) + part + more == Encode(t + [c] + u);
  }

  /** Bytes that stop inside a character, after a text that may go on but not with one outside ASCII. */
  ghost predicate HalfOutside(bs: seq<byte>) {
    NUL !in bs && Decode(bs).Truncated? && Unfinished(Decode(bs).text) && !Unfinished(Decode(bs).text + [E_ACUTE])
  }

  /** So the answer on a line without a final line feed errs in one way only: besides the lines whose bytes, without
      byte-order mark and padding, some more bytes complete, it takes those that stop in such a place. */
  lemma {:induction false} TornIff(line: seq<byte>, stripBom: bool)
    ensures var body := StripNuls(StripBom(line, stripBom));
            && (IsTorn(line, stripBom) <==> !EndsWithLf(line) && (Completable(body) || HalfOutside(body)))
            && !(Completable(body) && HalfOutside(body))
  {
    hide StripNuls, StripBom, EndsWithLf, Completable, HalfOutside, IsTornBody;
    BodyIff(StripNuls(StripBom(line, stripBom)));
  }

  lemma {:induction false} BodyIff(body: seq<byte>)
    ensures IsTornBody(body) <==> Completable(body) || HalfOutside(body)
    ensures !(Completable(body) && HalfOutside(body))
  {
    if Completable(body) { CompletableIsTorn(body); }
    if Decode(body).Valid? { WholeCharacters(body); }
    if Decode(body).Truncated? { HalfCharacter(body); UnfinishedIs(Decode(body).text); }
    hide Decode, IsCutObject, Completable, Blank, Unfinished;
  }

  lemma {:induction false} CompletableIsTorn(bs: seq<byte>)
    requires Completable(bs)
    ensures IsTornBody(bs)
  {
    var more: seq<byte>, s: string :| more != [] && bs + more == Encode(s) && IsPaddedObject(s);
    var n: nat :| n <= |s| && Blank(s[..n]) && IsObject(s[n..]);
    hide Decode, IsObject, Blank, IsCutObject;
    assert s[..n] + s[n..] == s;
    assert Encode(s)[..|bs|] == bs;
    assert forall x :: x in bs ==> x in bs + more;
    ObjectBytes(s[..n], s[n..]);
    CutText(s[..n], s[n..], |bs|);
  }

  /** Such input exists: half a character after `{` counts as torn, though no object starts with those bytes. */
  lemma {:induction false} HalfAfterBrace()
    ensures HalfOutside([0x7B, 0xC3]) && IsTorn([0x7B, 0xC3], false) && !Completable([0x7B, 0xC3])
  {
    var bs: seq<byte> := [0x7B, 0xC3];
    assert bs[1..] == [0xC3] && First(bs) == Char('{', 1) && First([0xC3]) == End;
    assert Decode([0xC3]) == Truncated("");
    assert Decode(bs) == Truncated("{") by { assert ['{'] + "" == "{"; }
    hide Decode, First;
    assert StripNuls(StripBom(bs, false)) == bs;
    BraceIsCut();
    HalfCharacter(bs);
    UnfinishedIs("{");
    OutsideIsCut("{", E_ACUTE);
    BraceThen("{" + [E_ACUTE]);
  }

  lemma {:induction false} BraceIsCut()
    ensures IsCutObject("{")
  {
    hide IsPaddedObject;
    BlankStarts("");
    assert "{" + "}" == "" + "{}" && "}" != "" && !IsWs("{"[0]);
  }

  lemma {:induction false} BraceThen(t: string)
    requires |t| == 2 && t[0] == '{' && Beyond(t[1])
    ensures !IsCutObject(t)
  {
    forall u: string | IsPaddedObject(t + u) ensures false {
      var s := t + u;
      var n: nat :| n <= |s| && Blank(s[..n]) && IsObject(s[n..]);
      BlankPrefix(s, n, 0);
      assert s[0..] == s;
      BracketThenAscii(s);
    }
  }

  lemma {:induction false} BracketThenAscii(s: string)
    requires |s| > 1 && Beyond(s[1])
    ensures !IsObject(s)
  {
    forall v | WellFormed(v) && v.Container? && v.closer == '}' ensures s != Text(v) {
      var t := Text(v);
      ElementsHead('}', v.elements);
      assert t[1] == if v.pad != "" then v.pad[0] else ElementsText('}', v.elements)[0];
    }
  }
}
