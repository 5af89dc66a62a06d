/** Characters outside ASCII are interchangeable in JSON: they occur only inside strings, and there any of them
    may stand for any other. */
module NonAscii {
  import opened JsonGrammar
  import opened NumberTokens
  import opened TornRecord

  predicate Beyond(c: char) {
    c as int >= 0x80
  }

  /** The same text up to characters outside ASCII. */
  predicate Alike(s: string, s': string) {
    |s| == |s'| && forall i :: 0 <= i < |s| ==> s[i] == s'[i] || (Beyond(s[i]) && Beyond(s'[i]))
  }

  predicate Ascii(s: string) {
    forall i :: 0 <= i < |s| ==> !Beyond(s[i])
  }

  lemma {:induction false} AsciiAlike(s: string, s': string)
    requires Ascii(s) && Alike(s, s')
    ensures s' == s
  {
  }

  lemma {:induction false} AlikeParts(a: string, b: string, s': string)
    requires Alike(a + b, s')
    ensures |a| <= |s'| && s' == s'[..|a|] + s'[|a|..] && Alike(a, s'[..|a|]) && Alike(b, s'[|a|..])
  {
    forall i | 0 <= i < |a| ensures a[i] == s'[..|a|][i] || (Beyond(a[i]) && Beyond(s'[..|a|][i])) {
      assert (a + b)[i] == a[i];
    }
    forall i | 0 <= i < |b| ensures b[i] == s'[|a|..][i] || (Beyond(b[i]) && Beyond(s'[|a|..][i])) {
      assert (a + b)[|a| + i] == b[i];
    }
  }

  // ----- Tokens -----

  lemma {:induction false} CharAlike(s: string, s': string)
    requires Alike(s, s')
    ensures CharLength(s') == CharLength(s)
  {
    if |s| >= 6 && s[0] == '\\' {
      forall i | 0 <= i < 4 ensures HexDigit(s[2..6][i]) <==> HexDigit(s'[2..6][i]) {
        assert s[2..6][i] == s[i + 2] && s'[2..6][i] == s'[i + 2];
      }
    }
  }

  lemma {:induction false} StringAlike(s: string, s': string)
    requires StringTail(s) && Alike(s, s')
    ensures StringTail(s')
    decreases |s|
  {
    if s == "\"" {
      AsciiAlike(s, s');
    } else {
      var n := CharLength(s);
      CharAlike(s, s');
      assert s == s[..n] + s[n..];
      AlikeParts(s[..n], s[n..], s');
      StringAlike(s[n..], s'[n..]);
    }
  }

  lemma {:induction false} NameAlike(s: string, s': string)
    requires IsString(s) && Alike(s, s')
    ensures IsString(s')
  {
    assert s == s[..1] + s[1..];
    AlikeParts(s[..1], s[1..], s');
    StringAlike(s[1..], s'[1..]);
  }

  lemma {:induction false} ScalarAlike(s: string, s': string)
    requires IsScalar(s) && Alike(s, s')
    ensures IsScalar(s')
  {
    if IsString(s) {
      NameAlike(s, s');
    } else {
      if IsNumber(s) {
        NumberPattern(s);
        NumberChars(Start, s);
      }
      AsciiAlike(s, s');
    }
  }

  lemma {:induction false} BlankAlike(s: string, s': string)
    requires Blank(s) && Alike(s, s')
    ensures s' == s
  {
    AsciiAlike(s, s');
  }

  lemma {:induction false} LabelAlike(closer: char, s: string, s': string)
    requires IsLabel(closer, s) && Alike(s, s')
    ensures IsLabel(closer, s')
  {
    if closer == '}' {
      var name: string, w: string, w': string :|
        IsString(name) && Blank(w) && Blank(w') && s == name + w + ":" + w';
      assert s == name + (w + ":" + w');
      AlikeParts(name, w + ":" + w', s');
      NameAlike(name, s'[..|name|]);
      AsciiAlike(w + ":" + w', s'[|name|..]);
      assert s' == s'[..|name|] + w + ":" + w';
    }
  }

  /** One ASCII character and whitespace in front stay as they are. */
  lemma {:induction false} FrontAlike(c: char, pad: string, text: string, s': string)
    requires !Beyond(c) && Blank(pad) && Alike([c] + (pad + text), s')
    ensures 1 + |pad| <= |s'|
    ensures s' == [c] + (pad + s'[1 + |pad|..]) && Alike(text, s'[1 + |pad|..])
  {
    var front := [c] + pad;
    assert front + text == [c] + (pad + text);
    AlikeParts(front, text, s');
    AsciiAlike(front, s'[..|front|]);
    hide Alike;
  }

  // ----- Values -----

  lemma {:induction false} ValueAlike(v: Value, s': string) returns (v': Value)
    requires WellFormed(v) && Alike(Text(v), s')
    ensures WellFormed(v') && Text(v') == s' && (v.Container? ==> v'.Container? && v'.closer == v.closer)
    decreases v
  {
    hide Alike;
    match v
    case Scalar(token) =>
      ScalarAlike(token, s');
      v' := Scalar(s');
    case Container(closer, pad, es) =>
      var text := ElementsText(closer, es);
      FrontAlike(Opener(closer), pad, text, s');
      var es' := ElementsAlike(closer, es, s'[1 + |pad|..]);
      v' := Container(closer, pad, es');
  }

  lemma {:induction false} ElementsAlike(closer: char, es: Elements, s': string) returns (es': Elements)
    requires IsCloser(closer) && ElementsWellFormed(closer, es) && Alike(ElementsText(closer, es), s')
    ensures ElementsWellFormed(closer, es') && ElementsText(closer, es') == s' && (es.Item? ==> es'.Item?)
    decreases es
  {
    hide Alike;
    match es
    case NoElements =>
      AsciiAlike([closer], s');
      es' := NoElements;
    case Item(lead, value, pad, rest) =>
      var text := RestText(closer, rest);
      AlikeParts(lead, Text(value) + (pad + text), s');
      var s1 := s'[|lead|..];
      AlikeParts(Text(value), pad + text, s1);
      var s2 := s1[|Text(value)|..];
      AlikeParts(pad, text, s2);
      LabelAlike(closer, lead, s'[..|lead|]);
      BlankAlike(pad, s2[..|pad|]);
      var value' := ValueAlike(value, s1[..|Text(value)|]);
      var rest' := RestAlike(closer, rest, s2[|pad|..]);
      es' := Item(s'[..|lead|], value', pad, rest');
  }

  lemma {:induction false} RestAlike(closer: char, rest: Rest, s': string) returns (rest': Rest)
    requires IsCloser(closer) && RestWellFormed(closer, rest) && Alike(RestText(closer, rest), s')
    ensures RestWellFormed(closer, rest') && RestText(closer, rest') == s'
    decreases rest
  {
    hide Alike;
    match rest
    case Close =>
      AsciiAlike([closer], s');
      rest' := Close;
    case Comma(pad, next) =>
      FrontAlike(',', pad, ElementsText(closer, next), s');
      var next' := ElementsAlike(closer, next, s'[1 + |pad|..]);
      rest' := Comma(pad, next');
  }

  lemma {:induction false} PaddedAlike(s: string, s': string)
    requires IsPaddedObject(s) && Alike(s, s')
    ensures IsPaddedObject(s')
  {
    var n: nat :| n <= |s| && Blank(s[..n]) && IsObject(s[n..]);
    var v :| WellFormed(v) && v.Container? && v.closer == '}' && s[n..] == Text(v);
    assert s == s[..n] + s[n..];
    AlikeParts(s[..n], s[n..], s');
    BlankAlike(s[..n], s'[..n]);
    var v' := ValueAlike(v, s'[n..]);
  }

  /** Any two characters outside ASCII may follow a text in the same cases. */
  lemma {:induction false} Interchange(t: string, c: char, d: char)
    requires Beyond(c) && Beyond(d) && IsCutObject(t + [c])
    ensures IsCutObject(t + [d])
  {
    var u: string :| u != "" && IsPaddedObject(t + [c] + u);
    PaddedAlike(t + [c] + u, t + [d] + u);
    assert (t + [d])[|t|] == d;
  }
}
