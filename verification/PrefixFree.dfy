/** No JSON object is a proper prefix of another, and no complete JSON text looks cut. */
module PrefixFree {
  import opened JsonGrammar
  import opened NumberTokens
  import opened TornRecord

  lemma {:induction false} Then(q: Want, c: seq<char>, r: string, q': Want, c': seq<char>, r': string,
                                q'': Want, c'': seq<char>, r'': string)
    requires Moves(q, c, r, q', c', r') && Moves(q', c', r', q'', c'', r'')
    ensures Moves(q, c, r, q'', c'', r'')
  {
  }

  lemma {:induction false} EatBlank(q: Want, closers: seq<char>, w: string, r: string)
    requires Valid(q, closers) && Blank(w)
    ensures Moves(q, closers, w + r, q, closers, r)
    decreases |w|
  {
    if w == "" {
      assert w + r == r;
    } else {
      assert (w + r)[1..] == w[1..] + r;
      MoveWs(q, closers, w + r);
      EatBlank(q, closers, w[1..], r);
      Then(q, closers, w + r, q, closers, w[1..] + r, q, closers, r);
    }
  }

  lemma {:induction false} EatChar(q: Want, closers: seq<char>, ch: char, r: string, q': Want, closers': seq<char>)
    requires Valid(q, closers) && !IsWs(ch)
    requires
      || (q == Object && ch == '{' && q' == KeyOrClose && closers' == ['}'])
      || ((q == KeyOrClose || q == MemberOrClose || q == After) && closers != [] && ch == Top(closers) &&
          q' == After && closers' == Pop(closers))
      || (q == Colon && ch == ':' && q' == Member && closers' == closers)
      || (q == Member && ch == '{' && q' == KeyOrClose && closers' == closers + ['}'])
      || (q == Member && ch == '[' && q' == MemberOrClose && closers' == closers + [']'])
      || (q == After && closers != [] && ch == ',' && q' == ElementOf(Top(closers)) && closers' == closers)
    ensures Moves(q, closers, [ch] + r, q', closers', r)
  {
    assert ([ch] + r)[1..] == r;
    MoveChar(q, closers, [ch] + r, q', closers');
  }

  /** A text that cannot continue a number. */
  predicate NotInToken(r: string) {
    r != "" && !NumberChar(r[0])
  }

  lemma {:induction false} PadNotInToken(w: string, c: char, r: string)
    requires Blank(w) && !NumberChar(c)
    ensures NotInToken(w + ([c] + r))
  {
    if w != "" { assert (w + ([c] + r))[0] == w[0] && IsWs(w[0]); }
  }

  lemma {:induction false} RestNotInToken(closer: char, w: string, rest: Rest, r: string)
    requires IsCloser(closer) && Blank(w)
    ensures NotInToken(w + (RestText(closer, rest) + r))
  {
    var x := RestText(closer, rest);
    assert x + r == [x[0]] + (x[1..] + r);
    PadNotInToken(w, x[0], x[1..] + r);
  }

  lemma {:induction false} EatValue(closers: seq<char>, v: Value, r: string)
    requires Valid(Member, closers) && WellFormed(v) && NotInToken(r)
    ensures Moves(Member, closers, Text(v) + r, After, closers, r)
    decreases v, 1
  {
    match v
    case Scalar(token) =>
      ScalarHead(token);
      if IsNumber(token) { NumberChars(Start, token); }
      MoveToken(Member, closers, token, r);
    case Container(closer, pad, es) =>
      EatContainer(Member, closers, v, r);
  }

  lemma {:induction false} EatContainer(q: Want, closers: seq<char>, v: Value, r: string)
    requires Valid(q, closers) && (q == Member || (q == Object && v.Container? && v.closer == '}'))
    requires WellFormed(v) && v.Container?
    ensures Moves(q, closers, Text(v) + r, After, closers, r)
    decreases v, 0
  {
    var c := v.closer;
    var deeper := closers + [c];
    var inside := ElementsText(c, v.elements) + r;
    assert Text(v) + r == [Opener(c)] + (v.pad + inside);
    EatChar(q, closers, Opener(c), v.pad + inside, InsideOf(c), deeper);
    EatBlank(InsideOf(c), deeper, v.pad, inside);
    Then(q, closers, Text(v) + r, InsideOf(c), deeper, v.pad + inside, InsideOf(c), deeper, inside);
    EatElements(closers, c, v.elements, r);
    Then(q, closers, Text(v) + r, InsideOf(c), deeper, inside, After, closers, r);
  }

  lemma {:induction false} EatElements(closers: seq<char>, c: char, es: Elements, r: string)
    requires Valid(After, closers) && IsCloser(c) && ElementsWellFormed(c, es)
    ensures Moves(InsideOf(c), closers + [c], ElementsText(c, es) + r, After, closers, r)
    decreases es, 1
  {
    var deeper := closers + [c];
    assert Pop(deeper) == closers;
    if es.NoElements? {
      EatChar(InsideOf(c), deeper, c, r, After, closers);
    } else {
      ElementsHead(c, es);
      MoveElement(InsideOf(c), deeper, ElementsText(c, es) + r);
      EatItem(closers, c, es, r);
      var text := ElementsText(c, es) + r;
      Then(InsideOf(c), deeper, text, ElementOf(c), deeper, text, After, closers, r);
    }
  }

  lemma {:induction false} EatItem(closers: seq<char>, c: char, es: Elements, r: string)
    requires Valid(After, closers) && IsCloser(c) && es.Item? && ElementsWellFormed(c, es)
    ensures Moves(ElementOf(c), closers + [c], ElementsText(c, es) + r, After, closers, r)
    decreases es, 0
  {
    var deeper := closers + [c];
    var tail := RestText(c, es.rest) + r;
    var value := Text(es.value) + (es.pad + tail);
    assert ElementsText(c, es) + r == es.lead + value;
    EatLabel(deeper, c, es.lead, value);
    RestNotInToken(c, es.pad, es.rest, r);
    EatValue(deeper, es.value, es.pad + tail);
    Then(ElementOf(c), deeper, es.lead + value, Member, deeper, value, After, deeper, es.pad + tail);
    EatBlank(After, deeper, es.pad, tail);
    Then(ElementOf(c), deeper, es.lead + value, After, deeper, es.pad + tail, After, deeper, tail);
    EatRest(closers, c, es.rest, r);
    Then(ElementOf(c), deeper, es.lead + value, After, deeper, tail, After, closers, r);
  }

  lemma {:induction false} EatLabel(closers: seq<char>, c: char, lead: string, r: string)
    requires Valid(ElementOf(c), closers) && IsLabel(c, lead)
    ensures Moves(ElementOf(c), closers, lead + r, Member, closers, r)
  {
    if c == '}' {
      var name: string, w: string, w': string :|
        IsString(name) && Blank(w) && Blank(w') && lead == name + w + ":" + w';
      var colon := [':'] + (w' + r);
      assert lead + r == name + (w + colon);
      MoveToken(Key, closers, name, w + colon);
      EatBlank(Colon, closers, w, colon);
      Then(Key, closers, lead + r, Colon, closers, w + colon, Colon, closers, colon);
      EatChar(Colon, closers, ':', w' + r, Member, closers);
      Then(Key, closers, lead + r, Colon, closers, colon, Member, closers, w' + r);
      EatBlank(Member, closers, w', r);
      Then(Key, closers, lead + r, Member, closers, w' + r, Member, closers, r);
    } else {
      assert lead + r == r;
    }
  }

  lemma {:induction false} EatRest(closers: seq<char>, c: char, rest: Rest, r: string)
    requires Valid(After, closers) && IsCloser(c) && RestWellFormed(c, rest)
    ensures Moves(After, closers + [c], RestText(c, rest) + r, After, closers, r)
    decreases rest
  {
    var deeper := closers + [c];
    assert Pop(deeper) == closers;
    match rest
    case Close =>
      EatChar(After, deeper, c, r, After, closers);
    case Comma(pad, next) =>
      var more := ElementsText(c, next) + r;
      assert RestText(c, rest) + r == [','] + (pad + more);
      EatChar(After, deeper, ',', pad + more, ElementOf(c), deeper);
      EatBlank(ElementOf(c), deeper, pad, more);
      Then(After, deeper, [','] + (pad + more), ElementOf(c), deeper, pad + more, ElementOf(c), deeper, more);
      EatItem(closers, c, next, r);
      Then(After, deeper, [','] + (pad + more), ElementOf(c), deeper, more, After, closers, r);
  }

  /** A complete object, padded on both sides, has no continuation. */
  lemma {:induction false} ObjectIsFinal(w: string, x: string, w': string, t: string)
    requires Blank(w) && IsObject(x) && t != ""
    ensures !IsPaddedObject(w + x + w' + t)
  {
    var v :| WellFormed(v) && v.Container? && v.closer == '}' && x == Text(v);
    EatBlank(Object, [], w, x + w');
    EatContainer(Object, [], v, w');
    Then(Object, [], w + (x + w'), Object, [], x + w', After, [], w');
    assert !Viable(After, [], w' + t);
    assert w + x + w' + t == w + (x + w') + t;
    StartState(w + x + w' + t);
  }

  /** JSON objects are prefix-free. */
  lemma {:induction false} ObjectsArePrefixFree(s: string, t: string)
    requires IsObject(s) && t != ""
    ensures !IsObject(s + t)
  {
    ObjectIsFinal("", s, "", t);
    assert "" + s + "" + t == s + t;
    assert (s + t)[..0] == "" && (s + t)[0..] == s + t;
  }

  /** A complete JSON text is never taken for a cut object: not an object, whatever follows it in
      whitespace, and not any other value. */
  lemma {:induction false} CompleteIsNotCut(text: string)
    requires IsJsonText(text)
    ensures !IsCutObject(text) && !Blank(text)
  {
    var w: string, x: string, w': string :| Blank(w) && Blank(w') && IsValue(x) && text == w + x + w';
    var v :| WellFormed(v) && x == Text(v);
    ValueHead(v);
    assert text[|w|] == x[0];
    hide WellFormed, Text, IsPaddedObject;
    forall t: string | t != "" ensures !IsPaddedObject(text + t) {
      NotCompleted(w, v, w', t);
    }
  }

  lemma {:induction false} NotCompleted(w: string, v: Value, w': string, t: string)
    requires Blank(w) && Blank(w') && WellFormed(v) && t != ""
    ensures !IsPaddedObject(w + Text(v) + w' + t)
  {
    var x := Text(v);
    if v.Container? && v.closer == '}' {
      assert IsObject(x);
      hide *;
      ObjectIsFinal(w, x, w', t);
    } else {
      assert IsValue(x);
      ValueHead(v);
      assert x != "" && x[0] != '{';
      hide *;
      OtherValue(w, x, w' + t);
      assert w + x + w' + t == w + x + (w' + t);
    }
  }

  lemma {:induction false} BlankPrefix(s: string, n: nat, k: nat)
    requires n <= |s| && Blank(s[..n]) && k < |s| && !IsWs(s[k])
    ensures n <= k
  {
    assert forall i :: 0 <= i < n ==> s[..n][i] == s[i];
  }

  lemma {:induction false} OtherValue(w: string, x: string, t: string)
    requires Blank(w) && x != "" && !IsWs(x[0]) && x[0] != '{'
    ensures !IsPaddedObject(w + x + t)
  {
    var s := w + x + t;
    assert s[|w|] == x[0];
    forall n: nat | n <= |s| && Blank(s[..n]) ensures !IsObject(s[n..]) {
      BlankPrefix(s, n, |w|);
      assert n < |w| ==> s[n..][0] == w[n];
      if IsObject(s[n..]) { FollowsHead(Object, [], s[n..]); }
    }
  }
}
