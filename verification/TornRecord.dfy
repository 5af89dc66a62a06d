/** `_is_cut_json_object`: is this text a proper prefix of some JSON object? The automaton is
    proved to decide exactly that, against the grammar of module JsonGrammar. */
module TornRecord {
  import opened JsonGrammar
  import opened NumberTokens

  /** What the recogniser looks for next. */
  datatype Want = Object | Key | KeyOrClose | Colon | Member | MemberOrClose | After

  function Top(closers: seq<char>): char
    requires closers != []
  {
    closers[|closers| - 1]
  }

  function Pop(closers: seq<char>): seq<char>
    requires closers != []
  {
    closers[..|closers| - 1]
  }

  // ----- What may still follow, as languages of trees -----

  /** `t` finishes every open container, after a complete value. */
  ghost predicate Finishes(closers: seq<char>, t: string)
    decreases |closers|
  {
    if closers == [] then
      t == ""
    else
      exists w: string, rest: Rest, u: string ::
        Blank(w) && RestWellFormed(Top(closers), rest) && Finishes(Pop(closers), u) &&
        t == w + (RestText(Top(closers), rest) + u)
  }

  /** A value, then the rest of its container and of the outer ones. */
  ghost predicate ValueThen(closers: seq<char>, t: string) {
    exists v: Value, u: string :: WellFormed(v) && Finishes(closers, u) && t == Text(v) + u
  }

  /** A member `name ws : ws value`, then the rest. */
  ghost predicate MemberThen(closers: seq<char>, t: string) {
    exists lead: string, v: Value, u: string ::
      IsLabel('}', lead) && WellFormed(v) && Finishes(closers, u) && t == lead + (Text(v) + u)
  }

  ghost predicate ColonThen(closers: seq<char>, t: string) {
    exists w: string, v: Value, u: string ::
      Blank(w) && WellFormed(v) && Finishes(closers, u) && t == [':'] + (w + (Text(v) + u))
  }

  /** What may follow an element and its padding: a closer, or a comma and more elements. */
  ghost predicate RestThen(closers: seq<char>, t: string) {
    closers != [] &&
    exists rest: Rest, u: string ::
      RestWellFormed(Top(closers), rest) && Finishes(Pop(closers), u) && t == RestText(Top(closers), rest) + u
  }

  /** All elements of the innermost container, then the rest of the outer ones. */
  ghost predicate ElementsThen(closers: seq<char>, t: string) {
    closers != [] &&
    exists es: Elements, u: string ::
      ElementsWellFormed(Top(closers), es) && Finishes(Pop(closers), u) && t == ElementsText(Top(closers), es) + u
  }

  /** `t` carries the text from state `(q, closers)` to the end of the object, with no leading
      whitespace. */
  ghost predicate Follows(q: Want, closers: seq<char>, t: string) {
    match q
    case Object => IsObject(t)
    case Key => MemberThen(closers, t)
    case Member => ValueThen(closers, t)
    case Colon => ColonThen(closers, t)
    case After => RestThen(closers, t)
    case KeyOrClose => ElementsThen(closers, t)
    case MemberOrClose => ElementsThen(closers, t)
  }

  ghost function Continuations(q: Want, closers: seq<char>): string -> bool {
    (t: string) => Follows(q, closers, t)
  }

  /** `t` is whitespace, then a text in `p`. */
  ghost predicate Padded(p: string -> bool, t: string) {
    exists n: nat :: n <= |t| && Blank(t[..n]) && p(t[n..])
  }

  /** As `Follows`, after optional whitespace; after the object itself nothing may follow. */
  ghost predicate Viable(q: Want, closers: seq<char>, t: string) {
    if q == After && closers == [] then
      t == ""
    else
      Padded(Continuations(q, closers), t)
  }

  /** The states the automaton can be in. */
  predicate Valid(q: Want, closers: seq<char>) {
    (forall i :: 0 <= i < |closers| ==> IsCloser(closers[i])) &&
    (q == Object ==> closers == []) &&
    (q == Member ==> closers != []) &&
    (q == Key || q == KeyOrClose || q == Colon ==> closers != [] && Top(closers) == '}') &&
    (q == MemberOrClose ==> closers != [] && Top(closers) == ']')
  }

  // ----- First characters -----

  lemma {:induction false} ScalarHead(token: string)
    requires IsScalar(token)
    ensures token != "" && !IsWs(token[0]) && !IsCloser(token[0])
    ensures token[0] != '{' && token[0] != '[' && token[0] != ',' && token[0] != ':'
    ensures token[0] == '"' <==> IsString(token)
    ensures IsNumber(token) ==> MatchesNumber(token) && NumberChar(token[0])
    ensures NumberChar(token[0]) ==> IsNumber(token)
  {
    if IsNumber(token) {
      NumberPattern(token);
      NumberChars(Start, token);
    }
  }

  lemma {:induction false} ValueHead(v: Value)
    requires WellFormed(v)
    ensures Text(v) != "" && !IsWs(Text(v)[0]) && !IsCloser(Text(v)[0]) && Text(v)[0] != ',' && Text(v)[0] != ':'
    ensures v.Container? <==> Text(v)[0] == '{' || Text(v)[0] == '['
    ensures v.Container? ==> Text(v)[0] == Opener(v.closer)
  {
    if v.Scalar? { ScalarHead(v.token); }
  }

  lemma {:induction false} LabelHead(closer: char, lead: string)
    requires IsLabel(closer, lead)
    ensures closer == '}' ==> lead != "" && lead[0] == '"'
  {
  }

  lemma {:induction false} ElementsHead(closer: char, es: Elements)
    requires IsCloser(closer) && ElementsWellFormed(closer, es)
    ensures ElementsText(closer, es) != "" && !IsWs(ElementsText(closer, es)[0])
    ensures es.NoElements? <==> ElementsText(closer, es)[0] == closer
    ensures es.Item? && closer == '}' ==> ElementsText(closer, es)[0] == '"'
  {
    if es.Item? {
      LabelHead(closer, es.lead);
      ValueHead(es.value);
    }
  }

  lemma {:induction false} FollowsHead(q: Want, closers: seq<char>, t: string)
    requires Valid(q, closers)
    requires Follows(q, closers, t)
    ensures t != "" && !IsWs(t[0])
    ensures q == Object ==> t[0] == '{'
    ensures q == Key ==> t[0] == '"'
    ensures q == Colon ==> t[0] == ':'
    ensures q == KeyOrClose ==> t[0] == '"' || t[0] == '}'
    ensures q == Member ==> !IsCloser(t[0])
    ensures q == After ==> t[0] == ',' || t[0] == Top(closers)
  {
    match q
    case Object =>
    case Key =>
      var lead: string, v: Value, u: string :|
        IsLabel('}', lead) && WellFormed(v) && Finishes(closers, u) && t == lead + (Text(v) + u);
    case Member =>
      var v: Value, u: string :| WellFormed(v) && Finishes(closers, u) && t == Text(v) + u;
      ValueHead(v);
    case Colon =>
    case After =>
    case _ =>
      var es: Elements, u: string :|
        ElementsWellFormed(Top(closers), es) && Finishes(Pop(closers), u) && t == ElementsText(Top(closers), es) + u;
      ElementsHead(Top(closers), es);
  }

  lemma {:induction false} Unfinish(closers: seq<char>, t: string) returns (w: string, rest: Rest, u: string)
    requires closers != [] && Finishes(closers, t)
    ensures Blank(w) && RestWellFormed(Top(closers), rest) && Finishes(Pop(closers), u)
    ensures t == w + (RestText(Top(closers), rest) + u)
  {
    w, rest, u :|
      Blank(w) && RestWellFormed(Top(closers), rest) && Finishes(Pop(closers), u) &&
      t == w + (RestText(Top(closers), rest) + u);
  }

  /** What follows a value inside an open container starts with a delimiter. */
  lemma {:induction false} FinishesHead(closers: seq<char>, t: string)
    requires closers != [] && Finishes(closers, t)
    ensures t != "" && (IsWs(t[0]) || t[0] == ',' || t[0] == Top(closers))
  {
    var w, rest, u := Unfinish(closers, t);
  }

  // ----- Whitespace -----

  lemma {:induction false} Pad(p: string -> bool, w: string, t: string)
    requires Blank(w) && p(t)
    ensures Padded(p, w + t)
  {
    assert (w + t)[|w|..] == t && (w + t)[..|w|] == w;
  }

  lemma {:induction false} Unpad(p: string -> bool, t: string) returns (w: string, x: string)
    requires Padded(p, t)
    ensures Blank(w) && p(x) && t == w + x
  {
    var n: nat :| n <= |t| && Blank(t[..n]) && p(t[n..]);
    w, x := t[..n], t[n..];
  }

  lemma {:induction false} PadOne(p: string -> bool, c: char, t: string)
    requires IsWs(c)
    requires forall x: string :: p(x) ==> x != "" && !IsWs(x[0])
    ensures Padded(p, [c] + t) <==> Padded(p, t)
  {
    var s := [c] + t;
    if Padded(p, s) {
      var n: nat :| n <= |s| && Blank(s[..n]) && p(s[n..]);
      assert n != 0;
      assert s[n..] == t[n - 1..];
      assert s[..n][1..] == t[..n - 1];
    }
    if Padded(p, t) {
      var w, x := Unpad(p, t);
      Pad(p, [c] + w, x);
      assert s == [c] + w + x;
    }
  }

  lemma {:induction false} PadNone(p: string -> bool, t: string)
    requires t != "" && !IsWs(t[0])
    ensures Padded(p, t) <==> p(t)
  {
    if Padded(p, t) {
      var w, x := Unpad(p, t);
      assert t == w + x;
      assert w == "";
      assert t == x;
    }
    if p(t) {
      Pad(p, "", t);
      assert "" + t == t;
    }
  }

  lemma {:induction false} SkipWs(q: Want, closers: seq<char>, c: char, t: string)
    requires Valid(q, closers) && IsWs(c) && !(q == After && closers == [])
    ensures Viable(q, closers, [c] + t) <==> Viable(q, closers, t)
  {
    forall x: string | Continuations(q, closers)(x) ensures x != "" && !IsWs(x[0]) {
      FollowsHead(q, closers, x);
    }
    PadOne(Continuations(q, closers), c, t);
  }

  lemma {:induction false} NoWs(q: Want, closers: seq<char>, t: string)
    requires !(q == After && closers == [])
    requires t != "" && !IsWs(t[0])
    ensures Viable(q, closers, t) <==> Follows(q, closers, t)
  {
    PadNone(Continuations(q, closers), t);
  }

  lemma {:induction false} FinishesIsAfter(closers: seq<char>, t: string)
    ensures Finishes(closers, t) <==> Viable(After, closers, t)
  {
    if closers != [] {
      if Finishes(closers, t) {
        var w, rest, u := Unfinish(closers, t);
        assert RestThen(closers, RestText(Top(closers), rest) + u);
        Pad(Continuations(After, closers), w, RestText(Top(closers), rest) + u);
      }
      if Viable(After, closers, t) {
        var w, x := Unpad(Continuations(After, closers), t);
        assert RestThen(closers, x);
        var rest: Rest, u: string :|
          RestWellFormed(Top(closers), rest) && Finishes(Pop(closers), u) && x == RestText(Top(closers), rest) + u;
      }
    }
  }

  // ----- One step of the automaton keeps the set of viable continuations -----

  lemma {:induction false} OpenDown(closers: seq<char>, closer: char, t: string)
      returns (w: string, es: Elements, u: string)
    requires IsCloser(closer) && ValueThen(closers, [Opener(closer)] + t)
    ensures Blank(w) && ElementsWellFormed(closer, es) && Finishes(closers, u)
    ensures t == w + (ElementsText(closer, es) + u)
  {
    var s := [Opener(closer)] + t;
    var v: Value;
    v, u := UnValue(closers, s);
    ValueHead(v);
    w, es := v.pad, v.elements;
    InsideText(v, u, t);
  }

  lemma {:induction false} InsideText(v: Value, u: string, t: string)
    requires v.Container? && [Opener(v.closer)] + t == Text(v) + u
    ensures t == v.pad + (ElementsText(v.closer, v.elements) + u)
  {
    hide ElementsText;
    var o := [Opener(v.closer)];
    assert t == (o + t)[1..];
    assert Text(v) + u == o + (v.pad + (ElementsText(v.closer, v.elements) + u));
  }

  lemma {:induction false} OpenUp(closers: seq<char>, closer: char, w: string, es: Elements, u: string)
    requires IsCloser(closer)
    requires Blank(w) && ElementsWellFormed(closer, es) && Finishes(closers, u)
    ensures ValueThen(closers, [Opener(closer)] + (w + (ElementsText(closer, es) + u)))
  {
    var v := Container(closer, w, es);
    assert WellFormed(v);
    assert [Opener(closer)] + (w + (ElementsText(closer, es) + u)) == Text(v) + u;
  }

  lemma {:induction false} UnElements(closers: seq<char>, t: string) returns (es: Elements, u: string)
    requires ElementsThen(closers, t)
    ensures closers != [] && ElementsWellFormed(Top(closers), es) && Finishes(Pop(closers), u)
    ensures t == ElementsText(Top(closers), es) + u
  {
    es, u :|
      ElementsWellFormed(Top(closers), es) && Finishes(Pop(closers), u) && t == ElementsText(Top(closers), es) + u;
  }

  function InsideOf(closer: char): Want {
    if closer == '}' then KeyOrClose else MemberOrClose
  }

  lemma {:induction false} OpenInside(closers: seq<char>, closer: char, t: string)
    requires IsCloser(closer) && ValueThen(closers, [Opener(closer)] + t)
    ensures Viable(InsideOf(closer), closers + [closer], t)
  {
    var deeper := closers + [closer];
    assert Top(deeper) == closer && Pop(deeper) == closers;
    var w, es, u := OpenDown(closers, closer, t);
    var x := ElementsText(closer, es) + u;
    assert ElementsThen(deeper, x);
    hide ElementsThen, ElementsText, Padded, Blank, ElementsWellFormed, Finishes;
    Pad(Continuations(InsideOf(closer), deeper), w, x);
  }

  lemma {:induction false} OpenStep(closers: seq<char>, closer: char, t: string)
    requires IsCloser(closer)
    ensures Follows(Member, closers, [Opener(closer)] + t) <==> Viable(InsideOf(closer), closers + [closer], t)
  {
    var deeper := closers + [closer];
    assert Top(deeper) == closer && Pop(deeper) == closers;
    if ValueThen(closers, [Opener(closer)] + t) {
      OpenInside(closers, closer, t);
    } else if Viable(InsideOf(closer), deeper, t) {
      var w, x := Unpad(Continuations(InsideOf(closer), deeper), t);
      var es, u := UnElements(deeper, x);
      OpenUp(closers, closer, w, es, u);
    }
  }

  lemma {:induction false} ObjectStep(t: string)
    ensures Follows(Object, [], ['{'] + t) <==> Viable(KeyOrClose, ['}'], t)
  {
    OpenStep([], '}', t);
    var s := ['{'] + t;
    if Follows(Member, [], s) {
      var v: Value, u: string :| WellFormed(v) && Finishes([], u) && s == Text(v) + u;
      ValueHead(v);
      assert s[0] == Text(v)[0] && s == Text(v);
    }
    if IsObject(s) {
      var v :| WellFormed(v) && v.Container? && v.closer == '}' && s == Text(v);
      assert Finishes([], "") && s == Text(v) + "";
    }
    assert [] + ['}'] == ['}'];
  }

  lemma {:induction false} CloseEmptyStep(q: Want, closers: seq<char>, t: string)
    requires q == KeyOrClose || q == MemberOrClose
    requires Valid(q, closers)
    ensures Follows(q, closers, [Top(closers)] + t) <==> Viable(After, Pop(closers), t)
  {
    var c := Top(closers);
    var s := [c] + t;
    FinishesIsAfter(Pop(closers), t);
    if Follows(q, closers, s) {
      var es: Elements, u: string :|
        ElementsWellFormed(c, es) && Finishes(Pop(closers), u) && s == ElementsText(c, es) + u;
      ElementsHead(c, es);
      assert s[0] == ElementsText(c, es)[0];
      assert s[1..] == t && s[1..] == u;
    }
    if Finishes(Pop(closers), t) {
      assert ElementsWellFormed(c, NoElements) && s == ElementsText(c, NoElements) + t;
    }
  }

  /** With elements ahead, `*_or_close` behaves as the plain state. */
  lemma {:induction false} ElementStep(q: Want, closers: seq<char>, t: string)
    requires q == KeyOrClose || q == MemberOrClose
    requires Valid(q, closers)
    requires t != "" && t[0] != Top(closers)
    ensures Follows(q, closers, t) <==> Follows(if q == KeyOrClose then Key else Member, closers, t)
  {
    var c := Top(closers);
    if Follows(q, closers, t) {
      var es: Elements, u: string :|
        ElementsWellFormed(c, es) && Finishes(Pop(closers), u) && t == ElementsText(c, es) + u;
      assert es.Item?;
      ItemFollows(closers, es, u);
    }
    if Follows(if q == KeyOrClose then Key else Member, closers, t) {
      var es, u := FollowsItem(closers, t);
    }
  }

  /** An element, the rest of its container, and what finishes the outer ones. */
  lemma {:induction false} ItemFollows(closers: seq<char>, es: Elements, u: string)
    requires closers != [] && IsCloser(Top(closers))
    requires es.Item? && ElementsWellFormed(Top(closers), es) && Finishes(Pop(closers), u)
    ensures Follows(ElementOf(Top(closers)), closers, ElementsText(Top(closers), es) + u)
  {
    var c := Top(closers);
    var u' := es.pad + (RestText(c, es.rest) + u);
    assert Finishes(closers, u');
    assert ElementsText(c, es) + u == es.lead + (Text(es.value) + u');
    if c == ']' { assert es.lead + (Text(es.value) + u') == Text(es.value) + u'; }
  }

  lemma {:induction false} FollowsItem(closers: seq<char>, t: string) returns (es: Elements, u: string)
    requires closers != [] && IsCloser(Top(closers))
    requires Follows(ElementOf(Top(closers)), closers, t)
    ensures es.Item? && ElementsWellFormed(Top(closers), es) && Finishes(Pop(closers), u)
    ensures t == ElementsText(Top(closers), es) + u
  {
    hide *;
    var lead, v, u0 := UnElement(closers, t);
    var w, rest;
    w, rest, u := Unfinish(closers, u0);
    es := Item(lead, v, w, rest);
    ItemThen(Top(closers), lead, v, w, rest, u);
  }

  lemma {:induction false} ItemThen(c: char, lead: string, v: Value, w: string, rest: Rest, u: string)
    requires IsLabel(c, lead) && WellFormed(v) && Blank(w) && RestWellFormed(c, rest)
    ensures var es := Item(lead, v, w, rest);
            && ElementsWellFormed(c, es)
            && ElementsText(c, es) + u == lead + (Text(v) + (w + (RestText(c, rest) + u)))
  {
    hide WellFormed, RestWellFormed, IsLabel, Text, RestText, Blank;
  }

  lemma {:induction false} UnElement(closers: seq<char>, t: string) returns (lead: string, v: Value, u: string)
    requires closers != [] && IsCloser(Top(closers))
    requires Follows(ElementOf(Top(closers)), closers, t)
    ensures IsLabel(Top(closers), lead) && WellFormed(v) && Finishes(closers, u) && t == lead + (Text(v) + u)
  {
    hide WellFormed, Finishes, Text;
    if Top(closers) == '}' {
      assert MemberThen(closers, t);
      hide IsLabel;
      lead, v, u :| IsLabel('}', lead) && WellFormed(v) && Finishes(closers, u) && t == lead + (Text(v) + u);
    } else {
      lead := "";
      assert ValueThen(closers, t);
      v, u :| WellFormed(v) && Finishes(closers, u) && t == Text(v) + u;
      assert t == lead + (Text(v) + u);
    }
  }

  lemma {:induction false} ColonStep(closers: seq<char>, t: string)
    ensures closers != [] ==> (Follows(Colon, closers, [':'] + t) <==> Viable(Member, closers, t))
  {
    if closers != [] && Follows(Colon, closers, [':'] + t) {
      var w: string, v: Value, u: string :|
        Blank(w) && WellFormed(v) && Finishes(closers, u) && [':'] + t == [':'] + (w + (Text(v) + u));
      assert t == ([':'] + t)[1..] == w + (Text(v) + u);
      assert ValueThen(closers, Text(v) + u);
      Pad(Continuations(Member, closers), w, Text(v) + u);
    }
    if closers != [] && Viable(Member, closers, t) {
      var w, x := Unpad(Continuations(Member, closers), t);
      var v: Value, u: string :| WellFormed(v) && Finishes(closers, u) && x == Text(v) + u;
      assert [':'] + t == [':'] + (w + (Text(v) + u));
    }
  }

  lemma {:induction false} Cons(c: char, w: string, x: string, u: string)
    ensures ([c] + (w + x)) + u == [c] + (w + (x + u))
  {
  }

  lemma {:induction false} CommaDown(closers: seq<char>, t: string) returns (w: string, es: Elements, u: string)
    requires closers != [] && IsCloser(Top(closers)) && RestThen(closers, [','] + t)
    ensures Blank(w) && es.Item? && ElementsWellFormed(Top(closers), es) && Finishes(Pop(closers), u)
    ensures t == w + (ElementsText(Top(closers), es) + u)
  {
    var c := Top(closers);
    var s := [','] + t;
    var rest: Rest;
    rest, u :| RestWellFormed(c, rest) && Finishes(Pop(closers), u) && s == RestText(c, rest) + u;
    assert s[0] == RestText(c, rest)[0];
    w, es := rest.pad, rest.next;
    Cons(',', w, ElementsText(c, es), u);
    assert t == s[1..];
  }

  lemma {:induction false} CommaUp(closers: seq<char>, w: string, es: Elements, u: string)
    requires closers != [] && IsCloser(Top(closers))
    requires Blank(w) && es.Item? && ElementsWellFormed(Top(closers), es) && Finishes(Pop(closers), u)
    ensures RestThen(closers, [','] + (w + (ElementsText(Top(closers), es) + u)))
  {
    var c := Top(closers);
    var rest := Rest.Comma(w, es);
    assert RestWellFormed(c, rest);
    assert [','] + (w + (ElementsText(c, es) + u)) == RestText(c, rest) + u;
  }

  function ElementOf(closer: char): Want {
    if closer == '}' then Key else Member
  }

  lemma {:induction false} CommaStep(closers: seq<char>, t: string)
    requires closers != [] && IsCloser(Top(closers))
    ensures Follows(After, closers, [','] + t) <==> Viable(ElementOf(Top(closers)), closers, t)
  {
    var c := Top(closers);
    var p := Continuations(ElementOf(c), closers);
    if RestThen(closers, [','] + t) {
      var w, es, u := CommaDown(closers, t);
      ItemFollows(closers, es, u);
      Pad(p, w, ElementsText(c, es) + u);
    }
    if Padded(p, t) {
      var w, x := Unpad(p, t);
      var es, u := FollowsItem(closers, x);
      CommaUp(closers, w, es, u);
    }
  }

  lemma {:induction false} CloseStep(closers: seq<char>, t: string)
    requires closers != [] && IsCloser(Top(closers))
    ensures Follows(After, closers, [Top(closers)] + t) <==> Viable(After, Pop(closers), t)
  {
    var c := Top(closers);
    var s := [c] + t;
    FinishesIsAfter(Pop(closers), t);
    if Follows(After, closers, s) {
      var rest: Rest, u: string :| RestWellFormed(c, rest) && Finishes(Pop(closers), u) && s == RestText(c, rest) + u;
      assert s[0] == RestText(c, rest)[0];
      assert rest.Close?;
      assert t == s[1..] == u;
    }
    if Finishes(Pop(closers), t) {
      assert RestWellFormed(c, Rest.Close) && s == RestText(c, Rest.Close) + t;
    }
  }

  // ----- Tokens -----

  /** Two strings that begin the same text are the same string. */
  lemma {:induction false} StringTailUnique(x: string, u: string, y: string, w: string)
    requires StringTail(x) && StringTail(y) && x + u == y + w
    ensures x == y && u == w
    decreases |x|
  {
    assert (x + u)[0] == x[0] && (y + w)[0] == y[0];
    if x == "\"" || y == "\"" {
      assert CharLength("\"") == 0;
      assert CharLength(x) == 0 && CharLength(y) == 0;
      assert u == (x + u)[1..] && w == (y + w)[1..];
    } else {
      var n := CharLength(x);
      CharLengthStable(x, u);
      CharLengthStable(y, w);
      assert x[n..] + u == (x + u)[n..] == (y + w)[n..] == y[n..] + w;
      StringTailUnique(x[n..], u, y[n..], w);
      assert x == x[..n] + x[n..] && y == y[..n] + y[n..];
      assert x[..n] == (x + u)[..n] == (y + w)[..n] == y[..n];
    }
  }

  datatype Skip = Past(end: nat) | Cut | Bad

  /** The length of the match of `_STRING_RUN` on `r`: all complete characters. */
  function RunLength(r: string): (n: nat)
    ensures n <= |r|
    decreases |r|
  {
    var n := CharLength(r);
    if n == 0 then 0 else n + RunLength(r[n..])
  }

  /** `_CUT_ESCAPE.match(text, stop)` */
  predicate CutEscape(rest: string) {
    rest == "\\" || (2 <= |rest| <= 5 && rest[0] == '\\' && rest[1] == 'u' && AllHex(rest[2..]))
  }

  function SkipString(text: string, pos: nat): Skip
    requires pos < |text|
  {
    var stop := pos + 1 + RunLength(text[pos + 1..]);
    if stop == |text| then Cut
    else if text[stop] == '"' then Past(stop + 1)
    else if CutEscape(text[stop..]) then Cut
    else Bad
  }

  /** Reading a run of characters before a string's end. */
  lemma {:induction false} RunTail(r: string, t: string)
    ensures StringTail(r + t) <==> StringTail(r[RunLength(r)..] + t)
    decreases |r|
  {
    var n := CharLength(r);
    if n != 0 {
      CharLengthStable(r, t);
      assert (r + t)[n..] == r[n..] + t;
      assert (r + t)[0] == r[0] && r[0] != '"';
      RunTail(r[n..], t);
      assert r[n..][RunLength(r[n..])..] == r[RunLength(r)..];
    }
  }

  lemma {:induction false} RunStuck(r: string)
    ensures CharLength(r[RunLength(r)..]) == 0
    decreases |r|
  {
    var n := CharLength(r);
    if n != 0 {
      RunStuck(r[n..]);
      assert r[n..][RunLength(r[n..])..] == r[RunLength(r)..];
    }
  }

  /** The first character of a string tail, when it is the complete character `r` starts with. */
  lemma {:induction false} SameFirstChar(x: string, u: string, r: string, t: string)
    requires StringTail(x) && x + u == r + t && CharLength(r) > 0
    ensures CharLength(x) == CharLength(r) && StringTail(x[CharLength(r)..])
    ensures x[CharLength(r)..] + u == r[CharLength(r)..] + t
  {
    assert r[0] == (r + t)[0] == (x + u)[0] == x[0] && r[0] != '"';
    assert CharLength(x) > 0;
    CharLengthStable(r, t);
    CharLengthStable(x, u);
    var n := CharLength(r);
    assert x[n..] + u == (x + u)[n..] == (r + t)[n..] == r[n..] + t;
  }

  lemma {:induction false} RunPrefix(r: string, x: string, u: string, t: string) returns (y: string)
    requires StringTail(x) && x + u == r + t
    ensures StringTail(y) && y + u == r[RunLength(r)..] + t
    decreases |r|
  {
    y := x;
    var n := CharLength(r);
    if n != 0 {
      SameFirstChar(x, u, r, t);
      y := RunPrefix(r[n..], x[n..], u, t);
      assert r[n..][RunLength(r[n..])..] == r[RunLength(r)..];
    }
  }

  /** A run and the quotation mark after it close the string. */
  lemma {:induction false} RunClosed(r: string)
    requires RunLength(r) < |r| && r[RunLength(r)] == '"'
    ensures StringTail(r[..RunLength(r) + 1])
    decreases |r|
  {
    hide CharLength;
    var n := CharLength(r);
    var x := r[..RunLength(r) + 1];
    if n == 0 {
      assert x == "\"";
    } else {
      CharLengthTrim(r, x);
      RunClosed(r[n..]);
      assert x[n..] == r[n..][..RunLength(r[n..]) + 1];
      TailStep(x, n);
    }
  }

  lemma {:induction false} TailStep(x: string, n: nat)
    requires 0 < n <= |x| && CharLength(x) == n && StringTail(x[n..])
    ensures StringTail(x)
  {
  }

  lemma {:induction false} CharLengthTrim(s: string, r: string)
    requires r <= s && 0 < CharLength(s) <= |r|
    ensures CharLength(r) == CharLength(s)
  {
    if |r| >= 6 { assert s[2..6] == r[2..6]; }
  }

  /** A completed string token. */
  lemma {:induction false} SkipStringPast(text: string, pos: nat)
    requires pos < |text| && text[pos] == '"' && SkipString(text, pos).Past?
    ensures var end := SkipString(text, pos).end; pos < end <= |text| && IsString(text[pos..end])
  {
    var r := text[pos + 1..];
    RunClosed(r);
    assert text[pos..SkipString(text, pos).end][1..] == r[..RunLength(r) + 1];
  }

  /** A string cut by the end of the text: some continuation completes it. */
  lemma {:induction false} SkipStringCut(text: string, pos: nat) returns (t: string)
    requires pos < |text| && text[pos] == '"' && SkipString(text, pos).Cut?
    ensures t != "" && IsString(text[pos..] + t)
  {
    hide CutEscape, RunLength, StringTail, IsString;
    var r := text[pos + 1..];
    assert r[RunLength(r)..] == text[pos + 1 + RunLength(r)..];
    t := TailCompletion(r);
    QuotedTail(text[pos..], r, t);
  }

  lemma {:induction false} QuotedTail(s: string, r: string, t: string)
    requires s != "" && s[0] == '"' && s[1..] == r && StringTail(r + t)
    ensures IsString(s + t)
  {
    hide StringTail;
    assert (s + t)[1..] == r + t;
  }

  lemma {:induction false} TailCompletion(r: string) returns (t: string)
    requires r[RunLength(r)..] == "" || CutEscape(r[RunLength(r)..])
    ensures t != "" && StringTail(r + t)
  {
    var rest := r[RunLength(r)..];
    if rest == "" {
      t := "\"";
      assert rest + t == "\"";
    } else {
      t := EscapeCompletion(rest);
    }
    RunTail(r, t);
  }

  lemma {:induction false} EscapeCompletion(rest: string) returns (t: string)
    requires CutEscape(rest)
    ensures t != "" && StringTail(rest + t)
  {
    if rest == "\\" {
      t := "n\"";
      assert CharLength(rest + t) == 2;
      assert (rest + t)[2..] == "\"";
    } else {
      var zeros := seq(6 - |rest|, _ => '0');
      t := zeros + "\"";
      var s := rest + t;
      assert s[..6] == rest + zeros;
      assert AllHex(s[2..6]) by {
        forall i | 0 <= i < 4 ensures HexDigit(s[2..6][i]) {
          if i + 2 < |rest| { assert s[2..6][i] == rest[2..][i]; } else { assert s[2..6][i] == '0'; }
        }
      }
      assert CharLength(s) == 6;
      assert s[6..] == "\"";
    }
  }

  /** A string that no continuation completes. */
  lemma {:induction false} SkipStringBad(text: string, pos: nat, x: string, u: string, t: string)
    requires pos < |text| && text[pos] == '"' && IsString(x) && x + u == text[pos..] + t
    ensures !SkipString(text, pos).Bad?
  {
    var r := text[pos + 1..];
    assert x[1..] + u == (x + u)[1..] == r + t;
    var y := RunPrefix(r, x[1..], u, t);
    RunStuck(r);
    var rest := r[RunLength(r)..];
    if rest != "" && rest[0] != '"' {
      StuckEscape(y, u, rest, t);
      assert rest == text[pos + 1 + RunLength(r)..];
    }
  }

  lemma {:induction false} StuckEscape(y: string, u: string, rest: string, t: string)
    requires StringTail(y) && y + u == rest + t && rest != "" && rest[0] != '"'
    ensures CharLength(rest) > 0 || CutEscape(rest)
  {
    var s := rest + t;
    assert s[0] == y[0] == rest[0];
    CharLengthStable(y, u);
    var n := CharLength(y);
    if |rest| >= n {
      if n == 6 { assert s[2..6] == rest[2..6]; }
    } else if n == 6 && |rest| >= 2 {
      forall i | 0 <= i < |rest[2..]| ensures HexDigit(rest[2..][i]) {
        assert rest[2..][i] == s[2..6][i];
      }
      assert s[1] == rest[1];
    }
  }

  /** The end of `_NUMBER_RUN` from `pos`. */
  function NumberRunEnd(text: string, pos: nat): (end: nat)
    requires pos <= |text|
    ensures pos <= end <= |text|
    ensures forall i :: pos <= i < end ==> NumberChar(text[i])
    ensures end < |text| ==> !NumberChar(text[end])
    decreases |text| - pos
  {
    if pos < |text| && NumberChar(text[pos]) then NumberRunEnd(text, pos + 1) else pos
  }

  const LITERALS: seq<string> := ["true", "false", "null"]

  /** The loop over the three literals, from the `i`-th on. */
  function SkipLiteral(text: string, pos: nat, i: nat): Skip
    requires pos < |text| && i <= |LITERALS|
    decreases |LITERALS| - i
  {
    if i == |LITERALS| then Bad
    else
      var head := text[pos..if pos + 5 <= |text| then pos + 5 else |text|];
      var word := LITERALS[i];
      if word <= head then Past(pos + |word|)
      else if |text| - pos < |word| && head <= word then Cut
      else SkipLiteral(text, pos, i + 1)
  }

  function SkipScalar(text: string, pos: nat): Skip
    requires pos < |text|
  {
    var end := NumberRunEnd(text, pos);
    if end > pos then
      if end == |text| then (if MatchesCutNumber(text[pos..end]) then Cut else Bad)
      else if MatchesNumber(text[pos..end]) then Past(end)
      else Bad
    else SkipLiteral(text, pos, 0)
  }

  lemma {:induction false} LiteralHead(text: string, pos: nat, word: string)
    requires pos < |text| && 1 <= |word| <= 5
    ensures var head := text[pos..if pos + 5 <= |text| then pos + 5 else |text|];
            word <= head <==> word <= text[pos..]
    ensures var head := text[pos..if pos + 5 <= |text| then pos + 5 else |text|];
            |text| - pos < |word| ==> head == text[pos..]
  {
    var head := text[pos..if pos + 5 <= |text| then pos + 5 else |text|];
    assert head <= text[pos..];
    if word <= text[pos..] { assert word == text[pos..][..|word|] == head[..|word|]; }
  }

  lemma {:induction false} SkipLiteralIs(text: string, pos: nat)
    requires pos < |text|
    ensures var r := SkipLiteral(text, pos, 0); var rest := text[pos..];
            && (r.Past? ==> r.end <= |text| && r.end > pos && IsLiteral(text[pos..r.end]))
            && (r.Cut? ==> (exists w: string :: IsLiteral(w) && rest < w))
            && (r.Bad? ==> (forall w: string :: IsLiteral(w) ==> !(w <= rest) && !(rest <= w)))
            && (r.Cut? ==> (forall w: string :: IsLiteral(w) ==> !(w <= rest)))
  {
    var rest := text[pos..];
    LiteralHead(text, pos, "true");
    LiteralHead(text, pos, "false");
    LiteralHead(text, pos, "null");
    assert LITERALS[0] == "true" && LITERALS[1] == "false" && LITERALS[2] == "null";
    assert SkipLiteral(text, pos, 3) == Bad;
    var r2, r1 := SkipLiteral(text, pos, 2), SkipLiteral(text, pos, 1);
    assert rest[0] == text[pos];
    if r2.Past? && r2.end <= |text| { assert text[pos..r2.end] == rest[..r2.end - pos]; }
    if r1.Past? && r1.end <= |text| { assert text[pos..r1.end] == rest[..r1.end - pos]; }
    var r := SkipLiteral(text, pos, 0);
    if r.Past? && r.end <= |text| { assert text[pos..r.end] == rest[..r.end - pos]; }
    if r.Cut? {
      assert IsLiteral("true") && IsLiteral("false") && IsLiteral("null");
      assert rest < "true" || rest < "false" || rest < "null";
    }
  }

  lemma {:induction false} StringUnique(x: string, u: string, y: string, w: string)
    requires IsString(x) && IsString(y) && x + u == y + w
    ensures x == y && u == w
  {
    assert x[1..] + u == (x + u)[1..] == (y + w)[1..] == y[1..] + w;
    StringTailUnique(x[1..], u, y[1..], w);
    assert x == ['"'] + x[1..] && y == ['"'] + y[1..];
  }

  lemma {:induction false} UnValue(closers: seq<char>, t: string) returns (v: Value, u: string)
    requires ValueThen(closers, t)
    ensures WellFormed(v) && Finishes(closers, u) && t == Text(v) + u && Text(v) != "" && t[0] == Text(v)[0]
  {
    v, u :| WellFormed(v) && Finishes(closers, u) && t == Text(v) + u;
    ValueHead(v);
  }

  /** After a complete token only one continuation is left: the one after the token. */
  lemma {:induction false} StringValueStep(closers: seq<char>, token: string, t: string)
    requires IsString(token)
    ensures Follows(Member, closers, token + t) <==> Viable(After, closers, t)
  {
    FinishesIsAfter(closers, t);
    if ValueThen(closers, token + t) {
      var v, u := UnValue(closers, token + t);
      ValueHead(v);
      ScalarHead(v.token);
      StringUnique(token, t, v.token, u);
    }
    if Finishes(closers, t) {
      assert WellFormed(Scalar(token)) && token + t == Text(Scalar(token)) + t;
    }
  }

  lemma {:induction false} UnMember(closers: seq<char>, t: string)
      returns (name: string, w: string, w': string, v: Value, u: string)
    requires MemberThen(closers, t)
    ensures IsString(name) && Blank(w) && Blank(w') && WellFormed(v) && Finishes(closers, u)
    ensures t == name + (w + ([':'] + (w' + (Text(v) + u))))
  {
    hide WellFormed, Finishes, Text, IsString, Blank;
    var lead: string;
    lead, v, u :| IsLabel('}', lead) && WellFormed(v) && Finishes(closers, u) && t == lead + (Text(v) + u);
    name, w, w' :| IsString(name) && Blank(w) && Blank(w') && lead == name + w + ":" + w';
  }

  lemma {:induction false} StringKeyDown(closers: seq<char>, token: string, t: string)
    requires IsString(token) && closers != [] && MemberThen(closers, token + t)
    ensures Viable(Colon, closers, t)
  {
    var name, w, w', v, u := UnMember(closers, token + t);
    var x := [':'] + (w' + (Text(v) + u));
    StringUnique(token, t, name, w + x);
    assert ColonThen(closers, x);
    Pad(Continuations(Colon, closers), w, x);
  }

  lemma {:induction false} StringKeyUp(closers: seq<char>, token: string, w: string, x: string)
    requires IsString(token) && Blank(w) && ColonThen(closers, x)
    ensures MemberThen(closers, token + (w + x))
  {
    var w': string, v: Value, u: string :|
      Blank(w') && WellFormed(v) && Finishes(closers, u) && x == [':'] + (w' + (Text(v) + u));
    hide IsString, Blank, WellFormed, Finishes, Text;
    var lead := token + w + ":" + w';
    assert IsLabel('}', lead);
    assert token + (w + x) == lead + (Text(v) + u);
  }

  lemma {:induction false} StringKeyStep(closers: seq<char>, token: string, t: string)
    requires IsString(token) && closers != []
    ensures Follows(Key, closers, token + t) <==> Viable(Colon, closers, t)
  {
    if MemberThen(closers, token + t) {
      StringKeyDown(closers, token, t);
    } else if Viable(Colon, closers, t) {
      var w, x := Unpad(Continuations(Colon, closers), t);
      StringKeyUp(closers, token, w, x);
    }
  }

  /** A value that starts with neither a bracket nor a quotation mark is a number or a literal. */
  lemma {:induction false} UnScalar(closers: seq<char>, s: string) returns (token: string, u: string)
    requires ValueThen(closers, s)
    requires s != "" && s[0] != '{' && s[0] != '[' && s[0] != '"'
    ensures IsNumber(token) || IsLiteral(token)
    ensures Finishes(closers, u) && s == token + u && token != "" && s[0] == token[0]
  {
    var v: Value;
    v, u := UnValue(closers, s);
    ValueHead(v);
    token := v.token;
    ScalarHead(token);
  }

  lemma {:induction false} ScalarUp(closers: seq<char>, token: string, t: string)
    requires IsScalar(token) && Finishes(closers, t)
    ensures ValueThen(closers, token + t)
  {
    assert WellFormed(Scalar(token)) && token + t == Text(Scalar(token)) + t;
  }

  predicate AllNumberChars(s: string) {
    forall i :: 0 <= i < |s| ==> NumberChar(s[i])
  }

  /** A run of number characters does not reach past where another run of the same text stops. */
  lemma {:induction false} RunStops(x: string, u: string, y: string, w: string)
    requires x + u == y + w && AllNumberChars(y)
    requires u == "" || !NumberChar(u[0])
    ensures |y| <= |x|
  {
    assert forall i :: 0 <= i < |y| ==> (y + w)[i] == y[i];
    assert u != "" ==> (x + u)[|x|] == u[0];
    assert u == "" ==> |x| == |x + u|;
  }

  /** Two splits of one text at the end of its run of number characters agree. */
  lemma {:induction false} SameRun(x: string, u: string, y: string, w: string)
    requires x + u == y + w && AllNumberChars(x) && AllNumberChars(y)
    requires u == "" || !NumberChar(u[0])
    requires w == "" || !NumberChar(w[0])
    ensures x == y && u == w
  {
    RunStops(x, u, y, w);
    RunStops(y, w, x, u);
    assert x == (x + u)[..|x|] && y == (y + w)[..|y|];
    assert u == (x + u)[|x|..] && w == (y + w)[|y|..];
  }

  /** The number at the start of a value text is its whole run of number characters. */
  lemma {:induction false} NumberAhead(closers: seq<char>, s: string) returns (token: string, u: string)
    requires closers != [] && (forall i :: 0 <= i < |closers| ==> IsCloser(closers[i]))
    requires ValueThen(closers, s) && s != "" && NumberChar(s[0])
    ensures IsNumber(token) && AllNumberChars(token) && Finishes(closers, u) && s == token + u
    ensures u != "" && !NumberChar(u[0])
  {
    token, u := UnScalar(closers, s);
    ScalarHead(token);
    NumberPattern(token);
    NumberChars(Start, token);
    FinishesHead(closers, u);
  }

  lemma {:induction false} NumberStep(closers: seq<char>, token: string, t: string)
    requires closers != [] && (forall i :: 0 <= i < |closers| ==> IsCloser(closers[i]))
    requires token != "" && AllNumberChars(token) && t != "" && !NumberChar(t[0])
    ensures MatchesNumber(token) ==> (Follows(Member, closers, token + t) <==> Viable(After, closers, t))
    ensures !MatchesNumber(token) ==> !Follows(Member, closers, token + t)
  {
    NumberPattern(token);
    FinishesIsAfter(closers, t);
    assert (token + t)[0] == token[0];
    if ValueThen(closers, token + t) {
      var x, u := NumberAhead(closers, token + t);
      SameRun(token, t, x, u);
    }
    if MatchesNumber(token) && Finishes(closers, t) {
      ScalarUp(closers, token, t);
    }
  }

  /** A text that ends inside a run of number characters: the run must be the beginning of a number. */
  lemma {:induction false} NumberCutOff(closers: seq<char>, r: string, t: string)
    requires closers != [] && (forall i :: 0 <= i < |closers| ==> IsCloser(closers[i]))
    requires r != "" && AllNumberChars(r)
    requires Follows(Member, closers, r + t)
    ensures MatchesCutNumber(r)
  {
    assert (r + t)[0] == r[0];
    var x, u := NumberAhead(closers, r + t);
    RunStops(x, u, r, t);
    var more := x[|r|..];
    assert r == (r + t)[..|r|] == (x + u)[..|r|] == x[..|r|];
    assert x == r + more;
    CutIsPrefix(r);
  }

  lemma {:induction false} LiteralUnique(x: string, u: string, y: string, w: string)
    requires IsLiteral(x) && IsLiteral(y) && x + u == y + w
    ensures x == y && u == w
  {
    assert x[0] == (x + u)[0] == (y + w)[0] == y[0];
    assert u == (x + u)[|x|..] && w == (y + w)[|y|..];
  }

  lemma {:induction false} LiteralAhead(closers: seq<char>, s: string) returns (token: string, u: string)
    requires ValueThen(closers, s) && s != "" && !NumberChar(s[0])
    requires s[0] != '{' && s[0] != '[' && s[0] != '"'
    ensures IsLiteral(token) && Finishes(closers, u) && s == token + u
  {
    token, u := UnScalar(closers, s);
    ScalarHead(token);
  }

  lemma {:induction false} LiteralStep(closers: seq<char>, token: string, t: string)
    requires IsLiteral(token)
    ensures Follows(Member, closers, token + t) <==> Viable(After, closers, t)
  {
    FinishesIsAfter(closers, t);
    assert (token + t)[0] == token[0];
    if ValueThen(closers, token + t) {
      var x, u := LiteralAhead(closers, token + t);
      LiteralUnique(token, t, x, u);
    }
    if Finishes(closers, t) {
      ScalarUp(closers, token, t);
    }
  }

  // ----- Every live state can be completed -----

  /** The closers, innermost first. */
  function Closing(closers: seq<char>): (t: string)
    ensures closers != [] ==> t != ""
    decreases |closers|
  {
    if closers == [] then "" else [Top(closers)] + Closing(Pop(closers))
  }

  lemma {:induction false} ClosingFinishes(closers: seq<char>)
    ensures Finishes(closers, Closing(closers))
    decreases |closers|
  {
    if closers != [] {
      var c := Top(closers);
      ClosingFinishes(Pop(closers));
      assert Blank("") && RestWellFormed(c, Rest.Close);
      assert Closing(closers) == "" + (RestText(c, Rest.Close) + Closing(Pop(closers)));
    }
  }

  lemma {:induction false} Completion(q: Want, closers: seq<char>) returns (t: string)
    requires Valid(q, closers) && closers != []
    ensures t != "" && Viable(q, closers, t)
  {
    hide Viable;
    var done := Closing(closers);
    ClosingFinishes(closers);
    FinishesIsAfter(closers, done);
    if q == After {
      t := done;
    } else if q == KeyOrClose || q == MemberOrClose {
      t := [Top(closers)] + Closing(Pop(closers));
      ClosingFinishes(Pop(closers));
      FinishesIsAfter(Pop(closers), Closing(Pop(closers)));
      CloseEmptyStep(q, closers, Closing(Pop(closers)));
      NoWs(q, closers, t);
    } else {
      t := "true" + done;
      LiteralStep(closers, "true", done);
      assert (t)[0] == 't';
      NoWs(Member, closers, t);
      if q != Member {
        var t0 := t;
        t := [':'] + t0;
        ColonStep(closers, t0);
        NoWs(Colon, closers, t);
        if q == Key {
          var t1 := t;
          t := "\"\"" + t1;
          assert IsString("\"\"") by { assert "\"\""[1..] == "\""; }
          StringKeyStep(closers, "\"\"", t1);
          assert t[0] == '"';
          NoWs(Key, closers, t);
        }
      }
    }
  }

  // ----- The recogniser -----

  /** From state to state, the same non-empty continuations stay viable. */
  ghost predicate Moves(q: Want, closers: seq<char>, r: string, q': Want, closers': seq<char>, r': string) {
    forall t: string :: t != "" ==> (Viable(q, closers, r + t) <==> Viable(q', closers', r' + t))
  }

  /** No continuation is viable. */
  ghost predicate Stuck(q: Want, closers: seq<char>, r: string) {
    forall t: string :: t != "" ==> !Viable(q, closers, r + t)
  }

  ghost predicate Open(q: Want, closers: seq<char>, r: string) {
    exists t: string :: t != "" && Viable(q, closers, r + t)
  }

  lemma {:induction false} MoveWs(q: Want, closers: seq<char>, r: string)
    requires Valid(q, closers) && r != "" && IsWs(r[0])
    ensures Moves(q, closers, r, q, closers, r[1..])
  {
    forall t: string | t != "" ensures Viable(q, closers, r + t) <==> Viable(q, closers, r[1..] + t) {
      if !(q == After && closers == []) {
        SkipWs(q, closers, r[0], r[1..] + t);
        assert r + t == [r[0]] + (r[1..] + t);
      }
    }
  }

  /** One structural character. */
  lemma {:induction false} MoveChar(q: Want, closers: seq<char>, r: string, q': Want, closers': seq<char>)
    requires Valid(q, closers) && r != "" && !IsWs(r[0])
    requires
      || (q == Object && r[0] == '{' && q' == KeyOrClose && closers' == ['}'])
      || ((q == KeyOrClose || q == MemberOrClose) && r[0] == Top(closers) && q' == After && closers' == Pop(closers))
      || (q == Colon && r[0] == ':' && q' == Member && closers' == closers)
      || (q == Member && r[0] == '{' && q' == KeyOrClose && closers' == closers + ['}'])
      || (q == Member && r[0] == '[' && q' == MemberOrClose && closers' == closers + [']'])
      || (q == After && closers != [] && r[0] == ',' && q' == ElementOf(Top(closers)) && closers' == closers)
      || (q == After && closers != [] && r[0] == Top(closers) && q' == After && closers' == Pop(closers))
    ensures Moves(q, closers, r, q', closers', r[1..])
  {
    forall t: string | t != "" ensures Viable(q, closers, r + t) <==> Viable(q', closers', r[1..] + t) {
      var x := r[1..] + t;
      assert r + t == [r[0]] + x;
      NoWs(q, closers, r + t);
      match q
      case Object => ObjectStep(x);
      case Colon => ColonStep(closers, x);
      case Member => OpenStep(closers, if r[0] == '{' then '}' else ']', x);
      case After => if r[0] == ',' { CommaStep(closers, x); } else { CloseStep(closers, x); }
      case _ => CloseEmptyStep(q, closers, x);
    }
  }

  /** `*_or_close` with something else ahead. */
  lemma {:induction false} MoveElement(q: Want, closers: seq<char>, r: string)
    requires q == KeyOrClose || q == MemberOrClose
    requires Valid(q, closers) && r != "" && !IsWs(r[0]) && r[0] != Top(closers)
    ensures Moves(q, closers, r, ElementOf(Top(closers)), closers, r)
  {
    var q' := ElementOf(Top(closers));
    forall t: string | t != "" ensures Viable(q, closers, r + t) <==> Viable(q', closers, r + t) {
      NoWs(q, closers, r + t);
      NoWs(q', closers, r + t);
      ElementStep(q, closers, r + t);
    }
  }

  /** A complete string, number or literal. */
  lemma {:induction false} MoveToken(q: Want, closers: seq<char>, token: string, r: string)
    requires (q == Key || q == Member) && Valid(q, closers)
    requires IsString(token) || (q == Member && IsLiteral(token)) ||
             (q == Member && MatchesNumber(token) && AllNumberChars(token) && r != "" && !NumberChar(r[0]))
    ensures Moves(q, closers, token + r, if q == Key then Colon else After, closers, r)
  {
    var q' := if q == Key then Colon else After;
    if MatchesNumber(token) { NumberPattern(token); }
    ScalarHead(token);
    forall t: string | t != "" ensures Viable(q, closers, token + r + t) <==> Viable(q', closers, r + t) {
      assert token + r + t == token + (r + t);
      NoWs(q, closers, token + (r + t));
      if IsString(token) {
        if q == Key { StringKeyStep(closers, token, r + t); } else { StringValueStep(closers, token, r + t); }
      } else if IsLiteral(token) {
        LiteralStep(closers, token, r + t);
      } else {
        NumberStep(closers, token, r + t);
      }
    }
  }

  /** A character that cannot come next. */
  lemma {:induction false} StuckChar(q: Want, closers: seq<char>, r: string)
    requires Valid(q, closers) && r != "" && !IsWs(r[0])
    requires
      || (q == Object && r[0] != '{')
      || (q == Key && r[0] != '"')
      || (q == KeyOrClose && r[0] != '"' && r[0] != '}')
      || (q == Colon && r[0] != ':')
      || (q == After && (closers == [] || (r[0] != ',' && r[0] != Top(closers))))
    ensures Stuck(q, closers, r)
  {
    forall t: string | t != "" ensures !Viable(q, closers, r + t) {
      if !(q == After && closers == []) {
        NoWs(q, closers, r + t);
        if Follows(q, closers, r + t) { FollowsHead(q, closers, r + t); }
      }
    }
  }

  lemma {:induction false} StuckString(q: Want, closers: seq<char>, text: string, pos: nat)
    requires (q == Key || q == Member) && Valid(q, closers)
    requires pos < |text| && text[pos] == '"' && SkipString(text, pos).Bad?
    ensures Stuck(q, closers, text[pos..])
  {
    var r := text[pos..];
    forall t: string | t != "" ensures !Viable(q, closers, r + t) {
      NoWs(q, closers, r + t);
      if Follows(q, closers, r + t) {
        if q == Key {
          var name, w, w', v, u := UnMember(closers, r + t);
          SkipStringBad(text, pos, name, w + ([':'] + (w' + (Text(v) + u))), t);
        } else {
          var v, u := UnValue(closers, r + t);
          ValueHead(v);
          ScalarHead(v.token);
          SkipStringBad(text, pos, v.token, u, t);
        }
      }
    }
  }

  lemma {:induction false} OpenString(q: Want, closers: seq<char>, text: string, pos: nat)
    requires (q == Key || q == Member) && Valid(q, closers)
    requires pos < |text| && text[pos] == '"' && SkipString(text, pos).Cut?
    ensures Open(q, closers, text[pos..])
  {
    var t := SkipStringCut(text, pos);
    OpenToken(q, closers, text[pos..], t);
  }

  lemma {:induction false} TokenThen(q: Want, closers: seq<char>, token: string, t: string)
    requires q == Key || q == Member
    requires closers != [] && Viable(if q == Key then Colon else After, closers, t)
    requires IsString(token) || (q == Member && (IsLiteral(token) || IsNumber(token)))
    ensures Follows(q, closers, token + t)
  {
    if q == Key {
      StringKeyStep(closers, token, t);
    } else {
      FinishesIsAfter(closers, t);
      ScalarUp(closers, token, t);
    }
  }

  lemma {:induction false} OpenToken(q: Want, closers: seq<char>, r: string, t: string)
    requires (q == Key || q == Member) && Valid(q, closers)
    requires IsString(r + t) || (q == Member && (IsLiteral(r + t) || IsNumber(r + t)))
    ensures Open(q, closers, r)
  {
    ScalarHead(r + t);
    var more := Completion(if q == Key then Colon else After, closers);
    TokenThen(q, closers, r + t, more);
    OpenBy(q, closers, r, t, more);
  }

  lemma {:induction false} OpenBy(q: Want, closers: seq<char>, r: string, t: string, more: string)
    requires q != After && more != "" && r + t != "" && !IsWs((r + t)[0])
    requires Follows(q, closers, r + t + more)
    ensures Open(q, closers, r)
  {
    hide Viable, Follows, IsWs;
    assert (r + t + more)[0] == (r + t)[0];
    NoWs(q, closers, r + t + more);
    assert r + (t + more) == r + t + more;
    assert Viable(q, closers, r + (t + more));
  }

  lemma {:induction false} StuckScalar(closers: seq<char>, text: string, pos: nat)
    requires Valid(Member, closers) && pos < |text| && !IsWs(text[pos])
    requires text[pos] != '{' && text[pos] != '[' && text[pos] != '"'
    requires SkipScalar(text, pos).Bad?
    ensures Stuck(Member, closers, text[pos..])
  {
    forall t: string | t != "" ensures !Viable(Member, closers, text[pos..] + t) {
      NoWs(Member, closers, text[pos..] + t);
      if NumberRunEnd(text, pos) == pos {
        BadLiteral(closers, text, pos, t);
      } else {
        BadNumber(closers, text, pos, t);
      }
    }
  }

  lemma {:induction false} BadLiteral(closers: seq<char>, text: string, pos: nat, t: string)
    requires pos < |text| && NumberRunEnd(text, pos) == pos
    requires text[pos] != '{' && text[pos] != '[' && text[pos] != '"'
    requires SkipScalar(text, pos).Bad?
    ensures !Follows(Member, closers, text[pos..] + t)
  {
    var r := text[pos..];
    SkipLiteralIs(text, pos);
    if ValueThen(closers, r + t) {
      var x, u := LiteralAhead(closers, r + t);
      PrefixOfConcat(r, t, x, u);
    }
  }

  lemma {:induction false} BadNumber(closers: seq<char>, text: string, pos: nat, t: string)
    requires Valid(Member, closers) && pos < |text| && NumberRunEnd(text, pos) > pos
    requires SkipScalar(text, pos).Bad? && t != ""
    ensures !Follows(Member, closers, text[pos..] + t)
  {
    var r := text[pos..];
    var end := NumberRunEnd(text, pos);
    var run := text[pos..end];
    if end == |text| {
      assert run == r;
      if Follows(Member, closers, r + t) { NumberCutOff(closers, r, t); }
    } else {
      assert r + t == run + (text[end..] + t);
      NumberStep(closers, run, text[end..] + t);
    }
  }

  lemma {:induction false} PrefixOfConcat(r: string, t: string, x: string, u: string)
    requires r + t == x + u
    ensures r <= x || x <= r
  {
    if |r| <= |x| { assert r == (r + t)[..|r|] == x[..|r|]; } else { assert x == (x + u)[..|x|] == r[..|x|]; }
  }

  lemma {:induction false} OpenScalar(closers: seq<char>, text: string, pos: nat)
    requires Valid(Member, closers) && pos < |text|
    requires SkipScalar(text, pos).Cut?
    ensures Open(Member, closers, text[pos..])
  {
    var r := text[pos..];
    SkipLiteralIs(text, pos);
    if NumberRunEnd(text, pos) > pos {
      assert r == text[pos..|text|];
      CutIsPrefix(r);
      var t: string :| IsNumber(r + t);
      OpenToken(Member, closers, r, t);
    } else {
      var x: string :| IsLiteral(x) && r < x;
      assert r + x[|r|..] == x;
      OpenToken(Member, closers, r, x[|r|..]);
    }
  }

  lemma {:induction false} TokenAndRest(text: string, pos: nat, end: nat)
    requires pos <= end <= |text|
    ensures text[pos..] == text[pos..end] + text[end..]
  {
  }

  lemma {:induction false} MoveScalar(closers: seq<char>, text: string, pos: nat)
    requires Valid(Member, closers) && pos < |text|
    requires SkipScalar(text, pos).Past?
    ensures var end := SkipScalar(text, pos).end;
            pos < end <= |text| && Moves(Member, closers, text[pos..], After, closers, text[end..])
  {
    SkipLiteralIs(text, pos);
    var end := SkipScalar(text, pos).end;
    TokenAndRest(text, pos, end);
    MoveToken(Member, closers, text[pos..end], text[end..]);
  }

  /** The recogniser's whole meaning: some text, and something more would make it an object. */
  ghost predicate IsCutObject(text: string) {
    !Blank(text) && exists t: string :: t != "" && IsPaddedObject(text + t)
  }

  lemma {:induction false} StartState(s: string)
    ensures Viable(Object, [], s) <==> IsPaddedObject(s)
  {
    var p := Continuations(Object, []);
    if Padded(p, s) {
      var n: nat :| n <= |s| && Blank(s[..n]) && p(s[n..]);
      assert IsObject(s[n..]);
    }
    if n: nat :| n <= |s| && Blank(s[..n]) && IsObject(s[n..]) {
      Pad(p, s[..n], s[n..]);
      assert s == s[..n] + s[n..];
    }
  }

  lemma {:induction false} Verdict(text: string, q: Want, closers: seq<char>, r: string)
    requires Moves(Object, [], text, q, closers, r) && !Blank(text)
    ensures Stuck(q, closers, r) ==> !IsCutObject(text)
    ensures Open(q, closers, r) ==> IsCutObject(text)
  {
    forall t: string { StartState(text + t); }
    if Open(q, closers, r) {
      var t: string :| t != "" && Viable(q, closers, r + t);
      assert Viable(Object, [], text + t);
    }
  }

  // ----- One turn of the loop -----

  datatype Turn = Answer(cut: bool) | Next(pos: nat, want: Want, closers: seq<char>)

  /** After a token: on to what comes next, or out of the loop. */
  function TurnToken(skip: Skip, want: Want, closers: seq<char>): Turn {
    match skip
    case Past(end) => Next(end, want, closers)
    case Cut => Answer(true)
    case Bad => Answer(false)
  }

  function TurnKey(text: string, pos: nat, want: Want, closers: seq<char>): Turn
    requires pos < |text| && (want == Key || want == KeyOrClose) && Valid(want, closers)
  {
    if text[pos] == '}' && want == KeyOrClose then Next(pos + 1, After, Pop(closers))
    else if text[pos] == '"' then TurnToken(SkipString(text, pos), Colon, closers)
    else Answer(false)
  }

  function TurnValue(text: string, pos: nat, want: Want, closers: seq<char>): Turn
    requires pos < |text| && (want == Member || want == MemberOrClose) && Valid(want, closers)
  {
    if text[pos] == ']' && want == MemberOrClose then Next(pos + 1, After, Pop(closers))
    else if text[pos] == '{' then Next(pos + 1, KeyOrClose, closers + ['}'])
    else if text[pos] == '[' then Next(pos + 1, MemberOrClose, closers + [']'])
    else if text[pos] == '"' then TurnToken(SkipString(text, pos), After, closers)
    else TurnToken(SkipScalar(text, pos), After, closers)
  }

  function TurnAfter(text: string, pos: nat, closers: seq<char>): Turn
    requires pos < |text|
  {
    if closers == [] then Answer(false)
    else if text[pos] == ',' then Next(pos + 1, ElementOf(Top(closers)), closers)
    else if text[pos] == Top(closers) then Next(pos + 1, After, Pop(closers))
    else Answer(false)
  }

  function TurnOf(text: string, pos: nat, want: Want, closers: seq<char>): Turn
    requires pos < |text| && Valid(want, closers)
  {
    match want
    case Object => if text[pos] == '{' then Next(pos + 1, KeyOrClose, ['}']) else Answer(false)
    case Colon => if text[pos] == ':' then Next(pos + 1, Member, closers) else Answer(false)
    case After => TurnAfter(text, pos, closers)
    case Key => TurnKey(text, pos, want, closers)
    case KeyOrClose => TurnKey(text, pos, want, closers)
    case Member => TurnValue(text, pos, want, closers)
    case MemberOrClose => TurnValue(text, pos, want, closers)
  }

  /** A turn ends with the right answer, or moves on without losing or gaining a continuation. */
  ghost predicate Right(turn: Turn, text: string, pos: nat, want: Want, closers: seq<char>)
    requires pos <= |text|
  {
    match turn
    case Answer(cut) => if cut then Open(want, closers, text[pos..]) else Stuck(want, closers, text[pos..])
    case Next(pos', want', closers') =>
      pos < pos' <= |text| && Valid(want', closers') && want' != Object &&
      Moves(want, closers, text[pos..], want', closers', text[pos'..])
  }

  lemma {:induction false} TurnStringRight(text: string, pos: nat, want: Want, closers: seq<char>)
    requires pos < |text| && text[pos] == '"' && (want == Key || want == Member) && Valid(want, closers)
    ensures Right(TurnToken(SkipString(text, pos), if want == Key then Colon else After, closers),
                  text, pos, want, closers)
  {
    hide SkipString, Moves, Stuck, Open, IsString;
    match SkipString(text, pos)
    case Past(end) =>
      SkipStringPast(text, pos);
      TokenAndRest(text, pos, end);
      MoveToken(want, closers, text[pos..end], text[end..]);
    case Cut => OpenString(want, closers, text, pos);
    case Bad => StuckString(want, closers, text, pos);
  }

  lemma {:induction false} TurnScalarRight(text: string, pos: nat, closers: seq<char>)
    requires pos < |text| && !IsWs(text[pos]) && Valid(Member, closers)
    requires text[pos] != '{' && text[pos] != '[' && text[pos] != '"'
    ensures Right(TurnToken(SkipScalar(text, pos), After, closers), text, pos, Member, closers)
  {
    hide SkipScalar, Moves, Stuck, Open;
    match SkipScalar(text, pos)
    case Past(end) => MoveScalar(closers, text, pos);
    case Cut => OpenScalar(closers, text, pos);
    case Bad => StuckScalar(closers, text, pos);
  }

  lemma {:induction false} TurnKeyRight(text: string, pos: nat, closers: seq<char>)
    requires pos < |text| && !IsWs(text[pos]) && Valid(Key, closers)
    ensures Right(TurnKey(text, pos, Key, closers), text, pos, Key, closers)
  {
    hide SkipString, Moves, Stuck, Open;
    if text[pos] != '"' {
      StuckChar(Key, closers, text[pos..]);
    } else {
      TurnStringRight(text, pos, Key, closers);
    }
  }

  lemma {:induction false} TurnValueRight(text: string, pos: nat, closers: seq<char>)
    requires pos < |text| && !IsWs(text[pos]) && Valid(Member, closers)
    ensures Right(TurnValue(text, pos, Member, closers), text, pos, Member, closers)
  {
    hide SkipString, SkipScalar, Moves, Stuck, Open;
    assert text[pos..][1..] == text[pos + 1..];
    if text[pos] == '{' {
      MoveChar(Member, closers, text[pos..], KeyOrClose, closers + ['}']);
    } else if text[pos] == '[' {
      MoveChar(Member, closers, text[pos..], MemberOrClose, closers + [']']);
    } else if text[pos] == '"' {
      TurnStringRight(text, pos, Member, closers);
    } else {
      TurnScalarRight(text, pos, closers);
    }
  }

  lemma {:induction false} TurnAfterRight(text: string, pos: nat, closers: seq<char>)
    requires pos < |text| && !IsWs(text[pos]) && Valid(After, closers)
    ensures Right(TurnAfter(text, pos, closers), text, pos, After, closers)
  {
    var r := text[pos..];
    assert r[1..] == text[pos + 1..];
    if closers == [] || (text[pos] != ',' && text[pos] != Top(closers)) {
      StuckChar(After, closers, r);
    } else if text[pos] == ',' {
      MoveChar(After, closers, r, ElementOf(Top(closers)), closers);
    } else {
      MoveChar(After, closers, r, After, Pop(closers));
    }
  }

  /** `*_or_close` without the closer is the plain state. */
  lemma {:induction false} RightElement(turn: Turn, text: string, pos: nat, want: Want, closers: seq<char>)
    requires want == KeyOrClose || want == MemberOrClose
    requires pos < |text| && Valid(want, closers) && !IsWs(text[pos]) && text[pos] != Top(closers)
    requires Right(turn, text, pos, ElementOf(Top(closers)), closers)
    ensures Right(turn, text, pos, want, closers)
  {
    MoveElement(want, closers, text[pos..]);
  }

  lemma {:induction false} TurnRight(text: string, pos: nat, want: Want, closers: seq<char>)
    requires pos < |text| && !IsWs(text[pos]) && Valid(want, closers)
    ensures Right(TurnOf(text, pos, want, closers), text, pos, want, closers)
  {
    var r := text[pos..];
    assert r[1..] == text[pos + 1..];
    if want == Object {
      if r[0] == '{' { MoveChar(want, closers, r, KeyOrClose, ['}']); } else { StuckChar(want, closers, r); }
    } else if want == Colon {
      if r[0] == ':' { MoveChar(want, closers, r, Member, closers); } else { StuckChar(want, closers, r); }
    } else if want == After {
      TurnAfterRight(text, pos, closers);
    } else if want == Key || (want == KeyOrClose && r[0] != '}') {
      TurnKeyRight(text, pos, closers);
      if want == KeyOrClose { RightElement(TurnKey(text, pos, Key, closers), text, pos, want, closers); }
    } else if want == Member || (want == MemberOrClose && r[0] != ']') {
      TurnValueRight(text, pos, closers);
      if want == MemberOrClose { RightElement(TurnValue(text, pos, Member, closers), text, pos, want, closers); }
    } else {
      MoveChar(want, closers, r, After, Pop(closers));
    }
  }

  /** What the loop knows between turns. */
  ghost predicate Tracks(text: string, pos: nat, want: Want, closers: seq<char>) {
    pos <= |text| && Valid(want, closers) &&
    (if want == Object then Blank(text[..pos]) else !Blank(text)) &&
    Moves(Object, [], text, want, closers, text[pos..])
  }

  lemma {:induction false} StartTracks(text: string)
    ensures Tracks(text, 0, Object, [])
  {
    assert text[0..] == text && text[..0] == "";
  }

  lemma {:induction false} WsKeeps(text: string, pos: nat, want: Want, closers: seq<char>)
    requires Tracks(text, pos, want, closers) && pos < |text| && IsWs(text[pos])
    ensures Tracks(text, pos + 1, want, closers)
  {
    MoveWs(want, closers, text[pos..]);
    assert text[pos..][1..] == text[pos + 1..];
  }

  /** The end of the text: a proper prefix exactly when a container is open. */
  lemma {:induction false} EndVerdict(text: string, want: Want, closers: seq<char>)
    requires Tracks(text, |text|, want, closers)
    ensures closers != [] <==> IsCutObject(text)
  {
    assert text[|text|..] == "" && text[..|text|] == text;
    if closers != [] {
      var t := Completion(want, closers);
      assert "" + t == t;
      Verdict(text, want, closers, "");
    } else if want == After {
      Verdict(text, want, closers, "");
    }
  }

  lemma {:induction false} TurnVerdict(text: string, pos: nat, want: Want, closers: seq<char>)
    requires Tracks(text, pos, want, closers) && pos < |text| && !IsWs(text[pos])
    ensures match TurnOf(text, pos, want, closers)
            case Answer(cut) => cut <==> IsCutObject(text)
            case Next(pos', want', closers') => pos < pos' && Tracks(text, pos', want', closers')
  {
    assert !Blank(text);
    TurnRight(text, pos, want, closers);
    if TurnOf(text, pos, want, closers).Answer? { Verdict(text, want, closers, text[pos..]); }
  }

  /** `_is_cut_json_object` decides `IsCutObject`, at any nesting depth. */
  method IsCutJsonObject(text: string) returns (cut: bool)
    ensures cut <==> IsCutObject(text)
  {
    hide Moves, TurnOf, IsCutObject, Viable, Blank;
    StartTracks(text);
    var end := |text|;
    var closers: seq<char> := [];
    var want := Object;
    var pos: nat := 0;
    while true
      invariant Tracks(text, pos, want, closers)
      decreases end - pos
    {
      while pos < end && IsWs(text[pos])
        invariant Tracks(text, pos, want, closers)
      {
        WsKeeps(text, pos, want, closers);
        pos := pos + 1;
      }
      if pos == end {
        EndVerdict(text, want, closers);
        return closers != [];
      }
      TurnVerdict(text, pos, want, closers);
      match TurnOf(text, pos, want, closers)
      case Answer(verdict) => return verdict;
      case Next(pos', want', closers') => pos, want, closers := pos', want', closers';
    }
  }
}
