/** A parse looks at nothing beyond what it consumes: cutting the text later does not change it. */
module JsonLocality {
  import opened Options
  import opened PyText
  import opened JsonValues
  import opened JsonGrammar
  import opened NumberTokens
  import opened JsonParser
  import opened JsonRoundTrip

  lemma {:induction false} SkipWsLocal(p: string, t: string)
    requires |SkipWs(p + t)| >= |t|
    ensures SkipWs(p + t) == SkipWs(p) + t
    decreases |p|
  {
    if p == "" {
      assert p + t == t;
      SkipWsKeeps(t);
    } else {
      assert (p + t)[1..] == p[1..] + t;
      if IsWs(p[0]) { SkipWsLocal(p[1..], t); }
    }
  }

  lemma {:induction false} SkipWsKeeps(t: string)
    requires |SkipWs(t)| >= |t|
    ensures SkipWs(t) == t
  {
  }

  lemma {:induction false} CharLocal(p: string, t: string)
    requires CharLength(p + t) > 0 && CharLength(p + t) <= |p|
    ensures CharLength(p) == CharLength(p + t) && Unit(p) == Unit(p + t)
  {
    var n := CharLength(p + t);
    assert forall i :: 0 <= i < |p| ==> (p + t)[i] == p[i];
    if n == 6 { assert (p + t)[2..6] == p[2..6]; }
  }

  lemma {:induction false} UnitsLocal(p: string, t: string)
    requires Units(p + t).Ok? && |Units(p + t).rest| >= |t|
    ensures Units(p).Ok? && Units(p).value == Units(p + t).value && Units(p).rest + t == Units(p + t).rest
    decreases |p|
  {
    var s := p + t;
    assert p != "";
    assert s[0] == p[0];
    if s[0] == '"' {
      assert s[1..] == p[1..] + t;
    } else {
      var n := CharLength(s);
      assert |Units(s[n..]).rest| < |s[n..]|;
      CharLocal(p, t);
      assert s[n..] == p[n..] + t;
      UnitsLocal(p[n..], t);
    }
  }

  lemma {:induction false} LongestLocal(q: State, p: string, t: string)
    ensures Longest(q, p + t).Some? && Longest(q, p + t).value <= |p| ==> Longest(q, p) == Longest(q, p + t)
    ensures Longest(q, p + t).None? ==> Longest(q, p).None?
    decreases |p|
  {
    if p == "" {
      assert p + t == t;
    } else {
      assert (p + t)[1..] == p[1..] + t && (p + t)[0] == p[0];
      LongestLocal(Step(q, p[0]), p[1..], t);
    }
  }

  lemma {:induction false} WordLocal(p: string, t: string, word: string)
    ensures word <= p ==> word <= p + t
    ensures word <= p + t && |word| <= |p| ==> word <= p && (p + t)[|word|..] == p[|word|..] + t
  {
    if word <= p { assert (p + t)[..|word|] == p[..|word|]; }
    if word <= p + t && |word| <= |p| { assert p[..|word|] == (p + t)[..|word|]; }
  }

  lemma {:induction false} ConstantLocal(p: string, t: string)
    requires ParseConstant(p + t).Ok? && |ParseConstant(p + t).rest| >= |t|
    ensures ParseConstant(p).Ok? && ParseConstant(p).value == ParseConstant(p + t).value
    ensures ParseConstant(p).rest + t == ParseConstant(p + t).rest
  {
    WordLocal(p, t, "NaN");
    WordLocal(p, t, "Infinity");
    WordLocal(p, t, "-Infinity");
  }

  lemma {:induction false} ParseNumberLocal(fl: FloatReader, p: string, t: string)
    requires ParseNumber(fl, p + t).Ok? && |ParseNumber(fl, p + t).rest| >= |t|
    ensures ParseNumber(fl, p).Ok? && ParseNumber(fl, p).value == ParseNumber(fl, p + t).value
    ensures ParseNumber(fl, p).rest + t == ParseNumber(fl, p + t).rest
  {
    var m := Longest(Start, p + t);
    LongestLocal(Start, p, t);
    if m.Some? {
      var n := m.value;
      assert (p + t)[..n] == p[..n] && (p + t)[n..] == p[n..] + t;
    } else {
      ConstantLocal(p, t);
    }
  }

  /** Not a container and not a string. */
  predicate StartsScalar(s: string) {
    s != "" && s[0] != '"' && s[0] != '{' && s[0] != '['
  }

  lemma {:induction false} ScalarLocal(fl: FloatReader, p: string, t: string)
    requires StartsScalar(p) && ParseValue(fl, p + t).Ok? && |ParseValue(fl, p + t).rest| >= |t|
    ensures ParseValue(fl, p).Ok? && ParseValue(fl, p).value == ParseValue(fl, p + t).value
    ensures ParseValue(fl, p).rest + t == ParseValue(fl, p + t).rest
  {
    assert (p + t)[0] == p[0];
    WordLocal(p, t, "null");
    WordLocal(p, t, "true");
    WordLocal(p, t, "false");
    if !("null" <= p + t) && !("true" <= p + t) && !("false" <= p + t) {
      NumberCase(fl, p);
      NumberCase(fl, p + t);
      ParseNumberLocal(fl, p, t);
    }
  }

  lemma {:induction false} ParseLocal(fl: FloatReader, p: string, t: string, v: Json, rest: string)
    requires ParseValue(fl, p + t) == Ok(v, rest) && |rest| >= |t|
    ensures ParseValue(fl, p).Ok? && ParseValue(fl, p).value == v && ParseValue(fl, p).rest + t == rest
    decreases |p|, 1
  {
    assert p != "" && (p + t)[0] == p[0] && (p + t)[1..] == p[1..] + t;
    if p[0] == '"' {
      UnitsLocal(p[1..], t);
    } else if p[0] == '{' {
      ObjectLocal(fl, p, t, v, rest);
    } else if p[0] == '[' {
      ArrayLocal(fl, p, t, v, rest);
    } else {
      ScalarLocal(fl, p, t);
    }
  }

  lemma {:induction false} ArrayLocal(fl: FloatReader, p: string, t: string, v: Json, rest: string)
    requires p != "" && p[0] == '[' && ParseValue(fl, p + t) == Ok(v, rest) && |rest| >= |t|
    ensures ParseValue(fl, p).Ok? && ParseValue(fl, p).value == v && ParseValue(fl, p).rest + t == rest
    decreases |p|, 0
  {
    var s := p + t;
    assert s[0] == '[' && s[1..] == p[1..] + t;
    var r := SkipWs(s[1..]);
    SkipWsLocal(p[1..], t);
    var r' := SkipWs(p[1..]);
    assert r == r' + t && r' != "" && r[0] == r'[0];
    if r[0] == ']' {
      assert r[1..] == r'[1..] + t;
    } else {
      var items := ParseItems(fl, r).value;
      ItemsLocal(fl, r', t, items, rest);
      ArrayFrom(fl, p, r', items, ParseItems(fl, r').rest);
    }
  }

  lemma {:induction false} ItemsLocal(fl: FloatReader, p: string, t: string, vs: seq<Json>, rest: string)
    requires ParseItems(fl, p + t) == Ok(vs, rest) && |rest| >= |t|
    ensures ParseItems(fl, p).Ok? && ParseItems(fl, p).value == vs && ParseItems(fl, p).rest + t == rest
    decreases |p|, 2
  {
    hide *;
    var v, r, x := ItemsCases(fl, p + t, vs, rest);
    Shorter(fl, p + t, vs, rest, v, r, x);
    ParseLocal(fl, p, t, v, r);
    var r' := ParseValue(fl, p).rest;
    SkipWsLocal(r', t);
    var x' := SkipWs(r');
    assert x == x' + t && x' != "" && x'[0] == x[0] && x[1..] == x'[1..] + t;
    if x[0] == ',' {
      SkipWsLocal(x'[1..], t);
      var y' := SkipWs(x'[1..]);
      ItemsLocal(fl, y', t, vs[1..], rest);
      assert vs == [v] + vs[1..];
    }
    ItemsFrom(fl, p, v, r', x');
  }

  lemma {:induction false} Shorter(fl: FloatReader, s: string, vs: seq<Json>, rest: string, v: Json, r: string,
                                   x: string)
    requires ParseItems(fl, s) == Ok(vs, rest) && ParseValue(fl, s) == Ok(v, r) && SkipWs(r) == x && x != ""
    requires (x[0] == ']' && rest == x[1..]) ||
               (x[0] == ',' && ParseItems(fl, SkipWs(x[1..])).Ok? && rest == ParseItems(fl, SkipWs(x[1..])).rest)
    ensures |rest| < |x| <= |r| < |s|
    ensures x[0] == ',' ==> |rest| < |SkipWs(x[1..])| < |x|
  {
  }

  lemma {:induction false} NameLocal(p: string, t: string)
    requires ParseName(p + t).Ok? && |ParseName(p + t).rest| >= |t|
    ensures ParseName(p).Ok? && ParseName(p).value == ParseName(p + t).value &&
              ParseName(p).rest + t == ParseName(p + t).rest
  {
    hide Units, JoinPairs;
    var s := p + t;
    assert p != "" && s[0] == p[0] && s[1..] == p[1..] + t;
    var rest := ParseString(s[1..]).rest;
    var r := SkipWs(rest);
    assert |r| > |SkipWs(r[1..])| >= |t|;
    UnitsLocal(p[1..], t);
    var rest' := ParseString(p[1..]).rest;
    SkipWsLocal(rest', t);
    var r' := SkipWs(rest');
    assert r == r' + t && r' != "" && r[1..] == r'[1..] + t;
    SkipWsLocal(r'[1..], t);
  }

  lemma {:induction false} ObjectLocal(fl: FloatReader, p: string, t: string, v: Json, rest: string)
    requires p != "" && p[0] == '{' && ParseValue(fl, p + t) == Ok(v, rest) && |rest| >= |t|
    ensures ParseValue(fl, p).Ok? && ParseValue(fl, p).value == v && ParseValue(fl, p).rest + t == rest
    decreases |p|, 0
  {
    var s := p + t;
    assert s[0] == '{' && s[1..] == p[1..] + t;
    var r := SkipWs(s[1..]);
    SkipWsLocal(p[1..], t);
    var r' := SkipWs(p[1..]);
    assert r == r' + t && r' != "" && r[0] == r'[0];
    if r[0] == '}' {
      assert r[1..] == r'[1..] + t;
    } else {
      var fields := ParseMembers(fl, r, map[]).value;
      MembersLocal(fl, r', t, map[], fields, rest);
      ObjectFrom(fl, p, r', fields, ParseMembers(fl, r', map[]).rest);
    }
  }

  lemma {:induction false} MembersShorter(fl: FloatReader, s: string, acc: map<PyStr, Json>, fields: map<PyStr, Json>,
                                          rest: string, k: PyStr, n: string, v: Json, r: string, x: string)
    requires ParseName(s) == Ok(k, n) && ParseValue(fl, n) == Ok(v, r) && SkipWs(r) == x && x != ""
    requires (x[0] == '}' && rest == x[1..]) ||
               (x[0] == ',' && ParseMembers(fl, SkipWs(x[1..]), acc[k := v]) == Ok(fields, rest))
    ensures |rest| < |x| <= |r| < |n| < |s|
    ensures x[0] == ',' ==> |rest| < |SkipWs(x[1..])| < |x|
  {
  }

  lemma {:induction false} MembersLocal(fl: FloatReader, p: string, t: string, acc: map<PyStr, Json>,
                                        fields: map<PyStr, Json>, rest: string)
    requires ParseMembers(fl, p + t, acc) == Ok(fields, rest) && |rest| >= |t|
    ensures ParseMembers(fl, p, acc).Ok? && ParseMembers(fl, p, acc).value == fields &&
              ParseMembers(fl, p, acc).rest + t == rest
    decreases |p|, 2
  {
    hide *;
    var k, n, v, r, x := MembersCases(fl, p + t, acc, fields, rest);
    MembersShorter(fl, p + t, acc, fields, rest, k, n, v, r, x);
    NameLocal(p, t);
    var n' := ParseName(p).rest;
    ParseLocal(fl, n', t, v, r);
    var r' := ParseValue(fl, n').rest;
    SkipWsLocal(r', t);
    var x' := SkipWs(r');
    assert x == x' + t && x' != "" && x'[0] == x[0] && x[1..] == x'[1..] + t;
    if x[0] == ',' {
      SkipWsLocal(x'[1..], t);
      MembersLocal(fl, SkipWs(x'[1..]), t, acc[k := v], fields, rest);
    }
    MembersFrom(fl, p, acc, k, n', v, r', x');
  }
}
