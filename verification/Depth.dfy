/** Nesting depth: the iterative check, the recursive check, and the bracket count in front of them. */
module Depth {
  import opened Options
  import opened PyText
  import opened JsonValues
  import opened JsonParser
  import opened JsonRoundTrip
  import opened JsonGrammar
  import opened NumberTokens

  /** `v` nests at most `m` containers, the outermost being depth 1. */
  predicate Within(v: Json, m: int) {
    match v
    case Arr(items) => m >= 1 && forall i :: 0 <= i < |items| ==> Within(items[i], m - 1)
    case Obj(fields) => m >= 1 && forall k :: k in fields ==> Within(fields[k], m - 1)
    case _ => true
  }

  const MAX_PAYLOAD_DEPTH: int := 100

  /** `_validate_depth(val, current_depth)` on a decoded tree, false when it raises. */
  predicate ValidateDepth(v: Json, current: int) {
    match v
    case Arr(items) =>
      current <= MAX_PAYLOAD_DEPTH && forall i :: 0 <= i < |items| ==> ValidateDepth(items[i], current + 1)
    case Obj(fields) =>
      current <= MAX_PAYLOAD_DEPTH && forall k :: k in fields ==> ValidateDepth(fields[k], current + 1)
    case _ => true
  }

  lemma {:induction false} ValidateIsWithin(v: Json, current: int)
    ensures ValidateDepth(v, current) <==> Within(v, MAX_PAYLOAD_DEPTH - current + 1)
  {
    match v
    case Arr(items) =>
      forall i | 0 <= i < |items|
        ensures ValidateDepth(items[i], current + 1) <==> Within(items[i], MAX_PAYLOAD_DEPTH - current) {
        ValidateIsWithin(items[i], current + 1);
      }
    case Obj(fields) =>
      forall k | k in fields
        ensures ValidateDepth(fields[k], current + 1) <==> Within(fields[k], MAX_PAYLOAD_DEPTH - current) {
        ValidateIsWithin(fields[k], current + 1);
      }
    case _ =>
  }

  // ----- `check_nesting_depth` -----

  predicate IsContainer(v: Json) {
    v.Arr? || v.Obj?
  }

  /** A list's items, or a mapping's values. */
  function Children(v: Json): (cs: seq<Json>)
    requires IsContainer(v)
    ensures forall i :: 0 <= i < |cs| ==> cs[i] < v
  {
    match v
    case Arr(items) => items
    case Obj(fields) => ValuesOf(v, SortedKeys(fields.Keys))
  }

  function ValuesOf(v: Json, keys: seq<PyStr>): (cs: seq<Json>)
    requires v.Obj? && forall k :: k in keys ==> k in v.fields
    ensures |cs| == |keys|
    ensures forall i :: 0 <= i < |cs| ==> keys[i] in v.fields && cs[i] == v.fields[keys[i]] && cs[i] < v
  {
    if keys == [] then [] else [v.fields[keys[0]]] + ValuesOf(v, keys[1..])
  }

  lemma {:induction false} WithinChildren(v: Json, m: int)
    requires IsContainer(v)
    ensures Within(v, m) <==> m >= 1 && forall i :: 0 <= i < |Children(v)| ==> Within(Children(v)[i], m - 1)
  {
    if v.Obj? {
      WithinFields(v, m);
    } else {
      assert Children(v) == v.items;
      assert Within(v, m) <==> m >= 1 && forall i :: 0 <= i < |v.items| ==> Within(v.items[i], m - 1);
    }
  }

  lemma {:induction false} WithinFields(v: Json, m: int)
    requires v.Obj?
    ensures Within(v, m) <==> m >= 1 && forall i :: 0 <= i < |Children(v)| ==> Within(Children(v)[i], m - 1)
  {
    var ks, cs := SortedKeys(v.fields.Keys), Children(v);
    assert Within(v, m) <==> m >= 1 && forall k :: k in v.fields ==> Within(v.fields[k], m - 1);
    if m >= 1 && forall i :: 0 <= i < |cs| ==> Within(cs[i], m - 1) {
      forall k | k in v.fields ensures Within(v.fields[k], m - 1) {
        assert k in ks;
        var i :| 0 <= i < |ks| && ks[i] == k;
        assert Within(cs[i], m - 1);
      }
    }
    if Within(v, m) {
      forall i | 0 <= i < |cs| ensures Within(cs[i], m - 1) {
        assert ks[i] in v.fields && cs[i] == v.fields[ks[i]];
      }
    }
  }

  /** The number of containers in `v`: how many turns the loop takes. */
  function Size(v: Json): nat
    decreases v, 1, 0
  {
    if IsContainer(v) then 1 + SizeOfChildren(v, Children(v)) else 0
  }

  function SizeOfChildren(v: Json, cs: seq<Json>): nat
    requires forall i :: 0 <= i < |cs| ==> cs[i] < v
    decreases v, 0, |cs|
  {
    if cs == [] then 0 else Size(cs[0]) + SizeOfChildren(v, cs[1..])
  }

  datatype Pending = Pending(value: Json, depth: int)

  function StackSize(stack: seq<Pending>): nat {
    if stack == [] then 0 else Size(stack[0].value) + StackSize(stack[1..])
  }

  lemma {:induction false} StackSizeConcat(a: seq<Pending>, b: seq<Pending>)
    ensures StackSize(a + b) == StackSize(a) + StackSize(b)
    decreases |a|
  {
    if a == [] {
      assert a + b == b;
    } else {
      assert (a + b)[1..] == a[1..] + b;
      StackSizeConcat(a[1..], b);
    }
  }

  /** The children of `v` that are containers, one level deeper. */
  function Containers(v: Json, cs: seq<Json>, depth: int): (r: seq<Pending>)
    requires forall i :: 0 <= i < |cs| ==> cs[i] < v
    ensures forall i :: 0 <= i < |r| ==> IsContainer(r[i].value) && r[i].depth == depth
    ensures forall i :: 0 <= i < |r| ==> r[i].value in cs
    ensures forall i :: 0 <= i < |cs| && IsContainer(cs[i]) ==> Pending(cs[i], depth) in r
    ensures StackSize(r) == SizeOfChildren(v, cs)
    decreases |cs|
  {
    if cs == [] then []
    else
      var rest := Containers(v, cs[1..], depth);
      if IsContainer(cs[0]) then [Pending(cs[0], depth)] + rest else rest
  }

  /** Everything on the stack stays within the limit. */
  predicate AllWithin(stack: seq<Pending>, m: int) {
    forall i :: 0 <= i < |stack| ==> Within(stack[i].value, m - stack[i].depth + 1)
  }

  lemma {:induction false} PushChildren(rest: seq<Pending>, top: Pending, m: int)
    requires IsContainer(top.value) && top.depth <= m
    ensures AllWithin(rest + [top], m) <==>
            AllWithin(rest + Containers(top.value, Children(top.value), top.depth + 1), m)
  {
    hide *;
    var cs := Children(top.value);
    WithinChildren(top.value, m - top.depth + 1);
    ContainersWithin(top.value, cs, top.depth + 1, m);
    AllWithinConcat(rest, [top], m);
    AllWithinConcat(rest, Containers(top.value, cs, top.depth + 1), m);
    OneWithin(top, m);
  }

  lemma {:induction false} OneWithin(top: Pending, m: int)
    ensures AllWithin([top], m) <==> Within(top.value, m - top.depth + 1)
  {
    hide Within;
    assert [top][0] == top;
  }

  lemma {:induction false} ContainersWithin(v: Json, cs: seq<Json>, depth: int, m: int)
    requires forall i :: 0 <= i < |cs| ==> cs[i] < v
    ensures AllWithin(Containers(v, cs, depth), m) <==> forall i :: 0 <= i < |cs| ==> Within(cs[i], m - depth + 1)
    decreases |cs|
  {
    if cs != [] {
      var rest := Containers(v, cs[1..], depth);
      ContainersWithin(v, cs[1..], depth, m);
      if IsContainer(cs[0]) {
        AllWithinConcat([Pending(cs[0], depth)], rest, m);
        OneWithin(Pending(cs[0], depth), m);
      } else {
        ScalarWithin(cs[0], m - depth + 1);
      }
      hide Within, AllWithin;
      assert forall i :: 0 <= i < |cs| ==> cs[i] == if i == 0 then cs[0] else cs[1..][i - 1];
    }
  }

  lemma {:induction false} ScalarWithin(v: Json, m: int)
    requires !IsContainer(v)
    ensures Within(v, m)
  {
  }

  lemma {:induction false} AllWithinConcat(a: seq<Pending>, b: seq<Pending>, m: int)
    ensures AllWithin(a + b, m) <==> AllWithin(a, m) && AllWithin(b, m)
  {
    hide Within;
    var c := a + b;
    assert forall i :: 0 <= i < |a| ==> c[i] == a[i];
    assert forall i :: 0 <= i < |b| ==> c[|a| + i] == b[i];
    if AllWithin(c, m) {
      forall i | 0 <= i < |b| ensures Within(b[i].value, m - b[i].depth + 1) {
        assert Within(c[|a| + i].value, m - c[|a| + i].depth + 1);
      }
    }
  }

  /** Replacing the top of the stack by its containers keeps the verdict and makes the stack smaller. */
  lemma {:induction false} StackStep(rest: seq<Pending>, top: Pending, m: int)
    requires IsContainer(top.value) && top.depth <= m
    ensures var more := Containers(top.value, Children(top.value), top.depth + 1);
            && (AllWithin(rest + [top], m) <==> AllWithin(rest + more, m))
            && StackSize(rest + more) < StackSize(rest + [top])
  {
    hide Children, Containers, AllWithin, IsContainer, SizeOfChildren;
    PushChildren(rest, top, m);
    var more := Containers(top.value, Children(top.value), top.depth + 1);
    StackSizeConcat(rest, [top]);
    StackSizeConcat(rest, more);
    OneSize(top);
    hide StackSize, Size;
  }

  lemma {:induction false} OneSize(top: Pending)
    requires IsContainer(top.value)
    ensures StackSize([top]) == 1 + SizeOfChildren(top.value, Children(top.value))
  {
    assert [top][1..] == [];
    hide Children, SizeOfChildren;
  }

  lemma {:induction false} TooDeep(rest: seq<Pending>, top: Pending, m: int)
    requires IsContainer(top.value) && top.depth > m
    ensures !AllWithin(rest + [top], m)
  {
    AllWithinConcat(rest, [top], m);
    OneWithin(top, m);
    hide AllWithin;
  }

  /** The iterative check decides the recursive depth. */
  method CheckNestingDepth(obj: Json, maxDepth: int) returns (ok: bool)
    ensures ok <==> Within(obj, maxDepth)
  {
    if !IsContainer(obj) {
      return true;
    }
    var stack := [Pending(obj, 1)];
    OneWithin(Pending(obj, 1), maxDepth);
    hide AllWithin, Within, Children, Containers, StackSize, IsContainer;
    while stack != []
      invariant forall i :: 0 <= i < |stack| ==> IsContainer(stack[i].value)
      invariant AllWithin(stack, maxDepth) <==> Within(obj, maxDepth)
      decreases StackSize(stack)
    {
      ghost var before := stack;
      var top := stack[|stack| - 1];
      stack := stack[..|stack| - 1];
      assert before == stack + [top];
      if top.depth > maxDepth {
        TooDeep(stack, top, maxDepth);
        return false;
      }
      StackStep(stack, top, maxDepth);
      stack := stack + Containers(top.value, Children(top.value), top.depth + 1);
    }
    EmptyWithin(maxDepth);
    return true;
  }

  lemma {:induction false} EmptyWithin(m: int)
    ensures AllWithin([], m)
  {
  }

  // ----- The bracket count -----

  /** `text.count("{") + text.count("[")` */
  function Brackets(s: string): nat {
    if s == "" then 0 else (if s[0] == '{' || s[0] == '[' then 1 else 0) + Brackets(s[1..])
  }

  lemma {:induction false} BracketsTail(s: string, n: nat)
    requires n <= |s|
    ensures Brackets(s[n..]) <= Brackets(s)
    decreases |s|
  {
    if n > 0 {
      assert s[1..][n - 1..] == s[n..];
      BracketsTail(s[1..], n - 1);
    } else {
      assert s[0..] == s;
    }
  }

  lemma {:induction false} SkipWsTail(s: string)
    ensures Brackets(SkipWs(s)) == Brackets(s)
    decreases |s|
  {
    if s != "" && IsWs(s[0]) { SkipWsTail(s[1..]); }
  }

  lemma {:induction false} UnitsTail(s: string)
    requires Units(s).Ok?
    ensures Brackets(Units(s).rest) <= Brackets(s)
    decreases |s|
  {
    if s[0] != '"' {
      UnitsTail(s[CharLength(s)..]);
      BracketsTail(s, CharLength(s));
    }
  }

  lemma {:induction false} WithinMore(v: Json, m: int, m': int)
    requires Within(v, m) && m <= m'
    ensures Within(v, m')
  {
    match v
    case Arr(items) =>
      forall i | 0 <= i < |items| ensures Within(items[i], m' - 1) { WithinMore(items[i], m - 1, m' - 1); }
    case Obj(fields) =>
      forall k | k in fields ensures Within(fields[k], m' - 1) { WithinMore(fields[k], m - 1, m' - 1); }
    case _ =>
  }

  /** A parse spends one bracket for every level of nesting it builds. */
  lemma {:induction false} ParseSpends(fl: FloatReader, s: string, v: Json, rest: string)
    requires ParseValue(fl, s) == Ok(v, rest)
    ensures Brackets(rest) <= Brackets(s) && Within(v, Brackets(s) - Brackets(rest))
    decreases |s|, 1
  {
    if s[0] == '{' {
      ObjectSpends(fl, s, v, rest);
    } else if s[0] == '[' {
      ArraySpends(fl, s, v, rest);
    } else if s[0] == '"' {
      UnitsTail(s[1..]);
    } else {
      ScalarSpends(fl, s, v, rest);
    }
  }

  lemma {:induction false} ObjectSpends(fl: FloatReader, s: string, v: Json, rest: string)
    requires s != "" && s[0] == '{' && ParseValue(fl, s) == Ok(v, rest)
    ensures Brackets(rest) <= Brackets(s) && Within(v, Brackets(s) - Brackets(rest))
    decreases |s|, 0
  {
    hide ParseName, ParseNumber;
    SkipWsTail(s[1..]);
    var r := SkipWs(s[1..]);
    if r[0] == '}' {
      BracketsTail(r, 1);
    } else {
      MembersSpend(fl, r, map[], v.fields, rest, 0);
    }
  }

  lemma {:induction false} ArraySpends(fl: FloatReader, s: string, v: Json, rest: string)
    requires s != "" && s[0] == '[' && ParseValue(fl, s) == Ok(v, rest)
    ensures Brackets(rest) <= Brackets(s) && Within(v, Brackets(s) - Brackets(rest))
    decreases |s|, 0
  {
    hide ParseName, ParseNumber;
    SkipWsTail(s[1..]);
    var r := SkipWs(s[1..]);
    if r[0] == ']' {
      BracketsTail(r, 1);
    } else {
      ItemsSpend(fl, r, v.items, rest);
    }
  }

  lemma {:induction false} ScalarSpends(fl: FloatReader, s: string, v: Json, rest: string)
    requires s != "" && s[0] != '"' && s[0] != '{' && s[0] != '['
    requires ParseValue(fl, s) == Ok(v, rest)
    ensures Brackets(rest) <= Brackets(s) && !IsContainer(v)
  {
    assert exists n: nat :: n <= |s| && rest == s[n..];
    var n: nat :| n <= |s| && rest == s[n..];
    BracketsTail(s, n);
  }

  lemma {:induction false} ItemsSpend(fl: FloatReader, s: string, vs: seq<Json>, rest: string)
    requires ParseItems(fl, s) == Ok(vs, rest)
    ensures Brackets(rest) <= Brackets(s)
    ensures forall i :: 0 <= i < |vs| ==> Within(vs[i], Brackets(s) - Brackets(rest))
    decreases |s|, 2
  {
    hide *;
    var v, r, x := ItemsCases(fl, s, vs, rest);
    ParseSpends(fl, s, v, r);
    SkipWsTail(r);
    BracketsTail(x, 1);
    var total := Brackets(s) - Brackets(rest);
    if x[0] == ',' {
      SkipWsTail(x[1..]);
      ItemsSpend(fl, SkipWs(x[1..]), vs[1..], rest);
      forall i | 0 <= i < |vs| ensures Within(vs[i], total) {
        if i == 0 {
          WithinMore(v, Brackets(s) - Brackets(r), total);
        } else {
          assert vs[i] == vs[1..][i - 1];
          WithinMore(vs[i], Brackets(SkipWs(x[1..])) - Brackets(rest), total);
        }
      }
    } else {
      WithinMore(v, Brackets(s) - Brackets(r), total);
    }
  }

  lemma {:induction false} NameSpends(s: string)
    requires ParseName(s).Ok?
    ensures Brackets(ParseName(s).rest) <= Brackets(s)
  {
    UnitsTail(s[1..]);
    var rest := ParseString(s[1..]).rest;
    SkipWsTail(rest);
    var r := SkipWs(rest);
    BracketsTail(r, 1);
    SkipWsTail(r[1..]);
  }

  /** `m` bounds what has been read before. */
  lemma {:induction false} MembersSpend(fl: FloatReader, s: string, acc: map<PyStr, Json>, fields: map<PyStr, Json>,
                                        rest: string, m: nat)
    requires ParseMembers(fl, s, acc) == Ok(fields, rest)
    requires forall k :: k in acc ==> Within(acc[k], m)
    ensures Brackets(rest) <= Brackets(s)
    ensures forall k :: k in fields ==> Within(fields[k], m + Brackets(s) - Brackets(rest))
    decreases |s|, 2
  {
    hide *;
    var k, n, v, r, x := MembersCases(fl, s, acc, fields, rest);
    NameSpends(s);
    ParseSpends(fl, n, v, r);
    SkipWsTail(r);
    BracketsTail(x, 1);
    var acc' := acc[k := v];
    var m' := m + Brackets(s) - Brackets(r);
    forall k' | k' in acc' ensures Within(acc'[k'], m') {
      if k' == k { WithinMore(v, Brackets(n) - Brackets(r), m'); } else { WithinMore(acc[k'], m, m'); }
    }
    var total := m + Brackets(s) - Brackets(rest);
    if x[0] == ',' {
      SkipWsTail(x[1..]);
      var x' := SkipWs(x[1..]);
      MembersSpend(fl, x', acc', fields, rest, m');
      forall k' | k' in fields ensures Within(fields[k'], total) {
        WithinMore(fields[k'], m' + Brackets(x') - Brackets(rest), total);
      }
    } else {
      forall k' | k' in fields ensures Within(fields[k'], total) { WithinMore(fields[k'], m', total); }
    }
  }

  /** The depth step of `_process_line`: the walk is made only when the bracket count allows a
      violation, and that never changes the verdict. */
  method DepthAccepted(fl: FloatReader, text: string, obj: Json, maxDepth: int) returns (ok: bool)
    requires Loads(fl, text) == Some(obj)
    ensures ok <==> Within(obj, maxDepth)
  {
    if Brackets(text) > maxDepth {
      ok := CheckNestingDepth(obj, maxDepth);
    } else {
      PrefilterSound(fl, text, obj, maxDepth);
      ok := true;
    }
  }

  lemma {:induction false} PrefilterSound(fl: FloatReader, text: string, obj: Json, maxDepth: int)
    requires Loads(fl, text) == Some(obj) && Brackets(text) <= maxDepth
    ensures Within(obj, maxDepth)
  {
    SkipWsTail(text);
    var s := SkipWs(text);
    ParseSpends(fl, s, obj, ParseValue(fl, s).rest);
    WithinMore(obj, Brackets(s) - Brackets(ParseValue(fl, s).rest), maxDepth);
  }
}
