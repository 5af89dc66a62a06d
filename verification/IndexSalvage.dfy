/** Recovering the entries of a truncated session index. */
module IndexSalvage {
  import opened Options
  import opened PyText
  import opened JsonValues
  import opened JsonGrammar
  import opened NumberTokens
  import opened JsonParser
  import opened JsonRoundTrip
  import opened JsonLocality
  import Depth

  const MAX_INDEX_ENTRIES: nat := 65536
  const ENTRIES := Name("entries")
  const SESSION_ID := Name("sessionId")
  const FULL_PATH := Name("fullPath")
  const MARKER: string := "\"entries\""

  datatype IndexEntry = IndexEntry(sessionId: Option<PyStr>, fullPath: Option<PyStr>)

  /** A non-empty string under a key. */
  function TextUnder(o: map<PyStr, Json>, k: PyStr): Option<PyStr> {
    if k in o && o[k].Str? && o[k].s != [] then Some(o[k].s) else None
  }

  function EntryOf(o: map<PyStr, Json>): IndexEntry {
    IndexEntry(TextUnder(o, SESSION_ID), TextUnder(o, FULL_PATH))
  }

  /** The entry names the session and the path that the record has as strings, and no empty ones. */
  ghost predicate EntrySays(o: map<PyStr, Json>, e: IndexEntry) {
    && (forall x :: e.sessionId == Some(x) <==> Name("sessionId") in o && o[Name("sessionId")] == Str(x) && x != [])
    && (forall x :: e.fullPath == Some(x) <==> Name("fullPath") in o && o[Name("fullPath")] == Str(x) && x != [])
  }

  lemma {:induction false} EntryIs(o: map<PyStr, Json>, e: IndexEntry)
    ensures EntryOf(o) == e <==> EntrySays(o, e)
  {
    TextIs(o, SESSION_ID, e.sessionId);
    TextIs(o, FULL_PATH, e.fullPath);
    assert SESSION_ID == Name("sessionId") && FULL_PATH == Name("fullPath");
    hide TextUnder, Name;
  }

  lemma {:induction false} TextIs(o: map<PyStr, Json>, k: PyStr, t: Option<PyStr>)
    ensures TextUnder(o, k) == t <==> forall x :: t == Some(x) <==> k in o && o[k] == Str(x) && x != []
  {
    if forall x :: t == Some(x) <==> k in o && o[k] == Str(x) && x != [] {
      if t.Some? { assert t == Some(t.value); }
      if k in o && o[k].Str? && o[k].s != [] { assert o[k] == Str(o[k].s); }
    }
  }

  /** The entries of a decoded list: its objects, in order. */
  function Entries(items: seq<Json>): seq<IndexEntry> {
    if items == [] then []
    else EntryIn(items[0]) + Entries(items[1..])
  }

  function Missing(items: seq<Json>): nat {
    if items == [] then 0
    else (if items[0].Obj? && EntryOf(items[0].fields).sessionId.Some? then 0 else 1) + Missing(items[1..])
  }

  function EntryIn(x: Json): seq<IndexEntry> {
    if x.Obj? then [EntryOf(x.fields)] else []
  }

  lemma {:induction false} EntriesMore(items: seq<Json>, x: Json)
    ensures Entries(items + [x]) == Entries(items) + EntryIn(x)
    decreases |items|
  {
    hide EntryOf;
    var all := items + [x];
    if items == [] {
      assert all[0] == x && all[1..] == [];
      assert Entries(all) == EntryIn(x) + Entries(all[1..]);
    } else {
      assert all[0] == items[0] && all[1..] == items[1..] + [x];
      EntriesMore(items[1..], x);
      assert Entries(all) == EntryIn(items[0]) + (Entries(items[1..]) + EntryIn(x));
    }
  }

  lemma {:induction false} MissingMore(items: seq<Json>, x: Json)
    ensures Missing(items + [x]) == Missing(items) + (if x.Obj? && EntryOf(x.fields).sessionId.Some? then 0 else 1)
    decreases |items|
  {
    hide EntryOf;
    var all := items + [x];
    if items == [] {
      assert all[0] == x && all[1..] == [];
    } else {
      assert all[0] == items[0] && all[1..] == items[1..] + [x];
      MissingMore(items[1..], x);
    }
  }

  /** An item that is no object, or one without a non-empty session id. */
  ghost predicate LacksId(x: Json) {
    !x.Obj? || forall id :: Name("sessionId") in x.fields && x.fields[Name("sessionId")] == Str(id) ==> id == []
  }

  /** The number is that of the places whose item lacks an id. */
  lemma {:induction false} MissingIs(items: seq<Json>)
    ensures Missing(items) == |set i | 0 <= i < |items| && LacksId(items[i])|
    decreases |items|
  {
    if items != [] {
      var n := |items| - 1;
      var front := items[..n];
      assert items == front + [items[n]];
      MissingIs(front);
      MissingMore(front, items[n]);
      IdThere(items[n]);
      hide LacksId, Missing, EntryOf;
      var before := set i | 0 <= i < n && LacksId(front[i]);
      var all := set i | 0 <= i < |items| && LacksId(items[i]);
      assert all == if LacksId(items[n]) then before + {n} else before;
    }
  }

  lemma {:induction false} IdThere(x: Json)
    ensures LacksId(x) <==> !(x.Obj? && EntryOf(x.fields).sessionId.Some?)
  {
    if x.Obj? {
      EntryIs(x.fields, EntryOf(x.fields));
      hide EntryOf, Name;
      var id := EntryOf(x.fields).sessionId;
      if id.Some? { assert id == Some(id.value); }
    }
  }

  /** A document of the recognised shape. */
  predicate Lists(doc: Json) {
    doc.Obj? && ENTRIES in doc.fields && doc.fields[ENTRIES].Arr?
  }

  /** The entries of such a document. */
  function Listed(doc: Json): seq<IndexEntry>
    requires Lists(doc)
  {
    Entries(doc.fields[ENTRIES].items)
  }

  /** `_extract_entries(doc)`: the entries and how many lack an id, nothing for an unrecognised shape. */
  method ExtractEntries(doc: Json) returns (r: Option<(seq<IndexEntry>, nat)>)
    ensures r.Some? <==> Lists(doc)
    ensures r.Some? ==> r.value == (Listed(doc), Missing(doc.fields[ENTRIES].items))
  {
    hide EntryOf, Name;
    if !doc.Obj? || ENTRIES !in doc.fields || !doc.fields[ENTRIES].Arr? {
      return None;
    }
    var items := doc.fields[ENTRIES].items;
    var out: seq<IndexEntry> := [];
    var missing := 0;
    for i := 0 to |items|
      invariant out == Entries(items[..i]) && missing == Missing(items[..i])
    {
      assert items[..i + 1] == items[..i] + [items[i]];
      EntriesMore(items[..i], items[i]);
      MissingMore(items[..i], items[i]);
      if !items[i].Obj? {
        missing := missing + 1;
        continue;
      }
      var entry := EntryOf(items[i].fields);
      if entry.sessionId.None? {
        missing := missing + 1;
      }
      out := out + [entry];
    }
    assert items[..|items|] == items;
    return Some((out, missing));
  }

  // ----- `_salvage_partial` -----

  predicate Sep(c: char) {
    IsWs(c) || c == ','
  }

  function SkipSep(s: string): (r: string)
    ensures |r| <= |s|
  {
    if s != "" && Sep(s[0]) then SkipSep(s[1..]) else s
  }

  lemma {:induction false} SkipSepRun(s: string) returns (w: string)
    ensures s == w + SkipSep(s) && (forall i :: 0 <= i < |w| ==> Sep(w[i]))
    ensures SkipSep(s) != "" ==> !Sep(SkipSep(s)[0])
    decreases |s|
  {
    hide Sep;
    if s != "" && Sep(s[0]) {
      var u := SkipSepRun(s[1..]);
      w := [s[0]] + u;
    } else {
      w := "";
    }
  }

  /** It passes exactly the whitespace and commas in front. */
  lemma {:induction false} SkipSepIs(s: string)
    ensures var n := |s| - |SkipSep(s)|;
            && s[n..] == SkipSep(s) && (forall i :: 0 <= i < n ==> s[i] in " \t\r\n,")
            && (n < |s| ==> s[n] !in " \t\r\n,")
  {
    hide SkipSep;
    var w := SkipSepRun(s);
    assert forall i :: 0 <= i < |w| ==> s[i] == w[i];
  }

  /** The entries the loop finds in the rest of the text, at most `room`. */
  function Salvaged(fl: FloatReader, t: string, room: nat): seq<IndexEntry>
    decreases |t|
  {
    var s := SkipSep(t);
    if room == 0 || s == "" || s[0] == ']' then []
    else match ParseValue(fl, s)
      case Fail => []
      case Ok(v, rest) =>
        if v.Obj? then [EntryOf(v.fields)] + Salvaged(fl, rest, room - 1) else Salvaged(fl, rest, room)
  }

  /** `text.find(pattern, from)` */
  function Find(text: string, pattern: string, from: nat): (i: int)
    ensures i == -1 || from <= i <= |text| - |pattern|
    decreases |text| - from
  {
    if from + |pattern| > |text| then -1
    else if text[from..from + |pattern|] == pattern then from
    else Find(text, pattern, from + 1)
  }

  /** Where the list is searched: behind the first bracket after the first marker. */
  function ListStart(text: string): (i: int)
    ensures i == -1 || 0 < i <= |text|
  {
    var m := Find(text, MARKER, 0);
    if m == -1 then -1
    else
      var b := Find(text, "[", m);
      if b == -1 then -1 else b + 1
  }

  function SalvagePartial(fl: FloatReader, text: string): seq<IndexEntry> {
    if ListStart(text) == -1 then [] else Salvaged(fl, text[ListStart(text)..], MAX_INDEX_ENTRIES)
  }

  /** The inner loop: on to the next character that is no separator. */
  method SkipSeparators(text: string, from: nat) returns (pos: nat)
    requires from <= |text|
    ensures from <= pos <= |text| && text[pos..] == SkipSep(text[from..])
  {
    pos := from;
    while pos < |text| && Sep(text[pos])
      invariant from <= pos <= |text| && SkipSep(text[pos..]) == SkipSep(text[from..])
    {
      assert text[pos..][1..] == text[pos + 1..];
      pos := pos + 1;
    }
  }

  /** One turn of the loop, by what is found behind the separators. */
  lemma {:induction false} SalvageStep(fl: FloatReader, t: string, room: nat)
    requires room > 0
    ensures var s := SkipSep(t);
            Salvaged(fl, t, room) ==
            if s == "" || s[0] == ']' then []
            else match ParseValue(fl, s)
              case Fail => []
              case Ok(v, rest) =>
                if v.Obj? then [EntryOf(v.fields)] + Salvaged(fl, rest, room - 1) else Salvaged(fl, rest, room)
  {
  }

  lemma {:induction false} SalvageFull(fl: FloatReader, t: string)
    ensures Salvaged(fl, t, 0) == []
  {
  }

  lemma {:induction false} SalvageNothing(fl: FloatReader, room: nat)
    ensures Salvaged(fl, "", room) == []
  {
  }

  /** `_salvage_partial(text)` */
  method SalvagePartialEntries(fl: FloatReader, text: string) returns (out: seq<IndexEntry>)
    ensures out == SalvagePartial(fl, text)
  {
    hide ParseValue, Find, EntryOf, Salvaged, SkipSep, MARKER;
    var start := ListStart(text);
    if start == -1 {
      return [];
    }
    var pos: nat := start;
    ghost var all := Salvaged(fl, text[start..], MAX_INDEX_ENTRIES);
    out := [];
    while pos < |text| && |out| < MAX_INDEX_ENTRIES
      invariant pos <= |text| && |out| <= MAX_INDEX_ENTRIES
      invariant all == out + Salvaged(fl, text[pos..], MAX_INDEX_ENTRIES - |out|)
      decreases |text| - pos
    {
      SalvageStep(fl, text[pos..], MAX_INDEX_ENTRIES - |out|);
      pos := SkipSeparators(text, pos);
      if pos >= |text| || text[pos] == ']' {
        return;
      }
      var decoded := ParseValue(fl, text[pos..]);
      if decoded.Fail? {
        return;
      }
      ParseSuffix(fl, text[pos..]);
      ghost var before := pos;
      pos := |text| - |decoded.rest|;
      SuffixAt(text, before, decoded.rest);
      if decoded.value.Obj? {
        out := out + [EntryOf(decoded.value.fields)];
      }
    }
    SalvageFull(fl, text[pos..]);
    SalvageNothing(fl, MAX_INDEX_ENTRIES - |out|);
  }

  lemma {:induction false} SuffixAt(text: string, before: nat, rest: string)
    requires before <= |text| && |rest| <= |text| - before && text[before..][|text| - before - |rest|..] == rest
    ensures text[|text| - |rest|..] == rest
  {
  }

  /** What a parse leaves is a suffix of its text. */
  lemma {:induction false} ParseSuffix(fl: FloatReader, s: string)
    requires ParseValue(fl, s).Ok?
    ensures s[|s| - |ParseValue(fl, s).rest|..] == ParseValue(fl, s).rest
  {
    var v, rest := ParseValue(fl, s).value, ParseValue(fl, s).rest;
    var n := |s| - |rest|;
    assert s == s[..n] + s[n..];
    ParseLocal(fl, s[..n], s[n..], v, rest);
    hide ParseValue;
  }

  // ----- What is found in a cut list -----

  /** The values of the list text `s` that end within its first `n` characters. */
  function Complete(fl: FloatReader, s: string, n: nat): seq<Json>
    decreases |s|
  {
    match ParseValue(fl, s)
    case Fail => []
    case Ok(v, rest) =>
      if |s| - |rest| > n then []
      else
        var x := SkipWs(rest);
        if x == "" || x[0] != ',' then [v]
        else
          var y := SkipWs(x[1..]);
          [v] + (if |s| - |y| < n then Complete(fl, y, n - (|s| - |y|)) else [])
  }

  /** They are the first values of the list, and all of them when the cut is behind it. */
  lemma {:induction false} CompleteIsPrefix(fl: FloatReader, s: string, vs: seq<Json>, rest: string, n: nat)
    requires ParseItems(fl, s) == Ok(vs, rest)
    ensures Complete(fl, s, n) <= vs
    ensures n >= |s| - |rest| ==> Complete(fl, s, n) == vs
    decreases |s|
  {
    hide ParseItems, ParseValue, SkipWs;
    var v, r, x := ItemsCases(fl, s, vs, rest);
    Shorter(fl, s, vs, rest, v, r, x);
    if x[0] == ',' {
      var y := SkipWs(x[1..]);
      if |s| - |y| < n { CompleteIsPrefix(fl, y, vs[1..], rest, n - (|s| - |y|)); }
      assert vs == [v] + vs[1..];
    }
  }

  function Take(xs: seq<IndexEntry>, room: nat): seq<IndexEntry> {
    if |xs| <= room then xs else xs[..room]
  }

  lemma {:induction false} TakeCons(x: IndexEntry, xs: seq<IndexEntry>, room: nat)
    requires room > 0
    ensures Take([x] + xs, room) == [x] + Take(xs, room - 1)
  {
  }

  lemma {:induction false} ValueHeadIs(fl: FloatReader, s: string)
    requires ParseValue(fl, s).Ok?
    ensures s != "" && !Sep(s[0]) && s[0] != ']'
  {
    LongestDead(s[1..]);
    hide Longest;
  }

  /** Separators in front are skipped, as far as the cut leaves any. */
  lemma {:induction false} SkipRun(fl: FloatReader, w: string, u: string, n: nat, room: nat)
    requires (forall i :: 0 <= i < |w| ==> Sep(w[i])) && n <= |w + u|
    ensures Salvaged(fl, (w + u)[..n], room) == Salvaged(fl, u[..if n > |w| then n - |w| else 0], room)
    decreases |w|
  {
    hide ParseValue, EntryOf;
    if w == "" {
      assert w + u == u;
    } else if n == 0 {
      assert (w + u)[..0] == "" && u[..0] == "";
    } else {
      var t := (w + u)[..n];
      assert t[0] == w[0] && t[1..] == (w[1..] + u)[..n - 1];
      assert SkipSep(t) == SkipSep(t[1..]);
      SkipRun(fl, w[1..], u, n - 1, room);
    }
  }

  lemma {:induction false} WsRun(s: string) returns (w: string)
    ensures s == w + SkipWs(s) && forall i :: 0 <= i < |w| ==> Sep(w[i])
    decreases |s|
  {
    if s != "" && IsWs(s[0]) {
      var u := WsRun(s[1..]);
      w := [s[0]] + u;
    } else {
      w := "";
    }
  }

  lemma {:induction false} NoBrackets(fl: FloatReader, t: string, room: nat)
    requires Depth.Brackets(t) == 0
    ensures Salvaged(fl, t, room) == []
    decreases |t|
  {
    hide ParseValue, EntryOf;
    var s := SkipSep(t);
    SkipSepBrackets(t);
    if room > 0 && s != "" && s[0] != ']' && ParseValue(fl, s).Ok? {
      var v, rest := ParseValue(fl, s).value, ParseValue(fl, s).rest;
      Depth.ParseSpends(fl, s, v, rest);
      NoBrackets(fl, rest, room);
    }
  }

  lemma {:induction false} SkipSepBrackets(t: string)
    ensures Depth.Brackets(SkipSep(t)) <= Depth.Brackets(t)
    decreases |t|
  {
    if t != "" && Sep(t[0]) { SkipSepBrackets(t[1..]); }
  }

  lemma {:induction false} ScalarBrackets(s: string, n: nat)
    requires n <= |s| && forall i :: 0 <= i < n ==> s[i] != '{' && s[i] != '['
    ensures Depth.Brackets(s[..n]) == 0
    decreases n
  {
    if n > 0 {
      assert s[..n][1..] == s[1..][..n - 1];
      ScalarBrackets(s[1..], n - 1);
    }
  }

  lemma {:induction false} ScalarToken(fl: FloatReader, s: string)
    requires StartsScalar(s) && ParseValue(fl, s).Ok?
    ensures forall i :: 0 <= i < |s| - |ParseValue(fl, s).rest| ==> s[i] != '{' && s[i] != '['
  {
    if "null" <= s { WordLetters(s, "null"); }
    if "true" <= s { WordLetters(s, "true"); }
    if "false" <= s { WordLetters(s, "false"); }
    if !("null" <= s) && !("true" <= s) && !("false" <= s) {
      NumberCase(fl, s);
      NumberLetters(fl, s);
    }
    hide ParseNumber;
  }

  lemma {:induction false} WordLetters(s: string, word: string)
    requires word <= s
    requires forall i :: 0 <= i < |word| ==> word[i] != '{' && word[i] != '['
    ensures forall i :: 0 <= i < |word| ==> s[i] != '{' && s[i] != '['
  {
    assert forall i :: 0 <= i < |word| ==> s[i] == word[i];
  }

  lemma {:induction false} NumberLetters(fl: FloatReader, s: string)
    requires ParseNumber(fl, s).Ok?
    ensures forall i :: 0 <= i < |s| - |ParseNumber(fl, s).rest| ==> s[i] != '{' && s[i] != '['
  {
    if Longest(Start, s).Some? {
      var n := Longest(Start, s).value;
      LongestAccepts(Start, s);
      NumberChars(Start, s[..n]);
      assert forall i :: 0 <= i < n ==> s[i] == s[..n][i];
    } else {
      if "NaN" <= s { WordLetters(s, "NaN"); }
      if "Infinity" <= s { WordLetters(s, "Infinity"); }
      if "-Infinity" <= s { WordLetters(s, "-Infinity"); }
    }
    hide Longest, Run;
  }

  /** What the loop does with the value it decodes first. */
  lemma {:induction false} SalvageFirst(fl: FloatReader, t: string, v: Json, rest: string, room: nat)
    requires room > 0 && ParseValue(fl, t) == Ok(v, rest)
    ensures Salvaged(fl, t, room) == EntryIn(v) + Salvaged(fl, rest, room - |EntryIn(v)|)
  {
    ValueHeadIs(fl, t);
    hide ParseValue, EntryOf;
  }

  lemma {:induction false} SalvageFails(fl: FloatReader, t: string, room: nat)
    requires ParseValue(fl, t).Fail? && SkipSep(t) == t
    ensures Salvaged(fl, t, room) == []
  {
    hide ParseValue, EntryOf;
  }

  /** A value cut before its end gives no entry. */
  lemma {:induction false} CutValue(fl: FloatReader, s: string, v: Json, r: string, n: nat, room: nat)
    requires ParseValue(fl, s) == Ok(v, r) && n < |s| - |r|
    ensures Salvaged(fl, s[..n], room) == []
  {
    hide ParseValue, EntryOf, Salvaged, SkipSep;
    ValueHeadIs(fl, s);
    var p, t := s[..n], s[n..];
    assert s == p + t;
    if n == 0 {
      SalvageNothing(fl, room);
    } else if StartsScalar(s) {
      ScalarToken(fl, s);
      ScalarBrackets(s, n);
      NoBrackets(fl, p, room);
    } else {
      assert p[0] == s[0];
      NoSepHead(p);
      StringOrContainer(fl, p);
      if ParseValue(fl, p).Ok? {
        var v', r' := ParseValue(fl, p).value, ParseValue(fl, p).rest;
        ParseStable(fl, p, v', r', t);
      }
      SalvageFails(fl, p, room);
    }
  }

  lemma {:induction false} NoSepHead(p: string)
    requires p != "" && !Sep(p[0])
    ensures SkipSep(p) == p
  {
  }

  lemma {:induction false} StringOrContainer(fl: FloatReader, p: string)
    requires p != "" && !StartsScalar(p)
    ensures ParseValue(fl, p).Ok? ==> Settled(ParseValue(fl, p).value, ParseValue(fl, p).rest)
  {
  }

  /** The loop on a cut list text finds exactly the objects that are complete before the cut. */
  lemma {:induction false} SalvageCut(fl: FloatReader, s: string, vs: seq<Json>, rest: string, n: nat, room: nat)
    requires ParseItems(fl, s) == Ok(vs, rest) && n <= |s|
    ensures Salvaged(fl, s[..n], room) == Take(Entries(Complete(fl, s, n)), room)
    decreases |s|
  {
    hide *;
    var v, r, x := ItemsCases(fl, s, vs, rest);
    Shorter(fl, s, vs, rest, v, r, x);
    if room == 0 {
      SalvageFull(fl, s[..n]);
      TakeNone(Entries(Complete(fl, s, n)));
    } else if |s| - |r| > n {
      CutValue(fl, s, v, r, n, room);
      CompleteNone(fl, s, v, r, n);
      TakeEmpty(room);
    } else {
      var p, t := s[..n], s[n..];
      assert s == p + t;
      ParseLocal(fl, p, t, v, r);
      var r' := ParseValue(fl, p).rest;
      SalvageFirst(fl, p, v, r', room);
      EntryInSize(v);
      AfterValue(fl, s, vs, rest, n, room - |EntryIn(v)|, v, r, x, r');
      CompleteCons(fl, s, v, r, x, n);
      TakeEntries(v, CompleteRest(fl, s, x, n), room);
    }
  }

  /** The values behind the first one that end within the first `n` characters. */
  function CompleteRest(fl: FloatReader, s: string, x: string, n: nat): seq<Json> {
    if x != "" && x[0] == ',' && |s| - |SkipWs(x[1..])| < n && |SkipWs(x[1..])| <= |s|
    then Complete(fl, SkipWs(x[1..]), n - (|s| - |SkipWs(x[1..])|)) else []
  }

  lemma {:induction false} CompleteNone(fl: FloatReader, s: string, v: Json, r: string, n: nat)
    requires ParseValue(fl, s) == Ok(v, r) && |s| - |r| > n
    ensures Complete(fl, s, n) == [] && Entries(Complete(fl, s, n)) == []
  {
    hide ParseValue;
  }

  lemma {:induction false} CompleteCons(fl: FloatReader, s: string, v: Json, r: string, x: string, n: nat)
    requires ParseValue(fl, s) == Ok(v, r) && |s| - |r| <= n && SkipWs(r) == x && x != "" && |x| <= |r| < |s|
    ensures Complete(fl, s, n) == [v] + CompleteRest(fl, s, x, n)
  {
    hide ParseValue;
  }

  lemma {:induction false} EntryInSize(v: Json)
    ensures |EntryIn(v)| <= 1
  {
  }

  lemma {:induction false} TakeNone(xs: seq<IndexEntry>)
    ensures Take(xs, 0) == []
  {
  }

  lemma {:induction false} TakeEmpty(room: nat)
    ensures Take([], room) == []
  {
  }

  lemma {:induction false} TakeEntries(v: Json, more: seq<Json>, room: nat)
    requires room > 0
    ensures Take(Entries([v] + more), room) == EntryIn(v) + Take(Entries(more), room - |EntryIn(v)|)
    ensures |EntryIn(v)| <= 1
  {
    hide EntryOf;
    assert ([v] + more)[1..] == more;
    if v.Obj? { TakeCons(EntryOf(v.fields), Entries(more), room); }
  }

  /** Behind a complete value: the separator, then the rest of the list or its end. */
  lemma {:induction false} AfterValue(fl: FloatReader, s: string, vs: seq<Json>, rest: string, n: nat, room: nat,
                                      v: Json, r: string, x: string, r': string)
    requires n <= |s| && |s| - |r| <= n && r' + s[n..] == r && SkipWs(r) == x && x != "" && |x| <= |r| < |s|
    requires x[0] == ']' ||
             (x[0] == ',' && vs != [] && ParseItems(fl, SkipWs(x[1..])) == Ok(vs[1..], rest) && |SkipWs(x[1..])| < |x|)
    ensures Salvaged(fl, r', room) == Take(Entries(CompleteRest(fl, s, x, n)), room)
    decreases |s|, 0
  {
    hide *;
    var w := WsRun(r);
    var m := |r'|;
    assert r' == r[..m] && m == n - (|s| - |r|);
    if x[0] == ']' {
      SkipRun(fl, w, x, m, room);
      BracketEnds(fl, x, if m > |w| then m - |w| else 0, room);
      NoRest(fl, s, x, n, room);
    } else {
      var y := SkipWs(x[1..]);
      var w' := WsRun(x[1..]);
      var sep := w + "," + w';
      assert x == "," + x[1..];
      assert r == sep + y;
      SepRun(w, w');
      SkipRun(fl, sep, y, m, room);
      if m > |sep| {
        SalvageCut(fl, y, vs[1..], rest, m - |sep|, room);
      } else {
        SalvageNothing(fl, room);
        assert y[..0] == "";
        TakeEmpty(room);
      }
      RestIs(fl, s, x, n);
    }
  }

  lemma {:induction false} SepRun(w: string, w': string)
    requires (forall i :: 0 <= i < |w| ==> Sep(w[i])) && (forall i :: 0 <= i < |w'| ==> Sep(w'[i]))
    ensures forall i :: 0 <= i < |w + "," + w'| ==> Sep((w + "," + w')[i])
  {
  }

  lemma {:induction false} BracketEnds(fl: FloatReader, x: string, n: nat, room: nat)
    requires x != "" && x[0] == ']' && n <= |x|
    ensures Salvaged(fl, x[..n], room) == []
  {
    hide ParseValue, EntryOf;
    if n > 0 { assert x[..n][0] == ']'; }
  }

  lemma {:induction false} NoRest(fl: FloatReader, s: string, x: string, n: nat, room: nat)
    requires x != "" && x[0] == ']'
    ensures Take(Entries(CompleteRest(fl, s, x, n)), room) == []
  {
  }

  lemma {:induction false} RestIs(fl: FloatReader, s: string, x: string, n: nat)
    requires x != "" && x[0] == ',' && |SkipWs(x[1..])| <= |s|
    ensures var y := SkipWs(x[1..]);
            CompleteRest(fl, s, x, n) == if |s| - |y| < n then Complete(fl, y, n - (|s| - |y|)) else []
    ensures Entries([]) == []
  {
    hide Complete;
  }

  // ----- A cut document -----

  lemma {:induction false} FindCut(text: string, pattern: string, from: nat, k: nat)
    requires from <= k <= |text| && pattern != ""
    ensures var i := Find(text, pattern, from);
            Find(text[..k], pattern, from) == if i != -1 && i + |pattern| <= k then i else -1
    decreases |text| - from
  {
    if from + |pattern| <= k {
      assert text[..k][from..from + |pattern|] == text[from..from + |pattern|];
      if text[from..from + |pattern|] != pattern { FindCut(text, pattern, from + 1, k); }
    }
  }

  lemma {:induction false} StartCut(text: string, k: nat)
    requires k <= |text|
    ensures ListStart(text[..k]) == if ListStart(text) != -1 && ListStart(text) <= k then ListStart(text) else -1
  {
    hide Find;
    assert |MARKER| == 9;
    FindCut(text, MARKER, 0, k);
    var m := Find(text, MARKER, 0);
    if m != -1 && m + 9 <= k {
      FindCut(text, "[", m, k);
    } else if m != -1 {
      MarkerHasNoBracket(text, m, k);
    }
  }

  /** The bracket found after the marker is behind all of it. */
  lemma {:induction false} MarkerHasNoBracket(text: string, m: nat, k: nat)
    requires Find(text, MARKER, 0) == m && m + 9 <= |text| && k < m + 9
    ensures var b := Find(text, "[", m); b == -1 || b + 1 > k
  {
    FindIs(text, MARKER, 0);
    var b := Find(text, "[", m);
    if b != -1 {
      FindIs(text, "[", m);
      assert text[b] == '[';
      assert forall i :: m <= i < m + 9 ==> text[i] == text[m..m + 9][i - m];
      assert forall i :: 0 <= i < 9 ==> MARKER[i] != '[';
      hide MARKER;
      assert b >= m + 9;
    }
  }

  lemma {:induction false} FindIs(text: string, pattern: string, from: nat)
    ensures var i := Find(text, pattern, from); i != -1 ==> text[i..i + |pattern|] == pattern
    decreases |text| - from
  {
    if from + |pattern| <= |text| && text[from..from + |pattern|] != pattern { FindIs(text, pattern, from + 1); }
  }

  /** The bracket behind the first marker opens a complete list of these values. */
  ghost predicate OpensList(fl: FloatReader, text: string, items: seq<Json>, rest: string) {
    ListStart(text) != -1 && ParseValue(fl, text[ListStart(text) - 1..]) == Ok(Arr(items), rest)
  }

  /** The values of that list that end within the first `k` characters of the text. */
  function CompleteBefore(fl: FloatReader, text: string, k: nat): seq<Json> {
    if ListStart(text) == -1 then []
    else
      var body := SkipWs(text[ListStart(text)..]);
      if body == "" || body[0] == ']' || k <= |text| - |body| then [] else Complete(fl, body, k - (|text| - |body|))
  }

  lemma {:induction false} ListBody(fl: FloatReader, text: string, items: seq<Json>, rest: string)
    requires OpensList(fl, text, items, rest)
    ensures var b := SkipWs(text[ListStart(text)..]);
            b != "" && (b[0] == ']' ==> items == []) && (b[0] != ']' ==> ParseItems(fl, b) == Ok(items, rest))
  {
    var s := text[ListStart(text) - 1..];
    StartIsBracket(text);
    assert s[0] == '[' && s[1..] == text[ListStart(text)..];
    hide ListStart, ParseItems, ParseMembers;
  }

  lemma {:induction false} StartIsBracket(text: string)
    requires ListStart(text) != -1
    ensures text[ListStart(text) - 1] == '['
  {
    FindIs(text, "[", Find(text, MARKER, 0));
    hide Find;
  }

  /** From any truncation of an index, salvage recovers exactly the entries that are complete before the
      cut, up to the cap. */
  lemma {:induction false} SalvageExact(fl: FloatReader, text: string, items: seq<Json>, rest: string, k: nat)
    requires OpensList(fl, text, items, rest) && k <= |text|
    ensures SalvagePartial(fl, text[..k]) == Take(Entries(CompleteBefore(fl, text, k)), MAX_INDEX_ENTRIES)
  {
    hide *;
    StartCut(text, k);
    ListBody(fl, text, items, rest);
    var t := text[..k];
    var b := ListStart(text);
    SalvageFrom(fl, t);
    if ListStart(t) == -1 {
      NothingBefore(fl, text, k);
    } else {
      var u := text[b..];
      var body := SkipWs(u);
      var w := WsRun(u);
      assert t[b..] == (w + body)[..k - b];
      SkipRun(fl, w, body, k - b, MAX_INDEX_ENTRIES);
      var n := if k - b > |w| then k - b - |w| else 0;
      BodyCut(fl, text, items, rest, k, body, n);
    }
  }

  lemma {:induction false} SalvageFrom(fl: FloatReader, t: string)
    ensures SalvagePartial(fl, t) ==
            if ListStart(t) == -1 then [] else Salvaged(fl, t[ListStart(t)..], MAX_INDEX_ENTRIES)
  {
    hide ListStart, Salvaged;
  }

  lemma {:induction false} NothingBefore(fl: FloatReader, text: string, k: nat)
    requires ListStart(text) == -1 || k < ListStart(text)
    ensures Take(Entries(CompleteBefore(fl, text, k)), MAX_INDEX_ENTRIES) == []
  {
    hide ListStart, Complete, SkipWs;
  }

  lemma {:induction false} BodyCut(fl: FloatReader, text: string, items: seq<Json>, rest: string, k: nat,
                                   body: string, n: nat)
    requires ListStart(text) != -1 && body == SkipWs(text[ListStart(text)..]) && body != "" && k <= |text|
    requires n == (if k > |text| - |body| then k - (|text| - |body|) else 0)
    requires body[0] != ']' ==> ParseItems(fl, body) == Ok(items, rest)
    ensures Salvaged(fl, body[..n], MAX_INDEX_ENTRIES) == Take(Entries(CompleteBefore(fl, text, k)), MAX_INDEX_ENTRIES)
  {
    hide ListStart, ParseItems, Salvaged, SkipWs, Complete;
    if body[0] == ']' {
      BracketEnds(fl, body, n, MAX_INDEX_ENTRIES);
    } else if n == 0 {
      SalvageNothing(fl, MAX_INDEX_ENTRIES);
      assert body[..0] == "";
    } else {
      SalvageCut(fl, body, items, rest, n, MAX_INDEX_ENTRIES);
    }
  }

  lemma {:induction false} EntriesPrefix(xs: seq<Json>, ys: seq<Json>)
    requires xs <= ys
    ensures Entries(xs) <= Entries(ys)
    decreases |xs|
  {
    hide EntryIn;
    if xs != [] { EntriesPrefix(xs[1..], ys[1..]); }
  }

  /** So it is a prefix of what the whole document lists, and on the whole document all of it up to the cap. */
  lemma {:induction false} SalvageIsPrefix(fl: FloatReader, text: string, items: seq<Json>, rest: string, k: nat)
    requires OpensList(fl, text, items, rest) && k <= |text|
    ensures SalvagePartial(fl, text[..k]) <= Entries(items)
    ensures SalvagePartial(fl, text) == Take(Entries(items), MAX_INDEX_ENTRIES)
  {
    hide *;
    SalvageExact(fl, text, items, rest, k);
    SalvageExact(fl, text, items, rest, |text|);
    assert text[..|text|] == text;
    CompleteOfList(fl, text, items, rest, k);
    CompleteOfList(fl, text, items, rest, |text|);
    EntriesPrefix(CompleteBefore(fl, text, k), items);
    TakePrefix(Entries(CompleteBefore(fl, text, k)), MAX_INDEX_ENTRIES);
  }

  lemma {:induction false} TakePrefix(xs: seq<IndexEntry>, room: nat)
    ensures Take(xs, room) <= xs
  {
  }

  lemma {:induction false} CompleteOfList(fl: FloatReader, text: string, items: seq<Json>, rest: string, k: nat)
    requires OpensList(fl, text, items, rest)
    ensures CompleteBefore(fl, text, k) <= items
    ensures k == |text| ==> CompleteBefore(fl, text, k) == items
  {
    hide *;
    OpensSomewhere(fl, text, items, rest);
    ListBody(fl, text, items, rest);
    var body := SkipWs(text[ListStart(text)..]);
    if body[0] != ']' && k > |text| - |body| { CompleteIsPrefix(fl, body, items, rest, k - (|text| - |body|)); }
    CompleteBeforeIs(fl, text, k, body);
  }

  lemma {:induction false} OpensSomewhere(fl: FloatReader, text: string, items: seq<Json>, rest: string)
    requires OpensList(fl, text, items, rest)
    ensures ListStart(text) != -1
  {
  }

  lemma {:induction false} CompleteBeforeIs(fl: FloatReader, text: string, k: nat, body: string)
    requires ListStart(text) != -1 && body == SkipWs(text[ListStart(text)..]) && body != ""
    ensures CompleteBefore(fl, text, k) ==
            if body[0] == ']' || k <= |text| - |body| then [] else Complete(fl, body, k - (|text| - |body|))
  {
    hide ListStart, SkipWs, Complete;
  }
}
