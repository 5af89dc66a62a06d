/** Salvage and the document it salvages: when the list it reads is the list the decoder would have given. */
module IndexDocument {
  import opened Options
  import opened PyText
  import opened JsonValues
  import opened JsonGrammar
  import opened JsonParser
  import opened JsonRoundTrip
  import opened JsonLocality
  import opened IndexSalvage

  // ----- The top-level members of a document -----

  /** The text from the last member named `k` on, among the members `s` starts with. */
  function LastNamed(fl: FloatReader, s: string, k: PyStr): (at: Option<string>)
    ensures at.Some? ==> ParseName(at.value).Ok?
    decreases |s|
  {
    if ParseName(s).Fail? || ParseValue(fl, ParseName(s).rest).Fail? then None
    else
      var r := SkipWs(ParseValue(fl, ParseName(s).rest).rest);
      var later := if r != "" && r[0] == ',' then LastNamed(fl, SkipWs(r[1..]), k) else None;
      if later.Some? then later else if ParseName(s).value == k then Some(s) else None
  }

  /** The text from the last top-level member named `entries` on. */
  function LastEntries(fl: FloatReader, text: string): (at: Option<string>)
    ensures at.Some? ==> ParseName(at.value).Ok?
  {
    var s := SkipWs(text);
    if s == "" || s[0] != '{' then None else LastNamed(fl, SkipWs(s[1..]), ENTRIES)
  }

  predicate IsSuffix(a: string, s: string) {
    |a| <= |s| && s[|s| - |a|..] == a
  }

  lemma {:induction false} SuffixOf(a: string, b: string, c: string)
    requires IsSuffix(a, b) && IsSuffix(b, c)
    ensures IsSuffix(a, c)
  {
    assert c[|c| - |a|..] == c[|c| - |b|..][|b| - |a|..];
  }

  lemma {:induction false} TailIsSuffix(s: string, n: nat)
    requires n <= |s|
    ensures IsSuffix(s[n..], s)
  {
  }

  lemma {:induction false} WsSuffix(s: string)
    ensures IsSuffix(SkipWs(s), s)
  {
    var w := WsRun(s);
  }

  lemma {:induction false} NameSuffix(s: string)
    requires ParseName(s).Ok?
    ensures IsSuffix(ParseName(s).rest, s)
  {
    var rest := ParseName(s).rest;
    var n := |s| - |rest|;
    assert s == s[..n] + s[n..];
    NameLocal(s[..n], s[n..]);
    hide ParseName;
  }

  lemma {:induction false} ValueSuffix(fl: FloatReader, s: string)
    requires ParseValue(fl, s).Ok?
    ensures IsSuffix(ParseValue(fl, s).rest, s)
  {
    hide ParseValue;
    ParseSuffix(fl, s);
  }

  lemma {:induction false} NextMember(fl: FloatReader, s: string, n: string, r: string, x: string)
    requires ParseName(s).Ok? && ParseName(s).rest == n && ParseValue(fl, n).Ok? && ParseValue(fl, n).rest == r
    requires x == SkipWs(r) && x != ""
    ensures IsSuffix(SkipWs(x[1..]), s)
  {
    hide *;
    NameSuffix(s);
    ValueSuffix(fl, n);
    WsSuffix(r);
    TailIsSuffix(x, 1);
    WsSuffix(x[1..]);
    SuffixOf(r, n, s);
    SuffixOf(x, r, s);
    SuffixOf(x[1..], x, s);
    SuffixOf(SkipWs(x[1..]), x[1..], s);
  }

  /** The last member of a name gives the field of that name; without one the field is what it was. */
  ghost predicate FieldIs(fl: FloatReader, at: Option<string>, k: PyStr, acc: map<PyStr, Json>,
                          fields: map<PyStr, Json>) {
    match at
    case None => if k in acc then k in fields && fields[k] == acc[k] else k !in fields
    case Some(m) =>
      && ParseName(m).Ok? && ParseName(m).value == k && ParseValue(fl, ParseName(m).rest).Ok?
      && k in fields && fields[k] == ParseValue(fl, ParseName(m).rest).value
  }

  lemma {:induction false} LastNamedStep(fl: FloatReader, s: string, key: PyStr, k: PyStr, n: string, v: Json,
                                         r: string, x: string)
    requires ParseName(s) == Ok(k, n) && ParseValue(fl, n) == Ok(v, r) && SkipWs(r) == x && x != ""
    ensures var later := if x[0] == ',' then LastNamed(fl, SkipWs(x[1..]), key) else None;
            LastNamed(fl, s, key) == if later.Some? then later else if k == key then Some(s) else None
  {
    hide ParseName, ParseValue;
  }

  lemma {:induction false} LastNamedIs(fl: FloatReader, s: string, key: PyStr, acc: map<PyStr, Json>,
                                       fields: map<PyStr, Json>, rest: string)
    requires ParseMembers(fl, s, acc) == Ok(fields, rest)
    ensures FieldIs(fl, LastNamed(fl, s, key), key, acc, fields)
    ensures LastNamed(fl, s, key).Some? ==> IsSuffix(LastNamed(fl, s, key).value, s)
    decreases |s|
  {
    hide ParseName, ParseValue, ParseMembers, SkipWs, LastNamed, IsSuffix;
    var k, n, v, r, x := MembersCases(fl, s, acc, fields, rest);
    LastNamedStep(fl, s, key, k, n, v, r, x);
    SelfSuffix(s);
    if x[0] == ',' {
      var y := SkipWs(x[1..]);
      LastNamedIs(fl, y, key, acc[k := v], fields, rest);
      NextMember(fl, s, n, r, x);
      if LastNamed(fl, y, key).Some? { SuffixOf(LastNamed(fl, y, key).value, y, s); }
    }
  }

  lemma {:induction false} SelfSuffix(s: string)
    ensures IsSuffix(s, s)
  {
  }

  /** A container starts with its bracket. */
  lemma {:induction false} ContainerHead(fl: FloatReader, s: string)
    requires ParseValue(fl, s).Ok?
    ensures s != "" && (ParseValue(fl, s).value.Arr? <==> s[0] == '[') &&
              (ParseValue(fl, s).value.Obj? <==> s[0] == '{')
  {
    hide ParseItems, ParseMembers, ParseString, Longest;
  }

  lemma {:induction false} ObjectOrNone(fl: FloatReader, text: string, doc: Json)
    requires Loads(fl, text) == Some(doc)
    ensures doc.Obj? <==> SkipWs(text) != "" && SkipWs(text)[0] == '{'
  {
    hide ParseValue, SkipWs;
    ContainerHead(fl, SkipWs(text));
  }

  /** What a loaded document holds under `entries`, and where. */
  lemma {:induction false} EntriesField(fl: FloatReader, text: string, doc: Json)
    requires Loads(fl, text) == Some(doc) && doc.Obj?
    ensures FieldIs(fl, LastEntries(fl, text), ENTRIES, map[], doc.fields)
    ensures LastEntries(fl, text).Some? ==> IsSuffix(LastEntries(fl, text).value, text)
  {
    hide ParseMembers, ParseItems, LastNamed, IsSuffix, ParseName, ParseNumber, FieldIs, Name, ParseString;
    ObjectOrNone(fl, text, doc);
    var s := SkipWs(text);
    var r := SkipWs(s[1..]);
    if r != "" && r[0] == '}' {
      EmptyObject(fl, r, doc.fields);
    } else {
      var fields, rest := doc.fields, ParseMembers(fl, r, map[]).rest;
      hide ParseValue;
      LastNamedIs(fl, r, ENTRIES, map[], fields, rest);
      WsSuffix(text);
      TailIsSuffix(s, 1);
      WsSuffix(s[1..]);
      hide SkipWs;
      SuffixOf(s[1..], s, text);
      SuffixOf(r, s[1..], text);
      if LastNamed(fl, r, ENTRIES).Some? { SuffixOf(LastNamed(fl, r, ENTRIES).value, r, text); }
    }
  }

  lemma {:induction false} EmptyObject(fl: FloatReader, r: string, fields: map<PyStr, Json>)
    requires r != "" && r[0] == '}' && fields == map[]
    ensures LastNamed(fl, r, ENTRIES) == None && FieldIs(fl, None, ENTRIES, map[], fields)
  {
  }

  // ----- The list that salvage reads -----

  /** The text from the value of the last top-level `entries` on. */
  function EntriesValue(fl: FloatReader, text: string): Option<string> {
    match LastEntries(fl, text)
    case Some(at) => Some(ParseName(at).rest)
    case None => None
  }

  /** The bracket behind the first marker opens that value. */
  predicate FindsList(fl: FloatReader, text: string) {
    ListStart(text) != -1 && EntriesValue(fl, text) == Some(text[ListStart(text) - 1..])
  }

  lemma {:induction false} ValueAt(fl: FloatReader, text: string, doc: Json)
    requires Loads(fl, text) == Some(doc) && doc.Obj?
    ensures EntriesValue(fl, text).Some? <==> ENTRIES in doc.fields
    ensures EntriesValue(fl, text).Some? ==>
              && IsSuffix(EntriesValue(fl, text).value, text) && ParseValue(fl, EntriesValue(fl, text).value).Ok?
              && ParseValue(fl, EntriesValue(fl, text).value).value == doc.fields[ENTRIES]
  {
    hide LastEntries, ParseName, ParseValue, IsSuffix, Loads, Name;
    EntriesField(fl, text, doc);
    if LastEntries(fl, text).Some? {
      var at := LastEntries(fl, text).value;
      NameSuffix(at);
      SuffixOf(ParseName(at).rest, at, text);
    }
  }

  /** Then that list is the document's. */
  lemma {:induction false} FoundIsListed(fl: FloatReader, text: string, doc: Json) returns (rest: string)
    requires Loads(fl, text) == Some(doc) && FindsList(fl, text)
    ensures Lists(doc) && OpensList(fl, text, doc.fields[ENTRIES].items, rest)
  {
    hide LastNamed, ParseName, ParseValue, Loads, ListStart, IsSuffix, Name, SkipWs;
    ObjectOrNone(fl, text, doc);
    ValueAt(fl, text, doc);
    var s := text[ListStart(text) - 1..];
    StartIsBracket(text);
    ContainerHead(fl, s);
    rest := ParseValue(fl, s).rest;
  }

  /** From any truncation of such a document salvage recovers a prefix of what `_extract_entries` returns for the
      whole, and from the whole document all of it up to the cap. */
  lemma {:induction false} SalvageOfDocument(fl: FloatReader, text: string, doc: Json, k: nat)
    requires Loads(fl, text) == Some(doc) && FindsList(fl, text) && k <= |text|
    ensures Lists(doc)
    ensures SalvagePartial(fl, text[..k]) <= Listed(doc)
    ensures SalvagePartial(fl, text) == Take(Listed(doc), MAX_INDEX_ENTRIES)
  {
    hide Loads, FindsList, OpensList, SalvagePartial, Entries, Take, Name;
    var rest := FoundIsListed(fl, text, doc);
    SalvageIsPrefix(fl, text, doc.fields[ENTRIES].items, rest, k);
  }

  // ----- When salvage finds the document's list -----

  /** `text.find` gives the first occurrence. */
  lemma {:induction false} FindFirst(text: string, pattern: string, from: nat, j: nat)
    requires from <= j && j + |pattern| <= |text| && text[j..j + |pattern|] == pattern
    ensures 0 <= Find(text, pattern, from) <= j
    decreases |text| - from
  {
    if text[from..from + |pattern|] != pattern { FindFirst(text, pattern, from + 1, j); }
  }

  lemma {:induction false} FindBracket(text: string, from: nat)
    ensures var b := Find(text, "[", from);
            b != -1 ==> text[b] == '[' && forall i :: from <= i < b ==> text[i] != '['
    decreases |text| - from
  {
    if from < |text| {
      assert text[from..from + 1] == [text[from]];
      if text[from] != '[' { FindBracket(text, from + 1); }
    }
  }

  /** It does so exactly when the first marker lies before the document's list and no other bracket in between. */
  lemma {:induction false} FindsIff(fl: FloatReader, text: string, doc: Json)
    requires Loads(fl, text) == Some(doc) && Lists(doc)
    ensures EntriesValue(fl, text).Some? && |EntriesValue(fl, text).value| <= |text|
    ensures var m := Find(text, MARKER, 0);
            var q := |text| - |EntriesValue(fl, text).value|;
            FindsList(fl, text) <==> 0 <= m < q && forall i :: m <= i < q ==> text[i] != '['
  {
    hide EntriesValue, ParseValue, Loads, Name, Find, MARKER;
    ValueAt(fl, text, doc);
    var value := EntriesValue(fl, text).value;
    ContainerHead(fl, value);
    var m, q := Find(text, MARKER, 0), |text| - |value|;
    assert text[q..] == value && text[q] == '[';
    if m != -1 {
      BracketFrom(text, m, q);
      MarkerNotBracket(text);
    }
    hide IsSuffix;
    if ListStart(text) == q + 1 { assert text[ListStart(text) - 1..] == value; }
  }

  /** The bracket at `q` is the first one from `m` on exactly when none lies between them. */
  lemma {:induction false} BracketFrom(text: string, m: nat, q: nat)
    requires m <= |text| && q < |text| && text[q] == '['
    ensures Find(text, "[", m) == q <==> m <= q && forall i :: m <= i < q ==> text[i] != '['
  {
    FindBracket(text, m);
    if m <= q { FindFirst(text, "[", m, q); }
    hide Find;
  }

  lemma {:induction false} MarkerNotBracket(text: string)
    requires Find(text, MARKER, 0) != -1
    ensures text[Find(text, MARKER, 0)] == '"'
  {
    FindIs(text, MARKER, 0);
    var m := Find(text, MARKER, 0);
    assert text[m] == text[m..m + |MARKER|][0];
    hide Find;
  }

  // ----- The marker as a name -----

  lemma {:induction false} MarkerName(u: string)
    ensures var r := SkipWs(u);
            ParseName(MARKER + u) == if r == "" || r[0] != ':' then Fail else Ok(ENTRIES, SkipWs(r[1..]))
  {
    assert MARKER + u == "\"" + "entries" + ("\"" + u);
    PlainName("entries", u);
    hide ParseName;
  }

  lemma {:induction false} NoBracketInName(u: string, value: string)
    requires ParseName(MARKER + u) == Ok(ENTRIES, value)
    ensures var s := MARKER + u;
            |value| < |s| && forall i :: 0 <= i < |s| - |value| ==> s[i] != '['
  {
    MarkerName(u);
    hide ParseName, SkipWs;
    var r := SkipWs(u);
    var w := WsRun(u);
    var w' := WsRun(r[1..]);
    assert MARKER + u == MARKER + w + ":" + w' + value;
    assert forall i :: 0 <= i < |MARKER| ==> MARKER[i] != '[';
    hide MARKER;
  }

  /** In particular it does when the first marker is the name of the document's last, or only, top-level member
      called `entries`. */
  lemma {:induction false} MarkerIsName(fl: FloatReader, text: string, doc: Json)
    requires Loads(fl, text) == Some(doc) && Lists(doc)
    requires var m := Find(text, MARKER, 0); m != -1 && LastEntries(fl, text) == Some(text[m..])
    ensures FindsList(fl, text)
  {
    hide LastEntries, Find, ParseValue, Loads, MARKER, ENTRIES;
    var m := Find(text, MARKER, 0);
    FindIs(text, MARKER, 0);
    ObjectFields(fl, text, doc);
    var s := text[m..];
    var u := text[m + |MARKER|..];
    assert s == MARKER + u by { assert text[m..m + |MARKER|] == MARKER; }
    var value := ParseName(s).rest;
    hide ParseName;
    NoBracketInName(u, value);
    FindsIff(fl, text, doc);
    assert EntriesValue(fl, text) == Some(value);
    forall i | m <= i < |text| - |value| ensures text[i] != '[' {
      assert text[i] == s[i - m];
    }
  }

  lemma {:induction false} ObjectFields(fl: FloatReader, text: string, doc: Json)
    requires Loads(fl, text) == Some(doc) && doc.Obj?
    ensures LastEntries(fl, text).Some? ==> ParseName(LastEntries(fl, text).value).value == ENTRIES
  {
    hide LastEntries, Loads, ParseValue, ParseName, ENTRIES;
    EntriesField(fl, text, doc);
  }

  // ----- A document whose list it does not find -----

  /** `{"entries":[{}]}` */
  function Inner(): string {
    "{" + (MARKER + ":" + "[{}]" + "}")
  }

  /** `"entries":[]}` */
  function SecondMember(): string {
    MARKER + ":" + "[]" + ("}" + "")
  }

  function Behind(): string {
    ":" + (Inner() + ("," + SecondMember()))
  }

  /** `{"a":{"entries":[{}]},"entries":[]}` */
  function Nested(): string {
    "{" + ("\"" + "a" + ("\"" + Behind()))
  }

  function NestedDocument(): Json {
    Obj(map[Name("a") := Obj(map[ENTRIES := Arr([Obj(map[])])]), ENTRIES := Arr([])])
  }

  lemma {:induction false} EmptyIn(fl: FloatReader, t: string)
    ensures ParseValue(fl, "{}" + t) == Ok(Obj(map[]), t) && ParseValue(fl, "[]" + t) == Ok(Arr([]), t)
  {
    EmptyObjectFrom(fl, "{}" + t, "}" + t, t);
    var s := "[]" + t;
    assert s[1..] == "]" + t && ("]" + t)[1..] == t;
  }

  lemma {:induction false} OneEmptyObject(fl: FloatReader, t: string)
    ensures ParseValue(fl, "[{}]" + t) == Ok(Arr([Obj(map[])]), t)
  {
    hide ParseValue, ParseItems, ParseMembers;
    EmptyIn(fl, "]" + t);
    assert "{}]" + t == "{}" + ("]" + t);
    assert SkipWs("]" + t) == "]" + t && ("]" + t)[1..] == t;
    ItemsFrom(fl, "{}]" + t, Obj(map[]), "]" + t, "]" + t);
    assert ("[{}]" + t)[1..] == "{}]" + t && SkipWs("{}]" + t) == "{}]" + t;
    ArrayFrom(fl, "[{}]" + t, "{}]" + t, [Obj(map[])], t);
  }

  /** A member called `entries` in front of `t`. */
  lemma {:induction false} EntriesMember(fl: FloatReader, acc: map<PyStr, Json>, value: string, v: Json, t: string)
    requires value != "" && !IsWs(value[0]) && ParseValue(fl, value + ("}" + t)) == Ok(v, "}" + t)
    ensures ParseMembers(fl, MARKER + ":" + value + ("}" + t), acc) == Ok(acc[ENTRIES := v], t)
  {
    hide ParseValue, ParseMembers, ParseName, ENTRIES;
    var u := ":" + (value + ("}" + t));
    MarkerName(u);
    hide MARKER;
    assert SkipWs(u) == u && u[1..] == value + ("}" + t) && SkipWs(u[1..]) == u[1..];
    assert MARKER + u == MARKER + ":" + value + ("}" + t);
    assert SkipWs("}" + t) == "}" + t && ("}" + t)[1..] == t;
    MembersFrom(fl, MARKER + u, acc, ENTRIES, u[1..], v, "}" + t, "}" + t);
  }

  lemma {:induction false} InnerParses(fl: FloatReader, t: string)
    ensures ParseValue(fl, Inner() + t) == Ok(Obj(map[ENTRIES := Arr([Obj(map[])])]), t)
  {
    hide ParseValue, ParseMembers, ENTRIES;
    assert MARKER[0] == '"';
    hide MARKER;
    OneEmptyObject(fl, "}" + t);
    EntriesMember(fl, map[], "[{}]", Arr([Obj(map[])]), t);
    var r := MARKER + ":" + "[{}]" + ("}" + t);
    assert Inner() + t == "{" + r;
    assert (Inner() + t)[1..] == r;
    assert SkipWs(r) == r;
    ObjectFrom(fl, Inner() + t, r, map[ENTRIES := Arr([Obj(map[])])], t);
  }

  lemma {:induction false} SecondParses(fl: FloatReader, acc: map<PyStr, Json>)
    ensures ParseMembers(fl, SecondMember(), acc) == Ok(acc[ENTRIES := Arr([])], "")
    ensures SkipWs(SecondMember()) == SecondMember()
  {
    hide ParseValue, ParseMembers, ENTRIES;
    assert MARKER[0] == '"';
    hide MARKER;
    EmptyIn(fl, "}" + "");
    EntriesMember(fl, acc, "[]", Arr([]), "");
  }

  lemma {:induction false} FirstParses(fl: FloatReader)
    ensures var inner := Obj(map[ENTRIES := Arr([Obj(map[])])]);
            && ParseName("\"" + "a" + ("\"" + Behind())) == Ok(Name("a"), Inner() + ("," + SecondMember()))
            && ParseValue(fl, Inner() + ("," + SecondMember())) == Ok(inner, "," + SecondMember())
  {
    hide ParseValue, ParseName, ENTRIES, SecondMember, MARKER;
    InnerParses(fl, "," + SecondMember());
    var u := Behind();
    PlainName("a", u);
    assert u[1..] == Inner() + ("," + SecondMember());
    assert SkipWs(u) == u && SkipWs(u[1..]) == u[1..];
  }

  lemma {:induction false} NestedLoads(fl: FloatReader)
    ensures Loads(fl, Nested()) == Some(NestedDocument())
  {
    var inner := Obj(map[ENTRIES := Arr([Obj(map[])])]);
    var more := SecondMember();
    var s := "\"" + "a" + ("\"" + Behind());
    hide ParseValue, ParseMembers, ParseName, ENTRIES, SecondMember, Behind, Inner, MARKER, Name;
    FirstParses(fl);
    SecondParses(fl, map[Name("a") := inner]);
    assert SkipWs("," + more) == "," + more && ("," + more)[1..] == more;
    MembersFrom(fl, s, map[], Name("a"), Inner() + ("," + more), inner, "," + more, "," + more);
    assert Nested()[1..] == s && SkipWs(s) == s && SkipWs(Nested()) == Nested();
    ObjectFrom(fl, Nested(), s, map[Name("a") := inner][ENTRIES := Arr([])], "");
    assert map[Name("a") := inner][ENTRIES := Arr([])] == NestedDocument().fields;
  }

  lemma {:induction false} FirstBracket(pre: string, mid: string, rest: string)
    requires '[' !in pre && '[' !in mid
    ensures var text := pre + MARKER + mid + "[" + rest;
            ListStart(text) == |pre + MARKER + mid| + 1 && text[ListStart(text)..] == rest
  {
    var text, q := pre + MARKER + mid + "[" + rest, |pre + MARKER + mid|;
    assert text[|pre|..|pre| + |MARKER|] == MARKER;
    assert '[' !in MARKER;
    hide MARKER;
    FindFirst(text, MARKER, 0, |pre|);
    var m := Find(text, MARKER, 0);
    assert text[q] == '[';
    BracketFrom(text, m, q);
    hide Find;
    forall i | m <= i < q ensures text[i] != '[' {
      assert text[i] == (pre + MARKER + mid)[i];
    }
  }

  function Tail(): string {
    "]" + ("}" + ("," + SecondMember()))
  }

  lemma {:induction false} NestedStart()
    ensures ListStart(Nested()) != -1 && Nested()[ListStart(Nested())..] == "{}" + Tail()
  {
    hide ListStart, MARKER;
    var pre := "{" + "\"" + "a" + "\"" + ":" + "{";
    FirstBracket(pre, ":", "{}" + Tail());
    var x := SecondMember();
    hide SecondMember;
    assert Nested() == pre + MARKER + ":" + "[" + ("{}" + Tail());
  }

  lemma {:induction false} OneSalvaged(fl: FloatReader, t: string, room: nat)
    requires room > 1 && t != "" && t[0] == ']'
    ensures Salvaged(fl, "{}" + t, room) == [EntryOf(map[])]
  {
    hide ParseValue, EntryOf, Salvaged;
    EmptyIn(fl, t);
    assert SkipSep("{}" + t) == "{}" + t && SkipSep(t) == t;
    SalvageStep(fl, "{}" + t, room);
    SalvageStep(fl, t, room - 1);
  }

  /** A nested `entries` in front: salvage reports an entry that the document does not list. */
  lemma {:induction false} NestedFirst(fl: FloatReader)
    ensures Loads(fl, Nested()) == Some(NestedDocument()) && Lists(NestedDocument()) && Listed(NestedDocument()) == []
    ensures SalvagePartial(fl, Nested()) == [EntryOf(map[])]
  {
    NestedLoads(fl);
    NestedStart();
    hide ParseValue, Loads, ListStart, Nested, SecondMember, Name, EntryOf, Salvaged;
    OneSalvaged(fl, Tail(), MAX_INDEX_ENTRIES);
  }
}
