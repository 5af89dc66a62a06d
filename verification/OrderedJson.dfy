/** Python's dictionaries remember the order they were filled in; the canonical text does not. */
module OrderedJson {
  import opened PyText
  import opened JsonValues
  import opened JsonPrinter

  /** A value as Python holds it: the members of a dictionary in insertion order. */
  datatype Ordered =
    | Leaf(scalar: Json)
    | List(items: seq<Ordered>)
    | Dict(members: seq<Member>)

  datatype Member = Member(key: PyStr, value: Ordered)

  function KeysIn(members: seq<Member>): (keys: seq<PyStr>)
    ensures |keys| == |members| && forall i :: 0 <= i < |keys| ==> keys[i] == members[i].key
  {
    seq(|members|, i requires 0 <= i < |members| => members[i].key)
  }

  function IndexOf(members: seq<Member>, k: PyStr): (i: nat)
    ensures i <= |members| && (i < |members| ==> members[i].key == k) && (i == |members| ==> k !in KeysIn(members))
  {
    if members == [] || members[0].key == k then 0 else 1 + IndexOf(members[1..], k)
  }

  /** The member of that name. */
  function Under(o: Ordered, k: PyStr): (v: Ordered)
    requires o.Dict? && k in KeysIn(o.members)
    ensures v < o && Member(k, v) in o.members
  {
    o.members[IndexOf(o.members, k)].value
  }

  /** Keys are told apart, as in any dictionary, and containers are not leaves. */
  predicate WellFormed(o: Ordered) {
    match o
    case Leaf(v) => !v.Arr? && !v.Obj?
    case List(items) => forall i :: 0 <= i < |items| ==> WellFormed(items[i])
    case Dict(members) =>
      Distinct(KeysIn(members)) && forall i :: 0 <= i < |members| ==> WellFormed(members[i].value)
  }

  /** The value without the orders. */
  function ValueOf(o: Ordered): Json {
    match o
    case Leaf(v) => v
    case List(items) => Arr(seq(|items|, i requires 0 <= i < |items| => ValueOf(items[i])))
    case Dict(members) => Obj(map k | k in KeysIn(members) :: ValueOf(Under(o, k)))
  }

  /** `json.dumps(..., sort_keys=True)`: every dictionary's own list of keys is sorted where it is met. */
  function Dump(o: Ordered): string
    requires WellFormed(o) && Encodable(ValueOf(o))
    decreases o, 1, 0
  {
    match o
    case Leaf(v) => Print(v)
    case List(items) => "[" + DumpItems(o, 0)
    case Dict(members) => SortKeysIs(KeysIn(members)); "{" + DumpMembers(o, SortKeys(KeysIn(members)))
  }

  function DumpItems(o: Ordered, n: nat): string
    requires o.List? && WellFormed(o) && Encodable(ValueOf(o)) && n <= |o.items|
    decreases o, 0, |o.items| - n
  {
    if n == |o.items| then "]"
    else
      assert ValueOf(o).items[n] == ValueOf(o.items[n]);
      Dump(o.items[n]) + (if n + 1 == |o.items| then "]" else "," + DumpItems(o, n + 1))
  }

  function DumpMembers(o: Ordered, keys: seq<PyStr>): string
    requires o.Dict? && WellFormed(o) && Encodable(ValueOf(o)) && forall k :: k in keys ==> k in KeysIn(o.members)
    decreases o, 0, |keys|
  {
    if keys == [] then "}"
    else
      UnderIs(o, keys[0]);
      StringText(keys[0]) + (":" + (Dump(Under(o, keys[0])) +
        (if |keys| == 1 then "}" else "," + DumpMembers(o, keys[1..]))))
  }

  lemma {:induction false} UnderIs(o: Ordered, k: PyStr)
    requires o.Dict? && WellFormed(o) && k in KeysIn(o.members)
    ensures WellFormed(Under(o, k)) && k in ValueOf(o).fields && ValueOf(o).fields[k] == ValueOf(Under(o, k))
    ensures Encodable(ValueOf(o)) ==> Clean(k) && Encodable(ValueOf(Under(o, k)))
  {
    var i :| 0 <= i < |o.members| && o.members[i] == Member(k, Under(o, k));
  }

  /** The text depends on the value alone, whatever the orders in it, at every depth. */
  lemma {:induction false} InsertionOrderIrrelevant(o: Ordered)
    requires WellFormed(o) && Encodable(ValueOf(o))
    ensures Dump(o) == Print(ValueOf(o))
    decreases o, 1, 0
  {
    match o
    case Leaf(v) =>
    case List(items) =>
      ItemsSame(o, 0);
      assert ValueOf(o).items[0..] == ValueOf(o).items;
    case Dict(members) =>
      var v, keys := ValueOf(o), SortKeys(KeysIn(members));
      SortKeysIs(KeysIn(members));
      SortedUnique(keys, v.fields.Keys);
      MembersSame(o, keys);
  }

  lemma {:induction false} ItemsSame(o: Ordered, n: nat)
    requires o.List? && WellFormed(o) && Encodable(ValueOf(o)) && n <= |o.items|
    ensures DumpItems(o, n) == ItemsText(ValueOf(o).items[n..])
    decreases o, 0, |o.items| - n
  {
    var vs := ValueOf(o).items;
    if n < |o.items| {
      assert vs[n] == ValueOf(o.items[n]);
      InsertionOrderIrrelevant(o.items[n]);
      ItemsSame(o, n + 1);
      assert vs[n..][0] == vs[n] && vs[n..][1..] == vs[n + 1..];
    }
  }

  lemma {:induction false} MembersSame(o: Ordered, keys: seq<PyStr>)
    requires o.Dict? && WellFormed(o) && Encodable(ValueOf(o)) && forall k :: k in keys ==> k in KeysIn(o.members)
    ensures DumpMembers(o, keys) == FieldsText(ValueOf(o), keys)
    decreases o, 0, |keys|
  {
    if keys != [] {
      UnderIs(o, keys[0]);
      InsertionOrderIrrelevant(Under(o, keys[0]));
      MembersSame(o, keys[1..]);
    }
  }
}
