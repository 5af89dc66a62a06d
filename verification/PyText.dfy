/** Decoded strings: sequences of code points, in which an escape may have left a lone surrogate. */
module PyText {
  type CodePoint = c: int | 0 <= c < 0x11_0000
  type PyStr = seq<CodePoint>

  predicate Surrogate(c: CodePoint) {
    0xD800 <= c <= 0xDFFF
  }

  /** No surrogates: the string has a UTF-8 encoding. */
  predicate Clean(s: PyStr) {
    forall i :: 0 <= i < |s| ==> !Surrogate(s[i])
  }

  function Name(s: string): (p: PyStr)
    ensures |p| == |s| && Clean(p)
    ensures forall i :: 0 <= i < |s| ==> p[i] == s[i] as int
  {
    seq(|s|, i requires 0 <= i < |s| => s[i] as int)
  }

  lemma {:induction false} NameInjective(s: string, t: string)
    requires Name(s) == Name(t)
    ensures s == t
  {
    assert forall i :: 0 <= i < |s| ==> Name(s)[i] == s[i] as int && Name(t)[i] == t[i] as int;
  }

  /** Strings compare by code point, as `sort_keys` does. */
  predicate Less(a: PyStr, b: PyStr)
    decreases |a|
  {
    b != [] && (a == [] || a[0] < b[0] || (a[0] == b[0] && Less(a[1..], b[1..])))
  }

  /** `a` stands before `b`: they agree up to some place, where `a` ends or has the smaller code point. */
  ghost predicate Precedes(a: PyStr, b: PyStr) {
    exists i: nat :: i <= |a| && i < |b| && a[..i] == b[..i] && (i == |a| || a[i] < b[i])
  }

  lemma {:induction false} LessIs(a: PyStr, b: PyStr)
    ensures Less(a, b) <==> Precedes(a, b)
    decreases |a|
  {
    if a != [] && b != [] && a[0] == b[0] {
      LessIs(a[1..], b[1..]);
      if i: nat :| i <= |a| && i < |b| && a[..i] == b[..i] && (i == |a| || a[i] < b[i]) {
        assert i > 0 && a[1..][..i - 1] == a[..i][1..] && b[1..][..i - 1] == b[..i][1..];
        assert Precedes(a[1..], b[1..]);
      }
      if Precedes(a[1..], b[1..]) {
        var i: nat :| i <= |a[1..]| && i < |b[1..]| && a[1..][..i] == b[1..][..i]
                      && (i == |a[1..]| || a[1..][i] < b[1..][i]);
        assert a[..i + 1] == [a[0]] + a[1..][..i] && b[..i + 1] == [b[0]] + b[1..][..i];
      }
    } else if b != [] {
      assert a[..0] == b[..0];
      if i: nat :| i <= |a| && i < |b| && a[..i] == b[..i] && (i == |a| || a[i] < b[i]) {
        assert i > 0 && a != [] ==> a[..i][0] == b[..i][0];
      }
    }
  }

  lemma {:induction false} LessTotal(a: PyStr, b: PyStr)
    ensures a == b || Less(a, b) || Less(b, a)
    ensures !(Less(a, b) && Less(b, a)) && !Less(a, a)
    decreases |a|
  {
    if a != [] {
      LessTotal(a[1..], if b != [] then b[1..] else []);
      if b != [] && a[0] == b[0] && a[1..] == b[1..] { assert a == [a[0]] + a[1..] == b; }
    }
  }

  lemma {:induction false} LessTransitive(a: PyStr, b: PyStr, c: PyStr)
    requires Less(a, b) && Less(b, c)
    ensures Less(a, c)
    decreases |a|
  {
    if a != [] && a[0] == b[0] == c[0] { LessTransitive(a[1..], b[1..], c[1..]); }
  }

  predicate IsLeast(k: PyStr, ks: set<PyStr>) {
    k in ks && forall k' :: k' in ks ==> k == k' || Less(k, k')
  }

  lemma {:induction false} LeastExists(ks: set<PyStr>) returns (k: PyStr)
    requires ks != {}
    ensures IsLeast(k, ks)
  {
    k :| k in ks;
    if ks != {k} {
      assert ks == {k} + (ks - {k});
      var m := LeastExists(ks - {k});
      LessTotal(k, m);
      if Less(m, k) {
        k := m;
      } else {
        forall k' | k' in ks ensures k == k' || Less(k, k') {
          if k' != k && k' != m { LessTransitive(k, m, k'); }
        }
      }
    }
  }

  lemma {:induction false} LeastUnique(a: PyStr, b: PyStr, ks: set<PyStr>)
    requires IsLeast(a, ks) && IsLeast(b, ks)
    ensures a == b
  {
    LessTotal(a, b);
  }

  lemma {:induction false} LeastIsThere(ks: set<PyStr>)
    requires ks != {}
    ensures exists k :: IsLeast(k, ks)
    ensures forall a, b :: IsLeast(a, ks) && IsLeast(b, ks) ==> a == b
  {
    var _ := LeastExists(ks);
    forall a, b | IsLeast(a, ks) && IsLeast(b, ks) ensures a == b { LeastUnique(a, b, ks); }
  }

  function Least(ks: set<PyStr>): (k: PyStr)
    requires ks != {}
    ensures IsLeast(k, ks)
  {
    LeastIsThere(ks);
    var k :| k in ks && IsLeast(k, ks);
    k
  }

  predicate StrictlySorted(keys: seq<PyStr>) {
    forall i, j :: 0 <= i < j < |keys| ==> Less(keys[i], keys[j])
  }

  /** The keys of an object in the order `sort_keys` writes them. */
  function SortedKeys(ks: set<PyStr>): (keys: seq<PyStr>)
    ensures forall k :: k in keys <==> k in ks
    ensures StrictlySorted(keys)
    ensures ks != {} ==> keys != []
    decreases |ks|
  {
    if ks == {} then []
    else
      var k := Least(ks);
      var rest := SortedKeys(ks - {k});
      assert forall i :: 0 <= i < |rest| ==> rest[i] in ks - {k};
      [k] + rest
  }

  /** There is only one strictly sorted sequence of a set of keys. */
  lemma {:induction false} SortedUnique(keys: seq<PyStr>, ks: set<PyStr>)
    requires StrictlySorted(keys) && (forall k :: k in keys <==> k in ks)
    ensures keys == SortedKeys(ks)
    decreases |keys|
  {
    if keys == [] {
      assert forall k :: k in ks ==> k in keys;
      assert ks == {};
    } else {
      var k, rest := keys[0], keys[1..];
      assert keys == [k] + rest;
      assert k in keys;
      forall i | 0 <= i < |rest| ensures Less(k, rest[i]) && k != rest[i] { LessTotal(k, keys[i + 1]); }
      assert forall k' :: k' in ks <==> k' == k || k' in rest;
      assert IsLeast(k, ks);
      LeastUnique(k, Least(ks), ks);
      SortedUnique(rest, ks - {k});
    }
  }

  /** Sorting the keys in any insertion order gives the same sequence. */
  function InsertKey(k: PyStr, keys: seq<PyStr>): seq<PyStr> {
    if keys == [] || Less(k, keys[0]) then [k] + keys else [keys[0]] + InsertKey(k, keys[1..])
  }

  function SortKeys(keys: seq<PyStr>): seq<PyStr> {
    if keys == [] then [] else InsertKey(keys[0], SortKeys(keys[1..]))
  }

  lemma {:induction false} InsertKeySorted(k: PyStr, keys: seq<PyStr>)
    requires StrictlySorted(keys) && k !in keys
    ensures StrictlySorted(InsertKey(k, keys))
    ensures forall k' :: k' in InsertKey(k, keys) <==> k' == k || k' in keys
    decreases |keys|
  {
    if keys != [] {
      if Less(k, keys[0]) {
        forall i | 0 < i < |keys| ensures Less(k, keys[i]) { LessTransitive(k, keys[0], keys[i]); }
      } else {
        LessTotal(k, keys[0]);
        assert keys == [keys[0]] + keys[1..];
        InsertKeySorted(k, keys[1..]);
        var r := InsertKey(k, keys[1..]);
        forall i | 0 <= i < |r| ensures Less(keys[0], r[i]) {
          assert r[i] in r;
          if r[i] != k {
            var j :| 0 <= j < |keys[1..]| && keys[1..][j] == r[i];
            assert keys[j + 1] == r[i];
          }
        }
      }
    }
  }

  predicate Distinct(keys: seq<PyStr>) {
    forall i, j :: 0 <= i < j < |keys| ==> keys[i] != keys[j]
  }

  lemma {:induction false} SortKeysIs(keys: seq<PyStr>)
    requires Distinct(keys)
    ensures StrictlySorted(SortKeys(keys)) && forall k :: k in SortKeys(keys) <==> k in keys
    decreases |keys|
  {
    if keys != [] {
      SortKeysIs(keys[1..]);
      assert forall i :: 0 <= i < |keys[1..]| ==> keys[1..][i] == keys[i + 1];
      InsertKeySorted(keys[0], SortKeys(keys[1..]));
      assert keys == [keys[0]] + keys[1..];
    }
  }
}
