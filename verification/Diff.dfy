/** The comparator: what its deltas mean, and when there are none. */
module Diff {
  import opened Options
  import opened PyText
  import opened DiffMatching

  /** What the comparator looks at in an event: `digest` is its content identity hash. */
  datatype Node = Node(id: PyStr, kind: PyStr, parent: Option<PyStr>, digest: PyStr)

  datatype Alignment = Alignment(pass1: seq<Pair>, pass2: seq<Pair>, removed: seq<nat>, added: seq<nat>) {
    function Pairs(): seq<Pair> {
      pass1 + pass2
    }
  }

  function Range(n: nat): (r: seq<nat>)
    ensures |r| == n && forall i :: 0 <= i < n ==> r[i] == i
  {
    seq(n, i requires 0 <= i < n => i)
  }

  function IdKeys(es: seq<Node>): (ks: seq<Key>)
    ensures |ks| == |es| && forall i :: 0 <= i < |es| ==> ks[i] == ById(es[i].id)
  {
    seq(|es|, i requires 0 <= i < |es| => ById(es[i].id))
  }

  /** `_fallback_key(ev)` */
  function FallbackKey(e: Node): Key {
    ByContent(e.kind, if e.parent.Some? then e.parent.value else [], e.digest)
  }

  /** Equal kinds and digests, and equal parents, where no parent and an empty one are the same. */
  ghost predicate SameFallback(x: Node, y: Node) {
    && x.kind == y.kind && x.digest == y.digest
    && (x.parent == y.parent || ({x.parent, y.parent} <= {None, Some([])}))
  }

  lemma {:induction false} FallbackIs(x: Node, y: Node)
    ensures FallbackKey(x) == FallbackKey(y) <==> SameFallback(x, y)
  {
    assert x.parent in {x.parent, y.parent} && y.parent in {x.parent, y.parent};
  }

  function ContentKeys(es: seq<Node>, at: seq<nat>): (ks: seq<Key>)
    requires forall t :: 0 <= t < |at| ==> at[t] < |es|
    ensures |ks| == |at| && forall t :: 0 <= t < |at| ==> ks[t] == FallbackKey(es[at[t]])
  {
    seq(|at|, t requires 0 <= t < |at| => FallbackKey(es[at[t]]))
  }

  // ----- What one pass pairs and leaves -----

  ghost predicate PairedAt(ia: seq<nat>, ka: seq<Key>, ib: seq<nat>, kb: seq<Key>, s: nat, t: nat, p: Pair)
    requires |ia| == |ka| && |ib| == |kb|
  {
    SameOccurrence(ka, s, kb, t) && p == (ia[s], ib[t])
  }

  lemma {:induction false} InPairs(ia: seq<nat>, ka: seq<Key>, ib: seq<nat>, kb: seq<Key>, n: nat, p: Pair)
    requires |ia| == |ka| && |ib| == |kb| && n <= |ia|
    ensures p in PairsOf(ia, ka, ib, kb, n) <==> exists s: nat, t: nat :: s < n && PairedAt(ia, ka, ib, kb, s, t, p)
    decreases n
  {
    hide SameOccurrence, Partner, PairsOf, PairedAt;
    NoPairs(ia, ka, ib, kb);
    if n > 0 {
      InPairs(ia, ka, ib, kb, n - 1, p);
      InPairsStep(ia, ka, ib, kb, n - 1, p);
    }
  }

  lemma {:induction false} NoPairs(ia: seq<nat>, ka: seq<Key>, ib: seq<nat>, kb: seq<Key>)
    requires |ia| == |ka| && |ib| == |kb|
    ensures PairsOf(ia, ka, ib, kb, 0) == []
  {
  }

  lemma {:induction false} InPairsStep(ia: seq<nat>, ka: seq<Key>, ib: seq<nat>, kb: seq<Key>, n: nat, p: Pair)
    requires |ia| == |ka| && |ib| == |kb| && n < |ia|
    ensures p in PairsOf(ia, ka, ib, kb, n + 1) <==>
            p in PairsOf(ia, ka, ib, kb, n) || exists t: nat :: PairedAt(ia, ka, ib, kb, n, t, p)
  {
    hide SameOccurrence, Partner, PairsOf;
    PairStep(ia, ka, ib, kb, n);
    var q := Partner(ka, kb, n);
    if q.Some? {
      PartnerIs(ka, kb, n, q.value);
      assert p == (ia[n], ib[q.value]) ==> PairedAt(ia, ka, ib, kb, n, q.value, p);
    }
    if t: nat :| PairedAt(ia, ka, ib, kb, n, t, p) { PartnerIs(ka, kb, n, t); }
  }

  lemma {:induction false} InLeft(ia: seq<nat>, ka: seq<Key>, kb: seq<Key>, n: nat, x: nat)
    requires |ia| == |ka| && n <= |ia|
    ensures x in LeftOf(ia, ka, kb, n) <==> exists s: nat :: s < n && Partner(ka, kb, s).None? && ia[s] == x
    decreases n
  {
    hide Partner;
    if n > 0 { InLeft(ia, ka, kb, n - 1, x); }
  }

  lemma {:induction false} LeftAscending(ia: seq<nat>, ka: seq<Key>, kb: seq<Key>, n: nat)
    requires |ia| == |ka| && n <= |ia| && Ascending(ia)
    ensures Ascending(LeftOf(ia, ka, kb, n))
    decreases n
  {
    hide Partner;
    if n > 0 {
      LeftAscending(ia, ka, kb, n - 1);
      var l := LeftOf(ia, ka, kb, n - 1);
      forall i | 0 <= i < |l| ensures l[i] < ia[n - 1] {
        InLeft(ia, ka, kb, n - 1, l[i]);
        assert l[i] in l;
      }
    }
  }

  /** The left sides of the pairs ascend along the list. */
  ghost predicate FirstsAscend(pairs: seq<Pair>) {
    forall s, t :: 0 <= s < t < |pairs| ==> pairs[s].0 < pairs[t].0
  }

  lemma {:induction false} PairsAscend(ia: seq<nat>, ka: seq<Key>, ib: seq<nat>, kb: seq<Key>, n: nat)
    requires |ia| == |ka| && |ib| == |kb| && n <= |ia| && Ascending(ia)
    ensures FirstsAscend(PairsOf(ia, ka, ib, kb, n))
    decreases n
  {
    hide SameOccurrence, Partner;
    if n > 0 {
      PairsAscend(ia, ka, ib, kb, n - 1);
      PairStep(ia, ka, ib, kb, n - 1);
      var before := PairsOf(ia, ka, ib, kb, n - 1);
      hide PairsOf;
      forall s | 0 <= s < |before| ensures before[s].0 < ia[n - 1] {
        InPairs(ia, ka, ib, kb, n - 1, before[s]);
        assert before[s] in before;
        var u: nat, t: nat :| u < n - 1 && PairedAt(ia, ka, ib, kb, u, t, before[s]);
      }
    }
  }

  /** A right index has one pair at most. */
  lemma {:induction false} SecondUnique(ia: seq<nat>, ka: seq<Key>, ib: seq<nat>, kb: seq<Key>, p: Pair, q: Pair)
    requires |ia| == |ka| && |ib| == |kb| && Ascending(ib)
    requires p in PairsOf(ia, ka, ib, kb, |ia|) && q in PairsOf(ia, ka, ib, kb, |ia|) && p.1 == q.1
    ensures p == q
  {
    hide PairsOf, SameOccurrence;
    InPairs(ia, ka, ib, kb, |ia|, p);
    InPairs(ia, ka, ib, kb, |ia|, q);
    var s: nat, t: nat :| s < |ia| && PairedAt(ia, ka, ib, kb, s, t, p);
    var s': nat, t': nat :| s' < |ia| && PairedAt(ia, ka, ib, kb, s', t', q);
    OccurrenceInRange(ka, s, kb, t);
    OccurrenceInRange(ka, s', kb, t');
    assert !(t < t') && !(t' < t);
    OccurrenceUnique(ka, s, s', kb, t);
  }

  lemma {:induction false} OccurrenceInRange(ka: seq<Key>, i: nat, kb: seq<Key>, j: nat)
    requires SameOccurrence(ka, i, kb, j)
    ensures i < |ka| && j < |kb| && ka[i] == kb[j]
  {
  }

  function Firsts(pairs: seq<Pair>): set<nat> {
    set p | p in pairs :: p.0
  }

  ghost predicate Keyed(ix: seq<nat>, ks: seq<Key>, x: nat, k: Key)
    requires |ix| == |ks|
  {
    exists s: nat :: s < |ix| && ix[s] == x && ks[s] == k
  }

  /** What a pass does to its two index lists. */
  ghost predicate PassOk(ia: seq<nat>, ka: seq<Key>, ib: seq<nat>, kb: seq<Key>, pairs: seq<Pair>, left: seq<nat>)
    requires |ia| == |ka| && |ib| == |kb|
  {
    && FirstsAscend(pairs) && Ascending(left)
    && (forall p, q :: p in pairs && q in pairs && p.1 == q.1 ==> p == q)
    && (forall p :: p in pairs ==> exists k :: Keyed(ia, ka, p.0, k) && Keyed(ib, kb, p.1, k))
    && (forall x :: x in ia <==> x in Firsts(pairs) || x in left)
    && (forall x :: x in left ==> x !in Firsts(pairs))
    && (forall x, y, k, l | x in left && y !in Seconds(pairs) :: Keyed(ia, ka, x, k) && Keyed(ib, kb, y, l) ==> k != l)
  }

  lemma {:induction false} PairKeys(ia: seq<nat>, ka: seq<Key>, ib: seq<nat>, kb: seq<Key>, p: Pair)
    requires |ia| == |ka| && |ib| == |kb| && p in PairsOf(ia, ka, ib, kb, |ia|)
    ensures exists k :: Keyed(ia, ka, p.0, k) && Keyed(ib, kb, p.1, k)
  {
    hide PairsOf, SameOccurrence;
    InPairs(ia, ka, ib, kb, |ia|, p);
    var s: nat, t: nat :| s < |ia| && PairedAt(ia, ka, ib, kb, s, t, p);
    OccurrenceInRange(ka, s, kb, t);
    assert Keyed(ia, ka, p.0, ka[s]) && Keyed(ib, kb, p.1, ka[s]);
  }

  /** Every left entry is paired or left over. */
  lemma {:induction false} PairedOrLeft(ia: seq<nat>, ka: seq<Key>, ib: seq<nat>, kb: seq<Key>, x: nat)
    requires |ia| == |ka| && |ib| == |kb| && Ascending(ia)
    ensures var pairs, left := PairsOf(ia, ka, ib, kb, |ia|), LeftOf(ia, ka, kb, |ia|);
            (x in ia <==> x in Firsts(pairs) || x in left) && (x in left ==> x !in Firsts(pairs))
  {
    hide PairsOf, LeftOf, SameOccurrence, Partner;
    var pairs, left := PairsOf(ia, ka, ib, kb, |ia|), LeftOf(ia, ka, kb, |ia|);
    InLeft(ia, ka, kb, |ia|, x);
    forall p | p in pairs ensures p.0 in ia && (p.0 == x ==> x !in left) { PairNotLeft(ia, ka, ib, kb, p); }
    if x in ia && x !in left {
      var s: nat :| s < |ia| && ia[s] == x;
      var t := Partner(ka, kb, s).value;
      PartnerIs(ka, kb, s, t);
      OccurrenceInRange(ka, s, kb, t);
      var p := (x, ib[t]);
      assert PairedAt(ia, ka, ib, kb, s, t, p);
      InPairs(ia, ka, ib, kb, |ia|, p);
      assert p.0 in Firsts(pairs);
    }
  }

  lemma {:induction false} PairNotLeft(ia: seq<nat>, ka: seq<Key>, ib: seq<nat>, kb: seq<Key>, p: Pair)
    requires |ia| == |ka| && |ib| == |kb| && Ascending(ia) && p in PairsOf(ia, ka, ib, kb, |ia|)
    ensures p.0 in ia && p.0 !in LeftOf(ia, ka, kb, |ia|)
  {
    hide PairsOf, LeftOf, SameOccurrence, Partner;
    InPairs(ia, ka, ib, kb, |ia|, p);
    var s: nat, t: nat :| s < |ia| && PairedAt(ia, ka, ib, kb, s, t, p);
    PartnerIs(ka, kb, s, t);
    InLeft(ia, ka, kb, |ia|, p.0);
    forall u: nat | u < |ia| && ia[u] == p.0 ensures u == s { assert !(u < s) && !(s < u); }
  }

  lemma {:induction false} LeftoverKeysDiffer(ia: seq<nat>, ka: seq<Key>, ib: seq<nat>, kb: seq<Key>, x: nat, y: nat,
                                              k: Key)
    requires |ia| == |ka| && |ib| == |kb| && Ascending(ia) && Keyed(ia, ka, x, k) && Keyed(ib, kb, y, k)
    ensures x !in LeftOf(ia, ka, kb, |ia|) || y in Seconds(PairsOf(ia, ka, ib, kb, |ia|))
  {
    hide PairsOf, LeftOf, SameOccurrence, Partner;
    var s: nat :| s < |ia| && ia[s] == x && ka[s] == k;
    var t: nat :| t < |ib| && ib[t] == y && kb[t] == k;
    OneIsPaired(ka, kb, s, t);
    if t': nat :| SameOccurrence(ka, s, kb, t') {
      OccurrenceInRange(ka, s, kb, t');
      assert PairedAt(ia, ka, ib, kb, s, t', (x, ib[t']));
      InPairs(ia, ka, ib, kb, |ia|, (x, ib[t']));
      PairNotLeft(ia, ka, ib, kb, (x, ib[t']));
    } else {
      var s': nat :| SameOccurrence(ka, s', kb, t);
      OccurrenceInRange(ka, s', kb, t);
      assert PairedAt(ia, ka, ib, kb, s', t, (ia[s'], y));
      InPairs(ia, ka, ib, kb, |ia|, (ia[s'], y));
      assert (ia[s'], y).1 in Seconds(PairsOf(ia, ka, ib, kb, |ia|));
    }
  }

  lemma {:induction false} PassIsOk(ia: seq<nat>, ka: seq<Key>, ib: seq<nat>, kb: seq<Key>)
    requires |ia| == |ka| && |ib| == |kb| && Ascending(ia) && Ascending(ib)
    ensures PassOk(ia, ka, ib, kb, PairsOf(ia, ka, ib, kb, |ia|), LeftOf(ia, ka, kb, |ia|))
  {
    hide PairsOf, LeftOf, Keyed, Firsts, Seconds, Ascending, FirstsAscend;
    var pairs, left := PairsOf(ia, ka, ib, kb, |ia|), LeftOf(ia, ka, kb, |ia|);
    PairsAscend(ia, ka, ib, kb, |ia|);
    LeftAscending(ia, ka, kb, |ia|);
    forall p, q | p in pairs && q in pairs && p.1 == q.1 ensures p == q { SecondUnique(ia, ka, ib, kb, p, q); }
    forall p | p in pairs ensures exists k :: Keyed(ia, ka, p.0, k) && Keyed(ib, kb, p.1, k) {
      PairKeys(ia, ka, ib, kb, p);
    }
    forall x ensures (x in ia <==> x in Firsts(pairs) || x in left) && (x in left ==> x !in Firsts(pairs)) {
      PairedOrLeft(ia, ka, ib, kb, x);
    }
    forall x, y, k, l | x in left && y !in Seconds(pairs) && Keyed(ia, ka, x, k) && Keyed(ib, kb, y, l) ensures k != l {
      if k == l { LeftoverKeysDiffer(ia, ka, ib, kb, x, y, k); }
    }
  }

  // ----- The alignment -----

  lemma {:induction false} LeftInRange(n: nat, ka: seq<Key>, kb: seq<Key>)
    requires |ka| == n
    ensures forall t :: 0 <= t < |LeftOf(Range(n), ka, kb, n)| ==> LeftOf(Range(n), ka, kb, n)[t] < n
  {
    var left := LeftOf(Range(n), ka, kb, n);
    hide LeftOf, Partner;
    forall t | 0 <= t < |left| ensures left[t] < n {
      InLeft(Range(n), ka, kb, n, left[t]);
      assert left[t] in left;
    }
  }

  lemma {:induction false} FreeInRange(n: nat, taken: set<nat>)
    ensures forall t :: 0 <= t < |Free(n, taken)| ==> Free(n, taken)[t] < n && Free(n, taken)[t] !in taken
  {
    var free := Free(n, taken);
    assert forall t :: 0 <= t < |free| ==> free[t] in free;
  }

  function Pass1(a: seq<Node>, b: seq<Node>): seq<Pair> {
    PairsOf(Range(|a|), IdKeys(a), Range(|b|), IdKeys(b), |a|)
  }

  /** `unmatched_a` after the first pass, and the right indices not matched by it. */
  function LeftA(a: seq<Node>, b: seq<Node>): (left: seq<nat>)
    ensures forall t :: 0 <= t < |left| ==> left[t] < |a|
  {
    LeftInRange(|a|, IdKeys(a), IdKeys(b));
    LeftOf(Range(|a|), IdKeys(a), IdKeys(b), |a|)
  }

  function LeftB(a: seq<Node>, b: seq<Node>): (left: seq<nat>)
    ensures forall t :: 0 <= t < |left| ==> left[t] < |b| && left[t] !in Seconds(Pass1(a, b))
  {
    FreeInRange(|b|, Seconds(Pass1(a, b)));
    Free(|b|, Seconds(Pass1(a, b)))
  }

  function Align(a: seq<Node>, b: seq<Node>): Alignment {
    var la, lb := LeftA(a, b), LeftB(a, b);
    var ka, kb := ContentKeys(a, la), ContentKeys(b, lb);
    var pass2 := PairsOf(la, ka, lb, kb, |la|);
    Alignment(Pass1(a, b), pass2, LeftOf(la, ka, kb, |la|), Free(|b|, Seconds(Pass1(a, b)) + Seconds(pass2)))
  }

  ghost predicate Injective(pairs: seq<Pair>) {
    forall s, t :: 0 <= s < t < |pairs| ==> pairs[s].0 != pairs[t].0 && pairs[s].1 != pairs[t].1
  }

  /** Pairs are an injective matching; what is not paired is removed or added; nothing left over on both
      sides could still be paired. */
  ghost predicate Matching(a: seq<Node>, b: seq<Node>, al: Alignment) {
    && Injective(al.Pairs())
    && (forall p :: p in al.Pairs() ==> p.0 < |a| && p.1 < |b|)
    && (forall i: nat :: i < |a| <==> i in Firsts(al.Pairs()) || i in al.removed)
    && (forall j: nat :: j < |b| <==> j in Seconds(al.Pairs()) || j in al.added)
    && (forall i :: i in al.removed ==> i !in Firsts(al.Pairs()))
    && (forall j :: j in al.added ==> j !in Seconds(al.Pairs()))
    && Ascending(al.removed) && Ascending(al.added)
    && (forall i, j :: i in al.removed && j in al.added ==>
          a[i].id != b[j].id && !SameFallback(a[i], b[j]))
  }

  /** The first pass pairs the `k`-th occurrence of an id with the `k`-th occurrence of it. */
  lemma {:induction false} Pass1PairsOccurrences(a: seq<Node>, b: seq<Node>, i: nat, j: nat)
    ensures (i, j) in Pass1(a, b) <==> SameOccurrence(IdKeys(a), i, IdKeys(b), j)
  {
    hide PairsOf, SameOccurrence;
    var ia, ib := Range(|a|), Range(|b|);
    InPairs(ia, IdKeys(a), ib, IdKeys(b), |a|, (i, j));
    if SameOccurrence(IdKeys(a), i, IdKeys(b), j) {
      OccurrenceInRange(IdKeys(a), i, IdKeys(b), j);
      assert PairedAt(ia, IdKeys(a), ib, IdKeys(b), i, j, (i, j));
    }
    if (i, j) in Pass1(a, b) {
      var s: nat, t: nat :| s < |a| && PairedAt(ia, IdKeys(a), ib, IdKeys(b), s, t, (i, j));
      OccurrenceInRange(IdKeys(a), s, IdKeys(b), t);
    }
  }

  lemma {:induction false} FirstPassOk(a: seq<Node>, b: seq<Node>)
    ensures PassOk(Range(|a|), IdKeys(a), Range(|b|), IdKeys(b), Pass1(a, b), LeftA(a, b))
  {
    hide PairsOf, LeftOf, PassOk;
    PassIsOk(Range(|a|), IdKeys(a), Range(|b|), IdKeys(b));
  }

  lemma {:induction false} SecondPassOk(a: seq<Node>, b: seq<Node>)
    ensures var la, lb, al := LeftA(a, b), LeftB(a, b), Align(a, b);
            PassOk(la, ContentKeys(a, la), lb, ContentKeys(b, lb), al.pass2, al.removed)
  {
    hide PairsOf, LeftOf, PassOk;
    var la, lb := LeftA(a, b), LeftB(a, b);
    LeftAscending(Range(|a|), IdKeys(a), IdKeys(b), |a|);
    PassIsOk(la, ContentKeys(a, la), lb, ContentKeys(b, lb));
  }

  /** A pass list in which left sides ascend and right sides are unique pairs injectively. */
  lemma {:induction false} PassInjective(pairs: seq<Pair>)
    requires FirstsAscend(pairs) && forall p, q :: p in pairs && q in pairs && p.1 == q.1 ==> p == q
    ensures Injective(pairs)
  {
    forall s, t | 0 <= s < t < |pairs| ensures pairs[s].0 != pairs[t].0 && pairs[s].1 != pairs[t].1 {
      assert pairs[s] in pairs && pairs[t] in pairs;
    }
  }

  lemma {:induction false} ConcatInjective(p: seq<Pair>, q: seq<Pair>)
    requires Injective(p) && Injective(q) && Firsts(p) !! Firsts(q) && Seconds(p) !! Seconds(q)
    ensures Injective(p + q)
  {
    forall x | x in p ensures x.0 in Firsts(p) && x.1 in Seconds(p) { }
    forall x | x in q ensures x.0 in Firsts(q) && x.1 in Seconds(q) { }
    hide Firsts, Seconds;
    var r := p + q;
    forall s, t | 0 <= s < t < |r| ensures r[s].0 != r[t].0 && r[s].1 != r[t].1 {
      if s < |p| <= t { assert p[s] in p && q[t - |p|] in q; }
    }
  }

  lemma {:induction false} ConcatSides(p: seq<Pair>, q: seq<Pair>)
    ensures Firsts(p + q) == Firsts(p) + Firsts(q) && Seconds(p + q) == Seconds(p) + Seconds(q)
  {
    forall x | x in p ensures x in p + q { }
    forall x | x in q ensures x in p + q { }
    forall i | i in Firsts(p) + Firsts(q) ensures i in Firsts(p + q) {
      var x :| (x in p || x in q) && x.0 == i;
      assert x in p + q;
    }
    forall i | i in Seconds(p) + Seconds(q) ensures i in Seconds(p + q) {
      var x :| (x in p || x in q) && x.1 == i;
      assert x in p + q;
    }
  }

  /** Both ends of a pair are entries of the pass's index lists, with equal keys. */
  lemma {:induction false} PairEnds(ia: seq<nat>, ka: seq<Key>, ib: seq<nat>, kb: seq<Key>, pairs: seq<Pair>,
                                    left: seq<nat>, p: Pair)
    requires |ia| == |ka| && |ib| == |kb| && PassOk(ia, ka, ib, kb, pairs, left) && p in pairs
    ensures exists s: nat, t: nat :: s < |ia| && t < |ib| && ia[s] == p.0 && ib[t] == p.1 && ka[s] == kb[t]
  {
    hide FirstsAscend, Ascending;
    var k :| Keyed(ia, ka, p.0, k) && Keyed(ib, kb, p.1, k);
    var s: nat :| s < |ia| && ia[s] == p.0 && ka[s] == k;
    var t: nat :| t < |ib| && ib[t] == p.1 && kb[t] == k;
  }

  /** A pair of the first pass has equal ids; one of the second pass equal fallback keys but different ids. */
  lemma {:induction false} Pass1Ends(a: seq<Node>, b: seq<Node>, p: Pair)
    requires p in Pass1(a, b)
    ensures p.0 < |a| && p.1 < |b| && a[p.0].id == b[p.1].id
  {
    hide PassOk, Pass1, LeftA;
    FirstPassOk(a, b);
    PairEnds(Range(|a|), IdKeys(a), Range(|b|), IdKeys(b), Pass1(a, b), LeftA(a, b), p);
  }

  lemma {:induction false} Pass2Ends(a: seq<Node>, b: seq<Node>, p: Pair)
    requires p in Align(a, b).pass2
    ensures p.0 < |a| && p.1 < |b| && p.0 in LeftA(a, b) && p.1 in LeftB(a, b)
    ensures SameFallback(a[p.0], b[p.1]) && a[p.0].id != b[p.1].id
  {
    hide PassOk, Pass1, LeftA, LeftB, Align, FallbackKey;
    SecondPassOk(a, b);
    var la, lb := LeftA(a, b), LeftB(a, b);
    PairEnds(la, ContentKeys(a, la), lb, ContentKeys(b, lb), Align(a, b).pass2, Align(a, b).removed, p);
    FallbackIs(a[p.0], b[p.1]);
    LeftIdsDiffer(a, b, p.0, p.1);
  }

  lemma {:induction false} LeftIdsDiffer(a: seq<Node>, b: seq<Node>, i: nat, j: nat)
    requires i in LeftA(a, b) && j !in Seconds(Pass1(a, b)) && j < |b|
    ensures i < |a| && a[i].id != b[j].id
  {
    hide Pass1, LeftA, Seconds, Firsts, FirstsAscend, Ascending;
    FirstPassOk(a, b);
    var la := LeftA(a, b);
    var t :| 0 <= t < |la| && la[t] == i;
    assert Range(|a|)[i] == i && IdKeys(a)[i] == ById(a[i].id);
    assert Range(|b|)[j] == j && IdKeys(b)[j] == ById(b[j].id);
    assert Keyed(Range(|a|), IdKeys(a), i, ById(a[i].id));
    assert Keyed(Range(|b|), IdKeys(b), j, ById(b[j].id));
  }

  lemma {:induction false} LeftKeysDiffer(a: seq<Node>, b: seq<Node>, i: nat, j: nat)
    requires i in Align(a, b).removed && j in Align(a, b).added
    ensures i in LeftA(a, b) && j in LeftB(a, b) && FallbackKey(a[i]) != FallbackKey(b[j])
  {
    hide Pass1, LeftA, Seconds, Firsts, FirstsAscend, Ascending, FallbackKey, PairsOf, LeftOf;
    SecondPassOk(a, b);
    var la, lb := LeftA(a, b), LeftB(a, b);
    assert i in la && j in lb;
    var s :| 0 <= s < |la| && la[s] == i;
    var t :| 0 <= t < |lb| && lb[t] == j;
    assert Keyed(la, ContentKeys(a, la), i, FallbackKey(a[i]));
    assert Keyed(lb, ContentKeys(b, lb), j, FallbackKey(b[j]));
  }

  lemma {:induction false} PairsInRange(a: seq<Node>, b: seq<Node>, p: Pair)
    requires p in Align(a, b).Pairs()
    ensures p.0 < |a| && p.1 < |b|
  {
    hide PairsOf, LeftOf, LeftA, LeftB, FallbackKey;
    if p in Pass1(a, b) { Pass1Ends(a, b, p); } else { Pass2Ends(a, b, p); }
  }

  lemma {:induction false} PairsInjective(a: seq<Node>, b: seq<Node>)
    ensures Injective(Align(a, b).Pairs())
  {
    hide Pass1, LeftA, LeftB, Seconds, Firsts, FirstsAscend, Ascending, Injective, Keyed, FallbackKey;
    var p, q := Pass1(a, b), Align(a, b).pass2;
    FirstPassOk(a, b);
    SecondPassOk(a, b);
    PassInjective(p);
    PassInjective(q);
    PassesDisjoint(a, b);
    ConcatInjective(p, q);
  }

  lemma {:induction false} PassesDisjoint(a: seq<Node>, b: seq<Node>)
    ensures Firsts(Pass1(a, b)) !! Firsts(Align(a, b).pass2) && Seconds(Pass1(a, b)) !! Seconds(Align(a, b).pass2)
  {
    hide Pass1, LeftA, LeftB, Align, FallbackKey, PassOk;
    var p, q := Pass1(a, b), Align(a, b).pass2;
    forall x | x in q ensures x.0 !in Firsts(p) && x.1 !in Seconds(p) {
      Pass2Ends(a, b, x);
      FirstPassLeft(a, b, x.0);
      FreeOfPass1(a, b, x.1);
    }
  }

  lemma {:induction false} FirstPassLeft(a: seq<Node>, b: seq<Node>, i: nat)
    ensures i < |a| <==> i in Firsts(Pass1(a, b)) || i in LeftA(a, b)
    ensures i in LeftA(a, b) ==> i !in Firsts(Pass1(a, b))
  {
    hide Pass1, LeftA, Firsts, Keyed;
    FirstPassOk(a, b);
    assert i < |a| ==> Range(|a|)[i] == i;
  }

  lemma {:induction false} FreeOfPass1(a: seq<Node>, b: seq<Node>, j: nat)
    ensures j in LeftB(a, b) <==> j < |b| && j !in Seconds(Pass1(a, b))
  {
    hide Pass1, Seconds;
  }

  lemma {:induction false} RemovedCovers(a: seq<Node>, b: seq<Node>, i: nat)
    ensures var al := Align(a, b);
            (i < |a| <==> i in Firsts(al.Pairs()) || i in al.removed) && (i in al.removed ==> i !in Firsts(al.Pairs()))
  {
    hide Pass1, LeftA, LeftB, Firsts, Seconds, Keyed, Align, FirstsAscend, Ascending;
    FirstPassLeft(a, b, i);
    SecondPassOk(a, b);
    ConcatSides(Pass1(a, b), Align(a, b).pass2);
    AlignPairs(a, b);
  }

  lemma {:induction false} AlignPairs(a: seq<Node>, b: seq<Node>)
    ensures Align(a, b).pass1 == Pass1(a, b)
  {
  }

  lemma {:induction false} AddedCovers(a: seq<Node>, b: seq<Node>, j: nat)
    ensures var al := Align(a, b);
            (j < |b| <==> j in Seconds(al.Pairs()) || j in al.added) && (j in al.added ==> j !in Seconds(al.Pairs()))
  {
    var al := Align(a, b);
    ConcatSides(al.pass1, al.pass2);
    hide Pass1, LeftA, LeftB, Firsts, FirstsAscend;
    if j in Seconds(al.Pairs()) {
      var p :| p in al.Pairs() && p.1 == j;
      PairsInRange(a, b, p);
    }
  }

  lemma {:induction false} AlignMatches(a: seq<Node>, b: seq<Node>)
    ensures Matching(a, b, Align(a, b))
  {
    hide Align, Injective, Firsts, Seconds, Ascending, FallbackKey, LeftA, LeftB, Pass1;
    var al := Align(a, b);
    PairsInjective(a, b);
    forall p | p in al.Pairs() ensures p.0 < |a| && p.1 < |b| { PairsInRange(a, b, p); }
    forall i: nat
      ensures i < |a| <==> i in Firsts(al.Pairs()) || i in al.removed
      ensures i in al.removed ==> i !in Firsts(al.Pairs()) {
      RemovedCovers(a, b, i);
    }
    forall j: nat
      ensures j < |b| <==> j in Seconds(al.Pairs()) || j in al.added
      ensures j in al.added ==> j !in Seconds(al.Pairs()) {
      AddedCovers(a, b, j);
    }
    LeftoversAscend(a, b);
    forall i, j | i in al.removed && j in al.added
      ensures a[i].id != b[j].id && !SameFallback(a[i], b[j]) {
      FallbackIs(a[i], b[j]);
      LeftKeysDiffer(a, b, i, j);
      FreeOfPass1(a, b, j);
      LeftIdsDiffer(a, b, i, j);
    }
  }

  lemma {:induction false} LeftoversAscend(a: seq<Node>, b: seq<Node>)
    ensures Ascending(Align(a, b).removed) && Ascending(Align(a, b).added)
  {
    hide PairsOf, LeftOf, LeftA, LeftB, Pass1, Seconds, Ascending;
    var la, lb := LeftA(a, b), LeftB(a, b);
    LeftAAscends(a, b);
    LeftAscending(la, ContentKeys(a, la), ContentKeys(b, lb), |la|);
  }

  lemma {:induction false} LeftAAscends(a: seq<Node>, b: seq<Node>)
    ensures Ascending(LeftA(a, b))
  {
    hide LeftOf;
    LeftAscending(Range(|a|), IdKeys(a), IdKeys(b), |a|);
  }

  // ----- A digest covers the id -----

  /** Events with the same digest have the same id: what a collision-free content hash gives. */
  ghost predicate DigestCoversId(a: seq<Node>, b: seq<Node>) {
    forall i, j | 0 <= i < |a| && 0 <= j < |b| :: a[i].digest == b[j].digest ==> a[i].id == b[j].id
  }

  /** Then the second pass adds no pair. */
  lemma {:induction false} SecondPassIdle(a: seq<Node>, b: seq<Node>)
    requires DigestCoversId(a, b)
    ensures Align(a, b).pass2 == []
  {
    hide Align, LeftA, LeftB;
    var pass2 := Align(a, b).pass2;
    if pass2 != [] { Pass2Ends(a, b, pass2[0]); }
  }

  // ----- Deltas -----

  datatype Delta =
    | Added(eventId: PyStr, bIndex: nat, kind: PyStr)
    | Removed(eventId: PyStr, aIndex: nat, kind: PyStr)
    | KindChanged(eventId: PyStr, aIndex: nat, bIndex: nat, kindA: PyStr, kindB: PyStr)
    | ParentRelinked(eventId: PyStr, aIndex: nat, bIndex: nat, parentA: PyStr, parentB: PyStr)
    | Reordered(eventId: PyStr, aIndex: nat, bIndex: nat)
    | ContentChanged(eventId: PyStr, aIndex: nat, bIndex: nat, hashA: PyStr, hashB: PyStr)

  /** `_safe_id(raw)`: the privacy filter is a parameter, applied to what is not empty. */
  function SafeId(safe: PyStr -> PyStr, raw: Option<PyStr>): PyStr {
    if raw.None? || raw.value == [] then [] else safe(raw.value)
  }

  function Take16(s: PyStr): PyStr {
    if |s| <= 16 then s else s[..16]
  }

  /** The deltas of one pair. */
  function PairDeltas(safe: PyStr -> PyStr, x: Node, y: Node, i: nat, j: nat): seq<Delta> {
    var id := SafeId(safe, Some(x.id));
    (if x.kind != y.kind then [KindChanged(id, i, j, x.kind, y.kind)] else []) +
    (if x.parent != y.parent then [ParentRelinked(id, i, j, SafeId(safe, x.parent), SafeId(safe, y.parent))] else []) +
    (if x.digest != y.digest then [ContentChanged(id, i, j, Take16(x.digest), Take16(y.digest))] else [])
  }

  /** How an id is shown: not at all when it is absent or empty, otherwise as the filter leaves it. */
  ghost predicate ShownAs(safe: PyStr -> PyStr, raw: Option<PyStr>, shown: PyStr) {
    && (raw == None || raw == Some([]) ==> shown == [])
    && (forall x :: raw == Some(x) && x != [] ==> shown == safe(x))
  }

  lemma {:induction false} SafeIdIs(safe: PyStr -> PyStr, raw: Option<PyStr>, shown: PyStr)
    ensures shown == SafeId(safe, raw) <==> ShownAs(safe, raw, shown)
  {
  }

  /** The first sixteen characters, or all of them. */
  ghost predicate Head16(s: PyStr, h: PyStr) {
    h <= s && (|h| == 16 || (h == s && |h| < 16))
  }

  /** What a change delta of `x` at `i` against `y` at `j` says: which part differs, and both sides of it. */
  ghost predicate ChangeSays(safe: PyStr -> PyStr, x: Node, y: Node, i: nat, j: nat, d: Delta) {
    match d
    case KindChanged(id, ia, ib, kindA, kindB) =>
      x.kind != y.kind && ia == i && ib == j && id == SafeId(safe, Some(x.id)) && kindA == x.kind && kindB == y.kind
    case ParentRelinked(id, ia, ib, parentA, parentB) =>
      && x.parent != y.parent && ia == i && ib == j && id == SafeId(safe, Some(x.id))
      && parentA == SafeId(safe, x.parent) && parentB == SafeId(safe, y.parent)
    case ContentChanged(id, ia, ib, hashA, hashB) =>
      && x.digest != y.digest && ia == i && ib == j && id == SafeId(safe, Some(x.id))
      && Head16(x.digest, hashA) && Head16(y.digest, hashB)
    case _ => false
  }

  lemma {:induction false} Take16Is(s: PyStr, h: PyStr)
    ensures h == Take16(s) <==> Head16(s, h)
  {
    if Head16(s, h) && |s| > 16 { assert s[..16] == h; }
  }

  lemma {:induction false} PairDeltasSay(safe: PyStr -> PyStr, x: Node, y: Node, i: nat, j: nat, d: Delta)
    ensures d in PairDeltas(safe, x, y, i, j) <==> ChangeSays(safe, x, y, i, j, d)
  {
    if d.ContentChanged? {
      Take16Is(x.digest, d.hashA);
      Take16Is(y.digest, d.hashB);
    }
    hide SafeId, Take16, Head16;
  }

  predicate InRange(a: seq<Node>, b: seq<Node>, pairs: seq<Pair>) {
    forall p :: p in pairs ==> p.0 < |a| && p.1 < |b|
  }

  function ChangeDeltas(safe: PyStr -> PyStr, a: seq<Node>, b: seq<Node>, pairs: seq<Pair>, n: nat): seq<Delta>
    requires InRange(a, b, pairs) && n <= |pairs|
  {
    if n == 0 then []
    else
      assert pairs[n - 1] in pairs;
      ChangeDeltas(safe, a, b, pairs, n - 1) +
      PairDeltas(safe, a[pairs[n - 1].0], b[pairs[n - 1].1], pairs[n - 1].0, pairs[n - 1].1)
  }

  predicate PairLess(p: Pair, q: Pair) {
    p.0 < q.0 || (p.0 == q.0 && p.1 < q.1)
  }

  function InsertPair(p: Pair, pairs: seq<Pair>): seq<Pair> {
    if pairs == [] || PairLess(p, pairs[0]) then [p] + pairs else [pairs[0]] + InsertPair(p, pairs[1..])
  }

  /** `sorted(pairs)` */
  function SortPairs(pairs: seq<Pair>): seq<Pair> {
    if pairs == [] then [] else InsertPair(pairs[0], SortPairs(pairs[1..]))
  }

  /** The running maximum of right positions after `n` pairs, starting below all of them. */
  function RunningMax(pairs: seq<Pair>, n: nat): int
    requires n <= |pairs|
  {
    if n == 0 then -1
    else
      var m := RunningMax(pairs, n - 1);
      if pairs[n - 1].1 < m then m else pairs[n - 1].1
  }

  function ReorderDeltas(safe: PyStr -> PyStr, a: seq<Node>, b: seq<Node>, pairs: seq<Pair>, n: nat): seq<Delta>
    requires InRange(a, b, pairs) && n <= |pairs|
  {
    if n == 0 then []
    else
      var (i, j) := pairs[n - 1];
      assert pairs[n - 1] in pairs;
      ReorderDeltas(safe, a, b, pairs, n - 1) +
      (if j < RunningMax(pairs, n - 1) then [Reordered(SafeId(safe, Some(a[i].id)), i, j)] else [])
  }

  function RemovedDeltas(safe: PyStr -> PyStr, a: seq<Node>, removed: seq<nat>, n: nat): seq<Delta>
    requires (forall t :: 0 <= t < |removed| ==> removed[t] < |a|) && n <= |removed|
  {
    if n == 0 then []
    else
      var i := removed[n - 1];
      RemovedDeltas(safe, a, removed, n - 1) + [Removed(SafeId(safe, Some(a[i].id)), i, a[i].kind)]
  }

  function AddedDeltas(safe: PyStr -> PyStr, b: seq<Node>, taken: set<nat>, n: nat): seq<Delta>
    requires n <= |b|
  {
    if n == 0 then []
    else
      AddedDeltas(safe, b, taken, n - 1) +
      (if n - 1 in taken then [] else [Added(SafeId(safe, Some(b[n - 1].id)), n - 1, b[n - 1].kind)])
  }

  /** The sort key of a delta: category, left index, right index, id. */
  function Category(d: Delta): nat {
    match d
    case Added(_, _, _) => 0
    case Removed(_, _, _) => 1
    case KindChanged(_, _, _, _, _) => 2
    case ParentRelinked(_, _, _, _, _) => 3
    case Reordered(_, _, _) => 4
    case ContentChanged(_, _, _, _, _) => 5
  }

  function LeftIndex(d: Delta): int {
    if d.Added? then -1 else d.aIndex
  }

  function RightIndex(d: Delta): int {
    if d.Removed? then -1 else d.bIndex
  }

  predicate Before(d: Delta, e: Delta) {
    || Category(d) < Category(e)
    || (Category(d) == Category(e) && LeftIndex(d) < LeftIndex(e))
    || (Category(d) == Category(e) && LeftIndex(d) == LeftIndex(e) && RightIndex(d) < RightIndex(e))
    || (Category(d) == Category(e) && LeftIndex(d) == LeftIndex(e) && RightIndex(d) == RightIndex(e)
        && Less(d.eventId, e.eventId))
  }

  function InsertDelta(d: Delta, ds: seq<Delta>): seq<Delta> {
    if ds == [] || Before(d, ds[0]) then [d] + ds else [ds[0]] + InsertDelta(d, ds[1..])
  }

  /** The stable sort of the deltas. */
  function SortDeltas(ds: seq<Delta>): seq<Delta> {
    if ds == [] then [] else InsertDelta(ds[|ds| - 1], SortDeltas(ds[..|ds| - 1]))
  }

  lemma {:induction false} AlignInRange(a: seq<Node>, b: seq<Node>)
    ensures InRange(a, b, Align(a, b).Pairs())
    ensures forall t :: 0 <= t < |Align(a, b).removed| ==> Align(a, b).removed[t] < |a|
  {
    hide Align, Firsts, Seconds, FallbackKey;
    var al := Align(a, b);
    forall p | p in al.Pairs() ensures p.0 < |a| && p.1 < |b| { PairsInRange(a, b, p); }
    forall t | 0 <= t < |al.removed| ensures al.removed[t] < |a| {
      assert al.removed[t] in al.removed;
      RemovedCovers(a, b, al.removed[t]);
    }
  }

  function Collected(safe: PyStr -> PyStr, a: seq<Node>, b: seq<Node>): seq<Delta> {
    AlignInRange(a, b);
    var al := Align(a, b);
    var pairs := al.Pairs();
    SortPairsSame(pairs);
    ChangeDeltas(safe, a, b, pairs, |pairs|) +
    ReorderDeltas(safe, a, b, SortPairs(pairs), |SortPairs(pairs)|) +
    RemovedDeltas(safe, a, al.removed, |al.removed|) +
    AddedDeltas(safe, b, Seconds(al.pass1) + Seconds(al.pass2), |b|)
  }

  /** `diff_events` on what it looks at. */
  function DiffOf(safe: PyStr -> PyStr, a: seq<Node>, b: seq<Node>): seq<Delta> {
    SortDeltas(Collected(safe, a, b))
  }

  lemma {:induction false} InsertPairSame(p: Pair, pairs: seq<Pair>)
    ensures forall q :: q in InsertPair(p, pairs) <==> q == p || q in pairs
    ensures |InsertPair(p, pairs)| == |pairs| + 1
    decreases |pairs|
  {
    if pairs != [] && !PairLess(p, pairs[0]) {
      InsertPairSame(p, pairs[1..]);
      assert pairs == [pairs[0]] + pairs[1..];
    }
  }

  lemma {:induction false} SortPairsSame(pairs: seq<Pair>)
    ensures forall q :: q in SortPairs(pairs) <==> q in pairs
    ensures |SortPairs(pairs)| == |pairs|
    decreases |pairs|
  {
    if pairs != [] {
      SortPairsSame(pairs[1..]);
      InsertPairSame(pairs[0], SortPairs(pairs[1..]));
      assert pairs == [pairs[0]] + pairs[1..];
    }
  }

  ghost predicate PairsSorted(pairs: seq<Pair>) {
    forall s, t :: 0 <= s < t < |pairs| ==> !PairLess(pairs[t], pairs[s])
  }

  lemma {:induction false} InsertPairSorted(p: Pair, pairs: seq<Pair>)
    requires PairsSorted(pairs)
    ensures PairsSorted(InsertPair(p, pairs))
    decreases |pairs|
  {
    if pairs != [] && !PairLess(p, pairs[0]) {
      InsertPairSorted(p, pairs[1..]);
      InsertPairSame(p, pairs[1..]);
      var r := InsertPair(p, pairs[1..]);
      forall t | 0 <= t < |r| ensures !PairLess(r[t], pairs[0]) {
        assert r[t] in r;
        if r[t] in pairs[1..] {
          var u :| 0 <= u < |pairs[1..]| && pairs[1..][u] == r[t];
          assert pairs[u + 1] == r[t];
        }
      }
    }
  }

  lemma {:induction false} SortPairsSorted(pairs: seq<Pair>)
    ensures PairsSorted(SortPairs(pairs))
    decreases |pairs|
  {
    if pairs != [] {
      SortPairsSorted(pairs[1..]);
      InsertPairSorted(pairs[0], SortPairs(pairs[1..]));
    }
  }

  // ----- What a delta says -----

  /** Some pair starts to the left of `p` and ends to its right. */
  ghost predicate Overtaken(pairs: seq<Pair>, p: Pair) {
    exists q :: q in pairs && q.0 < p.0 && q.1 > p.1
  }

  ghost predicate Change(safe: PyStr -> PyStr, a: seq<Node>, b: seq<Node>, p: Pair, d: Delta) {
    p.0 < |a| && p.1 < |b| && ChangeSays(safe, a[p.0], b[p.1], p.0, p.1, d)
  }

  ghost predicate Reorder(safe: PyStr -> PyStr, a: seq<Node>, pairs: seq<Pair>, d: Delta) {
    d.Reordered? && (d.aIndex, d.bIndex) in pairs && d.aIndex < |a| && d.eventId == SafeId(safe, Some(a[d.aIndex].id))
    && Overtaken(pairs, (d.aIndex, d.bIndex))
  }

  ghost predicate Removal(safe: PyStr -> PyStr, a: seq<Node>, removed: seq<nat>, d: Delta) {
    d.Removed? && d.aIndex in removed && d.aIndex < |a| && d.eventId == SafeId(safe, Some(a[d.aIndex].id))
    && d.kind == a[d.aIndex].kind
  }

  ghost predicate Addition(safe: PyStr -> PyStr, b: seq<Node>, added: seq<nat>, d: Delta) {
    d.Added? && d.bIndex in added && d.bIndex < |b| && d.eventId == SafeId(safe, Some(b[d.bIndex].id))
    && d.kind == b[d.bIndex].kind
  }

  /** The meaning of the delta list: a change of a paired event, a pair that another pair crosses, an
      event left over on the left, an event left over on the right. */
  ghost predicate Expected(safe: PyStr -> PyStr, a: seq<Node>, b: seq<Node>, d: Delta) {
    var al := Align(a, b);
    || (exists p :: p in al.Pairs() && Change(safe, a, b, p, d))
    || Reorder(safe, a, al.Pairs(), d)
    || Removal(safe, a, al.removed, d)
    || Addition(safe, b, al.added, d)
  }

  lemma {:induction false} InChanges(safe: PyStr -> PyStr, a: seq<Node>, b: seq<Node>, pairs: seq<Pair>, n: nat,
                                     d: Delta)
    requires InRange(a, b, pairs) && n <= |pairs|
    ensures d in ChangeDeltas(safe, a, b, pairs, n) <==> exists p :: p in pairs[..n] && Change(safe, a, b, p, d)
    decreases n
  {
    hide PairDeltas, ChangeSays;
    if n > 0 {
      InChanges(safe, a, b, pairs, n - 1, d);
      assert pairs[n - 1] in pairs;
      assert pairs[..n] == pairs[..n - 1] + [pairs[n - 1]];
      assert pairs[n - 1] in pairs[..n];
      PairDeltasSay(safe, a[pairs[n - 1].0], b[pairs[n - 1].1], pairs[n - 1].0, pairs[n - 1].1, d);
    }
  }

  lemma {:induction false} RunningMaxIs(pairs: seq<Pair>, n: nat, x: int)
    requires n <= |pairs| && x >= 0
    ensures x < RunningMax(pairs, n) <==> exists u :: 0 <= u < n && pairs[u].1 > x
    decreases n
  {
    if n > 0 { RunningMaxIs(pairs, n - 1, x); RunningMaxAll(pairs, n - 1); }
  }

  lemma {:induction false} RunningMaxAll(pairs: seq<Pair>, n: nat)
    requires n <= |pairs|
    ensures forall u :: 0 <= u < n ==> pairs[u].1 <= RunningMax(pairs, n)
    decreases n
  {
    if n > 0 { RunningMaxAll(pairs, n - 1); }
  }

  ghost predicate CrossedAt(safe: PyStr -> PyStr, a: seq<Node>, b: seq<Node>, pairs: seq<Pair>, t: nat, d: Delta)
    requires InRange(a, b, pairs) && t < |pairs|
  {
    assert pairs[t] in pairs;
    && d == Reordered(SafeId(safe, Some(a[pairs[t].0].id)), pairs[t].0, pairs[t].1)
    && exists u :: 0 <= u < t && pairs[u].1 > pairs[t].1
  }

  lemma {:induction false} NoReorders(safe: PyStr -> PyStr, a: seq<Node>, b: seq<Node>, pairs: seq<Pair>)
    requires InRange(a, b, pairs)
    ensures ReorderDeltas(safe, a, b, pairs, 0) == []
  {
  }

  lemma {:induction false} InReorders(safe: PyStr -> PyStr, a: seq<Node>, b: seq<Node>, pairs: seq<Pair>, n: nat,
                                      d: Delta)
    requires InRange(a, b, pairs) && n <= |pairs|
    ensures d in ReorderDeltas(safe, a, b, pairs, n) <==> exists t: nat :: t < n && CrossedAt(safe, a, b, pairs, t, d)
    decreases n
  {
    hide *;
    if n == 0 {
      NoReorders(safe, a, b, pairs);
    } else {
      InReorders(safe, a, b, pairs, n - 1, d);
      InReordersStep(safe, a, b, pairs, n - 1, d);
    }
  }

  lemma {:induction false} InReordersStep(safe: PyStr -> PyStr, a: seq<Node>, b: seq<Node>, pairs: seq<Pair>, n: nat,
                                          d: Delta)
    requires InRange(a, b, pairs) && n < |pairs|
    ensures d in ReorderDeltas(safe, a, b, pairs, n + 1) <==>
            d in ReorderDeltas(safe, a, b, pairs, n) || CrossedAt(safe, a, b, pairs, n, d)
  {
    hide RunningMax, SafeId;
    assert pairs[n] in pairs;
    RunningMaxIs(pairs, n, pairs[n].1);
    var x := Reordered(SafeId(safe, Some(a[pairs[n].0].id)), pairs[n].0, pairs[n].1);
    assert CrossedAt(safe, a, b, pairs, n, d) <==> pairs[n].1 < RunningMax(pairs, n) && d == x;
    assert ReorderDeltas(safe, a, b, pairs, n + 1) ==
      ReorderDeltas(safe, a, b, pairs, n) + (if pairs[n].1 < RunningMax(pairs, n) then [x] else []);
    hide ReorderDeltas, CrossedAt;
  }

  lemma {:induction false} InjectiveMembers(pairs: seq<Pair>, p: Pair, q: Pair)
    requires Injective(pairs) && p in pairs && q in pairs && (p.0 == q.0 || p.1 == q.1)
    ensures p == q
  {
    var s :| 0 <= s < |pairs| && pairs[s] == p;
    var t :| 0 <= t < |pairs| && pairs[t] == q;
    assert !(s < t) && !(t < s);
  }

  lemma {:induction false} CrossedIsOvertaken(safe: PyStr -> PyStr, a: seq<Node>, b: seq<Node>, pairs: seq<Pair>,
                                              t: nat, d: Delta)
    requires InRange(a, b, SortPairs(pairs)) && Injective(pairs)
    requires t < |SortPairs(pairs)| && CrossedAt(safe, a, b, SortPairs(pairs), t, d)
    ensures Reorder(safe, a, pairs, d)
  {
    hide SafeId;
    var s := SortPairs(pairs);
    SortPairsSame(pairs);
    SortPairsSorted(pairs);
    hide SortPairs;
    var u :| 0 <= u < t && s[u].1 > s[t].1;
    assert s[u] in s && s[t] in s;
    assert !PairLess(s[t], s[u]);
    InjectiveApart(pairs, s[u], s[t]);
  }

  lemma {:induction false} InjectiveApart(pairs: seq<Pair>, p: Pair, q: Pair)
    requires Injective(pairs) && p in pairs && q in pairs && p != q
    ensures p.0 != q.0
  {
    hide Injective;
    if p.0 == q.0 { InjectiveMembers(pairs, p, q); }
  }

  lemma {:induction false} OvertakenIsCrossed(safe: PyStr -> PyStr, a: seq<Node>, b: seq<Node>, pairs: seq<Pair>,
                                              d: Delta)
    requires InRange(a, b, SortPairs(pairs)) && Reorder(safe, a, pairs, d)
    ensures exists t: nat :: t < |SortPairs(pairs)| && CrossedAt(safe, a, b, SortPairs(pairs), t, d)
  {
    hide SafeId;
    var s := SortPairs(pairs);
    SortPairsSame(pairs);
    SortPairsSorted(pairs);
    hide SortPairs;
    var p := (d.aIndex, d.bIndex);
    var q :| q in pairs && q.0 < p.0 && q.1 > p.1;
    var t: nat :| t < |s| && s[t] == p;
    var u: nat :| u < |s| && s[u] == q;
    assert PairLess(q, p);
    assert u < t;
    assert CrossedAt(safe, a, b, s, t, d);
  }

  /** In the sorted list, crossed means overtaken. */
  lemma {:induction false} CrossedIffOvertaken(safe: PyStr -> PyStr, a: seq<Node>, b: seq<Node>, pairs: seq<Pair>,
                                               d: Delta)
    requires Injective(pairs) && InRange(a, b, SortPairs(pairs))
    ensures var s := SortPairs(pairs);
            (exists t: nat :: t < |s| && CrossedAt(safe, a, b, s, t, d)) <==> Reorder(safe, a, pairs, d)
  {
    hide Injective, Reorder, CrossedAt, SortPairs;
    if t: nat :| t < |SortPairs(pairs)| && CrossedAt(safe, a, b, SortPairs(pairs), t, d) {
      CrossedIsOvertaken(safe, a, b, pairs, t, d);
    }
    if Reorder(safe, a, pairs, d) { OvertakenIsCrossed(safe, a, b, pairs, d); }
  }

  lemma {:induction false} InRemoved(safe: PyStr -> PyStr, a: seq<Node>, removed: seq<nat>, n: nat, d: Delta)
    requires (forall t :: 0 <= t < |removed| ==> removed[t] < |a|) && n <= |removed|
    ensures d in RemovedDeltas(safe, a, removed, n) <==> Removal(safe, a, removed[..n], d)
    decreases n
  {
    if n > 0 {
      InRemoved(safe, a, removed, n - 1, d);
      assert removed[..n] == removed[..n - 1] + [removed[n - 1]];
    }
  }

  ghost predicate AddedBelow(safe: PyStr -> PyStr, b: seq<Node>, taken: set<nat>, n: nat, d: Delta)
    requires n <= |b|
  {
    && d.Added? && d.bIndex < n && d.bIndex !in taken
    && d.eventId == SafeId(safe, Some(b[d.bIndex].id)) && d.kind == b[d.bIndex].kind
  }

  lemma {:induction false} InAddedBelow(safe: PyStr -> PyStr, b: seq<Node>, taken: set<nat>, n: nat, d: Delta)
    requires n <= |b|
    ensures d in AddedDeltas(safe, b, taken, n) <==> AddedBelow(safe, b, taken, n, d)
    decreases n
  {
    hide SafeId;
    if n > 0 { InAddedBelow(safe, b, taken, n - 1, d); }
  }

  lemma {:induction false} InAdded(safe: PyStr -> PyStr, b: seq<Node>, taken: set<nat>, d: Delta)
    ensures d in AddedDeltas(safe, b, taken, |b|) <==> Addition(safe, b, Free(|b|, taken), d)
  {
    hide SafeId, AddedDeltas, Free;
    InAddedBelow(safe, b, taken, |b|, d);
  }

  lemma {:induction false} InsertDeltaSame(d: Delta, ds: seq<Delta>)
    ensures multiset(InsertDelta(d, ds)) == multiset(ds) + multiset{d}
    decreases |ds|
  {
    if ds != [] && !Before(d, ds[0]) {
      InsertDeltaSame(d, ds[1..]);
      assert ds == [ds[0]] + ds[1..];
    }
  }

  lemma {:induction false} SortDeltasSame(ds: seq<Delta>)
    ensures multiset(SortDeltas(ds)) == multiset(ds)
    decreases |ds|
  {
    hide *;
    SortDeltasMore(ds);
    if ds != [] {
      var front, d := ds[..|ds| - 1], ds[|ds| - 1];
      SortDeltasSame(front);
      InsertDeltaSame(d, SortDeltas(front));
      LastApart(front, d);
      assert ds == front + [d];
    }
  }

  lemma {:induction false} SortDeltasMore(ds: seq<Delta>)
    ensures SortDeltas(ds) == if ds == [] then ds else InsertDelta(ds[|ds| - 1], SortDeltas(ds[..|ds| - 1]))
  {
    hide InsertDelta;
  }

  lemma {:induction false} LastApart(ds: seq<Delta>, d: Delta)
    ensures multiset(ds + [d]) == multiset(ds) + multiset{d}
  {
  }

  // ----- No delta comes twice -----

  lemma {:induction false} DistinctOnce<T>(s: seq<T>, x: T)
    requires forall i, j :: 0 <= i < j < |s| ==> s[i] != s[j]
    ensures multiset(s)[x] <= 1
    decreases |s|
  {
    if s != [] {
      var n := |s| - 1;
      assert s == s[..n] + [s[n]];
      DistinctOnce(s[..n], x);
      if x == s[n] { assert x !in s[..n]; }
    }
  }

  lemma {:induction false} OnceDistinct<T>(s: seq<T>, i: nat, j: nat)
    requires i < j < |s| && multiset(s)[s[i]] <= 1
    ensures s[i] != s[j]
  {
    assert s == s[..j] + s[j..];
    assert s[i] in multiset(s[..j]) && s[j] in multiset(s[j..]);
  }

  lemma {:induction false} InsertPairMultiset(p: Pair, pairs: seq<Pair>)
    ensures multiset(InsertPair(p, pairs)) == multiset(pairs) + multiset{p}
    decreases |pairs|
  {
    if pairs != [] && !PairLess(p, pairs[0]) {
      InsertPairMultiset(p, pairs[1..]);
      assert pairs == [pairs[0]] + pairs[1..];
    }
  }

  lemma {:induction false} SortPairsMultiset(pairs: seq<Pair>)
    ensures multiset(SortPairs(pairs)) == multiset(pairs)
    decreases |pairs|
  {
    if pairs != [] {
      SortPairsMultiset(pairs[1..]);
      InsertPairMultiset(pairs[0], SortPairs(pairs[1..]));
      assert pairs == [pairs[0]] + pairs[1..];
    }
  }

  lemma {:induction false} SortedDistinct(pairs: seq<Pair>, i: nat, j: nat)
    requires Injective(pairs) && i < j < |SortPairs(pairs)|
    ensures SortPairs(pairs)[i] != SortPairs(pairs)[j]
  {
    SortPairsMultiset(pairs);
    DistinctOnce(pairs, SortPairs(pairs)[i]);
    hide SortPairs;
    OnceDistinct(SortPairs(pairs), i, j);
  }

  lemma {:induction false} SortedNoRepeat(pairs: seq<Pair>)
    requires Injective(pairs)
    ensures NoRepeat(SortPairs(pairs))
  {
    hide Injective, SortPairs;
    forall i: nat, j: nat | i < j < |SortPairs(pairs)| ensures SortPairs(pairs)[i] != SortPairs(pairs)[j] {
      SortedDistinct(pairs, i, j);
    }
  }

  /** A change names its pair. */
  lemma {:induction false} ChangeOf(safe: PyStr -> PyStr, a: seq<Node>, b: seq<Node>, p: Pair, d: Delta)
    requires Change(safe, a, b, p, d)
    ensures (d.KindChanged? || d.ParentRelinked? || d.ContentChanged?) && (d.aIndex, d.bIndex) == p
  {
    hide SafeId, Head16;
  }

  lemma {:induction false} PairDeltasOnce(safe: PyStr -> PyStr, x: Node, y: Node, i: nat, j: nat, d: Delta)
    ensures multiset(PairDeltas(safe, x, y, i, j))[d] <= 1
  {
    hide SafeId, Take16;
    DistinctOnce(PairDeltas(safe, x, y, i, j), d);
  }

  lemma {:induction false} JoinedOnce<T>(s: seq<T>, t: seq<T>, d: T)
    requires multiset(s)[d] <= 1 && multiset(t)[d] <= 1 && !(d in s && d in t)
    ensures multiset(s + t)[d] <= 1
  {
    assert d in s <==> d in multiset(s);
    assert d in t <==> d in multiset(t);
  }

  lemma {:induction false} OneMoreOnce<T>(s: seq<T>, more: bool, x: T, d: T)
    requires multiset(s)[d] <= 1 && x !in s
    ensures multiset(s + (if more then [x] else []))[d] <= 1
  {
    if more { JoinedOnce(s, [x], d); } else { JoinedOnce(s, [], d); }
  }

  lemma {:induction false} ChangesOnce(safe: PyStr -> PyStr, a: seq<Node>, b: seq<Node>, pairs: seq<Pair>, n: nat,
                                       d: Delta)
    requires InRange(a, b, pairs) && Injective(pairs) && n <= |pairs|
    ensures multiset(ChangeDeltas(safe, a, b, pairs, n))[d] <= 1
    decreases n
  {
    hide PairDeltas, ChangeSays;
    if n > 0 {
      var p := pairs[n - 1];
      assert p in pairs;
      var before, own := ChangeDeltas(safe, a, b, pairs, n - 1), PairDeltas(safe, a[p.0], b[p.1], p.0, p.1);
      PairDeltasSay(safe, a[p.0], b[p.1], p.0, p.1, d);
      assert d in own <==> Change(safe, a, b, p, d);
      ChangesOnce(safe, a, b, pairs, n - 1, d);
      hide Change;
      PairDeltasOnce(safe, a[p.0], b[p.1], p.0, p.1, d);
      InChanges(safe, a, b, pairs, n - 1, d);
      if d in before { OtherPair(safe, a, b, pairs, n - 1, d); }
      JoinedOnce(before, own, d);
    }
  }

  /** An earlier pair's change is not a later pair's. */
  lemma {:induction false} OtherPair(safe: PyStr -> PyStr, a: seq<Node>, b: seq<Node>, pairs: seq<Pair>, n: nat,
                                     d: Delta)
    requires InRange(a, b, pairs) && Injective(pairs) && n < |pairs|
    requires exists p :: p in pairs[..n] && Change(safe, a, b, p, d)
    ensures !Change(safe, a, b, pairs[n], d)
  {
    hide Change;
    var p :| p in pairs[..n] && Change(safe, a, b, p, d);
    ChangeOf(safe, a, b, p, d);
    if Change(safe, a, b, pairs[n], d) { ChangeOf(safe, a, b, pairs[n], d); }
  }

  lemma {:induction false} CrossedNames(safe: PyStr -> PyStr, a: seq<Node>, b: seq<Node>, pairs: seq<Pair>, t: nat,
                                        d: Delta)
    requires InRange(a, b, pairs) && t < |pairs| && CrossedAt(safe, a, b, pairs, t, d)
    ensures d.Reordered? && (d.aIndex, d.bIndex) == pairs[t]
  {
    hide SafeId;
  }

  ghost predicate NoRepeat(pairs: seq<Pair>) {
    forall i, j :: 0 <= i < j < |pairs| ==> pairs[i] != pairs[j]
  }

  lemma {:induction false} FreshReorder(safe: PyStr -> PyStr, a: seq<Node>, b: seq<Node>, pairs: seq<Pair>, n: nat,
                                        d: Delta)
    requires InRange(a, b, pairs) && n < |pairs| && NoRepeat(pairs)
    requires d.Reordered? && (d.aIndex, d.bIndex) == pairs[n]
    ensures d !in ReorderDeltas(safe, a, b, pairs, n)
  {
    hide ReorderDeltas, CrossedAt;
    InReorders(safe, a, b, pairs, n, d);
    if t: nat :| t < n && CrossedAt(safe, a, b, pairs, t, d) { CrossedNames(safe, a, b, pairs, t, d); }
  }

  /** The delta that pair `n` may add. */
  function ReorderAt(safe: PyStr -> PyStr, a: seq<Node>, pairs: seq<Pair>, n: nat): Delta
    requires n < |pairs| && pairs[n].0 < |a|
  {
    Reordered(SafeId(safe, Some(a[pairs[n].0].id)), pairs[n].0, pairs[n].1)
  }

  lemma {:induction false} ReordersStep(safe: PyStr -> PyStr, a: seq<Node>, b: seq<Node>, pairs: seq<Pair>, n: nat)
    requires InRange(a, b, pairs) && n < |pairs|
    ensures pairs[n].0 < |a|
    ensures ReorderDeltas(safe, a, b, pairs, n + 1) ==
            ReorderDeltas(safe, a, b, pairs, n) +
            (if pairs[n].1 < RunningMax(pairs, n) then [ReorderAt(safe, a, pairs, n)] else [])
    ensures ReorderAt(safe, a, pairs, n).Reordered?
    ensures (ReorderAt(safe, a, pairs, n).aIndex, ReorderAt(safe, a, pairs, n).bIndex) == pairs[n]
    ensures ReorderDeltas(safe, a, b, pairs, 0) == []
  {
    hide SafeId, RunningMax;
    assert pairs[n] in pairs;
  }

  lemma {:induction false} ReordersOnce(safe: PyStr -> PyStr, a: seq<Node>, b: seq<Node>, pairs: seq<Pair>, n: nat,
                                        d: Delta)
    requires InRange(a, b, pairs) && n <= |pairs| && NoRepeat(pairs)
    ensures multiset(ReorderDeltas(safe, a, b, pairs, n))[d] <= 1
    decreases n
  {
    hide *;
    if n == 0 {
      NoReorders(safe, a, b, pairs);
    } else {
      ReordersStep(safe, a, b, pairs, n - 1);
      var x := ReorderAt(safe, a, pairs, n - 1);
      ReordersOnce(safe, a, b, pairs, n - 1, d);
      FreshReorder(safe, a, b, pairs, n - 1, x);
      OneMoreOnce(ReorderDeltas(safe, a, b, pairs, n - 1), pairs[n - 1].1 < RunningMax(pairs, n - 1), x, d);
    }
  }

  lemma {:induction false} RemovedOnce(safe: PyStr -> PyStr, a: seq<Node>, removed: seq<nat>, n: nat, d: Delta)
    requires (forall t :: 0 <= t < |removed| ==> removed[t] < |a|) && n <= |removed| && Ascending(removed)
    ensures multiset(RemovedDeltas(safe, a, removed, n))[d] <= 1
    decreases n
  {
    hide SafeId;
    if n > 0 {
      var x := Removed(SafeId(safe, Some(a[removed[n - 1]].id)), removed[n - 1], a[removed[n - 1]].kind);
      RemovedOnce(safe, a, removed, n - 1, d);
      InRemoved(safe, a, removed, n - 1, x);
      OneMoreOnce(RemovedDeltas(safe, a, removed, n - 1), true, x, d);
    }
  }

  lemma {:induction false} AddedStep(safe: PyStr -> PyStr, b: seq<Node>, taken: set<nat>, n: nat) returns (x: Delta)
    requires n < |b|
    ensures x == Added(SafeId(safe, Some(b[n].id)), n, b[n].kind) && x !in AddedDeltas(safe, b, taken, n)
    ensures AddedDeltas(safe, b, taken, n + 1) == AddedDeltas(safe, b, taken, n) + (if n !in taken then [x] else [])
  {
    hide SafeId;
    x := Added(SafeId(safe, Some(b[n].id)), n, b[n].kind);
    InAddedBelow(safe, b, taken, n, x);
  }

  lemma {:induction false} NoneAdded(safe: PyStr -> PyStr, b: seq<Node>, taken: set<nat>)
    ensures AddedDeltas(safe, b, taken, 0) == []
  {
  }

  lemma {:induction false} AddedOnce(safe: PyStr -> PyStr, b: seq<Node>, taken: set<nat>, n: nat, d: Delta)
    requires n <= |b|
    ensures multiset(AddedDeltas(safe, b, taken, n))[d] <= 1
    decreases n
  {
    hide *;
    if n == 0 {
      NoneAdded(safe, b, taken);
    } else {
      AddedOnce(safe, b, taken, n - 1, d);
      var x := AddedStep(safe, b, taken, n - 1);
      OneMoreOnce(AddedDeltas(safe, b, taken, n - 1), n - 1 !in taken, x, d);
    }
  }

  /** The four parts of the list hold deltas of different kinds. */
  lemma {:induction false} OfOneKind(safe: PyStr -> PyStr, a: seq<Node>, b: seq<Node>, d: Delta)
    ensures var al := Align(a, b);
            && ((exists p :: p in al.Pairs() && Change(safe, a, b, p, d)) ==>
                  d.KindChanged? || d.ParentRelinked? || d.ContentChanged?)
            && (Reorder(safe, a, al.Pairs(), d) ==> d.Reordered?)
            && (Removal(safe, a, al.removed, d) ==> d.Removed?)
            && (Addition(safe, b, al.added, d) ==> d.Added?)
  {
    hide Align, Change, Overtaken, SafeId;
    if p :| p in Align(a, b).Pairs() && Change(safe, a, b, p, d) { ChangeOf(safe, a, b, p, d); }
  }

  /** Every part of the list holds a delta at most once. */
  lemma {:induction false} PartsOnce(safe: PyStr -> PyStr, a: seq<Node>, b: seq<Node>, d: Delta)
    ensures var al, pairs := Align(a, b), Align(a, b).Pairs();
            && InRange(a, b, pairs) && InRange(a, b, SortPairs(pairs))
            && (forall t :: 0 <= t < |al.removed| ==> al.removed[t] < |a|)
            && multiset(ChangeDeltas(safe, a, b, pairs, |pairs|))[d] <= 1
            && multiset(ReorderDeltas(safe, a, b, SortPairs(pairs), |SortPairs(pairs)|))[d] <= 1
            && multiset(RemovedDeltas(safe, a, al.removed, |al.removed|))[d] <= 1
            && multiset(AddedDeltas(safe, b, Seconds(al.pass1) + Seconds(al.pass2), |b|))[d] <= 1
  {
    hide *;
    var al, pairs := Align(a, b), Align(a, b).Pairs();
    AlignInRange(a, b);
    SortedInRange(a, b, pairs);
    PairsInjective(a, b);
    LeftoversAscend(a, b);
    SortedNoRepeat(pairs);
    ChangesOnce(safe, a, b, pairs, |pairs|, d);
    ReordersOnce(safe, a, b, SortPairs(pairs), |SortPairs(pairs)|, d);
    RemovedOnce(safe, a, al.removed, |al.removed|, d);
    AddedOnce(safe, b, Seconds(al.pass1) + Seconds(al.pass2), |b|, d);
  }

  lemma {:induction false} SortedInRange(a: seq<Node>, b: seq<Node>, pairs: seq<Pair>)
    requires InRange(a, b, pairs)
    ensures InRange(a, b, SortPairs(pairs))
  {
    SortPairsSame(pairs);
  }

  /** What each part of the list holds. */
  lemma {:induction false} PartsHold(safe: PyStr -> PyStr, a: seq<Node>, b: seq<Node>, d: Delta)
    ensures var al, pairs := Align(a, b), Align(a, b).Pairs();
            && InRange(a, b, pairs) && InRange(a, b, SortPairs(pairs))
            && (forall t :: 0 <= t < |al.removed| ==> al.removed[t] < |a|)
            && (d in ChangeDeltas(safe, a, b, pairs, |pairs|) <==> exists p :: p in pairs && Change(safe, a, b, p, d))
            && (d in ReorderDeltas(safe, a, b, SortPairs(pairs), |SortPairs(pairs)|) <==> Reorder(safe, a, pairs, d))
            && (d in RemovedDeltas(safe, a, al.removed, |al.removed|) <==> Removal(safe, a, al.removed, d))
            && (d in AddedDeltas(safe, b, Seconds(al.pass1) + Seconds(al.pass2), |b|) <==>
                  Addition(safe, b, al.added, d))
  {
    hide Align, Change, Reorder, Removal, Addition, ChangeDeltas, ReorderDeltas, RemovedDeltas, AddedDeltas, SortPairs,
      Injective, Seconds, CrossedAt;
    var al := Align(a, b);
    var pairs := al.Pairs();
    AlignInRange(a, b);
    SortedInRange(a, b, pairs);
    PairsInjective(a, b);
    InChanges(safe, a, b, pairs, |pairs|, d);
    assert pairs[..|pairs|] == pairs;
    InReorders(safe, a, b, SortPairs(pairs), |SortPairs(pairs)|, d);
    CrossedIffOvertaken(safe, a, b, pairs, d);
    InRemoved(safe, a, al.removed, |al.removed|, d);
    assert al.removed[..|al.removed|] == al.removed;
    InAdded(safe, b, Seconds(al.pass1) + Seconds(al.pass2), d);
    AddedIsFree(a, b);
  }

  /** The deltas are exactly the expected ones, each of them once. */
  lemma {:induction false} DeltasAreExpected(safe: PyStr -> PyStr, a: seq<Node>, b: seq<Node>, d: Delta)
    ensures multiset(DiffOf(safe, a, b))[d] == if Expected(safe, a, b, d) then 1 else 0
  {
    hide Align, Change, Reorder, Removal, Addition, ChangeDeltas, ReorderDeltas, RemovedDeltas, AddedDeltas, SortPairs,
      SortDeltas, Seconds, InRange;
    SortDeltasSame(Collected(safe, a, b));
    PartsOnce(safe, a, b, d);
    PartsHold(safe, a, b, d);
    OfOneKind(safe, a, b, d);
    CountParts(safe, a, b, d);
  }

  lemma {:induction false} CountParts(safe: PyStr -> PyStr, a: seq<Node>, b: seq<Node>, d: Delta)
    requires var al, pairs := Align(a, b), Align(a, b).Pairs();
             && InRange(a, b, pairs) && InRange(a, b, SortPairs(pairs))
             && forall t :: 0 <= t < |al.removed| ==> al.removed[t] < |a|
    ensures var al, pairs := Align(a, b), Align(a, b).Pairs();
            multiset(Collected(safe, a, b))[d] ==
            multiset(ChangeDeltas(safe, a, b, pairs, |pairs|))[d] +
            multiset(ReorderDeltas(safe, a, b, SortPairs(pairs), |SortPairs(pairs)|))[d] +
            multiset(RemovedDeltas(safe, a, al.removed, |al.removed|))[d] +
            multiset(AddedDeltas(safe, b, Seconds(al.pass1) + Seconds(al.pass2), |b|))[d]
  {
    hide Align, ChangeDeltas, ReorderDeltas, RemovedDeltas, AddedDeltas, SortPairs, Seconds, InRange;
  }

  lemma {:induction false} DeltaMembers(safe: PyStr -> PyStr, a: seq<Node>, b: seq<Node>, d: Delta)
    ensures d in DiffOf(safe, a, b) <==> Expected(safe, a, b, d)
  {
    hide DiffOf, Expected;
    DeltasAreExpected(safe, a, b, d);
    assert d in DiffOf(safe, a, b) <==> d in multiset(DiffOf(safe, a, b));
  }

  lemma {:induction false} AddedIsFree(a: seq<Node>, b: seq<Node>)
    ensures var al := Align(a, b); al.added == Free(|b|, Seconds(al.pass1) + Seconds(al.pass2))
  {
  }

  // ----- Order of the deltas -----

  /** The categories in the order of the report: `e` never stands behind something later. */
  ghost predicate EarlierCategory(d: Delta, e: Delta) {
    match d
    case Added(_, _, _) => !e.Added?
    case Removed(_, _, _) => e.KindChanged? || e.ParentRelinked? || e.Reordered? || e.ContentChanged?
    case KindChanged(_, _, _, _, _) => e.ParentRelinked? || e.Reordered? || e.ContentChanged?
    case ParentRelinked(_, _, _, _, _) => e.Reordered? || e.ContentChanged?
    case Reordered(_, _, _) => e.ContentChanged?
    case ContentChanged(_, _, _, _, _) => false
  }

  /** Two deltas of one category. */
  ghost predicate SameCategory(d: Delta, e: Delta) {
    (d.Added? && e.Added?) || (d.Removed? && e.Removed?) || (d.KindChanged? && e.KindChanged?)
    || (d.ParentRelinked? && e.ParentRelinked?) || (d.Reordered? && e.Reordered?)
    || (d.ContentChanged? && e.ContentChanged?)
  }

  /** The place of a delta within its category: the left index, then the right one, as far as it has them. */
  ghost predicate EarlierPlace(d: Delta, e: Delta)
    requires SameCategory(d, e)
  {
    if d.Added? then d.bIndex < e.bIndex
    else if d.Removed? then d.aIndex < e.aIndex
    else d.aIndex < e.aIndex || (d.aIndex == e.aIndex && d.bIndex < e.bIndex)
  }

  ghost predicate SamePlace(d: Delta, e: Delta)
    requires SameCategory(d, e)
  {
    (d.Removed? || d.bIndex == e.bIndex) && (d.Added? || d.aIndex == e.aIndex)
  }

  /** `d` may stand before `e`: by category, then by place, then by id. */
  ghost predicate MayPrecede(d: Delta, e: Delta) {
    EarlierCategory(d, e) ||
    (SameCategory(d, e) && (EarlierPlace(d, e) || (SamePlace(d, e) && (d.eventId == e.eventId ||
                                                                      Precedes(d.eventId, e.eventId)))))
  }

  lemma {:induction false} OrderIs(d: Delta, e: Delta)
    ensures !Before(e, d) <==> MayPrecede(d, e)
  {
    LessIs(d.eventId, e.eventId);
    LessTotal(d.eventId, e.eventId);
    hide Less, Precedes;
  }

  ghost predicate DeltasSorted(ds: seq<Delta>) {
    forall s, t :: 0 <= s < t < |ds| ==> !Before(ds[t], ds[s])
  }

  lemma {:induction false} NotBeforeTransitive(x: Delta, y: Delta, z: Delta)
    requires !Before(y, x) && !Before(z, y)
    ensures !Before(z, x)
  {
    LessTotal(x.eventId, y.eventId);
    LessTotal(y.eventId, z.eventId);
    LessTotal(x.eventId, z.eventId);
    if Less(x.eventId, y.eventId) && Less(y.eventId, z.eventId) { LessTransitive(x.eventId, y.eventId, z.eventId); }
    hide Less;
  }

  lemma {:induction false} InsertDeltaSorted(d: Delta, ds: seq<Delta>)
    requires DeltasSorted(ds)
    ensures DeltasSorted(InsertDelta(d, ds))
    decreases |ds|
  {
    hide Before;
    if ds != [] {
      if Before(d, ds[0]) {
        forall t | 0 <= t < |ds| ensures !Before(ds[t], d) {
          BeforeAsymmetric(d, ds[0]);
          if t > 0 { NotBeforeTransitive(d, ds[0], ds[t]); }
        }
      } else {
        InsertDeltaSorted(d, ds[1..]);
        var r := InsertDelta(d, ds[1..]);
        forall t | 0 <= t < |r| ensures !Before(r[t], ds[0]) {
          InsertDeltaSame(d, ds[1..]);
          assert r[t] in multiset(r);
          if r[t] != d {
            assert r[t] in multiset(ds[1..]);
            assert r[t] in ds[1..];
            var u :| 0 <= u < |ds[1..]| && ds[1..][u] == r[t];
            assert ds[u + 1] == r[t];
          }
        }
      }
    }
  }

  lemma {:induction false} BeforeAsymmetric(d: Delta, e: Delta)
    requires Before(d, e)
    ensures !Before(e, d)
  {
    LessTotal(d.eventId, e.eventId);
    hide Less;
  }

  lemma {:induction false} DeltasAreSorted(safe: PyStr -> PyStr, a: seq<Node>, b: seq<Node>)
    ensures InOrder(DiffOf(safe, a, b))
  {
    SortDeltasSorted(Collected(safe, a, b));
    assert DiffOf(safe, a, b) == SortDeltas(Collected(safe, a, b));
    hide *;
    SortedInOrder(DiffOf(safe, a, b));
  }

  ghost predicate InOrder(ds: seq<Delta>) {
    forall s, t :: 0 <= s < t < |ds| ==> MayPrecede(ds[s], ds[t])
  }

  lemma {:induction false} SortedInOrder(ds: seq<Delta>)
    requires DeltasSorted(ds)
    ensures InOrder(ds)
  {
    hide Before, MayPrecede;
    forall s, t | 0 <= s < t < |ds| ensures MayPrecede(ds[s], ds[t]) { OrderIs(ds[s], ds[t]); }
  }

  lemma {:induction false} SortDeltasSorted(ds: seq<Delta>)
    ensures DeltasSorted(SortDeltas(ds))
    decreases |ds|
  {
    if ds != [] {
      SortDeltasSorted(ds[..|ds| - 1]);
      InsertDeltaSorted(ds[|ds| - 1], SortDeltas(ds[..|ds| - 1]));
    }
  }

  // ----- No difference -----

  lemma {:induction false} SelfPairs(a: seq<Node>, i: nat, j: nat)
    ensures (i, j) in Align(a, a).Pairs() <==> i == j < |a|
  {
    hide Pass1, LeftA, LeftB, SameOccurrence;
    forall x: nat, y: nat ensures (x, y) in Pass1(a, a) <==> x == y < |a| {
      Pass1PairsOccurrences(a, a, x, y);
      SelfOccurrence(IdKeys(a), x, y);
    }
    forall x: nat ensures x !in LeftA(a, a) {
      FirstPassLeft(a, a, x);
      if x < |a| { assert (x, x).0 in Firsts(Pass1(a, a)); }
    }
    SomeMember(LeftA(a, a));
  }

  lemma {:induction false} SomeMember(s: seq<nat>)
    ensures s != [] ==> exists x: nat :: x in s
  {
    if s != [] { assert s[0] in s; }
  }

  lemma {:induction false} SelfOccurrence(ks: seq<Key>, x: nat, y: nat)
    ensures SameOccurrence(ks, x, ks, y) <==> x == y < |ks|
  {
    hide Rank;
    if SameOccurrence(ks, x, ks, y) { OccurrenceUnique(ks, x, y, ks, y); }
  }

  /** Comparing a list with itself finds nothing, whatever its ids are. */
  lemma {:induction false} SelfDiffEmpty(safe: PyStr -> PyStr, a: seq<Node>)
    ensures DiffOf(safe, a, a) == []
  {
    hide Align, DiffOf, Firsts, Seconds;
    var ds := DiffOf(safe, a, a);
    if ds != [] {
      DeltaMembers(safe, a, a, ds[0]);
    }
    forall d ensures !Expected(safe, a, a, d) { NothingExpected(safe, a, d); }
  }

  lemma {:induction false} NothingExpected(safe: PyStr -> PyStr, a: seq<Node>, d: Delta)
    ensures !Expected(safe, a, a, d)
  {
    hide Align;
    var al := Align(a, a);
    forall p | p in al.Pairs() ensures p.0 == p.1 < |a| { SelfPairs(a, p.0, p.1); }
    forall i: nat ensures i !in al.removed && i !in al.added {
      SelfPairs(a, i, i);
      RemovedCovers(a, a, i);
      AddedCovers(a, a, i);
      if i < |a| { assert (i, i).0 in Firsts(al.Pairs()) && (i, i).1 in Seconds(al.Pairs()); }
    }
  }

  lemma {:induction false} PairThere(pairs: seq<Pair>, i: nat)
    ensures i in Firsts(pairs) ==> exists j: nat :: (i, j) in pairs
    ensures i in Seconds(pairs) ==> exists j: nat :: (j, i) in pairs
  {
    if i in Firsts(pairs) {
      var p :| p in pairs && p.0 == i;
      assert (i, p.1) in pairs;
    }
    if i in Seconds(pairs) {
      var p :| p in pairs && p.1 == i;
      assert (p.0, i) in pairs;
    }
  }

  /** A bijection between initial segments that never crosses itself is the identity. */
  lemma {:induction false} NoCrossingIsIdentity(pairs: seq<Pair>, n: nat, m: nat, i: nat)
    requires Injective(pairs) && (forall p :: p in pairs ==> !Overtaken(pairs, p))
    requires (forall x: nat :: x < n <==> x in Firsts(pairs)) && (forall y: nat :: y < m <==> y in Seconds(pairs)) &&
               i < n
    ensures (i, i) in pairs && i < m
    decreases i
  {
    hide Injective, Firsts, Seconds, Overtaken;
    forall x: nat | x < i ensures (x, x) in pairs { NoCrossingIsIdentity(pairs, n, m, x); }
    PairThere(pairs, i);
    var j: nat :| (i, j) in pairs;
    if j < i {
      InjectiveMembers(pairs, (i, j), (j, j));
    } else if i < j {
      SecondInRange(pairs, (i, j));
      PairThere(pairs, i);
      var g: nat :| (g, i) in pairs;
      if g < i { InjectiveMembers(pairs, (g, i), (g, g)); }
      if g == i { InjectiveMembers(pairs, (g, i), (i, j)); }
      Crossing(pairs, (i, j), (g, i));
    } else {
      SecondInRange(pairs, (i, j));
    }
  }

  lemma {:induction false} SecondInRange(pairs: seq<Pair>, p: Pair)
    requires p in pairs
    ensures p.1 in Seconds(pairs) && p.0 in Firsts(pairs)
  {
  }

  lemma {:induction false} Crossing(pairs: seq<Pair>, q: Pair, p: Pair)
    requires q in pairs && p in pairs && !Overtaken(pairs, p)
    ensures !(q.0 < p.0 && q.1 > p.1)
  {
  }

  /** Under a digest that covers the id, no difference means equal lists, for any pattern of duplicate ids. */
  lemma {:induction false} DiffEmptyIff(safe: PyStr -> PyStr, a: seq<Node>, b: seq<Node>)
    requires DigestCoversId(a, b)
    ensures DiffOf(safe, a, b) == [] <==> a == b
  {
    hide DiffOf, DigestCoversId;
    if a == b { SelfDiffEmpty(safe, a); }
    if DiffOf(safe, a, b) == [] {
      forall d ensures !Expected(safe, a, b, d) { DeltaMembers(safe, a, b, d); }
      NothingLeft(safe, a, b);
      NothingCrossed(safe, a, b);
      SecondPassIdle(a, b);
      hide Align, Expected;
      SameLists(safe, a, b);
    }
  }

  lemma {:induction false} NothingLeft(safe: PyStr -> PyStr, a: seq<Node>, b: seq<Node>)
    requires forall d :: !Expected(safe, a, b, d)
    ensures Align(a, b).removed == [] && Align(a, b).added == []
  {
    hide Align, Firsts, Seconds, SafeId, Change, Reorder;
    var al := Align(a, b);
    if al.removed != [] {
      var i := al.removed[0];
      assert i in al.removed;
      RemovedCovers(a, b, i);
      var d := Removed(SafeId(safe, Some(a[i].id)), i, a[i].kind);
      assert Expected(safe, a, b, d) <==> true by { assert Removal(safe, a, al.removed, d); }
    }
    if al.added != [] {
      var j := al.added[0];
      assert j in al.added;
      AddedCovers(a, b, j);
      var d := Added(SafeId(safe, Some(b[j].id)), j, b[j].kind);
      assert Expected(safe, a, b, d) <==> true by { assert Addition(safe, b, al.added, d); }
    }
  }

  lemma {:induction false} NothingCrossed(safe: PyStr -> PyStr, a: seq<Node>, b: seq<Node>)
    requires forall d :: !Expected(safe, a, b, d)
    ensures forall p :: p in Align(a, b).Pairs() ==> !Overtaken(Align(a, b).Pairs(), p)
    ensures forall p :: p in Align(a, b).Pairs() ==>
              && p.0 < |a| && p.1 < |b| && a[p.0].kind == b[p.1].kind
              && a[p.0].parent == b[p.1].parent && a[p.0].digest == b[p.1].digest
  {
    hide Align, SafeId, Removal, Addition, Overtaken;
    var al := Align(a, b);
    forall p | p in al.Pairs()
      ensures p.0 < |a| && p.1 < |b| && a[p.0].kind == b[p.1].kind && a[p.0].parent == b[p.1].parent &&
                a[p.0].digest == b[p.1].digest
      ensures !Overtaken(al.Pairs(), p)
    {
      PairsInRange(a, b, p);
      var d := Reordered(SafeId(safe, Some(a[p.0].id)), p.0, p.1);
      assert !Expected(safe, a, b, d);
      assert !Reorder(safe, a, al.Pairs(), d);
      forall d ensures !Change(safe, a, b, p, d) { assert !Expected(safe, a, b, d); }
      NothingSaid(safe, a, b, p);
    }
  }

  /** A pair without a change agrees in kind, parent and digest. */
  lemma {:induction false} NothingSaid(safe: PyStr -> PyStr, a: seq<Node>, b: seq<Node>, p: Pair)
    requires p.0 < |a| && p.1 < |b| && forall d :: !Change(safe, a, b, p, d)
    ensures a[p.0].kind == b[p.1].kind && a[p.0].parent == b[p.1].parent && a[p.0].digest == b[p.1].digest
  {
    var ds := PairDeltas(safe, a[p.0], b[p.1], p.0, p.1);
    if ds != [] {
      assert ds[0] in ds;
      PairDeltasSay(safe, a[p.0], b[p.1], p.0, p.1, ds[0]);
      assert Change(safe, a, b, p, ds[0]);
    }
  }

  lemma {:induction false} SameLists(safe: PyStr -> PyStr, a: seq<Node>, b: seq<Node>)
    requires var al := Align(a, b); al.removed == [] && al.added == [] && al.pass2 == []
    requires forall p :: p in Align(a, b).Pairs() ==> !Overtaken(Align(a, b).Pairs(), p)
    requires forall p :: p in Align(a, b).Pairs() ==>
              && p.0 < |a| && p.1 < |b| && a[p.0].kind == b[p.1].kind
              && a[p.0].parent == b[p.1].parent && a[p.0].digest == b[p.1].digest
    ensures a == b
  {
    hide Align, Overtaken, Firsts, Seconds, Injective;
    var al := Align(a, b);
    var pairs := al.Pairs();
    PairsInjective(a, b);
    forall x: nat ensures (x < |a| <==> x in Firsts(pairs)) && (x < |b| <==> x in Seconds(pairs)) {
      RemovedCovers(a, b, x);
      AddedCovers(a, b, x);
    }
    forall i: nat | i < |a| ensures i < |b| && a[i] == b[i] {
      NoCrossingIsIdentity(pairs, |a|, |b|, i);
      AlignPairs(a, b);
      assert (i, i) in pairs && pairs == al.pass1;
      Pass1Ends(a, b, (i, i));
    }
    NoneBeyond(pairs, |a|, |b|);
    if |a| > 0 { NoCrossingIsIdentity(pairs, |a|, |b|, |a| - 1); }
    assert |a| == |b|;
  }

  lemma {:induction false} NoneBeyond(pairs: seq<Pair>, n: nat, m: nat)
    requires Injective(pairs) && (forall p :: p in pairs ==> !Overtaken(pairs, p))
    requires (forall x: nat :: x < n <==> x in Firsts(pairs)) && (forall y: nat :: y < m <==> y in Seconds(pairs))
    ensures m <= n
  {
    hide Overtaken, Firsts, Seconds, Injective;
    if n < m {
      PairThere(pairs, n);
      var g: nat :| (g, n) in pairs;
      SecondInRange(pairs, (g, n));
      NoCrossingIsIdentity(pairs, n, m, g);
      InjectiveMembers(pairs, (g, n), (g, g));
    }
  }

  // ----- The comparator itself -----

  function Leftovers(safe: PyStr -> PyStr, a: seq<Node>, b: seq<Node>, removed: seq<nat>, taken: set<nat>): seq<Delta>
    requires forall t :: 0 <= t < |removed| ==> removed[t] < |a|
  {
    RemovedDeltas(safe, a, removed, |removed|) + AddedDeltas(safe, b, taken, |b|)
  }

  lemma {:induction false} CollectedIs(safe: PyStr -> PyStr, a: seq<Node>, b: seq<Node>)
    ensures var al := Align(a, b);
            InRange(a, b, al.Pairs()) && InRange(a, b, SortPairs(al.Pairs()))
            && (forall t :: 0 <= t < |al.removed| ==> al.removed[t] < |a|)
    ensures var al := Align(a, b);
            DiffOf(safe, a, b) == SortDeltas(
              ChangeDeltas(safe, a, b, al.Pairs(), |al.Pairs()|) +
              ReorderDeltas(safe, a, b, SortPairs(al.Pairs()), |SortPairs(al.Pairs())|) +
              Leftovers(safe, a, b, al.removed, Seconds(Pass1(a, b)) + Seconds(al.pass2)))
  {
    hide ChangeDeltas, ReorderDeltas, RemovedDeltas, AddedDeltas, SortDeltas, SortPairs, Align, Seconds, Pass1;
    AlignInRange(a, b);
    AlignPairs(a, b);
    SortedInRange(a, b, Align(a, b).Pairs());
    var al := Align(a, b);
    var pairs := al.Pairs();
    var x := ChangeDeltas(safe, a, b, pairs, |pairs|);
    var y := ReorderDeltas(safe, a, b, SortPairs(pairs), |SortPairs(pairs)|);
    var z := RemovedDeltas(safe, a, al.removed, |al.removed|);
    var w := AddedDeltas(safe, b, Seconds(al.pass1) + Seconds(al.pass2), |b|);
    assert x + y + z + w == x + y + (z + w);
  }

  method EmitReorders(safe: PyStr -> PyStr, a: seq<Node>, b: seq<Node>, sorted: seq<Pair>) returns (deltas: seq<Delta>)
    requires InRange(a, b, sorted)
    ensures deltas == ReorderDeltas(safe, a, b, sorted, |sorted|)
  {
    hide SafeId;
    deltas := [];
    var runningMax: int := -1;
    for n := 0 to |sorted|
      invariant deltas == ReorderDeltas(safe, a, b, sorted, n) && runningMax == RunningMax(sorted, n)
    {
      var (i, j) := sorted[n];
      assert sorted[n] in sorted;
      if j < runningMax {
        deltas := deltas + [Reordered(SafeId(safe, Some(a[i].id)), i, j)];
      } else {
        runningMax := j;
      }
    }
  }

  method EmitLeftovers(safe: PyStr -> PyStr, a: seq<Node>, b: seq<Node>, removed: seq<nat>, matchedB: set<nat>)
    returns (deltas: seq<Delta>)
    requires forall t :: 0 <= t < |removed| ==> removed[t] < |a|
    ensures deltas == Leftovers(safe, a, b, removed, matchedB)
  {
    hide SafeId;
    deltas := [];
    for n := 0 to |removed|
      invariant deltas == RemovedDeltas(safe, a, removed, n)
    {
      var i := removed[n];
      deltas := deltas + [Removed(SafeId(safe, Some(a[i].id)), i, a[i].kind)];
    }
    ghost var before := deltas;
    for j := 0 to |b|
      invariant deltas == before + AddedDeltas(safe, b, matchedB, j)
    {
      if j !in matchedB {
        deltas := deltas + [Added(SafeId(safe, Some(b[j].id)), j, b[j].kind)];
      }
    }
  }
}
