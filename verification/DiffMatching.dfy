/** Two-pass first-come matching of two event lists. */
module DiffMatching {
  import opened Options
  import opened PyText

  /** A matching key: the event id, or the fallback triple. */
  datatype Key = ById(id: PyStr) | ByContent(kind: PyStr, parent: PyStr, digest: PyStr)

  type Pair = (nat, nat)

  ghost predicate Ascending(s: seq<nat>) {
    forall i, j :: 0 <= i < j < |s| ==> s[i] < s[j]
  }

  /** The positions of `x`, in order. */
  function Slots(keys: seq<Key>, x: Key): (s: seq<nat>)
    ensures forall p :: p in s <==> 0 <= p < |keys| && keys[p] == x
    ensures Ascending(s)
  {
    if keys == [] then []
    else
      var n := |keys| - 1;
      var s := Slots(keys[..n], x);
      assert forall i :: 0 <= i < |s| ==> s[i] in s;
      s + (if keys[n] == x then [n] else [])
  }

  /** How many earlier positions hold the same key. */
  function Rank(keys: seq<Key>, i: nat): nat
    requires i < |keys|
  {
    |Slots(keys[..i], keys[i])|
  }

  /** The occurrence in `kb` that position `i` of `ka` is paired with. */
  function Partner(ka: seq<Key>, kb: seq<Key>, i: nat): Option<nat>
    requires i < |ka|
  {
    var s := Slots(kb, ka[i]);
    if Rank(ka, i) < |s| then Some(s[Rank(ka, i)]) else None
  }

  /** Both positions hold the `k`-th occurrence of the same key. */
  ghost predicate SameOccurrence(ka: seq<Key>, i: nat, kb: seq<Key>, j: nat) {
    i < |ka| && j < |kb| && ka[i] == kb[j] && Rank(ka, i) == Rank(kb, j)
  }

  lemma {:induction false} SlotsPrefix(keys: seq<Key>, i: nat, x: Key)
    requires i <= |keys|
    ensures |Slots(keys[..i], x)| <= |Slots(keys, x)|
    ensures Slots(keys, x)[..|Slots(keys[..i], x)|] == Slots(keys[..i], x)
    decreases |keys|
  {
    if i == |keys| {
      assert keys[..i] == keys;
    } else {
      var n := |keys| - 1;
      SlotsPrefix(keys[..n], i, x);
      assert keys[..n][..i] == keys[..i];
    }
  }

  /** The slot at place `Rank(keys, i)` is `i` itself. */
  lemma {:induction false} SlotAtRank(keys: seq<Key>, i: nat)
    requires i < |keys|
    ensures Rank(keys, i) < |Slots(keys, keys[i])| && Slots(keys, keys[i])[Rank(keys, i)] == i
  {
    var x := keys[i];
    SlotsPrefix(keys, i + 1, x);
    assert keys[..i + 1][..i] == keys[..i];
    assert Slots(keys[..i + 1], x) == Slots(keys[..i], x) + [i];
    var s := Slots(keys, x);
    assert s[..Rank(keys, i) + 1][Rank(keys, i)] == i;
  }

  lemma {:induction false} RankOfSlot(keys: seq<Key>, x: Key, r: nat)
    requires r < |Slots(keys, x)|
    ensures var j := Slots(keys, x)[r]; j < |keys| && keys[j] == x && Rank(keys, j) == r
  {
    var s := Slots(keys, x);
    var j := s[r];
    assert j in s;
    SlotAtRank(keys, j);
    assert s[Rank(keys, j)] == j == s[r];
  }

  /** Partners are the positions that hold the same occurrence. */
  lemma {:induction false} PartnerIs(ka: seq<Key>, kb: seq<Key>, i: nat, j: nat)
    requires i < |ka|
    ensures Partner(ka, kb, i) == Some(j) <==> SameOccurrence(ka, i, kb, j)
  {
    hide Slots, Rank;
    var s := Slots(kb, ka[i]);
    if Rank(ka, i) < |s| { RankOfSlot(kb, ka[i], Rank(ka, i)); }
    if j < |kb| { SlotAtRank(kb, j); }
  }

  lemma {:induction false} OccurrenceUnique(ka: seq<Key>, i: nat, i': nat, kb: seq<Key>, j: nat)
    requires SameOccurrence(ka, i, kb, j) && SameOccurrence(ka, i', kb, j)
    ensures i == i'
  {
    hide Slots, Rank;
    SlotAtRank(ka, i);
    SlotAtRank(ka, i');
  }

  /** Two positions with the same key are not both left over. */
  lemma {:induction false} OneIsPaired(ka: seq<Key>, kb: seq<Key>, i: nat, j: nat)
    requires i < |ka| && j < |kb| && ka[i] == kb[j]
    ensures (exists j': nat :: SameOccurrence(ka, i, kb, j')) || (exists i': nat :: SameOccurrence(ka, i', kb, j))
  {
    hide Slots, Rank;
    var x := ka[i];
    var sa, sb := Slots(ka, x), Slots(kb, x);
    SlotAtRank(ka, i);
    SlotAtRank(kb, j);
    if Rank(ka, i) < |sb| {
      RankOfSlot(kb, x, Rank(ka, i));
      assert SameOccurrence(ka, i, kb, sb[Rank(ka, i)]);
    } else {
      RankOfSlot(ka, x, Rank(kb, j));
      assert SameOccurrence(ka, sa[Rank(kb, j)], kb, j);
    }
  }

  // ----- One pass -----

  /** The pairs of the first `n` entries of the left side. */
  function PairsOf(ia: seq<nat>, ka: seq<Key>, ib: seq<nat>, kb: seq<Key>, n: nat): seq<Pair>
    requires |ia| == |ka| && |ib| == |kb| && n <= |ia|
  {
    if n == 0 then []
    else
      var before := PairsOf(ia, ka, ib, kb, n - 1);
      match Partner(ka, kb, n - 1)
      case Some(t) => PartnerIs(ka, kb, n - 1, t); before + [(ia[n - 1], ib[t])]
      case None => before
  }

  function LeftOf(ia: seq<nat>, ka: seq<Key>, kb: seq<Key>, n: nat): seq<nat>
    requires |ia| == |ka| && n <= |ia|
  {
    if n == 0 then []
    else LeftOf(ia, ka, kb, n - 1) + (if Partner(ka, kb, n - 1).None? then [ia[n - 1]] else [])
  }

  function Seconds(pairs: seq<Pair>): set<nat> {
    set p | p in pairs :: p.1
  }

  lemma {:induction false} SecondsMore(pairs: seq<Pair>, p: Pair)
    ensures Seconds(pairs + [p]) == Seconds(pairs) + {p.1}
  {
    assert p in pairs + [p];
    forall j | j in Seconds(pairs) + {p.1} ensures j in Seconds(pairs + [p]) {
      if j in Seconds(pairs) {
        var q :| q in pairs && q.1 == j;
        assert q in pairs + [p];
      }
    }
  }

  /** The indices below `n` that are not taken. */
  function Free(n: nat, taken: set<nat>): (free: seq<nat>)
    ensures Ascending(free)
    ensures forall j: nat :: j in free <==> j < n && j !in taken
  {
    if n == 0 then []
    else
      var free := Free(n - 1, taken);
      assert forall i :: 0 <= i < |free| ==> free[i] in free;
      free + (if n - 1 in taken then [] else [n - 1])
  }

  function SkipTaken(bucket: seq<nat>, taken: set<nat>): seq<nat> {
    if bucket != [] && bucket[0] in taken then SkipTaken(bucket[1..], taken) else bucket
  }

  /** `while bucket and bucket[0] in matched_b: bucket.popleft()` */
  method PopTaken(bucket: seq<nat>, taken: set<nat>) returns (rest: seq<nat>)
    ensures rest == SkipTaken(bucket, taken)
  {
    rest := bucket;
    while rest != [] && rest[0] in taken
      invariant SkipTaken(rest, taken) == SkipTaken(bucket, taken)
      decreases |rest|
    {
      rest := rest[1..];
    }
  }

  function Pick(ib: seq<nat>, slots: seq<nat>): seq<nat>
    requires forall p :: p in slots ==> p < |ib|
  {
    seq(|slots|, t requires 0 <= t < |slots| => assert slots[t] in slots; ib[slots[t]])
  }

  function Bucket(buckets: map<Key, seq<nat>>, x: Key): seq<nat> {
    if x in buckets then buckets[x] else []
  }

  function Min(x: nat, y: nat): nat {
    if x < y then x else y
  }

  /** What is left in the bucket of `x` after `n` entries of the left side. */
  function Waiting(ka: seq<Key>, ib: seq<nat>, kb: seq<Key>, n: nat, x: Key): seq<nat>
    requires |ib| == |kb| && n <= |ka|
  {
    var all := Slots(kb, x);
    var rest := all[Min(|Slots(ka[..n], x)|, |all|)..];
    assert forall p :: p in rest ==> p in all;
    Pick(ib, rest)
  }

  lemma {:induction false} NothingWaitingIsTaken(ia: seq<nat>, ka: seq<Key>, ib: seq<nat>, kb: seq<Key>, n: nat,
                                                 taken: set<nat>)
    requires |ia| == |ka| && |ib| == |kb| && n < |ka| && Ascending(ib) && forall t :: 0 <= t < |ib| ==> ib[t] !in taken
    ensures var w := Waiting(ka, ib, kb, n, ka[n]);
            SkipTaken(w, taken + Seconds(PairsOf(ia, ka, ib, kb, n))) == w
  {
    hide Slots, PairsOf, Seconds;
    var w := Waiting(ka, ib, kb, n, ka[n]);
    if w != [] {
      var all := Slots(kb, ka[n]);
      var r := Rank(ka, n);
      assert r < |all| && all[r] in all && w[0] == ib[all[r]];
      assert Partner(ka, kb, n) == Some(all[r]);
      PartnerIs(ka, kb, n, all[r]);
      NotYetPaired(ia, ka, ib, kb, n, n, all[r]);
    }
  }

  /** An earlier entry is never paired with the partner of a later one. */
  lemma {:induction false} NotYetPaired(ia: seq<nat>, ka: seq<Key>, ib: seq<nat>, kb: seq<Key>, n: nat, i: nat, j: nat)
    requires |ia| == |ka| && |ib| == |kb| && n <= i < |ka| && Ascending(ib) && SameOccurrence(ka, i, kb, j)
    ensures ib[j] !in Seconds(PairsOf(ia, ka, ib, kb, n))
    decreases n
  {
    hide Slots, Rank;
    if n > 0 {
      NotYetPaired(ia, ka, ib, kb, n - 1, i, j);
      var before := PairsOf(ia, ka, ib, kb, n - 1);
      if Partner(ka, kb, n - 1).Some? {
        var t := Partner(ka, kb, n - 1).value;
        PartnerIs(ka, kb, n - 1, t);
        SecondsMore(before, (ia[n - 1], ib[t]));
        if t == j { OccurrenceUnique(ka, n - 1, i, kb, j); }
        assert t < j || j < t;
      }
    }
  }

  lemma {:induction false} WaitingNext(ka: seq<Key>, ib: seq<nat>, kb: seq<Key>, n: nat, x: Key)
    requires |ib| == |kb| && n < |ka|
    ensures var w, v := Waiting(ka, ib, kb, n, x), Waiting(ka, ib, kb, n + 1, x);
            v == if x == ka[n] && w != [] then w[1..] else w
  {
    SlotsMore(ka, n, x);
    hide Slots;
  }

  /** The entry waiting first is the partner. */
  lemma {:induction false} PartnerWaits(ka: seq<Key>, ib: seq<nat>, kb: seq<Key>, n: nat)
    requires |ib| == |kb| && n < |ka|
    ensures var w, p := Waiting(ka, ib, kb, n, ka[n]), Partner(ka, kb, n);
            && (w != [] <==> p.Some?)
            && (p.Some? ==> p.value < |ib| && w[0] == ib[p.value])
  {
    hide Slots;
    var all := Slots(kb, ka[n]);
    if Rank(ka, n) < |all| {
      assert all[Rank(ka, n)] in all;
    }
  }

  /** The buckets hold what is left after `n` entries of the left side. */
  ghost predicate BucketsAt(buckets: map<Key, seq<nat>>, ka: seq<Key>, ib: seq<nat>, kb: seq<Key>, n: nat)
    requires |ib| == |kb| && n <= |ka|
  {
    forall x :: Bucket(buckets, x) == Waiting(ka, ib, kb, n, x)
  }

  lemma {:induction false} TakeStep(buckets: map<Key, seq<nat>>, ka: seq<Key>, ib: seq<nat>, kb: seq<Key>, n: nat)
    requires |ib| == |kb| && n < |ka| && BucketsAt(buckets, ka, ib, kb, n)
    ensures var bucket, p := Bucket(buckets, ka[n]), Partner(ka, kb, n);
            && BucketsAt(if bucket != [] then buckets[ka[n] := bucket[1..]] else buckets, ka, ib, kb, n + 1)
            && (bucket != [] <==> p.Some?) && (p.Some? ==> p.value < |ib| && bucket[0] == ib[p.value])
            && bucket == Waiting(ka, ib, kb, n, ka[n])
  {
    hide Waiting, Partner;
    var bucket := Bucket(buckets, ka[n]);
    var next := if bucket != [] then buckets[ka[n] := bucket[1..]] else buckets;
    PartnerWaits(ka, ib, kb, n);
    forall x ensures Bucket(next, x) == Waiting(ka, ib, kb, n + 1, x) { WaitingNext(ka, ib, kb, n, x); }
  }

  lemma {:induction false} TakeOne(buckets: map<Key, seq<nat>>, ka: seq<Key>, ib: seq<nat>, kb: seq<Key>, n: nat)
    requires |ib| == |kb| && n < |ka| && BucketsAt(buckets, ka, ib, kb, n) && Bucket(buckets, ka[n]) != []
    ensures BucketsAt(buckets[ka[n] := Bucket(buckets, ka[n])[1..]], ka, ib, kb, n + 1)
    ensures var p := Partner(ka, kb, n); p.Some? && p.value < |ib| && Bucket(buckets, ka[n])[0] == ib[p.value]
  {
    hide *;
    TakeStep(buckets, ka, ib, kb, n);
  }

  lemma {:induction false} TakeNone(buckets: map<Key, seq<nat>>, ka: seq<Key>, ib: seq<nat>, kb: seq<Key>, n: nat)
    requires |ib| == |kb| && n < |ka| && BucketsAt(buckets, ka, ib, kb, n) && Bucket(buckets, ka[n]) == []
    ensures BucketsAt(buckets, ka, ib, kb, n + 1) && Partner(ka, kb, n).None?
  {
    hide *;
    TakeStep(buckets, ka, ib, kb, n);
  }

  lemma {:induction false} NoneTaken(buckets: map<Key, seq<nat>>, ia: seq<nat>, ka: seq<Key>, ib: seq<nat>,
                                     kb: seq<Key>, n: nat, taken: set<nat>)
    requires |ia| == |ka| && |ib| == |kb| && n < |ka| && Ascending(ib) && forall t :: 0 <= t < |ib| ==> ib[t] !in taken
    requires BucketsAt(buckets, ka, ib, kb, n)
    ensures var bucket := Bucket(buckets, ka[n]);
            SkipTaken(bucket, taken + Seconds(PairsOf(ia, ka, ib, kb, n))) == bucket
  {
    hide *;
    TakeStep(buckets, ka, ib, kb, n);
    NothingWaitingIsTaken(ia, ka, ib, kb, n, taken);
  }

  lemma {:induction false} TakenMore(taken: set<nat>, pairs: seq<Pair>, p: Pair)
    ensures taken + Seconds(pairs + [p]) == taken + Seconds(pairs) + {p.1}
  {
    hide Seconds;
    SecondsMore(pairs, p);
  }

  lemma {:induction false} PairStep(ia: seq<nat>, ka: seq<Key>, ib: seq<nat>, kb: seq<Key>, n: nat)
    requires |ia| == |ka| && |ib| == |kb| && n < |ka|
    ensures var p, before := Partner(ka, kb, n), PairsOf(ia, ka, ib, kb, n);
            && (p.Some? ==> p.value < |ib|)
            && PairsOf(ia, ka, ib, kb, n + 1) == (if p.Some? then before + [(ia[n], ib[p.value])] else before)
            && LeftOf(ia, ka, kb, n + 1) == LeftOf(ia, ka, kb, n) + (if p.None? then [ia[n]] else [])
  {
    hide Partner;
    if Partner(ka, kb, n).Some? { PartnerIs(ka, kb, n, Partner(ka, kb, n).value); }
  }

  /** One pass: the left entries in order take the earliest waiting right entry with the same key. */
  method PairUp(ia: seq<nat>, ka: seq<Key>, ib: seq<nat>, kb: seq<Key>, taken: set<nat>)
    returns (pairs: seq<Pair>, left: seq<nat>, matched: set<nat>)
    requires |ia| == |ka| && |ib| == |kb| && Ascending(ib) && forall t :: 0 <= t < |ib| ==> ib[t] !in taken
    ensures pairs == PairsOf(ia, ka, ib, kb, |ia|) && left == LeftOf(ia, ka, kb, |ia|)
    ensures matched == taken + Seconds(pairs)
  {
    var buckets := FillBuckets(ib, kb);
    pairs, left, matched := [], [], taken;
    AllWaiting(buckets, ka, ib, kb);
    NoSeconds();
    assert PairsOf(ia, ka, ib, kb, 0) == [] && LeftOf(ia, ka, kb, 0) == [];
    hide BucketsAt, Bucket, Waiting, Partner, Seconds, SkipTaken, PairsOf, LeftOf, Ascending;
    for n := 0 to |ia|
      invariant pairs == PairsOf(ia, ka, ib, kb, n) && left == LeftOf(ia, ka, kb, n)
      invariant matched == taken + Seconds(pairs)
      invariant BucketsAt(buckets, ka, ib, kb, n)
    {
      NoneTaken(buckets, ia, ka, ib, kb, n, taken);
      PairStep(ia, ka, ib, kb, n);
      var bucket := PopTaken(Bucket(buckets, ka[n]), matched);
      if bucket != [] {
        TakeOne(buckets, ka, ib, kb, n);
        var j := bucket[0];
        TakenMore(taken, pairs, (ia[n], j));
        buckets := buckets[ka[n] := bucket[1..]];
        matched := matched + {j};
        pairs := pairs + [(ia[n], j)];
      } else {
        TakeNone(buckets, ka, ib, kb, n);
        left := left + [ia[n]];
      }
    }
  }

  lemma {:induction false} NoSeconds()
    ensures Seconds([]) == {}
  {
  }

  lemma {:induction false} AllWaiting(buckets: map<Key, seq<nat>>, ka: seq<Key>, ib: seq<nat>, kb: seq<Key>)
    requires |ib| == |kb| && Filled(buckets, ib, kb, |ib|)
    ensures BucketsAt(buckets, ka, ib, kb, 0)
  {
    assert ka[..0] == [] && kb[..|ib|] == kb;
    forall x ensures Bucket(buckets, x) == Waiting(ka, ib, kb, 0, x) {
      assert Slots(ka[..0], x) == [];
      assert Slots(kb, x)[0..] == Slots(kb, x);
    }
  }

  /** Each bucket holds the right entries of its key among the first `t`, in order. */
  ghost predicate Filled(buckets: map<Key, seq<nat>>, ib: seq<nat>, kb: seq<Key>, t: nat)
    requires |ib| == |kb| && t <= |ib|
  {
    forall x :: Bucket(buckets, x) == Pick(ib, Slots(kb[..t], x))
  }

  lemma {:induction false} PickMore(ib: seq<nat>, slots: seq<nat>, t: nat)
    requires t < |ib| && forall p :: p in slots ==> p < |ib|
    ensures Pick(ib, slots + [t]) == Pick(ib, slots) + [ib[t]]
  {
  }

  lemma {:induction false} SlotsMore(kb: seq<Key>, t: nat, x: Key)
    requires t < |kb|
    ensures Slots(kb[..t + 1], x) == Slots(kb[..t], x) + (if kb[t] == x then [t] else [])
  {
    assert kb[..t + 1][..t] == kb[..t];
  }

  lemma {:induction false} NoneFilled(ib: seq<nat>, kb: seq<Key>)
    requires |ib| == |kb|
    ensures Filled(map[], ib, kb, 0)
  {
    assert kb[..0] == [];
  }

  lemma {:induction false} FillStep(buckets: map<Key, seq<nat>>, ib: seq<nat>, kb: seq<Key>, t: nat)
    requires |ib| == |kb| && t < |ib| && Filled(buckets, ib, kb, t)
    ensures Filled(buckets[kb[t] := Bucket(buckets, kb[t]) + [ib[t]]], ib, kb, t + 1)
  {
    var next := buckets[kb[t] := Bucket(buckets, kb[t]) + [ib[t]]];
    hide Slots, Pick;
    forall x ensures Bucket(next, x) == Pick(ib, Slots(kb[..t + 1], x)) {
      SlotsMore(kb, t, x);
      PickMore(ib, Slots(kb[..t], x), t);
      assert Bucket(buckets, x) == Pick(ib, Slots(kb[..t], x));
      assert Slots(kb[..t], x) + [] == Slots(kb[..t], x);
    }
  }

  /** `b_by_id.setdefault(key, deque()).append(j)` for every right entry. */
  method FillBuckets(ib: seq<nat>, kb: seq<Key>) returns (buckets: map<Key, seq<nat>>)
    requires |ib| == |kb|
    ensures Filled(buckets, ib, kb, |ib|)
  {
    buckets := map[];
    NoneFilled(ib, kb);
    hide *;
    for t := 0 to |ib|
      invariant Filled(buckets, ib, kb, t)
    {
      FillStep(buckets, ib, kb, t);
      buckets := buckets[kb[t] := Bucket(buckets, kb[t]) + [ib[t]]];
    }
  }
}
