/** The comparator on events. */
module DiffEvents {
  import opened Options
  import opened PyText
  import opened JsonValues
  import opened SessionModel
  import opened SessionRoundTrip
  import opened Identity
  import opened Diff
  import opened DiffMatching
  import opened Utf8

  predicate Hashed(ev: Event) {
    ContentBytes(ev).Some?
  }

  predicate AllHashable(events: seq<Event>) {
    forall i :: 0 <= i < |events| ==> Hashed(events[i])
  }

  /** `content_identity_hash()`, nothing when it raises. */
  function IdentityHash(hash: seq<byte> -> PyStr, ev: Event): Option<PyStr> {
    if Hashed(ev) then Some(hash(ContentBytes(ev).value)) else None
  }

  /** The parts of the events that are compared; an event that has no hash stands with an empty one. */
  function Nodes(hash: seq<byte> -> PyStr, events: seq<Event>): (ns: seq<Node>)
    ensures |ns| == |events|
    ensures forall i :: 0 <= i < |events| ==> ns[i] == NodeOf(hash, events[i])
  {
    seq(|events|, i requires 0 <= i < |events| => NodeOf(hash, events[i]))
  }

  function NodeOf(hash: seq<byte> -> PyStr, ev: Event): Node {
    Node(ev.id, ev.kind, ev.parentId, if IdentityHash(hash, ev).Some? then IdentityHash(hash, ev).value else [])
  }

  // ----- The comparator -----

  function EventIds(events: seq<Event>): (ks: seq<Key>)
    ensures |ks| == |events| && forall i :: 0 <= i < |events| ==> ks[i] == ById(events[i].id)
  {
    seq(|events|, i requires 0 <= i < |events| => ById(events[i].id))
  }

  /** `_fallback_key(ev)`, nothing when the hash in it raises. */
  function EventKey(hash: seq<byte> -> PyStr, ev: Event): (k: Option<Key>)
    ensures k.Some? <==> Hashed(ev)
    ensures k.Some? ==> k.value == FallbackKey(NodeOf(hash, ev))
  {
    match IdentityHash(hash, ev)
    case Some(digest) => Some(ByContent(ev.kind, if ev.parentId.Some? then ev.parentId.value else [], digest))
    case None => None
  }

  /** The keys of the events at some indices: each of them is hashed. */
  method FallbackKeys(hash: seq<byte> -> PyStr, events: seq<Event>, at: seq<nat>) returns (keys: Option<seq<Key>>)
    requires forall t :: 0 <= t < |at| ==> at[t] < |events|
    ensures keys.Some? <==> forall t :: 0 <= t < |at| ==> Hashed(events[at[t]])
    ensures keys.Some? ==> keys.value == ContentKeys(Nodes(hash, events), at)
  {
    hide *;
    var ks: seq<Key> := [];
    for t := 0 to |at|
      invariant |ks| == t && forall u :: 0 <= u < t ==> EventKey(hash, events[at[u]]) == Some(ks[u])
    {
      var key := EventKey(hash, events[at[t]]);
      if key.None? {
        return None;
      }
      ks := ks + [key.value];
    }
    KeysAre(hash, events, at, ks);
    return Some(ks);
  }

  lemma {:induction false} KeysAre(hash: seq<byte> -> PyStr, events: seq<Event>, at: seq<nat>, ks: seq<Key>)
    requires forall t :: 0 <= t < |at| ==> at[t] < |events|
    requires |ks| == |at| && forall t :: 0 <= t < |at| ==> EventKey(hash, events[at[t]]) == Some(ks[t])
    ensures ks == ContentKeys(Nodes(hash, events), at) && forall t :: 0 <= t < |at| ==> Hashed(events[at[t]])
  {
    hide *;
    var ns := Nodes(hash, events);
    forall t | 0 <= t < |at| ensures ks[t] == FallbackKey(ns[at[t]]) && Hashed(events[at[t]]) {
      assert EventKey(hash, events[at[t]]) == Some(ks[t]);
    }
  }

  ghost predicate PairsHashed(a: seq<Event>, b: seq<Event>, pairs: seq<Pair>, n: nat)
    requires n <= |pairs| && forall p :: p in pairs ==> p.0 < |a| && p.1 < |b|
  {
    forall t :: 0 <= t < n ==> pairs[t] in pairs && Hashed(a[pairs[t].0]) && Hashed(b[pairs[t].1])
  }

  lemma {:induction false} RangeOfNodes(hash: seq<byte> -> PyStr, a: seq<Event>, b: seq<Event>, pairs: seq<Pair>)
    requires InRange(Nodes(hash, a), Nodes(hash, b), pairs)
    ensures forall p :: p in pairs ==> p.0 < |a| && p.1 < |b|
  {
  }

  /** The changes of one pair: both its events are hashed. */
  method PairChanges(hash: seq<byte> -> PyStr, safe: PyStr -> PyStr, ea: Event, eb: Event, i: nat, j: nat)
    returns (deltas: Option<seq<Delta>>)
    ensures deltas.Some? <==> Hashed(ea) && Hashed(eb)
    ensures deltas.Some? ==> deltas.value == PairDeltas(safe, NodeOf(hash, ea), NodeOf(hash, eb), i, j)
  {
    hide SafeId, Take16, Hashed;
    var id := SafeId(safe, Some(ea.id));
    var kinds, parents, contents: seq<Delta> := [], [], [];
    if ea.kind != eb.kind {
      kinds := [KindChanged(id, i, j, ea.kind, eb.kind)];
    }
    if ea.parentId != eb.parentId {
      parents := [ParentRelinked(id, i, j, SafeId(safe, ea.parentId), SafeId(safe, eb.parentId))];
    }
    var x, y := IdentityHash(hash, ea), IdentityHash(hash, eb);
    if x.None? || y.None? {
      return None;
    }
    if x.value != y.value {
      contents := [ContentChanged(id, i, j, Take16(x.value), Take16(y.value))];
    }
    return Some(kinds + parents + contents);
  }

  lemma {:induction false} NoChanges(hash: seq<byte> -> PyStr, safe: PyStr -> PyStr, a: seq<Event>, b: seq<Event>,
                                     pairs: seq<Pair>)
    requires InRange(Nodes(hash, a), Nodes(hash, b), pairs) && forall p :: p in pairs ==> p.0 < |a| && p.1 < |b|
    ensures PairsHashed(a, b, pairs, 0) && ChangeDeltas(safe, Nodes(hash, a), Nodes(hash, b), pairs, 0) == []
  {
    hide Hashed, PairDeltas;
  }

  lemma {:induction false} OnePairMore(hash: seq<byte> -> PyStr, safe: PyStr -> PyStr, a: seq<Event>, b: seq<Event>,
                                       pairs: seq<Pair>, n: nat)
    requires InRange(Nodes(hash, a), Nodes(hash, b), pairs) && n < |pairs|
    ensures pairs[n].0 < |a| && pairs[n].1 < |b| && forall p :: p in pairs ==> p.0 < |a| && p.1 < |b|
    ensures PairsHashed(a, b, pairs, n + 1) <==>
            PairsHashed(a, b, pairs, n) && Hashed(a[pairs[n].0]) && Hashed(b[pairs[n].1])
    ensures PairsHashed(a, b, pairs, |pairs|) ==> PairsHashed(a, b, pairs, n + 1)
    ensures ChangeDeltas(safe, Nodes(hash, a), Nodes(hash, b), pairs, n + 1) ==
            ChangeDeltas(safe, Nodes(hash, a), Nodes(hash, b), pairs, n) +
            PairDeltas(safe, NodeOf(hash, a[pairs[n].0]), NodeOf(hash, b[pairs[n].1]), pairs[n].0, pairs[n].1)
  {
    hide Hashed, NodeOf, PairDeltas;
    assert pairs[n] in pairs;
  }

  /** The changes within the pairs. */
  method EmitChanges(hash: seq<byte> -> PyStr, safe: PyStr -> PyStr, a: seq<Event>, b: seq<Event>, pairs: seq<Pair>)
    returns (deltas: Option<seq<Delta>>)
    requires InRange(Nodes(hash, a), Nodes(hash, b), pairs)
    ensures forall p :: p in pairs ==> p.0 < |a| && p.1 < |b|
    ensures deltas.Some? <==> PairsHashed(a, b, pairs, |pairs|)
    ensures deltas.Some? ==> deltas.value == ChangeDeltas(safe, Nodes(hash, a), Nodes(hash, b), pairs, |pairs|)
  {
    RangeOfNodes(hash, a, b, pairs);
    NoChanges(hash, safe, a, b, pairs);
    hide *;
    var ds: seq<Delta> := [];
    for n := 0 to |pairs|
      invariant PairsHashed(a, b, pairs, n)
      invariant ds == ChangeDeltas(safe, Nodes(hash, a), Nodes(hash, b), pairs, n)
    {
      OnePairMore(hash, safe, a, b, pairs, n);
      var own := PairChanges(hash, safe, a[pairs[n].0], b[pairs[n].1], pairs[n].0, pairs[n].1);
      if own.None? {
        return None;
      }
      ds := ds + own.value;
    }
    return Some(ds);
  }

  /** The right indices the first pass did not match. */
  method Unmatched(n: nat, matched: set<nat>) returns (free: seq<nat>)
    ensures free == Free(n, matched)
  {
    free := [];
    for j := 0 to n
      invariant free == Free(j, matched)
    {
      if j !in matched {
        free := free + [j];
      }
    }
  }

  /** Every event is hashed at one of these places: as a leftover of the first pass, or in a pair of it. */
  lemma {:induction false} AllReached(hash: seq<byte> -> PyStr, a: seq<Event>, b: seq<Event>)
    requires var x, y := Nodes(hash, a), Nodes(hash, b);
             && (forall i :: i in LeftA(x, y) ==> i < |a| && Hashed(a[i]))
             && (forall j :: j in LeftB(x, y) ==> j < |b| && Hashed(b[j]))
             && (forall p :: p in Pass1(x, y) ==> p.0 < |a| && p.1 < |b| && Hashed(a[p.0]) && Hashed(b[p.1]))
    ensures AllHashable(a) && AllHashable(b)
  {
    hide Hashed, LeftA, LeftB, Pass1;
    var x, y := Nodes(hash, a), Nodes(hash, b);
    forall i: nat | i < |a| ensures Hashed(a[i]) { FirstPassLeft(x, y, i); }
    forall j: nat | j < |b| ensures Hashed(b[j]) { FreeOfPass1(x, y, j); }
  }

  lemma {:induction false} FirstPassIs(hash: seq<byte> -> PyStr, a: seq<Event>, b: seq<Event>)
    ensures var x, y := Nodes(hash, a), Nodes(hash, b);
            && EventIds(a) == IdKeys(x) && EventIds(b) == IdKeys(y)
            && Pass1(x, y) == PairsOf(Range(|a|), EventIds(a), Range(|b|), EventIds(b), |a|)
            && LeftA(x, y) == LeftOf(Range(|a|), EventIds(a), EventIds(b), |a|)
            && LeftB(x, y) == Free(|b|, Seconds(Pass1(x, y)))
    ensures Ascending(Range(|b|))
  {
    var x, y := Nodes(hash, a), Nodes(hash, b);
    assert EventIds(a) == IdKeys(x) && EventIds(b) == IdKeys(y);
    hide PairsOf, LeftOf, Free, Seconds, EventIds, IdKeys;
  }

  lemma {:induction false} SecondPassIs(x: seq<Node>, y: seq<Node>)
    ensures var la, lb := LeftA(x, y), LeftB(x, y);
            var ka, kb := ContentKeys(x, la), ContentKeys(y, lb);
            && Align(x, y).pass2 == PairsOf(la, ka, lb, kb, |la|) && Align(x, y).removed == LeftOf(la, ka, kb, |la|)
            && Align(x, y).Pairs() == Pass1(x, y) + Align(x, y).pass2
            && Ascending(lb) && forall t :: 0 <= t < |lb| ==> lb[t] !in Seconds(Pass1(x, y))
  {
    hide PairsOf, LeftOf, Seconds, Pass1, LeftA;
  }

  lemma {:induction false} NotAll(events: seq<Event>, at: seq<nat>)
    requires (forall t :: 0 <= t < |at| ==> at[t] < |events|) && !(forall t :: 0 <= t < |at| ==> Hashed(events[at[t]]))
    ensures !AllHashable(events)
  {
    hide Hashed;
  }

  lemma {:induction false} NotAllPairs(a: seq<Event>, b: seq<Event>, pairs: seq<Pair>)
    requires (forall p :: p in pairs ==> p.0 < |a| && p.1 < |b|) && !PairsHashed(a, b, pairs, |pairs|)
    ensures !(AllHashable(a) && AllHashable(b))
  {
    hide Hashed;
    var t :| 0 <= t < |pairs| && !(pairs[t] in pairs && Hashed(a[pairs[t].0]) && Hashed(b[pairs[t].1]));
    assert pairs[t] in pairs;
  }

  lemma {:induction false} KeysReached(events: seq<Event>, at: seq<nat>)
    requires (forall t :: 0 <= t < |at| ==> at[t] < |events|) && (forall t :: 0 <= t < |at| ==> Hashed(events[at[t]]))
    ensures forall i :: i in at ==> i < |events| && Hashed(events[i])
  {
    hide Hashed;
  }

  lemma {:induction false} PairsReached(a: seq<Event>, b: seq<Event>, pairs1: seq<Pair>, pairs2: seq<Pair>)
    requires var pairs := pairs1 + pairs2;
             (forall p :: p in pairs ==> p.0 < |a| && p.1 < |b|) && PairsHashed(a, b, pairs, |pairs|)
    ensures forall p :: p in pairs1 ==> p.0 < |a| && p.1 < |b| && Hashed(a[p.0]) && Hashed(b[p.1])
  {
    hide Hashed;
    var pairs := pairs1 + pairs2;
    forall p | p in pairs1 ensures p.0 < |a| && p.1 < |b| && Hashed(a[p.0]) && Hashed(b[p.1]) {
      var t :| 0 <= t < |pairs1| && pairs1[t] == p;
      assert pairs[t] == p && p in pairs;
    }
  }

  /** `diff_events(events_a, events_b)`: it raises exactly when some event has no canonical bytes, wherever that event
      stands, and gives the specified deltas otherwise. */
  method DiffEvents(hash: seq<byte> -> PyStr, safe: PyStr -> PyStr, a: seq<Event>, b: seq<Event>)
    returns (deltas: Option<seq<Delta>>)
    ensures deltas.Some? <==> AllHashable(a) && AllHashable(b)
    ensures deltas.Some? ==> deltas.value == DiffOf(safe, Nodes(hash, a), Nodes(hash, b))
  {
    hide *;
    ghost var x, y := Nodes(hash, a), Nodes(hash, b);
    FirstPassIs(hash, a, b);
    var pairs1, unmatchedA, matched1 := PairUp(Range(|a|), EventIds(a), Range(|b|), EventIds(b), {});
    assert matched1 == Seconds(pairs1);
    var unmatchedB := Unmatched(|b|, matched1);
    assert unmatchedA == LeftA(x, y) && unmatchedB == LeftB(x, y);
    var keysB := FallbackKeys(hash, b, unmatchedB);
    if keysB.None? {
      NotAll(b, unmatchedB);
      return None;
    }
    var keysA := FallbackKeys(hash, a, unmatchedA);
    if keysA.None? {
      NotAll(a, unmatchedA);
      return None;
    }
    KeysReached(b, unmatchedB);
    KeysReached(a, unmatchedA);
    SecondPassIs(x, y);
    var pairs2, still, matchedB := PairUp(unmatchedA, keysA.value, unmatchedB, keysB.value, matched1);
    var pairs := pairs1 + pairs2;
    AlignInRange(x, y);
    assert pairs == Align(x, y).Pairs();
    var changes := EmitChanges(hash, safe, a, b, pairs);
    if changes.None? {
      NotAllPairs(a, b, pairs);
      return None;
    }
    PairsReached(a, b, pairs1, pairs2);
    AllReached(hash, a, b);
    SortedInRange(x, y, pairs);
    var reorders := EmitReorders(safe, Nodes(hash, a), Nodes(hash, b), SortPairs(pairs));
    var leftovers := EmitLeftovers(safe, Nodes(hash, a), Nodes(hash, b), still, matchedB);
    CollectedIs(safe, x, y);
    return Some(SortDeltas(changes.value + reorders + leftovers));
  }

  /** No two different identity preimages of the two lists have the same digest. */
  ghost predicate NoCollision(hash: seq<byte> -> PyStr, a: seq<Event>, b: seq<Event>) {
    forall i, j | 0 <= i < |a| && 0 <= j < |b| && ContentBytes(a[i]).Some? && ContentBytes(b[j]).Some? ::
      hash(ContentBytes(a[i]).value) == hash(ContentBytes(b[j]).value) ==> ContentBytes(a[i]) == ContentBytes(b[j])
  }

  ghost predicate AllLawful(fl: FloatReader, events: seq<Event>) {
    forall i :: 0 <= i < |events| ==> LawfulEvent(fl, events[i])
  }

  lemma {:induction false} HashCoversContent(hash: seq<byte> -> PyStr, fl: FloatReader, a: seq<Event>, b: seq<Event>,
                                             i: nat, j: nat)
    requires AllHashable(a) && AllHashable(b) && AllLawful(fl, a) && AllLawful(fl, b) && NoCollision(hash, a, b)
    requires i < |a| && j < |b|
    ensures Nodes(hash, a)[i].digest == Nodes(hash, b)[j].digest <==> SameContent(a[i], b[j])
  {
    hide ContentBytes, LawfulEvent, SameContent;
    ContentIdentityIff(fl, a[i], b[j]);
  }

  /** The identity hash covers the id, so the second pass adds no pair. */
  lemma {:induction false} HashCoversId(hash: seq<byte> -> PyStr, fl: FloatReader, a: seq<Event>, b: seq<Event>)
    requires AllHashable(a) && AllHashable(b) && AllLawful(fl, a) && AllLawful(fl, b) && NoCollision(hash, a, b)
    ensures DigestCoversId(Nodes(hash, a), Nodes(hash, b))
    ensures Align(Nodes(hash, a), Nodes(hash, b)).pass2 == []
  {
    hide ContentBytes, LawfulEvent, NoCollision, Align, Serialised;
    var x, y := Nodes(hash, a), Nodes(hash, b);
    forall i, j | 0 <= i < |x| && 0 <= j < |y| ensures x[i].digest == y[j].digest ==> x[i].id == y[j].id {
      HashCoversContent(hash, fl, a, b, i, j);
    }
    SecondPassIdle(x, y);
  }

  /** With a collision-free hash two event lists show no difference exactly when they have the same length
      and the same content, provenance apart, at every index. */
  lemma {:induction false} NoDeltaIff(hash: seq<byte> -> PyStr, safe: PyStr -> PyStr, fl: FloatReader,
                                      a: seq<Event>, b: seq<Event>)
    requires AllHashable(a) && AllHashable(b) && AllLawful(fl, a) && AllLawful(fl, b) && NoCollision(hash, a, b)
    ensures DiffOf(safe, Nodes(hash, a), Nodes(hash, b)) == [] <==>
            |a| == |b| && forall i :: 0 <= i < |a| ==> SameContent(a[i], b[i])
  {
    hide ContentBytes, LawfulEvent, NoCollision, DiffOf, Align, Serialised;
    var x, y := Nodes(hash, a), Nodes(hash, b);
    HashCoversId(hash, fl, a, b);
    DiffEmptyIff(safe, x, y);
    if |a| == |b| {
      forall i | 0 <= i < |a| ensures x[i] == y[i] <==> SameContent(a[i], b[i]) {
        HashCoversContent(hash, fl, a, b, i, i);
      }
    }
  }
}
