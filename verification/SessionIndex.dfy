/** Laws of the ordered index: what filing, removing and key changes keep. */
module SessionIndex {
  import opened Bytes
  import opened OrderedTree
  import opened SessionModel

  /** x may stand before y. */
  predicate Before(ss: seq<Session>, x: nat, y: nat) {
    x < |ss| && y < |ss| && x != y && CompareKeys(KeyOf(ss[x]), KeyOf(ss[y])) <= 0
  }

  /** Every element is a session and stands before all later ones: the index is
      in the order of its keys and links no session twice. */
  ghost predicate Sorted(ss: seq<Session>, order: seq<nat>) {
    && (forall a :: 0 <= a < |order| ==> order[a] < |ss|)
    && forall a, b :: 0 <= a < b < |order| ==> Before(ss, order[a], order[b])
  }

  lemma KeysTotal(a: Key, b: Key)
    ensures CompareKeys(a, b) == 0 <==> a == b
    ensures CompareKeys(a, b) < 0 <==> CompareKeys(b, a) > 0
  {
    CompareAntisymmetric(a.token, b.token);
    CompareAntisymmetric(b.token, a.token);
    assert a.ty.Rank() == b.ty.Rank() ==> a.ty == b.ty;
  }

  lemma KeysTransitive(a: Key, b: Key, c: Key)
    requires CompareKeys(a, b) <= 0 && CompareKeys(b, c) <= 0
    ensures CompareKeys(a, c) <= 0
    ensures CompareKeys(a, b) < 0 ==> CompareKeys(a, c) < 0
  {
    if a.ty.Rank() == b.ty.Rank() == c.ty.Rank() {
      CompareTransitive(a.token, b.token, c.token);
    }
  }

  /** In a sorted index every search sees its key above, then equal, then below. */
  lemma SortedProbes(ss: seq<Session>, order: seq<nat>, k: Key)
    requires Sorted(ss, order)
    ensures Monotone(Probe(ss, k), order)
  {
    var probe := Probe(ss, k);
    forall a, b | 0 <= a < b < |order| && probe(order[a]) <= 0
      ensures probe(order[b]) <= 0 && (probe(order[a]) < 0 ==> probe(order[b]) < 0)
    {
      KeysTransitive(k, KeyOf(ss[order[a]]), KeyOf(ss[order[b]]));
    }
  }

  lemma SortedConcat(ss: seq<Session>, l: seq<nat>, r: seq<nat>)
    requires Sorted(ss, l) && Sorted(ss, r)
    requires forall x, y :: x in l && y in r ==> Before(ss, x, y)
    ensures Sorted(ss, l + r)
  {
    var s := l + r;
    assert forall a :: 0 <= a < |s| ==> s[a] == if a < |l| then l[a] else r[a - |l|];
  }

  lemma SortedSplit(ss: seq<Session>, order: seq<nat>, p: nat)
    requires Sorted(ss, order) && p <= |order|
    ensures Sorted(ss, order[..p]) && Sorted(ss, order[p..])
    ensures forall x, y :: x in order[..p] && y in order[p..] ==> Before(ss, x, y)
    ensures forall x :: x in order <==> x in order[..p] || x in order[p..]
  {
    assert order == order[..p] + order[p..];
  }

  /** Where a session is filed, what stands in front may, and what stands behind
      may follow. */
  lemma FiledBetween(ss: seq<Session>, order: seq<nat>, x: nat, k: nat)
    requires Sorted(ss, order) && x < |ss| && x !in order && k < |order|
    ensures if k < InsertPos(Probe(ss, KeyOf(ss[x])), order) then Before(ss, order[k], x) else Before(ss, x, order[k])
  {
    var key := KeyOf(ss[x]);
    var p := InsertPos(Probe(ss, key), order);
    if k < p {
      assert Probe(ss, key)(order[k]) >= 0;
      KeysTotal(key, KeyOf(ss[order[k]]));
    } else {
      SortedProbes(ss, order, key);
      assert Probe(ss, key)(order[p]) < 0;
    }
  }

  /** Filing a session at its key keeps the index sorted, and adds just it. */
  lemma FiledKeeps(ss: seq<Session>, order: seq<nat>, x: nat)
    requires Sorted(ss, order) && x < |ss| && x !in order
    ensures Sorted(ss, Filed(ss, order, x))
    ensures forall y :: y in Filed(ss, order, x) <==> y in order || y == x
  {
    var p := InsertPos(Probe(ss, KeyOf(ss[x])), order);
    SortedSplit(ss, order, p);
    forall k | 0 <= k < |order| ensures if k < p then Before(ss, order[k], x) else Before(ss, x, order[k]) {
      FiledBetween(ss, order, x, k);
    }
    SortedConcat(ss, order[..p], [x]);
    SortedConcat(ss, order[..p] + [x], order[p..]);
  }

  /** Removing one session keeps the rest in order, even if its own key has
      been changed while it was linked. */
  lemma WithoutKeeps(ss: seq<Session>, ss': seq<Session>, order: seq<nat>, x: nat)
    requires Sorted(ss, order) && x in order
    requires |ss| <= |ss'|
    requires forall y :: y in order && y != x ==> KeyOf(ss'[y]) == KeyOf(ss[y])
    ensures Sorted(ss', Without(order, x))
    ensures forall y :: y in Without(order, x) <==> y in order && y != x
  {
    var p := WithoutAt(order, x);
    var l, r := order[..p], order[p + 1..];
    SortedSplit(ss, order, p);
    SortedSplit(ss, order[p..], 1);
    assert order[p..][1..] == r && order[p..][..1] == [x];
    SortedFrame(ss, ss', l);
    SortedFrame(ss, ss', r);
    SortedConcat(ss', l, r);
  }

  lemma SortedFrame(ss: seq<Session>, ss': seq<Session>, order: seq<nat>)
    requires Sorted(ss, order) && |ss| <= |ss'|
    requires forall y :: y in order ==> KeyOf(ss'[y]) == KeyOf(ss[y])
    ensures Sorted(ss', order)
  {
    assert forall a :: 0 <= a < |order| ==> order[a] in order;
  }
}
