/** Binary search trees whose keys live outside the tree.

    The session index and the token index of the server are both red-black
    trees searched with a three-way comparison of the wanted key against the
    key of the node at hand. `probe(x)` is that comparison for node x. */
module OrderedTree {
  import opened Bytes

  datatype Tree<T> = Leaf | Node(left: Tree<T>, val: T, right: Tree<T>)

  function InOrder<T>(t: Tree<T>): (s: seq<T>)
  {
    match t
    case Leaf => []
    case Node(l, x, r) => InOrder(l) + [x] + InOrder(r)
  }

  lemma RootIn<T>(t: Tree<T>)
    requires t.Node?
    ensures t.val in InOrder(t)
    ensures forall x :: x in InOrder(t.left) || x in InOrder(t.right) ==> x in InOrder(t)
  {
    assert InOrder(t)[|InOrder(t.left)|] == t.val;
  }

  /** Reading s from left to right, the wanted key is first above, then equal
      to, then below the keys met. */
  ghost predicate Monotone<T(!new)>(probe: T -> int, s: seq<T>) {
    && (forall a, b :: 0 <= a < b < |s| && probe(s[a]) < 0 ==> probe(s[b]) < 0)
    && (forall a, b :: 0 <= a < b < |s| && probe(s[a]) <= 0 ==> probe(s[b]) <= 0)
  }

  lemma MonotoneSlice<T(!new)>(probe: T -> int, s: seq<T>, lo: nat, hi: nat)
    requires Monotone(probe, s) && lo <= hi <= |s|
    ensures Monotone(probe, s[lo..hi])
  {
    assert forall a :: 0 <= a < hi - lo ==> s[lo..hi][a] == s[lo + a];
  }

  /** In front of an element with key above or at it, and behind one below it. */
  lemma MonotoneAround<T(!new)>(probe: T -> int, s: seq<T>, n: nat, k: nat)
    requires Monotone(probe, s) && n < |s| && k < |s|
    ensures k < n ==> (probe(s[n]) > 0 ==> probe(s[k]) > 0) && (probe(s[n]) >= 0 ==> probe(s[k]) >= 0)
    ensures k > n ==> (probe(s[n]) < 0 ==> probe(s[k]) < 0)
  {}

  lemma SplitAround<T>(l: seq<T>, x: T, r: seq<T>)
    ensures var s, n := l + [x] + r, |l|;
            s[0..n] == l && s[n] == x && s[n + 1..|s|] == r
  {}

  lemma MonotoneParts<T(!new)>(probe: T -> int, l: seq<T>, x: T, r: seq<T>)
    requires Monotone(probe, l + [x] + r)
    ensures Monotone(probe, l) && Monotone(probe, r)
    ensures probe(x) < 0 ==> forall y :: y in r ==> probe(y) < 0
    ensures probe(x) > 0 ==> forall y :: y in l ==> probe(y) > 0
    ensures probe(x) >= 0 ==> forall y :: y in l ==> probe(y) >= 0
  {
    var s, n := l + [x] + r, |l|;
    SplitAround(l, x, r);
    MonotoneSlice(probe, s, 0, n);
    MonotoneSlice(probe, s, n + 1, |s|);
    forall k | 0 <= k < |l| ensures (probe(x) > 0 ==> probe(l[k]) > 0) && (probe(x) >= 0 ==> probe(l[k]) >= 0) {
      MonotoneAround(probe, s, n, k);
    }
    forall k | 0 <= k < |r| ensures probe(x) < 0 ==> probe(r[k]) < 0 {
      MonotoneAround(probe, s, n, n + 1 + k);
    }
  }

  function Find<T>(probe: T -> int, t: Tree<T>): (r: Option<T>)
  {
    match t
    case Leaf => None
    case Node(l, x, r) =>
      if probe(x) < 0 then Find(probe, l)
      else if probe(x) > 0 then Find(probe, r)
      else Some(x)
  }

  /** A search is exact whatever the shape of the tree, and even when equal keys
      sit on both sides of a node. */
  lemma {:induction false} FindExact<T(!new)>(probe: T -> int, t: Tree<T>)
    requires Monotone(probe, InOrder(t))
    ensures Find(probe, t).Some? <==> exists x :: x in InOrder(t) && probe(x) == 0
    ensures Find(probe, t).Some? ==>
              Find(probe, t).value in InOrder(t) && probe(Find(probe, t).value) == 0
  {
    match t
    case Leaf =>
    case Node(l, x, r) =>
      MonotoneParts(probe, InOrder(l), x, InOrder(r));
      FindExact(probe, l);
      FindExact(probe, r);
      assert forall y :: y in InOrder(t) <==> y in InOrder(l) || y == x || y in InOrder(r);
      assert probe(x) == 0 ==> x in InOrder(t);
  }

  /** Links x as a leaf, left of the nodes it is strictly below. */
  function Link<T>(probe: T -> int, t: Tree<T>, x: T): Tree<T>
  {
    match t
    case Leaf => Node(Leaf, x, Leaf)
    case Node(l, y, r) =>
      if probe(y) < 0 then Node(Link(probe, l, x), y, r)
      else Node(l, y, Link(probe, r, x))
  }

  /** t with the subtree at `path` (false: left, true: right) replaced by c. */
  function Graft<T>(t: Tree<T>, path: seq<bool>, c: Tree<T>): Tree<T>
    decreases path
  {
    if path == [] || t.Leaf? then c
    else if path[0] then Node(t.left, t.val, Graft(t.right, path[1..], c))
    else Node(Graft(t.left, path[1..], c), t.val, t.right)
  }

  predicate At<T(==)>(t: Tree<T>, path: seq<bool>, n: Tree<T>)
    decreases path
  {
    if path == [] then t == n
    else t.Node? && At(if path[0] then t.right else t.left, path[1..], n)
  }

  /** One step further down. */
  lemma {:induction false} GraftStep<T>(t: Tree<T>, path: seq<bool>, n: Tree<T>, d: bool, c: Tree<T>)
    requires At(t, path, n) && n.Node?
    ensures At(t, path + [d], if d then n.right else n.left)
    ensures Graft(t, path + [d], c) ==
            Graft(t, path, if d then Node(n.left, n.val, c) else Node(c, n.val, n.right))
    decreases path
  {
    if path != [] {
      assert (path + [d])[1..] == path[1..] + [d];
      GraftStep(if path[0] then t.right else t.left, path[1..], n, d, c);
    } else {
      assert [d][1..] == [];
    }
  }

  /** The number of leading elements of s that are not above the key. */
  function InsertPos<T>(probe: T -> int, s: seq<T>): (p: nat)
    ensures p <= |s|
    ensures forall k :: 0 <= k < p ==> probe(s[k]) >= 0
    ensures p < |s| ==> probe(s[p]) < 0
  {
    if s == [] || probe(s[0]) < 0 then 0 else 1 + InsertPos(probe, s[1..])
  }

  /** s with x put behind everything that is not above it. */
  function Inserted<T>(probe: T -> int, s: seq<T>, x: T): seq<T>
  {
    s[..InsertPos(probe, s)] + [x] + s[InsertPos(probe, s)..]
  }

  lemma {:induction false} InsertPosUnique<T>(probe: T -> int, s: seq<T>, p: nat)
    requires p <= |s|
    requires forall k :: 0 <= k < p ==> probe(s[k]) >= 0
    requires p < |s| ==> probe(s[p]) < 0
    ensures InsertPos(probe, s) == p
  {
    if p > 0 {
      InsertPosUnique(probe, s[1..], p - 1);
    }
  }

  lemma PutLeft<T>(a: seq<T>, b: seq<T>, p: nat, x: T)
    requires p <= |a|
    ensures (a + b)[..p] + [x] + (a + b)[p..] == (a[..p] + [x] + a[p..]) + b
  {}

  lemma PutRight<T>(a: seq<T>, b: seq<T>, p: nat, x: T)
    requires p <= |b|
    ensures (a + b)[..|a| + p] + [x] + (a + b)[|a| + p..] == a + (b[..p] + [x] + b[p..])
  {}

  lemma InsertLeft<T>(probe: T -> int, l: seq<T>, y: T, r: seq<T>, x: T)
    requires probe(y) < 0
    ensures Inserted(probe, l + [y] + r, x) == Inserted(probe, l, x) + [y] + r
  {
    var p := InsertPos(probe, l);
    Associative(l, [y], r);
    Associative(Inserted(probe, l, x), [y], r);
    InsertPosUnique(probe, l + ([y] + r), p);
    PutLeft(l, [y] + r, p, x);
  }

  lemma InsertRight<T>(probe: T -> int, l: seq<T>, y: T, r: seq<T>, x: T)
    requires probe(y) >= 0
    requires forall z :: z in l ==> probe(z) >= 0
    ensures Inserted(probe, l + [y] + r, x) == l + [y] + Inserted(probe, r, x)
  {
    var q := InsertPos(probe, r);
    forall k | 0 <= k < |l + [y]| ensures probe((l + [y])[k]) >= 0 {
      assert k < |l| ==> l[k] in l;
    }
    InsertPosBehind(probe, l + [y], r);
    PutRight(l + [y], r, q, x);
  }

  lemma InsertPosBehind<T>(probe: T -> int, a: seq<T>, r: seq<T>)
    requires forall k :: 0 <= k < |a| ==> probe(a[k]) >= 0
    ensures InsertPos(probe, a + r) == |a| + InsertPos(probe, r)
  {
    var s, p := a + r, |a| + InsertPos(probe, r);
    forall k | 0 <= k < p ensures probe(s[k]) >= 0 {
      assert s[k] == if k < |a| then a[k] else r[k - |a|];
    }
    InsertPosUnique(probe, s, p);
  }

  /** Whatever its shape, linking into the tree inserts into its order. */
  lemma {:induction false} LinkInserts<T(!new)>(probe: T -> int, t: Tree<T>, x: T)
    requires Monotone(probe, InOrder(t))
    ensures InOrder(Link(probe, t, x)) == Inserted(probe, InOrder(t), x)
  {
    match t
    case Leaf =>
    case Node(l, y, r) =>
      MonotoneParts(probe, InOrder(l), y, InOrder(r));
      if probe(y) < 0 {
        LinkInserts(probe, l, x);
        InsertLeft(probe, InOrder(l), y, InOrder(r), x);
      } else {
        LinkInserts(probe, r, x);
        InsertRight(probe, InOrder(l), y, InOrder(r), x);
      }
  }

  /** s without its first x. */
  function Without<T(==)>(s: seq<T>, x: T): seq<T>
  {
    if s == [] then []
    else if s[0] == x then s[1..]
    else [s[0]] + Without(s[1..], x)
  }

  lemma {:induction false} WithoutAt<T>(s: seq<T>, x: T) returns (p: nat)
    requires x in s
    ensures p < |s| && s[p] == x && x !in s[..p]
    ensures Without(s, x) == s[..p] + s[p + 1..]
  {
    if s[0] == x {
      p := 0;
    } else {
      var q := WithoutAt(s[1..], x);
      p := q + 1;
      assert s[..p] == [s[0]] + s[1..][..q];
      assert s[p + 1..] == s[1..][q + 1..];
    }
  }

  /** Unlinks the node that carries x: found by identity, not by key. */
  function Erase<T(==)>(t: Tree<T>, x: T): Tree<T>
  {
    match t
    case Leaf => Leaf
    case Node(l, y, r) =>
      if x in InOrder(l) then Node(Erase(l, x), y, r)
      else if x == y then Joined(l, r)
      else Node(l, y, Erase(r, x))
  }

  /** Puts the greatest node of l in the place of their parent. */
  function Joined<T>(l: Tree<T>, r: Tree<T>): (t: Tree<T>)
    ensures InOrder(t) == InOrder(l) + InOrder(r)
  {
    match l
    case Leaf => r
    case Node(ll, y, lr) => Node(ll, y, Joined(lr, r))
  }

  lemma {:induction false} EraseRemoves<T>(t: Tree<T>, x: T)
    ensures InOrder(Erase(t, x)) == Without(InOrder(t), x)
  {
    match t
    case Leaf =>
    case Node(l, y, r) =>
      WithoutParts(InOrder(l), y, InOrder(r), x);
      if x in InOrder(l) {
        EraseRemoves(l, x);
      } else if x != y {
        EraseRemoves(r, x);
      }
  }

  lemma WithoutParts<T>(a: seq<T>, y: T, b: seq<T>, x: T)
    ensures Without(a + [y] + b, x) ==
            if x in a then Without(a, x) + [y] + b else if x == y then a + b else a + [y] + Without(b, x)
  {
    Associative(a, [y], b);
    Associative(Without(a, x), [y], b);
    Associative(a, [y], Without(b, x));
    WithoutConcat(a, [y] + b, x);
    WithoutConcat([y], b, x);
    assert Without([y], x) == if y == x then [] else [y];
    assert [] + b == b;
  }

  lemma {:induction false} WithoutConcat<T>(a: seq<T>, b: seq<T>, x: T)
    ensures Without(a + b, x) == if x in a then Without(a, x) + b else a + Without(b, x)
  {
    if a == [] {
      assert a + b == b && a + Without(b, x) == Without(b, x);
    } else {
      assert (a + b)[0] == a[0] && (a + b)[1..] == a[1..] + b;
      WithoutConcat(a[1..], b, x);
      Associative([a[0]], Without(a[1..], x), b);
      Associative([a[0]], a[1..], Without(b, x));
      assert a == [a[0]] + a[1..];
    }
  }

  /** A rotation at the node reached by `path` (false: left, true: right). */
  datatype Rotation = Rotation(path: seq<bool>, toRight: bool)

  function Rotate<T>(t: Tree<T>, path: seq<bool>, toRight: bool): Tree<T>
    decreases path
  {
    match t
    case Leaf => Leaf
    case Node(l, x, r) =>
      if path != [] then
        if path[0] then Node(l, x, Rotate(r, path[1..], toRight))
        else Node(Rotate(l, path[1..], toRight), x, r)
      else if toRight && l.Node? then Node(l.left, l.val, Node(l.right, x, r))
      else if !toRight && r.Node? then Node(Node(l, x, r.left), r.val, r.right)
      else t
  }

  function Rebalanced<T>(t: Tree<T>, rots: seq<Rotation>): Tree<T>
    decreases |rots|
  {
    if rots == [] then t
    else Rebalanced(Rotate(t, rots[0].path, rots[0].toRight), rots[1..])
  }

  lemma {:induction false} RotateKeepsOrder<T>(t: Tree<T>, path: seq<bool>, toRight: bool)
    ensures InOrder(Rotate(t, path, toRight)) == InOrder(t)
    decreases path
  {
    match t
    case Leaf =>
    case Node(l, x, r) =>
      if path != [] {
        RotateKeepsOrder(if path[0] then r else l, path[1..], toRight);
      }
  }

  lemma {:induction false} RebalancedKeepsOrder<T>(t: Tree<T>, rots: seq<Rotation>)
    ensures InOrder(Rebalanced(t, rots)) == InOrder(t)
    decreases |rots|
  {
    if rots != [] {
      RotateKeepsOrder(t, rots[0].path, rots[0].toRight);
      RebalancedKeepsOrder(Rotate(t, rots[0].path, rots[0].toRight), rots[1..]);
    }
  }
}
