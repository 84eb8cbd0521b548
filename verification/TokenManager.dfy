/** The allow list of tokens: a tree that is refilled from a file. */
module TokenManager {
  import opened Bytes
  import opened CStrings
  import opened OrderedTree
  import opened TokenText

  function Probe(t: Token): Token -> int {
    (x: Token) => Compare(t, x)
  }

  ghost predicate Sorted(s: seq<Token>) {
    forall a, b :: 0 <= a < b < |s| ==> NotAbove(s[a], s[b])
  }

  lemma SortedProbes(s: seq<Token>, t: Token)
    requires Sorted(s)
    ensures Monotone(Probe(t), s)
  {
    var probe := Probe(t);
    forall a, b | 0 <= a < b < |s| && probe(s[a]) <= 0
      ensures probe(s[b]) <= 0 && (probe(s[a]) < 0 ==> probe(s[b]) < 0)
    {
      CompareTransitive(t, s[a], s[b]);
    }
  }

  predicate NotAbove(x: Token, y: Token) {
    Compare(x, y) <= 0
  }

  /** Where a token is put, what stands before is not above it and what stands
      behind is not below it. */
  lemma Around(s: seq<Token>, t: Token, k: nat)
    requires Sorted(s) && k < |s|
    ensures if k < InsertPos(Probe(t), s) then NotAbove(s[k], t) else NotAbove(t, s[k])
  {
    var p := InsertPos(Probe(t), s);
    if k < p {
      assert Probe(t)(s[k]) >= 0;
      CompareAntisymmetric(s[k], t);
      CompareAntisymmetric(t, s[k]);
    } else {
      SortedProbes(s, t);
      assert Probe(t)(s[p]) < 0;
    }
  }

  lemma PutSorted(s: seq<Token>, t: Token, p: nat)
    requires Sorted(s) && p <= |s|
    requires forall k :: 0 <= k < |s| ==> if k < p then NotAbove(s[k], t) else NotAbove(t, s[k])
    ensures Sorted(s[..p] + [t] + s[p..])
  {
    var r := s[..p] + [t] + s[p..];
    forall a, b | 0 <= a < b < |r| ensures NotAbove(r[a], r[b]) {
      assert a < p ==> r[a] == s[a];
      assert a > p ==> r[a] == s[a - 1];
      assert b < p ==> r[b] == s[b];
      assert b > p ==> r[b] == s[b - 1];
    }
  }

  lemma InsertedSorted(s: seq<Token>, t: Token)
    requires Sorted(s)
    ensures Sorted(Inserted(Probe(t), s, t))
    ensures forall x :: x in Inserted(Probe(t), s, t) <==> x in s || x == t
  {
    var p := InsertPos(Probe(t), s);
    forall k | 0 <= k < |s| ensures if k < p then NotAbove(s[k], t) else NotAbove(t, s[k]) {
      Around(s, t, k);
    }
    PutSorted(s, t, p);
    assert s == s[..p] + s[p..];
  }

  // ------------------------------------------------------------------ the file

  /** The chunks that getline returns: up to and with a newline, or to the end. */
  function Lines(s: string): seq<string>
    decreases |s|
  {
    if s == "" then [] else [s[..LineEnd(s)]] + Lines(s[LineEnd(s)..])
  }

  function LineEnd(s: string): (n: nat)
    requires s != ""
    ensures 0 < n <= |s|
    ensures forall k :: 0 <= k < n - 1 ==> s[k] != '\n'
    ensures s[n - 1] == '\n' || n == |s|
  {
    if s[0] == '\n' || |s| == 1 then 1 else 1 + LineEnd(s[1..])
  }

  /** The text that is parsed for a chunk: without its last character, up to a
      NUL, and no longer than a token. */
  function Text(chunk: string): string
    requires chunk != ""
  {
    var line := CString(chunk[..|chunk| - 1]);
    if |line| > TOKEN_STR_LEN then line[..TOKEN_STR_LEN] else line
  }

  /** The token is listed in the file. */
  ghost predicate Listed(contents: string, t: Token) {
    ListedIn(Lines(contents), t)
  }

  ghost predicate ListedIn(lines: seq<string>, t: Token) {
    exists l :: l in lines && Names(l, t)
  }

  predicate Names(chunk: string, t: Token) {
    chunk != "" && Grammar(Text(chunk)) && Parsed(Text(chunk)) == t
  }

  /** A token on a line of its own is listed whether the line ends in LF or in
      CR LF, and whatever follows it on the line; but a last line without a
      newline loses its last character, and with it the token. */
  lemma LineForms(s: string, rest: string)
    requires Grammar(s)
    ensures Names(s + "\n", Parsed(s)) && Names(s + "\r\n", Parsed(s)) && Names(s + rest + "\n", Parsed(s))
    ensures forall t :: !Names(s, t)
  {
    ChunkText(s, "");
    ChunkText(s, "\r");
    ChunkText(s, rest);
    assert s + "" + "\n" == s + "\n" && s + "\r" + "\n" == s + "\r\n";
    assert |Text(s)| < TOKEN_STR_LEN;
  }

  lemma ChunkText(s: string, rest: string)
    requires Grammar(s)
    ensures Text(s + rest + "\n") == s
  {
    var chunk := s + rest + "\n";
    var body := chunk[..|chunk| - 1];
    assert body == s + rest;
    var line := CString(body);
    assert '\0' !in s;
    assert line[..|s|] == s;
  }

  /** A file of these lines. */
  function FileOf(ls: seq<string>): string {
    if ls == [] then "" else ls[0] + "\n" + FileOf(ls[1..])
  }

  /** What a file lists is what its lines name, each with its newline; and what
      stands behind the last newline, without one. */
  lemma {:induction false} FileLists(ls: seq<string>, last: string, t: Token)
    requires '\n' !in last && forall l :: l in ls ==> '\n' !in l
    ensures Listed(FileOf(ls) + last, t) <==> Names(last, t) || exists l :: l in ls && Names(l + "\n", t)
  {
    hide Names, LineEnd;
    if ls == [] {
      assert FileOf(ls) + last == last;
      LastLine(last);
    } else {
      FileLists(ls[1..], last, t);
      LinesNext(ls[0], FileOf(ls[1..]) + last);
      assert FileOf(ls) + last == ls[0] + "\n" + (FileOf(ls[1..]) + last);
      var lines := Lines(FileOf(ls) + last);
      assert lines == [ls[0] + "\n"] + Lines(FileOf(ls[1..]) + last);
      ListedFirst(lines, t);
      assert ls == [ls[0]] + ls[1..];
    }
  }

  lemma LastLine(last: string)
    requires '\n' !in last
    ensures forall t :: ListedIn(Lines(last), t) <==> Names(last, t)
  {
    if last != "" {
      assert last[LineEnd(last) - 1] in last;
      assert last[..|last|] == last && last[|last|..] == "";
      assert Lines(last) == [last];
    }
  }

  lemma ListedFirst(lines: seq<string>, t: Token)
    requires lines != []
    ensures ListedIn(lines, t) <==> Names(lines[0], t) || ListedIn(lines[1..], t)
  {
    assert lines == [lines[0]] + lines[1..];
  }

  /** A line is cut behind its newline. */
  lemma LinesNext(l: string, rest: string)
    requires '\n' !in l
    ensures Lines(l + "\n" + rest) == [l + "\n"] + Lines(rest)
  {
    hide LineEnd;
    var s, n := l + "\n" + rest, |l| + 1;
    LineEndIs(s, n);
    assert s[..n] == l + "\n" && s[n..] == rest;
  }

  lemma {:induction false} LineEndIs(s: string, n: nat)
    requires 0 < n <= |s| && s[n - 1] == '\n' && forall k :: 0 <= k < n - 1 ==> s[k] != '\n'
    ensures LineEnd(s) == n
  {
    if n > 1 {
      LineEndIs(s[1..], n - 1);
    }
  }

  // --------------------------------------------------------------- the program

  class TokenManager {
    var tree: Tree<Token>

    constructor ()
      ensures Valid() && tree == Leaf
    {
      tree := Leaf;
    }

    ghost predicate Valid()
      reads this
    {
      Sorted(InOrder(tree))
    }

    ghost function Contents(): set<Token>
      reads this
    {
      set t | t in InOrder(tree)
    }

    method Find(token: Token) returns (res: int)
      requires Valid()
      ensures res == if token in Contents() then 1 else 0
    {
      ghost var probe := Probe(token);
      SortedProbes(InOrder(tree), token);
      FindExact(probe, tree);
      var n := tree;
      while n.Node?
        invariant OrderedTree.Find(probe, n) == OrderedTree.Find(probe, tree)
        decreases n
      {
        var res := Compare(token, n.val);
        if res < 0 {
          n := n.left;
        } else if res > 0 {
          n := n.right;
        } else {
          return 1;
        }
      }
      return 0;
    }

    method Insert(token: Token, rots: seq<Rotation>)
      requires Valid()
      modifies this
      ensures Valid() && Contents() == old(Contents()) + {token}
    {
      hide Rebalanced;
      ghost var probe := Probe(token);
      var n := tree;
      var path := [];
      while n.Node?
        invariant tree == old(tree) && At(tree, path, n)
        invariant Graft(tree, path, Link(probe, n, token)) == Link(probe, tree, token)
        decreases n
      {
        var right := !(Compare(token, n.val) < 0);
        GraftStep(tree, path, n, right, Link(probe, if right then n.right else n.left, token));
        n, path := if right then n.right else n.left, path + [right];
      }
      Linked(tree, token, rots);
      tree := Rebalanced(Graft(tree, path, Node(Leaf, token, Leaf)), rots);
    }

    /** `rots` is how the tree is rebalanced after each removal. */
    method Clear(rots: nat -> seq<Rotation>)
      modifies this
      ensures Valid() && Contents() == {}
    {
      var removed := 0;
      while tree.Node?
        decreases |InOrder(tree)|
      {
        var n := First(tree);
        EraseRemoves(tree, n);
        RebalancedKeepsOrder(Erase(tree, n), rots(removed));
        var at := WithoutAt(InOrder(tree), n);
        tree := Rebalanced(Erase(tree, n), rots(removed));
        removed := removed + 1;
      }
    }

    /** One line of the file. */
    method LoadLine(chunk: string, rots: seq<Rotation>)
      requires Valid() && chunk != ""
      modifies this
      ensures Valid()
      ensures forall t: Token :: t in Contents() <==> t in old(Contents()) || Names(chunk, t)
    {
      var line := CutLine(chunk);
      var token := new Byte[16];
      var res := FromString(token, line);
      if res < 0 {
        return;
      }
      Insert(token[..], rots);
    }

    /** The whole reload: whatever was listed before, afterwards exactly the tokens
        of the file are, or none if it cannot be opened. `cleared` and `loaded` are
        how the tree is rebalanced after each removal and each insertion. */
    method Reload(file: Option<string>, cleared: nat -> seq<Rotation>, loaded: nat -> seq<Rotation>)
      modifies this
      ensures Valid()
      ensures forall t: Token :: t in Contents() <==> file.Some? && Listed(file.value, t)
    {
      Clear(cleared);
      if file.None? {
        return;
      }
      var rest := file.value;
      ghost var lines := Lines(rest);
      var done := 0;
      while rest != ""
        invariant Valid() && done <= |lines| && Lines(rest) == lines[done..]
        invariant forall t: Token :: t in Contents() <==> ListedIn(lines[..done], t)
        decreases |rest|
      {
        var n := LineEnd(rest);
        var chunk := rest[..n];
        rest := rest[n..];
        assert chunk == lines[done];
        ListedNext(lines, done);
        LoadLine(chunk, loaded(done));
        done := done + 1;
      }
      assert lines[..done] == lines;
    }
  }

  lemma Linked(tree: Tree<Token>, t: Token, rots: seq<Rotation>)
    requires Sorted(InOrder(tree))
    ensures var after := InOrder(Rebalanced(Link(Probe(t), tree, t), rots));
            Sorted(after) && forall x :: x in after <==> x in InOrder(tree) || x == t
  {
    hide Rebalanced, Link, Sorted;
    SortedProbes(InOrder(tree), t);
    LinkInserts(Probe(t), tree, t);
    RebalancedKeepsOrder(Link(Probe(t), tree, t), rots);
    InsertedSorted(InOrder(tree), t);
  }

  lemma ListedNext(lines: seq<string>, k: nat)
    requires k < |lines|
    ensures forall t :: ListedIn(lines[..k + 1], t) <==> ListedIn(lines[..k], t) || Names(lines[k], t)
  {
    assert lines[..k + 1] == lines[..k] + [lines[k]];
  }

  /** The first node in order. */
  function First<T>(t: Tree<T>): (x: T)
    requires t.Node?
    ensures x in InOrder(t)
  {
    if t.left.Leaf? then t.val else First(t.left)
  }

  /** The line buffer is cut in place. */
  method CutLine(chunk: string) returns (str: string)
    requires chunk != ""
    ensures str == Text(chunk)
  {
    hide CString;
    var n := |chunk|;
    var line := new char[n + 1](k requires 0 <= k <= n => if k < n then chunk[k] else '\0');
    line[n - 1] := '\0';
    assert line[..][..n - 1] == chunk[..n - 1];
    EndsEarlier(line[..], chunk[..n - 1]);
    ghost var body := CString(line[..]);
    if |CString(line[..])| > TOKEN_STR_LEN {
      line[TOKEN_STR_LEN] := '\0';
      assert line[..][..TOKEN_STR_LEN] == body[..TOKEN_STR_LEN];
      CStringIs(line[..], TOKEN_STR_LEN);
    }
    str := CString(line[..]);
  }

  /** A NUL behind some text ends it, if it has not ended before. */
  lemma EndsEarlier(line: string, s: string)
    requires |s| < |line| && line[..|s|] == s && line[|s|] == '\0'
    ensures CString(line) == CString(s)
  {
    hide CString;
    var n := |CString(s)|;
    assert line[n] == if n < |s| then s[n] else '\0';
    forall k | 0 <= k < n ensures line[k] != '\0' {
      assert line[k] == s[k] == CString(s)[k];
    }
    CStringIs(line, n);
    assert line[..n] == s[..n];
  }
}
