/** The argument permutation of the bundled getopt: options and their arguments
    to the front, everything else behind them. */
module Getopt {
  import opened Bytes

  /** The text of a C string. */
  type CText = s: string | '\0' !in s

  /** An argv entry: its address, by which entries are compared, and its text. */
  datatype Arg = Arg(ptr: nat, text: CText)

  /** A character of a C string; the end reads as NUL. */
  function CharAt(s: string, k: nat): char {
    if k < |s| then s[k] else '\0'
  }

  function StrChr(s: string, c: char): (r: Option<nat>)
    ensures r.Some? ==> r.value < |s| && s[r.value] == c
  {
    if s == [] then None
    else if s[0] == c then Some(0)
    else match StrChr(s[1..], c)
      case None => None
      case Some(k) => Some(k + 1)
  }

  predicate IsOption(a: Arg) {
    CharAt(a.text, 0) == '-' && CharAt(a.text, 1) != '\0'
  }

  predicate IsEnd(a: Arg) {
    CharAt(a.text, 1) == '-' && CharAt(a.text, 2) == '\0'
  }

  /** The option wants the next entry as its argument. */
  predicate WantsNext(a: Arg, optstring: string) {
    var p := StrChr(optstring, CharAt(a.text, 1));
    p.Some? && CharAt(optstring, p.value + 1) == ':' && CharAt(a.text, 2) == '\0'
  }

  /** The positions, from i on, that are options or their arguments: up to a "--"
      that is not itself an argument. */
  function Chosen(argv: seq<Arg>, optstring: string, i: nat): seq<nat>
    decreases |argv| - i
  {
    if i >= |argv| then []
    else if !IsOption(argv[i]) then Chosen(argv, optstring, i + 1)
    else if IsEnd(argv[i]) then []
    else if WantsNext(argv[i], optstring) && i + 1 < |argv| then [i, i + 1] + Chosen(argv, optstring, i + 2)
    else [i] + Chosen(argv, optstring, i + 1)
  }

  /** The positions from i on that are not in c. */
  function Rest(c: seq<nat>, i: nat, n: nat): seq<nat>
    decreases n - i
  {
    if i >= n then [] else (if i in c then [] else [i]) + Rest(c, i + 1, n)
  }

  /** The new argv as positions in the old one. */
  function Order(argv: seq<Arg>, optstring: string): seq<nat> {
    if argv == [] then []
    else [0] + Chosen(argv, optstring, 1) + Rest(Chosen(argv, optstring, 1), 1, |argv|)
  }

  ghost predicate Increasing(s: seq<nat>, lo: nat, hi: nat) {
    && (forall k :: 0 <= k < |s| ==> lo <= s[k] < hi)
    && (forall a, b :: 0 <= a < b < |s| ==> s[a] < s[b])
  }

  lemma IncreasingOne(i: nat, s: seq<nat>, hi: nat)
    requires Increasing(s, i + 1, hi) && i < hi
    ensures Increasing([i] + s, i, hi)
  {}

  lemma IncreasingFrom(s: seq<nat>, lo: nat, lo': nat, hi: nat)
    requires Increasing(s, lo', hi) && lo <= lo'
    ensures Increasing(s, lo, hi)
  {}

  lemma {:induction false} ChosenIncreasing(argv: seq<Arg>, optstring: string, i: nat)
    ensures i <= |argv| ==> Increasing(Chosen(argv, optstring, i), i, |argv|)
    decreases |argv| - i
  {
    hide Increasing, WantsNext, IsOption, IsEnd;
    var n := |argv|;
    if i >= n || (IsOption(argv[i]) && IsEnd(argv[i])) {
      IncreasingNone(i, n);
    } else if !IsOption(argv[i]) {
      ChosenIncreasing(argv, optstring, i + 1);
      IncreasingFrom(Chosen(argv, optstring, i + 1), i, i + 1, n);
    } else if WantsNext(argv[i], optstring) && i + 1 < n {
      var rest := Chosen(argv, optstring, i + 2);
      ChosenIncreasing(argv, optstring, i + 2);
      IncreasingOne(i + 1, rest, n);
      IncreasingOne(i, [i + 1] + rest, n);
      assert [i, i + 1] + rest == [i] + ([i + 1] + rest);
    } else {
      ChosenIncreasing(argv, optstring, i + 1);
      IncreasingOne(i, Chosen(argv, optstring, i + 1), n);
    }
  }

  lemma IncreasingNone(lo: nat, hi: nat)
    ensures Increasing([], lo, hi)
  {}

  lemma {:induction false} RestIncreasing(c: seq<nat>, i: nat, n: nat)
    ensures i <= n ==> Increasing(Rest(c, i, n), i, n)
    decreases n - i
  {
    hide Increasing;
    if i < n {
      RestIncreasing(c, i + 1, n);
      if i in c {
        IncreasingFrom(Rest(c, i + 1, n), i, i + 1, n);
        assert [] + Rest(c, i + 1, n) == Rest(c, i + 1, n);
      } else {
        IncreasingOne(i, Rest(c, i + 1, n), n);
      }
    } else {
      IncreasingNone(i, n);
    }
  }

  lemma {:induction false} RestMembers(c: seq<nat>, i: nat, n: nat)
    ensures forall k :: k in Rest(c, i, n) <==> i <= k < n && k !in c
    decreases n - i
  {
    if i < n {
      RestMembers(c, i + 1, n);
    }
  }

  /** Together the two groups are as many as the positions they come from. */
  lemma {:induction false} GroupsCover(argv: seq<Arg>, optstring: string, i: nat, c: seq<nat>)
    requires i <= |argv|
    requires forall k :: i <= k < |argv| ==> (k in c <==> k in Chosen(argv, optstring, i))
    ensures |Chosen(argv, optstring, i)| + |Rest(c, i, |argv|)| == |argv| - i
    decreases |argv| - i
  {
    hide WantsNext, IsOption, IsEnd;
    if i < |argv| {
      var chosen := Chosen(argv, optstring, i);
      if !IsOption(argv[i]) {
        ChosenBehind(argv, optstring, i + 1);
        GroupsCover(argv, optstring, i + 1, c);
      } else if IsEnd(argv[i]) {
        AllRest(c, i, |argv|);
      } else if WantsNext(argv[i], optstring) && i + 1 < |argv| {
        assert chosen == [i, i + 1] + Chosen(argv, optstring, i + 2);
        ChosenBehind(argv, optstring, i + 2);
        GroupsCover(argv, optstring, i + 2, c);
        assert Rest(c, i, |argv|) == Rest(c, i + 1, |argv|) == Rest(c, i + 2, |argv|);
      } else {
        assert chosen == [i] + Chosen(argv, optstring, i + 1);
        ChosenBehind(argv, optstring, i + 1);
        GroupsCover(argv, optstring, i + 1, c);
      }
    }
  }

  lemma ChosenBehind(argv: seq<Arg>, optstring: string, i: nat)
    requires i <= |argv|
    ensures forall k :: k in Chosen(argv, optstring, i) ==> k >= i
  {
    ChosenIncreasing(argv, optstring, i);
  }

  lemma {:induction false} AllRest(c: seq<nat>, i: nat, n: nat)
    requires i <= n && forall k :: i <= k < n ==> k !in c
    ensures |Rest(c, i, n)| == n - i
    decreases n - i
  {
    if i < n {
      AllRest(c, i + 1, n);
    }
  }

  /** Behind argv[0] the options with their arguments come first and the rest
      after them, each group in its original order; each position is in exactly
      one of the groups. */
  lemma OrderIsStablePartition(argv: seq<Arg>, optstring: string)
    requires argv != []
    ensures var o, c, r := Order(argv, optstring), Chosen(argv, optstring, 1),
                           Rest(Chosen(argv, optstring, 1), 1, |argv|);
            && o == [0] + c + r && |o| == |argv|
            && Increasing(c, 1, |argv|) && Increasing(r, 1, |argv|)
            && forall k :: k in r <==> 1 <= k < |argv| && k !in c
  {
    var c := Chosen(argv, optstring, 1);
    ChosenIncreasing(argv, optstring, 1);
    RestIncreasing(c, 1, |argv|);
    RestMembers(c, 1, |argv|);
    GroupsCover(argv, optstring, 1, c);
  }

  /** No entry is lost and none is doubled. */
  lemma OrderIsPermutation(argv: seq<Arg>, optstring: string)
    requires argv != []
    ensures forall a, b :: 0 <= a < b < |Order(argv, optstring)| ==>
              Order(argv, optstring)[a] != Order(argv, optstring)[b]
    ensures forall k :: 0 <= k < |argv| <==> k in Order(argv, optstring)
  {
    OrderIsStablePartition(argv, optstring);
    var c := Chosen(argv, optstring, 1);
    var r := Rest(c, 1, |argv|);
    forall x, y | 0 <= x < |c| && 0 <= y < |r| ensures c[x] != r[y] {
      assert r[y] in r;
    }
    JoinDistinct(c, r);
    assert forall k :: k in [0] + c + r <==> k == 0 || k in c || k in r;
  }

  lemma JoinDistinct(c: seq<nat>, r: seq<nat>)
    requires forall a, b :: 0 <= a < b < |c| ==> c[a] != c[b]
    requires forall a, b :: 0 <= a < b < |r| ==> r[a] != r[b]
    requires forall x, y :: 0 <= x < |c| && 0 <= y < |r| ==> c[x] != r[y]
    requires 0 !in c && 0 !in r
    ensures forall a, b :: 0 <= a < b < |[0] + c + r| ==> ([0] + c + r)[a] != ([0] + c + r)[b]
  {
    var o := [0] + c + r;
    assert forall k :: 1 <= k < 1 + |c| ==> o[k] == c[k - 1];
    assert forall k :: 1 + |c| <= k < |o| ==> o[k] == r[k - 1 - |c|];
  }

  /** The entries of `was` at these positions stand in tmp from `off` on. */
  ghost predicate Copied(was: seq<Arg>, at: seq<nat>, tmp: seq<Arg>, off: nat) {
    off + |at| <= |tmp| && forall m :: 0 <= m < |at| ==> at[m] < |was| && tmp[off + m] == was[at[m]]
  }

  lemma CopiedNone(was: seq<Arg>, tmp: seq<Arg>, off: nat)
    requires off <= |tmp|
    ensures Copied(was, [], tmp, off)
  {}

  /** One more entry copied behind the others. */
  lemma CopiedExtends(was: seq<Arg>, at: seq<nat>, tmp: seq<Arg>, off: nat, i: nat)
    requires Copied(was, at, tmp, off) && off + |at| < |tmp| && i < |was|
    ensures Copied(was, at + [i], tmp[off + |at| := was[i]], off)
  {}

  /** Entries in front of a write stay as they are. */
  lemma CopiedStays(was: seq<Arg>, at: seq<nat>, tmp: seq<Arg>, off: nat, j: nat, a: Arg)
    requires Copied(was, at, tmp, off) && off + |at| <= j < |tmp|
    ensures Copied(was, at, tmp[j := a], off)
  {}

  method Store(tmp: array<Arg>, j: nat, a: Arg)
    requires j < tmp.Length
    modifies tmp
    ensures tmp[..] == old(tmp[..])[j := a]
  {
    tmp[j] := a;
  }

  lemma ChosenFits(was: seq<Arg>, optstring: string)
    requires was != []
    ensures 1 + |Chosen(was, optstring, 1)| <= |was|
  {
    OrderIsStablePartition(was, optstring);
  }

  /** An option, and its argument if it takes one, are chosen next. */
  lemma ChosenNext(was: seq<Arg>, optstring: string, i: nat, at: seq<nat>)
    requires i < |was| && IsOption(was[i]) && !IsEnd(was[i])
    ensures at + Chosen(was, optstring, i) ==
            if WantsNext(was[i], optstring) && i + 1 < |was|
            then at + [i] + [i + 1] + Chosen(was, optstring, i + 2)
            else at + [i] + Chosen(was, optstring, i + 1)
  {
    hide WantsNext, IsOption, IsEnd;
    if WantsNext(was[i], optstring) && i + 1 < |was| {
      assert at + ([i, i + 1] + Chosen(was, optstring, i + 2)) == at + [i] + [i + 1] + Chosen(was, optstring, i + 2);
    } else {
      Associative(at, [i], Chosen(was, optstring, i + 1));
    }
  }

  lemma ChosenSkips(was: seq<Arg>, optstring: string, i: nat)
    requires i < |was| && !IsOption(was[i])
    ensures Chosen(was, optstring, i) == Chosen(was, optstring, i + 1)
  {}

  lemma ChosenEnds(was: seq<Arg>, optstring: string, i: nat)
    requires i >= |was| || (IsOption(was[i]) && IsEnd(was[i]))
    ensures Chosen(was, optstring, i) == []
  {}

  /** Entry i is copied behind those at positions `at`. */
  method Append(tmp: array<Arg>, j: nat, a: Arg, ghost was: seq<Arg>, ghost at: seq<nat>, ghost i: nat)
    requires i < |was| && a == was[i] && j == 1 + |at| < tmp.Length && Copied(was, at, tmp[..], 1)
    modifies tmp
    ensures Copied(was, at + [i], tmp[..], 1)
  {
    hide Copied;
    CopiedExtends(was, at, tmp[..], 1, i);
    Store(tmp, j, a);
  }

  /** There is room for what is still to be chosen. */
  lemma RoomFor(was: seq<Arg>, optstring: string, at: seq<nat>, more: seq<nat>)
    requires was != [] && Chosen(was, optstring, 1) == at + more
    ensures 1 + |at| + |more| <= |was|
  {
    hide Chosen;
    ChosenFits(was, optstring);
  }

  /** First loop: options and their arguments, in order. */
  method CopyOptions(argv: array<Arg>, optstring: string, tmp: array<Arg>, ghost was: seq<Arg>)
    returns (j: nat)
    requires argv != tmp && argv.Length == tmp.Length >= 1 && was == argv[..]
    modifies tmp
    ensures j == 1 + |Chosen(was, optstring, 1)|
    ensures Copied(was, Chosen(was, optstring, 1), tmp[..], 1)
  {
    hide Chosen, WantsNext, IsOption, IsEnd, Copied;
    ghost var c := Chosen(was, optstring, 1);
    ghost var at: seq<nat> := [];
    assert c == at + c;
    CopiedNone(was, tmp[..], 1);
    var i := 1;
    j := 1;
    while i < argv.Length
      invariant 1 <= i <= argv.Length == |was| && was == argv[..]
      invariant j == 1 + |at| && c == at + Chosen(was, optstring, i)
      invariant Copied(was, at, tmp[..], 1)
    {
      var arg := argv[i];
      assert arg == was[i];
      if !IsOption(arg) {
        ChosenSkips(was, optstring, i);
        i := i + 1;
        continue;
      }
      if IsEnd(arg) {
        break;
      }
      ChosenNext(was, optstring, i, at);
      if WantsNext(arg, optstring) && i + 1 < argv.Length {
        RoomFor(was, optstring, at + [i] + [i + 1], Chosen(was, optstring, i + 2));
        Append(tmp, j, arg, was, at, i);
        Append(tmp, j + 1, argv[i + 1], was, at + [i], i + 1);
        at, j, i := at + [i] + [i + 1], j + 2, i + 2;
      } else {
        RoomFor(was, optstring, at + [i], Chosen(was, optstring, i + 1));
        Append(tmp, j, arg, was, at, i);
        at, j, i := at + [i], j + 1, i + 1;
      }
    }
    ChosenEnds(was, optstring, i);
    assert c == at;
  }

  /** Second loop: the non-options, and everything after "--". */
  method CopyRest(argv: array<Arg>, ghost c: seq<nat>, tmp: array<Arg>, k: nat, ghost was: seq<Arg>)
    returns (j: nat)
    requires argv != tmp && argv.Length == tmp.Length && was == argv[..]
    requires forall a, b :: 0 <= a < b < |was| ==> was[a].ptr != was[b].ptr
    requires k == 1 + |c| && k + |Rest(c, 1, |was|)| == |was|
    requires Copied(was, c, tmp[..], 1)
    modifies tmp
    ensures j == argv.Length
    ensures Copied(was, c, tmp[..], 1) && Copied(was, Rest(c, 1, |was|), tmp[..], k)
  {
    hide Rest;
    ghost var r := Rest(c, 1, |was|);
    ghost var at: seq<nat> := [];
    j := k;
    var i := 1;
    while i < argv.Length
      invariant 1 <= i <= argv.Length && was == argv[..]
      invariant j == k + |at| && r == at + Rest(c, i, |was|)
      invariant Copied(was, c, tmp[..], 1) && Copied(was, at, tmp[..], k)
    {
      var arg := argv[i];
      assert arg == was[i];
      var taken := IsTaken(tmp, k, arg);
      TakenMeans(was, c, tmp[..], i);
      assert taken <==> i in c;
      RestNext(c, i, |was|, at);
      if !taken {
        CopiedExtends(was, at, tmp[..], k, i);
        CopiedStays(was, c, tmp[..], 1, j, arg);
        Store(tmp, j, arg);
        at, j := at + [i], j + 1;
      }
      i := i + 1;
    }
    RestEnds(c, i, |was|);
    assert r == at;
  }

  lemma RestNext(c: seq<nat>, i: nat, n: nat, at: seq<nat>)
    requires i < n
    ensures at + Rest(c, i, n) == (if i in c then at else at + [i]) + Rest(c, i + 1, n)
  {
    var more := Rest(c, i + 1, n);
    if i in c {
      assert Rest(c, i, n) == more;
    } else {
      assert Rest(c, i, n) == [i] + more;
      assert at + ([i] + more) == at + [i] + more;
    }
  }

  lemma RestEnds(c: seq<nat>, i: nat, n: nat)
    requires i >= n
    ensures Rest(c, i, n) == []
  {}

  /** Comparing addresses finds out whether a position has been chosen. */
  lemma TakenMeans(was: seq<Arg>, c: seq<nat>, tmp: seq<Arg>, i: nat)
    requires forall a, b :: 0 <= a < b < |was| ==> was[a].ptr != was[b].ptr
    requires Copied(was, c, tmp, 1) && i < |was|
    ensures (exists n :: 1 <= n < 1 + |c| && tmp[n].ptr == was[i].ptr) <==> i in c
  {
    if i in c {
      var m :| 0 <= m < |c| && c[m] == i;
      assert tmp[1 + m].ptr == was[i].ptr;
    }
    if n :| 1 <= n < 1 + |c| && tmp[n].ptr == was[i].ptr {
      assert tmp[1 + (n - 1)] == was[c[n - 1]];
    }
  }

  /** The program. `haveTmp` says whether the copy could be allocated. */
  method Permute(argv: array<Arg>, optstring: string, haveTmp: bool)
    requires forall a, b :: 0 <= a < b < argv.Length ==> argv[a].ptr != argv[b].ptr
    modifies argv
    ensures !haveTmp ==> argv[..] == old(argv[..])
    ensures haveTmp ==> Copied(old(argv[..]), Order(old(argv[..]), optstring), argv[..], 0)
    ensures haveTmp ==> |Order(old(argv[..]), optstring)| == argv.Length
  {
    hide Chosen, Rest, Increasing;
    if argv.Length == 0 {
      assert Order(argv[..], optstring) == [];
      return;
    }
    if !haveTmp {
      return;
    }
    ghost var was := argv[..];
    ghost var c := Chosen(was, optstring, 1);
    OrderIsStablePartition(was, optstring);
    var tmp := new Arg[argv.Length](k => Arg(0, ""));
    var k := CopyOptions(argv, optstring, tmp, was);
    var j := CopyRest(argv, c, tmp, k, was);
    assert j == argv.Length;
    WriteBack(argv, tmp);
    CopiedJoin(was, c, Rest(c, 1, |was|), tmp[..], argv[..]);
  }

  /** Third loop: the copy goes back into argv. */
  method WriteBack(argv: array<Arg>, tmp: array<Arg>)
    requires argv != tmp && argv.Length == tmp.Length >= 1
    modifies argv
    ensures argv[..] == [old(argv[0])] + tmp[1..]
  {
    var i := 1;
    while i < argv.Length
      invariant 1 <= i <= argv.Length && argv[0] == old(argv[0])
      invariant forall k :: 1 <= k < i ==> argv[k] == tmp[k]
    {
      argv[i] := tmp[i];
      i := i + 1;
    }
  }

  lemma CopiedJoin(was: seq<Arg>, c: seq<nat>, r: seq<nat>, tmp: seq<Arg>, out: seq<Arg>)
    requires |tmp| == |was| == |out| == 1 + |c| + |r|
    requires Copied(was, c, tmp, 1) && Copied(was, r, tmp, 1 + |c|)
    requires out == [was[0]] + tmp[1..]
    ensures Copied(was, [0] + c + r, out, 0)
  {
    var o := [0] + c + r;
    forall m | 0 <= m < |o| ensures o[m] < |was| && out[m] == was[o[m]] {
      if 1 <= m < 1 + |c| {
        assert o[m] == c[m - 1] && out[m] == tmp[1 + (m - 1)];
      } else if m >= 1 {
        assert o[m] == r[m - 1 - |c|] && out[m] == tmp[1 + |c| + (m - 1 - |c|)];
      }
    }
  }

  /** The scan for an entry among those already copied. */
  method IsTaken(tmp: array<Arg>, k: nat, a: Arg) returns (taken: bool)
    requires k <= tmp.Length
    ensures taken <==> exists n :: 1 <= n < k && tmp[n].ptr == a.ptr
  {
    taken := false;
    var n := 1;
    while n < k && !taken
      invariant taken ==> exists m :: 1 <= m < k && tmp[m].ptr == a.ptr
      invariant !taken ==> forall m :: 1 <= m < n && m < k ==> tmp[m].ptr != a.ptr
      decreases k - n, !taken
    {
      taken := tmp[n].ptr == a.ptr;
      n := n + 1;
    }
  }
}
