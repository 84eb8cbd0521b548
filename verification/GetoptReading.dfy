/** What the program gets from its arguments: getopt, called until it ends, on the
    permuted argv, against a reading of argv from left to right. */
module GetoptReading {
  import opened Bytes
  import opened Getopt

  // ------------------------------------------------------------ the reading

  /** c stands in the option string for the first time at k. */
  predicate FirstAt(o: string, c: char, k: nat) {
    k < |o| && o[k] == c && c !in o[..k]
  }

  /** Where c stands first, a colon follows. */
  predicate BeforeColon(o: string, c: char) {
    exists k: nat :: k + 1 < |o| && FirstAt(o, c, k) && o[k + 1] == ':'
  }

  predicate Known(o: string, c: char) {
    c != ':' && c in o
  }

  predicate TakesArgument(o: string, c: char) {
    c != ':' && BeforeColon(o, c)
  }

  /** What an option comes with: nothing, the text behind its letter, or the next
      entry; or it is not an option of the program, or lacks its argument. */
  datatype Gives = Bare | Attached(text: string) | Next(arg: Arg) | Unknown | Lacking

  /** An option, and the place in argv where its letter stands. */
  datatype Item = Item(from: nat, at: nat, letter: char, gives: Gives)

  /** "-" and at least one letter. */
  predicate Dashed(a: Arg) {
    |a.text| >= 2 && a.text[0] == '-'
  }

  predicate Dashes(a: Arg) {
    a.text == "--"
  }

  /** The options in an entry, from one letter on: up to the first that takes an
      argument, which is the text behind it or the next entry. */
  function Letters(a: Arg, at: nat, o: string, next: Option<Arg>): seq<Item>
    decreases |a.text| - at
  {
    if at >= |a.text| then []
    else if TakesArgument(o, a.text[at]) then
      [Item(a.ptr, at, a.text[at],
            if at + 1 < |a.text| then Attached(a.text[at + 1..])
            else match next case None => Lacking case Some(b) => Next(b))]
    else
      [Item(a.ptr, at, a.text[at], if Known(o, a.text[at]) then Bare else Unknown)] + Letters(a, at + 1, o, next)
  }

  /** The entry ends in a letter that takes the next entry for its argument. */
  predicate Pulls(a: Arg, at: nat, o: string)
    decreases |a.text| - at
  {
    at < |a.text| && if TakesArgument(o, a.text[at]) then at + 1 == |a.text| else Pulls(a, at + 1, o)
  }

  function After(argv: seq<Arg>, i: nat): Option<Arg> {
    if i + 1 < |argv| then Some(argv[i + 1]) else None
  }

  /** The options from entry i on, entries without a dash passed over, up to "--". */
  function Read(argv: seq<Arg>, o: string, i: nat): seq<Item>
    decreases |argv| - i
  {
    if i >= |argv| then []
    else if !Dashed(argv[i]) then Read(argv, o, i + 1)
    else if Dashes(argv[i]) then []
    else if Pulls(argv[i], 1, o) && i + 1 < |argv| then Letters(argv[i], 1, o, After(argv, i)) + Read(argv, o, i + 2)
    else Letters(argv[i], 1, o, After(argv, i)) + Read(argv, o, i + 1)
  }

  /** The positions of the entries that the reading uses. */
  function Taken(argv: seq<Arg>, o: string, i: nat): seq<nat>
    decreases |argv| - i
  {
    if i >= |argv| then []
    else if !Dashed(argv[i]) then Taken(argv, o, i + 1)
    else if Dashes(argv[i]) then []
    else if Pulls(argv[i], 1, o) && i + 1 < |argv| then [i, i + 1] + Taken(argv, o, i + 2)
    else [i] + Taken(argv, o, i + 1)
  }

  /** The reading ends at an option that lacks its argument. */
  predicate Lacks(argv: seq<Arg>, o: string, i: nat)
    decreases |argv| - i
  {
    i < |argv|
    && if !Dashed(argv[i]) then Lacks(argv, o, i + 1)
       else if Dashes(argv[i]) then false
       else if Pulls(argv[i], 1, o) && i + 1 < |argv| then Lacks(argv, o, i + 2)
       else Pulls(argv[i], 1, o) || Lacks(argv, o, i + 1)
  }

  // ------------------------------------------------------------- the program

  datatype Pos = Pos(optind: nat, at: nat)

  /** Between two calls: at the start of an entry, or within the letters of one. */
  predicate PosOk(b: seq<Arg>, p: Pos) {
    p.at == 1
    || (p.at > 1 && p.optind < |b| && p.at < |b[p.optind].text| && Dashed(b[p.optind]) && !Dashes(b[p.optind]))
  }

  function Behind(b: seq<Arg>, p: Pos): Pos
    requires p.optind < |b|
  {
    if p.at + 1 < |b[p.optind].text| then Pos(p.optind, p.at + 1) else Pos(p.optind + 1, 1)
  }

  /** What one call of getopt delivers, if anything, and where it leaves off. */
  function Call(b: seq<Arg>, o: string, p: Pos): (r: (Option<Item>, Pos))
    requires PosOk(b, p)
    ensures PosOk(b, r.1)
  {
    if p.optind >= |b| || !Dashed(b[p.optind]) then (None, p)
    else if Dashes(b[p.optind]) then (None, Pos(p.optind + 1, 1))
    else
      var a, c := b[p.optind], b[p.optind].text[p.at];
      if !Known(o, c) then (Some(Item(a.ptr, p.at, c, Unknown)), Behind(b, p))
      else if !TakesArgument(o, c) then (Some(Item(a.ptr, p.at, c, Bare)), Behind(b, p))
      else if p.at + 1 < |a.text| then
        (Some(Item(a.ptr, p.at, c, Attached(a.text[p.at + 1..]))), Pos(p.optind + 1, 1))
      else if p.optind + 1 < |b| then
        (Some(Item(a.ptr, p.at, c, Next(b[p.optind + 1]))), Pos(p.optind + 2, 1))
      else (Some(Item(a.ptr, p.at, c, Lacking)), Pos(p.optind + 1, 1))
  }

  /** All calls up to the one that ends: the options, and the entry left off at. */
  function Delivered(b: seq<Arg>, o: string, p: Pos): (seq<Item>, nat)
    requires PosOk(b, p)
    decreases |b| - p.optind, if p.optind < |b| then |b[p.optind].text| - p.at else 0
  {
    var (item, q) := Call(b, o, p);
    if item.None? then ([], q.optind)
    else
      var (items, e) := Delivered(b, o, q);
      ([item.value] + items, e)
  }

  lemma StrChrFirst(s: string, c: char)
    ensures match StrChr(s, c)
            case None => c !in s
            case Some(k) => FirstAt(s, c, k)
  {
    if s != "" && s[0] != c {
      StrChrFirst(s[1..], c);
      var r := StrChr(s[1..], c);
      if r.Some? {
        assert s[..r.value + 1] == [s[0]] + s[1..][..r.value];
      }
    }
  }

  lemma Within(s: string, k: nat, l: nat)
    requires k < l <= |s|
    ensures s[k] in s[..l]
  {
    assert s[..l][k] == s[k];
  }

  lemma FirstIsOne(s: string, c: char, k: nat, l: nat)
    requires FirstAt(s, c, k) && FirstAt(s, c, l)
    ensures k == l
  {
    if k < l {
      Within(s, k, l);
    }
    if l < k {
      Within(s, l, k);
    }
  }

  /** What the program finds out with strchr. */
  lemma StrChrTells(o: string, c: char)
    ensures StrChr(o, c).Some? <==> c in o
    ensures StrChr(o, c).Some? && CharAt(o, StrChr(o, c).value + 1) == ':' <==> BeforeColon(o, c)
  {
    StrChrFirst(o, c);
    if BeforeColon(o, c) {
      var k: nat :| k + 1 < |o| && FirstAt(o, c, k) && o[k + 1] == ':';
      FirstIsOne(o, c, k, StrChr(o, c).value);
    }
  }

  lemma TextEnds(s: CText, k: nat)
    ensures CharAt(s, k) == '\0' <==> k >= |s|
  {}

  /** The state of getopt between its calls. */
  class Parser {
    var optind: nat
    var pos: nat
    var init: bool
    var optarg: string
    var optopt: char

    constructor ()
      ensures optind == 1 && pos == 1 && !init
    {
      optind, pos, init, optarg, optopt := 1, 1, false, "", '\0';
    }

    function At(): Pos
      reads this
    {
      Pos(optind, pos)
    }

    /** Behind the letter at hand. */
    method Advance(a: Arg)
      modifies this`optind, this`pos
      ensures At() == if old(pos) + 1 < |a.text| then Pos(old(optind), old(pos) + 1) else Pos(old(optind) + 1, 1)
    {
      TextEnds(a.text, pos + 1);
      pos := pos + 1;
      if CharAt(a.text, pos) == '\0' {
        optind := optind + 1;
        pos := 1;
      }
    }

    /** Behind an option that takes an argument: the text behind the letter, or the
        next entry; false if there is neither. */
    method TakeArgument(argv: array<Arg>, arg: Arg) returns (ok: bool, ghost gives: Gives)
      requires optind < argv.Length && argv[optind] == arg && pos < |arg.text|
      modifies this`optind, this`pos, this`optarg
      ensures ok <==> !gives.Lacking?
      ensures At() == Pos(old(optind) + (if gives.Next? then 2 else 1), 1)
      ensures gives == if old(pos) + 1 < |arg.text| then Attached(arg.text[old(pos) + 1..])
                       else if old(optind) + 1 < argv.Length then Next(argv[old(optind) + 1])
                       else Lacking
      ensures (gives.Attached? ==> optarg == gives.text) && (gives.Next? ==> optarg == gives.arg.text)
    {
      TextEnds(arg.text, pos + 1);
      if CharAt(arg.text, pos + 1) != '\0' {
        optarg := arg.text[pos + 1..];
        gives := Attached(optarg);
      } else if optind + 1 < argv.Length {
        optind := optind + 1;
        optarg := argv[optind].text;
        gives := Next(argv[optind]);
      } else {
        optind := optind + 1;
        pos := 1;
        return false, Lacking;
      }
      optind := optind + 1;
      pos := 1;
      ok := true;
    }

    /** The letter at hand. */
    method TakeLetter(argv: array<Arg>, o: string) returns (r: int, ghost item: Item)
      requires optind < argv.Length && Dashed(argv[optind]) && !Dashes(argv[optind]) && PosOk(argv[..], At())
      modifies this`optind, this`pos, this`optarg, this`optopt
      ensures (Some(item), At()) == Call(argv[..], o, old(At()))
      ensures optopt == item.letter && r == Result(item)
      ensures (item.gives.Attached? ==> optarg == item.gives.text)
              && (item.gives.Next? ==> optarg == item.gives.arg.text)
    {
      var arg := argv[optind];
      optopt := CharAt(arg.text, pos);
      StrChrTells(o, optopt);
      var p := StrChr(o, optopt);
      item := Item(arg.ptr, pos, optopt, Unknown);
      if optopt == ':' || p.None? {
        Advance(arg);
        return '?' as int, item;
      }
      if CharAt(o, p.value + 1) == ':' {
        var ok, gives := TakeArgument(argv, arg);
        item := item.(gives := gives);
        if !ok {
          return '?' as int, item;
        }
      } else {
        item := item.(gives := Bare);
        Advance(arg);
      }
      return optopt as int, item;
    }

    /** One call of getopt; -1 is its end. The first permutes argv. */
    method GetOpt(argv: array<Arg>, o: string, haveTmp: bool) returns (r: int, ghost item: Option<Item>)
      requires !init ==> forall a, b :: 0 <= a < b < argv.Length ==> argv[a].ptr != argv[b].ptr
      requires PosOk(argv[..], At()) && (!init ==> At() == Pos(1, 1))
      modifies this, argv
      ensures init && if old(init) then argv[..] == old(argv[..]) else Permuted(old(argv[..]), o, haveTmp, argv[..])
      ensures (item, At()) == Call(argv[..], o, old(At()))
      ensures r == (if item.None? then -1 else Result(item.value))
      ensures item.Some? ==>
                && optopt == item.value.letter
                && (item.value.gives.Attached? ==> optarg == item.value.gives.text)
                && (item.value.gives.Next? ==> optarg == item.value.gives.arg.text)
    {
      hide Order, Copied, TakesArgument, Known;
      item := None;
      if !init {
        Permute(argv, o, haveTmp);
        init := true;
      }
      if optind >= argv.Length {
        return -1, None;
      }
      EntryTells(argv[optind]);
      if !IsOption(argv[optind]) {
        return -1, None;
      }
      if IsEnd(argv[optind]) {
        optind := optind + 1;
        return -1, None;
      }
      ghost var letter;
      r, letter := TakeLetter(argv, o);
      item := Some(letter);
    }

    /** The loop of the program: calls up to the end. */
    method ReadOptions(argv: array<Arg>, o: string, haveTmp: bool) returns (results: seq<int>, ghost items: seq<Item>)
      requires forall a, b :: 0 <= a < b < argv.Length ==> argv[a].ptr != argv[b].ptr
      requires At() == Pos(1, 1) && !init
      modifies this, argv
      ensures Permuted(old(argv[..]), o, haveTmp, argv[..])
      ensures (items, optind) == Delivered(argv[..], o, Pos(1, 1))
      ensures results == Results(items)
      ensures haveTmp && argv.Length > 0 ==>
                (Delivers(argv[..], o, old(argv[..])) <==> KeepsReading(old(argv[..]), o))
    {
      hide Call, Delivered, Permuted, Result, Delivers, KeepsReading;
      ghost var was := argv[..];
      var r, item := GetOpt(argv, o, haveTmp);
      results, items := [], [];
      assert [] + Delivered(argv[..], o, Pos(1, 1)).0 == Delivered(argv[..], o, Pos(1, 1)).0;
      ghost var b := argv[..];
      ghost var before := Pos(1, 1);
      while r != -1
        invariant init && argv[..] == b && PosOk(b, At()) && PosOk(b, before)
        invariant (item, At()) == Call(b, o, before)
        invariant Delivered(b, o, Pos(1, 1)) == (items + Delivered(b, o, before).0, Delivered(b, o, before).1)
        invariant results == Results(items)
        invariant r == (if item.None? then -1 else Result(item.value))
        decreases |b| - before.optind, if before.optind < |b| then |b[before.optind].text| - before.at else 0
      {
        results := results + [r];
        assert item.Some?;
        ResultsAppend(items, item.value);
        DeliveredNext(b, o, before, items);
        CallMoves(b, o, before);
        items := items + [item.value];
        before := At();
        r, item := GetOpt(argv, o, haveTmp);
      }
      assert item.None? by { ResultIsChar(item); }
      DeliveredEnds(b, o, before);
      assert items + [] == items;
      if haveTmp && argv.Length > 0 {
        PermutedDelivers(was, o);
        PermutedIs(was, o, b);
      }
    }
  }

  lemma ResultIsChar(item: Option<Item>)
    ensures item.Some? ==> Result(item.value) >= 0
  {}

  lemma DeliveredEnds(b: seq<Arg>, o: string, p: Pos)
    requires PosOk(b, p) && Call(b, o, p).0.None?
    ensures Delivered(b, o, p) == ([], Call(b, o, p).1.optind)
  {}

  /** argv after the first call. */
  ghost predicate Permuted(was: seq<Arg>, o: string, haveTmp: bool, now: seq<Arg>) {
    if haveTmp then |Order(was, o)| == |was| && Copied(was, Order(was, o), now, 0) && |now| == |was| else now == was
  }

  lemma PermutedIs(was: seq<Arg>, o: string, now: seq<Arg>)
    requires Permuted(was, o, true, now) && AllWithin(Order(was, o), |was|)
    ensures now == Entries(was, Order(was, o))
  {
    hide Order;
    assert |now| == |Order(was, o)|;
    assert forall m :: 0 <= m < |now| ==> now[0 + m] == was[Order(was, o)[m]];
  }

  /** What getopt returns for an option. */
  function Result(item: Item): int {
    if item.gives.Unknown? || item.gives.Lacking? then '?' as int else item.letter as int
  }

  function Results(items: seq<Item>): seq<int> {
    if items == [] then [] else Results(items[..|items| - 1]) + [Result(items[|items| - 1])]
  }

  lemma ResultsAppend(items: seq<Item>, item: Item)
    ensures Results(items + [item]) == Results(items) + [Result(item)]
  {
    assert (items + [item])[..|items|] == items;
  }

  lemma DeliveredNext(b: seq<Arg>, o: string, p: Pos, items: seq<Item>)
    requires PosOk(b, p) && Call(b, o, p).0.Some?
    ensures var (item, q) := Call(b, o, p);
            items + Delivered(b, o, p).0 == items + [item.value] + Delivered(b, o, q).0
            && Delivered(b, o, p).1 == Delivered(b, o, q).1
  {
    hide Call;
  }

  lemma CallMoves(b: seq<Arg>, o: string, p: Pos)
    requires PosOk(b, p) && Call(b, o, p).0.Some?
    ensures var q := Call(b, o, p).1;
            q.optind > p.optind || (q.optind == p.optind < |b| && q.at > p.at)
    ensures p.optind < |b|
  {}

  lemma EntryTells(a: Arg)
    ensures IsOption(a) <==> Dashed(a)
    ensures IsOption(a) ==> (IsEnd(a) <==> Dashes(a))
  {
    TextEnds(a.text, 1);
    TextEnds(a.text, 2);
  }

  // ------------------------------------------- what is delivered, entry by entry

  /** Where the calls go on behind an entry of options. */
  function BehindEntry(b: seq<Arg>, o: string, i: nat, at: nat): nat
    requires i < |b|
  {
    if Pulls(b[i], at, o) && i + 1 < |b| then i + 2 else i + 1
  }

  /** One call takes one letter. */
  lemma CallLetter(b: seq<Arg>, o: string, i: nat, at: nat)
    requires i < |b| && Dashed(b[i]) && !Dashes(b[i]) && 1 <= at < |b[i].text|
    ensures var (item, q) := Call(b, o, Pos(i, at));
            && item.Some?
            && (if !TakesArgument(o, b[i].text[at]) && at + 1 < |b[i].text|
                then q == Pos(i, at + 1) && BehindEntry(b, o, i, at + 1) == BehindEntry(b, o, i, at)
                     && Letters(b[i], at, o, After(b, i)) == [item.value] + Letters(b[i], at + 1, o, After(b, i))
                else q == Pos(BehindEntry(b, o, i, at), 1) && Letters(b[i], at, o, After(b, i)) == [item.value])
  {
    hide TakesArgument, Known;
    KnownTakes(o, b[i].text[at]);
    if !TakesArgument(o, b[i].text[at]) {
      assert at + 1 == |b[i].text| ==> Letters(b[i], at + 1, o, After(b, i)) == [] && !Pulls(b[i], at + 1, o);
    }
  }

  /** The letters of an entry are delivered one by one. */
  lemma {:induction false} EntryDelivered(b: seq<Arg>, o: string, i: nat, at: nat)
    requires i < |b| && Dashed(b[i]) && !Dashes(b[i]) && 1 <= at < |b[i].text|
    ensures var rest := Delivered(b, o, Pos(BehindEntry(b, o, i, at), 1));
            Delivered(b, o, Pos(i, at)) == (Letters(b[i], at, o, After(b, i)) + rest.0, rest.1)
    decreases |b[i].text| - at
  {
    hide TakesArgument, Known, Call, Letters, BehindEntry;
    CallLetter(b, o, i, at);
    var item := Call(b, o, Pos(i, at)).0;
    if !TakesArgument(o, b[i].text[at]) && at + 1 < |b[i].text| {
      EntryDelivered(b, o, i, at + 1);
      Associative([item.value], Letters(b[i], at + 1, o, After(b, i)),
                  Delivered(b, o, Pos(BehindEntry(b, o, i, at), 1)).0);
    }
  }

  lemma KnownTakes(o: string, c: char)
    ensures TakesArgument(o, c) ==> Known(o, c)
  {}

  /** What the next entry is matters only to an option that takes it. */
  lemma {:induction false} LettersAlone(a: Arg, at: nat, o: string, x: Option<Arg>, y: Option<Arg>)
    requires !Pulls(a, at, o)
    ensures Letters(a, at, o, x) == Letters(a, at, o, y)
    decreases |a.text| - at
  {
    if at < |a.text| && !TakesArgument(o, a.text[at]) {
      LettersAlone(a, at + 1, o, x, y);
    }
  }

  // ----------------------------------------------- an argv in the order of reading

  ghost predicate AllWithin(at: seq<nat>, n: nat) {
    forall m :: 0 <= m < |at| ==> at[m] < n
  }

  /** The entries at these positions. */
  ghost function Entries(argv: seq<Arg>, at: seq<nat>): (r: seq<Arg>)
    requires AllWithin(at, |argv|)
    ensures |r| == |at| && forall m :: 0 <= m < |at| ==> r[m] == argv[at[m]]
  {
    seq(|at|, m requires 0 <= m < |at| => argv[at[m]])
  }

  /** The positions from 1 on, those in c first. */
  function Arranged(argv: seq<Arg>, c: seq<nat>): seq<nat> {
    [0] + c + Rest(c, 1, |argv|)
  }

  lemma {:induction false} TakenIncreasing(argv: seq<Arg>, o: string, i: nat)
    ensures i <= |argv| ==> Increasing(Taken(argv, o, i), i, |argv|)
    decreases |argv| - i
  {
    hide Increasing, Pulls, Dashed, Dashes;
    var n := |argv|;
    if i >= n || (Dashed(argv[i]) && Dashes(argv[i])) {
      IncreasingNone(i, n);
    } else if !Dashed(argv[i]) {
      TakenIncreasing(argv, o, i + 1);
      IncreasingFrom(Taken(argv, o, i + 1), i, i + 1, n);
    } else if Pulls(argv[i], 1, o) && i + 1 < n {
      var rest := Taken(argv, o, i + 2);
      TakenIncreasing(argv, o, i + 2);
      IncreasingOne(i + 1, rest, n);
      IncreasingOne(i, [i + 1] + rest, n);
      assert [i, i + 1] + rest == [i] + ([i + 1] + rest);
    } else {
      TakenIncreasing(argv, o, i + 1);
      IncreasingOne(i, Taken(argv, o, i + 1), n);
    }
  }

  /** Whether an entry ends the options: a word without a dash, or "--". */
  predicate Stops(a: Arg) {
    !Dashed(a) || Dashes(a)
  }

  /** The first entry that the reading does not use is not an option. */
  lemma {:induction false} RestStops(argv: seq<Arg>, o: string, i: nat, c: seq<nat>)
    requires i <= |argv| && forall k :: i <= k < |argv| ==> (k in c <==> k in Taken(argv, o, i))
    ensures var r := Rest(c, i, |argv|);
            r != [] ==> r[0] < |argv| && Stops(argv[r[0]]) && (Lacks(argv, o, i) ==> !Dashed(argv[r[0]]))
    decreases |argv| - i
  {
    hide Pulls, Dashed, Dashes, Taken, Lacks, Read, Increasing;
    if i < |argv| {
      TakenFrom(argv, o, i + 1);
      TakenFrom(argv, o, i + 2);
      ReadSteps(argv, o, i);
      NotDashes(argv[i]);
      if !Dashed(argv[i]) || Dashes(argv[i]) {
        assert i !in c;
      } else if Pulls(argv[i], 1, o) && i + 1 < |argv| {
        RestStops(argv, o, i + 2, c);
        assert Rest(c, i, |argv|) == Rest(c, i + 1, |argv|) == Rest(c, i + 2, |argv|);
      } else {
        RestStops(argv, o, i + 1, c);
      }
    }
  }

  lemma TakenFrom(argv: seq<Arg>, o: string, i: nat)
    requires i <= |argv| + 1
    ensures forall k :: k in Taken(argv, o, i) ==> k >= i
  {
    TakenIncreasing(argv, o, i);
  }

  /** The entries that are left when getopt ends: all others, but for a "--" in front
      of them. */
  function Left(others: seq<Arg>): seq<Arg> {
    if others != [] && Dashes(others[0]) then others[1..] else others
  }

  /** The calls from entry m of b on, if from there b has the entries used by the
      reading from i on, and then others. */
  lemma {:induction false} InOrderDelivers(argv: seq<Arg>, o: string, i: nat, b: seq<Arg>, m: nat, others: seq<Arg>)
    requires AllWithin(Taken(argv, o, i), |argv|)
    requires m <= |b| && b[m..] == Entries(argv, Taken(argv, o, i)) + others
    requires (others != [] ==> Stops(others[0])) && (Lacks(argv, o, i) ==> others == [])
    ensures Delivered(b, o, Pos(m, 1)).0 == Read(argv, o, i)
    ensures Delivered(b, o, Pos(m, 1)).1 <= |b| && b[Delivered(b, o, Pos(m, 1)).1..] == Left(others)
    decreases |argv| - i
  {
    hide Letters, Pulls, Dashed, Dashes, Delivered, Taken, Read, Lacks, Entries, Stops, Left;
    ReadSteps(argv, o, i);
    if i >= |argv| || (Dashed(argv[i]) && Dashes(argv[i])) {
      OthersEnd(b, o, m, others);
    } else if !Dashed(argv[i]) {
      InOrderDelivers(argv, o, i + 1, b, m, others);
    } else {
      var n := if Pulls(argv[i], 1, o) && i + 1 < |argv| then 2 else 1;
      TakenSplits(argv, o, i, n, b, m, others);
      EntryInOrder(argv, o, i, b, m, others);
      InOrderDelivers(argv, o, i + n, b, m + n, others);
    }
  }

  lemma TakenSteps(argv: seq<Arg>, o: string, i: nat)
    ensures i >= |argv| || (Dashed(argv[i]) && Dashes(argv[i])) ==> Taken(argv, o, i) == []
    ensures i < |argv| && !Dashed(argv[i]) ==> Taken(argv, o, i) == Taken(argv, o, i + 1)
    ensures i < |argv| && Dashed(argv[i]) && !Dashes(argv[i]) ==>
              var n := if Pulls(argv[i], 1, o) && i + 1 < |argv| then 2 else 1;
              Taken(argv, o, i) == (if n == 2 then [i, i + 1] else [i]) + Taken(argv, o, i + n)
  {
    hide Pulls, Dashed, Dashes;
  }

  /** The reading, entry by entry. */
  lemma ReadSteps(argv: seq<Arg>, o: string, i: nat)
    ensures i >= |argv| || (Dashed(argv[i]) && Dashes(argv[i])) ==>
              Read(argv, o, i) == [] && Entries(argv, Taken(argv, o, i)) == [] && Taken(argv, o, i) == []
              && !Lacks(argv, o, i)
    ensures i < |argv| && !Dashed(argv[i]) ==>
              Read(argv, o, i) == Read(argv, o, i + 1) && Taken(argv, o, i) == Taken(argv, o, i + 1)
              && Lacks(argv, o, i) == Lacks(argv, o, i + 1)
    ensures i < |argv| && Dashed(argv[i]) && !Dashes(argv[i]) ==>
              var n := if Pulls(argv[i], 1, o) && i + 1 < |argv| then 2 else 1;
              && Read(argv, o, i) == Letters(argv[i], 1, o, After(argv, i)) + Read(argv, o, i + n)
              && Taken(argv, o, i) == (if n == 2 then [i, i + 1] else [i]) + Taken(argv, o, i + n)
              && (Lacks(argv, o, i + n) ==> Lacks(argv, o, i))
              && (Lacks(argv, o, i) ==> Lacks(argv, o, i + n) || (Pulls(argv[i], 1, o) && i + 1 >= |argv|))
              && (Pulls(argv[i], 1, o) && i + 1 >= |argv| ==> Lacks(argv, o, i) && Taken(argv, o, i + n) == [])
  {
    hide Letters, Pulls, Dashed, Dashes;
  }

  lemma OthersEnd(b: seq<Arg>, o: string, m: nat, others: seq<Arg>)
    requires m <= |b| && b[m..] == [] + others && (others != [] ==> Stops(others[0]))
    ensures Delivered(b, o, Pos(m, 1)).0 == []
    ensures Delivered(b, o, Pos(m, 1)).1 <= |b| && b[Delivered(b, o, Pos(m, 1)).1..] == Left(others)
  {
    assert b[m..] == others;
    if others != [] {
      assert b[m] == others[0];
      assert b[m + 1..] == others[1..];
    }
  }

  lemma TakenSplits(argv: seq<Arg>, o: string, i: nat, n: nat, b: seq<Arg>, m: nat, others: seq<Arg>)
    requires i < |argv| && Dashed(argv[i]) && !Dashes(argv[i])
    requires n == if Pulls(argv[i], 1, o) && i + 1 < |argv| then 2 else 1
    requires AllWithin(Taken(argv, o, i), |argv|)
    requires m <= |b| && b[m..] == Entries(argv, Taken(argv, o, i)) + others
    ensures AllWithin(Taken(argv, o, i + n), |argv|)
    ensures m + n <= |b| && b[m + n..] == Entries(argv, Taken(argv, o, i + n)) + others
    ensures b[m] == argv[i] && (n == 2 ==> b[m + 1] == argv[i + 1])
    ensures i + n >= |argv| ==> |b| == m + n + |others|
  {
    hide Pulls, Dashed, Dashes, Taken;
    TakenSteps(argv, o, i);
    TakenSteps(argv, o, i + n);
    var t, rest := Taken(argv, o, i), Taken(argv, o, i + n);
    assert forall k :: 0 <= k < |rest| ==> rest[k] == t[n + k];
    var r := Entries(argv, t) + others;
    assert b[m] == b[m..][0] == r[0] && (n == 2 ==> b[m + 1] == b[m..][1] == r[1]);
    assert b[m + n..] == b[m..][n..] == r[n..];
    assert r[n..] == Entries(argv, rest) + others;
  }

  /** One entry of options, with its argument if it has one. */
  lemma EntryInOrder(argv: seq<Arg>, o: string, i: nat, b: seq<Arg>, m: nat, others: seq<Arg>)
    requires Lacks(argv, o, i) ==> others == []
    requires i < |argv| && Dashed(argv[i]) && !Dashes(argv[i]) && m < |b| && b[m] == argv[i]
    requires Pulls(argv[i], 1, o) && i + 1 < |argv| ==> m + 1 < |b| && b[m + 1] == argv[i + 1]
    requires i + 1 >= |argv| ==> |b| == m + 1 + |others|
    ensures var n := if Pulls(argv[i], 1, o) && i + 1 < |argv| then 2 else 1;
            var rest := Delivered(b, o, Pos(m + n, 1));
            Delivered(b, o, Pos(m, 1)) == (Letters(argv[i], 1, o, After(argv, i)) + rest.0, rest.1)
  {
    hide Letters, Pulls, Delivered, Dashed, Dashes;
    assert 1 < |b[m].text| by { DashedLong(b[m]); }
    EntryDelivered(b, o, m, 1);
    if !Pulls(argv[i], 1, o) {
      LettersAlone(argv[i], 1, o, After(argv, i), After(b, m));
    }
  }

  lemma DashedLong(a: Arg)
    ensures Dashed(a) ==> |a.text| >= 2
  {}

  /** On an argv in the order of reading the calls deliver the reading, unless that
      ends at an option that lacks its argument and there are other entries. */
  lemma ArrangedDelivers(argv: seq<Arg>, o: string, b: seq<Arg>)
    requires argv != [] && AllWithin(Arranged(argv, Taken(argv, o, 1)), |argv|)
    requires b == Entries(argv, Arranged(argv, Taken(argv, o, 1)))
    requires Lacks(argv, o, 1) ==> Rest(Taken(argv, o, 1), 1, |argv|) == []
    ensures Delivers(b, o, argv)
  {
    hide Delivered, Taken, Read, Rest, Lacks, Entries, Stops;
    var c := Taken(argv, o, 1);
    var r := Rest(c, 1, |argv|);
    RestStops(argv, o, 1, c);
    ArrangedSplits(argv, c, r);
    InOrderDelivers(argv, o, 1, b, 1, Entries(argv, r));
  }

  lemma ArrangedSplits(argv: seq<Arg>, c: seq<nat>, r: seq<nat>)
    requires AllWithin([0] + c + r, |argv|)
    ensures AllWithin(c, |argv|) && AllWithin(r, |argv|)
    ensures Entries(argv, [0] + c + r)[1..] == Entries(argv, c) + Entries(argv, r)
    ensures r == [] <==> Entries(argv, r) == []
    ensures r != [] ==> Entries(argv, r)[0] == argv[r[0]]
  {
    hide Entries;
    WithinParts([0] + c, r, |argv|);
    WithinParts([0], c, |argv|);
    EntriesConcat(argv, [0] + c, r);
    EntriesConcat(argv, [0], c);
    var x, y, z := Entries(argv, [0]), Entries(argv, c), Entries(argv, r);
    assert (x + y + z)[1..] == y + z;
  }

  lemma WithinParts(x: seq<nat>, y: seq<nat>, n: nat)
    requires AllWithin(x + y, n)
    ensures AllWithin(x, n) && AllWithin(y, n)
  {
    forall m | 0 <= m < |x| ensures x[m] < n {
      assert (x + y)[m] == x[m];
    }
    forall m | 0 <= m < |y| ensures y[m] < n {
      assert (x + y)[|x| + m] == y[m];
    }
  }

  lemma EntriesConcat(argv: seq<Arg>, x: seq<nat>, y: seq<nat>)
    requires AllWithin(x + y, |argv|) && AllWithin(x, |argv|) && AllWithin(y, |argv|)
    ensures Entries(argv, x + y) == Entries(argv, x) + Entries(argv, y)
  {}

  /** What getopt makes of b is the reading of argv: the same options with the same
      arguments, and then it leaves the entries that the reading does not use. */
  ghost predicate Delivers(b: seq<Arg>, o: string, argv: seq<Arg>) {
    var r := Rest(Taken(argv, o, 1), 1, |argv|);
    && AllWithin(r, |argv|)
    && Delivered(b, o, Pos(1, 1)).0 == Read(argv, o, 1)
    && Delivered(b, o, Pos(1, 1)).1 <= |b| && b[Delivered(b, o, Pos(1, 1)).1..] == Left(Entries(argv, r))
  }

  // --------------------------------------------------- what the permutation notices

  /** The positions of the entries that the permutation moves to the front: it looks
      at the first letter of an option only, and for an argument only behind an
      option that stands alone. */
  function Noticed(argv: seq<Arg>, o: string, i: nat): seq<nat>
    decreases |argv| - i
  {
    if i >= |argv| then []
    else if !Dashed(argv[i]) then Noticed(argv, o, i + 1)
    else if Dashes(argv[i]) then []
    else if |argv[i].text| == 2 && BeforeColon(o, argv[i].text[1]) && i + 1 < |argv| then
      [i, i + 1] + Noticed(argv, o, i + 2)
    else [i] + Noticed(argv, o, i + 1)
  }

  lemma WantsTells(a: Arg, o: string)
    requires Dashed(a)
    ensures WantsNext(a, o) <==> |a.text| == 2 && BeforeColon(o, a.text[1])
  {
    StrChrTells(o, a.text[1]);
    TextEnds(a.text, 2);
  }

  lemma {:induction false} ChosenIsNoticed(argv: seq<Arg>, o: string, i: nat)
    ensures Chosen(argv, o, i) == Noticed(argv, o, i)
    decreases |argv| - i
  {
    hide Dashed, Dashes, IsOption, IsEnd, WantsNext, BeforeColon;
    if i < |argv| {
      EntryTells(argv[i]);
      ChosenIsNoticed(argv, o, i + 1);
      ChosenIsNoticed(argv, o, i + 2);
      if Dashed(argv[i]) {
        DashedLong(argv[i]);
        WantsTells(argv[i], o);
      }
    }
  }

  // ------------------------------------------------- an order is known by its reading

  ghost predicate Permutes(at: seq<nat>, n: nat) {
    && |at| == n && AllWithin(at, n)
    && (forall a, b :: 0 <= a < b < n ==> at[a] != at[b]) && (forall k :: 0 <= k < n ==> k in at)
  }

  lemma {:induction false} RestSame(c: seq<nat>, d: seq<nat>, i: nat, n: nat)
    requires forall k :: i <= k < n ==> (k in c <==> k in d)
    ensures Rest(c, i, n) == Rest(d, i, n)
    decreases n - i
  {
    if i < n {
      RestSame(c, d, i + 1, n);
    }
  }

  lemma {:induction false} RestCount(c: seq<nat>, i: nat, n: nat)
    requires i <= n && Increasing(c, i, n)
    ensures |c| + |Rest(c, i, n)| == n - i
    decreases n - i
  {
    if i < n {
      if c != [] && c[0] == i {
        RestCount(c[1..], i + 1, n);
        assert c == [i] + c[1..];
        RestSame(c, c[1..], i + 1, n);
      } else {
        RestCount(c, i + 1, n);
      }
    }
  }

  lemma ArrangedPermutes(argv: seq<Arg>, c: seq<nat>)
    requires argv != [] && Increasing(c, 1, |argv|)
    ensures Permutes(Arranged(argv, c), |argv|) && Arranged(argv, c)[0] == 0
  {
    hide Rest;
    var n := |argv|;
    var r := Rest(c, 1, n);
    RestIncreasing(c, 1, n);
    RestMembers(c, 1, n);
    RestCount(c, 1, n);
    forall x, y | 0 <= x < |c| && 0 <= y < |r| ensures c[x] != r[y] {
      assert r[y] in r && c[x] in c;
    }
    JoinDistinct(c, r);
    var at := Arranged(argv, c);
    assert forall k :: k in at <==> k == 0 || k in c || k in r;
    forall m | 0 <= m < |at| ensures at[m] < n {
      assert at[m] in at;
    }
  }

  lemma Distinct(at: seq<nat>, n: nat, i: nat, j: nat)
    requires Permutes(at, n) && i < n && j < n
    ensures at[i] == at[j] ==> i == j
  {}

  lemma PermutesWithin(at: seq<nat>, n: nat)
    requires Permutes(at, n)
    ensures |at| == n && AllWithin(at, n)
  {}

  /** Two orders of the same entries that agree but for one place agree there too. */
  lemma OnePlace(a: seq<nat>, b: seq<nat>, n: nat, x: nat)
    requires Permutes(a, n) && Permutes(b, n) && forall m :: 0 <= m < n && m != x ==> a[m] == b[m]
    ensures a == b
  {
    if x < n {
      assert b[x] in a;
      var q :| 0 <= q < n && a[q] == b[x];
      Distinct(b, n, q, x);
    }
  }

  /** The addresses of the entries that some options come from. */
  function Uses(items: seq<Item>): seq<nat> {
    if items == [] then []
    else (if items[0].at == 1 then [items[0].from] else [])
         + (if items[0].gives.Next? then [items[0].gives.arg.ptr] else []) + Uses(items[1..])
  }

  /** The entries in use from position p on: the one at hand, and those to come. */
  function UsedFrom(b: seq<Arg>, p: Pos, items: seq<Item>): seq<nat>
    requires PosOk(b, p)
  {
    (if p.at > 1 then [b[p.optind].ptr] else []) + Uses(items)
  }

  ghost predicate StandAt(b: seq<Arg>, i: nat, ptrs: seq<nat>) {
    i + |ptrs| <= |b| && forall m :: 0 <= m < |ptrs| ==> b[i + m].ptr == ptrs[m]
  }

  /** The calls use the entries from p on, one after the other, and leave off behind
      them, or one further, behind a "--". */
  lemma {:induction false} DeliveredUses(b: seq<Arg>, o: string, p: Pos)
    requires PosOk(b, p) && p.optind <= |b|
    ensures var (items, e) := Delivered(b, o, p);
            var used := UsedFrom(b, p, items);
            StandAt(b, p.optind, used) && p.optind + |used| <= e <= p.optind + |used| + 1 && e <= |b|
    decreases |b| - p.optind, if p.optind < |b| then |b[p.optind].text| - p.at else 0
  {
    hide Call, TakesArgument, Known, StandAt;
    var (item, q) := Call(b, o, p);
    if item.Some? {
      CallUses(b, o, p);
      CallMoves(b, o, p);
      DeliveredUses(b, o, q);
      var items := Delivered(b, o, q).0;
      assert Delivered(b, o, p).0 == [item.value] + items;
      UsesNext(b, o, p, items);
    } else {
      NothingUsed(b, o, p);
    }
  }

  lemma NothingUsed(b: seq<Arg>, o: string, p: Pos)
    requires PosOk(b, p) && p.optind <= |b| && Call(b, o, p).0.None?
    ensures Call(b, o, p).1.optind <= |b| && p.optind <= Call(b, o, p).1.optind <= p.optind + 1
    ensures UsedFrom(b, p, []) == [] && StandAt(b, p.optind, [])
  {}

  lemma CallUses(b: seq<Arg>, o: string, p: Pos)
    requires PosOk(b, p) && Call(b, o, p).0.Some?
    ensures var (item, q) := Call(b, o, p);
            && p.optind < q.optind + 1 && q.optind <= |b| && p.optind < |b|
            && item.value.from == b[p.optind].ptr && item.value.at == p.at
            && (if item.value.gives.Next? then q == Pos(p.optind + 2, 1) && item.value.gives.arg == b[p.optind + 1]
                else if q.at > 1 then q.optind == p.optind else q.optind == p.optind + 1)
  {}

  lemma UsesNext(b: seq<Arg>, o: string, p: Pos, items: seq<Item>)
    requires PosOk(b, p) && Call(b, o, p).0.Some?
    requires StandAt(b, Call(b, o, p).1.optind, UsedFrom(b, Call(b, o, p).1, items))
    ensures var (item, q) := Call(b, o, p);
            var used := UsedFrom(b, p, [item.value] + items);
            StandAt(b, p.optind, used) && p.optind + |used| == q.optind + |UsedFrom(b, q, items)|
  {
    hide Call, Uses;
    CallUses(b, o, p);
    var (item, q) := Call(b, o, p);
    UsesMore(item.value, items);
    var before, used := UsedFrom(b, q, items), UsedFrom(b, p, [item.value] + items);
    var k := q.optind - p.optind;
    assert used == (if k == 0 then [] else if k == 1 then [b[p.optind].ptr] else [b[p.optind].ptr, b[p.optind + 1].ptr])
                   + before;
    forall m | 0 <= m < |used| ensures b[p.optind + m].ptr == used[m] {
      if m >= k {
        assert used[m] == before[m - k] && b[q.optind + (m - k)].ptr == before[m - k];
      }
    }
  }

  lemma UsesMore(item: Item, items: seq<Item>)
    ensures Uses([item] + items) == (if item.at == 1 then [item.from] else [])
                                    + (if item.gives.Next? then [item.gives.arg.ptr] else []) + Uses(items)
  {
    assert ([item] + items)[1..] == items;
  }

  /** Two orders of argv from which the same is delivered, and the same left, are one. */
  lemma SameDelivery(argv: seq<Arg>, o: string, x: seq<nat>, y: seq<nat>)
    requires forall a, b :: 0 <= a < b < |argv| ==> argv[a].ptr != argv[b].ptr
    requires argv != [] && Permutes(x, |argv|) && Permutes(y, |argv|) && x[0] == y[0]
    requires Delivers(Entries(argv, x), o, argv) && Delivers(Entries(argv, y), o, argv)
    ensures x == y
  {
    hide Delivered, Read, Taken, Rest, Uses, Permutes, Entries;
    PermutesWithin(x, |argv|);
    PermutesWithin(y, |argv|);
    var b, c := Entries(argv, x), Entries(argv, y);
    var used := Uses(Delivered(b, o, Pos(1, 1)).0);
    forall m | 0 <= m < |argv| && m != 1 + |used| ensures x[m] == y[m] {
      if m > 0 {
        TwoDelivered(b, c, o, m);
        SameEntry(argv, x, y, m);
      }
    }
    OnePlace(x, y, |argv|, 1 + |used|);
  }

  lemma TwoDelivered(b: seq<Arg>, c: seq<Arg>, o: string, m: nat)
    requires |b| == |c| > 0 && Delivered(b, o, Pos(1, 1)).0 == Delivered(c, o, Pos(1, 1)).0
    requires Delivered(b, o, Pos(1, 1)).1 <= |b| && Delivered(c, o, Pos(1, 1)).1 <= |c|
    requires b[Delivered(b, o, Pos(1, 1)).1..] == c[Delivered(c, o, Pos(1, 1)).1..]
    requires 1 <= m < |b| && m != 1 + |Uses(Delivered(b, o, Pos(1, 1)).0)|
    ensures b[m].ptr == c[m].ptr
  {
    hide Delivered, Uses;
    DeliveredUses(b, o, Pos(1, 1));
    DeliveredUses(c, o, Pos(1, 1));
    var (items, e) := Delivered(b, o, Pos(1, 1));
    var used := Uses(items);
    assert |b[e..]| == |c[Delivered(c, o, Pos(1, 1)).1..]|;
    assert e == Delivered(c, o, Pos(1, 1)).1;
    assert UsedFrom(b, Pos(1, 1), items) == used == UsedFrom(c, Pos(1, 1), items);
    if m < 1 + |used| {
      assert b[1 + (m - 1)].ptr == used[m - 1] == c[1 + (m - 1)].ptr;
    } else {
      assert b[m] == b[e..][m - e] == c[e..][m - e] == c[m];
    }
  }

  lemma SameEntry(argv: seq<Arg>, x: seq<nat>, y: seq<nat>, m: nat)
    requires forall a, b :: 0 <= a < b < |argv| ==> argv[a].ptr != argv[b].ptr
    requires AllWithin(x, |argv|) && AllWithin(y, |argv|) && m < |x| && m < |y|
    requires argv[x[m]].ptr == argv[y[m]].ptr
    ensures x[m] == y[m]
  {
    assert x[m] < |argv| && y[m] < |argv|;
  }

  // ------------------------------------------------------------ a missing argument

  ghost predicate HasLacking(items: seq<Item>) {
    exists k :: 0 <= k < |items| && items[k].gives.Lacking?
  }

  lemma {:induction false} LettersLack(a: Arg, at: nat, o: string)
    requires Pulls(a, at, o)
    ensures HasLacking(Letters(a, at, o, None))
    decreases |a.text| - at
  {
    if TakesArgument(o, a.text[at]) {
      assert Letters(a, at, o, None)[0].gives.Lacking?;
    } else {
      LettersLack(a, at + 1, o);
      LackingBehind(Letters(a, at, o, None)[..1], Letters(a, at + 1, o, None));
      assert Letters(a, at, o, None) == Letters(a, at, o, None)[..1] + Letters(a, at + 1, o, None);
    }
  }

  lemma LackingBehind(x: seq<Item>, y: seq<Item>)
    ensures HasLacking(x) || HasLacking(y) ==> HasLacking(x + y)
  {
    if k :| 0 <= k < |x| && x[k].gives.Lacking? {
      assert (x + y)[k].gives.Lacking?;
    } else if k :| 0 <= k < |y| && y[k].gives.Lacking? {
      assert (x + y)[|x| + k].gives.Lacking?;
    }
  }

  lemma {:induction false} ReadLacks(argv: seq<Arg>, o: string, i: nat)
    requires Lacks(argv, o, i)
    ensures HasLacking(Read(argv, o, i))
    decreases |argv| - i
  {
    hide Letters, Pulls, Dashed, Dashes, HasLacking;
    if !Dashed(argv[i]) {
      ReadLacks(argv, o, i + 1);
    } else if Pulls(argv[i], 1, o) && i + 1 < |argv| {
      ReadLacks(argv, o, i + 2);
      LackingBehind(Letters(argv[i], 1, o, After(argv, i)), Read(argv, o, i + 2));
    } else {
      if Pulls(argv[i], 1, o) {
        LettersLack(argv[i], 1, o);
      } else {
        ReadLacks(argv, o, i + 1);
      }
      LackingBehind(Letters(argv[i], 1, o, After(argv, i)), Read(argv, o, i + 1));
    }
  }

  /** Only an option at the very end can lack its argument: nothing is left then. */
  lemma {:induction false} LackingLeavesNothing(b: seq<Arg>, o: string, p: Pos)
    requires PosOk(b, p) && HasLacking(Delivered(b, o, p).0)
    ensures Delivered(b, o, p).1 >= |b|
    decreases |b| - p.optind, if p.optind < |b| then |b[p.optind].text| - p.at else 0
  {
    hide Call, TakesArgument, Known;
    var (item, q) := Call(b, o, p);
    assert item.Some?;
    CallMoves(b, o, p);
    if item.value.gives.Lacking? {
      LackingCall(b, o, p);
    } else {
      var k :| 0 <= k < |Delivered(b, o, p).0| && Delivered(b, o, p).0[k].gives.Lacking?;
      assert Delivered(b, o, q).0[k - 1].gives.Lacking?;
      LackingLeavesNothing(b, o, q);
    }
  }

  lemma LackingCall(b: seq<Arg>, o: string, p: Pos)
    requires PosOk(b, p) && Call(b, o, p).0.Some? && Call(b, o, p).0.value.gives.Lacking?
    ensures Delivered(b, o, Call(b, o, p).1).1 >= |b|
  {
    assert Call(b, o, p).1 == Pos(|b|, 1);
  }

  lemma LackingFails(argv: seq<Arg>, o: string, b: seq<Arg>)
    requires argv != [] && Lacks(argv, o, 1) && Rest(Taken(argv, o, 1), 1, |argv|) != []
    ensures !Delivers(b, o, argv)
  {
    hide Delivered, Taken, Read, Rest, Lacks, HasLacking;
    var c := Taken(argv, o, 1);
    RestStops(argv, o, 1, c);
    ReadLacks(argv, o, 1);
    var r := Rest(c, 1, |argv|);
    NotDashes(argv[r[0]]);
    if HasLacking(Delivered(b, o, Pos(1, 1)).0) {
      LackingLeavesNothing(b, o, Pos(1, 1));
    }
    assert AllWithin(r, |argv|) ==> Left(Entries(argv, r)) != [];
  }

  lemma NotDashes(a: Arg)
    ensures !Dashed(a) ==> !Dashes(a)
  {}

  // ------------------------------------------------------------------ the theorem

  /** The permutation puts argv into the order in which it is read, and no option at
      its end lacks an argument that it would then find in another entry. */
  ghost predicate KeepsReading(argv: seq<Arg>, o: string) {
    && Arranged(argv, Noticed(argv, o, 1)) == Arranged(argv, Taken(argv, o, 1))
    && (Lacks(argv, o, 1) ==> Rest(Taken(argv, o, 1), 1, |argv|) == [])
  }

  /** On the permuted argv getopt delivers the left-to-right reading of the old one,
      and leaves the entries which that does not use, if and only if the permutation
      takes the same entries to the front as the reading uses, or nothing has to
      move, and no last option lacks its argument while there are other entries. */
  lemma PermutedDelivers(argv: seq<Arg>, o: string)
    requires argv != [] && forall a, b :: 0 <= a < b < |argv| ==> argv[a].ptr != argv[b].ptr
    ensures AllWithin(Order(argv, o), |argv|)
    ensures Delivers(Entries(argv, Order(argv, o)), o, argv) <==> KeepsReading(argv, o)
  {
    hide Delivers, Rest, Noticed, Taken, Chosen, Lacks, Increasing;
    var c, d := Noticed(argv, o, 1), Taken(argv, o, 1);
    ChosenIsNoticed(argv, o, 1);
    ChosenIncreasing(argv, o, 1);
    TakenIncreasing(argv, o, 1);
    ArrangedPermutes(argv, c);
    ArrangedPermutes(argv, d);
    if Lacks(argv, o, 1) && Rest(d, 1, |argv|) != [] {
      LackingFails(argv, o, Entries(argv, Order(argv, o)));
    } else {
      ArrangedDelivers(argv, o, Entries(argv, Arranged(argv, d)));
      if Delivers(Entries(argv, Order(argv, o)), o, argv) {
        SameDelivery(argv, o, Arranged(argv, c), Arranged(argv, d));
      }
    }
  }

  /** It is enough that every option that takes the next entry stands alone, as in
      "-t 100", and that the last one has it. */
  lemma {:induction false} StandingAlone(argv: seq<Arg>, o: string, i: nat)
    requires forall k :: i <= k < |argv| && Dashed(argv[k]) && Pulls(argv[k], 1, o) ==> |argv[k].text| == 2
    requires !BeforeColon(o, ':')
    ensures Noticed(argv, o, i) == Taken(argv, o, i)
    decreases |argv| - i
  {
    hide Dashed, Dashes, Pulls, BeforeColon;
    if i < |argv| {
      StandingAlone(argv, o, i + 1);
      StandingAlone(argv, o, i + 2);
      PullsAlone(argv[i], o);
    }
  }

  lemma PullsAlone(a: Arg, o: string)
    requires !BeforeColon(o, ':')
    ensures Dashed(a) ==> |a.text| >= 2
    ensures |a.text| == 2 ==> (Pulls(a, 1, o) <==> BeforeColon(o, a.text[1]))
  {
    hide BeforeColon;
    assert !Pulls(a, 2, o) || |a.text| > 2;
  }

  // ------------------------------------------------------------- the program's own

  const OPTIONS := "46k:t:vsfpxl:u:w:b:a:c:"

  /** The program's options, by letter, and those that take an argument. */
  lemma OptionsAre(c: char)
    ensures Known(OPTIONS, c) <==> c in "46vsfpx" || c in "ktluwbac"
    ensures TakesArgument(OPTIONS, c) <==> c in "ktluwbac"
  {
    hide FirstAt;
    InOptions(c);
    if c in OPTIONS && c != ':' {
      var k := LetterAt(OPTIONS, c);
      forall l: nat | FirstAt(OPTIONS, c, l) ensures l == k {
        FirstIsOne(OPTIONS, c, k, l);
      }
      Followed(k);
    } else if c != ':' {
      NeverFirst(c);
    }
  }

  lemma NeverFirst(c: char)
    requires c !in OPTIONS
    ensures forall l: nat :: !FirstAt(OPTIONS, c, l)
  {}

  lemma SpelledFirst()
    ensures |OPTIONS| == 23
    ensures OPTIONS[0] == '4' && OPTIONS[1] == '6' && OPTIONS[2] == 'k' && OPTIONS[3] == ':'
            && OPTIONS[4] == 't' && OPTIONS[5] == ':' && OPTIONS[6] == 'v' && OPTIONS[7] == 's'
  {}

  lemma SpelledNext()
    ensures |OPTIONS| == 23
    ensures OPTIONS[8] == 'f' && OPTIONS[9] == 'p' && OPTIONS[10] == 'x' && OPTIONS[11] == 'l'
            && OPTIONS[12] == ':' && OPTIONS[13] == 'u' && OPTIONS[14] == ':' && OPTIONS[15] == 'w'
  {}

  lemma SpelledLast()
    ensures |OPTIONS| == 23
    ensures OPTIONS[16] == ':' && OPTIONS[17] == 'b' && OPTIONS[18] == ':' && OPTIONS[19] == 'a'
            && OPTIONS[20] == ':' && OPTIONS[21] == 'c' && OPTIONS[22] == ':'
  {}

  lemma InOptions(c: char)
    ensures c in OPTIONS <==> c == ':' || c in "46vsfpx" || c in "ktluwbac"
  {
    SpelledFirst();
    SpelledNext();
    SpelledLast();
  }

  lemma LetterAt(o: string, c: char) returns (k: nat)
    requires c in o
    ensures FirstAt(o, c, k)
  {
    StrChrFirst(o, c);
    k := StrChr(o, c).value;
  }

  /** What stands behind the letters. */
  lemma Followed(k: nat)
    requires k < |OPTIONS| && OPTIONS[k] != ':'
    ensures k + 1 < |OPTIONS| && OPTIONS[k + 1] == ':' <==> OPTIONS[k] in "ktluwbac"
  {
    SpelledFirst();
    SpelledNext();
    SpelledLast();
  }

  lemma OptionsTell()
    ensures !BeforeColon(OPTIONS, ':') && !BeforeColon(OPTIONS, 'v') && !BeforeColon(OPTIONS, 's')
    ensures BeforeColon(OPTIONS, 't')
  {
    hide FirstAt;
    OptionsAre('v');
    OptionsAre('s');
    OptionsAre('t');
    FirstColon();
    forall l: nat | FirstAt(OPTIONS, ':', l) ensures l == 3 {
      FirstIsOne(OPTIONS, ':', 3, l);
    }
  }

  lemma FirstColon()
    ensures FirstAt(OPTIONS, ':', 3) && OPTIONS[4] != ':'
  {
    SpelledFirst();
  }

  /** Arguments of the program in which every option that takes the next entry stands
      alone, and the last one has it, are delivered as they are read. */
  lemma AloneIsRead(argv: seq<Arg>)
    requires argv != [] && forall a, b :: 0 <= a < b < |argv| ==> argv[a].ptr != argv[b].ptr
    requires forall k :: 1 <= k < |argv| && Dashed(argv[k]) && Pulls(argv[k], 1, OPTIONS) ==> |argv[k].text| == 2
    requires !Lacks(argv, OPTIONS, 1)
    ensures AllWithin(Order(argv, OPTIONS), |argv|)
    ensures Delivers(Entries(argv, Order(argv, OPTIONS)), OPTIONS, argv)
  {
    OptionsTell();
    StandingAlone(argv, OPTIONS, 1);
    PermutedDelivers(argv, OPTIONS);
  }

  /** But not so "-vt 100 -s", where the option in front hides that "-t" takes an
      argument, and not "op -t", where "-t" has none and finds the operand. */
  lemma HiddenArgument(argv: seq<Arg>)
    requires |argv| == 4 && argv[1].text == "-vt" && argv[2].text == "100" && argv[3].text == "-s"
    requires forall a, b :: 0 <= a < b < |argv| ==> argv[a].ptr != argv[b].ptr
    ensures AllWithin(Order(argv, OPTIONS), |argv|)
    ensures !Delivers(Entries(argv, Order(argv, OPTIONS)), OPTIONS, argv)
  {
    hide KeepsReading, Delivers;
    OptionsTell();
    PermutedDelivers(argv, OPTIONS);
    HiddenMoves(argv, OPTIONS);
  }

  lemma HiddenMoves(argv: seq<Arg>, o: string)
    requires |argv| == 4 && argv[1].text == "-vt" && argv[2].text == "100" && argv[3].text == "-s"
    requires !BeforeColon(o, 'v') && !BeforeColon(o, 's') && BeforeColon(o, 't')
    ensures !KeepsReading(argv, o)
  {
    hide BeforeColon, Rest, Taken, Noticed;
    EntryPulls(argv[1], o);
    EntryPulls(argv[3], o);
    TakenSteps(argv, o, 1);
    TakenSteps(argv, o, 3);
    NoticedSteps(argv, o, 1);
    NoticedSteps(argv, o, 2);
    NoticedSteps(argv, o, 3);
    assert Noticed(argv, o, 1)[..2] == [1, 3] && Taken(argv, o, 1)[..2] == [1, 2];
    assert Arranged(argv, Noticed(argv, o, 1))[2] == 3 && Arranged(argv, Taken(argv, o, 1))[2] == 2;
  }

  lemma EntryPulls(a: Arg, o: string)
    ensures |a.text| == 2 && a.text[1] != ':' ==> (Pulls(a, 1, o) <==> BeforeColon(o, a.text[1]))
    ensures |a.text| == 3 && a.text[2] != ':' && !BeforeColon(o, a.text[1]) ==>
              (Pulls(a, 1, o) <==> BeforeColon(o, a.text[2]))
  {
    hide BeforeColon;
    assert |a.text| == 2 ==> !Pulls(a, 2, o);
    assert |a.text| == 3 ==> !Pulls(a, 3, o);
  }

  lemma NoticedSteps(argv: seq<Arg>, o: string, i: nat)
    requires i < |argv|
    ensures !Dashed(argv[i]) ==> Noticed(argv, o, i) == Noticed(argv, o, i + 1)
    ensures Dashed(argv[i]) && !Dashes(argv[i]) && !BeforeColon(o, argv[i].text[1]) ==>
              Noticed(argv, o, i) == [i] + Noticed(argv, o, i + 1)
    ensures Dashed(argv[i]) && !Dashes(argv[i]) && |argv[i].text| > 2 ==>
              Noticed(argv, o, i) == [i] + Noticed(argv, o, i + 1)
  {
    hide BeforeColon;
  }

  lemma MissingArgument(argv: seq<Arg>)
    requires |argv| == 3 && argv[1].text == "op" && argv[2].text == "-t"
    requires forall a, b :: 0 <= a < b < |argv| ==> argv[a].ptr != argv[b].ptr
    ensures AllWithin(Order(argv, OPTIONS), |argv|)
    ensures !Delivers(Entries(argv, Order(argv, OPTIONS)), OPTIONS, argv)
  {
    hide KeepsReading, Delivers;
    OptionsTell();
    PermutedDelivers(argv, OPTIONS);
    MissingLacks(argv, OPTIONS);
  }

  lemma MissingLacks(argv: seq<Arg>, o: string)
    requires |argv| == 3 && argv[1].text == "op" && argv[2].text == "-t" && BeforeColon(o, 't')
    ensures !KeepsReading(argv, o)
  {
    hide BeforeColon, Taken, Read, Lacks;
    EntryPulls(argv[2], o);
    ReadSteps(argv, o, 1);
    ReadSteps(argv, o, 2);
    RestMembers(Taken(argv, o, 1), 1, 3);
    assert 1 in Rest(Taken(argv, o, 1), 1, 3);
  }
}
