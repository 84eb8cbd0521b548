/** The parser of ADDR[:PORT][/TOKEN] on every input: which texts it accepts, and
    what it reads of them. */
module AddrGrammar {
  import opened Bytes
  import opened CStrings
  import opened AddrParser
  import opened AddrFilter

  // ------------------------------------------------------------- the reference

  predicate Special(c: char) {
    c == ':' || c == '/' || c == '[' || c == ']'
  }

  predicate NoBrackets(t: string) {
    '[' !in t && ']' !in t
  }

  predicate OneColon(t: string) {
    forall j, k :: 0 <= j < k < |t| && t[j] == ':' ==> t[k] != ':'
  }

  /** What may follow a host: a port, and any number of slashes, but no brackets. */
  predicate TailOk(t: string) {
    NoBrackets(t) && OneColon(t)
  }

  predicate InBrackets(t: string) {
    NoBrackets(t) && '/' !in t
  }

  /** Where the host ends: plain, it goes on into the rest, which has no brackets;
      in brackets it ends at the first closing one, or with the text. */
  function HostEnd(u: string): (k: nat)
    requires u != ""
    ensures u[0] == '[' ==> 1 <= k
    ensures k <= |u|
  {
    if u[0] == '[' then Find(u, ']', 1) else 0
  }

  function TailStart(u: string): (k: nat)
    requires u != ""
    ensures k <= |u|
  {
    if u[0] == '[' && HostEnd(u) < |u| then HostEnd(u) + 1 else HostEnd(u)
  }

  /** The texts that are accepted: none; a plain host with a tail; or a host in
      brackets, with a tail or with its bracket left open. */
  predicate WellFormed(u: string) {
    u == ""
    || if u[0] == '[' then
         InBrackets(u[1..HostEnd(u)]) && (HostEnd(u) < |u| ==> HostEnd(u) > 1) && TailOk(u[TailStart(u)..])
       else !Special(u[0]) && TailOk(u)
  }

  /** A part goes up to the next colon or slash. */
  function Part(t: string): (r: string)
    ensures |r| <= |t| && r == t[..|r|]
    ensures forall k :: 0 <= k < |r| ==> r[k] != ':' && r[k] != '/'
    ensures |r| < |t| ==> t[|r|] == ':' || t[|r|] == '/'
  {
    if t == "" || t[0] == ':' || t[0] == '/' then "" else [t[0]] + Part(t[1..])
  }

  function Host(u: string): Option<string> {
    if u == "" then None else if u[0] == '[' then Some(u[1..HostEnd(u)]) else Some(Part(u))
  }

  /** The port is behind the colon that is not in brackets. */
  function Port(u: string): Option<string> {
    if u == "" || ':' !in u[TailStart(u)..] then None
    else
      var k := Find(u, ':', TailStart(u));
      if k < |u| then Some(Part(u[k + 1..])) else None
  }

  function FindLast(u: string, c: char): (k: Option<nat>)
    ensures k.None? ==> c !in u
    ensures k.Some? ==> k.value < |u| && u[k.value] == c && c !in u[k.value + 1..]
  {
    if u == "" then None
    else match FindLast(u[1..], c)
      case Some(k) =>
        assert u[k + 2..] == u[1..][k + 1..];
        Some(k + 1)
      case None => if u[0] == c then Some(0) else None
  }

  /** The token is behind the last slash. */
  function TokenOf(u: string): Option<string> {
    match FindLast(u, '/')
    case None => None
    case Some(k) => Some(Part(u[k + 1..]))
  }

  // ----------------------------------------------------------------- the tail

  /** A buffer whose text from i on ends at e. */
  predicate TextTo(b: string, i: nat, e: nat) {
    i <= e < |b| && b[|b| - 1] == '\0' && (b[e] == '\0' || b[e] == ',')
    && forall k :: i <= k < e ==> b[k] != '\0' && b[k] != ','
  }

  /** What is left of the text from i to e: every colon and slash is a NUL now, the
      end too. */
  predicate Cut(b: string, f: string, i: nat, e: nat) {
    |f| == |b| && e < |b|
    && forall k :: 0 <= k < |b| ==>
         f[k] == if k == e || (i <= k < e && (b[k] == ':' || b[k] == '/')) then '\0' else b[k]
  }

  /** The last c in front of e stands at k. */
  predicate LastAt(b: string, e: nat, c: char, k: nat) {
    k < e <= |b| && b[k] == c && c !in b[k + 1..e]
  }

  /** The parts found in the text from i to e, and those found before. */
  predicate TailRefs(b: string, i: nat, e: nat, r: Refs, q: Refs, want: bool)
    requires i <= e <= |b|
  {
    && q.addr == r.addr
    && (forall k :: i <= k < e && b[k] == ':' ==> q.port == Some(k + 1))
    && (':' !in b[i..e] ==> q.port == r.port)
    && (forall k :: i <= k < e && LastAt(b, e, '/', k) ==> q.token == if want then Some(k + 1) else r.token)
    && ('/' !in b[i..e] ==> q.token == r.token)
  }

  predicate TailOutcome(o: Outcome, b: string, i: nat, e: nat, r: Refs, want: bool)
    requires i <= e <= |b|
  {
    o.Some? && Cut(b, o.value.0, i, e) && TailRefs(b, i, e, r, o.value.1, want)
  }

  /** Whether the text from i to e is a tail, in state s. */
  predicate TailFrom(b: string, i: nat, e: nat, s: nat)
    requires i <= e <= |b|
  {
    if s == 1 || s == 6 then TailOk(b[i..e]) else NoBrackets(b[i..e]) && ':' !in b[i..e]
  }

  /** Behind the host the machine accepts exactly the tails. */
  lemma {:induction false} ScanTail(b: string, i: nat, e: nat, s: nat, r: Refs, want: bool)
    requires TextTo(b, i, e) && (s == 1 || s == 2 || s == 6 || s == 7)
    ensures Scan(b, i, s, r, want).Some? <==> TailFrom(b, i, e, s)
    ensures TailFrom(b, i, e, s) ==> TailOutcome(Scan(b, i, s, r, want), b, i, e, r, want)
    decreases e - i
  {
    hide TailOutcome, NoBrackets, OneColon;
    if i == e {
      TailEnds(b, e, s, r, want);
    } else {
      var b' := b[i := '\0'];
      assert b'[i + 1..e] == b[i + 1..e];
      TailBracket(b, i, e);
      if b[i] == ':' {
        if s == 1 || s == 6 {
          var s' := if s == 1 then 2 else 7;
          ScanTail(b', i + 1, e, s', r.(port := Some(i + 1)), want);
          TailColon(b, i, e);
          if TailFrom(b', i + 1, e, s') {
            TailPort(Scan(b', i + 1, s', r.(port := Some(i + 1)), want), b, i, e, r, want);
          }
        }
      } else if b[i] == '/' {
        var r' := if want then r.(token := Some(i + 1)) else r;
        ScanTail(b', i + 1, e, s, r', want);
        TailChar(b, i, e, s);
        if TailFrom(b', i + 1, e, s) {
          TailToken(Scan(b', i + 1, s, r', want), b, i, e, r, want);
        }
      } else if b[i] != '[' && b[i] != ']' {
        ScanTail(b, i + 1, e, s, r, want);
        TailChar(b, i, e, s);
        if TailFrom(b, i + 1, e, s) {
          TailPlain(Scan(b, i + 1, s, r, want), b, i, e, r, want);
        }
      }
    }
  }

  lemma TailEnds(b: string, e: nat, s: nat, r: Refs, want: bool)
    requires TextTo(b, e, e)
    ensures TailFrom(b, e, e, s) && TailOutcome(Some((b[e := '\0'], r)), b, e, e, r, want)
    ensures b[e] == '\0' ==> b[e := '\0'] == b
  {
    assert b[e..e] == "";
  }

  lemma TailBracket(b: string, i: nat, e: nat)
    requires i < e <= |b|
    ensures b[i] == '[' || b[i] == ']' ==> !NoBrackets(b[i..e])
  {
    assert b[i..e] == [b[i]] + b[i + 1..e];
  }

  lemma TailColon(b: string, i: nat, e: nat)
    requires i < e <= |b| && b[i] == ':'
    ensures TailOk(b[i..e]) <==> NoBrackets(b[i + 1..e]) && ':' !in b[i + 1..e]
    ensures ':' in b[i..e]
  {
    var t, u := b[i..e], b[i + 1..e];
    assert t == [':'] + u;
    if OneColon(t) {
      forall k | 0 <= k < |u| ensures u[k] != ':' {
        assert t[0] == ':' && t[k + 1] == u[k];
      }
    }
  }

  lemma TailChar(b: string, i: nat, e: nat, s: nat)
    requires i < e <= |b| && b[i] != ':' && b[i] != '[' && b[i] != ']'
    ensures TailFrom(b, i, e, s) <==> TailFrom(b, i + 1, e, s)
  {
    var t, u := b[i..e], b[i + 1..e];
    assert t == [b[i]] + u;
    if OneColon(t) {
      forall j, k | 0 <= j < k < |u| && u[j] == ':' ensures u[k] != ':' {
        assert t[j + 1] == u[j] && t[k + 1] == u[k];
      }
    }
    if OneColon(u) {
      forall j, k | 0 <= j < k < |t| && t[j] == ':' ensures t[k] != ':' {
        assert j > 0 ==> t[j] == u[j - 1] && t[k] == u[k - 1];
      }
    }
  }

  lemma Behind(b: string, i: nat, e: nat, c: char)
    requires i < e <= |b|
    ensures c in b[i..e] <==> b[i] == c || c in b[i + 1..e]
    ensures b[i := '\0'][i + 1..e] == b[i + 1..e]
    ensures forall k :: i < k < e ==> (LastAt(b[i := '\0'], e, c, k) <==> LastAt(b, e, c, k))
  {
    assert b[i..e] == [b[i]] + b[i + 1..e];
    forall k | i < k < e ensures LastAt(b[i := '\0'], e, c, k) <==> LastAt(b, e, c, k) {
      assert b[i := '\0'][k + 1..e] == b[k + 1..e];
    }
  }

  lemma NotIn(b: string, i: nat, e: nat, c: char)
    requires i <= e <= |b|
    ensures c !in b[i..e] <==> forall k :: i <= k < e ==> b[k] != c
  {
    if k :| i <= k < e && b[k] == c {
      assert b[i..e][k - i] == c;
    }
  }

  lemma TailPort(o: Outcome, b: string, i: nat, e: nat, r: Refs, want: bool)
    requires i < e < |b| && b[i] == ':' && ':' !in b[i + 1..e]
    requires TailOutcome(o, b[i := '\0'], i + 1, e, r.(port := Some(i + 1)), want)
    ensures TailOutcome(o, b, i, e, r, want)
  {
    Behind(b, i, e, ':');
    Behind(b, i, e, '/');
    NotIn(b, i + 1, e, ':');
  }

  lemma TailToken(o: Outcome, b: string, i: nat, e: nat, r: Refs, want: bool)
    requires i < e < |b| && b[i] == '/'
    requires TailOutcome(o, b[i := '\0'], i + 1, e, if want then r.(token := Some(i + 1)) else r, want)
    ensures TailOutcome(o, b, i, e, r, want)
  {
    Behind(b, i, e, ':');
    Behind(b, i, e, '/');
    NotIn(b, i + 1, e, '/');
  }

  lemma TailPlain(o: Outcome, b: string, i: nat, e: nat, r: Refs, want: bool)
    requires i < e < |b| && b[i] != '/' && b[i] != ':'
    requires TailOutcome(o, b, i + 1, e, r, want)
    ensures TailOutcome(o, b, i, e, r, want)
  {
    Behind(b, i, e, ':');
    Behind(b, i, e, '/');
  }

  // ----------------------------------------------------------- hosts in brackets

  /** From inside the brackets to the first character that ends the host. */
  lemma {:induction false} ScanInside(b: string, i: nat, e: nat, r: Refs, want: bool)
    requires TextTo(b, i, e)
    ensures var m := Find(b[..e], ']', i);
            if !InBrackets(b[i..m]) then Scan(b, i, 5, r, want) == None
            else if m == e then Scan(b, i, 5, r, want) == Some((b[e := '\0'], r))
            else Scan(b, i, 5, r, want) == Scan(b[m := '\0'], m + 1, 6, r, want)
    decreases e - i
  {
    var m := Find(b[..e], ']', i);
    if i == e {
      assert b[i..m] == "" && (b[e] == '\0' ==> b[e := '\0'] == b);
    } else if b[i] == ']' {
      assert m == i && b[i..m] == "";
    } else {
      FindBehind(b, i, e, m);
      assert b[i..m] == [b[i]] + b[i + 1..m];
      if b[i] != '/' && b[i] != '[' {
        ScanInside(b, i + 1, e, r, want);
      }
    }
  }

  lemma FindBehind(b: string, i: nat, e: nat, m: nat)
    requires i < e <= |b| && b[i] != ']' && m == Find(b[..e], ']', i)
    ensures m == Find(b[..e], ']', i + 1) && i < m
  {}

  // ------------------------------------------------------------------ the whole

  /** What the machine makes of a text and its end, as positions. */
  ghost predicate Accepted(o: Outcome, b: string, e: nat, want: bool)
    requires e < |b|
  {
    var u := b[..e];
    o.Some? && |o.value.0| == |b|
    && var (f, q) := o.value;
       if u == "" then q == NO_REFS && f == b[e := '\0']
       else
         var t := TailStart(u);
         var c := if t > HostEnd(u) then b[t - 1 := '\0'] else b;
         && q.addr == Some(if u[0] == '[' then 1 else 0)
         && TailRefs(c, t, e, NO_REFS.(addr := q.addr), q, want) && Cut(c, f, t, e)
  }

  lemma ScanAll(b: string, e: nat, want: bool)
    requires TextTo(b, 0, e)
    ensures Scan(b, 0, 0, NO_REFS, want).Some? <==> WellFormed(b[..e])
    ensures WellFormed(b[..e]) ==> Accepted(Scan(b, 0, 0, NO_REFS, want), b, e, want)
  {
    hide TailRefs, Cut;
    var u := b[..e];
    if e == 0 {
      assert b[e] == '\0' ==> b[e := '\0'] == b;
    } else if b[0] == '[' {
      ScanBracketed(b, e, want);
    } else if !Special(b[0]) {
      ScanPlain(b, e, want);
    }
  }

  lemma ScanPlain(b: string, e: nat, want: bool)
    requires TextTo(b, 0, e) && e > 0 && !Special(b[0])
    ensures Scan(b, 0, 0, NO_REFS, want).Some? <==> WellFormed(b[..e])
    ensures WellFormed(b[..e]) ==> Accepted(Scan(b, 0, 0, NO_REFS, want), b, e, want)
  {
    var r := Refs(Some(0), None, None);
    ScanTail(b, 1, e, 1, r, want);
    TailChar(b, 0, e, 1);
    assert b[0..e] == b[..e];
    if TailFrom(b, 1, e, 1) {
      TailPlain(Scan(b, 1, 1, r, want), b, 0, e, r, want);
    }
  }

  lemma ScanBracketed(b: string, e: nat, want: bool)
    requires TextTo(b, 0, e) && e > 0 && b[0] == '['
    ensures Scan(b, 0, 0, NO_REFS, want).Some? <==> WellFormed(b[..e])
    ensures WellFormed(b[..e]) ==> Accepted(Scan(b, 0, 0, NO_REFS, want), b, e, want)
  {
    hide TailRefs, Cut, TailOk, InBrackets;
    var r, u := Refs(Some(1), None, None), b[..e];
    var m := HostEnd(u);
    assert u[1..m] == b[1..m] && Scan(b, 0, 0, NO_REFS, want) == Scan(b, 1, 4, r, want);
    ScanOpened(b, e, r, want);
    if InBrackets(b[1..m]) {
      if m < e {
        assert u[m] == ']';
        var b' := b[m := '\0'];
        ScanTail(b', m + 1, e, 6, r, want);
        assert b'[m + 1..e] == u[m + 1..];
        if TailOk(u[m + 1..]) {
          TailGives(Scan(b', m + 1, 6, r, want), b', m + 1, e, r, want);
        }
      } else {
        LeftOpen(b, e, r, want);
        assert u[e..] == "";
        NothingBehind();
      }
    }
  }

  lemma TailGives(o: Outcome, b: string, i: nat, e: nat, r: Refs, want: bool)
    requires i <= e < |b| && TailOutcome(o, b, i, e, r, want)
    ensures |o.value.0| == |b| && o.value.1.addr == r.addr
  {}

  lemma NothingBehind()
    ensures TailOk("")
  {}

  lemma LeftOpen(b: string, e: nat, r: Refs, want: bool)
    requires e < |b|
    ensures TailRefs(b, e, e, r, r, want) && Cut(b, b[e := '\0'], e, e)
  {}

  /** Behind the opening bracket: it may not be closed at once. */
  lemma ScanOpened(b: string, e: nat, r: Refs, want: bool)
    requires TextTo(b, 0, e) && e > 0 && b[0] == '['
    ensures var m := Find(b[..e], ']', 1);
            if !InBrackets(b[1..m]) || m == 1 < e then Scan(b, 1, 4, r, want) == None
            else if m == e then Scan(b, 1, 4, r, want) == Some((b[e := '\0'], r))
            else Scan(b, 1, 4, r, want) == Scan(b[m := '\0'], m + 1, 6, r, want)
  {
    var m := Find(b[..e], ']', 1);
    if e > 1 && b[1] != ']' {
      ScanInside(b, 1, e, r, want);
      FindBehind(b, 1, e, m);
      assert b[1..m][0] == b[1];
    } else {
      assert b[1..m] == "" && (b[e] == '\0' ==> b[e := '\0'] == b);
    }
  }

  // ---------------------------------------------------------------- what is read

  /** A part of the tail that starts at p. */
  lemma ReadTail(c: string, f: string, t: nat, e: nat, p: nat)
    requires Cut(c, f, t, e) && t <= p <= e && forall k :: t <= k < e ==> c[k] != '\0'
    ensures Read(f, Some(p)) == Some(Part(c[p..e]))
  {
    hide CString;
    var x := Part(c[p..e]);
    forall k | 0 <= k < |x| ensures f[p..][k] == x[k] != '\0' {
      assert x[k] == c[p..e][k] == c[p + k] && f[p + k] == c[p + k];
    }
    assert |x| < e - p ==> c[p..e][|x|] == c[p + |x|];
    assert f[p..][|x|] == '\0';
    CStringIs(f[p..], |x|);
    assert f[p..][..|x|] == x;
  }

  /** A host in brackets, which ends at m. */
  lemma ReadInside(u: string, f: string, m: nat)
    requires 1 <= m <= |u| < |f| && f[m] == '\0' && forall k :: 1 <= k < m ==> f[k] == u[k] != '\0'
    ensures Read(f, Some(1)) == Some(u[1..m])
  {
    hide CString;
    forall k | 0 <= k < m - 1 ensures f[1..][k] != '\0' {
      assert f[1..][k] == f[k + 1];
    }
    CStringIs(f[1..], m - 1);
    assert f[1..][..m - 1] == u[1..m];
  }

  /** The buffer between the host and the tail: the closing bracket is a NUL. */
  function HostClosed(b: string, e: nat): (c: string)
    requires 0 < e < |b|
    ensures |c| == |b|
  {
    var t := TailStart(b[..e]);
    if t > HostEnd(b[..e]) then b[t - 1 := '\0'] else b
  }

  lemma HostReads(b: string, e: nat, o: Outcome, want: bool)
    requires TextTo(b, 0, e) && 0 < e && Accepted(o, b, e, want)
    ensures Read(o.value.0, o.value.1.addr) == Host(b[..e])
  {
    hide CString, TailRefs;
    var u, c, f := b[..e], HostClosed(b, e), o.value.0;
    var t, m := TailStart(u), HostEnd(u);
    if u[0] == '[' {
      forall k | 1 <= k < m ensures f[k] == u[k] != '\0' {
        assert c[k] == b[k] == u[k];
      }
      ReadInside(u, f, m);
    } else {
      ReadTail(b, f, 0, e, 0);
      assert b[0..e] == u;
    }
  }

  lemma PortReads(b: string, e: nat, o: Outcome, want: bool)
    requires TextTo(b, 0, e) && 0 < e && Accepted(o, b, e, want)
    ensures Read(o.value.0, o.value.1.port) == Port(b[..e])
  {
    hide CString, Cut, TailRefs, Read, Port;
    SameTail(b, e);
    PortInTail(b[..e], HostClosed(b, e), o.value.0, o.value.1, TailStart(b[..e]), e, want);
  }

  lemma PortInTail(u: string, c: string, f: string, q: Refs, t: nat, e: nat, want: bool)
    requires u != "" && t == TailStart(u) && t <= e == |u| < |c| && c[t..e] == u[t..]
    requires forall k :: t <= k < e ==> c[k] == u[k] != '\0'
    requires Cut(c, f, t, e) && TailRefs(c, t, e, NO_REFS.(addr := q.addr), q, want)
    ensures Read(f, q.port) == Port(u)
  {
    hide CString, Cut, Part, Read, TailStart;
    FoundIn(u, ':', t);
    if ':' in u[t..] {
      var k := Find(u, ':', t);
      assert c[k] == u[k] == ':';
      ReadTail(c, f, t, e, k + 1);
      assert c[k + 1..e] == u[k + 1..];
    } else {
      NothingReads(f);
    }
  }

  /** From the start of the tail on, nothing has been written yet. */
  lemma SameTail(b: string, e: nat)
    requires TextTo(b, 0, e) && 0 < e
    ensures var u, c, t := b[..e], HostClosed(b, e), TailStart(b[..e]);
            c[t..e] == u[t..] && forall k :: t <= k < e ==> c[k] == u[k] != '\0'
  {}

  lemma TokenReads(b: string, e: nat, o: Outcome, want: bool)
    requires TextTo(b, 0, e) && 0 < e && Accepted(o, b, e, want) && WellFormed(b[..e])
    ensures Read(o.value.0, o.value.1.token) == if want then TokenOf(b[..e]) else None
  {
    hide CString;
    var u, c := b[..e], HostClosed(b, e);
    var t := TailStart(u);
    var (f, q) := o.value;
    SameTail(b, e);
    SlashInTail(u);
    match FindLast(u, '/')
    case None =>
      assert '/' !in c[t..e];
    case Some(k) =>
      assert c[k + 1..e] == u[k + 1..];
      assert LastAt(c, e, '/', k);
      ReadTail(c, f, t, e, k + 1);
  }

  /** The host of an accepted text has no slash, so the last one is in the tail. */
  lemma SlashInTail(u: string)
    requires u != "" && WellFormed(u)
    ensures FindLast(u, '/').Some? ==> FindLast(u, '/').value >= TailStart(u)
    ensures FindLast(u, '/').None? ==> '/' !in u[TailStart(u)..]
  {
    var last, m := FindLast(u, '/'), HostEnd(u);
    if last.Some? && u[0] == '[' && 1 <= last.value < m {
      InSlice(u, 1, m, last.value);
    }
  }

  /** The parts as they are read. */
  ghost predicate ReadsAs(o: Outcome, host: Option<string>, port: Option<string>, token: Option<string>) {
    && o.Some? && Read(o.value.0, o.value.1.addr) == host && Read(o.value.0, o.value.1.port) == port
    && Read(o.value.0, o.value.1.token) == token
  }

  /** On every input, up to its first comma: it is accepted if and only if it is well
      formed, and then its host, port and token, if that is wanted, are read, whatever
      it looks like. */
  lemma ParseReads(str: string, want: bool)
    ensures var u := str[..ItemEnd(str)];
            && (Parse(str, want).Some? <==> WellFormed(u))
            && (WellFormed(u) ==>
                  ReadsAs(Parse(str, want), Host(u), Port(u), if want then TokenOf(u) else None))
  {
    hide Scan, CString, WellFormed, Port, Host, TokenOf, Read;
    var b, e := str + "\0", ItemEnd(str);
    var o := Scan(b, 0, 0, NO_REFS, want);
    ItemText(str);
    assert TextTo(b, 0, e) && b[..e] == str[..e];
    ScanAll(b, e, want);
    if WellFormed(b[..e]) {
      if e == 0 {
        NothingReads(o.value.0);
        NoParts();
      } else {
        HostReads(b, e, o, want);
        PortReads(b, e, o, want);
        TokenReads(b, e, o, want);
      }
    }
  }

  lemma NothingReads(f: string)
    ensures Read(f, None) == None
  {}

  lemma NoParts()
    ensures Host("") == Port("") == TokenOf("") == None
  {}

  /** A bare IPv6 address is refused: a host without brackets has no colon, and the
      port none either. */
  lemma BareIsRefused(str: string, want: bool, j: nat, k: nat)
    requires j < k < ItemEnd(str) && str[j] == ':' && str[k] == ':' && str[0] != '['
    ensures Parse(str, want) == None
  {
    ParseReads(str, want);
    var u := str[..ItemEnd(str)];
    assert u[j] == ':' && u[k] == ':';
  }
}
