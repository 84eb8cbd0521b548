/** The in-place parser of ADDR[:PORT][/TOKEN], with ADDR plain or in brackets. */
module AddrParser {
  import opened Bytes
  import CStrings

  /** Where the parts start in the buffer; none for a pointer that stays NULL. */
  datatype Refs = Refs(addr: Option<nat>, port: Option<nat>, token: Option<nat>)

  const NO_REFS := Refs(None, None, None)

  type Outcome = Option<(string, Refs)>

  /** What the state machine does from position i in state s, buffer and parts
      found so far at hand. The states: 0 start, 1 plain address, 2 its port,
      4 behind '[', 5 in brackets, 6 behind ']', 7 its port. */
  function Scan(b: string, i: nat, s: nat, r: Refs, want: bool): (o: Outcome)
    requires i < |b| && b[|b| - 1] == '\0'
    decreases |b| - i, if s == 4 then 1 else 0
  {
    match b[i]
    case '\0' => Some((b, r))
    case ',' => Some((b[i := '\0'], r))
    case ':' =>
      if s != 1 && s != 4 && s != 5 && s != 6 then None
      else if s == 1 then Scan(b[i := '\0'], i + 1, 2, r.(port := Some(i + 1)), want)
      else if s == 6 then Scan(b[i := '\0'], i + 1, 7, r.(port := Some(i + 1)), want)
      else Scan(b, i + 1, 5, r, want)
    case '/' =>
      if s != 1 && s != 2 && s != 6 && s != 7 then None
      else Scan(b[i := '\0'], i + 1, s, if want then r.(token := Some(i + 1)) else r, want)
    case '[' =>
      if s != 0 then None else Scan(b, i + 1, 4, r.(addr := Some(i + 1)), want)
    case ']' =>
      if s != 5 then None else Scan(b[i := '\0'], i + 1, 6, r, want)
    case _ =>
      if s == 0 then Scan(b, i + 1, 1, r.(addr := Some(i)), want)
      else if s == 4 then Scan(b, i, 5, r, want)
      else Scan(b, i + 1, s, r, want)
  }

  /** A whole parse of a string. */
  function Parse(str: string, want: bool): Outcome {
    Scan(str + "\0", 0, 0, NO_REFS, want)
  }

  /** The program. The result is the cut buffer, or none for a syntax error. The
      loop stays within the string and its terminator, and ends although one of
      its steps consumes nothing. */
  method ParseAddr(str: string, want: bool) returns (res: Option<array<char>>, refs: Refs)
    ensures res.Some? <==> Parse(str, want).Some?
    ensures res.Some? ==> fresh(res.value) && Parse(str, want) == Some((res.value[..], refs))
  {
    var n := |str| + 1;
    var b := new char[n](k requires 0 <= k < n => if k < n - 1 then str[k] else '\0');
    refs := NO_REFS;
    var i, s := 0, 0;
    assert b[..] == str + "\0";
    while true
      invariant 0 <= i < n == b.Length && b[n - 1] == '\0' && fresh(b) && 0 <= s <= 7
      invariant Scan(b[..], i, s, refs, want) == Parse(str, want)
      decreases n - i, if s == 4 then 1 else 0
    {
      var c := b[i];
      if c == '\0' {
        break;
      } else if c == ',' {
        b[i] := '\0';
        break;
      } else if c == ':' {
        if s != 1 && s != 4 && s != 5 && s != 6 {
          return None, refs;
        }
        if s == 1 || s == 6 {
          b[i] := '\0';
          i := i + 1;
          refs := refs.(port := Some(i));
          s := if s == 1 then 2 else 7;
        } else {
          s := 5;
          i := i + 1;
        }
      } else if c == '/' {
        if s != 1 && s != 2 && s != 6 && s != 7 {
          return None, refs;
        }
        b[i] := '\0';
        i := i + 1;
        if want {
          refs := refs.(token := Some(i));
        }
      } else if c == '[' {
        if s != 0 {
          return None, refs;
        }
        i := i + 1;
        refs := refs.(addr := Some(i));
        s := 4;
      } else if c == ']' {
        if s != 5 {
          return None, refs;
        }
        b[i] := '\0';
        i := i + 1;
        s := 6;
      } else {
        if s == 0 {
          refs := refs.(addr := Some(i));
          i := i + 1;
          s := 1;
        } else if s == 4 {
          s := 5;
        } else {
          i := i + 1;
        }
      }
    }
    return Some(b), refs;
  }

  // ------------------------------------------------------------------ in bounds

  predicate Within(at: Option<nat>, n: nat) {
    at.Some? ==> at.value < n
  }

  predicate RefsWithin(r: Refs, n: nat) {
    Within(r.addr, n) && Within(r.port, n) && Within(r.token, n)
  }

  /** On any input at all, the parts point into the buffer, the buffer keeps its
      length and its terminator, and it only ever gets NULs written into it. */
  lemma {:induction false} ScanInBounds(b: string, i: nat, s: nat, r: Refs, want: bool)
    requires i < |b| && b[|b| - 1] == '\0' && RefsWithin(r, |b|)
    ensures Scan(b, i, s, r, want).Some? ==>
              var (f, q) := Scan(b, i, s, r, want).value;
              |f| == |b| && f[|b| - 1] == '\0' && RefsWithin(q, |b|)
              && forall k :: 0 <= k < |b| ==> f[k] == b[k] || f[k] == '\0'
    decreases |b| - i, if s == 4 then 1 else 0
  {
    match b[i]
    case '\0' =>
    case ',' =>
    case ':' =>
      if s == 1 {
        ScanInBounds(b[i := '\0'], i + 1, 2, r.(port := Some(i + 1)), want);
      } else if s == 6 {
        ScanInBounds(b[i := '\0'], i + 1, 7, r.(port := Some(i + 1)), want);
      } else {
        ScanInBounds(b, i + 1, 5, r, want);
      }
    case '/' =>
      ScanInBounds(b[i := '\0'], i + 1, s, if want then r.(token := Some(i + 1)) else r, want);
    case '[' => ScanInBounds(b, i + 1, 4, r.(addr := Some(i + 1)), want);
    case ']' => ScanInBounds(b[i := '\0'], i + 1, 6, r, want);
    case _ =>
      if s == 0 {
        ScanInBounds(b, i + 1, 1, r.(addr := Some(i)), want);
      } else if s == 4 {
        ScanInBounds(b, i, 5, r, want);
      } else {
        ScanInBounds(b, i + 1, s, r, want);
      }
  }

  // ----------------------------------------------------- printing and parsing

  predicate Delimiter(c: char) {
    c == '\0' || c == ',' || c == ':' || c == '/' || c == '[' || c == ']'
  }

  predicate Plain(s: string) {
    forall k :: 0 <= k < |s| ==> !Delimiter(s[k])
  }

  /** What may stand in brackets: at least one character, colons allowed. */
  predicate Bracketable(s: string) {
    s != "" && forall k :: 0 <= k < |s| ==> s[k] == ':' || !Delimiter(s[k])
  }

  predicate EndsAt(b: string, e: nat) {
    e < |b| && (b[e] == '\0' || b[e] == ',')
  }

  /** Characters without meaning are passed over. */
  lemma {:induction false} SkipPlain(b: string, i: nat, n: nat, s: nat, r: Refs, want: bool)
    requires i + n < |b| && b[|b| - 1] == '\0' && Plain(b[i..i + n])
    requires s != 0 && s != 4
    ensures Scan(b, i, s, r, want) == Scan(b, i + n, s, r, want)
    decreases n
  {
    if n > 0 {
      assert b[i] == b[i..i + n][0];
      assert b[i + 1..i + 1 + (n - 1)] == b[i..i + n][1..];
      SkipPlain(b, i + 1, n - 1, s, r, want);
    }
  }

  lemma {:induction false} SkipBracketed(b: string, i: nat, n: nat, r: Refs, want: bool)
    requires i + n < |b| && b[|b| - 1] == '\0'
    requires forall k :: i <= k < i + n ==> b[k] == ':' || !Delimiter(b[k])
    ensures Scan(b, i, 5, r, want) == Scan(b, i + n, 5, r, want)
    decreases n
  {
    if n > 0 {
      SkipBracketed(b, i + 1, n - 1, r, want);
    }
  }

  /** The last part of the text: a token, or nothing, up to a comma or the end. */
  function TokenPart(token: Option<string>): string {
    match token
    case None => ""
    case Some(t) => ['/'] + t
  }

  function PortPart(port: Option<string>): string {
    match port
    case None => ""
    case Some(p) => [':'] + p
  }

  function HostPart(host: string, bracketed: bool): string {
    if bracketed then ['['] + (host + "]") else host
  }

  function Print(host: string, bracketed: bool, port: Option<string>, token: Option<string>): string {
    HostPart(host, bracketed) + PortPart(port) + TokenPart(token)
  }

  /** The parts can be told apart again: nothing plain contains a delimiter. */
  predicate Printable(host: string, bracketed: bool, port: Option<string>, token: Option<string>) {
    && (if bracketed then Bracketable(host) else host != "" && Plain(host))
    && (port.Some? ==> Plain(port.value)) && (token.Some? ==> Plain(token.value))
  }

  /** The C string that a part reads as. */
  function Read(f: string, at: Option<nat>): Option<string> {
    if at.Some? && at.value <= |f| then Some(CStrings.CString(f[at.value..])) else None
  }

  /** Text x stands in b at position p. */
  predicate StandsAt(b: string, p: nat, x: string) {
    p + |x| <= |b| && b[p..p + |x|] == x
  }

  /** Reading a plain part that has been cut off. */
  lemma ReadPlain(f: string, p: nat, x: string)
    requires StandsAt(f, p, x) && '\0' !in x && p + |x| < |f| && f[p + |x|] == '\0'
    ensures Read(f, Some(p)) == Some(x)
  {
    assert forall k :: 0 <= k < |x| ==> f[p..][k] == x[k];
    CStrings.CStringIs(f[p..], |x|);
    assert f[p..][..|x|] == f[p..p + |x|];
  }

  /** Scanning the token part and the end. */
  lemma ScanToken(b: string, p: nat, s: nat, r: Refs, want: bool, token: Option<string>)
    requires s == 1 || s == 2 || s == 6 || s == 7
    requires b != "" && b[|b| - 1] == '\0' && StandsAt(b, p, TokenPart(token))
    requires token.Some? ==> Plain(token.value)
    requires EndsAt(b, p + |TokenPart(token)|)
    ensures var e := p + |TokenPart(token)|;
            var cut := if token.Some? then b[p := '\0'] else b;
            Scan(b, p, s, r, want) ==
            Some((cut[e := '\0'], if token.Some? && want then r.(token := Some(p + 1)) else r))
  {
    if token.Some? {
      var n := |token.value|;
      assert b[p] == TokenPart(token)[0];
      var cut := b[p := '\0'];
      assert cut[p + 1..p + 1 + n] == b[p..p + 1 + n][1..] == token.value;
      SkipPlain(cut, p + 1, n, s, if want then r.(token := Some(p + 1)) else r, want);
      assert b[p + 1 + n] == '\0' ==> cut[p + 1 + n := '\0'] == cut;
    } else {
      assert b[p] == '\0' ==> b[p := '\0'] == b;
    }
  }

  /** Scanning the port part, behind a host. */
  lemma ScanPort(b: string, p: nat, s: nat, r: Refs, want: bool, port: Option<string>)
    requires s == 1 || s == 6
    requires b != "" && b[|b| - 1] == '\0' && StandsAt(b, p, PortPart(port)) && p + |PortPart(port)| < |b|
    requires port.Some? ==> Plain(port.value)
    ensures port.Some? ==>
              Scan(b, p, s, r, want) ==
              Scan(b[p := '\0'], p + |PortPart(port)|, if s == 1 then 2 else 7, r.(port := Some(p + 1)), want)
  {
    if port.Some? {
      var n := |port.value|;
      assert b[p] == PortPart(port)[0];
      var cut := b[p := '\0'];
      assert cut[p + 1..p + 1 + n] == b[p..p + 1 + n][1..] == port.value;
      SkipPlain(cut, p + 1, n, if s == 1 then 2 else 7, r.(port := Some(p + 1)), want);
    }
  }

  /** The buffer behind the host. */
  function HostCut(b: string, bracketed: bool, h: nat): (r: string)
    requires 0 < h < |b|
    ensures |r| == |b|
  {
    if bracketed then b[h - 1 := '\0'] else b
  }

  function HostRefs(bracketed: bool): Refs {
    Refs(Some(if bracketed then 1 else 0), None, None)
  }

  function HostState(bracketed: bool): nat {
    if bracketed then 6 else 1
  }

  /** Scanning the host part, at the start. */
  lemma ScanHost(b: string, host: string, bracketed: bool, h: nat, want: bool)
    requires b != "" && b[|b| - 1] == '\0' && h == |HostPart(host, bracketed)|
    requires StandsAt(b, 0, HostPart(host, bracketed)) && 0 < h < |b|
    requires if bracketed then Bracketable(host) else host != "" && Plain(host)
    ensures HostCut(b, bracketed, h)[|b| - 1] == '\0'
    ensures Scan(b, 0, 0, NO_REFS, want)
            == Scan(HostCut(b, bracketed, h), h, HostState(bracketed), HostRefs(bracketed), want)
  {
    var n, x := |host|, HostPart(host, bracketed);
    assert forall k :: 0 <= k < |x| ==> b[k] == b[0..0 + |x|][k] == x[k];
    if bracketed {
      var r := Refs(Some(1), None, None);
      assert b[0] == '[' && b[n + 1] == ']' && b[1] == host[0];
      assert forall k :: 1 <= k < n + 1 ==> b[k] == host[k - 1];
      assert Scan(b, 1, 4, r, want) == Scan(b, 1, 5, r, want);
      SkipBracketed(b, 1, n, r, want);
    } else {
      assert b[0] == host[0];
      assert b[1..1 + (n - 1)] == host[1..];
      SkipPlain(b, 1, n - 1, 1, Refs(Some(0), None, None), want);
    }
  }

  lemma Concatenated(x: string, y: string, z: string, w: string)
    ensures var b := x + y + z + w;
            StandsAt(b, 0, x) && StandsAt(b, |x|, y) && StandsAt(b, |x| + |y|, z)
            && b[|x| + |y| + |z|..] == w
  {
    var b := x + y + z + w;
    assert b[..|x|] == x && b[|x|..|x| + |y|] == y && b[|x| + |y|..|x| + |y| + |z|] == z;
  }

  lemma StandsInner(b: string, p: nat, c: char, x: string)
    requires StandsAt(b, p, [c] + x)
    ensures b[p] == c && StandsAt(b, p + 1, x)
  {
    assert b[p] == b[p..p + 1 + |x|][0];
    assert b[p + 1..p + 1 + |x|] == b[p..p + 1 + |x|][1..];
  }

  /** A buffer that starts with printed parts: the host part up to h, the port
      part up to p, the token part up to e, and there a comma or the end. */
  predicate Laid(b: string, host: string, bracketed: bool, port: Option<string>, token: Option<string>,
                 h: nat, p: nat, e: nat) {
    && h == |HostPart(host, bracketed)| && p == h + |PortPart(port)| && e == p + |TokenPart(token)|
    && b != "" && b[|b| - 1] == '\0' && EndsAt(b, e)
    && StandsAt(b, 0, HostPart(host, bracketed)) && StandsAt(b, h, PortPart(port))
    && StandsAt(b, p, TokenPart(token))
  }

  lemma PrintLays(b: string, host: string, bracketed: bool, port: Option<string>, token: Option<string>,
                  tail: string, h: nat, p: nat, e: nat)
    requires tail == "" || tail[0] == ','
    requires b == Print(host, bracketed, port, token) + tail + "\0"
    requires h == |HostPart(host, bracketed)| && p == h + |PortPart(port)| && e == p + |TokenPart(token)|
    ensures Laid(b, host, bracketed, port, token, h, p, e)
  {
    hide HostPart, PortPart, TokenPart;
    var x, y, z, w := HostPart(host, bracketed), PortPart(port), TokenPart(token), tail + "\0";
    Concatenated(x, y, z, w);
    Associative(x + y + z, tail, "\0");
    assert b[e] == b[e..][0] == w[0];
    assert b[|b| - 1] == w[|w| - 1];
  }

  /** A part survives cuts outside of it. */
  lemma StandsCut(b: string, p: nat, x: string, k: nat, c: char)
    requires StandsAt(b, p, x) && k < |b| && (k < p || p + |x| <= k)
    ensures StandsAt(b[k := c], p, x)
  {
    assert b[k := c][p..p + |x|] == b[p..p + |x|];
  }

  /** The buffer with NULs where the other parts end. */
  function RestCut(b: string, port: bool, token: bool, h: nat, p: nat, e: nat): (f: string)
    requires h <= p <= e < |b|
    ensures |f| == |b|
    ensures forall k :: 0 <= k < |b| ==>
              f[k] == if k == e || (port && k == h) || (token && k == p) then '\0' else b[k]
  {
    var b2 := if port then b[h := '\0'] else b;
    (if token then b2[p := '\0'] else b2)[e := '\0']
  }

  function RestRefs(r: Refs, port: bool, token: bool, h: nat, p: nat): Refs {
    Refs(r.addr, if port then Some(h + 1) else r.port, if token then Some(p + 1) else r.token)
  }

  /** Parsing behind the host. */
  lemma ScanRest(b: string, s: nat, r: Refs, want: bool, port: Option<string>, token: Option<string>,
                 h: nat, p: nat, e: nat)
    requires s == 1 || s == 6
    requires p == h + |PortPart(port)| && e == p + |TokenPart(token)|
    requires b != "" && b[|b| - 1] == '\0' && StandsAt(b, h, PortPart(port))
    requires StandsAt(b, p, TokenPart(token)) && EndsAt(b, e)
    requires port.Some? ==> Plain(port.value)
    requires token.Some? ==> Plain(token.value)
    ensures Scan(b, h, s, r, want) ==
            Some((RestCut(b, port.Some?, token.Some?, h, p, e), RestRefs(r, port.Some?, token.Some? && want, h, p)))
  {
    if port.Some? {
      ScanPort(b, h, s, r, want, port);
      StandsCut(b, p, TokenPart(token), h, '\0');
      ScanToken(b[h := '\0'], p, if s == 1 then 2 else 7, r.(port := Some(h + 1)), want, token);
    } else {
      ScanToken(b, h, s, r, want, token);
    }
  }

  lemma AfterHost(b: string, host: string, bracketed: bool, port: Option<string>, token: Option<string>,
                  h: nat, p: nat, e: nat)
    requires Laid(b, host, bracketed, port, token, h, p, e) && h > 0
    ensures var b1 := HostCut(b, bracketed, h);
            && b1[|b| - 1] == '\0' && EndsAt(b1, e)
            && StandsAt(b1, h, PortPart(port)) && StandsAt(b1, p, TokenPart(token))
  {
    if bracketed {
      StandsCut(b, h, PortPart(port), h - 1, '\0');
      StandsCut(b, p, TokenPart(token), h - 1, '\0');
    }
  }

  /** The final buffer of printed parts. */
  function Final(b: string, bracketed: bool, port: bool, token: bool, h: nat, p: nat, e: nat): (f: string)
    requires 0 < h <= p <= e < |b|
  {
    RestCut(HostCut(b, bracketed, h), port, token, h, p, e)
  }

  lemma ScanPrinted(b: string, host: string, bracketed: bool, port: Option<string>, token: Option<string>,
                    h: nat, p: nat, e: nat, want: bool)
    requires Printable(host, bracketed, port, token) && Laid(b, host, bracketed, port, token, h, p, e) && h > 0
    ensures Scan(b, 0, 0, NO_REFS, want) ==
            Some((Final(b, bracketed, port.Some?, token.Some?, h, p, e),
                  RestRefs(HostRefs(bracketed), port.Some?, token.Some? && want, h, p)))
  {
    hide Scan, RestCut, HostCut, HostPart, PortPart, TokenPart, StandsAt, Plain, Bracketable;
    ScanHost(b, host, bracketed, h, want);
    AfterHost(b, host, bracketed, port, token, h, p, e);
    ScanRest(HostCut(b, bracketed, h), HostState(bracketed), HostRefs(bracketed), want, port, token, h, p, e);
  }

  /** A part that no cut falls into reads back. */
  lemma ReadPart(b: string, f: string, at: nat, x: string)
    requires StandsAt(b, at, x) && |f| == |b| && '\0' !in x && at + |x| < |f| && f[at + |x|] == '\0'
    requires forall k :: at <= k < at + |x| ==> f[k] == b[k]
    ensures Read(f, Some(at)) == Some(x)
  {
    assert f[at..at + |x|] == b[at..at + |x|];
    ReadPlain(f, at, x);
  }

  lemma HostStands(b: string, host: string, bracketed: bool)
    requires StandsAt(b, 0, HostPart(host, bracketed))
    ensures StandsAt(b, if bracketed then 1 else 0, host)
  {
    if bracketed {
      StandsInner(b, 0, '[', host + "]");
      assert b[1..1 + |host|] == b[1..1 + |host + "]"|][..|host|];
    }
  }

  /** f is b with every part ended, and nothing changed within one. */
  predicate PartsEnded(b: string, f: string, bracketed: bool, h: nat, p: nat, e: nat) {
    && 0 < h <= p <= e < |b| == |f| && f[h] == f[p] == f[e] == '\0'
    && (if bracketed then f[h - 1] == '\0' else f[h - 1] == b[h - 1])
    && forall k :: 0 <= k < |b| && k != h && k != p && k != e && k != h - 1 ==> f[k] == b[k]
  }

  lemma FinalEnds(b: string, host: string, bracketed: bool, port: Option<string>, token: Option<string>,
                  h: nat, p: nat, e: nat)
    requires Laid(b, host, bracketed, port, token, h, p, e) && h > 0
    ensures PartsEnded(b, Final(b, bracketed, port.Some?, token.Some?, h, p, e), bracketed, h, p, e)
  {}

  lemma ReadHost(b: string, f: string, host: string, bracketed: bool, h: nat)
    requires StandsAt(b, 0, HostPart(host, bracketed)) && h == |HostPart(host, bracketed)| > 0
    requires |f| == |b| && h < |b| && '\0' !in host
    requires f[h] == '\0' && (if bracketed then f[h - 1] == '\0' else f[h - 1] == b[h - 1])
    requires forall k :: 0 <= k < h - 1 ==> f[k] == b[k]
    ensures Read(f, Some(if bracketed then 1 else 0)) == Some(host)
  {
    HostStands(b, host, bracketed);
    ReadPart(b, f, if bracketed then 1 else 0, host);
  }

  /** A part behind its delimiter. */
  lemma ReadBehind(b: string, f: string, p: nat, c: char, x: string)
    requires StandsAt(b, p, [c] + x) && |f| == |b| && '\0' !in x && p + 1 + |x| < |f| && f[p + 1 + |x|] == '\0'
    requires forall k :: p < k < p + 1 + |x| ==> f[k] == b[k]
    ensures Read(f, Some(p + 1)) == Some(x)
  {
    StandsInner(b, p, c, x);
    ReadPart(b, f, p + 1, x);
  }

  lemma ReadPort(b: string, f: string, bracketed: bool, port: string, h: nat, p: nat, e: nat)
    requires PartsEnded(b, f, bracketed, h, p, e) && StandsAt(b, h, [':'] + port)
    requires p == h + 1 + |port| && '\0' !in port
    ensures Read(f, Some(h + 1)) == Some(port)
  {
    ReadBehind(b, f, h, ':', port);
  }

  lemma ReadToken(b: string, f: string, bracketed: bool, token: string, h: nat, p: nat, e: nat)
    requires PartsEnded(b, f, bracketed, h, p, e) && StandsAt(b, p, ['/'] + token)
    requires e == p + 1 + |token| && '\0' !in token
    ensures Read(f, Some(p + 1)) == Some(token)
  {
    ReadBehind(b, f, p, '/', token);
  }

  /** What a parse reads, part by part. */
  predicate Reads(o: Outcome, host: string, port: Option<string>, token: Option<string>) {
    o.Some? && Read(o.value.0, o.value.1.addr) == Some(host) && Read(o.value.0, o.value.1.port) == port
    && Read(o.value.0, o.value.1.token) == token
  }

  lemma FinalReads(b: string, f: string, host: string, bracketed: bool, port: Option<string>, token: Option<string>,
                   h: nat, p: nat, e: nat)
    requires Printable(host, bracketed, port, token) && Laid(b, host, bracketed, port, token, h, p, e)
    requires PartsEnded(b, f, bracketed, h, p, e)
    ensures Read(f, Some(if bracketed then 1 else 0)) == Some(host)
    ensures port.Some? ==> Read(f, Some(h + 1)) == port
    ensures token.Some? ==> Read(f, Some(p + 1)) == token
  {
    ReadHost(b, f, host, bracketed, h);
    if port.Some? {
      ReadPort(b, f, bracketed, port.value, h, p, e);
    }
    if token.Some? {
      ReadToken(b, f, bracketed, token.value, h, p, e);
    }
  }

  lemma PrintedReads(b: string, host: string, bracketed: bool, port: Option<string>, token: Option<string>,
                     h: nat, p: nat, e: nat, want: bool)
    requires Printable(host, bracketed, port, token) && Laid(b, host, bracketed, port, token, h, p, e) && h > 0
    ensures Reads(Scan(b, 0, 0, NO_REFS, want), host, port, if want then token else None)
  {
    ScanPrinted(b, host, bracketed, port, token, h, p, e, want);
    FinalEnds(b, host, bracketed, port, token, h, p, e);
    FinalReads(b, Final(b, bracketed, port.Some?, token.Some?, h, p, e), host, bracketed, port, token, h, p, e);
  }

  /** Parsing inverts printing: for every host (plain, or in brackets and then
      with colons if need be), every optional port and every optional token, and
      whatever follows behind a comma, the parts read back are the parts
      printed. */
  lemma ParseInvertsPrint(host: string, bracketed: bool, port: Option<string>, token: Option<string>,
                          tail: string, want: bool)
    requires Printable(host, bracketed, port, token) && (tail == "" || tail[0] == ',')
    ensures Reads(Parse(Print(host, bracketed, port, token) + tail, want), host, port, if want then token else None)
  {
    var b := Print(host, bracketed, port, token) + tail + "\0";
    var h := |HostPart(host, bracketed)|;
    var p := h + |PortPart(port)|;
    var e := p + |TokenPart(token)|;
    PrintLays(b, host, bracketed, port, token, tail, h, p, e);
    PrintedReads(b, host, bracketed, port, token, h, p, e, want);
  }
}
