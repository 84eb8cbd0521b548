/** The in-place parser of up to four fields joined by ':', plain or in brackets,
    and what a connector's configuration makes of them. */
module PairParser {
  import opened Bytes
  import opened CStrings

  type Outcome = Option<(string, seq<nat>)>

  /** What the state machine does from position i in state s, the starts of the
      fields found so far in ps. The states: 0 before a field, 1 in a plain one,
      2 in brackets, 3 behind ']'. A field starts only if there is room for it. */
  function Scan(b: string, i: nat, s: nat, ps: seq<nat>): (o: Outcome)
    requires i < |b| && b[|b| - 1] == '\0' && (s == 0 ==> |ps| < 4) && |ps| <= 4
    decreases |b| - i
  {
    match b[i]
    case '\0' => Some((b, ps))
    case ':' =>
      if s != 1 && s != 2 && s != 3 then None
      else if s == 2 then Scan(b, i + 1, s, ps)
      else Scan(b[i := '\0'], i + 1, if |ps| < 4 then 0 else s, ps)
    case '[' =>
      if s != 0 then None else Scan(b, i + 1, 2, ps + [i + 1])
    case ']' =>
      if s != 2 then None else Scan(b[i := '\0'], i + 1, 3, ps)
    case _ =>
      if s == 0 then Scan(b, i + 1, 1, ps + [i]) else Scan(b, i + 1, s, ps)
  }

  function Parse(str: string): Outcome {
    Scan(str + "\0", 0, 0, [])
  }

  /** The program. `ps` has room for four pointers; its first j are set. On every
      input the machine stays within the buffer and never sets a fifth. */
  method ParseAddrPair(str: string, ps: array<nat>) returns (res: Option<array<char>>, j: nat)
    requires ps.Length == 4
    modifies ps
    ensures res.Some? <==> Parse(str).Some?
    ensures res.Some? ==> j <= 4 && fresh(res.value) && Parse(str) == Some((res.value[..], ps[..j]))
    ensures forall k :: 0 <= k < j && k < 4 ==> ps[k] <= |str|
  {
    var n := |str| + 1;
    var b := new char[n](k requires 0 <= k < n => if k < n - 1 then str[k] else '\0');
    j := 0;
    var i, s := 0, 0;
    assert b[..] == str + "\0";
    while true
      invariant 0 <= i < n == b.Length && b[n - 1] == '\0' && fresh(b) && 0 <= s <= 3
      invariant j <= 4 && (s == 0 ==> j < 4)
      invariant Scan(b[..], i, s, ps[..j]) == Parse(str)
      invariant forall k :: 0 <= k < j ==> ps[k] < n
      decreases n - i
    {
      var c := b[i];
      if c == '\0' {
        break;
      } else if c == ':' {
        if s != 1 && s != 2 && s != 3 {
          return None, j;
        }
        if s == 1 || s == 3 {
          b[i] := '\0';
          i := i + 1;
          if j < 4 {
            s := 0;
          }
        } else {
          i := i + 1;
        }
      } else if c == '[' {
        if s != 0 {
          return None, j;
        }
        i := i + 1;
        ps[j] := i;
        j := j + 1;
        assert ps[..j] == ps[..j - 1] + [i];
        s := 2;
      } else if c == ']' {
        if s != 2 {
          return None, j;
        }
        b[i] := '\0';
        i := i + 1;
        s := 3;
      } else {
        if s == 0 {
          ps[j] := i;
          j := j + 1;
          assert ps[..j] == ps[..j - 1] + [i];
          i := i + 1;
          s := 1;
        } else {
          i := i + 1;
        }
      }
    }
    return Some(b), j;
  }

  // ------------------------------------------------------ joining and parsing

  datatype Field = Field(text: string, bracketed: bool)

  /** A field that can be told apart: non-empty without delimiters, or anything
      without brackets in brackets. */
  predicate FieldOk(f: Field) {
    (f.bracketed || f.text != "")
    && forall k :: 0 <= k < |f.text| ==>
         f.text[k] != '\0' && f.text[k] != '[' && f.text[k] != ']' && (f.bracketed || f.text[k] != ':')
  }

  function FieldText(f: Field): string {
    if f.bracketed then ['['] + (f.text + "]") else f.text
  }

  function Join(fs: seq<Field>): string {
    if fs == [] then "" else if |fs| == 1 then FieldText(fs[0]) else FieldText(fs[0]) + ([':'] + Join(fs[1..]))
  }

  /** Text x stands in b at position p. */
  predicate StandsAt(b: string, p: nat, x: string) {
    p + |x| <= |b| && forall k :: 0 <= k < |x| ==> b[p + k] == x[k]
  }

  predicate ReadsAt(f: string, p: nat, x: string) {
    p <= |f| && CString(f[p..]) == x
  }

  /** From inside a field to the character behind its text. */
  lemma {:induction false} SkipText(b: string, i: nat, n: nat, s: nat, ps: seq<nat>)
    requires i + n < |b| && b[|b| - 1] == '\0' && |ps| <= 4 && (s == 1 || s == 2)
    requires forall k :: i <= k < i + n ==>
               b[k] != '\0' && b[k] != '[' && b[k] != ']' && (s == 2 || b[k] != ':')
    ensures Scan(b, i, s, ps) == Scan(b, i + n, s, ps)
    decreases n
  {
    if n > 0 {
      SkipText(b, i + 1, n - 1, s, ps);
    }
  }

  function Start(f: Field, i: nat): nat {
    if f.bracketed then i + 1 else i
  }

  /** The buffer behind the field at i. */
  function Closed(b: string, f: Field, i: nat): (r: string)
    requires i + |FieldText(f)| <= |b|
    ensures |r| == |b|
    ensures forall k :: 0 <= k < |b| ==>
              r[k] == if f.bracketed && k == i + |FieldText(f)| - 1 then '\0' else b[k]
  {
    if f.bracketed then b[i + |FieldText(f)| - 1 := '\0'] else b
  }

  /** Where the characters of a field stand. */
  lemma FieldAt(b: string, i: nat, f: Field)
    requires StandsAt(b, i, FieldText(f))
    ensures forall k :: 0 <= k < |f.text| ==> b[Start(f, i) + k] == f.text[k]
    ensures f.bracketed ==> b[i] == '[' && b[i + |f.text| + 1] == ']'
    ensures |FieldText(f)| == if f.bracketed then |f.text| + 2 else |f.text|
  {
    var x, d := FieldText(f), Start(f, i) - i;
    forall k | 0 <= k < |f.text| ensures b[Start(f, i) + k] == f.text[k] {
      assert b[i + (d + k)] == x[d + k];
    }
    if f.bracketed {
      assert b[i + 0] == x[0] && b[i + (|f.text| + 1)] == x[|f.text| + 1];
    }
  }

  /** One whole field is passed over, and its start noted. */
  lemma ScanField(b: string, i: nat, f: Field, ps: seq<nat>)
    requires FieldOk(f) && StandsAt(b, i, FieldText(f)) && i + |FieldText(f)| < |b|
    requires b[|b| - 1] == '\0' && |ps| < 4
    ensures Closed(b, f, i)[|b| - 1] == '\0'
    ensures Scan(b, i, 0, ps) ==
            Scan(Closed(b, f, i), i + |FieldText(f)|, if f.bracketed then 3 else 1, ps + [Start(f, i)])
  {
    hide FieldText, StandsAt;
    FieldAt(b, i, f);
    var n, p := |f.text|, Start(f, i);
    forall k | p <= k < p + n
      ensures b[k] != '\0' && b[k] != '[' && b[k] != ']' && (f.bracketed || b[k] != ':')
    {
      assert b[p + (k - p)] == f.text[k - p];
    }
    if f.bracketed {
      SkipText(b, i + 1, n, 2, ps + [i + 1]);
    } else {
      SkipText(b, i + 1, n - 1, 1, ps + [i]);
    }
  }

  /** A field reads back from a buffer that ends it. */
  lemma FieldReads(b: string, g: string, i: nat, f: Field)
    requires FieldOk(f) && StandsAt(b, i, FieldText(f)) && i + |FieldText(f)| < |b| == |g|
    requires g[i + |FieldText(f)|] == '\0'
    requires forall k :: i <= k < i + |FieldText(f)| ==> g[k] == Closed(b, f, i)[k]
    ensures ReadsAt(g, Start(f, i), f.text)
  {
    hide CString, FieldText, StandsAt;
    var p, n := Start(f, i), |f.text|;
    FieldAt(b, i, f);
    forall k | 0 <= k < n ensures g[p..][k] == f.text[k] {
      assert b[p + k] == f.text[k];
    }
    assert g[p..][n] == '\0';
    CStringIs(g[p..], n);
    assert g[p..][..n] == f.text;
  }

  /** The outcome has the fields behind those found before, each reading back as
      it was, and nothing in front of position i touched. */
  ghost predicate Delivers(o: Outcome, b: string, i: nat, fs: seq<Field>, ps: seq<nat>) {
    && o.Some? && i <= |b| && |o.value.0| == |b| && o.value.0[..i] == b[..i]
    && |o.value.1| == |ps| + |fs| && o.value.1[..|ps|] == ps
    && forall k :: 0 <= k < |fs| ==> ReadsAt(o.value.0, o.value.1[|ps| + k], fs[k].text)
  }

  lemma ScanLast(b: string, i: nat, f: Field, ps: seq<nat>)
    requires FieldOk(f) && |ps| < 4 && b != "" && b[|b| - 1] == '\0'
    requires StandsAt(b, i, FieldText(f)) && i + |FieldText(f)| == |b| - 1
    ensures Delivers(Scan(b, i, 0, ps), b, i, [f], ps)
  {
    ScanField(b, i, f, ps);
    FieldReads(b, Closed(b, f, i), i, f);
  }

  /** One field and the colon behind it. */
  lemma ScanNext(b: string, i: nat, fs: seq<Field>, ps: seq<nat>)
    requires |fs| > 1 && FieldOk(fs[0]) && |ps| < 3 && b != "" && b[|b| - 1] == '\0'
    requires StandsAt(b, i, Join(fs)) && i + |Join(fs)| == |b| - 1
    ensures var e := i + |FieldText(fs[0])|;
            e < |b| - 1 && StandsAt(b, i, FieldText(fs[0]))
            && var b2 := Closed(b, fs[0], i)[e := '\0'];
            Scan(b, i, 0, ps) == Scan(b2, e + 1, 0, ps + [Start(fs[0], i)])
            && StandsAt(b2, e + 1, Join(fs[1..])) && e + 1 + |Join(fs[1..])| == |b| - 1
  {
    hide FieldText, FieldOk;
    var x, rest := FieldText(fs[0]), Join(fs[1..]);
    var e := i + |x|;
    StandsParts(b, i, x, ':', rest);
    ScanField(b, i, fs[0], ps);
    var b1 := Closed(b, fs[0], i);
    assert b1[e] == ':';
    var b2 := b1[e := '\0'];
    forall k | 0 <= k < |rest| ensures b2[e + 1 + k] == rest[k] {
      assert b[e + 1 + k] == rest[k];
    }
  }

  lemma StandsParts(b: string, i: nat, x: string, c: char, rest: string)
    requires StandsAt(b, i, x + ([c] + rest))
    ensures StandsAt(b, i, x) && b[i + |x|] == c && StandsAt(b, i + |x| + 1, rest)
  {
    var j := x + ([c] + rest);
    forall k | 0 <= k < |x| ensures b[i + k] == x[k] {
      assert j[k] == x[k];
    }
    assert b[i + |x|] == j[|x|];
    forall k | 0 <= k < |rest| ensures b[i + |x| + 1 + k] == rest[k] {
      assert j[|x| + 1 + k] == rest[k] && b[i + (|x| + 1 + k)] == j[|x| + 1 + k];
    }
  }

  /** What has been scanned is not touched any more, so the field reads back. */
  lemma FirstReads(b: string, g: string, i: nat, f: Field)
    requires FieldOk(f) && StandsAt(b, i, FieldText(f)) && i + |FieldText(f)| < |b| - 1 && |g| == |b|
    requires var e := i + |FieldText(f)|;
             g[..e + 1] == Closed(b, f, i)[e := '\0'][..e + 1]
    ensures ReadsAt(g, Start(f, i), f.text) && g[..i] == b[..i]
  {
    hide ReadsAt;
    var e := i + |FieldText(f)|;
    var b2 := Closed(b, f, i)[e := '\0'];
    forall k | 0 <= k < e + 1 ensures g[k] == b2[k] {
      assert g[..e + 1][k] == b2[..e + 1][k];
    }
    FieldReads(b, g, i, f);
  }

  /** A delivery of the rest makes a delivery of all. */
  lemma DeliversMore(o: Outcome, b: string, i: nat, fs: seq<Field>, ps: seq<nat>)
    requires |fs| > 1 && FieldOk(fs[0]) && StandsAt(b, i, FieldText(fs[0]))
    requires var e := i + |FieldText(fs[0])|;
             e < |b| - 1
             && Delivers(o, Closed(b, fs[0], i)[e := '\0'], e + 1, fs[1..], ps + [Start(fs[0], i)])
    ensures Delivers(o, b, i, fs, ps)
  {
    hide ReadsAt, FieldOk, FieldText, StandsAt, Closed;
    var e, ps1 := i + |FieldText(fs[0])|, ps + [Start(fs[0], i)];
    var (g, qs) := o.value;
    FirstReads(b, g, i, fs[0]);
    assert qs[|ps|] == qs[..|ps1|][|ps|] == Start(fs[0], i);
    assert qs[..|ps|] == qs[..|ps1|][..|ps|] == ps;
    forall k | 0 <= k < |fs| ensures ReadsAt(g, qs[|ps| + k], fs[k].text) {
      if k > 0 {
        assert qs[|ps| + k] == qs[|ps1| + (k - 1)] && fs[k] == fs[1..][k - 1];
      }
    }
  }

  /** From the start of some fields to the end of the text: each is noted, reads
      back as it was, and nothing in front of them is touched. */
  lemma {:induction false} ScanFields(b: string, i: nat, fs: seq<Field>, ps: seq<nat>)
    requires fs != [] && |ps| + |fs| <= 4 && forall k :: 0 <= k < |fs| ==> FieldOk(fs[k])
    requires b != "" && b[|b| - 1] == '\0' && StandsAt(b, i, Join(fs)) && i + |Join(fs)| == |b| - 1
    ensures Delivers(Scan(b, i, 0, ps), b, i, fs, ps)
    decreases |fs|
  {
    hide Scan, Delivers, FieldText, FieldOk, StandsAt, Closed, Start;
    if |fs| == 1 {
      assert fs == [fs[0]];
      ScanLast(b, i, fs[0], ps);
    } else {
      ScanNext(b, i, fs, ps);
      var e := i + |FieldText(fs[0])|;
      var b2 := Closed(b, fs[0], i)[e := '\0'];
      ScanFields(b2, e + 1, fs[1..], ps + [Start(fs[0], i)]);
      DeliversMore(Scan(b, i, 0, ps), b, i, fs, ps);
    }
  }

  /** Parsing inverts joining: one to four fields come back as they were. */
  lemma ParseInvertsJoin(fs: seq<Field>)
    requires 1 <= |fs| <= 4 && forall k :: 0 <= k < |fs| ==> FieldOk(fs[k])
    ensures Parse(Join(fs)).Some?
    ensures var (f, ps) := Parse(Join(fs)).value;
            |ps| == |fs| && forall k :: 0 <= k < |fs| ==> ReadsAt(f, ps[k], fs[k].text)
  {
    ScanFields(Join(fs) + "\0", 0, fs, []);
    var (f, ps) := Parse(Join(fs)).value;
    forall k | 0 <= k < |fs| ensures ReadsAt(f, ps[k], fs[k].text) {
      assert ps[0 + k] == ps[k];
    }
  }

  // ------------------------------------------------------------- configuration

  datatype Endpoints = Endpoints(localAddress: Option<string>, localPort: int,
                                 remoteAddress: Option<string>, remotePort: int)

  class Config {
    var localAddress: Option<string>
    var localPort: int
    var remoteAddress: Option<string>
    var remotePort: int

    function View(): Endpoints
      reads this
    {
      Endpoints(localAddress, localPort, remoteAddress, remotePort)
    }

    /** `atoi` is the C library's. */
    method ParseSetAddrPair(str: string, atoi: string -> int) returns (res: int)
      modifies this
      ensures res == 0 || res == -1
      ensures res == 0 <==> Parse(str).Some? && |Parse(str).value.1| >= 2
      ensures res == -1 ==> View() == old(View())
      ensures res == 0 ==>
                var (f, ps) := Parse(str).value;
                (forall k :: 0 <= k < |ps| ==> ps[k] <= |f|) && |ps| <= 4
                && View() == Assigned(old(View()), f, ps, atoi)
    {
      hide Scan, CString;
      var ps := new nat[4];
      var b, j := ParseAddrPair(str, ps);
      if b.None? || j < 2 {
        return -1;
      }
      ghost var f, at := b.value[..], ps[..j];
      assert Parse(str) == Some((f, at));
      PartsInBuffer(str);
      assert forall k :: 0 <= k < j ==> at[k] == ps[k];
      if j == 4 {
        localAddress := Some(CString(b.value[ps[0]..]));
        localPort := atoi(CString(b.value[ps[1]..]));
        remoteAddress := Some(CString(b.value[ps[2]..]));
        remotePort := atoi(CString(b.value[ps[3]..]));
      } else if j == 3 {
        localPort := atoi(CString(b.value[ps[0]..]));
        remoteAddress := Some(CString(b.value[ps[1]..]));
        remotePort := atoi(CString(b.value[ps[2]..]));
      } else {
        remoteAddress := Some(CString(b.value[ps[0]..]));
        remotePort := atoi(CString(b.value[ps[1]..]));
      }
      return 0;
    }
  }

  /** Four fields name both ends, three leave out the local address, two are the
      remote end. */
  function Assigned(was: Endpoints, f: string, ps: seq<nat>, atoi: string -> int): Endpoints
    requires 2 <= |ps| <= 4 && forall k :: 0 <= k < |ps| ==> ps[k] <= |f|
  {
    if |ps| == 4 then
      Endpoints(Some(CString(f[ps[0]..])), atoi(CString(f[ps[1]..])),
                Some(CString(f[ps[2]..])), atoi(CString(f[ps[3]..])))
    else if |ps| == 3 then
      was.(localPort := atoi(CString(f[ps[0]..])), remoteAddress := Some(CString(f[ps[1]..])),
           remotePort := atoi(CString(f[ps[2]..])))
    else
      was.(remoteAddress := Some(CString(f[ps[0]..])), remotePort := atoi(CString(f[ps[1]..])))
  }

  lemma {:induction false} ScanStays(b: string, i: nat, s: nat, ps: seq<nat>)
    requires i < |b| && b[|b| - 1] == '\0' && (s == 0 ==> |ps| < 4) && |ps| <= 4
    requires forall k :: 0 <= k < |ps| ==> ps[k] < |b|
    ensures Scan(b, i, s, ps).Some? ==>
              |Scan(b, i, s, ps).value.0| == |b| && |Scan(b, i, s, ps).value.1| <= 4
              && forall k :: 0 <= k < |Scan(b, i, s, ps).value.1| ==> Scan(b, i, s, ps).value.1[k] < |b|
    decreases |b| - i
  {
    match b[i]
    case '\0' =>
    case ':' =>
      if s == 2 {
        ScanStays(b, i + 1, s, ps);
      } else if s == 1 || s == 3 {
        ScanStays(b[i := '\0'], i + 1, if |ps| < 4 then 0 else s, ps);
      }
    case '[' =>
      if s == 0 {
        ScanStays(b, i + 1, 2, ps + [i + 1]);
      }
    case ']' =>
      if s == 2 {
        ScanStays(b[i := '\0'], i + 1, 3, ps);
      }
    case _ =>
      if s == 0 {
        ScanStays(b, i + 1, 1, ps + [i]);
      } else {
        ScanStays(b, i + 1, s, ps);
      }
  }

  lemma PartsInBuffer(str: string)
    ensures Parse(str).Some? ==>
              |Parse(str).value.0| == |str| + 1 && |Parse(str).value.1| <= 4
              && forall k :: 0 <= k < |Parse(str).value.1| ==> Parse(str).value.1[k] <= |str|
  {
    ScanStays(str + "\0", 0, 0, []);
  }

  /** The documented forms: LOCAL_ADDR:LOCAL_PORT:REMOTE_ADDR:REMOTE_PORT, the
      same without the local address, and REMOTE_ADDR:REMOTE_PORT. */
  lemma FormsAreAssigned(was: Endpoints, fs: seq<Field>, atoi: string -> int)
    requires 2 <= |fs| <= 4 && forall k :: 0 <= k < |fs| ==> FieldOk(fs[k])
    ensures Parse(Join(fs)).Some?
    ensures var (f, ps) := Parse(Join(fs)).value;
            |ps| == |fs| && (forall k :: 0 <= k < |ps| ==> ps[k] <= |f|)
            && Assigned(was, f, ps, atoi) ==
               if |fs| == 4 then
                 Endpoints(Some(fs[0].text), atoi(fs[1].text), Some(fs[2].text), atoi(fs[3].text))
               else if |fs| == 3 then
                 Endpoints(was.localAddress, atoi(fs[0].text), Some(fs[1].text), atoi(fs[2].text))
               else Endpoints(was.localAddress, was.localPort, Some(fs[0].text), atoi(fs[1].text))
  {
    ParseInvertsJoin(fs);
    var (f, ps) := Parse(Join(fs)).value;
    assert ReadsAt(f, ps[0], fs[0].text) && ReadsAt(f, ps[1], fs[1].text);
    assert |fs| > 2 ==> ReadsAt(f, ps[2], fs[2].text);
    assert |fs| > 3 ==> ReadsAt(f, ps[3], fs[3].text);
  }
}
