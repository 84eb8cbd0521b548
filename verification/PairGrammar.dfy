/** The parser of fields joined by colons on every input: which texts it accepts, and
    which fields it reads. */
module PairGrammar {
  import opened Bytes
  import opened CStrings
  import opened PairParser

  // ------------------------------------------------------------- the reference

  predicate NoBrackets(t: string) {
    '[' !in t && ']' !in t
  }

  /** The fields of a text, n of them found before. A field in brackets goes to the
      first closing one, or to the end; a plain one to the next colon. There may be
      no bracket within a field, and no empty plain field but the last; a fifth field
      is not looked at, but for its brackets. */
  function Fields(u: string, n: nat): Option<seq<string>>
    requires n < 4
    decreases |u|, 1
  {
    if u == "" then Some([])
    else if u[0] == '[' then
      var m := Find(u, ']', 1);
      if '[' in u[1..m] then None
      else if m == |u| then Some([u[1..m]])
      else WithField(u[1..m], More(u[m + 1..], n + 1))
    else if u[0] == ':' || u[0] == ']' then None
    else WithField(u[..Find(u, ':', 0)], More(u[1..], n + 1))
  }

  /** What follows behind the start of a plain field, or behind a bracket. */
  function More(v: string, n: nat): Option<seq<string>>
    requires n <= 4
    decreases |v|, 0
  {
    var k := Find(v, ':', 0);
    if !NoBrackets(v[..k]) then None
    else if k == |v| then Some([])
    else if n < 4 then Fields(v[k + 1..], n)
    else More(v[k + 1..], n)
  }

  function WithField(x: string, fs: Option<seq<string>>): Option<seq<string>> {
    match fs
    case None => None
    case Some(rest) => Some([x] + rest)
  }

  // ------------------------------------------------------------ the machine

  predicate TextTo(b: string, i: nat, e: nat) {
    i <= e < |b| && b[e] == '\0' && b[|b| - 1] == '\0' && forall k :: i <= k < e ==> b[k] != '\0'
  }

  /** The outcome has these fields behind those found before, has left the buffer
      alone in front of position p, and has ended what stands there. */
  ghost predicate Gives(o: Outcome, b: string, p: nat, fs: seq<string>, ps: seq<nat>) {
    && o.Some? && p <= |b| == |o.value.0| && o.value.0[..p] == b[..p]
    && |o.value.1| == |ps| + |fs| && o.value.1[..|ps|] == ps
    && forall k :: 0 <= k < |fs| ==> ReadsAt(o.value.0, o.value.1[|ps| + k], fs[k])
  }

  ghost predicate EndsAt(o: Outcome, p: nat) {
    o.Some? && p < |o.value.0| && o.value.0[p] == '\0'
  }

  ghost predicate MoreRight(b: string, i: nat, e: nat, s: nat, ps: seq<nat>)
    requires TextTo(b, i, e) && (s == 1 || s == 3) && |ps| <= 4
  {
    var o, fs, p := Scan(b, i, s, ps), More(b[i..e], |ps|), i + Find(b[i..e], ':', 0);
    if fs == None then o == None else Gives(o, b, p, fs.value, ps) && EndsAt(o, p)
  }

  ghost predicate FieldsRight(b: string, i: nat, e: nat, ps: seq<nat>)
    requires TextTo(b, i, e) && |ps| < 4
  {
    var o, fs := Scan(b, i, 0, ps), Fields(b[i..e], |ps|);
    if fs == None then o == None else Gives(o, b, i, fs.value, ps)
  }

  lemma GivesLess(o: Outcome, b: string, c: string, p: nat, q: nat, fs: seq<string>, ps: seq<nat>)
    requires Gives(o, c, p, fs, ps) && |c| == |b| && q <= p && c[..q] == b[..q]
    ensures Gives(o, b, q, fs, ps)
  {
    assert o.value.0[..q] == o.value.0[..p][..q] == c[..p][..q] == c[..q];
  }

  lemma FindNext(t: string, c: char)
    requires t != "" && t[0] != c
    ensures Find(t, c, 0) == 1 + Find(t[1..], c, 0)
  {
    FindUnique(t, c, 0, 1 + Find(t[1..], c, 0));
  }

  lemma FindUnique(u: string, c: char, p: nat, k: nat)
    requires p <= k <= |u| && (k < |u| ==> u[k] == c) && forall j :: p <= j < k ==> u[j] != c
    ensures Find(u, c, p) == k
  {
    var m := Find(u, c, p);
    if k < m {
      InSlice(u, p, m, k);
    }
  }

  lemma {:induction false} ScanMore(b: string, i: nat, e: nat, s: nat, ps: seq<nat>)
    requires TextTo(b, i, e) && (s == 1 || s == 3) && |ps| <= 4
    ensures MoreRight(b, i, e, s, ps)
    decreases e - i, 0
  {
    hide Gives, Fields, More;
    var t, b' := b[i..e], b[i := '\0'];
    if i == e {
      MoreEnds(b, e, ps);
    } else if b[i] == ':' {
      assert b'[i + 1..e] == b[i + 1..e] == t[1..];
      MoreColon(t, |ps|);
      if |ps| < 4 {
        ScanFields(b', i + 1, e, ps);
        ColonCut(Scan(b', i + 1, 0, ps), b, i, i + 1, Fields(t[1..], |ps|), ps);
      } else {
        ScanMore(b', i + 1, e, s, ps);
        ColonCut(Scan(b', i + 1, s, ps), b, i, i + 1 + Find(t[1..], ':', 0), More(t[1..], |ps|), ps);
      }
    } else {
      FindNext(t, ':');
      assert t[1..] == b[i + 1..e];
      MoreNext(t, |ps|);
      if b[i] != '[' && b[i] != ']' {
        ScanMore(b, i + 1, e, s, ps);
      }
    }
  }

  lemma MoreEnds(b: string, e: nat, ps: seq<nat>)
    requires TextTo(b, e, e) && |ps| <= 4
    ensures More(b[e..e], |ps|) == Some([]) && Find(b[e..e], ':', 0) == 0
    ensures Gives(Some((b, ps)), b, e, [], ps)
  {
    assert b[e..e] == "";
  }

  lemma MoreColon(t: string, n: nat)
    requires t != "" && t[0] == ':' && n <= 4
    ensures Find(t, ':', 0) == 0
    ensures More(t, n) == if n < 4 then Fields(t[1..], n) else More(t[1..], n)
  {
    hide Fields;
    assert t[..0] == "";
  }

  /** One more character that is not a colon. */
  lemma MoreNext(t: string, n: nat)
    requires t != "" && t[0] != ':' && n <= 4
    ensures t[0] == '[' || t[0] == ']' ==> More(t, n) == None
    ensures t[0] != '[' && t[0] != ']' ==> More(t, n) == More(t[1..], n)
  {
    hide Fields;
    FindNext(t, ':');
    var k := Find(t, ':', 0);
    assert t[..k] == [t[0]] + t[1..][..k - 1];
    assert k < |t| ==> t[k + 1..] == t[1..][k - 1 + 1..];
  }

  /** A colon that has been cut. */
  lemma ColonCut(o: Outcome, b: string, i: nat, p: nat, fs: Option<seq<string>>, ps: seq<nat>)
    requires i < |b| && i < p && fs.Some? ==> Gives(o, b[i := '\0'], p, fs.value, ps)
    requires i < |b| && i < p
    ensures fs.Some? ==> Gives(o, b, i, fs.value, ps) && EndsAt(o, i)
  {
    if fs.Some? {
      var b' := b[i := '\0'];
      assert b'[..i] == b[..i];
      GivesLess(o, b, b', p, i, fs.value, ps);
      assert o.value.0[i] == o.value.0[..p][i] == b'[..p][i];
    }
  }

  lemma {:induction false} ScanFields(b: string, i: nat, e: nat, ps: seq<nat>)
    requires TextTo(b, i, e) && |ps| < 4
    ensures FieldsRight(b, i, e, ps)
    decreases e - i, 1
  {
    hide Gives, More;
    var t := b[i..e];
    if i == e {
      MoreEnds(b, e, ps);
      assert t == "";
    } else if b[i] == '[' {
      ScanBracketed(b, i, e, ps);
    } else if b[i] != ':' && b[i] != ']' {
      ScanMore(b, i + 1, e, 1, ps + [i]);
      assert t[1..] == b[i + 1..e];
      FindNext(t, ':');
      if More(t[1..], |ps| + 1).Some? {
        PlainField(b, i, e, ps, Scan(b, i + 1, 1, ps + [i]), More(t[1..], |ps| + 1).value);
      }
    }
  }

  /** A plain field and those behind it. */
  lemma PlainField(b: string, i: nat, e: nat, ps: seq<nat>, o: Outcome, fs: seq<string>)
    requires TextTo(b, i, e) && i < e
    requires var p := i + Find(b[i..e], ':', 0);
             i < p && Gives(o, b, p, fs, ps + [i]) && EndsAt(o, p)
    ensures Gives(o, b, i, [b[i..e][..Find(b[i..e], ':', 0)]] + fs, ps)
  {
    var p := i + Find(b[i..e], ':', 0);
    assert b[i..e][..p - i] == b[i..p];
    FieldEnds(o, b, i, p, p);
    FieldAdded(o, b, i, p, i, b[i..p], fs, ps);
  }

  /** A field from i to p reads back, if it has been left alone and ended. */
  lemma FieldEnds(o: Outcome, b: string, i: nat, p: nat, q: nat)
    requires o.Some? && i <= p < |o.value.0| == |b| && p <= q <= |b| && o.value.0[..q] == b[..q] && EndsAt(o, p)
    requires forall k :: i <= k < p ==> b[k] != '\0'
    ensures ReadsAt(o.value.0, i, b[i..p])
  {
    hide CString;
    var f := o.value.0;
    forall k | 0 <= k < p - i ensures f[i..][k] == b[i + k] != '\0' {
      assert f[i..][k] == f[i + k] == f[..q][i + k];
    }
    CStringIs(f[i..], p - i);
    assert f[i..][..p - i] == b[i..p];
  }

  /** A field that starts at `at`, in front of those that have been given. */
  lemma FieldAdded(o: Outcome, b: string, i: nat, p: nat, at: nat, x: string, fs: seq<string>, ps: seq<nat>)
    requires Gives(o, b, p, fs, ps + [at]) && i <= p && ReadsAt(o.value.0, at, x)
    ensures Gives(o, b, i, [x] + fs, ps)
  {
    hide ReadsAt;
    var (f, qs) := o.value;
    assert f[..i] == f[..p][..i] == b[..p][..i] == b[..i];
    assert qs[|ps|] == qs[..|ps| + 1][|ps|] == at && qs[..|ps|] == qs[..|ps| + 1][..|ps|] == ps;
    forall k | 0 <= k < |[x] + fs| ensures ReadsAt(f, qs[|ps| + k], ([x] + fs)[k]) {
      if k > 0 {
        assert qs[|ps| + k] == qs[|ps + [at]| + (k - 1)];
      }
    }
  }

  /** From inside the brackets to the first character that ends the field. */
  lemma {:induction false} ScanInside(b: string, i: nat, e: nat, ps: seq<nat>)
    requires TextTo(b, i, e) && |ps| <= 4
    ensures var m := Find(b[..e], ']', i);
            if '[' in b[i..m] then Scan(b, i, 2, ps) == None
            else if m == e then Scan(b, i, 2, ps) == Some((b, ps))
            else Scan(b, i, 2, ps) == Scan(b[m := '\0'], m + 1, 3, ps)
    decreases e - i
  {
    var m := Find(b[..e], ']', i);
    if i == e || b[i] == ']' {
      assert m == i && b[i..m] == "";
    } else {
      FindUnique(b[..e], ']', i + 1, m) by { FoundLater(b[..e], i, m); }
      assert b[i..m] == [b[i]] + b[i + 1..m];
      if b[i] != '[' {
        ScanInside(b, i + 1, e, ps);
      }
    }
  }

  lemma FoundLater(u: string, i: nat, m: nat)
    requires i < |u| && u[i] != ']' && m == Find(u, ']', i)
    ensures i < m && forall j :: i + 1 <= j < m ==> u[j] != ']'
  {
    forall j | i + 1 <= j < m ensures u[j] != ']' {
      if u[j] == ']' {
        InSlice(u, i, m, j);
      }
    }
  }

  lemma ScanBracketed(b: string, i: nat, e: nat, ps: seq<nat>)
    requires TextTo(b, i, e) && i < e && b[i] == '[' && |ps| < 4
    ensures FieldsRight(b, i, e, ps)
    decreases e - i, 0
  {
    hide Gives, More, Fields, Scan, MoreRight, WithField;
    var t, m := b[i..e], Find(b[..e], ']', i + 1);
    Shifted(b, i, e, m);
    FieldsBracket(t, |ps|);
    Opens(b, i, ps);
    assert t[1..m - i] == b[i + 1..m];
    ScanInside(b, i + 1, e, ps + [i + 1]);
    if '[' !in b[i + 1..m] {
      if m == e {
        OpenField(b, i, e, ps);
      } else {
        var b' := b[m := '\0'];
        ScanMore(b', m + 1, e, 3, ps + [i + 1]);
        assert b'[m + 1..e] == t[m - i + 1..];
        ClosedRight(b, i, m, e, ps);
      }
    }
  }

  lemma ClosedRight(b: string, i: nat, m: nat, e: nat, ps: seq<nat>)
    requires TextTo(b, i, e) && i < m < e && |ps| < 4
    requires MoreRight(b[m := '\0'], m + 1, e, 3, ps + [i + 1])
    ensures var b' := b[m := '\0'];
            var o, fs := Scan(b', m + 1, 3, ps + [i + 1]), WithField(b[i + 1..m], More(b'[m + 1..e], |ps| + 1));
            if fs == None then o == None else Gives(o, b, i, fs.value, ps)
  {
    hide Gives, More, Scan, EndsAt;
    var b' := b[m := '\0'];
    var fs := More(b'[m + 1..e], |ps| + 1);
    if fs.Some? {
      ClosedField(b, i, m, e, ps, Scan(b', m + 1, 3, ps + [i + 1]), fs.value);
    }
  }

  lemma FieldsBracket(t: string, n: nat)
    requires t != "" && t[0] == '[' && n < 4
    ensures var m := Find(t, ']', 1);
            Fields(t, n) == if '[' in t[1..m] then None else if m == |t| then Some([t[1..m]])
                            else WithField(t[1..m], More(t[m + 1..], n + 1))
  {
    hide More;
  }

  lemma Opens(b: string, i: nat, ps: seq<nat>)
    requires i + 1 < |b| && b[|b| - 1] == '\0' && b[i] == '[' && |ps| < 4
    ensures Scan(b, i, 0, ps) == Scan(b, i + 1, 2, ps + [i + 1])
  {}

  lemma Shifted(b: string, i: nat, e: nat, m: nat)
    requires i < e <= |b| && m == Find(b[..e], ']', i + 1)
    ensures Find(b[i..e], ']', 1) == m - i
  {
    forall j | 1 <= j < m - i ensures b[i..e][j] != ']' {
      if b[i + j] == ']' {
        InSlice(b[..e], i + 1, m, i + j);
      }
    }
    FindUnique(b[i..e], ']', 1, m - i);
  }

  /** A bracket that is left open. */
  lemma OpenField(b: string, i: nat, e: nat, ps: seq<nat>)
    requires TextTo(b, i, e) && i < e
    ensures Gives(Some((b, ps + [i + 1])), b, i, [b[i + 1..e]], ps)
  {
    var o: Outcome := Some((b, ps + [i + 1]));
    FieldEnds(o, b, i + 1, e, |b|);
    assert [b[i + 1..e]] + [] == [b[i + 1..e]];
    FieldAdded(o, b, i, |b|, i + 1, b[i + 1..e], [], ps);
  }

  lemma ClosedField(b: string, i: nat, m: nat, e: nat, ps: seq<nat>, o: Outcome, fs: seq<string>)
    requires TextTo(b, i, e) && i < m < e
    requires var p := m + 1 + Find(b[m := '\0'][m + 1..e], ':', 0);
             Gives(o, b[m := '\0'], p, fs, ps + [i + 1])
    ensures Gives(o, b, i, [b[i + 1..m]] + fs, ps)
  {
    var b' := b[m := '\0'];
    var p := m + 1 + Find(b'[m + 1..e], ':', 0);
    assert o.value.0[m] == o.value.0[..p][m] == b'[..p][m];
    FieldEnds(o, b', i + 1, m, p);
    assert b'[i + 1..m] == b[i + 1..m];
    FieldAdded(o, b', i, p, i + 1, b[i + 1..m], fs, ps);
    assert b'[..i] == b[..i];
    GivesLess(o, b, b', i, i, [b[i + 1..m]] + fs, ps);
  }

  /** On every input: it is accepted if and only if it has fields, and then those are
      found, each reading back as it was. */
  lemma ParseFinds(str: string)
    ensures var fs := Fields(CString(str), 0);
            && (Parse(str).Some? <==> fs.Some?)
            && (fs.Some? ==>
                  && |Parse(str).value.1| == |fs.value|
                  && forall k :: 0 <= k < |fs.value| ==>
                       ReadsAt(Parse(str).value.0, Parse(str).value.1[k], fs.value[k]))
  {
    hide Scan, CString, Fields, ReadsAt;
    var b, e := str + "\0", |CString(str)|;
    assert forall k :: 0 <= k < e ==> b[k] == CString(str)[k];
    assert b[0..e] == CString(str);
    ScanFields(b, 0, e, []);
    if Fields(CString(str), 0).Some? {
      var (f, qs) := Scan(b, 0, 0, []).value;
      forall k | 0 <= k < |qs| ensures ReadsAt(f, qs[k], Fields(CString(str), 0).value[k]) {
        assert qs[0 + k] == qs[k];
      }
    }
  }
}
