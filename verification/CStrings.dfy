/** C strings in a buffer, and searching a text. */
module CStrings {

  /** The C string at the start of a buffer: up to its first NUL. */
  function CString(s: string): (r: string)
    ensures |r| <= |s| && r == s[..|r|] && '\0' !in r
    ensures |r| < |s| ==> s[|r|] == '\0'
  {
    if s == "" || s[0] == '\0' then "" else [s[0]] + CString(s[1..])
  }

  lemma {:induction false} CStringIs(s: string, n: nat)
    requires n < |s| && s[n] == '\0' && forall k :: 0 <= k < n ==> s[k] != '\0'
    ensures CString(s) == s[..n]
  {
    if n > 0 {
      CStringIs(s[1..], n - 1);
      assert s[..n] == [s[0]] + s[1..][..n - 1];
    }
  }

  /** The first c from p on, or the end. */
  function Find(u: string, c: char, p: nat): (k: nat)
    requires p <= |u|
    ensures p <= k <= |u| && c !in u[p..k] && (k < |u| ==> u[k] == c)
    decreases |u| - p
  {
    if p == |u| || u[p] == c then p
    else
      assert u[p..Find(u, c, p + 1)] == [u[p]] + u[p + 1..Find(u, c, p + 1)];
      Find(u, c, p + 1)
  }

  lemma FoundIn(u: string, c: char, p: nat)
    requires p <= |u|
    ensures c in u[p..] <==> Find(u, c, p) < |u|
  {
    var k := Find(u, c, p);
    if k < |u| {
      assert u[p..][k - p] == c;
    } else {
      assert u[p..] == u[p..k];
    }
  }

  lemma InSlice(u: string, lo: nat, hi: nat, k: nat)
    requires lo <= k < hi <= |u|
    ensures u[k] in u[lo..hi]
  {
    assert u[lo..hi][k - lo] == u[k];
  }
}
