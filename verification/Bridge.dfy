/** The socket-to-handle worker of the Windows bridge and its line-feed filter. */
module Bridge {
  import opened Bytes

  const CR: Byte := 13
  const LF: Byte := 10

  /** The filter on a whole stream behind the byte `last`: each line feed that
      does not follow a carriage return becomes one. */
  function Filtered(last: Byte, s: seq<Byte>): (r: seq<Byte>)
    ensures |r| == |s|
    ensures forall k :: 0 <= k < |s| ==>
              r[k] == if s[k] == LF && (if k == 0 then last else s[k - 1]) != CR then CR else s[k]
  {
    seq(|s|, k requires 0 <= k < |s| =>
      if s[k] == LF && (if k == 0 then last else s[k - 1]) != CR then CR else s[k])
  }

  function Last(last: Byte, s: seq<Byte>): Byte {
    if s == [] then last else s[|s| - 1]
  }

  /** What is read can be cut anywhere: the filter with the last byte carried
      over gives the same stream. */
  lemma FilterSplits(last: Byte, a: seq<Byte>, b: seq<Byte>)
    ensures Filtered(last, a + b) == Filtered(last, a) + Filtered(Last(last, a), b)
  {
    var l, r := Filtered(last, a + b), Filtered(last, a) + Filtered(Last(last, a), b);
    forall k | 0 <= k < |a + b| ensures l[k] == r[k] {
      if k < |a| {
        assert k > 0 ==> (a + b)[k - 1] == a[k - 1];
      } else {
        assert (a + b)[k] == b[k - |a|];
        assert k > |a| ==> (a + b)[k - 1] == b[k - |a| - 1];
      }
    }
  }

  /** Filtering what has been filtered changes nothing. */
  lemma FilterIdempotent(last: Byte, s: seq<Byte>)
    ensures Filtered(last, Filtered(last, s)) == Filtered(last, s)
  {}

  function Concat(chunks: seq<seq<Byte>>): seq<Byte> {
    if chunks == [] then [] else Concat(chunks[..|chunks| - 1]) + chunks[|chunks| - 1]
  }

  /** The filter as the worker applies it: chunk by chunk, carrying `last`. */
  function ByChunks(last: Byte, chunks: seq<seq<Byte>>): seq<Byte>
    decreases |chunks|
  {
    if chunks == [] then []
    else Filtered(last, chunks[0]) + ByChunks(Last(last, chunks[0]), chunks[1..])
  }

  lemma {:induction false} ConcatFront(chunks: seq<seq<Byte>>)
    requires chunks != []
    ensures Concat(chunks) == chunks[0] + Concat(chunks[1..])
  {
    var n := |chunks|;
    if n > 1 {
      ConcatFront(chunks[..n - 1]);
      assert chunks[..n - 1][1..] == chunks[1..][..n - 2];
      assert chunks[1..][n - 2] == chunks[n - 1];
    }
  }

  /** However a stream arrives in chunks, the output is the one-pass filter of
      the whole stream. */
  lemma {:induction false} ChunksDoNotMatter(last: Byte, chunks: seq<seq<Byte>>)
    ensures ByChunks(last, chunks) == Filtered(last, Concat(chunks))
    decreases |chunks|
  {
    if chunks != [] {
      ConcatFront(chunks);
      ChunksDoNotMatter(Last(last, chunks[0]), chunks[1..]);
      FilterSplits(last, chunks[0], Concat(chunks[1..]));
    }
  }

  /** The inner loop, in place on the received bytes. */
  method FilterInPlace(buf: array<Byte>, n: nat, last: Byte) returns (last': Byte)
    requires n <= buf.Length
    modifies buf
    ensures buf[..n] == Filtered(last, old(buf[..n]))
    ensures buf[n..] == old(buf[n..])
    ensures last' == Last(last, old(buf[..n]))
  {
    last' := last;
    var i := 0;
    while i < n
      invariant i <= n
      invariant buf[i..] == old(buf[i..])
      invariant forall k :: 0 <= k < i ==> buf[k] == Filtered(last, old(buf[..n]))[k]
      invariant last' == Last(last, old(buf[..i]))
    {
      ghost var was := old(buf[..n]);
      var c := buf[i];
      assert c == old(buf[i..])[0] == was[i];
      assert i > 0 ==> last' == was[i - 1];
      if c == LF && last' != CR {
        buf[i] := CR;
      }
      last' := c;
      assert buf[i + 1..] == old(buf[i..])[1..];
      i := i + 1;
    }
  }

  /** The output handle: each write takes some of what is left, or fails. */
  class Handle {
    var takes: seq<nat>          // how much each coming write can take; then failure
    ghost var written: seq<Byte>

    constructor (takes: seq<nat>)
      ensures this.takes == takes && written == []
    {
      this.takes, written := takes, [];
    }

    method WriteFile(data: seq<Byte>) returns (s: nat)
      requires data != []
      modifies this
      ensures s <= |data| && written == old(written) + data[..s]
    {
      s := 0;
      if takes != [] {
        s := if takes[0] < |data| then takes[0] else |data|;
        takes := takes[1..];
      }
      written := written + data[..s];
    }
  }

  /** Writes the first n bytes out, in as many writes as it takes. */
  method WriteAll(buf: array<Byte>, n: nat, out: Handle) returns (failed: bool)
    requires n <= buf.Length
    modifies out
    ensures old(out.written) <= out.written <= old(out.written) + buf[..n]
    ensures !failed ==> out.written == old(out.written) + buf[..n]
  {
    var off := 0;
    while off < n
      invariant off <= n
      invariant out.written == old(out.written) + buf[..off]
    {
      var s := out.WriteFile(buf[off..n]);
      assert buf[..off] + buf[off..n][..s] == buf[..off + s];
      off := off + s;
      if s == 0 {
        assert buf[..n] == buf[..off] + buf[off..n];
        return true;
      }
    }
    return false;
  }

  /** What the worker is to write for a received stream. */
  function Through(lf2cr: bool, s: seq<Byte>): seq<Byte> {
    if lf2cr then Filtered(0, s) else s
  }

  /** Through the filter no line feed comes out but behind a carriage return, and
      nothing else is changed: not one byte without the filter, and only line feeds,
      into carriage returns, with it. */
  lemma NoBareLineFeeds(s: seq<Byte>, k: nat)
    requires k < |s|
    ensures Through(true, s)[k] == 10 ==> k > 0 && Through(true, s)[k - 1] == 13
    ensures Through(true, s)[k] != s[k] ==> s[k] == 10 && Through(true, s)[k] == 13 && (k > 0 ==> s[k - 1] != 13)
    ensures Through(false, s)[k] == s[k]
  {}

  lemma ThroughGrows(lf2cr: bool, chunks: seq<seq<Byte>>, j: nat)
    requires j < |chunks|
    ensures var was, c := Concat(chunks[..j]), chunks[j];
            && Concat(chunks[..j + 1]) == was + c
            && Through(lf2cr, was + c) == Through(lf2cr, was) + (if lf2cr then Filtered(Last(0, was), c) else c)
  {
    assert chunks[..j + 1][..j] == chunks[..j];
    FilterSplits(0, Concat(chunks[..j]), chunks[j]);
  }

  lemma {:induction false} PrefixOfAll(lf2cr: bool, chunks: seq<seq<Byte>>, j: nat)
    requires j <= |chunks|
    ensures Through(lf2cr, Concat(chunks[..j])) <= Through(lf2cr, Concat(chunks))
    decreases |chunks| - j
  {
    if j < |chunks| {
      PrefixOfAll(lf2cr, chunks, j + 1);
      ThroughGrows(lf2cr, chunks, j);
    } else {
      assert chunks[..j] == chunks;
    }
  }

  lemma NothingYet(lf2cr: bool, chunks: seq<seq<Byte>>)
    ensures Concat(chunks[..0]) == [] && Through(lf2cr, []) == [] && Last(0, []) == 0
  {}

  lemma LastOf(a: seq<Byte>, b: seq<Byte>)
    ensures Last(Last(0, a), b) == Last(0, a + b)
  {}

  /** One received chunk: into the buffer, through the filter and out. */
  method WriteChunk(buf: array<Byte>, chunk: seq<Byte>, lf2cr: bool, last: Byte, out: Handle)
    returns (last': Byte, failed: bool)
    requires |chunk| <= buf.Length
    modifies buf, out
    ensures last' == if lf2cr then Last(last, chunk) else last
    ensures var due := if lf2cr then Filtered(last, chunk) else chunk;
            old(out.written) <= out.written <= old(out.written) + due
            && (!failed ==> out.written == old(out.written) + due)
  {
    var n := |chunk|;
    forall k | 0 <= k < n {
      buf[k] := chunk[k];
    }
    assert buf[..n] == chunk;
    last' := last;
    if lf2cr {
      last' := FilterInPlace(buf, n, last);
    }
    failed := WriteAll(buf, n, out);
  }

  /** The worker: receives chunks, filters them if asked to, and writes them out.
      What has come out when it stops is the beginning of the filtered stream, and
      all of it unless a write failed. */
  method Writer(lf2cr: bool, chunks: seq<seq<Byte>>, out: Handle) returns (failed: bool)
    requires out.written == []
    requires forall k :: 0 <= k < |chunks| ==> 0 < |chunks[k]| <= 8192
    modifies out
    ensures out.written <= Through(lf2cr, Concat(chunks))
    ensures !failed ==> out.written == Through(lf2cr, Concat(chunks))
  {
    hide Filtered, Concat, Last;
    var buf := new Byte[8192];
    var last: Byte := 0;
    assert Concat(chunks[..0]) == [] && Through(lf2cr, []) == [] && Last(0, []) == 0 by { NothingYet(lf2cr, chunks); }
    var j := 0;
    while j < |chunks|
      invariant j <= |chunks| && fresh(buf) && buf.Length == 8192
      invariant lf2cr ==> last == Last(0, Concat(chunks[..j]))
      invariant out.written == Through(lf2cr, Concat(chunks[..j]))
    {
      ThroughGrows(lf2cr, chunks, j);
      LastOf(Concat(chunks[..j]), chunks[j]);
      last, failed := WriteChunk(buf, chunks[j], lf2cr, last, out);
      if failed {
        PrefixOfAll(lf2cr, chunks, j + 1);
        return;
      }
      j := j + 1;
    }
    assert chunks[..j] == chunks;
    return false;
  }
}
