/** Messages of the fsh protocol that the server writes to its peers. */
module Frames {
  import opened Bytes

  const CMD_LOGIN: Byte := 0
  const CMD_TOKEN: Byte := 1
  const CMD_KEEP_ALIVE: Byte := 2
  const CMD_CONNECT: Byte := 3
  const CMD_ACCEPT: Byte := 4

  const HEADER_SIZE := 2

  datatype Frame =
    | TokenFrame(token: Token)
    | KeepAliveFrame
    | ConnectFrame(token: Token)

  /** The bytes of one frame: version 1, the command, and a token if any. */
  function Encode(f: Frame): (b: seq<Byte>)
    ensures |b| >= HEADER_SIZE
  {
    match f
    case TokenFrame(t) => [1, CMD_TOKEN] + t
    case KeepAliveFrame => [1, CMD_KEEP_ALIVE]
    case ConnectFrame(t) => [1, CMD_CONNECT] + t
  }

  function EncodeAll(fs: seq<Frame>): seq<Byte>
  {
    if fs == [] then [] else Encode(fs[0]) + EncodeAll(fs[1..])
  }

  /** What became of one send: the first `count` bytes of its frame went out. */
  datatype Sent = Sent(frame: Frame, count: nat)

  predicate Whole(p: Sent) {
    p.count >= |Encode(p.frame)|
  }

  /** The bytes that went out. */
  function Piece(p: Sent): seq<Byte> {
    if Whole(p) then Encode(p.frame) else Encode(p.frame)[..p.count]
  }

  function OnWire(ps: seq<Sent>): seq<Byte>
  {
    if ps == [] then [] else Piece(ps[0]) + OnWire(ps[1..])
  }

  lemma {:induction false} OnWireAppend(ps: seq<Sent>, p: Sent)
    ensures OnWire(ps + [p]) == OnWire(ps) + Piece(p)
  {
    if ps == [] {
      assert ps + [p] == [p];
    } else {
      assert (ps + [p])[1..] == ps[1..] + [p];
      OnWireAppend(ps[1..], p);
    }
  }

  /** The frames before the first send that was cut short. */
  function Unbroken(ps: seq<Sent>): (fs: seq<Frame>)
    ensures |fs| <= |ps|
  {
    if ps == [] || !Whole(ps[0]) then [] else [ps[0].frame] + Unbroken(ps[1..])
  }

  lemma {:induction false} UnbrokenAt(ps: seq<Sent>, k: nat)
    ensures k < |Unbroken(ps)| ==> Whole(ps[k]) && Unbroken(ps)[k] == ps[k].frame
    ensures k == |Unbroken(ps)| < |ps| ==> !Whole(ps[k])
  {
    if k > 0 && ps != [] && Whole(ps[0]) {
      UnbrokenAt(ps[1..], k - 1);
    }
  }

  /** All frames that went out whole. */
  function Wholes(ps: seq<Sent>): seq<Frame>
  {
    if ps == [] then [] else (if Whole(ps[0]) then [ps[0].frame] else []) + Wholes(ps[1..])
  }

  /** The tokens of the CONNECT frames, in order. */
  function ConnectTokens(fs: seq<Frame>): seq<Token>
  {
    if fs == [] then []
    else (if fs[0].ConnectFrame? then [fs[0].token] else []) + ConnectTokens(fs[1..])
  }

  /** A stream is its unbroken frames and then whatever began with the first cut. */
  lemma {:induction false} WireSplits(ps: seq<Sent>)
    ensures OnWire(ps) == EncodeAll(Unbroken(ps)) + OnWire(ps[|Unbroken(ps)|..])
  {
    if ps != [] && Whole(ps[0]) {
      WireSplits(ps[1..]);
      var rest := ps[1..][|Unbroken(ps[1..])|..];
      assert rest == ps[|Unbroken(ps)|..];
      assert Unbroken(ps)[1..] == Unbroken(ps[1..]);
      Associative(Encode(ps[0].frame), EncodeAll(Unbroken(ps[1..])), OnWire(rest));
    }
  }

  lemma {:induction false} WholesSplit(ps: seq<Sent>)
    ensures Wholes(ps) == Unbroken(ps) + Wholes(ps[|Unbroken(ps)|..])
  {
    if ps == [] || !Whole(ps[0]) {
      assert ps[0..] == ps;
      assert [] + Wholes(ps) == Wholes(ps);
    } else {
      WholesSplit(ps[1..]);
      var f, k := ps[0].frame, |Unbroken(ps[1..])|;
      assert ps[1..][k..] == ps[k + 1..];
      assert Unbroken(ps) == [f] + Unbroken(ps[1..]);
      assert Wholes(ps) == [f] + (Unbroken(ps[1..]) + Wholes(ps[k + 1..]));
      Associative([f], Unbroken(ps[1..]), Wholes(ps[k + 1..]));
    }
  }

  lemma {:induction false} ConnectTokensConcat(a: seq<Frame>, b: seq<Frame>)
    ensures ConnectTokens(a + b) == ConnectTokens(a) + ConnectTokens(b)
  {
    if a == [] {
      assert a + b == b;
    } else {
      assert (a + b)[1..] == a[1..] + b;
      ConnectTokensConcat(a[1..], b);
    }
  }

  lemma {:induction false} ConnectTokenOf(fs: seq<Frame>, k: nat)
    requires k < |fs| && fs[k].ConnectFrame?
    ensures fs[k].token in ConnectTokens(fs)
  {
    if k > 0 {
      ConnectTokenOf(fs[1..], k - 1);
    }
  }

  lemma {:induction false} NoConnectTokens(fs: seq<Frame>)
    ensures ConnectTokens(fs) == [] <==> forall f :: f in fs ==> !f.ConnectFrame?
  {
    if fs != [] {
      assert fs == [fs[0]] + fs[1..];
      NoConnectTokens(fs[1..]);
    }
  }
}
