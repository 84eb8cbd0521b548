/** The receiving end of the server's frames: a forwarder reads its TOKEN and
    then dispatches CONNECTs until the stream ends or makes no sense. */
module ForwardClient {
  import opened Bytes
  import opened Frames

  /** What the token reader makes of a stream: the token, and the bytes left. */
  function TokenRead(data: seq<Byte>): Option<(Token, seq<Byte>)> {
    if |data| < HEADER_SIZE + TOKEN_SIZE || data[1] != CMD_TOKEN then None
    else Some((data[HEADER_SIZE..HEADER_SIZE + TOKEN_SIZE], data[HEADER_SIZE + TOKEN_SIZE..]))
  }

  /** The tokens that dispatching a stream accepts, in order. */
  function Dispatched(data: seq<Byte>): seq<Token>
    decreases |data|
  {
    if |data| < HEADER_SIZE then []
    else if data[1] == CMD_KEEP_ALIVE then Dispatched(data[HEADER_SIZE..])
    else if data[1] != CMD_CONNECT || |data| < HEADER_SIZE + TOKEN_SIZE then []
    else [data[HEADER_SIZE..HEADER_SIZE + TOKEN_SIZE]] + Dispatched(data[HEADER_SIZE + TOKEN_SIZE..])
  }

  /** A connected stream socket: all bytes that will arrive before it ends. */
  class Socket {
    var data: seq<Byte>

    constructor (data: seq<Byte>)
      ensures this.data == data
    {
      this.data := data;
    }

    /** A receive that waits for all n bytes; a short count means the end. */
    method Recv(n: nat) returns (got: seq<Byte>)
      modifies this
      ensures |got| <= n && old(data) == got + data
      ensures |got| == n <==> |old(data)| >= n
    {
      var k := if |data| < n then |data| else n;
      got, data := data[..k], data[k..];
    }
  }

  class Forwarder {
    var fd: Socket
    var token: Token
    var accepted: seq<Token>      // the clients started, by token

    constructor (fd: Socket, token: Token)
      ensures this.fd == fd && this.token == token && accepted == []
    {
      this.fd, this.token, accepted := fd, token, [];
    }

    method ReadToken() returns (res: int)
      modifies this`token, fd
      ensures res == 0 <==> TokenRead(old(fd.data)).Some?
      ensures res == 0 ==> TokenRead(old(fd.data)) == Some((token, fd.data))
      ensures res != 0 ==> res == -1 && token == old(token)
    {
      var msg := fd.Recv(HEADER_SIZE);
      if |msg| != HEADER_SIZE {
        return -1;
      }
      if msg[1] != CMD_TOKEN {
        return -1;
      }
      var mt := fd.Recv(TOKEN_SIZE);
      if |mt| != TOKEN_SIZE {
        return -1;
      }
      assert old(fd.data) == msg + (mt + fd.data);
      assert old(fd.data)[HEADER_SIZE..HEADER_SIZE + TOKEN_SIZE] == mt;
      assert old(fd.data)[HEADER_SIZE + TOKEN_SIZE..] == fd.data;
      if mt != token {
        token := mt;
      }
      return 0;
    }

    method Dispatch()
      modifies this`accepted, fd
      ensures accepted == old(accepted) + Dispatched(old(fd.data))
    {
      while true
        invariant accepted + Dispatched(fd.data) == old(accepted) + Dispatched(old(fd.data))
        decreases |fd.data|
      {
        ghost var data := fd.data;
        var msg := fd.Recv(HEADER_SIZE);
        if |msg| != HEADER_SIZE {
          return;
        }
        assert data[1] == msg[1] && fd.data == data[HEADER_SIZE..];
        if msg[1] == CMD_KEEP_ALIVE {
          continue;
        }
        if msg[1] != CMD_CONNECT {
          return;
        }
        var mt := fd.Recv(TOKEN_SIZE);
        if |mt| != TOKEN_SIZE {
          return;
        }
        assert mt == data[HEADER_SIZE..HEADER_SIZE + TOKEN_SIZE];
        assert fd.data == data[HEADER_SIZE + TOKEN_SIZE..];
        accepted := accepted + [mt];
      }
    }
  }

  lemma DispatchStep(f: Frame, rest: seq<Byte>)
    requires !f.TokenFrame?
    ensures Dispatched(Encode(f) + rest) == (if f.ConnectFrame? then [f.token] else []) + Dispatched(rest)
  {
    var data := Encode(f) + rest;
    assert data[1] == Encode(f)[1];
    assert data[|Encode(f)|..] == rest;
    if f.ConnectFrame? {
      assert data[HEADER_SIZE..HEADER_SIZE + TOKEN_SIZE] == f.token;
    }
  }

  lemma StreamSplits(fs: seq<Frame>, tail: seq<Byte>)
    requires fs != []
    ensures EncodeAll(fs) + tail == Encode(fs[0]) + (EncodeAll(fs[1..]) + tail)
  {
    Associative(Encode(fs[0]), EncodeAll(fs[1..]), tail);
  }

  /** Whole frames are dispatched exactly, whatever comes behind them. */
  lemma {:induction false} DispatchRecovers(fs: seq<Frame>, tail: seq<Byte>)
    requires forall k :: 0 <= k < |fs| ==> !fs[k].TokenFrame?
    ensures Dispatched(EncodeAll(fs) + tail) == ConnectTokens(fs) + Dispatched(tail)
  {
    if fs == [] {
      assert EncodeAll(fs) + tail == tail;
    } else {
      StreamSplits(fs, tail);
      DispatchStep(fs[0], EncodeAll(fs[1..]) + tail);
      DispatchRecovers(fs[1..], tail);
      Associative(if fs[0].ConnectFrame? then [fs[0].token] else [], ConnectTokens(fs[1..]), Dispatched(tail));
    }
  }

  /** Something went out of each send. */
  ghost predicate AllStarted(ps: seq<Sent>) {
    forall k :: 0 <= k < |ps| ==> ps[k].count > 0
  }

  /** Every message starts with the version, which is also the command of TOKEN. */
  lemma StartsWithVersion(ps: seq<Sent>)
    requires AllStarted(ps)
    ensures ps != [] ==> OnWire(ps) != [] && OnWire(ps)[0] == 1 == CMD_TOKEN
  {}

  /** Behind one stray byte of a message nothing is heard any more, whatever
      follows: every header is read off by one, and its command is not CONNECT. */
  lemma StrayByteSilences(p: Sent, rest: seq<Sent>)
    requires p.count == 1 && AllStarted(rest)
    ensures Dispatched(OnWire([p] + rest)) == []
  {
    StartsWithVersion(rest);
    assert ([p] + rest)[1..] == rest;
    assert OnWire([p] + rest) == Encode(p.frame)[..1] + OnWire(rest);
  }

  /** Nothing is heard of a message cut short as long as nothing follows it. */
  lemma CutIsSilent(p: Sent)
    requires !p.frame.TokenFrame? && !Whole(p)
    ensures Dispatched(OnWire([p])) == []
  {
    assert OnWire([p]) == Encode(p.frame)[..p.count] + [];
  }

  /** A message cut within its token is heard, once enough bytes follow, as a
      CONNECT with their first bytes for the rest of the token. */
  lemma CutTokenIsCompleted(t: Token, count: nat, tail: seq<Byte>)
    requires HEADER_SIZE <= count < HEADER_SIZE + TOKEN_SIZE <= count + |tail|
    ensures var missing := HEADER_SIZE + TOKEN_SIZE - count;
            Dispatched(Piece(Sent(ConnectFrame(t), count)) + tail)
            == [t[..count - HEADER_SIZE] + tail[..missing]] + Dispatched(tail[missing..])
  {
    CutData(CMD_CONNECT, t, count, tail);
    DispatchConnect(Encode(ConnectFrame(t))[..count] + tail);
  }

  /** In the same way a TOKEN that was cut short is completed. */
  lemma CutGreetingIsCompleted(t: Token, count: nat, tail: seq<Byte>)
    requires HEADER_SIZE <= count < HEADER_SIZE + TOKEN_SIZE <= count + |tail|
    ensures var missing := HEADER_SIZE + TOKEN_SIZE - count;
            TokenRead(Piece(Sent(TokenFrame(t), count)) + tail)
            == Some((t[..count - HEADER_SIZE] + tail[..missing], tail[missing..]))
  {
    CutData(CMD_TOKEN, t, count, tail);
  }

  lemma CutData(cmd: Byte, t: Token, count: nat, tail: seq<Byte>)
    requires HEADER_SIZE <= count < HEADER_SIZE + TOKEN_SIZE <= count + |tail|
    ensures var data, missing := ([1, cmd] + t)[..count] + tail, HEADER_SIZE + TOKEN_SIZE - count;
            && |data| == count + |tail| && data[1] == cmd
            && data[HEADER_SIZE..HEADER_SIZE + TOKEN_SIZE] == t[..count - HEADER_SIZE] + tail[..missing]
            && data[HEADER_SIZE + TOKEN_SIZE..] == tail[missing..]
  {
    var p := ([1, cmd] + t)[..count];
    SliceAcross(p, tail, HEADER_SIZE, HEADER_SIZE + TOKEN_SIZE);
    assert p[HEADER_SIZE..] == t[..count - HEADER_SIZE];
  }

  lemma DispatchConnect(data: seq<Byte>)
    requires |data| >= HEADER_SIZE + TOKEN_SIZE && data[1] == CMD_CONNECT
    ensures Dispatched(data)
            == [data[HEADER_SIZE..HEADER_SIZE + TOKEN_SIZE]] + Dispatched(data[HEADER_SIZE + TOKEN_SIZE..])
  {}

  lemma DispatchEnd(data: seq<Byte>)
    requires |data| <= HEADER_SIZE && (|data| == HEADER_SIZE ==> data[1] == CMD_CONNECT)
    ensures Dispatched(data) == []
  {}

  lemma SliceAcross<T>(a: seq<T>, b: seq<T>, lo: nat, hi: nat)
    requires lo <= |a| <= hi <= |a| + |b|
    ensures (a + b)[lo..hi] == a[lo..] + b[..hi - |a|] && (a + b)[hi..] == b[hi - |a|..]
  {}

  /** Which may by chance be what was sent: behind two bytes of any CONNECT, one
      whose token is the header of a CONNECT eight times over is heard. */
  lemma LongerCutMayBeHeard(u: Token, t: Token)
    requires forall k :: 0 <= k < TOKEN_SIZE ==> t[k] == if k % 2 == 0 then 1 else CMD_CONNECT
    ensures Dispatched(OnWire([Sent(ConnectFrame(u), 2), Sent(ConnectFrame(t), HEADER_SIZE + TOKEN_SIZE)])) == [t]
  {
    hide Dispatched, OnWire, Encode;
    var tail := Encode(ConnectFrame(t));
    HeaderOverAgain(t);
    TwoOnWire(Sent(ConnectFrame(u), 2), Sent(ConnectFrame(t), HEADER_SIZE + TOKEN_SIZE));
    CutTokenIsCompleted(u, 2, tail);
    assert u[..0] + t == t;
    DispatchEnd(tail[TOKEN_SIZE..]);
  }

  lemma HeaderOverAgain(t: Token)
    requires forall k :: 0 <= k < TOKEN_SIZE ==> t[k] == if k % 2 == 0 then 1 else CMD_CONNECT
    ensures var tail := Encode(ConnectFrame(t));
            |tail| == HEADER_SIZE + TOKEN_SIZE && tail[..TOKEN_SIZE] == t && tail[TOKEN_SIZE..][1] == CMD_CONNECT
  {
    var tail := Encode(ConnectFrame(t));
    assert tail[TOKEN_SIZE..][1] == t[TOKEN_SIZE - 1];
  }

  lemma TwoOnWire(p: Sent, q: Sent)
    ensures OnWire([p, q]) == Piece(p) + Piece(q)
  {
    assert [p, q] == [p] + [q];
    OnWireAppend([p], q);
    assert [p][1..] == [];
    assert Piece(p) + [] == Piece(p);
  }

  /** What is heard of a stream that starts with its TOKEN: the token, all CONNECTs
      before the first cut, and nothing more if nothing follows the cut or it left
      a single byte. */
  lemma StreamHeard(ps: seq<Sent>)
    requires AllStarted(ps) && Unbroken(ps) != [] && ps[0].frame.TokenFrame?
    requires forall k :: 0 < k < |ps| ==> !ps[k].frame.TokenFrame?
    ensures var fs, heard := Unbroken(ps), TokenRead(OnWire(ps));
            && fs[0] == ps[0].frame && heard.Some? && heard.value.0 == ps[0].frame.token
            && ConnectTokens(fs[1..]) <= Dispatched(heard.value.1)
            && (|fs| >= |ps| - 1 || ps[|fs|].count == 1 ==> Dispatched(heard.value.1) == ConnectTokens(fs[1..]))
  {
    var fs := Unbroken(ps);
    var tail := OnWire(ps[|fs|..]);
    WireSplits(ps);
    StreamSplits(fs, tail);
    UnbrokenAt(ps, 0);
    TokenRecovers(fs[0].token, EncodeAll(fs[1..]) + tail);
    forall j | 0 <= j < |fs[1..]| ensures !fs[1..][j].TokenFrame? {
      UnbrokenAt(ps, j + 1);
    }
    DispatchRecovers(fs[1..], tail);
    if |fs| >= |ps| - 1 || ps[|fs|].count == 1 {
      TailHeard(ps, |fs|);
    }
  }

  /** What is heard from the first cut on. */
  lemma TailHeard(ps: seq<Sent>, k: nat)
    requires AllStarted(ps) && k == |Unbroken(ps)| && forall j :: k <= j < |ps| ==> !ps[j].frame.TokenFrame?
    requires k >= |ps| - 1 || ps[k].count == 1
    ensures Dispatched(OnWire(ps[k..])) == []
  {
    if k < |ps| {
      UnbrokenAt(ps, k);
      assert ps[k..] == [ps[k]] + ps[k + 1..];
      if ps[k].count == 1 {
        StrayByteSilences(ps[k], ps[k + 1..]);
      } else {
        assert ps[k..] == [ps[k]];
        CutIsSilent(ps[k]);
      }
    }
  }

  /** The greeting is read back, and leaves what is behind it. */
  lemma TokenRecovers(t: Token, rest: seq<Byte>)
    ensures TokenRead(Encode(TokenFrame(t)) + rest) == Some((t, rest))
  {
    var data := Encode(TokenFrame(t)) + rest;
    assert data[HEADER_SIZE..HEADER_SIZE + TOKEN_SIZE] == t;
    assert data[HEADER_SIZE + TOKEN_SIZE..] == rest;
  }
}
