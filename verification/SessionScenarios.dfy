/** Runs of the rendezvous server in which something happens that one might not
    expect, built step by step. */
module SessionScenarios {
  import opened Bytes
  import opened Frames
  import opened SessionModel
  import SessionInvariants
  import SessionSafety
  import SessionRuns
  import SessionStream
  import SessionWire
  import ForwardClient

  function Last(tr: seq<State>): State
    requires tr != []
  {
    tr[|tr| - 1]
  }

  /** One more step of a run. */
  lemma Extended(tr: seq<State>, es: seq<Event>, e: Event) returns (tr': seq<State>, es': seq<Event>)
    requires Run(tr, es) && Enabled(Last(tr), e)
    ensures Run(tr', es') && Last(tr') == Step(Last(tr), e)
  {
    hide Enabled, Step;
    tr', es' := tr + [Step(Last(tr), e)], es + [e];
  }

  lemma ToArrival(tr: seq<State>, es: seq<Event>, fd: int, timeout: nat)
    returns (tr': seq<State>, es': seq<Event>)
    requires Run(tr, es) && fd >= 0 && fd !in Last(tr).accepted
    ensures Run(tr', es') && Last(tr') == Admit(Last(tr), fd, timeout)
  {
    hide Admit;
    tr', es' := Extended(tr, es, Accepted(fd, timeout));
  }

  /** Session i receives a LOGIN for token t and finds nobody else under it. */
  lemma ToLookup(tr: seq<State>, es: seq<Event>, i: nat, t: Token)
    returns (tr': seq<State>, es': seq<Event>)
    requires Run(tr, es) && t != ZERO_TOKEN && i < |Last(tr).ss| == |Last(tr).hs|
    requires Last(tr).order == [] && Last(tr).ss[i].pc.Receiving? && Last(tr).ss[i].ty.Null?
    requires Last(tr).hs[i].first.None?
    ensures Run(tr', es') && Last(tr').order == [] && Last(tr').claims == Last(tr).claims
    ensures Last(tr').ss == Last(tr).ss[i := Last(tr).ss[i].(token := t, pc := Writing(i, TokenFrame(t), 2, false, 0))]
    ensures Last(tr').hs == Last(tr).hs[i := Last(tr).hs[i].(first := Some(CMD_LOGIN))]
  {
    tr', es' := Extended(tr, es, Header(i, 2, CMD_LOGIN, ZERO_TOKEN, true, None));
    tr', es' := Extended(tr', es', Login(i, t, ZERO_TOKEN, true, None));
  }

  /** The state after a send of n bytes that the sender takes for a success. */
  function AfterSend(st: State, i: nat, n: nat): State
    requires i < |st.ss| == |st.hs| && st.ss[i].pc.Writing? && st.ss[i].pc.target < |st.ss|
    requires st.ss[i].pc.sent == 0 && n <= |Encode(st.ss[i].pc.frame)|
  {
    Continued(Released(SentMore(Locked(st, i), i, n), i), i, true)
  }

  lemma ToSent(tr: seq<State>, es: seq<Event>, i: nat, n: nat)
    returns (tr': seq<State>, es': seq<Event>)
    requires Run(tr, es) && i < |Last(tr).ss| == |Last(tr).hs|
    requires var pc := Last(tr).ss[i].pc;
             pc.Writing? && !pc.held && pc.sent == 0 && pc.target < |Last(tr).ss| && 0 < n <= |Encode(pc.frame)|
             && !Last(tr).ss[pc.target].pc.Dead? && Last(tr).ss[pc.target].wlock.None?
    ensures Run(tr', es') && Last(tr') == AfterSend(Last(tr), i, n)
  {
    hide Continued, Released;
    tr', es' := Extended(tr, es, Lock(i));
    tr', es' := Extended(tr', es', Send(i, n));
    tr', es' := Extended(tr', es', SendEnd(i, true));
  }

  /** When the lock has been released again: how far the send has got, and the logs. */
  lemma SentOut(st: State, i: nat, n: nat)
    requires i < |st.ss| == |st.hs| && st.ss[i].pc.Writing? && st.ss[i].pc.target < |st.ss|
    requires st.ss[i].pc.sent == 0 && 0 < n <= |Encode(st.ss[i].pc.frame)|
    requires st.ss[st.ss[i].pc.target].wlock.None?
    ensures var st', pc := Released(SentMore(Locked(st, i), i, n), i), st.ss[i].pc;
            && st'.ss == st.ss[i := st.ss[i].(pc := pc.(held := true, sent := n))] && st'.claims == st.claims
            && |st'.hs| == |st.hs|
            && (forall j :: 0 <= j < |st.hs| && j != i && j != pc.target ==> st'.hs[j] == st.hs[j])
            && st'.hs[pc.target].first == st.hs[pc.target].first
            && st'.hs[pc.target].sends == st.hs[pc.target].sends + [Sent(pc.frame, n)]
  {}

  lemma TokenSent(st: State, i: nat, t: Token)
    requires i < |st.ss| == |st.hs| && st.ss[i].pc == Writing(i, TokenFrame(t), 2, false, 0) && st.ss[i].wlock.None?
    ensures var st' := AfterSend(st, i, 18);
            && st'.ss == st.ss[i := st.ss[i].(isMgr := true, ty := Forward, isTemp := false, pc := Receiving)]
            && |st'.hs| == |st.hs| && (forall j :: 0 <= j < |st.hs| && j != i ==> st'.hs[j] == st.hs[j])
            && st'.hs[i].first == st.hs[i].first && st'.hs[i].sends == st.hs[i].sends + [Sent(TokenFrame(t), 18)]
            && st'.claims == st.claims
  {
    hide Locked, SentMore, Released;
    SentOut(st, i, 18);
  }

  lemma ConnectSent(st: State, i: nat, x: nat, t: Token, n: nat)
    requires i < |st.ss| == |st.hs| && x < |st.ss| && x != i && 0 < n <= 18
    requires st.ss[i].pc == Writing(x, ConnectFrame(t), 1, false, 0) && st.ss[x].wlock.None? && st.ss[i].timeout > 0
    ensures var st' := AfterSend(st, i, n);
            && st'.ss == st.ss[i := st.ss[i].(isMgr := true, ty := Connect, token := t,
                                              pc := AwaitAccept(st.ss[i].timeout))]
            && |st'.hs| == |st.hs| && (forall j :: 0 <= j < |st.hs| && j != i && j != x ==> st'.hs[j] == st.hs[j])
            && st'.hs[x].first == st.hs[x].first && st'.hs[x].sends == st.hs[x].sends + [Sent(ConnectFrame(t), n)]
            && st'.claims == st.claims
  {
    hide Locked, SentMore, Released;
    SentOut(st, i, n);
  }

  lemma InIndex(tr: seq<State>, es: seq<Event>, x: nat)
    requires Run(tr, es) && x < |Last(tr).ss| && Linked(Last(tr).ss[x])
    ensures x in Last(tr).order
  {
    hide Enabled, Step, SessionInvariants.Sane, SessionSafety.FdsOk, SessionSafety.ClaimsOk;
    SessionRuns.RunInv(tr, es, |tr| - 1);
  }

  /** Session i receives the header of a CONNECT or an ACCEPT. */
  lemma ToToken(tr: seq<State>, es: seq<Event>, i: nat, cmd: Byte)
    returns (tr': seq<State>, es': seq<Event>)
    requires Run(tr, es) && i < |Last(tr).ss| == |Last(tr).hs| && Last(tr).ss[i].pc.Receiving?
    requires cmd == CMD_ACCEPT || (cmd == CMD_CONNECT && Last(tr).ss[i].ty.Null?)
    ensures Run(tr', es')
    ensures Last(tr') == Suspend(Noted(Last(tr), i, cmd), i, if cmd == CMD_CONNECT then ConnectToken else AcceptToken)
  {
    tr', es' := Extended(tr, es, Header(i, 1, cmd, ZERO_TOKEN, true, None));
  }

  /** Session i connects to the forwarder x under its token t. */
  lemma ToConnect(tr: seq<State>, es: seq<Event>, i: nat, x: nat, t: Token)
    returns (tr': seq<State>, es': seq<Event>)
    requires Run(tr, es) && i < |Last(tr).ss| == |Last(tr).hs| && x < |Last(tr).ss| && i != x
    requires Last(tr).ss[i].pc.Receiving? && Last(tr).ss[i].ty.Null?
    requires SessionRuns.Forwards(Last(tr).ss[x], t) && !Last(tr).ss[x].isTemp
    ensures Run(tr', es') && Last(tr').claims == Last(tr).claims
    ensures Last(tr').ss == Last(tr).ss[i := Last(tr).ss[i].(pc := Writing(x, ConnectFrame(t), 1, false, 0))]
    ensures |Last(tr').hs| == |Last(tr).hs|
    ensures forall j :: 0 <= j < |Last(tr).hs| && j != i ==> Last(tr').hs[j] == Last(tr).hs[j]
  {
    tr', es' := ToToken(tr, es, i, CMD_CONNECT);
    InIndex(tr', es', x);
    tr', es' := Extended(tr', es', ConnectTo(i, t, ZERO_TOKEN, Some(x)));
  }

  /** Three connections: the first has logged in under t. */
  lemma ToForwarder(t: Token) returns (tr: seq<State>, es: seq<Event>)
    requires t != ZERO_TOKEN
    ensures Run(tr, es) && Last(tr).claims == [] && |Last(tr).ss| == |Last(tr).hs| == 3
    ensures var s := Last(tr).ss[0];
            SessionRuns.Forwards(s, t) && !s.isTemp && s.pc.Receiving? && s.wlock.None?
    ensures forall i :: 1 <= i < 3 ==>
              var s := Last(tr).ss[i];
              s.pc.Receiving? && s.ty.Null? && s.timeout == 1 && s.wlock.None? && s.clientFd == i && s.remoteFd == -1
    ensures Last(tr).hs[0].first == Some(CMD_LOGIN) && Last(tr).hs[0].sends == [Sent(TokenFrame(t), 18)]
  {
    hide AfterSend, Enabled, Step;
    tr, es := [Init()], [];
    tr, es := ToArrival(tr, es, 0, 1);
    tr, es := ToArrival(tr, es, 1, 1);
    tr, es := ToArrival(tr, es, 2, 1);
    tr, es := ToLookup(tr, es, 0, t);
    TokenSent(Last(tr), 0, t);
    tr, es := ToSent(tr, es, 0, 18);
  }

  // ------------------------------------------------------- two logins that overlap

  /** One FORWARD per token does not hold of every run: two logins that overlap
      between lookup and registration leave two of them in the index. */
  lemma OverlappingLoginsCollide(t: Token) returns (tr: seq<State>, es: seq<Event>)
    requires t != ZERO_TOKEN
    ensures Run(tr, es) && !SessionRuns.UniqueForwards(Last(tr))
  {
    hide AfterSend, Enabled, Step;
    tr, es := [Init()], [];
    tr, es := ToArrival(tr, es, 3, 0);
    tr, es := ToArrival(tr, es, 4, 0);
    tr, es := ToLookup(tr, es, 0, t);
    tr, es := ToLookup(tr, es, 1, t);
    TokenSent(Last(tr), 0, t);
    tr, es := ToSent(tr, es, 0, 18);
    TokenSent(Last(tr), 1, t);
    tr, es := ToSent(tr, es, 1, 18);
    assert SessionRuns.Forwards(Last(tr).ss[0], t) && SessionRuns.Forwards(Last(tr).ss[1], t);
  }

  // --------------------------------------------------------- a send that is cut short

  /** A connector in the index that waits for a peer. */
  predicate Waits(s: Session, t: Token) {
    Linked(s) && s.ty.Connect? && s.token == t && s.pc.AwaitAccept?
  }

  /** A CONNECT that went out whole is not always heard: one send on the same
      connection that ended after one byte, which its sender takes for a success,
      and the forwarder hears nothing any more. Both connectors go on to wait. */
  lemma StrayByteLosesConnect(t: Token) returns (tr: seq<State>, es: seq<Event>)
    requires t != ZERO_TOKEN
    ensures Run(tr, es) && |Last(tr).hs| > 0
    ensures Last(tr).hs[0].sends == [Sent(TokenFrame(t), 18), Sent(ConnectFrame(t), 1), Sent(ConnectFrame(t), 18)]
    ensures var heard := ForwardClient.TokenRead(Last(tr).hs[0].wire);
            heard.Some? && heard.value.0 == t && ForwardClient.Dispatched(heard.value.1) == []
    ensures forall i :: 1 <= i < 3 ==> i < |Last(tr).ss| && Waits(Last(tr).ss[i], t)
  {
    hide AfterSend, Enabled, Step;
    tr, es := ToForwarder(t);
    tr, es := ToConnect(tr, es, 1, 0, t);
    ConnectSent(Last(tr), 1, 0, t, 1);
    tr, es := ToSent(tr, es, 1, 1);
    tr, es := ToConnect(tr, es, 2, 0, t);
    ConnectSent(Last(tr), 2, 0, t, 18);
    tr, es := ToSent(tr, es, 2, 18);
    NothingHeard(tr, es, t);
  }

  lemma NothingHeard(tr: seq<State>, es: seq<Event>, t: Token)
    requires Run(tr, es) && |Last(tr).ss| > 0 && |Last(tr).hs| > 0
    requires Last(tr).hs[0].first == Some(CMD_LOGIN) && Last(tr).ss[0].wlock.None? && Last(tr).ss[0].token == t
    requires Last(tr).hs[0].sends == [Sent(TokenFrame(t), 18), Sent(ConnectFrame(t), 1), Sent(ConnectFrame(t), 18)]
    ensures var heard := ForwardClient.TokenRead(Last(tr).hs[0].wire);
            heard.Some? && heard.value.0 == t && ForwardClient.Dispatched(heard.value.1) == []
  {
    hide Enabled, Step, ForwardClient.Dispatched, ForwardClient.TokenRead;
    var ps := SessionWire.Pieces(Last(tr), 0);
    assert ps == Last(tr).hs[0].sends;
    assert Unbroken(ps) == [TokenFrame(t)];
    SessionStream.ForwarderHears(tr, es, |tr| - 1, 0);
  }

  // ---------------------------------------------------- a claim that comes too late

  /** A connector can be claimed when its wait has run out: it stays in the index
      while it splices without a peer, accept hands it a socket, and the splice
      goes on without it. */
  lemma LateClaimIsNotSpliced(t: Token) returns (tr: seq<State>, es: seq<Event>)
    requires t != ZERO_TOKEN
    ensures Run(tr, es) && |Last(tr).ss| == 3 && Last(tr).claims == [Claim(2, 1, t, 2, false)]
    ensures Last(tr).ss[1].pc == Splicing(-1) && Last(tr).ss[1].remoteFd == 2
  {
    hide AfterSend, Enabled, Step;
    tr, es := ToForwarder(t);
    tr, es := ToConnect(tr, es, 1, 0, t);
    ConnectSent(Last(tr), 1, 0, t, 18);
    tr, es := ToSent(tr, es, 1, 18);
    tr, es := ToClaim(tr, es, t);
  }

  lemma ToClaim(tr: seq<State>, es: seq<Event>, t: Token) returns (tr': seq<State>, es': seq<Event>)
    requires Run(tr, es) && |Last(tr).ss| == |Last(tr).hs| == 3 && Last(tr).claims == []
    requires Last(tr).ss[1].pc == AwaitAccept(1) && Last(tr).ss[1].ty.Connect? && Last(tr).ss[1].isMgr
    requires Last(tr).ss[1].token == t && Last(tr).ss[1].remoteFd == -1
    requires Last(tr).ss[2].pc.Receiving? && Last(tr).ss[2].timeout == 1 && Last(tr).ss[2].clientFd == 2
    ensures Run(tr', es') && |Last(tr').ss| == 3 && Last(tr').claims == [Claim(2, 1, t, 2, false)]
    ensures Last(tr').ss[1].pc == Splicing(-1) && Last(tr').ss[1].remoteFd == 2
  {
    hide AcceptTry, Enabled, Step;
    tr', es' := ToTimeout(tr, es, 1);
    tr', es' := ToToken(tr', es', 2, CMD_ACCEPT);
    LateClaim(Last(tr'), t);
    tr', es' := ToAccept(tr', es', 2, 1, t);
  }

  lemma ToTimeout(tr: seq<State>, es: seq<Event>, i: nat) returns (tr': seq<State>, es': seq<Event>)
    requires Run(tr, es) && i < |Last(tr).ss| == |Last(tr).hs|
    requires Last(tr).ss[i].pc.AwaitAccept? && Last(tr).ss[i].remoteFd == -1
    ensures Run(tr', es') && Last(tr') == Suspend(Last(tr), i, Splicing(-1))
  {
    hide AcceptTry;
    tr', es' := Extended(tr, es, Slept(i, 0, None));
  }

  lemma ToAccept(tr: seq<State>, es: seq<Event>, i: nat, x: nat, t: Token)
    returns (tr': seq<State>, es': seq<Event>)
    requires Run(tr, es) && i < |Last(tr).ss| == |Last(tr).hs| && x < |Last(tr).ss|
    requires Last(tr).ss[i].pc.AcceptToken? && Last(tr).ss[i].timeout > 0
    requires Linked(Last(tr).ss[x]) && KeyOf(Last(tr).ss[x]) == Key(Connect, t)
    ensures Run(tr', es') && Last(tr') == AcceptTry(Last(tr), i, t, Last(tr).ss[i].timeout, Some(x))
  {
    hide AcceptTry;
    InIndex(tr, es, x);
    tr', es' := Extended(tr, es, AcceptOf(i, t, Some(x)));
  }

  lemma LateClaim(st: State, t: Token)
    requires |st.ss| == 3 && st.claims == [] && st.ss[1].pc == Splicing(-1) && st.ss[2].clientFd == 2
    ensures var st' := AcceptTry(st, 2, t, 1, Some(1));
            && |st'.ss| == 3 && st'.claims == [Claim(2, 1, t, 2, false)]
            && st'.ss[1].pc == Splicing(-1) && st'.ss[1].remoteFd == 2
  {}
}
