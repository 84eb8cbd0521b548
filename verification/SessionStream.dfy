/** From the rendezvous server to the forwarder: what a forwarder makes of the
    bytes it is sent, in every run. */
module SessionStream {
  import opened Bytes
  import opened Frames
  import opened SessionModel
  import SessionInvariants
  import SessionSafety
  import opened SessionSteps
  import opened SessionWire
  import opened ForwardClient

  /** Who may be sending on t, a connection that has been told to log in: t itself
      its TOKEN, or a KEEP_ALIVE or a connector once t has logged in. */
  lemma FlightFrame(st: State, t: nat)
    requires SessionInvariants.Sane(st) && WritersOk(st.ss)
    requires t < |st.ss| && LogOk(st, t) && st.hs[t].first == Some(CMD_LOGIN)
    ensures var f := Flight(st.ss, t);
            f != [] ==>
              if LoggedIn(st.ss[t]) then !f[0].frame.TokenFrame?
              else f[0].frame == TokenFrame(st.ss[t].token) && !st.ss[t].pc.Dead?
  {
    if st.ss[t].wlock.Some? {
      var w := st.ss[t].wlock.value;
      assert SessionInvariants.HoldsLock(st.ss[w], t) && SessionInvariants.PcOk(st.ss[w], w);
      assert WriterOk(st.ss, st.ss[w].pc);
    }
  }

  /** On a connection whose first command was LOGIN the first thing sent is the
      TOKEN, and no other follows. */
  lemma TokenFirst(st: State, t: nat)
    requires SessionInvariants.Sane(st) && WritersOk(st.ss)
    requires t < |st.ss| && LogOk(st, t) && st.hs[t].first == Some(CMD_LOGIN)
    ensures var ps := Pieces(st, t);
            && (ps != [] ==> ps[0].frame.TokenFrame?)
            && (|ps| > 1 ==> ps[0].frame == TokenFrame(st.ss[t].token))
            && (ps != [] && Whole(ps[0]) ==> ps[0].frame == TokenFrame(st.ss[t].token))
            && forall k :: 0 < k < |ps| ==> !ps[k].frame.TokenFrame?
  {
    FlightFrame(st, t);
    var s, h := st.ss[t], st.hs[t];
    if LoggedIn(s) {
      var k :| GreetedAt(h.sends, s.token, k);
      assert k == 0;
    }
  }

  /** What the forwarder makes of the bytes sent on a connection: nothing, or the
      TOKEN that it is registered under and then the CONNECTs up to the first send
      that was cut short, and exactly those if nothing follows the cut, or if it
      left a single byte. */
  ghost predicate HeardRight(st: State, t: nat)
    requires t < |st.ss| && t < |st.hs|
  {
    var ps := Pieces(st, t);
    var fs, heard := Unbroken(ps), TokenRead(st.hs[t].wire);
    if fs == [] then |ps| <= 1 ==> heard == None
    else
      && fs[0] == TokenFrame(st.ss[t].token) && heard.Some? && heard.value.0 == st.ss[t].token
      && ConnectTokens(fs[1..]) <= Dispatched(heard.value.1)
      && (|fs| >= |ps| - 1 || ps[|fs|].count == 1 ==> Dispatched(heard.value.1) == ConnectTokens(fs[1..]))
  }

  /** The end-to-end statement. In every run and at every point of it, on every
      connection whose first command was LOGIN, whatever sends were cut short:
      if its TOKEN is out, the forwarder reads exactly the token it is registered
      under, and dispatching the rest accepts the tokens of the CONNECTs that went
      out before the first cut, in the order in which the server sent them; no
      others, if no send was cut short but the last, or if the first cut left one
      byte. Before that it reads no token. Interleaved connects, keep-alives and
      the login itself share the connection only through its write lock. */
  lemma ForwarderHears(tr: seq<State>, es: seq<Event>, n: nat, t: nat)
    requires Run(tr, es) && n < |tr| && t < |tr[n].ss| && t < |tr[n].hs|
    requires tr[n].hs[t].first == Some(CMD_LOGIN)
    ensures HeardRight(tr[n], t)
  {
    hide Enabled, Step, HeardRight;
    WireOfRuns(tr, es, n);
    Hears(tr[n], t);
  }

  lemma Hears(st: State, t: nat)
    requires WireInv(st) && t < |st.ss| && st.hs[t].first == Some(CMD_LOGIN)
    ensures HeardRight(st, t)
  {
    hide WritersOk, LogOk, Dispatched, TokenRead, OnWire, SessionSafety.Safe;
    var ps := Pieces(st, t);
    TokenFirst(st, t);
    assert WireOk(st, t);
    if Unbroken(ps) == [] {
      if |ps| <= 1 {
        NoTokenYet(ps);
      }
    } else {
      UnbrokenAt(ps, 0);
      StreamHeard(ps);
    }
  }

  lemma NoTokenYet(ps: seq<Sent>)
    requires |ps| <= 1 && Unbroken(ps) == [] && (ps != [] ==> ps[0].frame.TokenFrame?)
    ensures TokenRead(OnWire(ps)) == None
  {
    if ps != [] {
      UnbrokenAt(ps, 0);
      assert ps == [ps[0]];
      assert OnWire(ps) == Piece(ps[0]) + [];
    }
  }

  /** Behind a first cut of one byte, and so behind every KEEP_ALIVE that was cut
      short, all CONNECTs that went out whole are heard if and only if none went
      out whole behind the cut. */
  lemma AllHeardIffNoneBehind(tr: seq<State>, es: seq<Event>, n: nat, t: nat)
    requires Run(tr, es) && n < |tr| && t < |tr[n].ss| && t < |tr[n].hs|
    requires tr[n].hs[t].first == Some(CMD_LOGIN)
    requires var ps := Pieces(tr[n], t);
             var k := |Unbroken(ps)|;
             0 < k < |ps| && (ps[k].count == 1 || ps[k].frame.KeepAliveFrame?)
    ensures var ps, heard := Pieces(tr[n], t), TokenRead(tr[n].hs[t].wire);
            var k := |Unbroken(ps)|;
            && heard.Some?
            && (Dispatched(heard.value.1) == ConnectTokens(Wholes(ps))
                <==> forall f :: f in Wholes(ps[k..]) ==> !f.ConnectFrame?)
  {
    hide Enabled, Step, Dispatched, TokenRead, OnWire, Wholes;
    var st := tr[n];
    var ps := Pieces(st, t);
    WireOfRuns(tr, es, n);
    Hears(st, t);
    CutKeepAlive(st, t);
    WholesHeard(ps);
  }

  lemma CutKeepAlive(st: State, t: nat)
    requires WireInv(st) && t < |st.ss| && t < |st.hs|
    ensures var ps := Pieces(st, t);
            var k := |Unbroken(ps)|;
            k < |ps| && ps[k].frame.KeepAliveFrame? ==> ps[k].count == 1
  {
    hide Inv, WritersOk, LogsOk, Unbroken;
    var ps := Pieces(st, t);
    assert WireOk(st, t);
    if |Unbroken(ps)| < |ps| {
      UnbrokenAt(ps, |Unbroken(ps)|);
      assert Counted(ps[|Unbroken(ps)|]);
    }
  }

  /** The CONNECTs before the first cut are all that went out whole exactly if none
      did behind it. */
  lemma WholesHeard(ps: seq<Sent>)
    requires Unbroken(ps) != [] && Unbroken(ps)[0].TokenFrame?
    ensures var fs := Unbroken(ps);
            ConnectTokens(fs[1..]) == ConnectTokens(Wholes(ps))
            <==> forall f :: f in Wholes(ps[|fs|..]) ==> !f.ConnectFrame?
  {
    var fs := Unbroken(ps);
    var behind := Wholes(ps[|fs|..]);
    WholesSplit(ps);
    ConnectTokensConcat(fs, behind);
    NoConnectTokens(behind);
    assert ConnectTokens(fs) == [] + ConnectTokens(fs[1..]);
    assert |ConnectTokens(fs) + ConnectTokens(behind)| == |ConnectTokens(fs)| + |ConnectTokens(behind)|;
    assert ConnectTokens(fs) + [] == ConnectTokens(fs);
  }

  // ------------------------------------------------ one message for each connector

  predicate ViaInLog(hs: seq<History>, via: Via) {
    via.target < |hs| && via.k < |hs[via.target].sends|
  }

  /** Every connector's message is in a log, and no two have the same. */
  ghost predicate ViasOk(hs: seq<History>) {
    && (forall j :: 0 <= j < |hs| && hs[j].via.Some? ==> ViaInLog(hs, hs[j].via.value))
    && (forall i, j :: 0 <= i < j < |hs| && hs[i].via.Some? ==> hs[i].via != hs[j].via)
  }

  predicate SameVia(h: History, h': History) {
    h'.via == h.via && h.sends <= h'.sends
  }

  lemma SameVias(hs: seq<History>, hs': seq<History>)
    requires ViasOk(hs) && |hs| <= |hs'| && forall j :: 0 <= j < |hs| ==> SameVia(hs[j], hs'[j])
    requires forall j :: |hs| <= j < |hs'| ==> hs'[j].via.None?
    ensures ViasOk(hs')
  {
    forall j | 0 <= j < |hs'| && hs'[j].via.Some? ensures ViaInLog(hs', hs'[j].via.value) {
      assert SameVia(hs[j], hs'[j]);
      var via := hs[j].via.value;
      assert ViaInLog(hs, via) && SameVia(hs[via.target], hs'[via.target]);
    }
    forall i, j | 0 <= i < j < |hs'| && hs'[i].via.Some? ensures hs'[i].via != hs'[j].via {
      assert SameVia(hs[i], hs'[i]);
      assert j < |hs| ==> SameVia(hs[j], hs'[j]);
    }
  }

  lemma RecordedVias(hs: seq<History>, i: nat, pc: Pc)
    requires ViasOk(hs) && i < |hs| && pc.Writing? && pc.target < |hs|
    ensures ViasOk(Recorded(hs, i, pc))
  {
    hide Recorded;
    var hs' := Recorded(hs, i, pc);
    RecordedSends(hs, i, pc, i);
    forall j | 0 <= j < |hs'| && hs'[j].via.Some? ensures ViaInLog(hs', hs'[j].via.value) {
      RecordedSends(hs, i, pc, j);
      RecordedSends(hs, i, pc, hs'[j].via.value.target);
    }
    forall a, b | 0 <= a < b < |hs'| && hs'[a].via.Some? ensures hs'[a].via != hs'[b].via {
      RecordedSends(hs, i, pc, a);
      RecordedSends(hs, i, pc, b);
      assert hs[a].via.Some? ==> ViaInLog(hs, hs[a].via.value);
      assert hs[b].via.Some? ==> ViaInLog(hs, hs[b].via.value);
    }
  }

  lemma StepVias(st: State, e: Event)
    requires Inv(st) && Enabled(st, e) && ViasOk(st.hs)
    ensures ViasOk(Step(st, e).hs)
  {
    hide SessionSafety.Safe, Continued, Recorded, ViasOk;
    if e.SendEnd? {
      EndedLogs(st, e.i, e.ok);
      RecordedVias(st.hs, e.i, st.ss[e.i].pc);
    } else {
      forall j | 0 <= j < |st.hs| ensures j < |Step(st, e).hs| && SameVia(st.hs[j], Step(st, e).hs[j]) {
        ViaStep(st, e, j);
      }
      NewVias(st, e);
      SameVias(st.hs, Step(st, e).hs);
    }
  }

  lemma ViaStep(st: State, e: Event, j: nat)
    requires Inv(st) && Enabled(st, e) && !e.SendEnd? && j < |st.hs|
    ensures j < |Step(st, e).hs| && SameVia(st.hs[j], Step(st, e).hs[j])
  {
    hide SessionSafety.Safe;
    if SessionInvariants.WritesNothing(e) {
      SilentLogs(st, e, j);
    }
  }

  lemma NewVias(st: State, e: Event)
    requires Inv(st) && Enabled(st, e) && !e.SendEnd?
    ensures |st.hs| <= |Step(st, e).hs|
    ensures forall j :: |st.hs| <= j < |Step(st, e).hs| ==> Step(st, e).hs[j].via.None?
  {
    hide SessionSafety.Safe, SessionInvariants.Heard;
    if SessionInvariants.WritesNothing(e) {
      SilentLogs(st, e, e.i);
      HeardLogs(st, e, e.i);
    }
  }

  lemma {:induction false} ViasOfRuns(tr: seq<State>, es: seq<Event>, n: nat)
    requires Run(tr, es) && n < |tr|
    ensures Inv(tr[n]) && ViasOk(tr[n].hs)
  {
    hide Enabled, Step, Inv;
    if n == 0 {
      InitInv();
    } else {
      ViasOfRuns(tr, es, n - 1);
      StepInv(tr[n - 1], es[n - 1]);
      StepVias(tr[n - 1], es[n - 1]);
    }
  }

  /** Every claim was announced, by a message of its own: a CONNECT with the token of
      the claim, which is the one the acceptor presented, was sent to a logged-in
      forwarder, or at least its first bytes were; and the token is that forwarder's
      own, unless the forwarder has logged in with a temporary one. */
  lemma ClaimsWereAnnounced(tr: seq<State>, es: seq<Event>, n: nat, p: nat)
    requires Run(tr, es) && n < |tr| && p < |tr[n].claims|
    ensures |tr[n].hs| == |tr[n].ss| && tr[n].claims[p].connector < |tr[n].ss|
    ensures var c := tr[n].claims[p];
            var via := tr[n].hs[c.connector].via;
            && via.Some? && Told(tr[n], via.value, c.token)
            && tr[n].hs[via.value.target].sends[via.value.k].count > 0
    ensures forall q :: 0 <= q < |tr[n].claims| && q != p ==> OwnVia(tr[n], tr[n].claims[p], tr[n].claims[q])
  {
    hide Enabled, Step, BytesOk, WritersOk, Told, OwnVia, ViasOk;
    WireOfRuns(tr, es, n);
    var st, c := tr[n], tr[n].claims[p];
    assert SessionSafety.ClaimOk(st, c) && LogOk(st, c.connector);
    ToldCounts(st, st.hs[c.connector].via.value, c.token);
    ViasOfRuns(tr, es, n);
    forall q | 0 <= q < |st.claims| && q != p ensures OwnVia(st, c, st.claims[q]) {
      assert SessionSafety.ClaimOk(st, st.claims[q]);
      assert if p < q then SessionSafety.Distinct(c, st.claims[q]) else SessionSafety.Distinct(st.claims[q], c);
      ViasDiffer(st, c, st.claims[q]);
    }
  }

  /** The connectors of two claims were announced by different messages. */
  predicate OwnVia(st: State, c: Claim, d: Claim) {
    c.connector < |st.hs| && d.connector < |st.hs| && st.hs[c.connector].via != st.hs[d.connector].via
  }

  lemma ViasDiffer(st: State, c: Claim, d: Claim)
    requires ViasOk(st.hs) && c.connector < |st.hs| && d.connector < |st.hs| && c.connector != d.connector
    requires st.hs[c.connector].via.Some?
    ensures OwnVia(st, c, d)
  {}

  lemma ToldCounts(st: State, via: Via, token: Token)
    requires WireInv(st) && Told(st, via, token)
    ensures via.target < |st.hs| && via.k < |st.hs[via.target].sends| && st.hs[via.target].sends[via.k].count > 0
  {
    hide Inv, WritersOk, LogsOk;
    assert WireOk(st, via.target);
    assert Pieces(st, via.target)[via.k] == st.hs[via.target].sends[via.k];
    assert Counted(Pieces(st, via.target)[via.k]);
  }

  // ------------------------------------------------------------ claims that are heard

  /** From a connector to its forwarder: if the forwarder's connection began with
      LOGIN, and the message about a claimed connector went out before the first
      cut on it, then the forwarder dispatches the token of the claim. */
  lemma ClaimsAreHeard(tr: seq<State>, es: seq<Event>, n: nat, p: nat, via: Via)
    requires Run(tr, es) && n < |tr| && p < |tr[n].claims|
    requires tr[n].claims[p].connector < |tr[n].hs| && tr[n].hs[tr[n].claims[p].connector].via == Some(via)
    requires via.target < |tr[n].hs| && tr[n].hs[via.target].first == Some(CMD_LOGIN)
    requires via.k < |Unbroken(Pieces(tr[n], via.target))|
    ensures var heard := TokenRead(tr[n].hs[via.target].wire);
            heard.Some? && tr[n].claims[p].token in Dispatched(heard.value.1)
  {
    hide Enabled, Step, Dispatched, TokenRead, Pieces, HeardRight;
    WireOfRuns(tr, es, n);
    ClaimsWereAnnounced(tr, es, n, p);
    ForwarderHears(tr, es, n, via.target);
    ToldIsHeard(tr[n], via, tr[n].claims[p].token);
  }

  lemma ToldIsHeard(st: State, via: Via, token: Token)
    requires Told(st, via, token) && HeardRight(st, via.target) && via.k < |Unbroken(Pieces(st, via.target))|
    ensures var heard := TokenRead(st.hs[via.target].wire);
            heard.Some? && token in Dispatched(heard.value.1)
  {
    hide Dispatched, TokenRead;
    var ps := Pieces(st, via.target);
    var fs, heard := Unbroken(ps), TokenRead(st.hs[via.target].wire);
    UnbrokenAt(ps, via.k);
    assert ps[via.k] == st.hs[via.target].sends[via.k];
    ConnectTokenOf(fs[1..], via.k - 1);
    var i :| 0 <= i < |ConnectTokens(fs[1..])| && ConnectTokens(fs[1..])[i] == token;
    assert Dispatched(heard.value.1)[i] == token;
  }
}
