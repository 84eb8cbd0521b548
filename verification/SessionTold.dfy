/** The tokens in the messages about connectors, over whole runs: a forwarder's own,
    or one generated for each connector if the forwarder's is temporary. */
module SessionTold {
  import opened Bytes
  import opened Frames
  import opened SessionModel
  import opened SessionInvariants
  import opened SessionSteps
  import opened SessionTasks
  import opened SessionLives
  import opened SessionNames
  import SessionRuns
  import SessionSafety
  import opened SessionWire

  predicate SendsConnect(pc: Pc) {
    pc.Writing? && pc.frame.ConnectFrame?
  }

  /** In step k connector w was found a forwarder x under the token it gave, and a
      token to go by: the same, or a generated one if x has a temporary token. */
  predicate AskedAt(tr: seq<State>, es: seq<Event>, k: int, w: nat, x: nat, token: Token) {
    && 0 <= k < |tr| && TakenBy(es, w, k) && es[k].ConnectTo? && es[k].found == Some(x)
    && x < |tr[k].ss| && Registered(tr[k].ss[x], Forward, es[k].mt)
    && (tr[k].ss[x].isTemp ==> token == es[k].gen) && (!tr[k].ss[x].isTemp ==> token == es[k].mt)
  }

  /** A task that starts to send a CONNECT has just asked for one. */
  lemma ConnectStarts(st: State, e: Event, w: nat)
    requires Inv(st) && Enabled(st, e) && w < |st.ss|
    ensures w < |Step(st, e).ss|
    ensures var pc, pc' := st.ss[w].pc, Step(st, e).ss[w].pc;
            SendsConnect(pc') ==>
              (SendsConnect(pc) && pc'.frame == pc.frame && pc'.target == pc.target)
              || (e.ConnectTo? && e.i == w && e.found == Some(pc'.target) && pc'.target < |st.ss|
                  && Registered(st.ss[pc'.target], Forward, e.mt)
                  && (st.ss[pc'.target].isTemp ==> pc'.frame.token == e.gen)
                  && (!st.ss[pc'.target].isTemp ==> pc'.frame.token == e.mt))
  {
    hide Inv, Step, Enabled, NoneRegistered;
    if e.Accepted? || e.i != w {
      OthersWait(st, e, w);
    } else if e.ConnectTo? {
      ConnectMeans(st, e);
    } else if e.Lock? || e.Send? || e.SendEnd? {
      SenderFrame(st, e);
    } else {
      OtherConnects(st, e);
    }
  }

  lemma SenderFrame(st: State, e: Event)
    requires Inv(st) && Enabled(st, e) && (e.Lock? || e.Send? || e.SendEnd?)
    ensures e.i < |st.ss| && e.i < |Step(st, e).ss|
    ensures var pc, pc' := st.ss[e.i].pc, Step(st, e).ss[e.i].pc;
            SendsConnect(pc') ==> SendsConnect(pc) && pc'.frame == pc.frame && pc'.target == pc.target
  {
    hide SessionSafety.Safe, Continued, Released;
    if e.SendEnd? {
      EndedTasks(st, e.i, e.ok, e.i);
    }
  }

  lemma OtherConnects(st: State, e: Event)
    requires Inv(st) && Enabled(st, e) && WritesNothing(e) && !e.ConnectTo?
    ensures e.i < |Step(st, e).ss| && !SendsConnect(Step(st, e).ss[e.i].pc)
  {
    hide Inv, Step;
    match e
    case Header(_, _, _, _, _, _) => CommandMeans(st, e);
    case Login(_, _, _, _, _) =>
      LoginMeans(st, e);
      assert (forall k :: 0 <= k < 16 ==> e.mt[k] == 0) || exists k :: 0 <= k < 16 && e.mt[k] != 0;
    case _ => WaiterTask(st, e);
  }

  lemma {:induction false} Asker(tr: seq<State>, es: seq<Event>, n: nat, w: nat) returns (k: nat)
    requires Run(tr, es) && n < |tr| && w < |tr[n].ss| && SendsConnect(tr[n].ss[w].pc)
    ensures k < n && AskedAt(tr, es, k, w, tr[n].ss[w].pc.target, tr[n].ss[w].pc.frame.token)
  {
    hide Enabled, Step, Inv;
    SessionRuns.RunInv(tr, es, n - 1);
    if w >= |tr[n - 1].ss| {
      Newcomers(tr[n - 1], es[n - 1], w);
      assert false;
    } else {
      ConnectStarts(tr[n - 1], es[n - 1], w);
      if SendsConnect(tr[n - 1].ss[w].pc) && tr[n].ss[w].pc.frame == tr[n - 1].ss[w].pc.frame
         && tr[n].ss[w].pc.target == tr[n - 1].ss[w].pc.target {
        k := Asker(tr, es, n - 1, w);
      } else {
        k := n - 1;
      }
    }
  }

  // ------------------------------------------------------ who announced whom, where

  /** A session without a type has not announced itself. */
  predicate ViaNone(s: Session, h: History) {
    s.ty.Null? && !s.pc.Dead? ==> h.via.None?
  }

  lemma StepViaNone(st: State, e: Event, j: nat)
    requires Inv(st) && Enabled(st, e) && j < |st.ss| == |st.hs| && ViaNone(st.ss[j], st.hs[j])
    ensures j < |Step(st, e).ss| && j < |Step(st, e).hs| && ViaNone(Step(st, e).ss[j], Step(st, e).hs[j])
  {
    hide Inv, Step, Enabled;
    StepMoves(st, e, j);
    if st.ss[j].pc.Dead? {
      DeadStays(st, e, j);
      StepGrows(st, e);
    }
    if WritesNothing(e) {
      SilentLogs(st, e, j);
    } else {
      WriterVia(st, e, j);
    }
  }

  /** A step changes the note about j's message only if it ends the sending of it,
      and then j has become a connector, or has ended. */
  lemma WriterVia(st: State, e: Event, j: nat)
    requires Inv(st) && Enabled(st, e) && !WritesNothing(e) && j < |st.ss| == |st.hs|
    ensures j < |Step(st, e).ss| && j < |Step(st, e).hs|
    ensures var h, h' := st.hs[j], Step(st, e).hs[j];
            if e.SendEnd? && e.i == j && SendsConnect(st.ss[j].pc) && st.ss[j].pc.sent > 0
            then h'.via == Some(Via(st.ss[j].pc.target, |st.hs[st.ss[j].pc.target].sends|))
                 && (Step(st, e).ss[j].ty.Connect? || Step(st, e).ss[j].pc.Dead?)
            else h'.via == h.via
  {
    hide Inv, Step, Continued, Released, Locked, SentMore;
    match e
    case Accepted(_, _) => AdmittedLog(st, e, j);
    case Lock(i) => SenderVia(st, e, j);
    case Send(i, n) => SenderVia(st, e, j);
    case SendEnd(i, ok) => EndedVia(st, e, j);
  }

  lemma AdmittedLog(st: State, e: Event, j: nat)
    requires Enabled(st, e) && e.Accepted? && j < |st.ss| && j < |st.hs|
    ensures j < |Step(st, e).ss| && j < |Step(st, e).hs| && Step(st, e).hs[j] == st.hs[j]
  {}

  lemma SenderVia(st: State, e: Event, j: nat)
    requires Enabled(st, e) && (e.Lock? || e.Send?) && j < |st.ss| && j < |st.hs|
    ensures j < |Step(st, e).ss| && j < |Step(st, e).hs|
    ensures Step(st, e).hs[j].via == st.hs[j].via && Step(st, e).hs[j].sends == st.hs[j].sends
  {
    hide Locked, SentMore;
    match e
    case Lock(i) => LockedRole(st, i, j);
    case Send(i, n) => SentRole(st, i, n, j);
  }

  lemma EndedVia(st: State, e: Event, j: nat)
    requires Inv(st) && Enabled(st, e) && e.SendEnd? && j < |st.ss| == |st.hs|
    ensures j < |Step(st, e).ss| && j < |Step(st, e).hs| && e.i < |st.ss| && st.ss[e.i].pc.target < |st.hs|
    ensures var pc, h, h' := st.ss[e.i].pc, st.hs[j], Step(st, e).hs[j];
            && h'.via == (if j == e.i && pc.sent > 0 && pc.frame.ConnectFrame?
                          then Some(Via(pc.target, |st.hs[pc.target].sends|)) else h.via)
            && h'.sends == h.sends + (if j == pc.target && pc.sent > 0 then [Sent(pc.frame, pc.sent)] else [])
            && (j == e.i && pc.frame.ConnectFrame? ==> Step(st, e).ss[j].ty.Connect? || Step(st, e).ss[j].pc.Dead?)
  {
    hide Continued, Released, Recorded, SessionSafety.Safe;
    EndedLogs(st, e.i, e.ok);
    RecordedSends(st.hs, e.i, st.ss[e.i].pc, j);
    EndedRoles(st, e.i, e.ok, j);
  }

  lemma {:induction false} ViaNoneInRuns(tr: seq<State>, es: seq<Event>, n: nat, j: nat)
    requires Run(tr, es) && n < |tr| && j < |tr[n].ss|
    ensures |tr[n].hs| == |tr[n].ss| && ViaNone(tr[n].ss[j], tr[n].hs[j])
  {
    hide Enabled, Step, Inv;
    SessionRuns.RunInv(tr, es, n);
    OneLogEach(tr[n]);
    if n > 0 {
      SessionRuns.RunInv(tr, es, n - 1);
      OneLogEach(tr[n - 1]);
      if j >= |tr[n - 1].ss| {
        Newcomers(tr[n - 1], es[n - 1], j);
        NewLog(tr[n - 1], es[n - 1]);
      } else {
        ViaNoneInRuns(tr, es, n - 1, j);
        StepViaNone(tr[n - 1], es[n - 1], j);
      }
    }
  }

  lemma OneLogEach(st: State)
    requires Inv(st)
    ensures |st.hs| == |st.ss|
  {}

  lemma NewLog(st: State, e: Event)
    requires Enabled(st, e) && e.Accepted? && |st.hs| == |st.ss|
    ensures |Step(st, e).hs| == |Step(st, e).ss| == |st.hs| + 1
    ensures Step(st, e).hs[|st.hs|] == History(None, [], [], None)
  {}

  predicate ConnectAt(st: State, t: nat, m: nat) {
    t < |st.hs| && m < |st.hs[t].sends| && st.hs[t].sends[m].frame.ConnectFrame?
  }

  /** Send m on connection t is new, or was there before. */
  lemma StepSends(st: State, e: Event, t: nat, m: nat)
    requires Inv(st) && Enabled(st, e) && t < |st.hs| == |st.ss| && ConnectAt(Step(st, e), t, m)
    ensures if m < |st.hs[t].sends| then Step(st, e).hs[t].sends[m] == st.hs[t].sends[m]
            else
              && e.SendEnd? && e.i < |st.ss| && m == |st.hs[t].sends|
              && st.ss[e.i].pc.Writing? && st.ss[e.i].pc.target == t && st.ss[e.i].pc.sent > 0
              && st.ss[e.i].pc.frame == Step(st, e).hs[t].sends[m].frame
  {
    hide Inv, Step, Continued, Released, Locked, SentMore;
    if WritesNothing(e) {
      SilentLogs(st, e, t);
    } else if e.Accepted? {
      AdmittedLog(st, e, t);
    } else if e.SendEnd? {
      EndedVia(st, e, t);
    } else {
      SenderVia(st, e, t);
    }
  }

  /** Every CONNECT that went out, or of which something did, was sent by a connector
      that had asked for the forwarder it went to. */
  lemma {:induction false} Announcer(tr: seq<State>, es: seq<Event>, n: nat, t: nat, m: nat)
    returns (w: nat, k: nat)
    requires Run(tr, es) && n < |tr| && ConnectAt(tr[n], t, m)
    ensures w < |tr[n].hs| && tr[n].hs[w].via == Some(Via(t, m))
    ensures k < n && AskedAt(tr, es, k, w, t, tr[n].hs[t].sends[m].frame.token)
  {
    hide Enabled, Step, Inv, AskedAt;
    SessionRuns.RunInv(tr, es, n - 1);
    var st, e := tr[n - 1], es[n - 1];
    OneLogEach(st);
    if t >= |st.hs| {
      SessionRuns.RunInv(tr, es, n);
      OneLogEach(tr[n]);
      Newcomers(st, e, t);
      NewLog(st, e);
      assert false;
    } else {
      StepSends(st, e, t, m);
      if m < |st.hs[t].sends| {
        w, k := Announcer(tr, es, n - 1, t, m);
        AnnouncerStays(tr, es, n - 1, w);
      } else {
        w := e.i;
        k := Asker(tr, es, n - 1, w);
        WriterVia(st, e, w);
      }
    }
  }

  lemma AnnouncerStays(tr: seq<State>, es: seq<Event>, n: nat, w: nat)
    requires Run(tr, es) && n < |es| && Inv(tr[n]) && w < |tr[n].hs| == |tr[n].ss| && tr[n].hs[w].via.Some?
    ensures w < |tr[n + 1].hs| && tr[n + 1].hs[w].via == tr[n].hs[w].via
  {
    hide Enabled, Step, Inv;
    if WritesNothing(es[n]) {
      SilentLogs(tr[n], es[n], w);
    } else {
      ViaNoneInRuns(tr, es, n, w);
      if SendsConnect(tr[n].ss[w].pc) {
        ConnectorUntyped(tr[n], w);
      }
      WriterVia(tr[n], es[n], w);
    }
  }

  lemma ConnectorUntyped(st: State, w: nat)
    requires Inv(st) && w < |st.ss| && SendsConnect(st.ss[w].pc)
    ensures st.ss[w].ty.Null?
  {
    assert PcOk(st.ss[w], w);
  }

  // ----------------------------------------------------------------- fresh tokens

  /** The token that is generated in a step, if one is: for a LOGIN of version 1 or
      of a token of zeros, and for a connector to a temporary forwarder. */
  ghost function Draws(st: State, e: Event): Option<Token> {
    match e
    case Header(i, ver, cmd, gen, _, _) =>
      if i < |st.ss| && st.ss[i].ty.Null? && cmd == 0 && ver == 1 then Some(gen) else None
    case Login(_, mt, gen, _, _) => if exists k :: 0 <= k < 16 && mt[k] != 0 then None else Some(gen)
    case ConnectTo(_, _, gen, found) =>
      if found.Some? && found.value < |st.ss| && st.ss[found.value].isTemp then Some(gen) else None
    case _ => None
  }

  /** The token generated in step l, if any, has not come up in step k before: it
      was neither generated then nor presented in a login. */
  ghost predicate NewToken(tr: seq<State>, es: seq<Event>, k: int, l: int)
    requires 0 <= k < |es| && 0 <= l < |es| && |tr| == |es| + 1
  {
    Draws(tr[l], es[l]).Some? ==>
      Draws(tr[k], es[k]) != Draws(tr[l], es[l]) && (es[k].Login? ==> es[k].mt != Draws(tr[l], es[l]).value)
  }

  /** The generator never repeats a token and never hits one that a peer has chosen. */
  ghost predicate FreshTokens(tr: seq<State>, es: seq<Event>)
    requires |tr| == |es| + 1
  {
    forall k, l :: 0 <= k < l < |es| ==> NewToken(tr, es, k, l)
  }

  lemma FirstOnce(es: seq<Event>, j: nat, k: nat, l: nat)
    requires FirstLogin(es, j, k) && FirstLogin(es, j, l)
    ensures k == l
  {
    assert !(k < l) && !(l < k);
  }

  /** What was known of the forwarder when a connector asked for it is still so. */
  lemma ForwarderStays(tr: seq<State>, es: seq<Event>, k: nat, n: nat, t: nat)
    requires Run(tr, es) && k <= n < |tr| && t < |tr[k].ss| && tr[k].ss[t].ty.Forward?
    ensures t < |tr[n].ss| && tr[n].ss[t].token == tr[k].ss[t].token && tr[n].ss[t].isTemp == tr[k].ss[t].isTemp
    ensures LoggedIn(tr[n].ss[t])
  {
    hide Enabled, Step;
    SessionRuns.EvolvesOverRuns(tr, es, k, n, t);
  }

  /** The forwarder's own token and the one of a connector, in a run in which it is
      temporary: the former came up in an earlier step. */
  lemma OwnDiffers(tr: seq<State>, es: seq<Event>, k: nat, w: nat, t: nat, token: Token)
    requires Run(tr, es) && FreshTokens(tr, es) && AskedAt(tr, es, k, w, t, token) && tr[k].ss[t].isTemp
    ensures token != tr[k].ss[t].token
  {
    hide Enabled, Step;
    var a, l := NamesOfRuns(tr, es, k, t);
    assert NewToken(tr, es, l, k);
  }

  lemma TwoDiffer(tr: seq<State>, es: seq<Event>, k: nat, l: nat, w: nat, v: nat, t: nat, a: Token, b: Token)
    requires Run(tr, es) && FreshTokens(tr, es) && w != v
    requires AskedAt(tr, es, k, w, t, a) && AskedAt(tr, es, l, v, t, b) && tr[k].ss[t].isTemp && tr[l].ss[t].isTemp
    ensures a != b
  {
    hide Enabled, Step;
    assert if k < l then NewToken(tr, es, k, l) else NewToken(tr, es, l, k);
  }

  /** In every run, a forwarder whose login was of another version than 3 is told of
      every connector under its own token. One whose login was of version 3 is told
      of them under different tokens, none of them its own, if the generator
      delivers tokens that are new. */
  lemma TokensTold(tr: seq<State>, es: seq<Event>, n: nat, t: nat, k: nat)
    requires Run(tr, es) && n < |tr| && t < |tr[n].ss| && LoggedIn(tr[n].ss[t])
    requires FirstLogin(es, t, k) && k < n
    ensures t < |tr[n].hs|
    ensures es[k].ver != 3 ==>
              forall m: nat :: ConnectAt(tr[n], t, m) ==> tr[n].hs[t].sends[m].frame.token == tr[n].ss[t].token
    ensures es[k].ver == 3 && FreshTokens(tr, es) ==>
              && (forall m: nat :: ConnectAt(tr[n], t, m) ==> tr[n].hs[t].sends[m].frame.token != tr[n].ss[t].token)
              && (forall m: nat, p: nat :: m < p && ConnectAt(tr[n], t, m) && ConnectAt(tr[n], t, p) ==>
                    tr[n].hs[t].sends[m].frame.token != tr[n].hs[t].sends[p].frame.token)
  {
    hide Enabled, Step, Inv, FreshTokens, NoLogin, AskedAt, NamedAt;
    SessionRuns.RunInv(tr, es, n);
    OneLogEach(tr[n]);
    var a, l := NamesOfRuns(tr, es, n, t);
    FirstOnce(es, t, a, k);
    forall m: nat | ConnectAt(tr[n], t, m)
      ensures es[k].ver != 3 ==> tr[n].hs[t].sends[m].frame.token == tr[n].ss[t].token
      ensures es[k].ver == 3 && FreshTokens(tr, es) ==> tr[n].hs[t].sends[m].frame.token != tr[n].ss[t].token
    {
      var w, q := Announcer(tr, es, n, t, m);
      AskedOf(tr, es, q, n, w, t, tr[n].hs[t].sends[m].frame.token);
      if es[k].ver == 3 && FreshTokens(tr, es) {
        OwnDiffers(tr, es, q, w, t, tr[n].hs[t].sends[m].frame.token);
      }
    }
    if es[k].ver == 3 && FreshTokens(tr, es) {
      forall m: nat, p: nat | m < p && ConnectAt(tr[n], t, m) && ConnectAt(tr[n], t, p)
        ensures tr[n].hs[t].sends[m].frame.token != tr[n].hs[t].sends[p].frame.token
      {
        var w, q := Announcer(tr, es, n, t, m);
        var v, r := Announcer(tr, es, n, t, p);
        AskedOf(tr, es, q, n, w, t, tr[n].hs[t].sends[m].frame.token);
        AskedOf(tr, es, r, n, v, t, tr[n].hs[t].sends[p].frame.token);
        TwoDiffer(tr, es, q, r, w, v, t, tr[n].hs[t].sends[m].frame.token, tr[n].hs[t].sends[p].frame.token);
      }
    }
  }

  lemma AskedOf(tr: seq<State>, es: seq<Event>, k: nat, n: nat, w: nat, t: nat, token: Token)
    requires Run(tr, es) && k <= n < |tr| && AskedAt(tr, es, k, w, t, token)
    ensures t < |tr[k].ss| && t < |tr[n].ss| && tr[n].ss[t].token == tr[k].ss[t].token
    ensures tr[n].ss[t].isTemp == tr[k].ss[t].isTemp
    ensures !tr[k].ss[t].isTemp ==> token == tr[n].ss[t].token
  {
    hide Enabled, Step;
    ForwarderStays(tr, es, k, n, t);
  }
}
