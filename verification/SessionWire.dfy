/** What the server writes on one connection: the frames of its sends, whole or
    cut short, TOKEN before any CONNECT, whoever takes turns at the write lock. */
module SessionWire {
  import opened Bytes
  import opened Frames
  import opened SessionModel
  import opened SessionInvariants
  import opened SessionSafety
  import opened SessionSteps

  /** The send under way on connection t, as far as it has got. */
  function Flight(ss: seq<Session>, t: nat): seq<Sent> {
    if t < |ss| && ss[t].wlock.Some? && ss[t].wlock.value < |ss| then Flying(ss[ss[t].wlock.value]) else []
  }

  function Flying(s: Session): seq<Sent> {
    if s.pc.Writing? && s.pc.sent > 0 then [Sent(s.pc.frame, s.pc.sent)] else []
  }

  /** Everything that has gone out on connection t, send by send. */
  function Pieces(st: State, t: nat): seq<Sent>
    requires t < |st.hs|
  {
    st.hs[t].sends + Flight(st.ss, t)
  }

  predicate Counted(p: Sent) {
    0 < p.count <= |Encode(p.frame)|
  }

  /** The bytes on the connection are those of its sends, one after the other. */
  ghost predicate WireOk(st: State, t: nat)
    requires t < |st.hs|
  {
    && st.hs[t].wire == OnWire(Pieces(st, t))
    && forall k :: 0 <= k < |Pieces(st, t)| ==> Counted(Pieces(st, t)[k])
  }

  ghost predicate BytesOk(st: State) {
    forall t :: 0 <= t < |st.ss| && t < |st.hs| ==> WireOk(st, t)
  }

  /** Nothing but KEEP_ALIVEs, and a TOKEN that was cut short if it has died. */
  ghost predicate Ungreeted(s: Session, sends: seq<Sent>) {
    forall k :: 0 <= k < |sends| ==> sends[k].frame.KeepAliveFrame? || (s.pc.Dead? && sends[k].frame.TokenFrame?)
  }

  /** The TOKEN of the session, once, behind nothing but KEEP_ALIVEs. */
  ghost predicate Greeted(sends: seq<Sent>, token: Token) {
    exists k :: GreetedAt(sends, token, k)
  }

  ghost predicate GreetedAt(sends: seq<Sent>, token: Token, k: nat) {
    && k < |sends| && sends[k].frame == TokenFrame(token)
    && (forall j :: 0 <= j < k ==> sends[j].frame.KeepAliveFrame?)
    && (forall j :: k < j < |sends| ==> !sends[j].frame.TokenFrame?)
  }

  ghost predicate ShapeOk(s: Session, h: History) {
    if LoggedIn(s) then Greeted(h.sends, s.token) else Ungreeted(s, h.sends)
  }

  /** Where a task may be that was told to log in and has not registered yet. */
  predicate AtLogin(pc: Pc) {
    pc.Dead? || pc.LoginToken? || pc.Rejecting? || (pc.Writing? && pc.frame.TokenFrame?)
  }

  /** A connection whose first command is LOGIN hears nothing before TOKEN. */
  predicate FirstOk(s: Session, h: History) {
    match h.first
    case None => h.sends == [] && s.ty.Null? && (s.pc.Receiving? || s.pc.Dead?)
    case Some(cmd) =>
      cmd == CMD_LOGIN ==>
        if LoggedIn(s) then h.sends != [] && h.sends[0].frame.TokenFrame?
        else AtLogin(s.pc) && (h.sends == [] || (s.pc.Dead? && CutToken(h.sends)))
  }

  predicate CutToken(sends: seq<Sent>) {
    |sends| == 1 && sends[0].frame.TokenFrame? && !Whole(sends[0])
  }

  /** The session can be told about a connector under this token: it has logged
      in, and unless its own token is a temporary one the two are the same. */
  predicate Tellable(s: Session, token: Token) {
    LoggedIn(s) && (!s.isTemp ==> s.token == token)
  }

  predicate WriterOk(ss: seq<Session>, pc: Pc) {
    pc.Writing? && pc.frame.ConnectFrame? ==> pc.target < |ss| && Tellable(ss[pc.target], pc.frame.token)
  }

  /** CONNECT frames are only addressed to sessions that have logged in. */
  ghost predicate WritersOk(ss: seq<Session>) {
    forall w :: 0 <= w < |ss| ==> WriterOk(ss, ss[w].pc)
  }

  /** The message that was sent about connector s, under its token. */
  ghost predicate ViaOk(st: State, s: Session, h: History) {
    s.ty.Connect? || s.ty.Splice? ==> h.via.Some? && Told(st, h.via.value, s.token)
  }

  predicate Told(st: State, via: Via, token: Token) {
    && via.target < |st.ss| && via.target < |st.hs| && via.k < |st.hs[via.target].sends|
    && Tellable(st.ss[via.target], token) && st.hs[via.target].sends[via.k].frame == ConnectFrame(token)
  }

  ghost predicate LogOk(st: State, t: nat)
    requires t < |st.ss| && t < |st.hs|
  {
    ShapeOk(st.ss[t], st.hs[t]) && FirstOk(st.ss[t], st.hs[t]) && ViaOk(st, st.ss[t], st.hs[t])
  }

  ghost predicate LogsOk(st: State) {
    forall t :: 0 <= t < |st.ss| && t < |st.hs| ==> LogOk(st, t)
  }

  ghost predicate WireInv(st: State) {
    Inv(st) && BytesOk(st) && WritersOk(st.ss) && LogsOk(st)
  }

  // -------------------------------------------------------------------- bytes

  lemma WireFrame(st: State, st': State, t: nat)
    requires t < |st.hs| && t < |st'.hs| && WireOk(st, t)
    requires st'.hs[t].wire == st.hs[t].wire && Pieces(st', t) == Pieces(st, t)
    ensures WireOk(st', t)
  {}

  lemma CalmFlight(ss: seq<Session>, ss': seq<Session>, i: nat, t: nat)
    requires LocksOkBut(ss, i) && Calm(ss, ss', i) && t < |ss|
    ensures Flight(ss', t) == Flight(ss, t)
  {
    assert ss'[t].wlock == ss[t].wlock;
  }

  lemma HeardLogs(st: State, e: Event, t: nat)
    requires WritesNothing(e) && e.i < |st.hs| && t < |st.hs|
    ensures |Heard(st, e)| == |st.hs|
    ensures var h, h' := st.hs[t], Heard(st, e)[t];
            && h'.wire == h.wire && h'.sends == h.sends && h'.via == h.via
            && h'.first == if e.Header? && t == e.i && h.first.None? then Some(e.cmd) else h.first
  {}

  lemma SilentBytes(st: State, st': State, e: Event)
    requires Sane(st) && BytesOk(st) && Silent(st, st', e) && !(st.ss[e.i].pc.Writing? && st.ss[e.i].pc.held)
    ensures BytesOk(st')
  {
    hide Heard;
    LocksIdle(st.ss, e.i);
    forall t | 0 <= t < |st'.ss| && t < |st'.hs| ensures WireOk(st', t) {
      HeardLogs(st, e, t);
      assert WireOk(st, t);
      CalmFlight(st.ss, st'.ss, e.i, t);
      WireFrame(st, st', t);
    }
  }

  lemma AdmitBytes(st: State, fd: int, timeout: nat)
    requires Sane(st) && BytesOk(st)
    ensures BytesOk(Admit(st, fd, timeout))
  {
    var st', n := Admit(st, fd, timeout), |st.ss|;
    forall t | 0 <= t < n ensures WireOk(st', t) {
      assert st'.ss[t] == st.ss[t] && st'.hs[t] == st.hs[t] && WireOk(st, t);
      if st.ss[t].wlock.Some? {
        var w := st.ss[t].wlock.value;
        assert w < n && st'.ss[w] == st.ss[w];
      }
      WireFrame(st, st', t);
    }
    assert Pieces(st', n) == [];
  }

  lemma LockedFlight(st: State, i: nat, t: nat)
    requires Sane(st) && i < |st.ss| && st.ss[i].pc.Writing? && !st.ss[i].pc.held && t < |st.ss|
    requires st.ss[i].pc.target < |st.ss| && st.ss[st.ss[i].pc.target].wlock.None?
    ensures Flight(Locked(st, i).ss, t) == Flight(st.ss, t)
  {
    var ss' := Locked(st, i).ss;
    assert PcOk(st.ss[i], i);
    LocksIdle(st.ss, i);
    assert t != st.ss[i].pc.target ==> ss'[t].wlock == st.ss[t].wlock;
  }

  lemma LockedBytes(st: State, i: nat)
    requires Sane(st) && BytesOk(st) && i < |st.ss| && st.ss[i].pc.Writing? && !st.ss[i].pc.held
    requires st.ss[i].pc.target < |st.ss| && st.ss[st.ss[i].pc.target].wlock.None?
    ensures BytesOk(Locked(st, i))
  {
    forall t | 0 <= t < |st.ss| ensures WireOk(Locked(st, i), t) {
      assert WireOk(st, t);
      LockedFlight(st, i, t);
      WireFrame(st, Locked(st, i), t);
    }
  }

  /** Who sends on t: its lock says. */
  lemma FlightOf(st: State, i: nat, t: nat)
    requires Sane(st) && i < |st.ss| && st.ss[i].pc.Writing? && st.ss[i].pc.held && t < |st.ss|
    ensures st.ss[i].pc.target < |st.ss|
    ensures t == st.ss[i].pc.target ==> Flight(st.ss, t) == Flying(st.ss[i])
    ensures t != st.ss[i].pc.target ==> st.ss[t].wlock.None? || st.ss[t].wlock.value != i
  {
    assert st.ss[t].wlock.Some? ==> HoldsLock(st.ss[st.ss[t].wlock.value], t);
  }

  lemma SentElsewhere(st: State, i: nat, n: nat, t: nat)
    requires Sane(st) && i < |st.ss| && st.ss[i].pc.Writing? && st.ss[i].pc.held && t < |st.ss|
    requires st.ss[i].pc.target < |st.hs| && n <= |Encode(st.ss[i].pc.frame)| - st.ss[i].pc.sent
    requires t != st.ss[i].pc.target && WireOk(st, t)
    ensures WireOk(SentMore(st, i, n), t)
  {
    FlightOf(st, i, t);
    assert Flight(SentMore(st, i, n).ss, t) == Flight(st.ss, t);
    WireFrame(st, SentMore(st, i, n), t);
  }

  /** A send that gets further. */
  lemma PieceGrows(sends: seq<Sent>, f: Frame, sent: nat, n: nat)
    requires 0 < n && sent + n <= |Encode(f)|
    ensures OnWire(sends + [Sent(f, sent + n)])
            == OnWire(sends + (if sent > 0 then [Sent(f, sent)] else [])) + Encode(f)[sent..sent + n]
  {
    hide OnWire, Encode;
    OnWireAppend(sends, Sent(f, sent + n));
    PieceExtends(f, sent, n);
    if sent > 0 {
      OnWireAppend(sends, Sent(f, sent));
      Associative(OnWire(sends), Piece(Sent(f, sent)), Encode(f)[sent..sent + n]);
    } else {
      assert sends + [] == sends;
    }
  }

  lemma PieceExtends(f: Frame, sent: nat, n: nat)
    requires 0 < n && sent + n <= |Encode(f)|
    ensures Piece(Sent(f, sent + n))
            == if sent == 0 then Encode(f)[0..n] else Piece(Sent(f, sent)) + Encode(f)[sent..sent + n]
  {
    hide Encode;
    var b := Encode(f);
    assert b[..sent + n] == b[..sent] + b[sent..sent + n];
    assert b[..n] == b[0..n] && b[..|b|] == b;
  }

  lemma SentPieces(st: State, i: nat, n: nat)
    requires Sane(st) && i < |st.ss| && st.ss[i].pc.Writing? && st.ss[i].pc.held
    requires st.ss[i].pc.target < |st.hs| && 0 < n <= |Encode(st.ss[i].pc.frame)| - st.ss[i].pc.sent
    ensures var pc, st' := st.ss[i].pc, SentMore(st, i, n);
            && |st'.hs| == |st.hs| && Pieces(st, pc.target) == st.hs[pc.target].sends + Flying(st.ss[i])
            && Pieces(st', pc.target) == st.hs[pc.target].sends + [Sent(pc.frame, pc.sent + n)]
            && st'.hs[pc.target].wire == st.hs[pc.target].wire + Encode(pc.frame)[pc.sent..pc.sent + n]
  {
    FlightOf(st, i, st.ss[i].pc.target);
    assert SentMore(st, i, n).ss[st.ss[i].pc.target].wlock == Some(i);
  }

  lemma SentHere(st: State, i: nat, n: nat)
    requires Sane(st) && i < |st.ss| && st.ss[i].pc.Writing? && st.ss[i].pc.held
    requires st.ss[i].pc.target < |st.hs| && 0 < n <= |Encode(st.ss[i].pc.frame)| - st.ss[i].pc.sent
    requires WireOk(st, st.ss[i].pc.target)
    ensures |SentMore(st, i, n).hs| == |st.hs| && WireOk(SentMore(st, i, n), st.ss[i].pc.target)
  {
    hide SentMore, Sane, Pieces, OnWire;
    var pc := st.ss[i].pc;
    var sends := st.hs[pc.target].sends;
    SentPieces(st, i, n);
    PieceGrows(sends, pc.frame, pc.sent, n);
    forall k | 0 <= k < |sends| ensures Counted(sends[k]) {
      assert Pieces(st, pc.target)[k] == sends[k];
    }
  }

  lemma SentBytes(st: State, i: nat, n: nat)
    requires Sane(st) && BytesOk(st) && i < |st.ss| && st.ss[i].pc.Writing? && st.ss[i].pc.held
    requires st.ss[i].pc.target < |st.hs| && 0 < n <= |Encode(st.ss[i].pc.frame)| - st.ss[i].pc.sent
    ensures BytesOk(SentMore(st, i, n))
  {
    hide WireOk, SentMore;
    SentSizes(st, i, n);
    forall t | 0 <= t < |st.ss| ensures WireOk(SentMore(st, i, n), t) {
      if t == st.ss[i].pc.target {
        SentHere(st, i, n);
      } else {
        SentElsewhere(st, i, n, t);
      }
    }
  }

  lemma SentSizes(st: State, i: nat, n: nat)
    requires i < |st.ss| && st.ss[i].pc.Writing? && st.ss[i].pc.target < |st.hs|
    requires n <= |Encode(st.ss[i].pc.frame)| - st.ss[i].pc.sent
    ensures |SentMore(st, i, n).ss| == |st.ss| && |SentMore(st, i, n).hs| == |st.hs|
  {}

  /** Noting a send that has ended leaves the pieces what they are. */
  lemma ReleasedPieces(st: State, i: nat, t: nat)
    requires Sane(st) && i < |st.ss| && st.ss[i].pc.Writing? && st.ss[i].pc.held && t < |st.ss|
    ensures st.ss[i].pc.target < |st.ss| && |Released(st, i).hs| == |st.hs|
    ensures Pieces(Released(st, i), t) == Pieces(st, t) && Released(st, i).hs[t].wire == st.hs[t].wire
  {
    FlightOf(st, i, t);
    var pc, ss' := st.ss[i].pc, Released(st, i).ss;
    if t == pc.target {
      assert ss'[t].wlock.None? && Flight(ss', t) == [];
    } else {
      assert ss'[t].wlock == st.ss[t].wlock;
      assert Flight(ss', t) == Flight(st.ss, t);
    }
  }

  lemma SendEndBytes(st: State, i: nat, ok: bool)
    requires Sane(st) && BytesOk(st) && i < |st.ss| && st.ss[i].pc.Writing? && st.ss[i].pc.held
    ensures st.ss[i].pc.target < |st.ss| && BytesOk(Continued(Released(st, i), i, ok))
  {
    hide WireOk, Continued;
    LocksReleased(st, i);
    var mid := Released(st, i);
    ReleasedPcs(st, i);
    ContinuedWith(mid, i, ok);
    ContinuedPcs(mid, i, ok);
    forall t | 0 <= t < |st.ss| ensures WireOk(Continued(mid, i, ok), t) {
      ReleasedPieces(st, i, t);
      WireFrame(st, mid, t);
      CalmFlight(mid.ss, Continued(mid, i, ok).ss, i, t);
      WireFrame(mid, Continued(mid, i, ok), t);
    }
  }

  lemma StepBytes(st: State, e: Event)
    requires WireInv(st) && Enabled(st, e)
    ensures BytesOk(Step(st, e))
  {
    if WritesNothing(e) {
      SilentStepBytes(st, e);
    } else {
      WriterBytes(st, e);
    }
  }

  lemma SilentStepBytes(st: State, e: Event)
    requires Inv(st) && BytesOk(st) && Enabled(st, e) && WritesNothing(e)
    ensures BytesOk(Step(st, e))
  {
    hide Step, BytesOk, Silent, Safe, FindOk;
    StepInv(st, e);
    SilentBytes(st, Step(st, e), e);
  }

  lemma WriterBytes(st: State, e: Event)
    requires Inv(st) && BytesOk(st) && Enabled(st, e) && !WritesNothing(e)
    ensures BytesOk(Step(st, e))
  {
    hide BytesOk, Admit, Locked, SentMore, Continued, Released, Safe;
    match e
    case Accepted(fd, timeout) => AdmitBytes(st, fd, timeout);
    case Lock(i) => LockedBytes(st, i);
    case Send(i, n) => SentBytes(st, i, n);
    case SendEnd(i, ok) => SendEndBytes(st, i, ok);
  }

  // ------------------------------------------------------------- logs only grow

  /** Sends are only added, and logins never undone. */
  predicate Grows(s: Session, h: History, s': Session, h': History) {
    && (LoggedIn(s) ==> LoggedIn(s') && s'.token == s.token && s'.isTemp == s.isTemp)
    && h.sends <= h'.sends
  }

  ghost predicate AllGrow(st: State, st': State) {
    && |st.hs| == |st.ss| <= |st'.ss| == |st'.hs|
    && forall j :: 0 <= j < |st.ss| ==> Grows(st.ss[j], st.hs[j], st'.ss[j], st'.hs[j])
  }

  lemma EvolvesLoggedIn(s: Session, s': Session)
    requires Evolves(s, s') && LoggedIn(s)
    ensures LoggedIn(s') && s'.token == s.token && s'.isTemp == s.isTemp
  {}

  lemma AllGrowOf(st: State, st': State, logged: int)
    requires |st.hs| == |st.ss| && |st'.hs| == |st'.ss| && AllEvolve(st.ss, st'.ss, logged)
    requires forall j :: 0 <= j < |st.hs| ==> st.hs[j].sends <= st'.hs[j].sends
    ensures AllGrow(st, st')
  {
    forall j | 0 <= j < |st.ss| ensures Grows(st.ss[j], st.hs[j], st'.ss[j], st'.hs[j]) {
      assert Evolves(st.ss[j], st'.ss[j]);
      if LoggedIn(st.ss[j]) {
        EvolvesLoggedIn(st.ss[j], st'.ss[j]);
      }
    }
  }

  lemma ToldStays(st: State, st': State, via: Via, token: Token)
    requires Told(st, via, token) && AllGrow(st, st')
    ensures Told(st', via, token)
  {
    var t := via.target;
    assert Grows(st.ss[t], st.hs[t], st'.ss[t], st'.hs[t]);
    assert st'.hs[t].sends[via.k] == st.hs[t].sends[via.k];
  }

  lemma WriterStays(st: State, st': State, pc: Pc)
    requires WriterOk(st.ss, pc) && AllGrow(st, st')
    ensures WriterOk(st'.ss, pc)
  {
    if pc.Writing? && pc.frame.ConnectFrame? {
      assert Grows(st.ss[pc.target], st.hs[pc.target], st'.ss[pc.target], st'.hs[pc.target]);
    }
  }

  lemma RecordedSends(hs: seq<History>, i: nat, pc: Pc, j: nat)
    requires i < |hs| && pc.Writing? && pc.target < |hs| && j < |hs|
    ensures |Recorded(hs, i, pc)| == |hs| && Recorded(hs, i, pc)[j].first == hs[j].first
    ensures Recorded(hs, i, pc)[j].sends
            == hs[j].sends + (if j == pc.target && pc.sent > 0 then [Sent(pc.frame, pc.sent)] else [])
    ensures Recorded(hs, i, pc)[j].via
            == if j == i && pc.sent > 0 && pc.frame.ConnectFrame? then Some(Via(pc.target, |hs[pc.target].sends|))
               else hs[j].via
  {}

  lemma SendsGrow(st: State, e: Event, j: nat)
    requires Inv(st) && Enabled(st, e) && j < |st.hs|
    ensures j < |Step(st, e).hs| && st.hs[j].sends <= Step(st, e).hs[j].sends
  {
    hide Safe, Continued, Recorded;
    if WritesNothing(e) {
      SilentLogs(st, e, j);
    } else if e.SendEnd? {
      EndedLogs(st, e.i, e.ok);
      RecordedSends(st.hs, e.i, st.ss[e.i].pc, j);
    }
  }

  lemma SilentLogs(st: State, e: Event, j: nat)
    requires Inv(st) && Enabled(st, e) && WritesNothing(e) && j < |st.hs|
    ensures j < |Step(st, e).hs| && Step(st, e).hs == Heard(st, e)
    ensures var h, h' := st.hs[j], Step(st, e).hs[j];
            h'.sends == h.sends && h'.via == h.via
            && h'.first == if e.Header? && j == e.i && h.first.None? then Some(e.cmd) else h.first
  {
    hide Step, Enabled, Sane, Safe, Heard;
    InvParts(st);
    StepSane(st, e);
    HeardLogs(st, e, j);
  }

  lemma EndedLogs(st: State, i: nat, ok: bool)
    requires Sane(st) && i < |st.ss| && st.ss[i].pc.Writing? && st.ss[i].pc.target < |st.ss|
    ensures Continued(Released(st, i), i, ok).hs == Recorded(st.hs, i, st.ss[i].pc)
  {
    ReleasedPcs(st, i);
    ReleasedTasks(st, i, i);
    ContinuedWith(Released(st, i), i, ok);
  }

  lemma StepGrows(st: State, e: Event)
    requires Inv(st) && Enabled(st, e)
    ensures AllGrow(st, Step(st, e))
  {
    hide Step, Enabled, Safe, Silent, LocksOk;
    StepInv(st, e);
    forall j | 0 <= j < |st.hs| ensures j < |Step(st, e).hs| && st.hs[j].sends <= Step(st, e).hs[j].sends {
      SendsGrow(st, e, j);
    }
    AllGrowOf(st, Step(st, e), LoggedBy(st, e));
  }

  // ---------------------------------------------------------------- who writes

  lemma ConnectTask(st: State, i: nat, mt: Token, gen: Token, found: Option<nat>)
    requires i < |st.ss| && FindOk(st, Key(Forward, mt), found)
    requires found.Some? ==> found.value < |st.ss|
    ensures i < |ConnectLookup(st, i, mt, gen, found).ss|
    ensures WriterOk(st.ss, ConnectLookup(st, i, mt, gen, found).ss[i].pc)
  {}

  /** What a step makes its task write is addressed rightly. */
  lemma OwnWriter(st: State, e: Event)
    requires Inv(st) && WritersOk(st.ss) && Enabled(st, e) && !e.Accepted?
    ensures e.i < |Step(st, e).ss| && WriterOk(st.ss, Step(st, e).ss[e.i].pc)
  {
    hide Inv, LoginLookup, Dispatch, ConnectLookup, WritersOk;
    match e
    case Header(i, ver, cmd, gen, allowed, found) =>
      DispatchTask(Noted(st, i, cmd), i, ver, cmd, gen, allowed, found);
    case Login(i, mt, gen, allowed, found) =>
      LoginLookupTask(st, i, st.ss[i].pc.ver, LoginName(mt, gen), allowed, found);
    case ConnectTo(i, mt, gen, found) => ConnectTask(st, i, mt, gen, found);
    case Lock(_) => SenderStays(st, e);
    case Send(_, _) => SenderStays(st, e);
    case SendEnd(_, _) => SenderStays(st, e);
    case _ => WaiterTask(st, e);
  }

  lemma SenderStays(st: State, e: Event)
    requires Inv(st) && WritersOk(st.ss) && Enabled(st, e) && (e.Lock? || e.Send? || e.SendEnd?)
    ensures e.i < |Step(st, e).ss| && WriterOk(st.ss, Step(st, e).ss[e.i].pc)
  {
    hide Safe, Continued, Released;
    assert WriterOk(st.ss, st.ss[e.i].pc);
    if e.SendEnd? {
      EndedTasks(st, e.i, e.ok, e.i);
    }
  }

  lemma StepWriters(st: State, e: Event)
    requires WireInv(st) && Enabled(st, e)
    ensures WritersOk(Step(st, e).ss)
  {
    hide Enabled, Step, Inv, WriterOk, BytesOk, LogsOk;
    var st' := Step(st, e);
    StepGrows(st, e);
    forall w | 0 <= w < |st'.ss| ensures WriterOk(st'.ss, st'.ss[w].pc) {
      if w >= |st.ss| {
        Newcomers(st, e, w);
        NotWriting(st'.ss, st'.ss[w].pc);
      } else {
        if e.Accepted? || w != e.i {
          OthersWait(st, e, w);
        } else {
          OwnWriter(st, e);
        }
        WriterStays(st, st', st'.ss[w].pc);
      }
    }
  }

  lemma NotWriting(ss: seq<Session>, pc: Pc)
    requires !pc.Writing?
    ensures WriterOk(ss, pc)
  {}

  // ------------------------------------------------------- steps that write nothing

  /** Sessions that have got no further in logging in or connecting. */
  predicate SameRank(s: Session, s': Session) {
    && (LoggedIn(s') <==> LoggedIn(s)) && (s.ty.Null? <==> s'.ty.Null?)
    && (s'.ty.Connect? || s'.ty.Splice? ==> s.ty.Connect? || s.ty.Splice?)
    && (!s.ty.Null? ==> s'.token == s.token) && (s.pc.Dead? ==> s'.pc.Dead?)
  }

  lemma RankOf(s: Session, s': Session)
    requires Proceeds(s, s') && (s.ty.Null? ==> s'.ty.Null?)
    ensures SameRank(s, s')
  {}

  lemma SilentRank(st: State, e: Event, t: nat)
    requires Inv(st) && Enabled(st, e) && WritesNothing(e) && t < |st.ss|
    ensures t < |Step(st, e).ss| && SameRank(st.ss[t], Step(st, e).ss[t])
  {
    hide Enabled, Step, Sane, Safe;
    StepInv(st, e);
    assert Proceeds(st.ss[t], Step(st, e).ss[t]);
    RankOf(st.ss[t], Step(st, e).ss[t]);
  }

  lemma ShapeStays(s: Session, s': Session, h: History, h': History)
    requires ShapeOk(s, h) && SameRank(s, s') && h'.sends == h.sends
    ensures ShapeOk(s', h')
  {}

  lemma ViaStays(st: State, st': State, s: Session, s': Session, h: History, h': History)
    requires ViaOk(st, s, h) && SameRank(s, s') && h'.via == h.via && AllGrow(st, st')
    ensures ViaOk(st', s', h')
  {
    if s'.ty.Connect? || s'.ty.Splice? {
      ToldStays(st, st', h.via.value, s.token);
    }
  }

  lemma FirstWaits(s: Session, s': Session, h: History)
    requires FirstOk(s, h) && SameRank(s, s') && s'.pc == s.pc
    ensures FirstOk(s', h)
  {}

  /** The task of a connection that was told to log in goes on logging in. */
  lemma LoginWaits(st: State, e: Event)
    requires Enabled(st, e) && WritesNothing(e) && !e.Header? && AtLogin(st.ss[e.i].pc)
    ensures e.i < |Step(st, e).ss| && AtLogin(Step(st, e).ss[e.i].pc)
  {
    hide LoginLookup;
    match e
    case Login(i, mt, gen, allowed, found) =>
      LoginLookupTask(st, i, st.ss[i].pc.ver, LoginName(mt, gen), allowed, found);
    case ShortRead(_) =>
    case Slept(_, _, _) =>
    case ConnectTo(_, _, _, _) =>
    case AcceptOf(_, _, _) =>
    case SpliceEnd(_) =>
  }

  lemma LoginStarts(st: State, i: nat, ver: Byte, gen: Token, allowed: bool, found: Option<nat>)
    requires i < |st.ss| && (found.Some? ==> found.value < |st.ss|) && st.ss[i].ty.Null?
    ensures var ss' := Dispatch(st, i, ver, CMD_LOGIN, gen, allowed, found).ss;
            i < |ss'| && AtLogin(ss'[i].pc)
  {
    hide LoginLookup;
    LoginLookupTask(st, i, ver, gen, allowed, found);
  }

  lemma FirstCommand(st: State, e: Event)
    requires Enabled(st, e) && e.Header? && e.cmd == CMD_LOGIN && st.ss[e.i].ty.Null?
    ensures e.i < |Step(st, e).ss| && AtLogin(Step(st, e).ss[e.i].pc)
  {
    hide Dispatch;
    LoginStarts(Noted(st, e.i, e.cmd), e.i, e.ver, e.gen, e.allowed, e.found);
  }

  /** A peer that goes away before its first command. */
  lemma NoCommand(st: State, e: Event)
    requires Enabled(st, e) && WritesNothing(e) && !e.Header? && (st.ss[e.i].pc.Receiving? || st.ss[e.i].pc.Dead?)
    ensures e.i < |Step(st, e).ss| && Step(st, e).ss[e.i].pc.Dead?
  {
    assert e.ShortRead?;
  }

  lemma SilentFirst(st: State, e: Event)
    requires Inv(st) && Enabled(st, e) && WritesNothing(e) && FirstOk(st.ss[e.i], st.hs[e.i])
    ensures e.i < |Step(st, e).ss| && e.i < |Step(st, e).hs| && FirstOk(Step(st, e).ss[e.i], Step(st, e).hs[e.i])
  {
    hide Inv, Step, FindOk;
    var s, h := st.ss[e.i], st.hs[e.i];
    SilentRank(st, e, e.i);
    SilentLogs(st, e, e.i);
    if e.Header? {
      if h.first.None? && e.cmd == CMD_LOGIN {
        FirstCommand(st, e);
      }
    } else if h.first.None? {
      NoCommand(st, e);
    } else if h.first.value == CMD_LOGIN && !LoggedIn(s) {
      LoginWaits(st, e);
    }
  }

  lemma SilentLog(st: State, e: Event, t: nat)
    requires WireInv(st) && Enabled(st, e) && WritesNothing(e) && t < |st.ss|
    ensures t < |Step(st, e).ss| && t < |Step(st, e).hs| && LogOk(Step(st, e), t)
  {
    hide Inv, Enabled, Step, BytesOk, WritersOk, ShapeOk, FirstOk, ViaOk, SameRank, AllGrow;
    assert LogOk(st, t) && |st.hs| == |st.ss| by { InvParts(st); }
    StepGrows(st, e);
    SilentRank(st, e, t);
    SilentLogs(st, e, t);
    var s, h, s', h' := st.ss[t], st.hs[t], Step(st, e).ss[t], Step(st, e).hs[t];
    ShapeStays(s, s', h, h');
    ViaStays(st, Step(st, e), s, s', h, h');
    if t == e.i {
      SilentFirst(st, e);
    } else {
      OthersWait(st, e, t);
      SameFirst(s, h, h');
      FirstWaits(s, s', h');
    }
  }

  lemma SameFirst(s: Session, h: History, h': History)
    requires FirstOk(s, h) && h'.first == h.first && h'.sends == h.sends
    ensures FirstOk(s, h')
  {}

  // ------------------------------------------------------------- steps of sends

  /** A session that a step of another task leaves as it is, as far as logs go. */
  predicate SameRole(s: Session, s': Session) {
    && s'.ty == s.ty && s'.token == s.token && s'.isTemp == s.isTemp
    && (s'.pc == s.pc || (s.pc.Writing? && s'.pc.Writing? && s'.pc.frame == s.pc.frame))
  }

  lemma SameRoleLog(st: State, st': State, t: nat)
    requires t < |st.ss| && t < |st.hs| && LogOk(st, t) && AllGrow(st, st') && t < |st'.ss|
    requires SameRole(st.ss[t], st'.ss[t])
    requires st'.hs[t].first == st.hs[t].first && st'.hs[t].sends == st.hs[t].sends && st'.hs[t].via == st.hs[t].via
    ensures LogOk(st', t)
  {
    var s, h := st.ss[t], st.hs[t];
    if s.ty.Connect? || s.ty.Splice? {
      ToldStays(st, st', h.via.value, s.token);
    }
  }

  lemma LockedRole(st: State, i: nat, t: nat)
    requires i < |st.ss| && st.ss[i].pc.Writing? && st.ss[i].pc.target < |st.ss| && t < |st.ss|
    ensures t < |Locked(st, i).ss| && SameRole(st.ss[t], Locked(st, i).ss[t]) && Locked(st, i).hs == st.hs
  {}

  lemma SentRole(st: State, i: nat, n: nat, t: nat)
    requires i < |st.ss| && st.ss[i].pc.Writing? && st.ss[i].pc.target < |st.hs| && t < |st.ss| && t < |st.hs|
    requires n <= |Encode(st.ss[i].pc.frame)| - st.ss[i].pc.sent
    ensures var st' := SentMore(st, i, n);
            && t < |st'.ss| && t < |st'.hs| && SameRole(st.ss[t], st'.ss[t])
            && st'.hs[t] == st.hs[t].(wire := st'.hs[t].wire)
  {}

  lemma SenderLog(st: State, e: Event, t: nat)
    requires WireInv(st) && Enabled(st, e) && (e.Lock? || e.Send?) && t < |st.ss|
    ensures t < |Step(st, e).ss| && t < |Step(st, e).hs| && LogOk(Step(st, e), t)
  {
    hide Inv, Locked, SentMore, BytesOk, WritersOk, LogOk, AllGrow, SameRole;
    StepGrows(st, e);
    assert LogOk(st, t);
    match e
    case Lock(i) =>
      LockedRole(st, i, t);
      SameRoleLog(st, Locked(st, i), t);
    case Send(i, n) =>
      SentRole(st, i, n, t);
      SameRoleLog(st, SentMore(st, i, n), t);
  }

  lemma AdmitLog(st: State, fd: int, timeout: nat, t: nat)
    requires WireInv(st) && AllGrow(st, Admit(st, fd, timeout)) && t <= |st.ss|
    ensures t < |Admit(st, fd, timeout).ss| && t < |Admit(st, fd, timeout).hs| && LogOk(Admit(st, fd, timeout), t)
  {
    hide Inv, BytesOk, WritersOk;
    assert |st.hs| == |st.ss| by { InvParts(st); }
    var st' := Admit(st, fd, timeout);
    if t < |st.ss| {
      assert LogOk(st, t) && st'.ss[t] == st.ss[t] && st'.hs[t] == st.hs[t];
      SameRoleLog(st, st', t);
    }
  }

  // ------------------------------------------------------------ the end of a send

  /** What the end of a send leaves of the task that made it. */
  predicate Settled(s: Session, s': Session, ok: bool)
    requires s.pc.Writing?
  {
    if !ok then s'.pc.Dead? && s'.ty == s.ty && s'.token == s.token && s'.isTemp == s.isTemp
    else match s.pc.frame
      case KeepAliveFrame => s'.pc.Receiving? && s'.ty == s.ty && s'.token == s.token && s'.isTemp == s.isTemp
      case TokenFrame(_) => s'.pc.Receiving? && s'.ty.Forward? && s'.token == s.token
      case ConnectFrame(token) => (s'.pc.Splicing? || s'.pc.AwaitAccept?) && s'.ty.Connect? && s'.token == token
  }

  lemma ReleasedRole(st: State, i: nat, j: nat)
    requires i < |st.ss| == |st.hs| && st.ss[i].pc.Writing? && st.ss[i].pc.target < |st.ss| && j < |st.ss|
    ensures |Released(st, i).ss| == |st.ss|
    ensures exists lock :: Released(st, i).ss[j] == st.ss[j].(wlock := lock)
  {
    assert Released(st, i).ss[j] == st.ss[j].(wlock := Released(st, i).ss[j].wlock);
  }

  lemma ContinuedSettles(st: State, i: nat, ok: bool)
    requires i < |st.ss| && st.ss[i].pc.Writing?
    ensures |Continued(st, i, ok).ss| == |st.ss| && Settled(st.ss[i], Continued(st, i, ok).ss[i], ok)
  {}

  lemma EndedRoles(st: State, i: nat, ok: bool, j: nat)
    requires Sane(st) && i < |st.ss| && st.ss[i].pc.Writing? && st.ss[i].pc.target < |st.ss| && j < |st.ss|
    ensures var ss' := Continued(Released(st, i), i, ok).ss;
            |ss'| == |st.ss| && if j == i then Settled(st.ss[i], ss'[i], ok) else SameRole(st.ss[j], ss'[j])
  {
    hide Released, Continued;
    ReleasedRole(st, i, i);
    ReleasedRole(st, i, j);
    ReleasedPcs(st, i);
    ContinuedWith(Released(st, i), i, ok);
    ContinuedSettles(Released(st, i), i, ok);
  }

  /** One more piece behind a greeting that is not a second greeting. */
  lemma ShapeAppends(s: Session, s': Session, h: History, h': History, p: Sent)
    requires ShapeOk(s, h) && h'.sends == h.sends + [p] && !s.pc.Dead?
    requires match p.frame
             case TokenFrame(token) => !LoggedIn(s) && s'.token == token && (LoggedIn(s') || s'.pc.Dead?)
             case ConnectFrame(_) => LoggedIn(s) && LoggedIn(s') && s'.token == s.token
             case KeepAliveFrame => (LoggedIn(s) <==> LoggedIn(s')) && s'.token == s.token
    ensures ShapeOk(s', h')
  {
    if p.frame.TokenFrame? {
      assert LoggedIn(s') ==> GreetedAt(h'.sends, s'.token, |h.sends|);
    } else if LoggedIn(s) {
      var k :| GreetedAt(h.sends, s.token, k);
      assert GreetedAt(h'.sends, s'.token, k);
    }
  }

  /** The logs of the task that has sent, if it sent to somebody else. */
  lemma EndConnector(s: Session, s': Session, h: History, h': History, i: nat, ok: bool)
    requires s.pc.Writing? && s.pc.frame.ConnectFrame? && PcOk(s, i) && Settled(s, s', ok)
    requires ShapeOk(s, h) && FirstOk(s, h) && h'.sends == h.sends && h'.first == h.first
    ensures ShapeOk(s', h') && FirstOk(s', h')
  {}

  /** The logs of a connection whose own task has sent its TOKEN. */
  lemma EndToken(s: Session, s': Session, h: History, h': History, i: nat, ok: bool)
    requires s.pc.Writing? && s.pc.frame.TokenFrame? && PcOk(s, i) && Settled(s, s', ok)
    requires if ok then s.pc.sent > 0 else s.pc.sent < |Encode(s.pc.frame)|
    requires ShapeOk(s, h) && FirstOk(s, h) && h'.first == h.first && h'.sends == h.sends + Flying(s)
    ensures ShapeOk(s', h') && FirstOk(s', h')
  {
    if s.pc.sent > 0 {
      ShapeAppends(s, s', h, h', Sent(s.pc.frame, s.pc.sent));
    } else {
      assert h'.sends == h.sends;
    }
  }

  /** The logs of a connection whose own task has sent a KEEP_ALIVE. */
  lemma EndKeepAlive(s: Session, s': Session, h: History, h': History, i: nat, ok: bool)
    requires s.pc.Writing? && s.pc.frame.KeepAliveFrame? && PcOk(s, i) && Settled(s, s', ok)
    requires ShapeOk(s, h) && FirstOk(s, h) && h'.first == h.first && h'.sends == h.sends + Flying(s)
    ensures ShapeOk(s', h') && FirstOk(s', h')
  {
    if s.pc.sent > 0 {
      ShapeAppends(s, s', h, h', Sent(s.pc.frame, s.pc.sent));
    } else {
      assert h'.sends == h.sends;
    }
  }

  /** The logs of a connection to which a connector has sent. */
  lemma EndTold(s: Session, s': Session, h: History, h': History, writer: Session)
    requires SameRole(s, s') && LoggedIn(s) && writer.pc.Writing? && writer.pc.frame.ConnectFrame?
    requires ShapeOk(s, h) && FirstOk(s, h) && h'.first == h.first && h'.sends == h.sends + Flying(writer)
    ensures ShapeOk(s', h') && FirstOk(s', h')
  {
    var k :| GreetedAt(h.sends, s.token, k);
    assert GreetedAt(h'.sends, s'.token, k);
  }

  lemma EndVia(st: State, st': State, i: nat, ok: bool, j: nat)
    requires Sane(st) && WritersOk(st.ss) && AllGrow(st, st') && i < |st.ss| && st.ss[i].pc.Writing?
    requires st.ss[i].pc.target < |st.ss| && (ok ==> st.ss[i].pc.sent > 0)
    requires |st'.ss| == |st.ss| && st'.hs == Recorded(st.hs, i, st.ss[i].pc) && j < |st.ss| && LogOk(st, j)
    requires if j == i then Settled(st.ss[j], st'.ss[j], ok) else SameRole(st.ss[j], st'.ss[j])
    ensures ViaOk(st', st'.ss[j], st'.hs[j])
  {
    hide Recorded, ShapeOk, FirstOk, LocksOk;
    var pc := st.ss[i].pc;
    RecordedSends(st.hs, i, pc, j);
    RecordedSends(st.hs, i, pc, pc.target);
    assert PcOk(st.ss[i], i) && WriterOk(st.ss, pc);
    WriterStays(st, st', pc);
    if j != i && (st.ss[j].ty.Connect? || st.ss[j].ty.Splice?) {
      ToldStays(st, st', st.hs[j].via.value, st.ss[j].token);
    }
  }

  lemma EndLog(st: State, st': State, i: nat, ok: bool, t: nat)
    requires Sane(st) && WritersOk(st.ss) && i < |st.ss| && st.ss[i].pc.Writing?
    requires st.ss[i].pc.target < |st.ss|
    requires if ok then st.ss[i].pc.sent > 0 else st.ss[i].pc.sent < |Encode(st.ss[i].pc.frame)|
    requires |st'.ss| == |st.ss| && st'.hs == Recorded(st.hs, i, st.ss[i].pc) && t < |st.ss| && LogOk(st, t)
    requires if t == i then Settled(st.ss[t], st'.ss[t], ok) else SameRole(st.ss[t], st'.ss[t])
    ensures t < |st'.hs| && ShapeOk(st'.ss[t], st'.hs[t]) && FirstOk(st'.ss[t], st'.hs[t])
  {
    hide Recorded, LocksOk, ViaOk, ShapeOk;
    var pc, s, s', h := st.ss[i].pc, st.ss[t], st'.ss[t], st.hs[t];
    RecordedSends(st.hs, i, pc, t);
    var h' := st'.hs[t];
    assert PcOk(st.ss[i], i) && WriterOk(st.ss, pc);
    if t != pc.target && t == i {
      EndConnector(s, s', h, h', i, ok);
    } else if t != pc.target {
      RoleKeepsLog(s, s', h, h');
    } else if pc.frame.TokenFrame? {
      EndToken(s, s', h, h', i, ok);
    } else if pc.frame.KeepAliveFrame? {
      EndKeepAlive(s, s', h, h', i, ok);
    } else {
      EndTold(s, s', h, h', st.ss[i]);
    }
  }

  lemma RoleKeepsLog(s: Session, s': Session, h: History, h': History)
    requires ShapeOk(s, h) && FirstOk(s, h) && SameRole(s, s') && h'.first == h.first && h'.sends == h.sends
    ensures ShapeOk(s', h') && FirstOk(s', h')
  {}

  lemma SendEndLog(st: State, e: Event, t: nat)
    requires WireInv(st) && Enabled(st, e) && e.SendEnd? && t < |st.ss|
    ensures t < |Step(st, e).ss| && t < |Step(st, e).hs| && LogOk(Step(st, e), t)
  {
    hide Continued, Released, Recorded, BytesOk, AllGrow, Settled, SameRole, ShapeOk, FirstOk, ViaOk, Safe;
    StepGrows(st, e);
    assert LogOk(st, t);
    EndedLogs(st, e.i, e.ok);
    EndedRoles(st, e.i, e.ok, t);
    EndLog(st, Step(st, e), e.i, e.ok, t);
    EndVia(st, Step(st, e), e.i, e.ok, t);
  }

  // ---------------------------------------------------------------------- all steps

  lemma StepLog(st: State, e: Event, t: nat)
    requires WireInv(st) && Enabled(st, e) && t < |Step(st, e).ss| && t < |Step(st, e).hs|
    ensures LogOk(Step(st, e), t)
  {
    hide Inv, Admit, LogOk, BytesOk, WritersOk, AllGrow;
    if t >= |st.ss| {
      Newcomers(st, e, t);
    }
    if WritesNothing(e) {
      SilentLog(st, e, t);
    } else if e.Accepted? {
      StepGrows(st, e);
      AdmittedSize(st, e.fd, e.timeout);
      AdmitLog(st, e.fd, e.timeout, t);
    } else if e.SendEnd? {
      SendEndLog(st, e, t);
    } else {
      SenderLog(st, e, t);
    }
  }

  lemma AdmittedSize(st: State, fd: int, timeout: nat)
    ensures |Admit(st, fd, timeout).ss| == |st.ss| + 1
  {}

  lemma StepWire(st: State, e: Event)
    requires WireInv(st) && Enabled(st, e)
    ensures WireInv(Step(st, e))
  {
    hide Enabled, Step, LogOk, BytesOk, WritersOk, Sane, Safe, Silent, AllEvolve;
    StepInv(st, e);
    StepBytes(st, e);
    StepWriters(st, e);
    forall t | 0 <= t < |Step(st, e).ss| && t < |Step(st, e).hs| ensures LogOk(Step(st, e), t) {
      StepLog(st, e, t);
    }
  }

  /** In every run, on every connection: the bytes that have gone out are those of
      the sends so far, whole or cut short, in the order of the lock; the TOKEN is
      among them once, in front of every CONNECT. */
  lemma {:induction false} WireOfRuns(tr: seq<State>, es: seq<Event>, n: nat)
    requires Run(tr, es) && n < |tr|
    ensures WireInv(tr[n])
  {
    hide Enabled, Step;
    if n == 0 {
      InitInv();
    } else {
      WireOfRuns(tr, es, n - 1);
      StepWire(tr[n - 1], es[n - 1]);
    }
  }
}
