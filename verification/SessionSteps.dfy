/** Every step of the rendezvous server keeps the index, the ownership of
    sockets and the pairing, and moves types only forward. */
module SessionSteps {
  import opened Bytes
  import opened Frames
  import opened SessionModel
  import opened SessionInvariants
  import opened SessionSafety

  ghost predicate Inv(st: State) {
    Sane(st) && Safe(st)
  }

  /** What one step may do to a type: NULL to FORWARD, FORWARD to CLOSED, NULL to
      CONNECT, CONNECT to SPLICE, or nothing. */
  predicate TypeMoves(a: Type, b: Type) {
    a == b || (a.Null? && (b.Forward? || b.Connect?)) || (a.Forward? && b.Closed?) || (a.Connect? && b.Splice?)
  }

  /** What any number of such moves may do. */
  predicate TypeReaches(a: Type, b: Type) {
    a == b || a.Null? || (a.Forward? && b.Closed?) || (a.Connect? && b.Splice?)
  }

  /** What is final about a session: its death, and its name, and whether that is a
      temporary one, once it has a type. */
  predicate Evolves(s: Session, s': Session) {
    && TypeReaches(s.ty, s'.ty)
    && (s.pc.Dead? ==> s'.pc.Dead? && s'.ty == s.ty)
    && (!s.ty.Null? ==> s'.token == s.token && s'.isTemp == s.isTemp)
  }

  /** A forwarder whose login has completed, evicted or not. */
  predicate LoggedIn(s: Session) {
    s.ty.Forward? || s.ty.Closed?
  }

  /** A session that evolves without becoming a FORWARD. */
  predicate Proceeds(s: Session, s': Session) {
    Evolves(s, s') && (LoggedIn(s') ==> LoggedIn(s)) && (s'.ty.Forward? ==> s.ty.Forward?)
  }

  /** Every session evolves, and none but `logged` becomes a FORWARD. */
  ghost predicate AllEvolve(ss: seq<Session>, ss': seq<Session>, logged: int) {
    && |ss| <= |ss'|
    && (forall j :: 0 <= j < |ss| && j == logged ==> Evolves(ss[j], ss'[j]))
    && (forall j :: 0 <= j < |ss| && j != logged ==> Proceeds(ss[j], ss'[j]))
    && (forall j :: |ss| <= j < |ss'| ==> !LoggedIn(ss'[j]))
  }

  /** The session that a step logs in, or -1. */
  function LoggedBy(st: State, e: Event): int {
    if e.SendEnd? && e.ok && e.i < |st.ss| && st.ss[e.i].pc.Writing? && st.ss[e.i].pc.frame.TokenFrame?
    then e.i else -1
  }

  lemma EvolvesThrough(a: Session, b: Session, c: Session)
    requires Evolves(a, b) && Evolves(b, c)
    ensures Evolves(a, c)
  {}

  lemma EvolveTransitive(a: seq<Session>, b: seq<Session>, c: seq<Session>, logged: int)
    requires |a| == |b| && AllEvolve(a, b, -1) && AllEvolve(b, c, logged)
    ensures AllEvolve(a, c, logged)
  {
    forall j | 0 <= j < |a| ensures Evolves(a[j], c[j]) && (j != logged ==> Proceeds(a[j], c[j])) {
      assert Proceeds(a[j], b[j]) && Evolves(b[j], c[j]);
      EvolvesThrough(a[j], b[j], c[j]);
    }
  }

  lemma EvolveWith(ss: seq<Session>, i: nat, s: Session, logged: int)
    requires i < |ss| && Evolves(ss[i], s) && (i == logged || Proceeds(ss[i], s))
    ensures AllEvolve(ss, ss[i := s], logged)
  {}

  // ------------------------------------------------------------------- sections

  lemma SuspendSafe(st: State, i: nat, pc: Pc)
    requires Safe(st) && i < |st.ss| && !st.ss[i].pc.Dead? && !pc.Dead?
    ensures Safe(Suspend(st, i, pc)) && AllEvolve(st.ss, Suspend(st, i, pc).ss, -1)
  {
    var s := st.ss[i].(pc := pc);
    QuietWith(st, i, s);
    QuietKeeps(st, Suspend(st, i, pc));
    EvolveWith(st.ss, i, s, -1);
  }

  lemma CloseSafe(st: State, i: nat)
    requires Safe(st) && i < |st.ss| && !st.ss[i].pc.Dead?
    ensures Safe(Close(st, i)) && AllEvolve(st.ss, Close(st, i).ss, -1)
  {
    CloseKeeps(st, i);
    EvolveWith(st.ss, i, st.ss[i].(pc := Dead), -1);
  }

  lemma NameSafe(st: State, i: nat, token: Token)
    requires Safe(st) && i < |st.ss| && Unnamed(st.ss[i])
    ensures var named := With(st, i, st.ss[i].(token := token));
            Safe(named) && AllEvolve(st.ss, named.ss, -1)
  {
    var s := st.ss[i].(token := token);
    QuietWith(st, i, s);
    QuietKeeps(st, With(st, i, s));
    EvolveWith(st.ss, i, s, -1);
  }

  lemma EvictSafe(st: State, x: nat)
    requires Safe(st) && x < |st.ss| && Linked(st.ss[x]) && st.ss[x].ty.Forward?
    ensures Safe(Evict(st, x)) && AllEvolve(st.ss, Evict(st, x).ss, -1)
  {
    EvictKeeps(st, x);
    EvolveWith(st.ss, x, st.ss[x].(isMgr := false, ty := Closed, timeout := 0), -1);
  }

  lemma HandoverSafe(st: State, i: nat, x: nat, token: Token)
    requires Safe(st) && Meets(st, i, x, token)
    ensures var st' := Close(Handover(st, i, x, token), i);
            Safe(st') && AllEvolve(st.ss, st'.ss, -1)
  {
    hide Safe, AllEvolve;
    HandoverKeeps(st, i, x, token);
    var s := st.ss[x].(ty := Splice, remoteFd := st.ss[i].clientFd);
    var given := st.ss[x := s];
    EvolveWith(st.ss, x, s, -1);
    var left := given[i].(clientFd := -1, pc := Dead);
    EvolveWith(given, i, left, -1);
    EvolveTransitive(st.ss, given, given[i := left], -1);
    HandoverSessions(st, i, x, token);
  }

  lemma HandoverSessions(st: State, i: nat, x: nat, token: Token)
    requires i < |st.ss| && x < |st.ss| && i != x
    ensures var given := st.ss[x := st.ss[x].(ty := Splice, remoteFd := st.ss[i].clientFd)];
            Close(Handover(st, i, x, token), i).ss == given[i := given[i].(clientFd := -1, pc := Dead)]
  {}

  lemma RegisterSafe(st: State, i: nat, s: Session)
    requires Safe(st) && i < |st.ss| && Unnamed(st.ss[i]) && !st.ss[i].pc.Dead?
    requires s.isMgr && (s.ty.Forward? || s.ty.Connect?) && SameFds(st.ss[i], s)
    ensures Safe(Register(st, i, s))
    ensures AllEvolve(st.ss, Register(st, i, s).ss, if s.ty.Forward? then i else -1)
  {
    RegisterKeeps(st, i, s);
    EvolveWith(st.ss, i, s, if s.ty.Forward? then i else -1);
  }

  lemma LoginLookupSafe(st: State, i: nat, ver: Byte, token: Token, allowed: bool, found: Option<nat>)
    requires Safe(st) && i < |st.ss| && Unnamed(st.ss[i]) && !st.ss[i].pc.Dead?
    requires found.Some? ==> found.value < |st.ss| && Linked(st.ss[found.value]) && st.ss[found.value].ty.Forward?
    ensures Safe(LoginLookup(st, i, ver, token, allowed, found))
    ensures AllEvolve(st.ss, LoginLookup(st, i, ver, token, allowed, found).ss, -1)
  {
    NameSafe(st, i, token);
    var named := With(st, i, st.ss[i].(token := token));
    var alone := if allowed && found.Some? then Evict(named, found.value) else named;
    var pc := if allowed then Writing(i, TokenFrame(token), ver, false, 0) else Rejecting(REJECT_DELAY);
    if allowed && found.Some? {
      EvictSafe(named, found.value);
      EvolveTransitive(st.ss, named.ss, alone.ss, -1);
    }
    SuspendSafe(alone, i, pc);
    EvolveTransitive(st.ss, alone.ss, Suspend(alone, i, pc).ss, -1);
  }

  lemma ConnectLookupSafe(st: State, i: nat, mt: Token, gen: Token, found: Option<nat>)
    requires Safe(st) && i < |st.ss| && !st.ss[i].pc.Dead?
    requires found.Some? ==> found.value < |st.ss|
    ensures Safe(ConnectLookup(st, i, mt, gen, found))
    ensures AllEvolve(st.ss, ConnectLookup(st, i, mt, gen, found).ss, -1)
  {
    SuspendSafe(st, i, ConnectLookup(st, i, mt, gen, found).ss[i].pc);
  }

  lemma AcceptTrySafe(st: State, i: nat, token: Token, left: nat, found: Option<nat>)
    requires Safe(st) && i < |st.ss| && !st.ss[i].pc.Dead?
    requires found.Some? ==> Meets(st, i, found.value, token)
    ensures Safe(AcceptTry(st, i, token, left, found))
    ensures AllEvolve(st.ss, AcceptTry(st, i, token, left, found).ss, -1)
  {
    if left == 0 {
      CloseSafe(st, i);
    } else if found.None? {
      SuspendSafe(st, i, AwaitConnect(token, left));
    } else {
      HandoverSafe(st, i, found.value, token);
    }
  }

  lemma DispatchSafe(st: State, i: nat, ver: Byte, cmd: Byte, gen: Token, allowed: bool, found: Option<nat>)
    requires Safe(st) && i < |st.ss| && AtCommand(st.ss[i]) && !st.ss[i].pc.Dead?
    requires found.Some? ==> found.value < |st.ss| && Linked(st.ss[found.value]) && st.ss[found.value].ty.Forward?
    ensures Safe(Dispatch(st, i, ver, cmd, gen, allowed, found))
    ensures AllEvolve(st.ss, Dispatch(st, i, ver, cmd, gen, allowed, found).ss, -1)
  {
    hide AllEvolve, Safe, LoginLookup, Close;
    var idle := st.ss[i].ty.Null?;
    if cmd == CMD_LOGIN && idle && ver == 1 {
      LoginLookupSafe(st, i, ver, gen, allowed, found);
    } else if cmd == CMD_LOGIN && idle {
      SuspendSafe(st, i, LoginToken(ver));
    } else if cmd == CMD_CONNECT && idle {
      SuspendSafe(st, i, ConnectToken);
    } else if cmd == CMD_ACCEPT {
      SuspendSafe(st, i, AcceptToken);
    } else if cmd == CMD_KEEP_ALIVE {
      SuspendSafe(st, i, if ver == 1 then st.ss[i].pc else Writing(i, KeepAliveFrame, ver, false, 0));
      assert Suspend(st, i, st.ss[i].pc) == st;
    } else {
      CloseSafe(st, i);
    }
  }

  lemma ContinuedSafe(st: State, i: nat, ok: bool)
    requires Safe(st) && i < |st.ss| && st.ss[i].pc.Writing? && PcOk(st.ss[i], i)
    ensures Safe(Continued(st, i, ok))
    ensures AllEvolve(st.ss, Continued(st, i, ok).ss, LoggedBy(st, SendEnd(i, ok)))
  {
    hide AllEvolve, Safe, Register, Close;
    var s, pc := st.ss[i], st.ss[i].pc;
    if !ok {
      CloseSafe(st, i);
    } else {
      match pc.frame
      case KeepAliveFrame => SuspendSafe(st, i, Receiving);
      case TokenFrame(_) =>
        RegisterSafe(st, i, s.(isMgr := true, ty := Forward, isTemp := pc.ver == 3, pc := Receiving));
      case ConnectFrame(token) =>
        RegisterSafe(st, i, s.(isMgr := true, ty := Connect, token := token,
                               pc := if s.timeout == 0 then Splicing(s.remoteFd) else AwaitAccept(s.timeout)));
    }
  }

  lemma WakeSafe(st: State, i: nat, left: nat, found: Option<nat>)
    requires Safe(st) && i < |st.ss| && !st.ss[i].pc.Dead?
    requires st.ss[i].pc.Rejecting? || st.ss[i].pc.AwaitAccept? || st.ss[i].pc.AwaitConnect?
    requires found.Some? ==> st.ss[i].pc.AwaitConnect? && Meets(st, i, found.value, st.ss[i].pc.token)
    ensures Safe(Wake(st, i, left, found))
    ensures AllEvolve(st.ss, Wake(st, i, left, found).ss, -1)
  {
    hide AcceptTry, Close, Safe, AllEvolve;
    var s := st.ss[i];
    match s.pc
    case Rejecting(_) =>
      if left == 0 {
        CloseSafe(st, i);
      } else {
        SuspendSafe(st, i, Rejecting(left));
      }
    case AwaitAccept(_) =>
      SuspendSafe(st, i, if left == 0 || s.remoteFd >= 0 then Splicing(s.remoteFd) else AwaitAccept(left));
    case AwaitConnect(token, _) => AcceptTrySafe(st, i, token, left, found);
  }

  /** A connector found by accept is another session, and still unclaimed. */
  lemma FoundMeets(st: State, i: nat, token: Token, found: Option<nat>)
    requires Inv(st) && i < |st.ss| && !st.ss[i].pc.Dead? && AtCommand(st.ss[i])
    requires found.Some? && FindOk(st, Key(Connect, token), found)
    ensures Meets(st, i, found.value, token)
  {
    assert PcOk(st.ss[found.value], found.value);
  }

  lemma QuietSafe(st: State, st': State)
    requires Safe(st) && Quiet(st, st')
    ensures Safe(st') && AllEvolve(st.ss, st'.ss, -1)
  {
    QuietKeeps(st, st');
    forall j | 0 <= j < |st.ss| ensures Proceeds(st.ss[j], st'.ss[j]) {
      assert SameFace(st.ss[j], st'.ss[j]);
    }
  }

  lemma LockedSafe(st: State, i: nat)
    requires Safe(st) && i < |st.ss| && st.ss[i].pc.Writing? && st.ss[i].pc.target < |st.ss|
    ensures Safe(Locked(st, i)) && AllEvolve(st.ss, Locked(st, i).ss, -1)
  {
    QuietSafe(st, Locked(st, i));
  }

  lemma SentSafe(st: State, i: nat, n: nat)
    requires Safe(st) && i < |st.ss| && st.ss[i].pc.Writing? && st.ss[i].pc.target < |st.hs|
    requires n <= |Encode(st.ss[i].pc.frame)| - st.ss[i].pc.sent
    ensures Safe(SentMore(st, i, n)) && AllEvolve(st.ss, SentMore(st, i, n).ss, -1)
  {
    QuietSafe(st, SentMore(st, i, n));
  }

  lemma ReleasedSafe(st: State, i: nat)
    requires Safe(st) && i < |st.ss| == |st.hs| && st.ss[i].pc.Writing? && st.ss[i].pc.target < |st.ss|
    ensures Safe(Released(st, i)) && AllEvolve(st.ss, Released(st, i).ss, -1)
  {
    QuietSafe(st, Released(st, i));
  }

  lemma SendEndSafe(st: State, i: nat, ok: bool)
    requires Inv(st) && i < |st.ss| && st.ss[i].pc.Writing? && st.ss[i].pc.target < |st.ss|
    ensures var st' := Continued(Released(st, i), i, ok);
            Safe(st') && AllEvolve(st.ss, st'.ss, LoggedBy(st, SendEnd(i, ok)))
  {
    hide AllEvolve, Safe, Continued;
    var mid := Released(st, i);
    ReleasedSafe(st, i);
    ReleasedPcs(st, i);
    ContinuedSafe(mid, i, ok);
    EvolveTransitive(st.ss, mid.ss, Continued(mid, i, ok).ss, LoggedBy(st, SendEnd(i, ok)));
  }

  lemma AdmitSafe(st: State, fd: int, timeout: nat)
    requires Safe(st) && fd >= 0 && fd !in st.accepted
    ensures Safe(Admit(st, fd, timeout)) && AllEvolve(st.ss, Admit(st, fd, timeout).ss, -1)
  {
    AdmitKeeps(st, fd, timeout);
    var ss' := Admit(st, fd, timeout).ss;
    forall j | 0 <= j < |st.ss| ensures Proceeds(st.ss[j], ss'[j]) {
      assert ss'[j] == st.ss[j];
    }
  }

  // ---------------------------------------------------------------------- steps

  lemma HeaderSafe(st: State, e: Event)
    requires Inv(st) && Enabled(st, e) && e.Header?
    ensures Safe(Step(st, e)) && AllEvolve(st.ss, Step(st, e).ss, -1)
  {
    hide AllEvolve, Dispatch;
    var noted := Noted(st, e.i, e.cmd);
    assert PcOk(st.ss[e.i], e.i);
    QuietKeeps(st, noted);
    DispatchSafe(noted, e.i, e.ver, e.cmd, e.gen, e.allowed, e.found);
  }

  lemma LoginSafe(st: State, e: Event)
    requires Inv(st) && Enabled(st, e) && e.Login?
    ensures Safe(Step(st, e)) && AllEvolve(st.ss, Step(st, e).ss, -1)
  {
    assert PcOk(st.ss[e.i], e.i);
    LoginLookupSafe(st, e.i, st.ss[e.i].pc.ver, LoginName(e.mt, e.gen), e.allowed, e.found);
  }

  lemma ConnectSafe(st: State, e: Event)
    requires Inv(st) && Enabled(st, e) && e.ConnectTo?
    ensures Safe(Step(st, e)) && AllEvolve(st.ss, Step(st, e).ss, -1)
  {
    ConnectLookupSafe(st, e.i, e.mt, e.gen, e.found);
  }

  lemma AcceptSafe(st: State, e: Event)
    requires Inv(st) && Enabled(st, e) && e.AcceptOf?
    ensures Safe(Step(st, e)) && AllEvolve(st.ss, Step(st, e).ss, -1)
  {
    assert PcOk(st.ss[e.i], e.i);
    if e.found.Some? {
      FoundMeets(st, e.i, e.mt, e.found);
    }
    AcceptTrySafe(st, e.i, e.mt, st.ss[e.i].timeout, e.found);
  }

  lemma SleptSafe(st: State, e: Event)
    requires Inv(st) && Enabled(st, e) && e.Slept?
    ensures Safe(Step(st, e)) && AllEvolve(st.ss, Step(st, e).ss, -1)
  {
    assert PcOk(st.ss[e.i], e.i);
    if e.found.Some? {
      FoundMeets(st, e.i, st.ss[e.i].pc.token, e.found);
    }
    WakeSafe(st, e.i, e.left, e.found);
  }

  lemma WriterSafe(st: State, e: Event)
    requires Inv(st) && Enabled(st, e) && !WritesNothing(e)
    ensures Safe(Step(st, e)) && AllEvolve(st.ss, Step(st, e).ss, LoggedBy(st, e))
  {
    hide Safe, AllEvolve, Admit, Continued, Released, Locked, SentMore;
    match e
    case Accepted(fd, timeout) => AdmitSafe(st, fd, timeout);
    case Lock(i) => LockedSafe(st, i);
    case Send(i, n) => SentSafe(st, i, n);
    case SendEnd(i, ok) => SendEndSafe(st, i, ok);
  }

  lemma SilentSafe(st: State, e: Event)
    requires Inv(st) && Enabled(st, e) && WritesNothing(e)
    ensures Safe(Step(st, e)) && AllEvolve(st.ss, Step(st, e).ss, -1)
  {
    hide AllEvolve, Safe, Close;
    match e
    case ShortRead(i) => CloseSafe(st, i);
    case Header(_, _, _, _, _, _) => HeaderSafe(st, e);
    case Login(_, _, _, _, _) => LoginSafe(st, e);
    case ConnectTo(_, _, _, _) => ConnectSafe(st, e);
    case AcceptOf(_, _, _) => AcceptSafe(st, e);
    case Slept(_, _, _) => SleptSafe(st, e);
    case SpliceEnd(i) => CloseSafe(st, i);
  }

  /** Every step, whoever takes it, keeps the invariant of the server. */
  lemma StepInv(st: State, e: Event)
    requires Inv(st) && Enabled(st, e)
    ensures Inv(Step(st, e)) && AllEvolve(st.ss, Step(st, e).ss, LoggedBy(st, e))
    ensures WritesNothing(e) ==> Silent(st, Step(st, e), e)
  {
    StepSane(st, e);
    if WritesNothing(e) {
      SilentSafe(st, e);
    } else {
      WriterSafe(st, e);
    }
  }

  lemma InitInv()
    ensures Inv(Init())
  {
    assert Init().ss == [] && Init().order == [] && Init().claims == [];
    forall fd ensures Accounted(Init(), fd) {
      assert !Owned([], fd);
    }
  }

  // ------------------------------------------------ where a step leaves the tasks

  lemma ReleasedTasks(st: State, i: nat, j: nat)
    requires i < |st.ss| == |st.hs| && st.ss[i].pc.Writing? && st.ss[i].pc.target < |st.ss| && j < |st.ss|
    ensures Released(st, i).ss[j].pc == st.ss[j].pc
  {}

  /** Only the task that takes the step moves. */
  lemma OthersWait(st: State, e: Event, j: nat)
    requires Inv(st) && Enabled(st, e) && j < |st.ss| && (e.Accepted? || j != e.i)
    ensures j < |Step(st, e).ss| && Step(st, e).ss[j].pc == st.ss[j].pc
  {
    if WritesNothing(e) {
      SilentWait(st, e, j);
    } else {
      WritersWait(st, e, j);
    }
  }

  lemma SilentWait(st: State, e: Event, j: nat)
    requires Inv(st) && Enabled(st, e) && WritesNothing(e) && j < |st.ss|
    ensures |Step(st, e).ss| == |st.ss| && (j != e.i ==> Step(st, e).ss[j].pc == st.ss[j].pc)
  {
    hide Enabled, Step, Sane, Safe;
    assert Sane(st) && IndexOk(st) by { InvParts(st); }
    StepSane(st, e);
  }

  lemma InvParts(st: State)
    requires Inv(st)
    ensures Sane(st) && IndexOk(st)
  {}

  lemma WritersWait(st: State, e: Event, j: nat)
    requires Inv(st) && Enabled(st, e) && !WritesNothing(e) && j < |st.ss|
    ensures e.Accepted? || |Step(st, e).ss| == |st.ss|
    ensures j < |Step(st, e).ss| && (e.Accepted? || j != e.i ==> Step(st, e).ss[j].pc == st.ss[j].pc)
  {
    hide Continued, Released, Safe;
    if e.SendEnd? {
      EndedTasks(st, e.i, e.ok, j);
    }
  }

  lemma EndedTasks(st: State, i: nat, ok: bool, j: nat)
    requires Sane(st) && i < |st.ss| && st.ss[i].pc.Writing? && st.ss[i].pc.target < |st.ss| && j < |st.ss|
    ensures var ss' := Continued(Released(st, i), i, ok).ss;
            |ss'| == |st.ss| && !ss'[i].pc.Writing? && (j != i ==> ss'[j].pc == st.ss[j].pc)
  {
    ReleasedTasks(st, i, i);
    ReleasedTasks(st, i, j);
    ReleasedPcs(st, i);
    ContinuedWith(Released(st, i), i, ok);
  }

  /** A step adds no session but an accepted one, which waits for its command. */
  lemma Newcomers(st: State, e: Event, j: nat)
    requires Inv(st) && Enabled(st, e) && |st.ss| <= j < |Step(st, e).ss|
    ensures e.Accepted? && Step(st, e).ss[j].pc.Receiving? && Step(st, e).ss[j].ty.Null?
  {
    hide Inv;
    if !e.Accepted? {
      if WritesNothing(e) {
        SilentWait(st, e, e.i);
      } else {
        WritersWait(st, e, e.i);
      }
    }
  }

  lemma EndedMoves(st: State, i: nat, ok: bool, j: nat)
    requires Sane(st) && i < |st.ss| && st.ss[i].pc.Writing? && st.ss[i].pc.target < |st.ss| && j < |st.ss|
    requires st.ss[j].ty.Null?
    ensures var ss' := Continued(Released(st, i), i, ok).ss;
            |ss'| == |st.ss| && (ss'[j].ty.Null? || ss'[j].ty.Forward? || ss'[j].ty.Connect?)
  {
    hide Continued;
    var mid := Released(st, i);
    ReleasedPcs(st, i);
    ReleasedTasks(st, i, i);
    ContinuedWith(mid, i, ok);
    ContinuedMoves(mid, i, ok);
  }

  lemma ContinuedMoves(st: State, i: nat, ok: bool)
    requires i < |st.ss| && st.ss[i].pc.Writing?
    ensures var ty := Continued(st, i, ok).ss[i].ty;
            ty == st.ss[i].ty || ty.Forward? || ty.Connect?
  {}

  /** Every step moves every type by one move at most. */
  lemma StepMoves(st: State, e: Event, j: nat)
    requires Inv(st) && Enabled(st, e) && j < |st.ss|
    ensures j < |Step(st, e).ss| && TypeMoves(st.ss[j].ty, Step(st, e).ss[j].ty)
  {
    hide Enabled, Step, Inv;
    StepInv(st, e);
    assert Evolves(st.ss[j], Step(st, e).ss[j]);
    if st.ss[j].ty.Null? && !WritesNothing(e) {
      WriterMoves(st, e, j);
    }
  }

  lemma WriterMoves(st: State, e: Event, j: nat)
    requires Inv(st) && Enabled(st, e) && !WritesNothing(e) && j < |st.ss| && st.ss[j].ty.Null?
    ensures j < |Step(st, e).ss| && TypeMoves(st.ss[j].ty, Step(st, e).ss[j].ty)
  {
    hide Safe, Continued, Released;
    if e.SendEnd? {
      EndedMoves(st, e.i, e.ok, j);
    }
  }

  lemma AcceptTryTask(st: State, i: nat, token: Token, left: nat, found: Option<nat>)
    requires i < |st.ss| && (found.Some? ==> found.value < |st.ss|)
    ensures var ss' := AcceptTry(st, i, token, left, found).ss;
            |ss'| == |st.ss| && (ss'[i].pc.Dead? || ss'[i].pc.AwaitConnect?)
  {}

  lemma LoginLookupTask(st: State, i: nat, ver: Byte, token: Token, allowed: bool, found: Option<nat>)
    requires i < |st.ss| && (found.Some? ==> found.value < |st.ss|)
    ensures var ss' := LoginLookup(st, i, ver, token, allowed, found).ss;
            |ss'| == |st.ss|
            && ss'[i].pc == if allowed then Writing(i, TokenFrame(token), ver, false, 0) else Rejecting(REJECT_DELAY)
  {}

  lemma DispatchTask(st: State, i: nat, ver: Byte, cmd: Byte, gen: Token, allowed: bool, found: Option<nat>)
    requires i < |st.ss| && (found.Some? ==> found.value < |st.ss|) && st.ss[i].pc.Receiving?
    ensures var ss' := Dispatch(st, i, ver, cmd, gen, allowed, found).ss;
            |ss'| == |st.ss|
            && if LooksUp(st, i, ver, cmd, allowed) then ss'[i].pc == Writing(i, TokenFrame(gen), 1, false, 0)
               else ss'[i].pc.Writing? ==> ss'[i].pc == Writing(i, KeepAliveFrame, ver, false, 0)
  {
    hide LoginLookup;
    if cmd == CMD_LOGIN && st.ss[i].ty.Null? && ver == 1 {
      LoginLookupTask(st, i, ver, gen, allowed, found);
    }
  }

  lemma WakeTask(st: State, i: nat, left: nat, found: Option<nat>)
    requires i < |st.ss| && (found.Some? ==> found.value < |st.ss|) && !st.ss[i].pc.Writing?
    ensures i < |Wake(st, i, left, found).ss| && !Wake(st, i, left, found).ss[i].pc.Writing?
  {
    hide AcceptTry;
    if st.ss[i].pc.AwaitConnect? {
      AcceptTryTask(st, i, st.ss[i].pc.token, left, found);
    }
  }

  /** Only lookups and command headers make a task write. */
  lemma WaiterTask(st: State, e: Event)
    requires Enabled(st, e) && (e.AcceptOf? || e.Slept? || e.ShortRead? || e.SpliceEnd?)
    ensures e.i < |Step(st, e).ss| && !Step(st, e).ss[e.i].pc.Writing?
  {
    hide AcceptTry, Wake;
    match e
    case AcceptOf(i, mt, found) => AcceptTryTask(st, i, mt, st.ss[i].timeout, found);
    case Slept(i, left, found) => WakeTask(st, i, left, found);
    case ShortRead(i) =>
    case SpliceEnd(i) =>
  }
}
