/** What every step of the rendezvous server keeps: program points against
    fields, the write locks, and the index. */
module SessionInvariants {
  import opened Bytes
  import opened Frames
  import opened SessionModel
  import SessionIndex

  predicate AtCommand(s: Session) {
    && (s.ty.Null? || s.ty.Forward? || s.ty.Closed?)
    && (s.isMgr <==> s.ty.Forward?) && s.remoteFd == -1 && s.clientFd >= 0
  }

  predicate Unnamed(s: Session) {
    s.ty.Null? && !s.isMgr && s.remoteFd == -1 && s.clientFd >= 0
  }

  /** A connector in its wait or its splice: unclaimed, or claimed with a socket. */
  predicate Connecting(s: Session) {
    && s.isMgr && s.clientFd >= 0
    && ((s.ty.Connect? && s.remoteFd == -1) || (s.ty.Splice? && s.remoteFd >= 0))
  }

  predicate PcOk(s: Session, i: nat) {
    match s.pc
    case Receiving => AtCommand(s)
    case AcceptToken => AtCommand(s)
    case AwaitConnect(_, left) => AtCommand(s) && left > 0
    case LoginToken(_) => Unnamed(s)
    case ConnectToken => Unnamed(s)
    case Rejecting(_) => Unnamed(s)
    case AwaitAccept(left) => Connecting(s) && left > 0
    case Splicing(fd) => Connecting(s) && (fd == -1 || fd == s.remoteFd)
    case Writing(target, frame, _, held, sent) =>
      && sent <= |Encode(frame)| && (sent > 0 ==> held)
      && (match frame
          case KeepAliveFrame => AtCommand(s) && target == i
          case TokenFrame(token) => Unnamed(s) && target == i && s.token == token
          case ConnectFrame(_) => Unnamed(s) && target != i)
    case Dead => true
  }

  ghost predicate LocksOk(ss: seq<Session>) {
    && (forall t :: 0 <= t < |ss| && ss[t].wlock.Some? ==>
          ss[t].wlock.value < |ss| && HoldsLock(ss[ss[t].wlock.value], t))
    && (forall w :: 0 <= w < |ss| && ss[w].pc.Writing? ==>
          ss[w].pc.target < |ss|
          && (ss[w].pc.held ==> ss[ss[w].pc.target].wlock == Some(w)))
  }

  predicate HoldsLock(s: Session, t: nat) {
    s.pc.Writing? && s.pc.held && s.pc.target == t
  }

  ghost predicate Sane(st: State) {
    && |st.hs| == |st.ss|
    && (forall i :: 0 <= i < |st.ss| ==> PcOk(st.ss[i], i))
    && LocksOk(st.ss)
  }

  /** A session is linked exactly when it is alive with `is_mgr` set, it is
      linked once, and the index is in order. */
  ghost predicate IndexOk(st: State) {
    && SessionIndex.Sorted(st.ss, st.order)
    && (forall x :: x in st.order ==> x < |st.ss| && Linked(st.ss[x]) && !st.ss[x].ty.Null?)
    && (forall x :: 0 <= x < |st.ss| && Linked(st.ss[x]) ==> x in st.order)
  }

  // -------------------------------------------------------------- write locks

  /** LocksOk, except that task i has just let go of its lock, or had none. */
  ghost predicate LocksOkBut(ss: seq<Session>, i: nat) {
    && (forall t :: 0 <= t < |ss| && ss[t].wlock.Some? ==>
          ss[t].wlock.value != i
          && ss[t].wlock.value < |ss| && HoldsLock(ss[ss[t].wlock.value], t))
    && (forall w :: 0 <= w < |ss| && w != i && ss[w].pc.Writing? ==>
          ss[w].pc.target < |ss|
          && (ss[w].pc.held ==> ss[ss[w].pc.target].wlock == Some(w)))
  }

  lemma LocksIdle(ss: seq<Session>, i: nat)
    requires LocksOk(ss) && i < |ss| && !(ss[i].pc.Writing? && ss[i].pc.held)
    ensures LocksOkBut(ss, i)
  {
    assert forall t :: !HoldsLock(ss[i], t);
  }

  /** A section of task i that moves no other task, takes no lock and does not
      leave i inside a send. */
  ghost predicate Calm(ss: seq<Session>, ss': seq<Session>, i: nat) {
    && i < |ss| == |ss'|
    && (forall j :: 0 <= j < |ss| ==> ss'[j].wlock == ss[j].wlock && (j != i ==> ss'[j].pc == ss[j].pc))
    && (ss'[i].pc.Writing? ==> ss'[i].pc.target < |ss| && !ss'[i].pc.held)
  }

  lemma LocksSettle(ss: seq<Session>, ss': seq<Session>, i: nat)
    requires LocksOkBut(ss, i) && Calm(ss, ss', i)
    ensures LocksOk(ss')
  {
    forall t | 0 <= t < |ss'| && ss'[t].wlock.Some?
      ensures ss'[t].wlock.value < |ss'| && HoldsLock(ss'[ss'[t].wlock.value], t)
    {
      assert ss[t].wlock.Some?;
    }
  }

  lemma LocksReleased(st: State, i: nat)
    requires Sane(st) && i < |st.ss| && st.ss[i].pc.Writing? && st.ss[i].pc.held
    ensures st.ss[i].pc.target < |st.ss| && LocksOkBut(Released(st, i).ss, i)
  {
    var ss' := Released(st, i).ss;
    forall t | 0 <= t < |ss'| && ss'[t].wlock.Some?
      ensures ss'[t].wlock.value != i
      ensures ss'[t].wlock.value < |ss'| && HoldsLock(ss'[ss'[t].wlock.value], t)
    {
      assert ss'[t].wlock == st.ss[t].wlock;
      var w := st.ss[t].wlock.value;
      assert HoldsLock(st.ss[w], t);
      assert ss'[w].pc == st.ss[w].pc;
    }
  }

  lemma LockedLocks(st: State, i: nat)
    requires LocksOk(st.ss) && i < |st.ss| && st.ss[i].pc.Writing? && !st.ss[i].pc.held
    requires st.ss[i].pc.target < |st.ss| && st.ss[st.ss[i].pc.target].wlock.None?
    ensures LocksOk(Locked(st, i).ss)
  {
    var ss', target := Locked(st, i).ss, st.ss[i].pc.target;
    forall t | 0 <= t < |ss'| && ss'[t].wlock.Some?
      ensures ss'[t].wlock.value < |ss'| && HoldsLock(ss'[ss'[t].wlock.value], t)
    {
      if t != target {
        assert ss'[t].wlock == st.ss[t].wlock;
        assert HoldsLock(st.ss[ss'[t].wlock.value], t);
      }
    }
    forall w | 0 <= w < |ss'| && ss'[w].pc.Writing?
      ensures ss'[w].pc.target < |ss'|
      ensures ss'[w].pc.held ==> ss'[ss'[w].pc.target].wlock == Some(w)
    {
      assert st.ss[w].pc.Writing?;
    }
  }

  lemma SentLocks(st: State, i: nat, n: nat)
    requires LocksOk(st.ss) && i < |st.ss| && st.ss[i].pc.Writing? && st.ss[i].pc.target < |st.hs|
    requires n <= |Encode(st.ss[i].pc.frame)| - st.ss[i].pc.sent
    ensures LocksOk(SentMore(st, i, n).ss)
  {
    var ss' := SentMore(st, i, n).ss;
    forall t | 0 <= t < |ss'| && ss'[t].wlock.Some?
      ensures ss'[t].wlock.value < |ss'| && HoldsLock(ss'[ss'[t].wlock.value], t)
    {
      assert ss'[t].wlock == st.ss[t].wlock && HoldsLock(st.ss[ss'[t].wlock.value], t);
    }
  }

  // ------------------------------------------------------------ program points

  ghost predicate PcsOk(ss: seq<Session>) {
    forall i :: 0 <= i < |ss| ==> PcOk(ss[i], i)
  }

  lemma PcsWith(st: State, i: nat, s: Session)
    requires PcsOk(st.ss) && i < |st.ss| && PcOk(s, i)
    ensures PcsOk(With(st, i, s).ss)
  {}

  /** A calm section that gives no session its type. */
  ghost predicate Mute(ss: seq<Session>, ss': seq<Session>, i: nat) {
    Calm(ss, ss', i) && forall j :: 0 <= j < |ss| && ss[j].ty.Null? ==> ss'[j].ty.Null?
  }

  lemma MuteWith(st: State, i: nat, x: nat, s: Session)
    requires i < |st.ss| && x < |st.ss| && s.wlock == st.ss[x].wlock && !st.ss[i].pc.Writing?
    requires if x == i then s.pc.Writing? ==> s.pc.target < |st.ss| && !s.pc.held else s.pc == st.ss[x].pc
    requires st.ss[x].ty.Null? ==> s.ty.Null?
    ensures Mute(st.ss, With(st, x, s).ss, i)
  {}

  lemma MuteTwice(a: seq<Session>, b: seq<Session>, c: seq<Session>, i: nat)
    requires Mute(a, b, i) && Mute(b, c, i)
    ensures Mute(a, c, i)
  {}

  lemma SuspendPcs(st: State, i: nat, pc: Pc)
    requires PcsOk(st.ss) && i < |st.ss| && PcOk(st.ss[i].(pc := pc), i) && !st.ss[i].pc.Writing?
    requires pc.Writing? ==> pc.target < |st.ss| && !pc.held
    ensures PcsOk(Suspend(st, i, pc).ss) && Mute(st.ss, Suspend(st, i, pc).ss, i) && Suspend(st, i, pc).hs == st.hs
  {
    PcsWith(st, i, st.ss[i].(pc := pc));
    MuteWith(st, i, i, st.ss[i].(pc := pc));
  }

  /** A forwarder that is evicted may be anywhere in its commands. */
  lemma EvictedOk(s: Session, s': Session, x: nat)
    requires PcOk(s, x) && Linked(s) && s.ty.Forward? && s' == s.(isMgr := false, ty := Closed, timeout := 0)
    ensures PcOk(s', x)
  {}

  lemma EvictPcs(st: State, i: nat, x: nat)
    requires PcsOk(st.ss) && i < |st.ss| && x < |st.ss| && i != x && !st.ss[i].pc.Writing?
    requires Linked(st.ss[x]) && st.ss[x].ty.Forward?
    ensures PcsOk(Evict(st, x).ss) && Mute(st.ss, Evict(st, x).ss, i)
    ensures Evict(st, x).hs == st.hs && Evict(st, x).ss[i] == st.ss[i]
  {
    var s := st.ss[x].(isMgr := false, ty := Closed, timeout := 0);
    EvictedOk(st.ss[x], s, x);
    PcsWith(st, x, s);
    MuteWith(st, i, x, s);
  }

  lemma NamePcs(st: State, i: nat, token: Token)
    requires PcsOk(st.ss) && i < |st.ss| && Unnamed(st.ss[i]) && !st.ss[i].pc.Writing?
    ensures var named := With(st, i, st.ss[i].(token := token));
            PcsOk(named.ss) && Mute(st.ss, named.ss, i) && named.hs == st.hs
  {
    PcsWith(st, i, st.ss[i].(token := token));
    MuteWith(st, i, i, st.ss[i].(token := token));
  }

  lemma LoginLookupPcs(st: State, i: nat, ver: Byte, token: Token, allowed: bool, found: Option<nat>)
    requires PcsOk(st.ss) && i < |st.ss| && Unnamed(st.ss[i]) && !st.ss[i].pc.Writing?
    requires found.Some? ==> found.value < |st.ss| && Linked(st.ss[found.value]) && st.ss[found.value].ty.Forward?
    ensures PcsOk(LoginLookup(st, i, ver, token, allowed, found).ss)
    ensures Mute(st.ss, LoginLookup(st, i, ver, token, allowed, found).ss, i)
    ensures LoginLookup(st, i, ver, token, allowed, found).hs == st.hs
  {
    var named := With(st, i, st.ss[i].(token := token));
    NamePcs(st, i, token);
    if !allowed {
      SuspendPcs(named, i, Rejecting(REJECT_DELAY));
      MuteTwice(st.ss, named.ss, Suspend(named, i, Rejecting(REJECT_DELAY)).ss, i);
    } else {
      var alone, pc := if found.Some? then Evict(named, found.value) else named,
                       Writing(i, TokenFrame(token), ver, false, 0);
      if found.Some? {
        EvictPcs(named, i, found.value);
        MuteTwice(st.ss, named.ss, alone.ss, i);
      }
      SuspendPcs(alone, i, pc);
      MuteTwice(st.ss, alone.ss, Suspend(alone, i, pc).ss, i);
    }
  }

  lemma ConnectLookupPcs(st: State, i: nat, mt: Token, gen: Token, found: Option<nat>)
    requires PcsOk(st.ss) && i < |st.ss| && Unnamed(st.ss[i]) && !st.ss[i].pc.Writing?
    requires found.Some? ==> found.value < |st.ss| && st.ss[found.value].ty.Forward?
    ensures PcsOk(ConnectLookup(st, i, mt, gen, found).ss)
    ensures Mute(st.ss, ConnectLookup(st, i, mt, gen, found).ss, i) && ConnectLookup(st, i, mt, gen, found).hs == st.hs
  {
    SuspendPcs(st, i, ConnectLookup(st, i, mt, gen, found).ss[i].pc);
  }

  lemma ClosePcs(st: State, i: nat)
    requires PcsOk(st.ss) && i < |st.ss| && !st.ss[i].pc.Writing?
    ensures PcsOk(Close(st, i).ss) && Mute(st.ss, Close(st, i).ss, i) && Close(st, i).hs == st.hs
  {
    SuspendPcs(st, i, Dead);
  }

  /** A connector that is claimed is in its wait or in its splice. */
  lemma ClaimedOk(s: Session, x: nat, fd: int)
    requires PcOk(s, x) && Linked(s) && s.ty.Connect? && fd >= 0
    ensures PcOk(s.(ty := Splice, remoteFd := fd), x)
  {}

  lemma HandoverPcs(st: State, i: nat, x: nat, token: Token)
    requires PcsOk(st.ss) && i < |st.ss| && AtCommand(st.ss[i]) && !st.ss[i].pc.Writing?
    requires x < |st.ss| && Linked(st.ss[x]) && st.ss[x].ty.Connect?
    ensures var st' := Close(Handover(st, i, x, token), i);
            PcsOk(st'.ss) && Mute(st.ss, st'.ss, i) && st'.hs == st.hs
  {
    var s := st.ss[x].(ty := Splice, remoteFd := st.ss[i].clientFd);
    ClaimedOk(st.ss[x], x, st.ss[i].clientFd);
    PcsWith(st, x, s);
    MuteWith(st, i, x, s);
    var given := With(st, x, s);
    var left := given.ss[i].(clientFd := -1, pc := Dead);
    PcsWith(given, i, left);
    MuteWith(given, i, i, left);
    MuteTwice(st.ss, given.ss, With(given, i, left).ss, i);
    assert Close(Handover(st, i, x, token), i).ss == With(given, i, left).ss;
  }

  lemma AcceptTryPcs(st: State, i: nat, token: Token, left: nat, found: Option<nat>)
    requires PcsOk(st.ss) && i < |st.ss| && AtCommand(st.ss[i]) && !st.ss[i].pc.Writing?
    requires found.Some? ==> found.value < |st.ss| && Linked(st.ss[found.value]) && st.ss[found.value].ty.Connect?
    ensures PcsOk(AcceptTry(st, i, token, left, found).ss)
    ensures Mute(st.ss, AcceptTry(st, i, token, left, found).ss, i) && AcceptTry(st, i, token, left, found).hs == st.hs
  {
    if left == 0 {
      ClosePcs(st, i);
    } else if found.None? {
      SuspendPcs(st, i, AwaitConnect(token, left));
    } else {
      HandoverPcs(st, i, found.value, token);
    }
  }

  lemma DispatchPcs(st: State, i: nat, ver: Byte, cmd: Byte, gen: Token, allowed: bool, found: Option<nat>)
    requires PcsOk(st.ss) && i < |st.ss| && AtCommand(st.ss[i]) && st.ss[i].pc.Receiving?
    requires found.Some? ==> found.value < |st.ss| && Linked(st.ss[found.value]) && st.ss[found.value].ty.Forward?
    ensures PcsOk(Dispatch(st, i, ver, cmd, gen, allowed, found).ss)
    ensures Mute(st.ss, Dispatch(st, i, ver, cmd, gen, allowed, found).ss, i)
    ensures Dispatch(st, i, ver, cmd, gen, allowed, found).hs == st.hs
  {
    hide LoginLookup, Close, Mute, PcsOk;
    var idle := st.ss[i].ty.Null?;
    if cmd == CMD_LOGIN && idle && ver == 1 {
      LoginLookupPcs(st, i, ver, gen, allowed, found);
    } else if cmd == CMD_LOGIN && idle {
      SuspendPcs(st, i, LoginToken(ver));
    } else if cmd == CMD_CONNECT && idle {
      SuspendPcs(st, i, ConnectToken);
    } else if cmd == CMD_ACCEPT {
      SuspendPcs(st, i, AcceptToken);
    } else if cmd == CMD_KEEP_ALIVE {
      SuspendPcs(st, i, if ver == 1 then st.ss[i].pc else Writing(i, KeepAliveFrame, ver, false, 0));
      assert Suspend(st, i, st.ss[i].pc) == st;
    } else {
      ClosePcs(st, i);
    }
  }

  /** What the task that ends a send goes on as. */
  lemma SettledOk(s: Session, s': Session, i: nat)
    requires s.pc.Writing? && PcOk(s, i)
    requires s' == s.(pc := Dead)
             || match s.pc.frame
                case TokenFrame(_) =>
                  s' == s.(isMgr := true, ty := Forward, isTemp := s.pc.ver == 3, pc := Receiving)
                case ConnectFrame(token) =>
                  s' == s.(isMgr := true, ty := Connect, token := token,
                           pc := if s.timeout == 0 then Splicing(s.remoteFd) else AwaitAccept(s.timeout))
                case KeepAliveFrame => s' == s.(pc := Receiving)
    ensures PcOk(s', i) && !s'.pc.Writing? && s'.wlock == s.wlock
  {}

  lemma ContinuedWith(st: State, i: nat, ok: bool)
    requires i < |st.ss| && st.ss[i].pc.Writing? && PcOk(st.ss[i], i)
    ensures Continued(st, i, ok).hs == st.hs
    ensures i < |Continued(st, i, ok).ss| && Continued(st, i, ok).ss == st.ss[i := Continued(st, i, ok).ss[i]]
    ensures var s' := Continued(st, i, ok).ss[i];
            PcOk(s', i) && !s'.pc.Writing? && s'.wlock == st.ss[i].wlock
  {
    SettledOk(st.ss[i], Continued(st, i, ok).ss[i], i);
  }

  lemma ContinuedPcs(st: State, i: nat, ok: bool)
    requires PcsOk(st.ss) && i < |st.ss| && st.ss[i].pc.Writing?
    ensures PcsOk(Continued(st, i, ok).ss)
    ensures Calm(st.ss, Continued(st, i, ok).ss, i)
  {
    ContinuedWith(st, i, ok);
    PcsWith(st, i, Continued(st, i, ok).ss[i]);
  }

  lemma ReleasedPcs(st: State, i: nat)
    requires PcsOk(st.ss) && i < |st.ss| == |st.hs|
    requires st.ss[i].pc.Writing? && st.ss[i].pc.target < |st.ss|
    ensures PcsOk(Released(st, i).ss)
  {
  }

  lemma LockedSane(st: State, i: nat)
    requires Sane(st) && i < |st.ss| && st.ss[i].pc.Writing? && !st.ss[i].pc.held
    requires st.ss[i].pc.target < |st.ss| && st.ss[st.ss[i].pc.target].wlock.None?
    ensures Sane(Locked(st, i))
  {
    LockedLocks(st, i);
    LockedPcs(st, i);
  }

  lemma LockedPcs(st: State, i: nat)
    requires PcsOk(st.ss) && i < |st.ss| && st.ss[i].pc.Writing? && st.ss[i].pc.target < |st.ss|
    ensures PcsOk(Locked(st, i).ss)
  {
    var pc := st.ss[i].pc;
    var s := st.ss[pc.target].(wlock := Some(i));
    PcsWith(st, pc.target, s);
    var locked := With(st, pc.target, s);
    PcsWith(locked, i, locked.ss[i].(pc := pc.(held := true)));
  }

  lemma SentSane(st: State, i: nat, n: nat)
    requires Sane(st) && i < |st.ss| && st.ss[i].pc.Writing? && st.ss[i].pc.held
    requires st.ss[i].pc.target < |st.hs| && n <= |Encode(st.ss[i].pc.frame)| - st.ss[i].pc.sent
    ensures Sane(SentMore(st, i, n))
  {
    SentLocks(st, i, n);
  }

  lemma WakePcs(st: State, i: nat, left: nat, found: Option<nat>)
    requires PcsOk(st.ss) && i < |st.ss|
    requires st.ss[i].pc.Rejecting? || st.ss[i].pc.AwaitAccept? || st.ss[i].pc.AwaitConnect?
    requires found.Some? ==> found.value < |st.ss| && Linked(st.ss[found.value]) && st.ss[found.value].ty.Connect?
    ensures PcsOk(Wake(st, i, left, found).ss)
    ensures Mute(st.ss, Wake(st, i, left, found).ss, i) && Wake(st, i, left, found).hs == st.hs
  {
    hide AcceptTry, Close, Mute;
    var s := st.ss[i];
    assert PcOk(s, i);
    match s.pc
    case Rejecting(_) =>
      if left == 0 {
        ClosePcs(st, i);
      } else {
        SuspendPcs(st, i, Rejecting(left));
      }
    case AwaitAccept(_) =>
      SuspendPcs(st, i, if left == 0 || s.remoteFd >= 0 then Splicing(s.remoteFd) else AwaitAccept(left));
    case AwaitConnect(token, _) => AcceptTryPcs(st, i, token, left, found);
  }

  predicate WritesNothing(e: Event) {
    !e.Accepted? && !e.Lock? && !e.Send? && !e.SendEnd?
  }

  /** The logs after a step that writes nothing: a first command may be noted. */
  function Heard(st: State, e: Event): seq<History>
    requires e.Header? ==> e.i < |st.hs|
  {
    if e.Header? then Noted(st, e.i, e.cmd).hs else st.hs
  }

  /** The frame of a step that writes nothing. */
  ghost predicate Silent(st: State, st': State, e: Event) {
    WritesNothing(e) && e.i < |st.ss| == |st.hs| && Mute(st.ss, st'.ss, e.i) && st'.hs == Heard(st, e)
  }

  /** From the sections to the steps. */
  lemma CalmSane(st: State, st': State, i: nat)
    requires Sane(st) && i < |st.ss| && !(st.ss[i].pc.Writing? && st.ss[i].pc.held)
    requires Calm(st.ss, st'.ss, i) && PcsOk(st'.ss) && |st'.hs| == |st'.ss|
    ensures Sane(st')
  {
    LocksIdle(st.ss, i);
    LocksSettle(st.ss, st'.ss, i);
  }

  lemma MuteSane(st: State, st': State, e: Event)
    requires Sane(st) && WritesNothing(e) && e.i < |st.ss| && !st.ss[e.i].pc.Writing?
    requires Mute(st.ss, st'.ss, e.i) && PcsOk(st'.ss) && st'.hs == Heard(st, e)
    ensures Sane(st') && Silent(st, st', e)
  {
    CalmSane(st, st', e.i);
  }

  lemma EndSane(st: State, e: Event)
    requires Sane(st) && Enabled(st, e) && (e.ShortRead? || e.SpliceEnd?)
    ensures Sane(Step(st, e)) && Silent(st, Step(st, e), e)
  {
    ClosePcs(st, e.i);
    MuteSane(st, Close(st, e.i), e);
  }

  lemma AdmittedLocks(ss: seq<Session>, ss': seq<Session>)
    requires LocksOk(ss) && |ss'| == |ss| + 1 && ss'[..|ss|] == ss
    requires ss'[|ss|].wlock.None? && !ss'[|ss|].pc.Writing?
    ensures LocksOk(ss')
  {
    assert forall j :: 0 <= j < |ss| ==> ss'[j] == ss[j];
    forall t | 0 <= t < |ss'| && ss'[t].wlock.Some?
      ensures ss'[t].wlock.value < |ss'| && HoldsLock(ss'[ss'[t].wlock.value], t)
    {
      assert t < |ss| && HoldsLock(ss[ss[t].wlock.value], t);
    }
    forall w | 0 <= w < |ss'| && ss'[w].pc.Writing?
      ensures ss'[w].pc.target < |ss'| && (ss'[w].pc.held ==> ss'[ss'[w].pc.target].wlock == Some(w))
    {
      assert w < |ss| && ss[w].pc.Writing?;
    }
  }

  lemma AdmitSane(st: State, fd: int, timeout: nat)
    requires Sane(st) && fd >= 0
    ensures Sane(Admit(st, fd, timeout))
  {
    var ss' := Admit(st, fd, timeout).ss;
    AdmittedLocks(st.ss, ss');
    forall j | 0 <= j < |ss'| ensures PcOk(ss'[j], j) {
      assert j < |st.ss| ==> ss'[j] == st.ss[j];
    }
  }

  lemma HeaderSane(st: State, e: Event)
    requires Sane(st) && IndexOk(st) && Enabled(st, e) && e.Header?
    ensures Sane(Step(st, e)) && Silent(st, Step(st, e), e)
  {
    var noted := Noted(st, e.i, e.cmd);
    assert PcOk(st.ss[e.i], e.i);
    DispatchPcs(noted, e.i, e.ver, e.cmd, e.gen, e.allowed, e.found);
    MuteSane(st, Step(st, e), e);
  }

  lemma LoginSane(st: State, e: Event)
    requires Sane(st) && IndexOk(st) && Enabled(st, e) && e.Login?
    ensures Sane(Step(st, e)) && Silent(st, Step(st, e), e)
  {
    assert PcOk(st.ss[e.i], e.i);
    LoginLookupPcs(st, e.i, st.ss[e.i].pc.ver, LoginName(e.mt, e.gen), e.allowed, e.found);
    MuteSane(st, Step(st, e), e);
  }

  lemma ConnectSane(st: State, e: Event)
    requires Sane(st) && IndexOk(st) && Enabled(st, e) && e.ConnectTo?
    ensures Sane(Step(st, e)) && Silent(st, Step(st, e), e)
  {
    assert PcOk(st.ss[e.i], e.i);
    ConnectLookupPcs(st, e.i, e.mt, e.gen, e.found);
    MuteSane(st, Step(st, e), e);
  }

  lemma AcceptSane(st: State, e: Event)
    requires Sane(st) && IndexOk(st) && Enabled(st, e) && e.AcceptOf?
    ensures Sane(Step(st, e)) && Silent(st, Step(st, e), e)
  {
    assert PcOk(st.ss[e.i], e.i);
    AcceptTryPcs(st, e.i, e.mt, st.ss[e.i].timeout, e.found);
    MuteSane(st, Step(st, e), e);
  }

  lemma SendEndSane(st: State, i: nat, ok: bool)
    requires Sane(st) && i < |st.ss| && st.ss[i].pc.Writing? && st.ss[i].pc.held
    ensures st.ss[i].pc.target < |st.ss| && Sane(Continued(Released(st, i), i, ok))
  {
    LocksReleased(st, i);
    ReleasedPcs(st, i);
    ContinuedWith(Released(st, i), i, ok);
    ContinuedPcs(Released(st, i), i, ok);
    LocksSettle(Released(st, i).ss, Continued(Released(st, i), i, ok).ss, i);
  }

  lemma SleptSane(st: State, e: Event)
    requires Sane(st) && IndexOk(st) && Enabled(st, e) && e.Slept?
    ensures Sane(Step(st, e)) && Silent(st, Step(st, e), e)
  {
    WakePcs(st, e.i, e.left, e.found);
    MuteSane(st, Step(st, e), e);
  }

  /** Every step keeps program points, fields and write locks consistent. */
  lemma StepSane(st: State, e: Event)
    requires Sane(st) && IndexOk(st) && Enabled(st, e)
    ensures Sane(Step(st, e))
    ensures WritesNothing(e) ==> Silent(st, Step(st, e), e)
  {
    hide Sane, Silent, IndexOk, Step, Enabled;
    match e
    case ShortRead(_) => EndSane(st, e);
    case Header(_, _, _, _, _, _) => HeaderSane(st, e);
    case Login(_, _, _, _, _) => LoginSane(st, e);
    case ConnectTo(_, _, _, _) => ConnectSane(st, e);
    case AcceptOf(_, _, _) => AcceptSane(st, e);
    case Slept(_, _, _) => SleptSane(st, e);
    case SpliceEnd(_) => EndSane(st, e);
    case _ => WriterSane(st, e);
  }

  lemma WriterSane(st: State, e: Event)
    requires Sane(st) && Enabled(st, e) && !WritesNothing(e)
    ensures Sane(Step(st, e))
  {
    match e
    case Accepted(fd, timeout) => AdmitSane(st, fd, timeout);
    case Lock(i) => LockedSane(st, i);
    case Send(i, n) => SentSane(st, i, n);
    case SendEnd(i, ok) => SendEndSane(st, i, ok);
  }
}
