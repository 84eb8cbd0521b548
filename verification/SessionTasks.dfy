/** What each event makes of the task that takes it: which commands are answered,
    how long tasks wait, and why they end. */
module SessionTasks {
  import opened Bytes
  import opened Frames
  import opened SessionModel
  import opened SessionInvariants
  import opened SessionSafety
  import opened SessionSteps

  /** Session i goes on as s, and no other session has changed. */
  predicate OnlyChanged(st: State, st': State, i: nat, s: Session) {
    i < |st.ss| && st'.ss == st.ss[i := s]
  }

  /** Session i is closed: its task is dead, it is not indexed, and its sockets are
      closed. */
  predicate Ended(st: State, st': State, i: nat) {
    && i < |st.ss| && OnlyChanged(st, st', i, st.ss[i].(pc := Dead))
    && st'.closed == st.closed + Held(st.ss[i]) && i !in st'.order && st'.claims == st.claims
  }

  lemma CloseEnds(st: State, i: nat)
    requires IndexOk(st) && i < |st.ss| && !st.ss[i].pc.Dead?
    ensures Ended(st, Close(st, i), i)
  {
    CloseIndex(st, i);
  }

  // ------------------------------------------------------------------ commands

  /** The commands, by their byte: 0 LOGIN, 2 KEEP_ALIVE, 3 CONNECT, 4 ACCEPT. A
      KEEP_ALIVE is answered unless its version is 1; a session that has a type may
      not log in or connect; everything else closes. */
  lemma CommandMeans(st: State, e: Event)
    requires Inv(st) && Enabled(st, e) && e.Header?
    ensures e.i < |st.ss|
    ensures var s, st' := st.ss[e.i], Step(st, e);
            && (e.cmd == 2 ==>
                  OnlyChanged(st, st', e.i, s.(pc := if e.ver == 1 then Receiving
                                                     else Writing(e.i, KeepAliveFrame, e.ver, false, 0))))
            && (e.cmd == 4 ==> OnlyChanged(st, st', e.i, s.(pc := AcceptToken)))
            && (e.cmd == 3 && s.ty.Null? ==> OnlyChanged(st, st', e.i, s.(pc := ConnectToken)))
            && (e.cmd == 0 && s.ty.Null? && e.ver != 1 ==> OnlyChanged(st, st', e.i, s.(pc := LoginToken(e.ver))))
            && (e.cmd == 0 && s.ty.Null? && e.ver == 1 ==> LoginGoesOn(st, st', e.i, 1, e.gen, e.allowed))
            && ((e.cmd == 0 || e.cmd == 3) && !s.ty.Null? ==> Ended(st, st', e.i))
            && (e.cmd == 1 || e.cmd > 4 ==> Ended(st, st', e.i))
  {
    hide Safe, LoginLookup, Close, Ended, LoginGoesOn;
    var noted := Noted(st, e.i, e.cmd);
    NotedSafe(st, e.i, e.cmd);
    if e.cmd == 0 && st.ss[e.i].ty.Null? && e.ver == 1 {
      LookupGoesOn(noted, e.i, 1, e.gen, e.allowed, e.found);
    } else {
      CloseEnds(noted, e.i);
    }
    NotedEnds(st, e.i, e.cmd, Step(st, e));
  }

  lemma NotedSafe(st: State, i: nat, cmd: Byte)
    requires Inv(st) && i < |st.ss|
    ensures PcOk(st.ss[i], i) && IndexOk(Noted(st, i, cmd)) && Noted(st, i, cmd).ss == st.ss
  {
    QuietIndex(st, Noted(st, i, cmd));
  }

  lemma NotedEnds(st: State, i: nat, cmd: Byte, st': State)
    requires i < |st.hs| && i < |st.ss|
    ensures Ended(Noted(st, i, cmd), st', i) ==> Ended(st, st', i)
    ensures forall ver, name, allowed :: LoginGoesOn(Noted(st, i, cmd), st', i, ver, name, allowed) ==>
              LoginGoesOn(st, st', i, ver, name, allowed)
  {}

  // --------------------------------------------------------------------- login

  /** The session takes the name and is about to send it in its TOKEN, or waits for
      1500 ms before it is dropped. Another session may only lose its place, and
      only if it is a FORWARD of that name. */
  ghost predicate LoginGoesOn(st: State, st': State, i: nat, ver: Byte, name: Token, allowed: bool) {
    && i < |st.ss| == |st'.ss|
    && st'.ss[i] == st.ss[i].(token := name,
                              pc := if allowed then Writing(i, TokenFrame(name), ver, false, 0) else Rejecting(1500))
    && forall j :: 0 <= j < |st.ss| && j != i && st'.ss[j] != st.ss[j] ==>
         allowed && Displaced(st.ss[j], st'.ss[j], name)
  }

  predicate Displaced(s: Session, s': Session, name: Token) {
    && Linked(s) && s.ty.Forward? && s.token == name
    && s' == s.(isMgr := false, ty := Closed, timeout := 0)
  }

  lemma LookupGoesOn(st: State, i: nat, ver: Byte, name: Token, allowed: bool, found: Option<nat>)
    requires IndexOk(st) && i < |st.ss| && Unnamed(st.ss[i])
    requires if allowed then FindOk(st, Key(Forward, name), found) else found.None?
    ensures LoginGoesOn(st, LoginLookup(st, i, ver, name, allowed, found), i, ver, name, allowed)
  {}

  /** login goes by the 16 bytes that the peer presents, unless all are zero: then,
      and only then, by a generated token. */
  lemma LoginMeans(st: State, e: Event)
    requires Inv(st) && Enabled(st, e) && e.Login?
    ensures e.i < |st.ss| && st.ss[e.i].pc.LoginToken?
    ensures (exists k :: 0 <= k < 16 && e.mt[k] != 0) ==>
              LoginGoesOn(st, Step(st, e), e.i, st.ss[e.i].pc.ver, e.mt, e.allowed)
    ensures (forall k :: 0 <= k < 16 ==> e.mt[k] == 0) ==>
              LoginGoesOn(st, Step(st, e), e.i, st.ss[e.i].pc.ver, e.gen, e.allowed)
  {
    hide Safe, LoginLookup, LoginGoesOn;
    assert PcOk(st.ss[e.i], e.i) && IndexOk(st) by { NotedSafe(st, e.i, 0); InvParts(st); }
    LookupGoesOn(st, e.i, st.ss[e.i].pc.ver, LoginName(e.mt, e.gen), e.allowed, e.found);
    ZeroBytes(e.mt);
  }

  lemma ZeroBytes(t: Token)
    ensures (forall k :: 0 <= k < 16 ==> t[k] == 0) <==> t == ZERO_TOKEN
  {
    if forall k :: 0 <= k < 16 ==> t[k] == 0 {
      assert t == ZERO_TOKEN;
    }
  }

  // ------------------------------------------------------------------- connect

  /** An indexed session of this type and name. */
  predicate Registered(s: Session, ty: Type, name: Token) {
    Linked(s) && s.ty == ty && s.token == name
  }

  ghost predicate NoneRegistered(ss: seq<Session>, ty: Type, name: Token) {
    forall x :: 0 <= x < |ss| ==> !Registered(ss[x], ty, name)
  }

  lemma FoundRegistered(st: State, ty: Type, name: Token, found: Option<nat>)
    requires IndexOk(st) && FindOk(st, Key(ty, name), found)
    ensures match found
            case None => NoneRegistered(st.ss, ty, name)
            case Some(x) => x < |st.ss| && Registered(st.ss[x], ty, name)
  {}

  /** connect addresses its message to a forwarder that is registered under the
      token it was given, and waits for 1500 ms before the peer is dropped if there
      is none. The message carries a generated token exactly if the forwarder's own
      is a temporary one. */
  lemma ConnectMeans(st: State, e: Event)
    requires Inv(st) && Enabled(st, e) && e.ConnectTo?
    ensures e.i < |st.ss|
    ensures var s, st' := st.ss[e.i], Step(st, e);
            if NoneRegistered(st.ss, Forward, e.mt) then OnlyChanged(st, st', e.i, s.(pc := Rejecting(1500)))
            else
              && e.found.Some? && var x := e.found.value;
                 && x < |st.ss| && Registered(st.ss[x], Forward, e.mt)
                 && (st.ss[x].isTemp ==>
                       OnlyChanged(st, st', e.i, s.(pc := Writing(x, ConnectFrame(e.gen), 1, false, 0))))
                 && (!st.ss[x].isTemp ==>
                       OnlyChanged(st, st', e.i, s.(pc := Writing(x, ConnectFrame(e.mt), 1, false, 0))))
  {
    hide Sane, IndexOk, FdsOk, ClaimsOk, FindOk;
    FoundRegistered(st, Forward, e.mt, e.found);
  }

  // -------------------------------------------------------------------- accept

  /** The token under which a task looks for a connector in this step, and the time
      that is left to it. */
  function Seeks(st: State, e: Event): Option<(Token, nat)> {
    match e
    case AcceptOf(i, mt, _) => if i < |st.ss| then Some((mt, st.ss[i].timeout)) else None
    case Slept(i, left, _) =>
      if i < |st.ss| && st.ss[i].pc.AwaitConnect? then Some((st.ss[i].pc.token, left)) else None
    case _ => None
  }

  /** The claim c is made: c.acceptor ends, and its socket goes to the connector. */
  predicate Claims(st: State, st': State, c: Claim) {
    && c.acceptor < |st.ss| == |st'.ss| && c.connector < |st.ss| && c.acceptor != c.connector
    && Registered(st.ss[c.connector], Connect, c.token) && c.fd == st.ss[c.acceptor].clientFd
    && st'.ss[c.acceptor] == st.ss[c.acceptor].(clientFd := -1, pc := Dead)
    && st'.ss[c.connector] == st.ss[c.connector].(ty := Splice, remoteFd := c.fd)
    && (forall j :: 0 <= j < |st.ss| && j != c.acceptor && j != c.connector ==> st'.ss[j] == st.ss[j])
    && st'.claims == st.claims + [c] && st'.closed == st.closed
  }

  /** One round of accept. Without time left it ends; while no connector is indexed
      under its token it waits on, with what time and socket it has; as soon as one
      is, it hands its socket to one. */
  lemma AcceptMeans(st: State, e: Event)
    requires Inv(st) && Enabled(st, e) && Seeks(st, e).Some?
    ensures e.i < |st.ss|
    ensures var (token, left) := Seeks(st, e).value;
            if left == 0 then Ended(st, Step(st, e), e.i)
            else if NoneRegistered(st.ss, Connect, token) then
              OnlyChanged(st, Step(st, e), e.i, st.ss[e.i].(pc := AwaitConnect(token, left)))
              && Step(st, e).closed == st.closed && Step(st, e).claims == st.claims
            else
              exists c: Claim :: c.acceptor == e.i && c.token == token && Claims(st, Step(st, e), c)
  {
    hide Sane, Safe, Ended, Claims, NoneRegistered, AcceptTry, FindOk;
    var (token, left) := Seeks(st, e).value;
    SeekerWaits(st, e);
    RoundMeans(st, e.i, token, left, e.found);
  }

  lemma SeekerWaits(st: State, e: Event)
    requires Inv(st) && Enabled(st, e) && Seeks(st, e).Some?
    ensures e.i < |st.ss| && AtCommand(st.ss[e.i]) && !st.ss[e.i].pc.Dead?
    ensures var (token, left) := Seeks(st, e).value;
            && (if left > 0 then FindOk(st, Key(Connect, token), e.found) else e.found.None?)
            && (e.found.Some? ==> e.found.value < |st.ss|)
            && Step(st, e) == AcceptTry(st, e.i, token, left, e.found)
  {
    hide Safe, AcceptTry;
    assert PcOk(st.ss[e.i], e.i);
  }

  lemma RoundMeans(st: State, i: nat, token: Token, left: nat, found: Option<nat>)
    requires Inv(st) && i < |st.ss| && AtCommand(st.ss[i]) && !st.ss[i].pc.Dead?
    requires if left > 0 then FindOk(st, Key(Connect, token), found) else found.None?
    requires found.Some? ==> found.value < |st.ss|
    ensures var st' := AcceptTry(st, i, token, left, found);
            if left == 0 then Ended(st, st', i)
            else if NoneRegistered(st.ss, Connect, token) then
              OnlyChanged(st, st', i, st.ss[i].(pc := AwaitConnect(token, left)))
              && st'.closed == st.closed && st'.claims == st.claims
            else exists c: Claim :: c.acceptor == i && c.token == token && Claims(st, st', c)
  {
    hide Sane, FdsOk, ClaimsOk, IndexOk, Close, Handover, Ended, FindOk, Claims;
    if left == 0 {
      CloseEnds(st, i);
    } else {
      FoundRegistered(st, Connect, token, found);
      if found.Some? {
        FoundMeets(st, i, token, found);
        HandoverClaims(st, i, found.value, token);
      }
    }
  }

  lemma HandoverClaims(st: State, i: nat, x: nat, token: Token)
    requires Meets(st, i, x, token)
    ensures exists c: Claim :: c.acceptor == i && c.token == token && Claims(st, Close(Handover(st, i, x, token), i), c)
  {
    assert Claims(st, Close(Handover(st, i, x, token), i),
                  Claim(i, x, token, st.ss[i].clientFd, st.ss[x].pc.AwaitAccept?));
  }

  // ------------------------------------------------------------------ other waits

  /** A connector that wakes up goes on to its splice if its time is over or it has
      been claimed, and waits on otherwise; a refused peer is dropped when its time
      is over and not before. */
  lemma WakeMeans(st: State, e: Event)
    requires Inv(st) && Enabled(st, e) && e.Slept? && !st.ss[e.i].pc.AwaitConnect?
    ensures e.i < |st.ss|
    ensures st.ss[e.i].pc.Rejecting? ==>
              if e.left == 0 then Ended(st, Step(st, e), e.i)
              else OnlyChanged(st, Step(st, e), e.i, st.ss[e.i].(pc := Rejecting(e.left)))
    ensures !st.ss[e.i].pc.Rejecting? ==>
              st.ss[e.i].pc.AwaitAccept?
              && OnlyChanged(st, Step(st, e), e.i, st.ss[e.i].(
                                 pc := if e.left == 0 || Claimed(st.claims, e.i) then Splicing(st.ss[e.i].remoteFd)
                                       else AwaitAccept(e.left)))
  {
    hide FdsOk, Sane, Close, Ended, IndexOk;
    if st.ss[e.i].pc.Rejecting? {
      InvParts(st);
      CloseEnds(st, e.i);
    } else {
      ClaimedHoldsPeer(st, e.i);
    }
  }

  /** A connector has been claimed exactly if it has a peer's socket. */
  lemma ClaimedHoldsPeer(st: State, i: nat)
    requires Inv(st) && i < |st.ss| && st.ss[i].pc.AwaitAccept?
    ensures Claimed(st.claims, i) <==> st.ss[i].remoteFd >= 0
  {
    assert PcOk(st.ss[i], i);
    if k :| 0 <= k < |st.claims| && st.claims[k].connector == i {
      assert ClaimOk(st, st.claims[k]);
    }
  }

  // ---------------------------------------------------------------- behind a send

  /** How the task that has sent goes on: after a failure it ends; a TOKEN that was
      sent makes a FORWARD, temporary exactly for version 3, that waits for commands;
      a CONNECT makes a connector, which waits for its whole timeout, or splices at
      once if that is 0; a KEEP_ALIVE changes nothing. */
  lemma SendEndMeans(st: State, e: Event)
    requires Inv(st) && Enabled(st, e) && e.SendEnd?
    ensures e.i < |st.ss| == |Step(st, e).ss|
    ensures var s, s', pc := st.ss[e.i], Step(st, e).ss[e.i], st.ss[e.i].pc;
            if !e.ok then s'.pc.Dead?
            else match pc.frame
              case TokenFrame(_) => s'.pc.Receiving? && s'.ty.Forward? && (s'.isTemp <==> pc.ver == 3)
              case ConnectFrame(t) =>
                && s'.ty.Connect? && s'.token == t
                && s'.pc == if s.timeout == 0 then Splicing(-1) else AwaitAccept(s.timeout)
              case KeepAliveFrame => s'.pc.Receiving? && s'.ty == s.ty
  {
    hide Safe, Released, Continued;
    assert PcOk(st.ss[e.i], e.i);
    ReleasedTask(st, e.i);
    ContinuedMeans(Released(st, e.i), e.i, e.ok);
  }

  lemma ReleasedTask(st: State, i: nat)
    requires i < |st.ss| == |st.hs| && st.ss[i].pc.Writing? && st.ss[i].pc.target < |st.ss|
    ensures var s, s' := st.ss[i], Released(st, i).ss[i];
            && |Released(st, i).ss| == |st.ss| && s'.pc == s.pc && s'.ty == s.ty && s'.timeout == s.timeout
            && s'.remoteFd == s.remoteFd
  {}

  lemma ContinuedMeans(st: State, i: nat, ok: bool)
    requires i < |st.ss| && st.ss[i].pc.Writing?
    ensures |Continued(st, i, ok).ss| == |st.ss|
    ensures var s, s', pc := st.ss[i], Continued(st, i, ok).ss[i], st.ss[i].pc;
            if !ok then s'.pc.Dead?
            else match pc.frame
              case TokenFrame(_) => s'.pc.Receiving? && s'.ty.Forward? && (s'.isTemp <==> pc.ver == 3)
              case ConnectFrame(t) =>
                && s'.ty.Connect? && s'.token == t
                && s'.pc == if s.timeout == 0 then Splicing(s.remoteFd) else AwaitAccept(s.timeout)
              case KeepAliveFrame => s'.pc.Receiving? && s'.ty == s.ty
  {}

  // ------------------------------------------------------- what a session came with

  /** Session j keeps its timeout, until it is evicted and has none any more. */
  predicate TimeoutStays(s: Session, s': Session) {
    s'.timeout == if s'.ty.Closed? && !s.ty.Closed? then 0 else s.timeout
  }

  /** Session j keeps its socket, unless accept hands it to a connector. */
  predicate SocketStays(st: State, st': State, j: nat)
    requires j < |st.ss| && j < |st'.ss|
  {
    st'.ss[j].clientFd == st.ss[j].clientFd
    || (st'.ss[j].clientFd == -1 && st'.ss[j].pc.Dead? && HandedOver(st, st', j))
  }

  predicate HandedOver(st: State, st': State, j: nat)
    requires j < |st.ss|
  {
    |st'.claims| == |st.claims| + 1
    && st'.claims[|st.claims|].acceptor == j && st'.claims[|st.claims|].fd == st.ss[j].clientFd
  }

  lemma StepFields(st: State, e: Event, j: nat)
    requires Inv(st) && Enabled(st, e) && j < |st.ss|
    ensures j < |Step(st, e).ss|
    ensures TimeoutStays(st.ss[j], Step(st, e).ss[j]) && SocketStays(st, Step(st, e), j)
  {
    hide Inv, Step, Enabled;
    if !WritesNothing(e) {
      WriterFields(st, e, j);
    } else if Seeks(st, e).Some? {
      SeekerFields(st, e, j);
    } else {
      SilentFields(st, e, j);
    }
  }

  lemma WriterFields(st: State, e: Event, j: nat)
    requires Inv(st) && Enabled(st, e) && !WritesNothing(e) && j < |st.ss|
    ensures j < |Step(st, e).ss|
    ensures TimeoutStays(st.ss[j], Step(st, e).ss[j]) && SocketStays(st, Step(st, e), j)
  {
    hide Safe, Released, Continued;
    if e.SendEnd? {
      EndedFields(st, e, j);
    }
  }

  lemma EndedFields(st: State, e: Event, j: nat)
    requires Inv(st) && Enabled(st, e) && e.SendEnd? && j < |st.ss|
    ensures j < |Step(st, e).ss|
    ensures TimeoutStays(st.ss[j], Step(st, e).ss[j]) && SocketStays(st, Step(st, e), j)
  {
    hide Safe, LocksOk, Released, Continued;
    assert PcOk(st.ss[e.i], e.i);
    ReleasedFields(st, e.i, j);
    ReleasedFields(st, e.i, e.i);
    ContinuedFields(Released(st, e.i), e.i, e.ok, j);
  }

  lemma ReleasedFields(st: State, i: nat, j: nat)
    requires i < |st.ss| == |st.hs| && st.ss[i].pc.Writing? && st.ss[i].pc.target < |st.ss| && j < |st.ss|
    ensures |Released(st, i).ss| == |st.ss|
    ensures Released(st, i).ss[j] == st.ss[j].(wlock := Released(st, i).ss[j].wlock)
  {}

  lemma ContinuedFields(st: State, i: nat, ok: bool, j: nat)
    requires i < |st.ss| && st.ss[i].pc.Writing? && j < |st.ss|
    ensures |Continued(st, i, ok).ss| == |st.ss|
    ensures var s' := Continued(st, i, ok).ss[j];
            s'.timeout == st.ss[j].timeout && s'.clientFd == st.ss[j].clientFd
            && (s'.ty.Closed? ==> st.ss[j].ty.Closed?)
  {}

  lemma SeekerFields(st: State, e: Event, j: nat)
    requires Inv(st) && Enabled(st, e) && Seeks(st, e).Some? && j < |st.ss|
    ensures j < |Step(st, e).ss|
    ensures TimeoutStays(st.ss[j], Step(st, e).ss[j]) && SocketStays(st, Step(st, e), j)
  {
    hide Inv, Step, Enabled, NoneRegistered;
    AcceptMeans(st, e);
    var (token, left) := Seeks(st, e).value;
    if left > 0 && !NoneRegistered(st.ss, Connect, token) {
      var c: Claim :| c.acceptor == e.i && c.token == token && Claims(st, Step(st, e), c);
    }
  }

  lemma SilentFields(st: State, e: Event, j: nat)
    requires Inv(st) && Enabled(st, e) && WritesNothing(e) && Seeks(st, e).None? && j < |st.ss|
    ensures j < |Step(st, e).ss|
    ensures TimeoutStays(st.ss[j], Step(st, e).ss[j]) && SocketStays(st, Step(st, e), j)
  {
    hide Inv, Step, NoneRegistered;
    match e
    case ShortRead(i) => ClosedFields(st, e, j);
    case SpliceEnd(i) => ClosedFields(st, e, j);
    case Header(_, _, _, _, _, _) => CommandFields(st, e, j);
    case Login(_, _, _, _, _) => LoginFields(st, e, j);
    case ConnectTo(_, _, _, _) => ConnectMeans(st, e);
    case Slept(_, _, _) => WakeMeans(st, e);
  }

  lemma CommandFields(st: State, e: Event, j: nat)
    requires Inv(st) && Enabled(st, e) && e.Header? && j < |st.ss|
    ensures j < |Step(st, e).ss|
    ensures TimeoutStays(st.ss[j], Step(st, e).ss[j]) && SocketStays(st, Step(st, e), j)
  {
    hide Inv, Step, Enabled;
    CommandMeans(st, e);
  }

  lemma LoginFields(st: State, e: Event, j: nat)
    requires Inv(st) && Enabled(st, e) && e.Login? && j < |st.ss|
    ensures j < |Step(st, e).ss|
    ensures TimeoutStays(st.ss[j], Step(st, e).ss[j]) && SocketStays(st, Step(st, e), j)
  {
    hide Inv, Step, Enabled;
    LoginMeans(st, e);
    assert (forall k :: 0 <= k < 16 ==> e.mt[k] == 0) || exists k :: 0 <= k < 16 && e.mt[k] != 0;
  }

  lemma ClosedFields(st: State, e: Event, j: nat)
    requires Enabled(st, e) && (e.ShortRead? || e.SpliceEnd?) && j < |st.ss|
    ensures j < |Step(st, e).ss|
    ensures TimeoutStays(st.ss[j], Step(st, e).ss[j]) && SocketStays(st, Step(st, e), j)
  {}
}
