/** The rendezvous server as a transition system.

    One cooperative task runs per connection. A step is what a task executes
    between two points where it may yield: a receive, a send, a sleep or the
    wait for a write lock. Everything the outside world decides is a parameter
    of the event: received bytes, random tokens, results of sends, remaining
    sleep times, and which of several equal keys a lookup in the index meets. */
module SessionModel {
  import opened Bytes
  import opened Frames
  import OrderedTree

  datatype Type = Null | Forward | Connect | Splice | Closed
  {
    function Rank(): int {
      match this
      case Null => 0
      case Forward => 1
      case Connect => 2
      case Splice => 3
      case Closed => 4
    }
  }

  /** Where a task is suspended. */
  datatype Pc =
    | Receiving                         // a message header
    | LoginToken(ver: Byte)             // the token of a LOGIN
    | ConnectToken                      // the token of a CONNECT
    | AcceptToken                       // the token of an ACCEPT
    | Rejecting(left: nat)              // the delay before a refused peer is dropped
    | Writing(target: nat, frame: Frame, ver: Byte, held: bool, sent: nat)
    | AwaitAccept(left: nat)            // connect, until a peer accepts
    | Splicing(fd: int)                 // between the client and descriptor fd
    | AwaitConnect(token: Token, left: nat)  // accept, until a peer connects
    | Dead                              // closed and freed

  datatype Session = Session(
    clientFd: int, remoteFd: int,
    ty: Type, isMgr: bool, isTemp: bool, token: Token,
    timeout: nat, wlock: Option<nat>, pc: Pc)

  /** A message about a connector: the k-th that went out on connection target. */
  datatype Via = Via(target: nat, k: nat)

  /** What happened on one connection: the command that came first, the bytes
      written, the sends that have ended after at least one byte, and, for a
      connector, the message about it. */
  datatype History = History(first: Option<Byte>, wire: seq<Byte>, sends: seq<Sent>, via: Option<Via>)

  /** A handover of socket fd. `waiting`: the connector had not stopped waiting. */
  datatype Claim = Claim(acceptor: nat, connector: nat, token: Token, fd: int, waiting: bool)

  datatype State = State(
    ss: seq<Session>, hs: seq<History>,
    order: seq<nat>,             // the index, in order
    accepted: set<int>, closed: multiset<int>,
    claims: seq<Claim>)

  const REJECT_DELAY := 1500

  function Init(): State {
    State([], [], [], {}, multiset{}, [])
  }

  // ---------------------------------------------------------------- index keys

  datatype Key = Key(ty: Type, token: Token)

  function KeyOf(s: Session): Key {
    Key(s.ty, s.token)
  }

  function CompareKeys(a: Key, b: Key): int {
    if a.ty.Rank() != b.ty.Rank() then a.ty.Rank() - b.ty.Rank()
    else Compare(a.token, b.token)
  }

  /** The comparison a walk through the index makes at each node. */
  function Probe(ss: seq<Session>, k: Key): nat -> int {
    (x: nat) => if x < |ss| then CompareKeys(k, KeyOf(ss[x])) else 1
  }

  /** The index with x put in under its current key. */
  function Filed(ss: seq<Session>, order: seq<nat>, x: nat): seq<nat>
    requires x < |ss|
  {
    OrderedTree.Inserted(Probe(ss, KeyOf(ss[x])), order, x)
  }

  predicate Linked(s: Session) {
    !s.pc.Dead? && s.isMgr
  }

  /** What a lookup may answer. */
  ghost predicate FindOk(st: State, k: Key, found: Option<nat>) {
    match found
    case Some(x) => x in st.order && x < |st.ss| && KeyOf(st.ss[x]) == k
    case None => forall x :: x in st.order && x < |st.ss| ==> KeyOf(st.ss[x]) != k
  }

  // ------------------------------------------------------------ atomic sections

  function With(st: State, i: nat, s: Session): State
    requires i < |st.ss|
  {
    st.(ss := st.ss[i := s])
  }

  function Suspend(st: State, i: nat, pc: Pc): State
    requires i < |st.ss|
  {
    With(st, i, st.ss[i].(pc := pc))
  }

  function Held(s: Session): multiset<int> {
    (if s.remoteFd >= 0 then multiset{s.remoteFd} else multiset{})
    + (if s.clientFd >= 0 then multiset{s.clientFd} else multiset{})
  }

  /** close_session, and the destructor that it triggers. */
  function Close(st: State, i: nat): State
    requires i < |st.ss|
  {
    var s := st.ss[i];
    Suspend(st, i, Dead).(
      order := if s.isMgr then OrderedTree.Without(st.order, i) else st.order,
      closed := st.closed + Held(s))
  }

  /** login's eviction of the session registered under the same token. */
  function Evict(st: State, x: nat): State
    requires x < |st.ss|
  {
    With(st, x, st.ss[x].(isMgr := false, ty := Closed, timeout := 0))
      .(order := OrderedTree.Without(st.order, x))
  }

  function LoginLookup(st: State, i: nat, ver: Byte, token: Token, allowed: bool,
                       found: Option<nat>): State
    requires i < |st.ss| && (found.Some? ==> found.value < |st.ss|)
  {
    var named := With(st, i, st.ss[i].(token := token));
    if !allowed then Suspend(named, i, Rejecting(REJECT_DELAY))
    else
      var alone := if found.Some? then Evict(named, found.value) else named;
      Suspend(alone, i, Writing(i, TokenFrame(token), ver, false, 0))
  }

  function ConnectLookup(st: State, i: nat, mt: Token, gen: Token, found: Option<nat>): State
    requires i < |st.ss| && (found.Some? ==> found.value < |st.ss|)
  {
    if found.None? then Suspend(st, i, Rejecting(REJECT_DELAY))
    else
      var token := if st.ss[found.value].isTemp then gen else mt;
      Suspend(st, i, Writing(found.value, ConnectFrame(token), 1, false, 0))
  }

  /** One round of accept's wait. */
  function AcceptTry(st: State, i: nat, token: Token, left: nat, found: Option<nat>): State
    requires i < |st.ss| && (found.Some? ==> found.value < |st.ss|)
  {
    if left == 0 then Close(st, i)
    else if found.None? then Suspend(st, i, AwaitConnect(token, left))
    else Close(Handover(st, i, found.value, token), i)
  }

  /** The waiting connector gets a socket, and with its new type a new place. */
  function Spliced(st: State, x: nat, fd: int): State
    requires x < |st.ss|
  {
    var given := With(st, x, st.ss[x].(ty := Splice, remoteFd := fd));
    given.(order := Filed(given.ss, OrderedTree.Without(st.order, x), x))
  }

  /** accept hands its socket to the waiting connector. */
  function Handover(st: State, i: nat, x: nat, token: Token): State
    requires i < |st.ss| && x < |st.ss|
  {
    var fd := st.ss[i].clientFd;
    var given := Spliced(st, x, fd);
    With(given, i, given.ss[i].(clientFd := -1)).(
      claims := st.claims + [Claim(i, x, token, fd, st.ss[x].pc.AwaitAccept?)])
  }

  /** The session enters the index under the key it has just been given. */
  function Register(st: State, i: nat, s: Session): State
    requires i < |st.ss|
  {
    With(st, i, s).(order := Filed(st.ss[i := s], st.order, i))
  }

  function Dispatch(st: State, i: nat, ver: Byte, cmd: Byte, gen: Token, allowed: bool,
                    found: Option<nat>): State
    requires i < |st.ss| && (found.Some? ==> found.value < |st.ss|)
  {
    var idle := st.ss[i].ty.Null?;
    if cmd == CMD_LOGIN then
      if !idle then Close(st, i)
      else if ver == 1 then LoginLookup(st, i, ver, gen, allowed, found)
      else Suspend(st, i, LoginToken(ver))
    else if cmd == CMD_CONNECT then
      if !idle then Close(st, i) else Suspend(st, i, ConnectToken)
    else if cmd == CMD_ACCEPT then Suspend(st, i, AcceptToken)
    else if cmd == CMD_KEEP_ALIVE then
      if ver == 1 then st else Suspend(st, i, Writing(i, KeepAliveFrame, ver, false, 0))
    else Close(st, i)
  }

  /** Does the header make the session run login up to its lookup at once? */
  predicate LooksUp(st: State, i: nat, ver: Byte, cmd: Byte, allowed: bool)
    requires i < |st.ss|
  {
    cmd == CMD_LOGIN && ver == 1 && st.ss[i].ty.Null? && allowed
  }

  /** The logs at the end of a send: what went out of the message is noted, and
      by a connector, where. */
  function Recorded(hs: seq<History>, i: nat, pc: Pc): seq<History>
    requires i < |hs| && pc.Writing? && pc.target < |hs|
  {
    if pc.sent == 0 then hs
    else
      var h := hs[pc.target];
      var hs' := hs[pc.target := h.(sends := h.sends + [Sent(pc.frame, pc.sent)])];
      if pc.frame.ConnectFrame? then hs'[i := hs'[i].(via := Some(Via(pc.target, |h.sends|)))] else hs'
  }

  /** The end of a locked send: the lock is released and the outcome noted. */
  function Released(st: State, i: nat): State
    requires i < |st.ss| && |st.hs| == |st.ss|
    requires st.ss[i].pc.Writing? && st.ss[i].pc.target < |st.ss|
  {
    var pc := st.ss[i].pc;
    With(st, pc.target, st.ss[pc.target].(wlock := None)).(hs := Recorded(st.hs, i, pc))
  }

  /** How login, connect and keep-alive go on after their send. */
  function Continued(st: State, i: nat, ok: bool): State
    requires i < |st.ss| && st.ss[i].pc.Writing?
  {
    var s, pc := st.ss[i], st.ss[i].pc;
    if !ok then Close(st, i)
    else match pc.frame
      case TokenFrame(_) =>
        Register(st, i, s.(isMgr := true, ty := Forward, isTemp := pc.ver == 3, pc := Receiving))
      case ConnectFrame(token) =>
        Register(st, i, s.(isMgr := true, ty := Connect, token := token,
                           pc := if s.timeout == 0 then Splicing(s.remoteFd) else AwaitAccept(s.timeout)))
      case KeepAliveFrame => Suspend(st, i, Receiving)
  }

  function Wake(st: State, i: nat, left: nat, found: Option<nat>): State
    requires i < |st.ss| && (found.Some? ==> found.value < |st.ss|)
  {
    var s := st.ss[i];
    match s.pc
    case Rejecting(_) => if left == 0 then Close(st, i) else Suspend(st, i, Rejecting(left))
    case AwaitAccept(_) =>
      Suspend(st, i, if left == 0 || s.remoteFd >= 0 then Splicing(s.remoteFd) else AwaitAccept(left))
    case AwaitConnect(token, _) => AcceptTry(st, i, token, left, found)
    case _ => st
  }

  // --------------------------------------------------------------------- events

  datatype Event =
    | Accepted(fd: int, timeout: nat)              // the server took a connection
    | ShortRead(i: nat)                            // a receive failed or came up short
    | Header(i: nat, ver: Byte, cmd: Byte, gen: Token, allowed: bool, found: Option<nat>)
    | Login(i: nat, mt: Token, gen: Token, allowed: bool, found: Option<nat>)
    | ConnectTo(i: nat, mt: Token, gen: Token, found: Option<nat>)
    | AcceptOf(i: nat, mt: Token, found: Option<nat>)
    | Lock(i: nat)
    | Send(i: nat, n: nat)                         // part of a locked send goes out
    | SendEnd(i: nat, ok: bool)                    // ok: the send returned more than 0
    | Slept(i: nat, left: nat, found: Option<nat>)
    | SpliceEnd(i: nat)

  /** The token login goes by: the peer's, or a generated one for all zeros. */
  function LoginName(mt: Token, gen: Token): Token {
    if mt == ZERO_TOKEN then gen else mt
  }

  ghost predicate Enabled(st: State, e: Event) {
    (e.Accepted? || (e.i < |st.ss| && |st.hs| == |st.ss|)) &&
    match e
    case Accepted(fd, _) => fd >= 0 && fd !in st.accepted
    case ShortRead(i) =>
      var pc := st.ss[i].pc;
      pc.Receiving? || pc.LoginToken? || pc.ConnectToken? || pc.AcceptToken?
    case Header(i, ver, cmd, gen, allowed, found) =>
      st.ss[i].pc.Receiving? &&
      if LooksUp(st, i, ver, cmd, allowed) then FindOk(st, Key(Forward, gen), found) else found.None?
    case Login(i, mt, gen, allowed, found) =>
      st.ss[i].pc.LoginToken? &&
      if allowed then FindOk(st, Key(Forward, LoginName(mt, gen)), found) else found.None?
    case ConnectTo(i, mt, _, found) =>
      st.ss[i].pc.ConnectToken? && FindOk(st, Key(Forward, mt), found)
    case AcceptOf(i, mt, found) =>
      st.ss[i].pc.AcceptToken? &&
      if st.ss[i].timeout > 0 then FindOk(st, Key(Connect, mt), found) else found.None?
    case Lock(i) =>
      var pc := st.ss[i].pc;
      pc.Writing? && !pc.held && pc.target < |st.ss| && st.ss[pc.target].wlock.None?
    case Send(i, n) =>
      var pc := st.ss[i].pc;
      pc.Writing? && pc.held && pc.target < |st.ss| && !st.ss[pc.target].pc.Dead?
      && 0 < n <= |Encode(pc.frame)| - pc.sent
    case SendEnd(i, ok) =>
      var pc := st.ss[i].pc;
      pc.Writing? && pc.held && pc.target < |st.ss|
      && (if ok then pc.sent > 0 else pc.sent < |Encode(pc.frame)|)
    case Slept(i, left, found) =>
      (match st.ss[i].pc
       case Rejecting(was) => left <= was && found.None?
       case AwaitAccept(was) => left <= was && found.None?
       case AwaitConnect(token, was) =>
         left <= was && if left > 0 then FindOk(st, Key(Connect, token), found) else found.None?
       case _ => false)
    case SpliceEnd(i) => st.ss[i].pc.Splicing?
  }

  /** A header has arrived; the first one on the connection is noted. */
  function Noted(st: State, i: nat, cmd: Byte): State
    requires i < |st.hs|
  {
    if st.hs[i].first.None? then st.(hs := st.hs[i := st.hs[i].(first := Some(cmd))]) else st
  }

  /** A session as its constructor leaves it. */
  function Arrived(fd: int, timeout: nat): Session {
    Session(fd, -1, Null, false, false, ZERO_TOKEN, timeout, None, Receiving)
  }

  function Admit(st: State, fd: int, timeout: nat): State {
    st.(ss := st.ss + [Arrived(fd, timeout)],
        hs := st.hs + [History(None, [], [], None)],
        accepted := st.accepted + {fd})
  }

  function Locked(st: State, i: nat): State
    requires i < |st.ss| && st.ss[i].pc.Writing? && st.ss[i].pc.target < |st.ss|
  {
    var pc := st.ss[i].pc;
    Suspend(With(st, pc.target, st.ss[pc.target].(wlock := Some(i))), i, pc.(held := true))
  }

  function SentMore(st: State, i: nat, n: nat): State
    requires i < |st.ss| && st.ss[i].pc.Writing? && st.ss[i].pc.target < |st.hs|
    requires n <= |Encode(st.ss[i].pc.frame)| - st.ss[i].pc.sent
  {
    var pc := st.ss[i].pc;
    var h := st.hs[pc.target];
    Suspend(st, i, pc.(sent := pc.sent + n)).(
      hs := st.hs[pc.target := h.(wire := h.wire + Encode(pc.frame)[pc.sent..pc.sent + n])])
  }

  ghost function Step(st: State, e: Event): State
    requires Enabled(st, e)
  {
    match e
    case Accepted(fd, timeout) => Admit(st, fd, timeout)
    case ShortRead(i) => Close(st, i)
    case Header(i, ver, cmd, gen, allowed, found) =>
      Dispatch(Noted(st, i, cmd), i, ver, cmd, gen, allowed, found)
    case Login(i, mt, gen, allowed, found) =>
      LoginLookup(st, i, st.ss[i].pc.ver, LoginName(mt, gen), allowed, found)
    case ConnectTo(i, mt, gen, found) => ConnectLookup(st, i, mt, gen, found)
    case AcceptOf(i, mt, found) => AcceptTry(st, i, mt, st.ss[i].timeout, found)
    case Lock(i) => Locked(st, i)
    case Send(i, n) => SentMore(st, i, n)
    case SendEnd(i, ok) => Continued(Released(st, i), i, ok)
    case Slept(i, left, found) => Wake(st, i, left, found)
    case SpliceEnd(i) => Close(st, i)
  }

  /** A run from the empty server: states and the events between them. */
  ghost predicate Run(tr: seq<State>, es: seq<Event>) {
    && |tr| == |es| + 1 && tr[0] == Init()
    && forall k :: 0 <= k < |es| ==> Enabled(tr[k], es[k]) && tr[k + 1] == Step(tr[k], es[k])
  }
}
