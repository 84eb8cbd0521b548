/** Where names come from, over whole runs: the token a forwarder is registered
    under, and the tokens of the connectors that it is told about. */
module SessionNames {
  import opened Bytes
  import opened Frames
  import opened SessionModel
  import opened SessionInvariants
  import opened SessionSteps
  import opened SessionTasks
  import opened SessionLives
  import SessionRuns
  import SessionSafety
  import opened SessionWire

  predicate LoginHeader(es: seq<Event>, j: nat, k: int) {
    TakenBy(es, j, k) && es[k].Header? && es[k].cmd == 0
  }

  /** Step k brings the first LOGIN of session j. */
  ghost predicate FirstLogin(es: seq<Event>, j: nat, k: int) {
    LoginHeader(es, j, k) && NoLogin(es, j, k)
  }

  ghost predicate NoLogin(es: seq<Event>, j: nat, n: int) {
    forall k :: 0 <= k < n ==> !LoginHeader(es, j, k)
  }

  /** The name that a login goes by: the token presented, unless all of its bytes
      are zero; then the generated one. */
  ghost predicate GoesBy(mt: Token, gen: Token, name: Token) {
    if exists k :: 0 <= k < 16 && mt[k] != 0 then name == mt else name == gen
  }

  /** Session j has been told to log in with this version. */
  ghost predicate ToldToLogIn(es: seq<Event>, j: nat, n: nat, ver: Byte) {
    exists k :: 0 <= k < n && FirstLogin(es, j, k) && es[k].ver == ver
  }

  /** In step l the login of session j, first asked for in step k, was given its
      name, and allowed. */
  ghost predicate NamedAt(es: seq<Event>, j: nat, k: int, l: int, name: Token) {
    && k <= l && FirstLogin(es, j, k) && TakenBy(es, j, l)
    && if es[k].ver == 1 then l == k && es[k].allowed && name == es[k].gen
       else k < l && es[l].Login? && es[l].allowed && GoesBy(es[l].mt, es[l].gen, name)
  }

  ghost predicate Named(es: seq<Event>, j: nat, n: nat, ver: Byte, name: Token) {
    exists k, l :: k <= l < n && NamedAt(es, j, k, l, name) && es[k].ver == ver
  }

  /** A name that session j has, and the version of its login, by its type. */
  ghost predicate HasName(es: seq<Event>, j: nat, n: nat, s: Session) {
    exists ver :: Named(es, j, n, ver, s.token) && (s.isTemp <==> ver == 3)
  }

  predicate SendsToken(pc: Pc) {
    pc.Writing? && pc.frame.TokenFrame?
  }

  ghost predicate NameOk(es: seq<Event>, j: nat, n: nat, s: Session) {
    && (s.pc.LoginToken? ==> s.pc.ver != 1 && ToldToLogIn(es, j, n, s.pc.ver))
    && (SendsToken(s.pc) ==> Named(es, j, n, s.pc.ver, s.pc.frame.token))
    && (LoggedIn(s) ==> HasName(es, j, n, s))
    && (s.ty.Null? && !AtLogin(s.pc) ==> NoLogin(es, j, n))
  }

  lemma Later(es: seq<Event>, j: nat, n: nat, ver: Byte, name: Token)
    ensures ToldToLogIn(es, j, n, ver) ==> ToldToLogIn(es, j, n + 1, ver)
    ensures Named(es, j, n, ver, name) ==> Named(es, j, n + 1, ver, name)
  {
    if Named(es, j, n, ver, name) {
      var k, l :| k <= l < n && NamedAt(es, j, k, l, name) && es[k].ver == ver;
      assert k <= l < n + 1 && NamedAt(es, j, k, l, name);
    }
  }

  lemma NameLater(es: seq<Event>, j: nat, n: nat, s: Session)
    ensures HasName(es, j, n, s) ==> HasName(es, j, n + 1, s)
  {
    hide Named;
    if HasName(es, j, n, s) {
      var ver :| Named(es, j, n, ver, s.token) && (s.isTemp <==> ver == 3);
      Later(es, j, n, ver, s.token);
    }
  }

  /** What a step of another sort than a login's may do to a session. */
  predicate KeepsName(s: Session, s': Session) {
    && (s'.pc.LoginToken? ==> s.pc == s'.pc)
    && (SendsToken(s'.pc) ==> SendsToken(s.pc) && s.pc.ver == s'.pc.ver && s.pc.frame == s'.pc.frame)
    && (LoggedIn(s') ==> LoggedIn(s) && s'.token == s.token && s'.isTemp == s.isTemp)
    && (s'.ty.Null? && !AtLogin(s'.pc) ==> s.ty.Null? && !AtLogin(s.pc))
  }

  lemma NameStays(es: seq<Event>, j: nat, n: nat, s: Session, s': Session)
    requires NameOk(es, j, n, s) && KeepsName(s, s') && !LoginHeader(es, j, n)
    ensures NameOk(es, j, n + 1, s')
  {
    hide Named, ToldToLogIn, LoginHeader, HasName;
    if s'.pc.LoginToken? {
      Later(es, j, n, s.pc.ver, s.token);
    }
    if SendsToken(s'.pc) {
      Later(es, j, n, s.pc.ver, s.pc.frame.token);
    }
    if LoggedIn(s') {
      NameLater(es, j, n, s);
      SameName(es, j, n + 1, s, s');
    }
  }

  lemma SameName(es: seq<Event>, j: nat, n: nat, s: Session, s': Session)
    requires HasName(es, j, n, s) && s'.token == s.token && s'.isTemp == s.isTemp
    ensures HasName(es, j, n, s')
  {}

  // ------------------------------------------------------------- steps, one by one

  /** The step of another session. */
  lemma OthersKeep(st: State, e: Event, j: nat)
    requires Inv(st) && Enabled(st, e) && j < |st.ss| && (e.Accepted? || e.i != j)
    ensures j < |Step(st, e).ss| && KeepsName(st.ss[j], Step(st, e).ss[j])
  {
    hide Enabled, Step, Inv, LoggedBy;
    OthersWait(st, e, j);
    StepInv(st, e);
    LoggedIsOwn(st, e);
    assert Proceeds(st.ss[j], Step(st, e).ss[j]);
  }

  lemma LoggedIsOwn(st: State, e: Event)
    ensures LoggedBy(st, e) >= 0 ==> !e.Accepted? && LoggedBy(st, e) == e.i
  {}

  lemma HeaderNames(st: State, es: seq<Event>, n: nat)
    requires n < |es| && Inv(st) && Enabled(st, es[n]) && es[n].Header? && es[n].i < |st.ss|
    requires NameOk(es, es[n].i, n, st.ss[es[n].i])
    ensures es[n].i < |Step(st, es[n]).ss| && NameOk(es, es[n].i, n + 1, Step(st, es[n]).ss[es[n].i])
  {
    hide Inv, Step, Enabled, NameOk;
    var e := es[n];
    CommandMeans(st, e);
    assert st.ss[e.i].pc.Receiving? by { HeaderWaits(st, e); }
    var s, s' := st.ss[e.i], Step(st, e).ss[e.i];
    if e.cmd == 0 && s.ty.Null? {
      assert NoLogin(es, e.i, n) by { Unasked(es, e.i, n, s); }
      assert FirstLogin(es, e.i, n);
      LoginBegins(es, e.i, n, s, s');
    } else if e.cmd == 0 {
      LoginRepeated(es, e.i, n, s, s');
    } else {
      NameStays(es, e.i, n, s, s');
    }
  }

  lemma HeaderWaits(st: State, e: Event)
    requires Enabled(st, e) && e.Header?
    ensures st.ss[e.i].pc.Receiving?
  {}

  lemma Unasked(es: seq<Event>, j: nat, n: nat, s: Session)
    requires NameOk(es, j, n, s) && s.ty.Null? && s.pc.Receiving?
    ensures NoLogin(es, j, n)
  {}

  lemma LoginBegins(es: seq<Event>, j: nat, n: nat, s: Session, s': Session)
    requires FirstLogin(es, j, n) && s.ty.Null? && s'.ty == s.ty
    requires if es[n].ver != 1 then s'.pc == LoginToken(es[n].ver)
             else s'.pc == if es[n].allowed then Writing(j, TokenFrame(es[n].gen), 1, false, 0) else Rejecting(1500)
    ensures NameOk(es, j, n + 1, s')
  {
    if es[n].ver == 1 && es[n].allowed {
      assert NamedAt(es, j, n, n, es[n].gen);
    }
  }

  /** A second LOGIN ends the session; its name stays. */
  lemma LoginRepeated(es: seq<Event>, j: nat, n: nat, s: Session, s': Session)
    requires NameOk(es, j, n, s) && !s.ty.Null? && s' == s.(pc := Dead)
    ensures NameOk(es, j, n + 1, s')
  {
    hide Named;
    NameLater(es, j, n, s);
    if LoggedIn(s') {
      SameName(es, j, n + 1, s, s');
    }
  }

  lemma LoginNames(st: State, es: seq<Event>, n: nat)
    requires n < |es| && Inv(st) && Enabled(st, es[n]) && es[n].Login? && es[n].i < |st.ss|
    requires NameOk(es, es[n].i, n, st.ss[es[n].i])
    ensures es[n].i < |Step(st, es[n]).ss| && NameOk(es, es[n].i, n + 1, Step(st, es[n]).ss[es[n].i])
  {
    hide Inv, Step, Enabled, NameOk;
    var e := es[n];
    LoginMeans(st, e);
    var s := st.ss[e.i];
    assert s.ty.Null? by { TokenWaits(st, e.i); }
    var name := if exists k :: 0 <= k < 16 && e.mt[k] != 0 then e.mt else e.gen;
    assert GoesBy(e.mt, e.gen, name);
    assert (forall k :: 0 <= k < 16 ==> e.mt[k] == 0) || exists k :: 0 <= k < 16 && e.mt[k] != 0;
    LoginGoesBy(es, e.i, n, s, Step(st, e).ss[e.i], name);
  }

  lemma TokenWaits(st: State, i: nat)
    requires Inv(st) && i < |st.ss| && st.ss[i].pc.LoginToken?
    ensures st.ss[i].ty.Null?
  {
    assert PcOk(st.ss[i], i);
  }

  lemma LoginGoesBy(es: seq<Event>, j: nat, n: nat, s: Session, s': Session, name: Token)
    requires n < |es| && NameOk(es, j, n, s) && s.pc.LoginToken? && s.ty.Null? && es[n].Login? && es[n].i == j
    requires GoesBy(es[n].mt, es[n].gen, name) && s'.ty == s.ty
    requires s'.pc == if es[n].allowed then Writing(j, TokenFrame(name), s.pc.ver, false, 0) else Rejecting(1500)
    ensures NameOk(es, j, n + 1, s')
  {
    hide GoesBy, NoLogin;
    if es[n].allowed {
      var k :| 0 <= k < n && FirstLogin(es, j, k) && es[k].ver == s.pc.ver;
      assert NamedAt(es, j, k, n, name);
    }
  }

  lemma SenderNames(st: State, es: seq<Event>, n: nat)
    requires n < |es| && Inv(st) && Enabled(st, es[n]) && (es[n].Lock? || es[n].Send?) && es[n].i < |st.ss|
    requires NameOk(es, es[n].i, n, st.ss[es[n].i])
    ensures es[n].i < |Step(st, es[n]).ss| && NameOk(es, es[n].i, n + 1, Step(st, es[n]).ss[es[n].i])
  {
    hide Inv, Step, Enabled, NameOk;
    SenderGoesOn(st, es[n]);
    NameStays(es, es[n].i, n, st.ss[es[n].i], Step(st, es[n]).ss[es[n].i]);
  }

  lemma SenderGoesOn(st: State, e: Event)
    requires Enabled(st, e) && (e.Lock? || e.Send?)
    ensures e.i < |st.ss| == |Step(st, e).ss| && KeepsName(st.ss[e.i], Step(st, e).ss[e.i])
  {
    hide FindOk;
    var s, s' := st.ss[e.i], Step(st, e).ss[e.i];
    assert s.pc.Writing? && s'.pc.Writing? && s'.pc.frame == s.pc.frame && s'.pc.ver == s.pc.ver;
    assert s'.ty == s.ty && s'.token == s.token && s'.isTemp == s.isTemp;
  }

  lemma SendEndNames(st: State, es: seq<Event>, n: nat)
    requires n < |es| && Inv(st) && Enabled(st, es[n]) && es[n].SendEnd? && es[n].i < |st.ss|
    requires NameOk(es, es[n].i, n, st.ss[es[n].i])
    ensures es[n].i < |Step(st, es[n]).ss| && NameOk(es, es[n].i, n + 1, Step(st, es[n]).ss[es[n].i])
  {
    hide Inv, Step, NameOk;
    var e := es[n];
    var s := st.ss[e.i];
    SendEndMeans(st, e);
    if e.ok && s.pc.frame.TokenFrame? {
      SessionRuns.LoggedRegisters(st, e);
      SessionRuns.TokenOfFrame(st, e.i);
      Completes(es, e.i, n, s, Step(st, e).ss[e.i]);
    } else {
      SenderStops(st, e);
      NameStays(es, e.i, n, s, Step(st, e).ss[e.i]);
    }
  }

  lemma Completes(es: seq<Event>, j: nat, n: nat, s: Session, s': Session)
    requires NameOk(es, j, n, s) && SendsToken(s.pc) && s'.pc.Receiving? && s'.ty.Forward?
    requires s'.token == s.pc.frame.token && (s'.isTemp <==> s.pc.ver == 3)
    ensures NameOk(es, j, n + 1, s')
  {
    hide Named;
    Later(es, j, n, s.pc.ver, s'.token);
  }

  /** The end of a send that does not complete a login. */
  lemma SenderStops(st: State, e: Event)
    requires Inv(st) && Enabled(st, e) && e.SendEnd?
    requires e.i < |st.ss| && !(e.ok && st.ss[e.i].pc.frame.TokenFrame?)
    ensures e.i < |Step(st, e).ss| && KeepsName(st.ss[e.i], Step(st, e).ss[e.i])
  {
    hide SessionSafety.Safe, Continued, Released;
    assert PcOk(st.ss[e.i], e.i);
    EndedRoles(st, e.i, e.ok, e.i);
  }

  /** Steps that are not about logging in. */
  lemma OtherNames(st: State, e: Event)
    requires Inv(st) && Enabled(st, e) && WritesNothing(e) && !e.Header? && !e.Login? && e.i < |st.ss|
    ensures e.i < |Step(st, e).ss| && KeepsName(st.ss[e.i], Step(st, e).ss[e.i])
  {
    hide Inv, Step, NoneRegistered;
    match e
    case ShortRead(_) => CloserKeeps(st, e);
    case SpliceEnd(_) => CloserKeeps(st, e);
    case ConnectTo(_, _, _, _) => ConnectMeans(st, e);
    case AcceptOf(_, _, _) => SeekerKeeps(st, e);
    case Slept(_, _, _) =>
      if st.ss[e.i].pc.AwaitConnect? {
        SeekerKeeps(st, e);
      } else {
        WakeMeans(st, e);
      }
  }

  lemma CloserKeeps(st: State, e: Event)
    requires Enabled(st, e) && (e.ShortRead? || e.SpliceEnd?)
    ensures e.i < |st.ss| == |Step(st, e).ss| && KeepsName(st.ss[e.i], Step(st, e).ss[e.i])
  {}

  lemma SeekerKeeps(st: State, e: Event)
    requires Inv(st) && Enabled(st, e) && Seeks(st, e).Some? && !AtLogin(st.ss[e.i].pc)
    ensures e.i < |st.ss| && e.i < |Step(st, e).ss| && KeepsName(st.ss[e.i], Step(st, e).ss[e.i])
  {
    hide Inv, Step, Enabled, NoneRegistered, Claims, AtLogin;
    AcceptMeans(st, e);
    var (token, left) := Seeks(st, e).value;
    WaitsOutside(token, left);
    if left > 0 && !NoneRegistered(st.ss, Connect, token) {
      var c: Claim :| c.acceptor == e.i && c.token == token && Claims(st, Step(st, e), c);
      ClaimerKeeps(st, Step(st, e), c);
    } else if left == 0 {
      DeadKeeps(st.ss[e.i]);
    }
  }

  lemma WaitsOutside(token: Token, left: nat)
    ensures !AtLogin(AwaitConnect(token, left)) && AtLogin(Dead)
  {}

  lemma DeadKeeps(s: Session)
    ensures KeepsName(s, s.(pc := Dead))
  {}

  lemma ClaimerKeeps(st: State, st': State, c: Claim)
    requires Claims(st, st', c)
    ensures c.acceptor < |st.ss| && c.acceptor < |st'.ss| && KeepsName(st.ss[c.acceptor], st'.ss[c.acceptor])
  {}

  lemma StepNames(st: State, es: seq<Event>, n: nat, j: nat)
    requires n < |es| && Inv(st) && Enabled(st, es[n]) && j < |st.ss| && NameOk(es, j, n, st.ss[j])
    ensures j < |Step(st, es[n]).ss| && NameOk(es, j, n + 1, Step(st, es[n]).ss[j])
  {
    hide Inv, Step, Enabled, NameOk, KeepsName;
    var e := es[n];
    if e.Accepted? || e.i != j {
      OthersKeep(st, e, j);
      NameStays(es, j, n, st.ss[j], Step(st, e).ss[j]);
    } else if e.Header? {
      HeaderNames(st, es, n);
    } else if e.Login? {
      LoginNames(st, es, n);
    } else if e.SendEnd? {
      SendEndNames(st, es, n);
    } else if e.Lock? || e.Send? {
      SenderNames(st, es, n);
    } else {
      OtherNames(st, e);
      NameStays(es, j, n, st.ss[j], Step(st, e).ss[j]);
    }
  }

  lemma {:induction false} NamesKept(tr: seq<State>, es: seq<Event>, n: nat, j: nat)
    requires Run(tr, es) && n < |tr| && j < |tr[n].ss|
    ensures NameOk(es, j, n, tr[n].ss[j])
  {
    hide Enabled, Step, Inv, NameOk;
    if n > 0 {
      SessionRuns.RunInv(tr, es, n - 1);
      if j >= |tr[n - 1].ss| {
        Newcomers(tr[n - 1], es[n - 1], j);
        NotYetTaken(tr, es, n - 1, j);
        NewName(es, j, n, tr[n].ss[j]);
      } else {
        NamesKept(tr, es, n - 1, j);
        StepNames(tr[n - 1], es, n - 1, j);
      }
    }
  }

  lemma NewName(es: seq<Event>, j: nat, n: nat, s: Session)
    requires s.ty.Null? && s.pc.Receiving? && forall k :: 0 <= k < n ==> !TakenBy(es, j, k)
    ensures NameOk(es, j, n, s)
  {}

  /** In every run, a session that has logged in goes by the name of its first and
      only login, which was allowed: the 16 bytes that the peer presented, unless
      all are zero, and else, or for version 1, a generated token. The name is
      temporary exactly for version 3. */
  lemma NamesOfRuns(tr: seq<State>, es: seq<Event>, n: nat, j: nat) returns (k: nat, l: nat)
    requires Run(tr, es) && n < |tr| && j < |tr[n].ss| && LoggedIn(tr[n].ss[j])
    ensures k <= l < n && FirstLogin(es, j, k) && NamedAt(es, j, k, l, tr[n].ss[j].token)
    ensures tr[n].ss[j].isTemp <==> es[k].ver == 3
  {
    hide Enabled, Step, Inv, NamedAt, FirstLogin;
    NamesKept(tr, es, n, j);
    k, l := NamedIn(es, j, n, tr[n].ss[j]);
  }

  lemma NamedIn(es: seq<Event>, j: nat, n: nat, s: Session) returns (k: nat, l: nat)
    requires HasName(es, j, n, s)
    ensures k <= l < n && FirstLogin(es, j, k) && NamedAt(es, j, k, l, s.token) && (s.isTemp <==> es[k].ver == 3)
  {
    hide GoesBy, NoLogin;
    var ver :| Named(es, j, n, ver, s.token) && (s.isTemp <==> ver == 3);
    var k', l' :| k' <= l' < n && NamedAt(es, j, k', l', s.token) && es[k'].ver == ver;
    k, l := k', l';
  }
}
