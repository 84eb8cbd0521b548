/** Theorems about whole runs of the rendezvous server. */
module SessionRuns {
  import opened Bytes
  import opened Frames
  import opened SessionModel
  import opened SessionInvariants
  import SessionIndex
  import opened SessionSafety
  import opened SessionSteps

  lemma {:induction false} RunInv(tr: seq<State>, es: seq<Event>, n: nat)
    requires Run(tr, es) && n < |tr|
    ensures Inv(tr[n])
  {
    hide Enabled, Step;
    if n == 0 {
      InitInv();
    } else {
      RunInv(tr, es, n - 1);
      StepInv(tr[n - 1], es[n - 1]);
    }
  }

  /** How often x stands in the index. */
  function Times(order: seq<nat>, x: nat): nat {
    if order == [] then 0 else (if order[0] == x then 1 else 0) + Times(order[1..], x)
  }

  lemma {:induction false} TimesOnce(ss: seq<Session>, order: seq<nat>, x: nat)
    requires SessionIndex.Sorted(ss, order)
    ensures Times(order, x) == if x in order then 1 else 0
  {
    if order != [] {
      SessionIndex.SortedSplit(ss, order, 1);
      TimesOnce(ss, order[1..], x);
    }
  }

  /** In every run and at every yield, a session is linked exactly once if it is
      alive and its `is_mgr` is set, and not at all otherwise; and the index is
      ordered by (type, token). */
  lemma IndexOfRuns(tr: seq<State>, es: seq<Event>, n: nat)
    requires Run(tr, es) && n < |tr|
    ensures forall x :: 0 <= x < |tr[n].ss| ==>
              Times(tr[n].order, x) == if Linked(tr[n].ss[x]) then 1 else 0
    ensures forall a, b :: 0 <= a < b < |tr[n].order| ==> SessionIndex.Before(tr[n].ss, tr[n].order[a], tr[n].order[b])
  {
    hide Enabled, Step;
    RunInv(tr, es, n);
    forall x | 0 <= x < |tr[n].ss|
      ensures Times(tr[n].order, x) == if Linked(tr[n].ss[x]) then 1 else 0
    {
      TimesOnce(tr[n].ss, tr[n].order, x);
    }
  }

  /** In every run each accepted socket is owned by exactly one live session, in
      one of its two fields, or has been closed, exactly once: never neither,
      never both. */
  lemma SocketsOfRuns(tr: seq<State>, es: seq<Event>, n: nat, fd: int)
    requires Run(tr, es) && n < |tr| && fd in tr[n].accepted
    ensures tr[n].closed[fd] == if Owned(tr[n].ss, fd) then 0 else 1
    ensures forall i, j ::
              0 <= i < |tr[n].ss| && 0 <= j < |tr[n].ss| && Owns(tr[n].ss[i], fd) && Owns(tr[n].ss[j], fd) ==>
              i == j
    ensures forall i :: 0 <= i < |tr[n].ss| && Owns(tr[n].ss[i], fd) ==>
              (tr[n].ss[i].clientFd == fd) != (tr[n].ss[i].remoteFd == fd)
  {
    hide Enabled, Step;
    RunInv(tr, es, n);
    assert Accounted(tr[n], fd);
    forall i | 0 <= i < |tr[n].ss| && Owns(tr[n].ss[i], fd)
      ensures (tr[n].ss[i].clientFd == fd) != (tr[n].ss[i].remoteFd == fd)
    {
      assert HeldOnce(tr[n].ss[i]);
    }
  }

  /** In every run the claims made so far pair distinct connectors with distinct
      acceptors, each pair under the token that the acceptor presented and the
      connector was registered with; the connector holds the acceptor's socket. */
  lemma ClaimsOfRuns(tr: seq<State>, es: seq<Event>, n: nat, p: nat)
    requires Run(tr, es) && n < |tr| && p < |tr[n].claims|
    ensures ClaimOk(tr[n], tr[n].claims[p])
    ensures forall q :: 0 <= q < |tr[n].claims| && q != p ==>
              tr[n].claims[q].connector != tr[n].claims[p].connector
              && tr[n].claims[q].acceptor != tr[n].claims[p].acceptor
  {
    hide Enabled, Step;
    RunInv(tr, es, n);
    forall q | 0 <= q < |tr[n].claims| && q != p ensures Distinct(tr[n].claims[q], tr[n].claims[p]) {
      assert if q < p then Distinct(tr[n].claims[q], tr[n].claims[p]) else Distinct(tr[n].claims[p], tr[n].claims[q]);
    }
  }

  /** Session j has this type in some state between m and n. */
  ghost predicate TypedBetween(tr: seq<State>, j: nat, ty: Type, m: int, n: nat) {
    exists k :: m < k < n && TypedAt(tr, j, ty, k)
  }

  predicate TypedAt(tr: seq<State>, j: nat, ty: Type, k: int) {
    0 <= k < |tr| && j < |tr[k].ss| && tr[k].ss[j].ty == ty
  }

  lemma TypedBefore(tr: seq<State>, j: nat, ty: Type, m: int, n: nat)
    requires n > 0 && (TypedBetween(tr, j, ty, m, n - 1) || (m < n - 1 && TypedAt(tr, j, ty, n - 1)))
    ensures TypedBetween(tr, j, ty, m, n)
  {}

  /** Step k moves the type of session j by one move at most. */
  predicate MovesAt(tr: seq<State>, j: nat, k: int) {
    0 <= k < |tr| - 1 && j < |tr[k].ss| && j < |tr[k + 1].ss| && TypeMoves(tr[k].ss[j].ty, tr[k + 1].ss[j].ty)
  }

  lemma {:induction false} MovesOfRuns(tr: seq<State>, es: seq<Event>, m: nat, n: nat, j: nat)
    requires Run(tr, es) && m <= n < |tr| && j < |tr[m].ss|
    ensures j < |tr[n].ss| && forall k :: m <= k < n ==> MovesAt(tr, j, k)
  {
    hide Enabled, Step, Inv, TypeMoves;
    if m < n {
      MovesOfRuns(tr, es, m, n - 1, j);
      RunInv(tr, es, n - 1);
      StepMoves(tr[n - 1], es[n - 1], j);
      assert MovesAt(tr, j, n - 1);
    }
  }

  /** By single moves, CLOSED and SPLICE are reached only through FORWARD and CONNECT. */
  lemma {:induction false} MovesThrough(tr: seq<State>, m: nat, n: nat, j: nat)
    requires m <= n < |tr| && j < |tr[m].ss| && j < |tr[n].ss| && tr[m].ss[j].ty.Null?
    requires forall k :: m <= k < n ==> MovesAt(tr, j, k)
    ensures tr[n].ss[j].ty.Closed? ==> TypedBetween(tr, j, Forward, m, n)
    ensures tr[n].ss[j].ty.Splice? ==> TypedBetween(tr, j, Connect, m, n)
  {
    hide TypedBetween;
    if m < n {
      assert MovesAt(tr, j, n - 1);
      MovesThrough(tr, m, n - 1, j);
      if tr[n].ss[j].ty.Closed? {
        TypedBefore(tr, j, Forward, m, n);
      } else if tr[n].ss[j].ty.Splice? {
        TypedBefore(tr, j, Connect, m, n);
      }
    }
  }

  lemma {:induction false} EvolvesOverRuns(tr: seq<State>, es: seq<Event>, m: nat, n: nat, j: nat)
    requires Run(tr, es) && m <= n < |tr| && j < |tr[m].ss|
    ensures j < |tr[n].ss| && Evolves(tr[m].ss[j], tr[n].ss[j])
  {
    hide Enabled, Step, Inv;
    if m < n {
      EvolvesOverRuns(tr, es, m, n - 1, j);
      RunInv(tr, es, n - 1);
      StepInv(tr[n - 1], es[n - 1]);
      EvolvesThrough(tr[m].ss[j], tr[n - 1].ss[j], tr[n].ss[j]);
    }
  }

  /** In every run, over any stretch of it: every step moves the type of a session
      by one move of NULL -> FORWARD -> CLOSED or NULL -> CONNECT -> SPLICE at most,
      so that one that was NULL and is CLOSED has been FORWARD in between, and one
      that was NULL and is SPLICE has been CONNECT; a name given with a type is
      kept, and the dead stay dead. */
  lemma TypesOfRuns(tr: seq<State>, es: seq<Event>, m: nat, n: nat, j: nat)
    requires Run(tr, es) && m <= n < |tr| && j < |tr[m].ss|
    ensures j < |tr[n].ss| && Evolves(tr[m].ss[j], tr[n].ss[j])
    ensures forall k :: m <= k < n ==> MovesAt(tr, j, k)
    ensures tr[m].ss[j].ty.Null? && tr[n].ss[j].ty.Closed? ==> TypedBetween(tr, j, Forward, m, n)
    ensures tr[m].ss[j].ty.Null? && tr[n].ss[j].ty.Splice? ==> TypedBetween(tr, j, Connect, m, n)
  {
    hide Enabled, Step, Evolves, MovesAt, TypedBetween;
    EvolvesOverRuns(tr, es, m, n, j);
    MovesOfRuns(tr, es, m, n, j);
    if tr[m].ss[j].ty.Null? {
      MovesThrough(tr, m, n, j);
    }
  }

  /** Seen from the end: a type has come about by its one way from NULL, in which
      every session arrives. */
  lemma {:induction false} TypesArise(tr: seq<State>, es: seq<Event>, n: nat, j: nat)
    requires Run(tr, es) && n < |tr| && j < |tr[n].ss|
    ensures tr[n].ss[j].ty.Closed? ==> TypedBetween(tr, j, Forward, -1, n)
    ensures tr[n].ss[j].ty.Splice? ==> TypedBetween(tr, j, Connect, -1, n)
    ensures tr[n].ss[j].ty.Forward? || tr[n].ss[j].ty.Connect? ==> TypedBetween(tr, j, Null, -1, n)
  {
    hide Enabled, Step, Inv, TypedBetween;
    if n > 0 {
      RunInv(tr, es, n - 1);
      if j < |tr[n - 1].ss| {
        TypesArise(tr, es, n - 1, j);
        StepMoves(tr[n - 1], es[n - 1], j);
        var ty := tr[n].ss[j].ty;
        if !ty.Null? {
          TypedBefore(tr, j, if ty.Closed? then Forward else if ty.Splice? then Connect else Null, -1, n);
        }
      } else {
        Newcomers(tr[n - 1], es[n - 1], j);
      }
    }
  }

  // ------------------------------------------------- one FORWARD per token

  predicate Forwards(s: Session, token: Token) {
    Linked(s) && s.ty.Forward? && s.token == token
  }

  ghost predicate UniqueForwards(st: State) {
    forall x, y ::
      0 <= x < |st.ss| && 0 <= y < |st.ss|
      && Forwards(st.ss[x], st.ss[x].token) && Forwards(st.ss[y], st.ss[x].token) ==>
      x == y
  }

  /** A login that registers although its token is taken again. */
  ghost predicate Collides(st: State, e: Event) {
    LoggedBy(st, e) >= 0
    && exists y :: 0 <= y < |st.ss| && Forwards(st.ss[y], st.ss[LoggedBy(st, e)].token)
  }

  lemma RegisteredBy(st: State, i: nat)
    requires i < |st.ss| == |st.hs| && PcOk(st.ss[i], i) && st.ss[i].pc.Writing? && st.ss[i].pc.frame.TokenFrame?
    ensures var st' := Continued(Released(st, i), i, true);
            && |st'.ss| == |st.ss| && Forwards(st'.ss[i], st.ss[i].token)
            && forall j :: 0 <= j < |st.ss| && j != i ==> st'.ss[j] == st.ss[j]
  {}

  lemma LoggedRegisters(st: State, e: Event)
    requires Inv(st) && Enabled(st, e) && LoggedBy(st, e) >= 0
    ensures |Step(st, e).ss| == |st.ss| && Unnamed(st.ss[e.i])
    ensures Forwards(Step(st, e).ss[e.i], st.ss[e.i].token)
    ensures forall j :: 0 <= j < |st.ss| && j != e.i ==> Step(st, e).ss[j] == st.ss[j]
  {
    hide Continued, Released;
    assert PcOk(st.ss[e.i], e.i);
    RegisteredBy(st, e.i);
  }

  /** Every FORWARD that is indexed after a step, except the one the step logs
      in, was indexed before it, under the same token. */
  lemma ForwardsStay(st: State, e: Event, x: nat, token: Token)
    requires Inv(st) && Enabled(st, e) && x < |Step(st, e).ss| && x != LoggedBy(st, e)
    requires Forwards(Step(st, e).ss[x], token)
    ensures x < |st.ss| && Forwards(st.ss[x], token)
  {
    hide Enabled, Step, Safe, LocksOk, Silent;
    StepInv(st, e);
    assert x < |st.ss| && Proceeds(st.ss[x], Step(st, e).ss[x]);
    assert PcOk(st.ss[x], x) && PcOk(Step(st, e).ss[x], x);
    ForwardLinked(st.ss[x], x);
  }

  lemma ForwardLinked(s: Session, x: nat)
    requires PcOk(s, x) && s.ty.Forward? && !s.pc.Dead?
    ensures Linked(s)
  {}

  /** A step leaves one FORWARD per token exactly when it does not register a
      login whose token has been taken since its lookup. */
  lemma UniqueStep(st: State, e: Event)
    requires Inv(st) && Enabled(st, e) && UniqueForwards(st)
    ensures UniqueForwards(Step(st, e)) <==> !Collides(st, e)
  {
    hide Enabled, Step, Inv;
    if Collides(st, e) {
      CollisionRemains(st, e);
    } else {
      var st' := Step(st, e);
      forall x, y | 0 <= x < |st'.ss| && 0 <= y < |st'.ss| && Forwards(st'.ss[x], st'.ss[x].token)
                    && Forwards(st'.ss[y], st'.ss[x].token)
        ensures x == y
      {
        UniquePair(st, e, x, y, st'.ss[x].token);
      }
    }
  }

  lemma CollisionRemains(st: State, e: Event)
    requires Inv(st) && Enabled(st, e) && Collides(st, e)
    ensures !UniqueForwards(Step(st, e))
  {
    hide Step, Inv;
    var st', token := Step(st, e), st.ss[e.i].token;
    var y :| 0 <= y < |st.ss| && Forwards(st.ss[y], token);
    LoggedRegisters(st, e);
    assert y != e.i && Forwards(st'.ss[y], token) && Forwards(st'.ss[e.i], token);
  }

  lemma UniquePair(st: State, e: Event, x: nat, y: nat, token: Token)
    requires Inv(st) && Enabled(st, e) && UniqueForwards(st) && !Collides(st, e)
    requires x < |Step(st, e).ss| && y < |Step(st, e).ss|
    requires Forwards(Step(st, e).ss[x], token) && Forwards(Step(st, e).ss[y], token)
    ensures x == y
  {
    hide Enabled, Step, Inv;
    var z := LoggedBy(st, e);
    if z >= 0 {
      LoggedRegisters(st, e);
    }
    if x != z {
      ForwardsStay(st, e, x, token);
    }
    if y != z {
      ForwardsStay(st, e, y, token);
    }
  }

  lemma UniqueInRun(tr: seq<State>, es: seq<Event>)
    requires Run(tr, es)
    ensures UniqueForwards(tr[0])
    ensures forall k :: 0 <= k < |es| && UniqueForwards(tr[k]) ==>
              (UniqueForwards(tr[k + 1]) <==> !Collides(tr[k], es[k]))
  {
    hide Enabled, Step, Inv;
    forall k | 0 <= k < |es| && UniqueForwards(tr[k])
      ensures UniqueForwards(tr[k + 1]) <==> !Collides(tr[k], es[k])
    {
      RunInv(tr, es, k);
      UniqueStep(tr[k], es[k]);
    }
  }

  /** Over whole runs: each token has at most one indexed FORWARD in every state
      if and only if no login ever registers a token that is taken again. */
  lemma UniqueForwardsIffNoCollision(tr: seq<State>, es: seq<Event>)
    requires Run(tr, es)
    ensures (forall k :: 0 <= k < |tr| ==> UniqueForwards(tr[k]))
            <==> (forall k :: 0 <= k < |es| ==> !Collides(tr[k], es[k]))
  {
    hide Enabled, Step, Collides, UniqueForwards;
    UniqueInRun(tr, es);
    if forall k :: 0 <= k < |es| ==> !Collides(tr[k], es[k]) {
      forall k | 0 <= k < |tr| ensures UniqueForwards(tr[k]) {
        UniqueUpTo(tr, es, k);
      }
    } else {
      var k :| 0 <= k < |es| && Collides(tr[k], es[k]);
      assert !(UniqueForwards(tr[k]) && UniqueForwards(tr[k + 1]));
    }
  }

  lemma {:induction false} UniqueUpTo(tr: seq<State>, es: seq<Event>, n: nat)
    requires |tr| == |es| + 1 && n < |tr| && UniqueForwards(tr[0])
    requires forall k :: 0 <= k < |es| && UniqueForwards(tr[k]) ==> UniqueForwards(tr[k + 1])
    ensures UniqueForwards(tr[n])
  {
    hide UniqueForwards;
    if n > 0 {
      UniqueUpTo(tr, es, n - 1);
    }
  }

  // -------------------------------------------- the same, as a matter of schedule

  /** Task i is between login's lookup and its registration. */
  predicate LoggingIn(st: State, i: nat) {
    i < |st.ss| && st.ss[i].pc.Writing? && st.ss[i].pc.frame.TokenFrame?
  }

  /** While i is between its lookup and its registration, y registers the token
      that i has looked up. */
  ghost predicate Overtakes(st: State, e: Event, y: nat, i: nat) {
    LoggedBy(st, e) == y && y != i && LoggingIn(st, i) && st.ss[y].token == st.ss[i].token
  }

  /** Step k registers a login that was overtaken in step m by one that is still
      indexed. */
  ghost predicate Overtaken(tr: seq<State>, es: seq<Event>, m: nat, k: nat)
    requires Run(tr, es)
  {
    && m < k < |es| && LoggedBy(tr[k], es[k]) >= 0 && LoggedBy(tr[m], es[m]) >= 0
    && var i, y := LoggedBy(tr[k], es[k]), LoggedBy(tr[m], es[m]);
       Overtakes(tr[m], es[m], y, i) && y < |tr[k].ss| && Forwards(tr[k].ss[y], tr[k].ss[i].token)
  }

  /** No indexed FORWARD has the token of session i. */
  ghost predicate FreeFor(ss: seq<Session>, i: nat) {
    i < |ss| && forall y :: 0 <= y < |ss| ==> !Forwards(ss[y], ss[i].token)
  }

  /** After its lookup, and eviction, the token of a login is free. */
  lemma LookupFrees(st: State, i: nat, ver: Byte, token: Token, found: Option<nat>)
    requires PcsOk(st.ss) && IndexOk(st) && UniqueForwards(st) && i < |st.ss| && Unnamed(st.ss[i])
    requires FindOk(st, Key(Forward, token), found)
    ensures FreeFor(LoginLookup(st, i, ver, token, true, found).ss, i)
  {}

  lemma HeaderFrees(st: State, i: nat, gen: Token, found: Option<nat>)
    requires Inv(st) && UniqueForwards(st) && i < |st.ss| == |st.hs|
    requires st.ss[i].pc.Receiving? && st.ss[i].ty.Null? && FindOk(st, Key(Forward, gen), found)
    ensures FreeFor(Dispatch(Noted(st, i, CMD_LOGIN), i, 1, CMD_LOGIN, gen, true, found).ss, i)
  {
    hide LoginLookup, FreeFor;
    assert PcOk(st.ss[i], i);
    LookupFrees(Noted(st, i, CMD_LOGIN), i, 1, gen, found);
  }

  /** Only a lookup makes a task be logging in, and it leaves the token free. */
  lemma LoggingInStarts(st: State, e: Event, i: nat)
    requires Inv(st) && Enabled(st, e) && LoggingIn(Step(st, e), i) && !LoggingIn(st, i)
    ensures !e.Accepted? && e.i == i && i < |st.ss|
    ensures e.Header? ==> LooksUp(st, i, e.ver, e.cmd, e.allowed)
    ensures e.Header? || (e.Login? && e.allowed)
  {
    hide Inv, Enabled, Step;
    if i >= |st.ss| {
      Newcomers(st, e, i);
    } else if e.Accepted? || e.i != i {
      OthersWait(st, e, i);
    } else {
      StarterTask(st, e);
    }
  }

  lemma StarterTask(st: State, e: Event)
    requires Inv(st) && Enabled(st, e) && !e.Accepted? && LoggingIn(Step(st, e), e.i) && !LoggingIn(st, e.i)
    ensures e.i < |st.ss| && (e.Header? ==> LooksUp(st, e.i, e.ver, e.cmd, e.allowed))
    ensures e.Header? || (e.Login? && e.allowed)
  {
    hide Inv, LoginLookup;
    match e
    case Header(i, ver, cmd, gen, allowed, found) => HeaderTask(st, i, ver, cmd, gen, allowed, found);
    case Login(i, mt, gen, allowed, found) =>
      LoginLookupTask(st, i, st.ss[i].pc.ver, LoginName(mt, gen), allowed, found);
    case ConnectTo(_, _, _, _) =>
    case Lock(_) => WriterStarts(st, e);
    case Send(_, _) => WriterStarts(st, e);
    case SendEnd(i, ok) => WriterStarts(st, e);
    case _ => WaiterTask(st, e);
  }

  lemma HeaderTask(st: State, i: nat, ver: Byte, cmd: Byte, gen: Token, allowed: bool, found: Option<nat>)
    requires i < |st.ss| == |st.hs| && (found.Some? ==> found.value < |st.ss|) && st.ss[i].pc.Receiving?
    requires LoggingIn(Dispatch(Noted(st, i, cmd), i, ver, cmd, gen, allowed, found), i)
    ensures LooksUp(st, i, ver, cmd, allowed)
  {
    hide Dispatch;
    DispatchTask(Noted(st, i, cmd), i, ver, cmd, gen, allowed, found);
  }

  /** The steps of a send keep the frame, and end with the task not writing. */
  lemma WriterStarts(st: State, e: Event)
    requires Inv(st) && Enabled(st, e) && (e.Lock? || e.Send? || e.SendEnd?)
    ensures e.i < |st.ss| && st.ss[e.i].pc.Writing? && e.i < |Step(st, e).ss|
    ensures Step(st, e).ss[e.i].pc.Writing? ==> !e.SendEnd? && Step(st, e).ss[e.i].pc.frame == st.ss[e.i].pc.frame
  {
    hide Continued, Released, Safe;
    if e.SendEnd? {
      EndedTasks(st, e.i, e.ok, e.i);
    }
  }

  lemma LookupFreesToken(st: State, e: Event)
    requires Inv(st) && Enabled(st, e) && UniqueForwards(st)
    requires (e.Header? && LooksUp(st, e.i, e.ver, e.cmd, e.allowed)) || (e.Login? && e.allowed)
    ensures FreeFor(Step(st, e).ss, e.i)
  {
    hide FreeFor, LoginLookup, Dispatch;
    match e
    case Header(i, ver, cmd, gen, allowed, found) => HeaderFrees(st, i, gen, found);
    case Login(i, mt, gen, allowed, found) =>
      assert PcOk(st.ss[i], i);
      LookupFrees(st, i, st.ss[i].pc.ver, LoginName(mt, gen), found);
  }

  /** A login under way keeps its token, and has not been the one to register. */
  lemma LoggingInStays(st: State, e: Event, i: nat)
    requires Inv(st) && Enabled(st, e) && LoggingIn(st, i) && LoggingIn(Step(st, e), i)
    ensures LoggedBy(st, e) != i && Step(st, e).ss[i].token == st.ss[i].token
  {
    hide Enabled, Step, Inv;
    StepInv(st, e);
    if e.Accepted? || e.i != i {
      OthersWait(st, e, i);
    } else {
      OwnFrame(st, e);
    }
    TokenOfFrame(st, i);
    TokenOfFrame(Step(st, e), i);
  }

  lemma TokenOfFrame(st: State, i: nat)
    requires Inv(st) && LoggingIn(st, i)
    ensures st.ss[i].token == st.ss[i].pc.frame.token
  {
    assert PcOk(st.ss[i], i);
  }

  lemma OwnFrame(st: State, e: Event)
    requires Inv(st) && Enabled(st, e) && !e.Accepted? && LoggingIn(st, e.i) && LoggingIn(Step(st, e), e.i)
    ensures !e.SendEnd? && Step(st, e).ss[e.i].pc.frame == st.ss[e.i].pc.frame
  {
    hide Step, Inv;
    WriterStarts(st, e);
  }

  /** If the token of a login under way is taken, then somebody has overtaken it. */
  lemma {:induction false} TakenSince(tr: seq<State>, es: seq<Event>, n: nat, i: nat, y: nat)
    returns (m: nat)
    requires Run(tr, es) && n < |tr| && forall k :: 0 <= k < n ==> UniqueForwards(tr[k])
    requires LoggingIn(tr[n], i) && y < |tr[n].ss| && Forwards(tr[n].ss[y], tr[n].ss[i].token)
    ensures m < n && Overtakes(tr[m], es[m], y, i)
  {
    hide Enabled, Step, Inv, UniqueForwards, Forwards, LoggedBy;
    var st, e := tr[n - 1], es[n - 1];
    RunInv(tr, es, n - 1);
    if !LoggingIn(st, i) {
      LoggingInStarts(st, e, i);
      LookupFreesToken(st, e);
      assert false;
    } else {
      LoggingInStays(st, e, i);
      if LoggedBy(st, e) == y {
        OvertakenNow(st, e, y, i);
        m := n - 1;
      } else {
        ForwardsStay(st, e, y, tr[n].ss[i].token);
        m := TakenSince(tr, es, n - 1, i, y);
      }
    }
  }

  lemma OvertakenNow(st: State, e: Event, y: nat, i: nat)
    requires Inv(st) && Enabled(st, e) && LoggedBy(st, e) == y != i && LoggingIn(st, i)
    requires y < |Step(st, e).ss| && Forwards(Step(st, e).ss[y], st.ss[i].token)
    ensures Overtakes(st, e, y, i)
  {
    hide Step, Inv;
    LoggedRegisters(st, e);
  }

  lemma OvertakenCollides(tr: seq<State>, es: seq<Event>, m: nat, k: nat)
    requires Run(tr, es) && Overtaken(tr, es, m, k)
    ensures Collides(tr[k], es[k])
  {
    hide Enabled, Step;
  }

  lemma CollidesOvertaken(tr: seq<State>, es: seq<Event>, k: nat)
    requires Run(tr, es) && k < |es| && Collides(tr[k], es[k])
    requires forall j :: 0 <= j < k ==> UniqueForwards(tr[j])
    ensures exists m: nat :: Overtaken(tr, es, m, k)
  {
    hide Enabled, Step, UniqueForwards;
    var i := LoggedBy(tr[k], es[k]);
    var y :| 0 <= y < |tr[k].ss| && Forwards(tr[k].ss[y], tr[k].ss[i].token);
    var m := TakenSince(tr, es, k, i, y);
    assert Overtaken(tr, es, m, k);
  }

  lemma {:induction false} UniqueUnlessOvertaken(tr: seq<State>, es: seq<Event>, n: nat)
    requires Run(tr, es) && n < |tr| && forall m: nat, k: nat :: !Overtaken(tr, es, m, k)
    ensures forall j :: 0 <= j <= n ==> UniqueForwards(tr[j])
  {
    hide Enabled, Step, UniqueForwards, Overtaken, Collides;
    UniqueInRun(tr, es);
    if n > 0 {
      UniqueUnlessOvertaken(tr, es, n - 1);
      if Collides(tr[n - 1], es[n - 1]) {
        CollidesOvertaken(tr, es, n - 1);
        assert false;
      }
    }
  }

  /** Over whole runs: each token has at most one indexed FORWARD in every state
      if and only if no login registers that was overtaken between its lookup and
      its registration, by another under the same token that is still indexed. */
  lemma UniqueForwardsIffNotOvertaken(tr: seq<State>, es: seq<Event>)
    requires Run(tr, es)
    ensures (forall k :: 0 <= k < |tr| ==> UniqueForwards(tr[k]))
            <==> (forall m: nat, k: nat :: !Overtaken(tr, es, m, k))
  {
    hide Enabled, Step, UniqueForwards, Overtaken, Collides;
    if forall m: nat, k: nat :: !Overtaken(tr, es, m, k) {
      UniqueUnlessOvertaken(tr, es, |es|);
    } else {
      var m: nat, k: nat :| Overtaken(tr, es, m, k);
      assert k < |es| by { OvertakenLater(tr, es, m, k); }
      OvertakenCollides(tr, es, m, k);
      UniqueForwardsIffNoCollision(tr, es);
    }
  }

  lemma OvertakenLater(tr: seq<State>, es: seq<Event>, m: nat, k: nat)
    requires Run(tr, es) && Overtaken(tr, es, m, k)
    ensures m < k < |es|
  {
    hide Enabled, Step;
  }

  /** No other task runs between a login's lookup and its registration. */
  ghost predicate Undisturbed(tr: seq<State>, es: seq<Event>)
    requires Run(tr, es)
  {
    forall k: nat, i: nat :: k < |es| && LoggingIn(tr[k], i) ==> !es[k].Accepted? && es[k].i == i
  }

  /** The token of every login under way is free. */
  ghost predicate TokensFree(st: State) {
    forall i: nat, y: nat :: LoggingIn(st, i) && y < |st.ss| ==> !Forwards(st.ss[y], st.ss[i].token)
  }

  lemma UndisturbedNotOvertaken(tr: seq<State>, es: seq<Event>, m: nat, y: nat, i: nat)
    requires Run(tr, es) && Undisturbed(tr, es) && m < |es|
    ensures !Overtakes(tr[m], es[m], y, i)
  {
    hide Enabled, Step;
  }

  lemma UndisturbedUnique(tr: seq<State>, es: seq<Event>)
    requires Run(tr, es) && Undisturbed(tr, es)
    ensures forall k :: 0 <= k < |tr| ==> UniqueForwards(tr[k])
  {
    hide Enabled, Step, UniqueForwards;
    forall m: nat, k: nat ensures !Overtaken(tr, es, m, k) {
      if Overtaken(tr, es, m, k) {
        UndisturbedNotOvertaken(tr, es, m, LoggedBy(tr[m], es[m]), LoggedBy(tr[k], es[k]));
      }
    }
    UniqueForwardsIffNotOvertaken(tr, es);
  }

  /** When no other task runs within a login's lookup, reply and registration,
      every token has at most one indexed FORWARD, and a login that has just
      completed is the one that is found under its token. */
  lemma UndisturbedLoginsAreUnique(tr: seq<State>, es: seq<Event>, n: nat)
    requires Run(tr, es) && Undisturbed(tr, es) && n < |tr|
    ensures UniqueForwards(tr[n]) && TokensFree(tr[n])
    ensures n > 0 && LoggedBy(tr[n - 1], es[n - 1]) >= 0 ==>
              var i := LoggedBy(tr[n - 1], es[n - 1]);
              Forwards(tr[n].ss[i], tr[n].ss[i].token)
              && forall found: Option<nat> :: FindOk(tr[n], Key(Forward, tr[n].ss[i].token), found) ==> found == Some(i)
  {
    hide Enabled, Step, UniqueForwards, FindOk;
    UndisturbedUnique(tr, es);
    forall i: nat, y: nat | LoggingIn(tr[n], i) && y < |tr[n].ss| ensures !Forwards(tr[n].ss[y], tr[n].ss[i].token) {
      if Forwards(tr[n].ss[y], tr[n].ss[i].token) {
        var m := TakenSince(tr, es, n, i, y);
        UndisturbedNotOvertaken(tr, es, m, y, i);
      }
    }
    if n > 0 && LoggedBy(tr[n - 1], es[n - 1]) >= 0 {
      RunInv(tr, es, n - 1);
      RunInv(tr, es, n);
      LoggedRegisters(tr[n - 1], es[n - 1]);
      NewestIsFound(tr[n], es[n - 1].i);
    }
  }

  lemma NewestIsFound(st: State, i: nat)
    requires IndexOk(st) && UniqueForwards(st) && i < |st.ss| && Forwards(st.ss[i], st.ss[i].token)
    ensures forall found: Option<nat> :: FindOk(st, Key(Forward, st.ss[i].token), found) ==> found == Some(i)
  {
    forall found: Option<nat> | FindOk(st, Key(Forward, st.ss[i].token), found) ensures found == Some(i) {
      assert i in st.order;
      if found.Some? {
        assert Forwards(st.ss[found.value], st.ss[i].token);
      }
    }
  }
}
