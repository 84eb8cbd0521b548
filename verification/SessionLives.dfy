/** From arrival to death, over whole runs: what a session arrives with, why it
    ends, how long an acceptor waits, and which KEEP_ALIVEs are answered. */
module SessionLives {
  import opened Bytes
  import opened SessionModel
  import opened SessionInvariants
  import opened SessionSteps
  import opened SessionTasks
  import SessionPairs
  import SessionRuns

  /** Step k is one of session j. */
  predicate TakenBy(es: seq<Event>, j: nat, k: int) {
    0 <= k < |es| && !es[k].Accepted? && es[k].i == j
  }

  // ------------------------------------------------------------------------ ends

  /** Why a session ends: its peer is gone or sends a command that is unknown, or
      one that a session with a type may not send; a refused peer has waited for its
      delay; accept has found a connector or has no time left; a send has failed; a
      splice is over. */
  ghost predicate Ends(st: State, e: Event) {
    match e
    case ShortRead(_) => true
    case SpliceEnd(_) => true
    case SendEnd(_, ok) => !ok
    case Header(i, _, cmd, _, _, _) =>
      cmd == 1 || cmd > 4 || ((cmd == 0 || cmd == 3) && i < |st.ss| && !st.ss[i].ty.Null?)
    case AcceptOf(_, _, _) => SeekEnds(st, e)
    case Slept(i, left, _) => if i < |st.ss| && st.ss[i].pc.Rejecting? then left == 0 else SeekEnds(st, e)
    case _ => false
  }

  ghost predicate SeekEnds(st: State, e: Event) {
    var seeks := Seeks(st, e);
    seeks.Some? && (seeks.value.1 == 0 || !NoneRegistered(st.ss, Connect, seeks.value.0))
  }

  lemma SeekerEnds(st: State, e: Event)
    requires Inv(st) && Enabled(st, e) && Seeks(st, e).Some?
    ensures e.i < |Step(st, e).ss| && (Step(st, e).ss[e.i].pc.Dead? <==> SeekEnds(st, e))
  {
    hide Inv, Step, NoneRegistered;
    AcceptMeans(st, e);
    var (token, left) := Seeks(st, e).value;
    if left > 0 && !NoneRegistered(st.ss, Connect, token) {
      var c: Claim :| c.acceptor == e.i && c.token == token && Claims(st, Step(st, e), c);
    }
  }

  lemma SilentEnds(st: State, e: Event)
    requires Inv(st) && Enabled(st, e) && WritesNothing(e)
    ensures e.i < |Step(st, e).ss| && (Step(st, e).ss[e.i].pc.Dead? <==> Ends(st, e))
  {
    hide Inv, Step, SeekEnds, NoneRegistered;
    match e
    case ShortRead(i) => ClosedEnds(st, e);
    case SpliceEnd(i) => ClosedEnds(st, e);
    case Header(_, _, _, _, _, _) => HeaderEnds(st, e);
    case Login(_, _, _, _, _) => LookupLives(st, e);
    case ConnectTo(_, _, _, _) => LookupLives(st, e);
    case AcceptOf(_, _, _) => SeekerEnds(st, e);
    case Slept(i, _, _) =>
      if st.ss[i].pc.AwaitConnect? {
        SeekerEnds(st, e);
      } else {
        WakerEnds(st, e);
      }
  }

  lemma WakerEnds(st: State, e: Event)
    requires Inv(st) && Enabled(st, e) && e.Slept? && !st.ss[e.i].pc.AwaitConnect?
    ensures e.i < |st.ss| && e.i < |Step(st, e).ss|
    ensures Step(st, e).ss[e.i].pc.Dead? <==> Ends(st, e)
  {
    hide Inv, Enabled, Step;
    WakeMeans(st, e);
  }

  lemma HeaderEnds(st: State, e: Event)
    requires Inv(st) && Enabled(st, e) && e.Header?
    ensures e.i < |st.ss| && e.i < |Step(st, e).ss|
    ensures Step(st, e).ss[e.i].pc.Dead?
            <==> e.cmd == 1 || e.cmd > 4 || ((e.cmd == 0 || e.cmd == 3) && !st.ss[e.i].ty.Null?)
  {
    hide Inv, Enabled, Step;
    CommandMeans(st, e);
  }

  lemma LookupLives(st: State, e: Event)
    requires Inv(st) && Enabled(st, e) && (e.Login? || e.ConnectTo?)
    ensures e.i < |Step(st, e).ss| && !Step(st, e).ss[e.i].pc.Dead?
  {
    hide Inv, Enabled, Step, NoneRegistered;
    if e.Login? {
      LoginMeans(st, e);
      assert (forall k :: 0 <= k < 16 ==> e.mt[k] == 0) || exists k :: 0 <= k < 16 && e.mt[k] != 0;
    } else {
      ConnectMeans(st, e);
    }
  }

  lemma ClosedEnds(st: State, e: Event)
    requires Enabled(st, e) && (e.ShortRead? || e.SpliceEnd?)
    ensures e.i < |Step(st, e).ss| && Step(st, e).ss[e.i].pc.Dead?
  {}

  lemma SenderEnds(st: State, e: Event)
    requires Inv(st) && Enabled(st, e) && (e.Lock? || e.Send? || e.SendEnd?)
    ensures e.i < |Step(st, e).ss| && (Step(st, e).ss[e.i].pc.Dead? <==> Ends(st, e))
  {
    if e.SendEnd? {
      SendEndMeans(st, e);
    } else {
      SenderLives(st, e);
    }
  }

  lemma SenderLives(st: State, e: Event)
    requires Enabled(st, e) && (e.Lock? || e.Send?)
    ensures e.i < |st.ss| == |Step(st, e).ss| && st.ss[e.i].pc.Writing? && Step(st, e).ss[e.i].pc.Writing?
    ensures Step(st, e).ss[e.i].pc.frame == st.ss[e.i].pc.frame
  {}

  /** A step ends the session whose task takes it for these reasons, and for no
      other; and it ends no other session. */
  lemma StepEnds(st: State, e: Event, j: nat)
    requires Inv(st) && Enabled(st, e) && j < |st.ss| && !st.ss[j].pc.Dead?
    ensures j < |Step(st, e).ss|
    ensures Step(st, e).ss[j].pc.Dead? <==> !e.Accepted? && e.i == j && Ends(st, e)
  {
    hide Inv, Step, Enabled, Ends;
    if e.Accepted? || e.i != j {
      OthersWait(st, e, j);
    } else if WritesNothing(e) {
      SilentEnds(st, e);
    } else {
      SenderEnds(st, e);
    }
  }

  /** Session j has ended in step k, for one of the reasons. */
  ghost predicate EndsAt(tr: seq<State>, es: seq<Event>, j: nat, k: int) {
    0 <= k < |tr| && TakenBy(es, j, k) && Ends(tr[k], es[k])
  }

  /** In every run the sessions that are dead are those that have met one of the
      reasons to end. */
  lemma {:induction false} DeathsOfRuns(tr: seq<State>, es: seq<Event>, n: nat, j: nat)
    requires Run(tr, es) && n < |tr| && j < |tr[n].ss|
    ensures tr[n].ss[j].pc.Dead? <==> exists k :: 0 <= k < n && EndsAt(tr, es, j, k)
  {
    hide Enabled, Step, Inv, Ends;
    if n > 0 {
      SessionRuns.RunInv(tr, es, n - 1);
      if j >= |tr[n - 1].ss| {
        Newcomers(tr[n - 1], es[n - 1], j);
        NotYetTaken(tr, es, n - 1, j);
      } else {
        DeathsOfRuns(tr, es, n - 1, j);
        if tr[n - 1].ss[j].pc.Dead? {
          DeadStays(tr[n - 1], es[n - 1], j);
        } else {
          StepEnds(tr[n - 1], es[n - 1], j);
          assert EndsAt(tr, es, j, n - 1) <==> tr[n].ss[j].pc.Dead?;
        }
      }
    }
  }

  lemma DeadStays(st: State, e: Event, j: nat)
    requires Inv(st) && Enabled(st, e) && j < |st.ss| && st.ss[j].pc.Dead?
    ensures j < |Step(st, e).ss| && Step(st, e).ss[j].pc.Dead?
  {
    hide Enabled, Step, Inv;
    StepInv(st, e);
    assert Evolves(st.ss[j], Step(st, e).ss[j]);
  }

  /** A session that has not arrived has taken no steps. */
  lemma NotYetTaken(tr: seq<State>, es: seq<Event>, n: nat, j: nat)
    requires Run(tr, es) && n < |es| && j >= |tr[n].ss| && es[n].Accepted?
    ensures forall k :: 0 <= k <= n ==> !TakenBy(es, j, k)
  {
    hide Step;
    forall k | 0 <= k <= n ensures !TakenBy(es, j, k) {
      if k < n {
        SizesGrow(tr, es, k, n);
      }
    }
  }

  lemma {:induction false} SizesGrow(tr: seq<State>, es: seq<Event>, m: nat, n: nat)
    requires Run(tr, es) && m <= n < |tr|
    ensures |tr[m].ss| <= |tr[n].ss|
  {
    hide Enabled, Step, Inv;
    if m < n {
      SizesGrow(tr, es, m, n - 1);
      SessionRuns.RunInv(tr, es, n - 1);
      StepInv(tr[n - 1], es[n - 1]);
    }
  }

  // ----------------------------------------------------------------------- accept

  /** Session i has the socket fd, and waits for a connector under this token. */
  predicate WaitsFor(s: Session, token: Token, fd: int) {
    s.pc.AwaitConnect? && s.pc.token == token && s.clientFd == fd
  }

  /** In step k accept looked for a connector under this token and had no time. */
  predicate OutOfTime(tr: seq<State>, es: seq<Event>, i: nat, token: Token, k: int) {
    0 <= k < |tr| && TakenBy(es, i, k) && Seeks(tr[k], es[k]) == Some((token, 0))
  }

  /** In step k accept claimed a connector under this token, for this socket. */
  ghost predicate ClaimedAt(tr: seq<State>, i: nat, token: Token, fd: int, k: int) {
    0 <= k < |tr| - 1
    && exists c: Claim :: c.acceptor == i && c.token == token && c.fd == fd && Claims(tr[k], tr[k + 1], c)
  }

  /** In step k accept looked for a connector, and none was indexed. */
  ghost predicate FoundNone(tr: seq<State>, es: seq<Event>, i: nat, token: Token, k: int) {
    0 <= k < |tr| && (TakenBy(es, i, k) ==> NoneRegistered(tr[k].ss, Connect, token))
  }

  /** An accept that has presented its token in step m waits on with its socket as
      long as no connector is indexed under the token when it looks, and has time;
      it ends by claiming a connector with that socket, or because its time is
      over, and in no other way. */
  lemma {:induction false} AcceptsOfRuns(tr: seq<State>, es: seq<Event>, m: nat, n: nat)
    requires Run(tr, es) && m < n < |tr| && es[m].AcceptOf?
    ensures es[m].i < |tr[m].ss| <= |tr[n].ss|
    ensures var i, token := es[m].i, es[m].mt;
            var fd := tr[m].ss[i].clientFd;
            (WaitsFor(tr[n].ss[i], token, fd) && forall k :: m <= k < n ==> FoundNone(tr, es, i, token, k))
            || (exists k :: m <= k < n && OutOfTime(tr, es, i, token, k))
            || (exists k :: m <= k < n && ClaimedAt(tr, i, token, fd, k))
  {
    hide Step, Inv, Claims, FoundNone, OutOfTime, ClaimedAt, Enabled;
    var i, token := es[m].i, es[m].mt;
    AcceptorArrived(tr[m], es[m]);
    var fd := tr[m].ss[i].clientFd;
    SizesGrow(tr, es, m, n);
    SessionRuns.RunInv(tr, es, n - 1);
    if n - 1 == m {
      AcceptorLooks(tr, es, m, i, token, fd);
    } else {
      AcceptsOfRuns(tr, es, m, n - 1);
      if WaitsFor(tr[n - 1].ss[i], token, fd) && forall k :: m <= k < n - 1 ==> FoundNone(tr, es, i, token, k) {
        if TakenBy(es, i, n - 1) {
          WaiterLooks(tr[n - 1], es[n - 1]);
          AcceptorLooks(tr, es, n - 1, i, token, fd);
        } else {
          WaiterWaits(tr, es, n - 1, i, token, fd);
        }
      }
    }
  }

  lemma AcceptorArrived(st: State, e: Event)
    requires Enabled(st, e) && e.AcceptOf?
    ensures e.i < |st.ss| && Seeks(st, e) == Some((e.mt, st.ss[e.i].timeout))
  {}

  lemma WaiterLooks(st: State, e: Event)
    requires Enabled(st, e) && !e.Accepted? && st.ss[e.i].pc.AwaitConnect?
    ensures e.Slept? && Seeks(st, e) == Some((st.ss[e.i].pc.token, e.left))
  {}

  lemma AcceptorLooks(tr: seq<State>, es: seq<Event>, k: nat, i: nat, token: Token, fd: int)
    requires Run(tr, es) && k < |es| && Inv(tr[k]) && TakenBy(es, i, k) && i < |tr[k].ss|
    requires Seeks(tr[k], es[k]).Some? && Seeks(tr[k], es[k]).value.0 == token && tr[k].ss[i].clientFd == fd
    ensures i < |tr[k + 1].ss|
    ensures OutOfTime(tr, es, i, token, k) || ClaimedAt(tr, i, token, fd, k)
            || (WaitsFor(tr[k + 1].ss[i], token, fd) && FoundNone(tr, es, i, token, k))
  {
    hide Step, Inv, NoneRegistered, Enabled;
    AcceptMeans(tr[k], es[k]);
    var left := Seeks(tr[k], es[k]).value.1;
    if left > 0 && !NoneRegistered(tr[k].ss, Connect, token) {
      var c: Claim :| c.acceptor == i && c.token == token && Claims(tr[k], tr[k + 1], c);
      assert c.fd == fd;
    }
  }

  lemma WaiterWaits(tr: seq<State>, es: seq<Event>, k: nat, i: nat, token: Token, fd: int)
    requires Run(tr, es) && k < |es| && Inv(tr[k]) && !TakenBy(es, i, k) && i < |tr[k].ss|
    requires WaitsFor(tr[k].ss[i], token, fd)
    ensures i < |tr[k + 1].ss| && WaitsFor(tr[k + 1].ss[i], token, fd) && FoundNone(tr, es, i, token, k)
  {
    hide Step, Inv, NoneRegistered, Enabled;
    OthersWait(tr[k], es[k], i);
    StepFields(tr[k], es[k], i);
  }

  // ---------------------------------------------------------------------- arrival

  /** Session j arrived in step k with this socket and timeout. */
  predicate ArrivedAt(tr: seq<State>, es: seq<Event>, j: nat, k: int, fd: int, timeout: nat) {
    0 <= k < |es| && k < |tr| && es[k] == Accepted(fd, timeout) && |tr[k].ss| == j
  }

  /** Session j has handed this socket over. */
  ghost predicate HasHandedOver(st: State, j: nat, fd: int) {
    exists p :: 0 <= p < |st.claims| && st.claims[p].acceptor == j && st.claims[p].fd == fd
  }

  /** In every run each session has arrived, with the timeout that it has unless it
      has been evicted, and with the socket that it has unless it handed it over. */
  lemma {:induction false} ArrivalsOfRuns(tr: seq<State>, es: seq<Event>, n: nat, j: nat)
    returns (k: nat, fd: int, timeout: nat)
    requires Run(tr, es) && n < |tr| && j < |tr[n].ss|
    ensures k < n && ArrivedAt(tr, es, j, k, fd, timeout)
    ensures tr[n].ss[j].timeout == if tr[n].ss[j].ty.Closed? then 0 else timeout
    ensures tr[n].ss[j].clientFd == fd || (tr[n].ss[j].clientFd == -1 && HasHandedOver(tr[n], j, fd))
  {
    hide Enabled, Step, Inv;
    SessionRuns.RunInv(tr, es, n - 1);
    var st, e := tr[n - 1], es[n - 1];
    if j >= |st.ss| {
      Newcomers(st, e, j);
      Arrives(st, e);
      k, fd, timeout := n - 1, e.fd, e.timeout;
    } else {
      k, fd, timeout := ArrivalsOfRuns(tr, es, n - 1, j);
      StepFields(st, e, j);
      StepMoves(st, e, j);
      ClaimsStay(st, e, j, fd);
    }
  }

  lemma Arrives(st: State, e: Event)
    requires Enabled(st, e) && e.Accepted?
    ensures |Step(st, e).ss| == |st.ss| + 1
    ensures var s := Step(st, e).ss[|st.ss|];
            s.timeout == e.timeout && s.clientFd == e.fd && s.ty.Null?
  {}

  lemma ClaimsStay(st: State, e: Event, j: nat, fd: int)
    requires Enabled(st, e) && j < |st.ss|
    ensures st.claims <= Step(st, e).claims
    ensures HasHandedOver(st, j, fd) ==> HasHandedOver(Step(st, e), j, fd)
  {
    hide Enabled, Step;
    SessionPairs.StepClaims(st, e);
    if p :| 0 <= p < |st.claims| && st.claims[p].acceptor == j && st.claims[p].fd == fd {
      assert Step(st, e).claims[p] == st.claims[p];
    }
  }
}
