/** What becomes of a claimed connector: whether it splices with the socket that
    the acceptor has handed to it. */
module SessionPairs {
  import opened Bytes
  import opened SessionModel
  import opened SessionInvariants
  import opened SessionSafety
  import opened SessionSteps

  /** A connector that was still waiting when it was claimed waits on or splices
      with the socket it was given; one that had stopped waiting has started its
      splice without a peer. */
  predicate PairOk(st: State, c: Claim) {
    c.connector < |st.ss|
    && match st.ss[c.connector].pc
       case AwaitAccept(_) => c.waiting
       case Splicing(fd) => fd == if c.waiting then c.fd else -1
       case Dead => true
       case _ => false
  }

  ghost predicate PairsOk(st: State) {
    forall k :: 0 <= k < |st.claims| ==> PairOk(st, st.claims[k])
  }

  /** The claim that a round of accept makes. */
  function Made(st: State, i: nat, token: Token, left: nat, found: Option<nat>): seq<Claim>
    requires i < |st.ss| && (found.Some? ==> found.value < |st.ss|)
  {
    if left == 0 || found.None? then []
    else [Claim(i, found.value, token, st.ss[i].clientFd, st.ss[found.value].pc.AwaitAccept?)]
  }

  function MadeBy(st: State, e: Event): seq<Claim> {
    match e
    case AcceptOf(i, mt, found) =>
      if i < |st.ss| && (found.Some? ==> found.value < |st.ss|) then Made(st, i, mt, st.ss[i].timeout, found) else []
    case Slept(i, left, found) =>
      if i < |st.ss| && (found.Some? ==> found.value < |st.ss|) && st.ss[i].pc.AwaitConnect?
      then Made(st, i, st.ss[i].pc.token, left, found) else []
    case _ => []
  }

  lemma AcceptTryClaims(st: State, i: nat, token: Token, left: nat, found: Option<nat>)
    requires i < |st.ss| && (found.Some? ==> found.value < |st.ss|)
    ensures AcceptTry(st, i, token, left, found).claims == st.claims + Made(st, i, token, left, found)
  {}

  lemma LoginLookupClaims(st: State, i: nat, ver: Byte, token: Token, allowed: bool, found: Option<nat>)
    requires i < |st.ss| && (found.Some? ==> found.value < |st.ss|)
    ensures LoginLookup(st, i, ver, token, allowed, found).claims == st.claims
  {}

  lemma DispatchClaims(st: State, i: nat, ver: Byte, cmd: Byte, gen: Token, allowed: bool, found: Option<nat>)
    requires i < |st.ss| && (found.Some? ==> found.value < |st.ss|)
    ensures Dispatch(st, i, ver, cmd, gen, allowed, found).claims == st.claims
  {
    hide LoginLookup;
    LoginLookupClaims(st, i, ver, gen, allowed, found);
  }

  lemma SendEndClaims(st: State, i: nat, ok: bool)
    requires i < |st.ss| == |st.hs| && st.ss[i].pc.Writing? && st.ss[i].pc.target < |st.ss|
    ensures Released(st, i).ss[i].pc == st.ss[i].pc && Continued(Released(st, i), i, ok).claims == st.claims
  {}

  /** Nobody else makes claims, and nobody takes one back. */
  lemma StepClaims(st: State, e: Event)
    requires Enabled(st, e)
    ensures Step(st, e).claims == st.claims + MadeBy(st, e)
  {
    hide AcceptTry, LoginLookup, Dispatch, Continued, Released;
    match e
    case Header(i, ver, cmd, gen, allowed, found) =>
      DispatchClaims(Noted(st, i, cmd), i, ver, cmd, gen, allowed, found);
    case Login(i, mt, gen, allowed, found) =>
      LoginLookupClaims(st, i, st.ss[i].pc.ver, LoginName(mt, gen), allowed, found);
    case AcceptOf(i, mt, found) => AcceptTryClaims(st, i, mt, st.ss[i].timeout, found);
    case Slept(i, left, found) =>
      if st.ss[i].pc.AwaitConnect? {
        AcceptTryClaims(st, i, st.ss[i].pc.token, left, found);
      }
    case SendEnd(i, ok) => SendEndClaims(st, i, ok);
    case _ =>
  }

  /** A connector that can be claimed: in its wait, or in a splice without a peer. */
  lemma ClaimableTask(s: Session, x: nat)
    requires PcOk(s, x) && Linked(s) && s.ty.Connect?
    ensures s.pc.AwaitAccept? || s.pc == Splicing(-1)
  {}

  lemma NewPair(st: State, e: Event, c: Claim)
    requires Inv(st) && Enabled(st, e) && MadeBy(st, e) == [c]
    ensures PairOk(Step(st, e), c)
  {
    hide Step, Safe;
    assert c.connector < |st.ss| && PcOk(st.ss[e.i], e.i);
    FoundMeets(st, e.i, c.token, e.found);
    assert PcOk(st.ss[c.connector], c.connector);
    ClaimableTask(st.ss[c.connector], c.connector);
    OthersWait(st, e, c.connector);
  }

  /** A claimed connector that wakes up goes on to splice with its socket. */
  lemma ClaimedWakes(st: State, e: Event, c: Claim)
    requires Inv(st) && Enabled(st, e) && ClaimOk(st, c) && !e.Accepted? && e.i == c.connector
    requires st.ss[c.connector].pc.AwaitAccept?
    ensures e.Slept? && c.connector < |Step(st, e).ss| && Step(st, e).ss[c.connector].pc == Splicing(c.fd)
  {
    hide Safe, FindOk;
    assert PcOk(st.ss[e.i], e.i);
  }

  lemma SpliceEnds(st: State, e: Event)
    requires Enabled(st, e) && !e.Accepted? && (st.ss[e.i].pc.Splicing? || st.ss[e.i].pc.Dead?)
    ensures e.i < |Step(st, e).ss| && Step(st, e).ss[e.i].pc.Dead?
  {
    assert e.SpliceEnd?;
  }

  lemma OldPair(st: State, e: Event, c: Claim)
    requires Inv(st) && Enabled(st, e) && ClaimOk(st, c) && PairOk(st, c)
    ensures PairOk(Step(st, e), c)
  {
    hide Step, Enabled, Inv;
    if e.Accepted? || e.i != c.connector {
      OthersWait(st, e, c.connector);
    } else if st.ss[c.connector].pc.AwaitAccept? {
      ClaimedWakes(st, e, c);
    } else {
      SpliceEnds(st, e);
    }
  }

  lemma StepPairs(st: State, e: Event)
    requires Inv(st) && Enabled(st, e) && PairsOk(st)
    ensures PairsOk(Step(st, e))
  {
    hide Step, Enabled, PairOk, Sane;
    StepClaims(st, e);
    forall k | 0 <= k < |Step(st, e).claims| ensures PairOk(Step(st, e), Step(st, e).claims[k]) {
      if k < |st.claims| {
        assert ClaimOk(st, st.claims[k]);
        OldPair(st, e, st.claims[k]);
      } else {
        NewPair(st, e, MadeBy(st, e)[0]);
      }
    }
  }

  lemma {:induction false} PairsOfRuns(tr: seq<State>, es: seq<Event>, n: nat)
    requires Run(tr, es) && n < |tr|
    ensures Inv(tr[n]) && PairsOk(tr[n])
  {
    hide Enabled, Step, Inv;
    if n == 0 {
      InitInv();
    } else {
      PairsOfRuns(tr, es, n - 1);
      StepInv(tr[n - 1], es[n - 1]);
      StepPairs(tr[n - 1], es[n - 1]);
    }
  }

  /** In every run, a claimed connector that has started its splice did so with
      the socket it was given if and only if it was still waiting when accept
      handed the socket over; if its wait had run out by then, it splices without
      a peer. One that has not started yet was still waiting. */
  lemma SplicedIffWaiting(tr: seq<State>, es: seq<Event>, n: nat, p: nat)
    requires Run(tr, es) && n < |tr| && p < |tr[n].claims|
    ensures var c := tr[n].claims[p];
            && c.connector < |tr[n].ss|
            && (tr[n].ss[c.connector].pc.Splicing? ==>
                  (tr[n].ss[c.connector].pc.fd == c.fd <==> c.waiting)
                  && (!c.waiting ==> tr[n].ss[c.connector].pc.fd == -1))
            && (tr[n].ss[c.connector].pc.AwaitAccept? ==> c.waiting)
  {
    hide Enabled, Step, Sane;
    PairsOfRuns(tr, es, n);
    var c := tr[n].claims[p];
    assert PairOk(tr[n], c) && ClaimOk(tr[n], c);
    ClaimedHolds(tr[n], c);
  }

  lemma ClaimedHolds(st: State, c: Claim)
    requires Inv(st) && ClaimOk(st, c)
    ensures st.ss[c.connector].pc.Splicing? ==> c.fd >= 0
  {
    assert PcOk(st.ss[c.connector], c.connector);
  }
}
