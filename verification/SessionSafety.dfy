/** Index, socket ownership and rendezvous: what each atomic section does to
    them. */
module SessionSafety {
  import opened Bytes
  import OrderedTree
  import opened SessionModel
  import opened SessionIndex
  import opened SessionInvariants

  /** A live session owns the socket fd. */
  predicate Owns(s: Session, fd: int) {
    !s.pc.Dead? && fd >= 0 && (s.clientFd == fd || s.remoteFd == fd)
  }

  ghost predicate Owned(ss: seq<Session>, fd: int) {
    exists i :: 0 <= i < |ss| && Owns(ss[i], fd)
  }

  /** Nothing is held twice: neither in both fields of a session, nor by two. */
  ghost predicate Linear(ss: seq<Session>) {
    && (forall i :: 0 <= i < |ss| ==> HeldOnce(ss[i]))
    && (forall i, j, fd :: 0 <= i < |ss| && 0 <= j < |ss| && Owns(ss[i], fd) && Owns(ss[j], fd) ==> i == j)
  }

  predicate HeldOnce(s: Session) {
    !s.pc.Dead? && s.clientFd >= 0 ==> s.clientFd != s.remoteFd
  }

  /** Exactly the accepted sockets that have not been closed are owned, and none
      is closed twice. */
  ghost predicate Accounted(st: State, fd: int) {
    && (Owned(st.ss, fd) <==> fd in st.accepted && st.closed[fd] == 0)
    && st.closed[fd] <= 1 && (st.closed[fd] > 0 ==> fd in st.accepted)
  }

  /** Ownership is linear: an accepted socket is held in exactly one field of
      exactly one live session until it is closed, once. */
  ghost predicate FdsOk(st: State) {
    Linear(st.ss) && forall fd :: Accounted(st, fd)
  }

  ghost predicate ClaimOk(st: State, c: Claim) {
    && c.connector < |st.ss| && c.acceptor < |st.ss|
    && st.ss[c.acceptor].pc.Dead?
    && st.ss[c.connector].ty.Splice?
    && st.ss[c.connector].token == c.token
    && st.ss[c.connector].remoteFd == c.fd
  }

  ghost predicate Claimed(claims: seq<Claim>, x: nat) {
    exists k :: 0 <= k < |claims| && claims[k].connector == x
  }

  predicate Distinct(c: Claim, d: Claim) {
    c.connector != d.connector && c.acceptor != d.acceptor
  }

  /** Claims pair connectors and acceptors one to one, under one token. */
  ghost predicate ClaimsOk(st: State) {
    && (forall k :: 0 <= k < |st.claims| ==> ClaimOk(st, st.claims[k]))
    && (forall p, q :: 0 <= p < q < |st.claims| ==> Distinct(st.claims[p], st.claims[q]))
    && (forall x :: 0 <= x < |st.ss| && st.ss[x].ty.Splice? ==> Claimed(st.claims, x))
  }

  ghost predicate Safe(st: State) {
    IndexOk(st) && FdsOk(st) && ClaimsOk(st)
  }

  // ---------------------------------------------------------- unchanged aspects

  /** The same sessions are indexed, in the same order. */
  lemma IndexFrame(st: State, st': State)
    requires IndexOk(st) && |st'.ss| == |st.ss| && st'.order == st.order
    requires forall j :: 0 <= j < |st.ss| ==>
               (Linked(st'.ss[j]) <==> Linked(st.ss[j])) && (Linked(st.ss[j]) ==> KeyOf(st'.ss[j]) == KeyOf(st.ss[j]))
    ensures IndexOk(st')
  {
    SortedFrame(st.ss, st'.ss, st.order);
  }

  /** Two versions of a session that hold the same sockets. */
  predicate SameFds(s: Session, s': Session) {
    (s.pc.Dead? <==> s'.pc.Dead?) && s.clientFd == s'.clientFd && s.remoteFd == s'.remoteFd
  }

  lemma OwnedFrame(ss: seq<Session>, ss': seq<Session>, fd: int)
    requires |ss'| == |ss| && forall j :: 0 <= j < |ss| ==> SameFds(ss[j], ss'[j])
    ensures Owned(ss', fd) <==> Owned(ss, fd)
  {
    if j :| 0 <= j < |ss| && Owns(ss[j], fd) {
      assert SameFds(ss[j], ss'[j]) && Owns(ss'[j], fd);
    }
    if j :| 0 <= j < |ss| && Owns(ss'[j], fd) {
      assert SameFds(ss[j], ss'[j]) && Owns(ss[j], fd);
    }
  }

  lemma LinearFrame(ss: seq<Session>, ss': seq<Session>)
    requires Linear(ss) && |ss'| == |ss| && forall j :: 0 <= j < |ss| ==> SameFds(ss[j], ss'[j])
    ensures Linear(ss')
  {
    forall i | 0 <= i < |ss| ensures HeldOnce(ss'[i]) {
      assert SameFds(ss[i], ss'[i]) && HeldOnce(ss[i]);
    }
    forall i, j, fd | 0 <= i < |ss| && 0 <= j < |ss| && Owns(ss'[i], fd) && Owns(ss'[j], fd) ensures i == j {
      assert SameFds(ss[i], ss'[i]) && SameFds(ss[j], ss'[j]) && Owns(ss[i], fd) && Owns(ss[j], fd);
    }
  }

  lemma FdsFrame(st: State, st': State)
    requires FdsOk(st) && |st'.ss| == |st.ss| && forall j :: 0 <= j < |st.ss| ==> SameFds(st.ss[j], st'.ss[j])
    requires st'.accepted == st.accepted && st'.closed == st.closed
    ensures FdsOk(st')
  {
    LinearFrame(st.ss, st'.ss);
    forall fd ensures Accounted(st', fd) {
      assert Accounted(st, fd);
      OwnedFrame(st.ss, st'.ss, fd);
    }
  }

  /** What a claim reads of a session: nothing of it changes once it is final. */
  predicate KeepsClaims(s: Session, s': Session) {
    && (s.pc.Dead? ==> s'.pc.Dead?) && (s'.ty.Splice? <==> s.ty.Splice?)
    && (s.ty.Splice? ==> s'.token == s.token && s'.remoteFd == s.remoteFd)
  }

  lemma ClaimsFrame(st: State, st': State)
    requires ClaimsOk(st) && |st'.ss| == |st.ss| && st'.claims == st.claims
    requires forall j :: 0 <= j < |st.ss| ==> KeepsClaims(st.ss[j], st'.ss[j])
    ensures ClaimsOk(st')
  {
    forall k | 0 <= k < |st.claims| ensures ClaimOk(st', st'.claims[k]) {
      var c := st.claims[k];
      assert ClaimOk(st, c);
      assert KeepsClaims(st.ss[c.connector], st'.ss[c.connector]);
      assert KeepsClaims(st.ss[c.acceptor], st'.ss[c.acceptor]);
    }
    forall x | 0 <= x < |st'.ss| && st'.ss[x].ty.Splice? ensures Claimed(st'.claims, x) {
      assert KeepsClaims(st.ss[x], st'.ss[x]);
    }
  }

  // -------------------------------------------------------------- quiet changes

  /** Two versions of a session that index, sockets and claims cannot tell apart. */
  predicate SameFace(s: Session, s': Session) {
    && SameFds(s, s') && s.isMgr == s'.isMgr && s.ty == s'.ty
    && (s.ty.Null? || (s.token == s'.token && s.isTemp == s'.isTemp))
  }

  ghost predicate Quiet(st: State, st': State) {
    && |st'.ss| == |st.ss|
    && (forall j :: 0 <= j < |st.ss| ==> SameFace(st.ss[j], st'.ss[j]))
    && st'.order == st.order && st'.claims == st.claims
    && st'.accepted == st.accepted && st'.closed == st.closed
  }

  lemma QuietIndex(st: State, st': State)
    requires IndexOk(st) && Quiet(st, st')
    ensures IndexOk(st')
  {
    forall j | 0 <= j < |st.ss|
      ensures Linked(st'.ss[j]) <==> Linked(st.ss[j])
      ensures Linked(st.ss[j]) ==> KeyOf(st'.ss[j]) == KeyOf(st.ss[j])
    {
      assert SameFace(st.ss[j], st'.ss[j]);
    }
    IndexFrame(st, st');
  }

  lemma QuietKeeps(st: State, st': State)
    requires Safe(st) && Quiet(st, st')
    ensures Safe(st')
  {
    QuietIndex(st, st');
    forall j | 0 <= j < |st.ss| ensures SameFds(st.ss[j], st'.ss[j]) && KeepsClaims(st.ss[j], st'.ss[j]) {
      assert SameFace(st.ss[j], st'.ss[j]);
    }
    FdsFrame(st, st');
    ClaimsFrame(st, st');
  }

  lemma QuietWith(st: State, i: nat, s: Session)
    requires i < |st.ss| && SameFace(st.ss[i], s)
    ensures Quiet(st, With(st, i, s))
  {}

  /** One session changes in what only the index can tell. */
  lemma UpdateFrames(st: State, st': State, i: nat, s: Session)
    requires FdsOk(st) && ClaimsOk(st) && i < |st.ss| && SameFds(st.ss[i], s) && KeepsClaims(st.ss[i], s)
    requires st'.ss == st.ss[i := s] && st'.claims == st.claims
    requires st'.accepted == st.accepted && st'.closed == st.closed
    ensures FdsOk(st') && ClaimsOk(st')
  {
    FdsFrame(st, st');
    ClaimsFrame(st, st');
  }

  // ---------------------------------------------------------------------- close

  lemma CloseIndex(st: State, i: nat)
    requires IndexOk(st) && i < |st.ss| && !st.ss[i].pc.Dead?
    ensures IndexOk(Close(st, i))
  {
    var st' := Close(st, i);
    if st.ss[i].isMgr {
      WithoutKeeps(st.ss, st'.ss, st.order, i);
    } else {
      SortedFrame(st.ss, st'.ss, st.order);
    }
  }

  lemma HeldCounts(s: Session, fd: int)
    requires !s.pc.Dead? && HeldOnce(s)
    ensures Held(s)[fd] == if Owns(s, fd) then 1 else 0
  {}

  lemma CloseOwned(ss: seq<Session>, i: nat, fd: int)
    requires Linear(ss) && i < |ss|
    ensures Owned(ss[i := ss[i].(pc := Dead)], fd) <==> Owned(ss, fd) && !Owns(ss[i], fd)
  {
    var ss' := ss[i := ss[i].(pc := Dead)];
    if j :| 0 <= j < |ss'| && Owns(ss'[j], fd) {
      assert j != i && Owns(ss[j], fd);
    }
    if j :| 0 <= j < |ss| && Owns(ss[j], fd) {
      assert j != i ==> Owns(ss'[j], fd);
    }
  }

  lemma CloseLinear(ss: seq<Session>, i: nat)
    requires Linear(ss) && i < |ss|
    ensures Linear(ss[i := ss[i].(pc := Dead)])
  {
    var ss' := ss[i := ss[i].(pc := Dead)];
    forall j, k, fd | 0 <= j < |ss'| && 0 <= k < |ss'| && Owns(ss'[j], fd) && Owns(ss'[k], fd) ensures j == k {
      assert Owns(ss[j], fd) && Owns(ss[k], fd);
    }
  }

  lemma CloseAccounted(st: State, i: nat, fd: int)
    requires Linear(st.ss) && i < |st.ss| && !st.ss[i].pc.Dead? && Accounted(st, fd)
    ensures Accounted(Close(st, i), fd)
  {
    CloseOwned(st.ss, i, fd);
    HeldCounts(st.ss[i], fd);
    assert Close(st, i).closed[fd] == st.closed[fd] + Held(st.ss[i])[fd];
    assert Owns(st.ss[i], fd) ==> Owned(st.ss, fd);
  }

  lemma CloseFds(st: State, i: nat)
    requires FdsOk(st) && i < |st.ss| && !st.ss[i].pc.Dead?
    ensures FdsOk(Close(st, i))
  {
    CloseLinear(st.ss, i);
    forall fd ensures Accounted(Close(st, i), fd) {
      CloseAccounted(st, i, fd);
    }
  }

  lemma CloseKeeps(st: State, i: nat)
    requires Safe(st) && i < |st.ss| && !st.ss[i].pc.Dead?
    ensures Safe(Close(st, i))
  {
    CloseIndex(st, i);
    CloseFds(st, i);
    ClaimsFrame(st, Close(st, i));
  }

  // ------------------------------------------------------ entering and eviction

  lemma RegisterIndex(st: State, i: nat, s: Session)
    requires IndexOk(st) && i < |st.ss| && !Linked(st.ss[i]) && Linked(s) && !s.ty.Null?
    ensures IndexOk(Register(st, i, s))
  {
    var ss' := st.ss[i := s];
    assert i !in st.order;
    SortedFrame(st.ss, ss', st.order);
    FiledKeeps(ss', st.order, i);
  }

  /** A session that enters the index: it only gets a type, a name and a flag. */
  lemma RegisterKeeps(st: State, i: nat, s: Session)
    requires Safe(st) && i < |st.ss| && Unnamed(st.ss[i]) && !st.ss[i].pc.Dead?
    requires s.isMgr && (s.ty.Forward? || s.ty.Connect?) && SameFds(st.ss[i], s)
    ensures Safe(Register(st, i, s))
  {
    RegisterIndex(st, i, s);
    UpdateFrames(st, Register(st, i, s), i, s);
  }

  lemma EvictIndex(st: State, x: nat)
    requires IndexOk(st) && x < |st.ss| && Linked(st.ss[x])
    ensures IndexOk(Evict(st, x))
  {
    WithoutKeeps(st.ss, Evict(st, x).ss, st.order, x);
  }

  /** Eviction changes the key of a linked session first and unlinks it after:
      the index is in order again at the end. */
  lemma EvictKeeps(st: State, x: nat)
    requires Safe(st) && x < |st.ss| && Linked(st.ss[x]) && st.ss[x].ty.Forward?
    ensures Safe(Evict(st, x))
  {
    EvictIndex(st, x);
    UpdateFrames(st, Evict(st, x), x, st.ss[x].(isMgr := false, ty := Closed, timeout := 0));
  }

  // ------------------------------------------------------------------- handover

  ghost predicate Meets(st: State, i: nat, x: nat, token: Token) {
    && i < |st.ss| && x < |st.ss| && i != x
    && !st.ss[i].pc.Dead? && AtCommand(st.ss[i])
    && Linked(st.ss[x]) && st.ss[x].ty.Connect? && st.ss[x].remoteFd == -1
    && st.ss[x].token == token
  }

  lemma SplicedIndex(st: State, x: nat, fd: int)
    requires IndexOk(st) && x < |st.ss| && Linked(st.ss[x])
    ensures IndexOk(Spliced(st, x, fd))
  {
    var given := st.ss[x := st.ss[x].(ty := Splice, remoteFd := fd)];
    var rest := OrderedTree.Without(st.order, x);
    WithoutKeeps(st.ss, given, st.order, x);
    FiledKeeps(given, rest, x);
    var st' := Spliced(st, x, fd);
    assert st'.ss == given && st'.order == Filed(given, rest, x);
    assert forall y :: y in st'.order <==> y in st.order;
    assert forall y :: 0 <= y < |given| ==> (Linked(given[y]) <==> Linked(st.ss[y]));
  }

  lemma HandoverIndex(st: State, i: nat, x: nat, token: Token)
    requires IndexOk(st) && Meets(st, i, x, token)
    ensures IndexOk(Handover(st, i, x, token))
  {
    SplicedIndex(st, x, st.ss[i].clientFd);
    IndexFrame(Spliced(st, x, st.ss[i].clientFd), Handover(st, i, x, token));
  }

  /** A socket passes from field to field: from i's client_fd to x's empty
      remote_fd. */
  ghost predicate Passes(ss: seq<Session>, ss': seq<Session>, i: nat, x: nat) {
    && i < |ss| == |ss'| && x < |ss| && i != x
    && !ss[i].pc.Dead? && !ss[x].pc.Dead? && ss[i].clientFd >= 0
    && ss[i].remoteFd == -1 == ss[x].remoteFd
    && SameFds(ss[i].(clientFd := -1), ss'[i]) && SameFds(ss[x].(remoteFd := ss[i].clientFd), ss'[x])
    && forall j :: 0 <= j < |ss| && j != i && j != x ==> SameFds(ss[j], ss'[j])
  }

  lemma PassedOwns(ss: seq<Session>, ss': seq<Session>, i: nat, x: nat, j: nat, fd: int)
    requires Passes(ss, ss', i, x) && j < |ss|
    ensures Owns(ss'[j], fd) <==>
            j != i && (Owns(ss[j], fd) || (j == x && Owns(ss[i], fd)))
  {
    assert j != i && j != x ==> SameFds(ss[j], ss'[j]);
  }

  lemma PassedLinear(ss: seq<Session>, ss': seq<Session>, i: nat, x: nat)
    requires Linear(ss) && Passes(ss, ss', i, x)
    ensures Linear(ss')
  {
    forall j | 0 <= j < |ss| ensures HeldOnce(ss'[j]) {
      assert HeldOnce(ss[j]) && Owns(ss[i], ss[i].clientFd);
      assert ss[x].clientFd >= 0 ==> Owns(ss[x], ss[x].clientFd);
      assert j != i && j != x ==> SameFds(ss[j], ss'[j]);
    }
    forall j, k, fd | 0 <= j < |ss| && 0 <= k < |ss| && Owns(ss'[j], fd) && Owns(ss'[k], fd) ensures j == k {
      PassedOwns(ss, ss', i, x, j, fd);
      PassedOwns(ss, ss', i, x, k, fd);
    }
  }

  lemma PassedOwned(ss: seq<Session>, ss': seq<Session>, i: nat, x: nat, fd: int)
    requires Passes(ss, ss', i, x)
    ensures Owned(ss', fd) <==> Owned(ss, fd)
  {
    if j :| 0 <= j < |ss| && Owns(ss[j], fd) {
      PassedOwns(ss, ss', i, x, if j == i then x else j, fd);
      assert Owned(ss', fd);
    }
    if j :| 0 <= j < |ss'| && Owns(ss'[j], fd) {
      PassedOwns(ss, ss', i, x, j, fd);
      assert Owned(ss, fd);
    }
  }

  lemma HandoverFds(st: State, i: nat, x: nat, token: Token)
    requires FdsOk(st) && Meets(st, i, x, token)
    ensures FdsOk(Handover(st, i, x, token))
  {
    var st' := Handover(st, i, x, token);
    assert Passes(st.ss, st'.ss, i, x);
    PassedLinear(st.ss, st'.ss, i, x);
    forall fd ensures Accounted(st', fd) {
      assert Accounted(st, fd);
      PassedOwned(st.ss, st'.ss, i, x, fd);
    }
  }

  /** The claims after i has been paired with x: nothing else has changed. */
  lemma PairedClaims(st: State, st': State, c: Claim)
    requires ClaimsOk(st) && |st'.ss| == |st.ss| && st'.claims == st.claims + [c]
    requires ClaimOk(st', c) && !st.ss[c.acceptor].pc.Dead? && st.ss[c.connector].ty.Connect?
    requires forall j :: 0 <= j < |st.ss| && j != c.connector ==> KeepsClaims(st.ss[j], st'.ss[j])
    requires st.ss[c.connector].pc.Dead? ==> st'.ss[c.connector].pc.Dead?
    ensures ClaimsOk(st')
  {
    var n := |st.claims|;
    forall k | 0 <= k < n ensures ClaimOk(st', st'.claims[k]) && Distinct(st'.claims[k], c) {
      OldClaim(st, st', c, k);
    }
    assert st'.claims[n] == c;
    forall y | 0 <= y < |st'.ss| && st'.ss[y].ty.Splice? ensures Claimed(st'.claims, y) {
      assert y != c.connector ==> KeepsClaims(st.ss[y], st'.ss[y]);
      ClaimedMore(st.claims, c, y);
    }
  }

  lemma ClaimedMore(claims: seq<Claim>, c: Claim, y: nat)
    requires y == c.connector || Claimed(claims, y)
    ensures Claimed(claims + [c], y)
  {
    if y == c.connector {
      assert (claims + [c])[|claims|].connector == y;
    } else {
      var k :| 0 <= k < |claims| && claims[k].connector == y;
      assert (claims + [c])[k].connector == y;
    }
  }

  lemma OldClaim(st: State, st': State, c: Claim, k: nat)
    requires |st'.ss| == |st.ss| && k < |st.claims| && ClaimOk(st, st.claims[k])
    requires ClaimOk(st', c) && !st.ss[c.acceptor].pc.Dead? && st.ss[c.connector].ty.Connect?
    requires forall j :: 0 <= j < |st.ss| && j != c.connector ==> KeepsClaims(st.ss[j], st'.ss[j])
    requires st.ss[c.connector].pc.Dead? ==> st'.ss[c.connector].pc.Dead?
    ensures ClaimOk(st', st.claims[k]) && Distinct(st.claims[k], c)
  {
    var d := st.claims[k];
    assert d.connector != c.connector && d.acceptor != c.acceptor;
    assert KeepsClaims(st.ss[d.connector], st'.ss[d.connector]);
    assert d.acceptor != c.connector ==> KeepsClaims(st.ss[d.acceptor], st'.ss[d.acceptor]);
  }

  lemma HandoverClaims(st: State, i: nat, x: nat, token: Token)
    requires ClaimsOk(st) && Meets(st, i, x, token)
    ensures ClaimsOk(Close(Handover(st, i, x, token), i))
  {
    var c := Claim(i, x, token, st.ss[i].clientFd, st.ss[x].pc.AwaitAccept?);
    PairedClaims(st, Close(Handover(st, i, x, token), i), c);
  }

  lemma HandoverKeeps(st: State, i: nat, x: nat, token: Token)
    requires Safe(st) && Meets(st, i, x, token)
    ensures Safe(Close(Handover(st, i, x, token), i))
  {
    var mid := Handover(st, i, x, token);
    HandoverIndex(st, i, x, token);
    HandoverFds(st, i, x, token);
    HandoverClaims(st, i, x, token);
    CloseIndex(mid, i);
    CloseFds(mid, i);
  }

  // -------------------------------------------------------------------- arrival

  lemma AdmitFds(st: State, fd: int, timeout: nat)
    requires FdsOk(st) && fd >= 0 && fd !in st.accepted
    ensures FdsOk(Admit(st, fd, timeout))
  {
    var st', n := Admit(st, fd, timeout), |st.ss|;
    assert Accounted(st, fd) && !Owned(st.ss, fd);
    forall j, k, g | 0 <= j <= n && 0 <= k <= n && Owns(st'.ss[j], g) && Owns(st'.ss[k], g) ensures j == k {
      assert j < n ==> st'.ss[j] == st.ss[j];
      assert k < n ==> st'.ss[k] == st.ss[k];
    }
    forall g ensures Accounted(st', g) {
      assert Accounted(st, g);
      AdmitOwned(st, fd, timeout, g);
    }
  }

  lemma AdmitOwned(st: State, fd: int, timeout: nat, g: int)
    requires fd >= 0
    ensures Owned(Admit(st, fd, timeout).ss, g) <==> Owned(st.ss, g) || g == fd
  {
    var ss', n := Admit(st, fd, timeout).ss, |st.ss|;
    assert Owns(ss'[n], fd);
    if j :| 0 <= j < n && Owns(st.ss[j], g) {
      assert Owns(ss'[j], g);
    }
  }

  lemma AdmitIndex(st: State, fd: int, timeout: nat)
    requires IndexOk(st)
    ensures IndexOk(Admit(st, fd, timeout))
  {
    SortedFrame(st.ss, Admit(st, fd, timeout).ss, st.order);
  }

  lemma AdmitClaims(st: State, fd: int, timeout: nat)
    requires ClaimsOk(st)
    ensures ClaimsOk(Admit(st, fd, timeout))
  {
    var st' := Admit(st, fd, timeout);
    forall k | 0 <= k < |st.claims| ensures ClaimOk(st', st'.claims[k]) {
      assert ClaimOk(st, st.claims[k]);
    }
  }

  lemma AdmitKeeps(st: State, fd: int, timeout: nat)
    requires Safe(st) && fd >= 0 && fd !in st.accepted
    ensures Safe(Admit(st, fd, timeout))
  {
    AdmitIndex(st, fd, timeout);
    AdmitFds(st, fd, timeout);
    AdmitClaims(st, fd, timeout);
  }
}
