/** The rendezvous server as the program runs it: session records that tasks
    update in place, and a search tree that links them. Each method is the code
    of one atomic section and is proved to be the step of the model. */
module SessionServer {
  import opened Bytes
  import opened Frames
  import opened OrderedTree
  import opened SessionIndex
  import opened SessionInvariants
  import SessionSafety
  import opened SessionSteps
  import M = SessionModel

  class Session {
    const id: nat
    var clientFd: int
    var remoteFd: int
    var ty: M.Type
    var isMgr: bool
    var isTemp: bool
    var token: Token
    var timeout: nat
    var wlock: Option<nat>
    var pc: M.Pc

    constructor (id: nat, fd: int, timeout: nat)
      ensures this.id == id
      ensures View() == M.Arrived(fd, timeout)
    {
      this.id, clientFd, remoteFd, this.timeout := id, fd, -1, timeout;
      ty, isMgr, isTemp, token, wlock, pc := M.Null, false, false, ZERO_TOKEN, None, M.Receiving;
    }

    function View(): M.Session
      reads this
    {
      M.Session(clientFd, remoteFd, ty, isMgr, isTemp, token, timeout, wlock, pc)
    }

  }

  function Views(table: seq<Session>): (vs: seq<M.Session>)
    reads table
    ensures |vs| == |table| && forall k :: 0 <= k < |table| ==> vs[k] == table[k].View()
  {
    if table == [] then [] else [table[0].View()] + Views(table[1..])
  }

  ghost predicate Within(order: seq<nat>, n: nat) {
    forall y :: y in order ==> y < n
  }

  /** The ordered index of sessions. Tree nodes stand for sessions; keys are read
      through them, and may change while a node is linked. */
  class SessionManager {
    var tree: Tree<nat>

    constructor ()
      ensures tree == Leaf
    {
      tree := Leaf;
    }

    method Find(table: seq<Session>, ty: M.Type, token: Token) returns (r: Option<nat>)
      requires Within(InOrder(tree), |table|)
      ensures r == OrderedTree.Find(M.Probe(Views(table), M.Key(ty, token)), tree)
    {
      ghost var probe := M.Probe(Views(table), M.Key(ty, token));
      var n := tree;
      while n.Node?
        invariant OrderedTree.Find(probe, n) == OrderedTree.Find(probe, tree)
        invariant forall x :: x in InOrder(n) ==> x in InOrder(tree)
        decreases n
      {
        RootIn(n);
        var t := table[n.val];
        if ty.Rank() < t.ty.Rank() {
          n := n.left;
        } else if ty.Rank() > t.ty.Rank() {
          n := n.right;
        } else {
          var res := Compare(token, t.token);
          if res < 0 {
            n := n.left;
          } else if res > 0 {
            n := n.right;
          } else {
            return Some(n.val);
          }
        }
      }
      return None;
    }

    /** Is the place of s to the right of node n? */
    method GoesRight(table: seq<Session>, s: nat, n: nat) returns (right: bool)
      requires s < |table| && n < |table|
      ensures right <==> M.Probe(Views(table), M.KeyOf(Views(table)[s]))(n) >= 0
    {
      var self, t := table[s], table[n];
      assert Views(table)[s] == self.View() && Views(table)[n] == t.View();
      if self.ty.Rank() < t.ty.Rank() {
        right := false;
      } else if self.ty.Rank() > t.ty.Rank() {
        right := true;
      } else {
        right := !(Compare(self.token, t.token) < 0);
      }
    }

    /** From the root to the place where a session is to be linked. */
    method Descend(table: seq<Session>, s: nat) returns (path: seq<bool>)
      requires s < |table| && Within(InOrder(tree), |table|)
      ensures Graft(tree, path, Node(Leaf, s, Leaf)) == Link(M.Probe(Views(table), M.KeyOf(Views(table)[s])), tree, s)
    {
      hide M.Probe, M.KeyOf;
      ghost var probe := M.Probe(Views(table), M.KeyOf(Views(table)[s]));
      var n := tree;
      path := [];
      while n.Node?
        invariant At(tree, path, n)
        invariant Graft(tree, path, Link(probe, n, s)) == Link(probe, tree, s)
        invariant forall x :: x in InOrder(n) ==> x in InOrder(tree)
        decreases n
      {
        RootIn(n);
        var right := GoesRight(table, s, n.val);
        GraftStep(tree, path, n, right, Link(probe, if right then n.right else n.left, s));
        n, path := if right then n.right else n.left, path + [right];
      }
    }

    /** Links a session; the rebalancing that follows is any rotations. */
    method Insert(table: seq<Session>, s: nat, rots: seq<Rotation>)
      requires s < |table| && Within(InOrder(tree), |table|)
      requires Monotone(M.Probe(Views(table), M.KeyOf(Views(table)[s])), InOrder(tree))
      modifies this
      ensures InOrder(tree) == M.Filed(Views(table), old(InOrder(tree)), s)
    {
      hide M.Probe, M.KeyOf, Graft, Link, Rebalanced, Inserted, InOrder, Views;
      var path := Descend(table, s);
      Grafted(M.Probe(Views(table), M.KeyOf(Views(table)[s])), tree, path, s, rots);
      tree := Rebalanced(Graft(tree, path, Node(Leaf, s, Leaf)), rots);
    }

    /** A session whose key has just changed moves: out by identity, in by key. */
    method Move(table: seq<Session>, x: nat, rots: seq<Rotation>, rots': seq<Rotation>)
      requires x < |table| && Within(Without(InOrder(tree), x), |table|)
      requires Monotone(M.Probe(Views(table), M.KeyOf(Views(table)[x])), Without(InOrder(tree), x))
      modifies this
      ensures InOrder(tree) == M.Filed(Views(table), Without(old(InOrder(tree)), x), x)
    {
      Remove(x, rots);
      Insert(table, x, rots');
    }

    /** Unlinks a session's own node, wherever its key would now belong. */
    method Remove(s: nat, rots: seq<Rotation>)
      modifies this
      ensures InOrder(tree) == Without(old(InOrder(tree)), s)
    {
      EraseRemoves(tree, s);
      RebalancedKeepsOrder(Erase(tree, s), rots);
      tree := Rebalanced(Erase(tree, s), rots);
    }
  }

  lemma Grafted(probe: nat -> int, tree: Tree<nat>, path: seq<bool>, s: nat, rots: seq<Rotation>)
    requires Monotone(probe, InOrder(tree)) && Graft(tree, path, Node(Leaf, s, Leaf)) == Link(probe, tree, s)
    ensures InOrder(Rebalanced(Graft(tree, path, Node(Leaf, s, Leaf)), rots)) == Inserted(probe, InOrder(tree), s)
  {
    LinkInserts(probe, tree, s);
    RebalancedKeepsOrder(Link(probe, tree, s), rots);
  }

  lemma MoveKeeps(before: seq<M.Session>, after: seq<M.Session>, order: seq<nat>, x: nat)
    requires x < |after| == |before| && x in order && Sorted(before, order)
    requires forall y :: 0 <= y < |after| && y != x ==> after[y] == before[y]
    ensures Within(Without(order, x), |after|)
    ensures Monotone(M.Probe(after, M.KeyOf(after[x])), Without(order, x))
  {
    assert forall y :: y in order ==> y < |before|;
    WithoutKeeps(before, after, order, x);
    SortedProbes(after, Without(order, x), M.KeyOf(after[x]));
  }

  lemma EnrolledProbes(st: M.State, after: seq<M.Session>, i: nat)
    requires IndexOk(st) && i < |st.ss| == |after| && Unnamed(st.ss[i]) && after == st.ss[i := after[i]]
    ensures Within(st.order, |after|)
    ensures Monotone(M.Probe(after, M.KeyOf(after[i])), st.order)
  {
    SortedFrame(st.ss, after, st.order);
    SortedProbes(after, st.order, M.KeyOf(after[i]));
  }

  class Server {
    var table: seq<Session>            // every session ever accepted, by number
    const mgr: SessionManager
    ghost var hs: seq<M.History>
    ghost var accepted: set<int>
    ghost var closed: multiset<int>
    ghost var claims: seq<M.Claim>

    ghost predicate Valid()
      reads this, table
    {
      forall k :: 0 <= k < |table| ==> table[k].id == k
    }

    ghost function View(): M.State
      reads this, table, mgr
    {
      M.State(Views(table), hs, InOrder(mgr.tree), accepted, closed, claims)
    }

    /** After a change to one session. */
    twostate lemma OneChanged(i: nat)
      requires table == old(table) && i < |table|
      requires forall k :: 0 <= k < |table| && k != i ==> table[k].View() == old(table[k].View())
      ensures Views(table) == old(Views(table))[i := table[i].View()]
    {}

    twostate lemma OneAdded(new s: Session)
      requires table == old(table) + [s]
      requires forall k :: 0 <= k < |old(table)| ==> table[k].View() == old(table[k].View())
      ensures Views(table) == old(Views(table)) + [s.View()]
    {
      hide Views;
    }

    constructor ()
      ensures Valid() && View() == M.Init()
      ensures fresh(mgr)
    {
      mgr := new SessionManager();
      table, hs, accepted, closed, claims := [], [], {}, multiset{}, [];
    }

    method AddSession(fd: int, timeout: nat)
      requires Valid()
      modifies this`table
      ensures Valid() && View() == old(View()).(ss := old(View()).ss + [M.Arrived(fd, timeout)])
    {
      hide Views, M.Arrived;
      var s := new Session(|table|, fd, timeout);
      table := table + [s];
      OneAdded(s);
    }

    /** The accept loop of the server, and the session constructor. */
    method AcceptConnection(fd: int, timeout: nat)
      requires Valid() && M.Enabled(View(), M.Accepted(fd, timeout))
      modifies this
      ensures Valid() && View() == M.Step(old(View()), M.Accepted(fd, timeout))
    {
      hide M.Step, M.Enabled;
      AcceptedStep(View(), fd, timeout);
      AddSession(fd, timeout);
      hs := hs + [M.History(None, [], [], None)];
      accepted := accepted + {fd};
    }

    method Suspend(i: nat, pc: M.Pc)
      requires Valid() && i < |table|
      modifies table[i]
      ensures Valid() && View() == M.Suspend(old(View()), i, pc)
    {
      table[i].pc := pc;
      OneChanged(i);
    }

    /** The destructor of a session closes what it still holds. */
    method Destruct(s: Session)
      modifies this`closed
      ensures closed == old(closed) + M.Held(s.View())
    {
      if s.remoteFd >= 0 {
        closed := closed + multiset{s.remoteFd};
      }
      if s.clientFd >= 0 {
        closed := closed + multiset{s.clientFd};
      }
    }

    method Drop(i: nat)
      requires i < |table|
      modifies this`closed
      ensures View() == old(View()).(closed := old(View()).closed + M.Held(old(View()).ss[i]))
    {
      hide M.Held;
      assert View().ss[i] == table[i].View();
      Destruct(table[i]);
    }

    method Unlink(x: nat, rots: seq<Rotation>)
      modifies mgr
      ensures View() == old(View()).(order := Without(old(View()).order, x))
    {
      mgr.Remove(x, rots);
    }

    /** close_session: unlink if indexed, then drop the session. */
    method Close(i: nat, rots: seq<Rotation>)
      requires Valid() && i < |table|
      modifies this`closed, mgr, table[i]
      ensures Valid() && View() == M.Close(old(View()), i)
    {
      ghost var st := View();
      assert st.ss[i] == table[i].View();
      if table[i].isMgr {
        Unlink(i, rots);
      }
      Drop(i);
      Suspend(i, M.Dead);
      CloseIs(st, i);
    }

    /** A lookup answers as the model allows. */
    method Lookup(ty: M.Type, token: Token) returns (s: Option<nat>)
      requires IndexOk(View())
      ensures M.FindOk(View(), M.Key(ty, token), s)
    {
      ghost var probe := M.Probe(Views(table), M.Key(ty, token));
      SortedProbes(Views(table), InOrder(mgr.tree), M.Key(ty, token));
      s := mgr.Find(table, ty, token);
      FindExact(probe, mgr.tree);
      forall x | x in InOrder(mgr.tree)
        ensures probe(x) == 0 <==> M.KeyOf(Views(table)[x]) == M.Key(ty, token)
      {
        KeysTotal(M.Key(ty, token), M.KeyOf(Views(table)[x]));
      }
    }

    method Rename(i: nat, token: Token)
      requires Valid() && i < |table|
      modifies table[i]
      ensures Valid() && View() == M.With(old(View()), i, old(View()).ss[i].(token := token))
    {
      table[i].token := token;
      OneChanged(i);
    }

    method Demote(x: nat)
      requires Valid() && x < |table|
      modifies table[x]
      ensures Valid() && View() == M.With(old(View()), x, old(View()).ss[x].(isMgr := false, ty := M.Closed))
    {
      table[x].isMgr := false;
      table[x].ty := M.Closed;
      OneChanged(x);
    }

    method Expire(x: nat)
      requires Valid() && x < |table|
      modifies table[x]
      ensures Valid() && View() == M.With(old(View()), x, old(View()).ss[x].(timeout := 0))
    {
      table[x].timeout := 0;
      OneChanged(x);
    }

    /** The session that has the token already loses its place. */
    method Evict(x: nat, rots: seq<Rotation>)
      requires Valid() && x < |table|
      modifies mgr, table[x]
      ensures Valid() && View() == M.Evict(old(View()), x)
    {
      ghost var st := View();
      assert st.ss[x] == table[x].View();
      Demote(x);
      Unlink(x, rots);
      Expire(x);
      EvictIs(st, x);
    }

    /** login from its token to the reply it is about to send. */
    method LoginLookup(i: nat, ver: Byte, token: Token, allowed: bool, rots: seq<Rotation>)
      returns (ghost found: Option<nat>)
      requires Valid() && i < |table| && IndexOk(View()) && Unnamed(table[i].View())
      modifies mgr, table
      ensures if allowed then M.FindOk(old(View()), M.Key(M.Forward, token), found) else found == None
      ensures found.Some? ==> found.value < |table|
      ensures Valid() && View() == M.LoginLookup(old(View()), i, ver, token, allowed, found)
    {
      hide M.Evict, IndexOk, M.FindOk;
      ghost var st := View();
      Rename(i, token);
      found := None;
      if !allowed {
        Suspend(i, M.Rejecting(M.REJECT_DELAY));
        return;
      }
      NamedIndex(st, View(), i);
      found := EvictNamesake(token, rots);
      Suspend(i, M.Writing(i, TokenFrame(token), ver, false, 0));
    }

    method EvictNamesake(token: Token, rots: seq<Rotation>) returns (ghost found: Option<nat>)
      requires Valid() && IndexOk(View())
      modifies mgr, table
      ensures M.FindOk(old(View()), M.Key(M.Forward, token), found)
      ensures found.Some? ==> found.value < |table|
      ensures Valid() && View() == if found.Some? then M.Evict(old(View()), found.value) else old(View())
    {
      hide M.Evict, IndexOk, M.FindOk;
      FoundWithin(View(), M.Key(M.Forward, token));
      var s := Lookup(M.Forward, token);
      found := s;
      if s.Some? {
        Evict(s.value, rots);
      }
    }

    /** login goes on with the peer's token, or with a new one for all zeros. */
    method LoginToken(i: nat, mt: Token, gen: Token, allowed: bool, rots: seq<Rotation>)
      returns (ghost found: Option<nat>)
      requires Valid() && Inv(View()) && i < |table| && table[i].pc.LoginToken?
      modifies mgr, table
      ensures M.Enabled(old(View()), M.Login(i, mt, gen, allowed, found))
      ensures Valid() && View() == M.Step(old(View()), M.Login(i, mt, gen, allowed, found))
    {
      hide M.Step, M.Enabled, M.LoginLookup, Inv, M.FindOk;
      ghost var st := View();
      AtToken(st, i);
      assert st.ss[i] == table[i].View();
      var name := mt;
      if mt == ZERO_TOKEN {
        name := gen;
      }
      found := LoginLookup(i, table[i].pc.ver, name, allowed, rots);
      LoginStep(st, i, mt, gen, allowed, found);
    }

    /** connect from its token to the message it is about to send. */
    method ConnectLookup(i: nat, mt: Token, gen: Token) returns (ghost found: Option<nat>)
      requires Valid() && i < |table| && IndexOk(View())
      modifies table
      ensures M.FindOk(old(View()), M.Key(M.Forward, mt), found)
      ensures found.Some? ==> found.value < |table|
      ensures Valid() && View() == M.ConnectLookup(old(View()), i, mt, gen, found)
    {
      hide IndexOk, M.FindOk;
      FoundWithin(View(), M.Key(M.Forward, mt));
      var s := Lookup(M.Forward, mt);
      found := s;
      if s.None? {
        Suspend(i, M.Rejecting(M.REJECT_DELAY));
        return;
      }
      var token := mt;
      if table[s.value].isTemp {
        token := gen;
      }
      Suspend(i, M.Writing(s.value, ConnectFrame(token), 1, false, 0));
    }

    method Give(x: nat, fd: int)
      requires Valid() && x < |table|
      modifies table[x]
      ensures Valid() && View() == M.With(old(View()), x, old(View()).ss[x].(ty := M.Splice, remoteFd := fd))
    {
      table[x].ty := M.Splice;
      table[x].remoteFd := fd;
      OneChanged(x);
    }

    /** accept lets go of its socket, and the claim is noted. */
    method Disown(i: nat, x: nat, token: Token, ghost waiting: bool)
      requires Valid() && i < |table|
      modifies this`claims, table[i]
      ensures Valid()
      ensures View() == M.With(old(View()), i, old(View()).ss[i].(clientFd := -1)).(
                          claims := old(claims) + [M.Claim(i, x, token, old(View()).ss[i].clientFd, waiting)])
    {
      claims := claims + [M.Claim(i, x, token, table[i].clientFd, waiting)];
      table[i].clientFd := -1;
      OneChanged(i);
    }

    /** The session found by accept gets the socket, and its new place. */
    method Splice(x: nat, fd: int, rots: seq<Rotation>, rots': seq<Rotation>)
      requires Valid() && x < |table| && x in InOrder(mgr.tree) && Sorted(Views(table), InOrder(mgr.tree))
      modifies mgr, table[x]
      ensures Valid() && View() == M.Spliced(old(View()), x, fd)
    {
      ghost var st := View();
      Give(x, fd);
      MoveKeeps(st.ss, Views(table), InOrder(mgr.tree), x);
      Move(x, rots, rots');
    }

    method Move(x: nat, rots: seq<Rotation>, rots': seq<Rotation>)
      requires x < |table| && Within(Without(InOrder(mgr.tree), x), |table|)
      requires Monotone(M.Probe(Views(table), M.KeyOf(Views(table)[x])), Without(InOrder(mgr.tree), x))
      modifies mgr
      ensures View() == old(View()).(order := M.Filed(old(View()).ss, Without(old(View()).order, x), x))
    {
      mgr.Move(table, x, rots, rots');
    }

    method Handover(i: nat, x: nat, token: Token, rots: seq<Rotation>, rots': seq<Rotation>)
      requires Valid() && i < |table| && x < |table| && i != x
      requires x in InOrder(mgr.tree) && Sorted(Views(table), InOrder(mgr.tree))
      modifies this`claims, mgr, table[i], table[x]
      ensures Valid() && View() == M.Handover(old(View()), i, x, token)
    {
      ghost var waiting := table[x].pc.AwaitAccept?;
      Splice(x, table[i].clientFd, rots, rots');
      Disown(i, x, token, waiting);
    }

    /** One round of accept's wait for a connector. */
    method AcceptTry(i: nat, token: Token, left: nat, rots: seq<seq<Rotation>>)
      returns (ghost found: Option<nat>)
      requires Valid() && Inv(View()) && i < |table| && |rots| == 3
      requires AtCommand(table[i].View()) && !table[i].pc.Dead?
      modifies this, mgr, table
      ensures if left > 0 then M.FindOk(old(View()), M.Key(M.Connect, token), found) else found == None
      ensures found.Some? ==> found.value < |old(table)|
      ensures Valid() && View() == M.AcceptTry(old(View()), i, token, left, found)
    {
      hide M.Handover, M.Close, LocksOk, SessionSafety.FdsOk, SessionSafety.ClaimsOk;
      found := None;
      if left == 0 {
        Close(i, rots[2]);
        return;
      }
      var s := Lookup(M.Connect, token);
      found := s;
      if s.None? {
        Suspend(i, M.AwaitConnect(token, left));
        return;
      }
      FoundMeets(View(), i, token, s);
      Claim(i, s.value, token, rots);
    }

    method Claim(i: nat, x: nat, token: Token, rots: seq<seq<Rotation>>)
      requires Valid() && i < |table| && x < |table| && i != x && |rots| == 3
      requires x in InOrder(mgr.tree) && Sorted(Views(table), InOrder(mgr.tree))
      modifies this`claims, this`closed, mgr, table[i], table[x]
      ensures Valid() && View() == M.Close(M.Handover(old(View()), i, x, token), i)
    {
      Handover(i, x, token, rots[0], rots[1]);
      Close(i, rots[2]);
    }

    method Enroll(i: nat, ty: M.Type, token: Token, isTemp: bool, pc: M.Pc)
      requires Valid() && i < |table|
      modifies table[i]
      ensures Valid()
      ensures View() == M.With(old(View()), i, old(View()).ss[i].(
                          isMgr := true, ty := ty, token := token, isTemp := isTemp, pc := pc))
    {
      var self := table[i];
      self.isMgr := true;
      self.ty := ty;
      self.token := token;
      self.isTemp := isTemp;
      self.pc := pc;
      OneChanged(i);
    }

    /** A session takes a type, a name and a place in the index. */
    method Register(i: nat, ty: M.Type, token: Token, isTemp: bool, pc: M.Pc, rots: seq<Rotation>)
      requires Valid() && IndexOk(View()) && i < |table| && Unnamed(table[i].View())
      modifies mgr, table[i]
      ensures Valid()
      ensures View() == M.Register(old(View()), i, old(View()).ss[i].(
                          isMgr := true, ty := ty, token := token, isTemp := isTemp, pc := pc))
    {
      ghost var st := View();
      assert st.ss[i] == table[i].View();
      Enroll(i, ty, token, isTemp, pc);
      EnrolledProbes(st, Views(table), i);
      Link(i, rots);
    }

    method Link(i: nat, rots: seq<Rotation>)
      requires i < |table| && Within(InOrder(mgr.tree), |table|)
      requires Monotone(M.Probe(Views(table), M.KeyOf(Views(table)[i])), InOrder(mgr.tree))
      modifies mgr
      ensures View() == old(View()).(order := M.Filed(old(View()).ss, old(View()).order, i))
    {
      mgr.Insert(table, i, rots);
    }

    /** How login, connect and keep-alive go on behind their send. */
    method Continue(i: nat, ok: bool, rots: seq<Rotation>)
      requires Valid() && IndexOk(View()) && i < |table|
      requires table[i].pc.Writing? && PcOk(table[i].View(), i)
      modifies this, mgr, table
      ensures Valid() && View() == M.Continued(old(View()), i, ok)
    {
      var self := table[i];
      var pc := self.pc;
      if !ok {
        Close(i, rots);
        return;
      }
      match pc.frame
      case TokenFrame(_) =>
        Register(i, M.Forward, self.token, pc.ver == 3, M.Receiving, rots);
      case ConnectFrame(token) =>
        Register(i, M.Connect, token, self.isTemp,
                 if self.timeout == 0 then M.Splicing(self.remoteFd) else M.AwaitAccept(self.timeout), rots);
      case KeepAliveFrame => Suspend(i, M.Receiving);
    }

    method SetLock(t: nat, holder: Option<nat>)
      requires Valid() && t < |table|
      modifies table[t]
      ensures Valid() && View() == M.With(old(View()), t, old(View()).ss[t].(wlock := holder))
    {
      table[t].wlock := holder;
      OneChanged(t);
    }

    /** What became of the send is noted. */
    method Record(i: nat, pc: M.Pc)
      requires i < |hs| && pc.Writing? && pc.target < |hs|
      modifies this`hs
      ensures View() == old(View()).(hs := M.Recorded(old(View()).hs, i, pc))
    {
      hs := M.Recorded(hs, i, pc);
    }

    method Unlock(i: nat)
      requires Valid() && i < |table| == |hs| && table[i].pc.Writing? && table[i].pc.target < |table|
      modifies this`hs, table
      ensures Valid() && View() == M.Released(old(View()), i)
    {
      var pc := table[i].pc;
      ghost var st := View();
      assert st.ss[i] == table[i].View();
      SetLock(pc.target, None);
      Record(i, pc);
    }

    method FinishSend(i: nat, ok: bool, rots: seq<Rotation>)
      requires Valid() && i < |table| == |hs| && table[i].pc.Writing? && table[i].pc.target < |table|
      requires IndexOk(M.Released(View(), i)) && PcsOk(M.Released(View(), i).ss)
      modifies this, mgr, table
      ensures Valid() && View() == M.Continued(M.Released(old(View()), i), i, ok)
    {
      Unlock(i);
      assert View().ss[i] == table[i].View();
      Continue(i, ok, rots);
    }

    /** The locked send of task i ends: unlock, note the outcome, go on. */
    method EndSend(i: nat, ok: bool, rots: seq<Rotation>)
      requires Valid() && Inv(View()) && M.Enabled(View(), M.SendEnd(i, ok))
      modifies this, mgr, table
      ensures Valid() && View() == M.Step(old(View()), M.SendEnd(i, ok))
    {
      hide M.Continued, M.Released, M.Step, M.Enabled, Inv;
      assert View().ss[i] == table[i].View() by { SendEndStep(View(), i, ok); }
      SendEndStep(View(), i, ok);
      FinishSend(i, ok, rots);
    }

    method Lock(i: nat)
      requires Valid() && M.Enabled(View(), M.Lock(i))
      modifies table
      ensures Valid() && View() == M.Step(old(View()), M.Lock(i))
    {
      hide M.Step, M.Enabled;
      LockStep(View(), i);
      assert View().ss[i] == table[i].View();
      var pc := table[i].pc;
      SetLock(pc.target, Some(i));
      Suspend(i, pc.(held := true));
    }

    /** More bytes have gone out on connection t. */
    method LogBytes(t: nat, chunk: seq<Byte>)
      requires t < |hs|
      modifies this`hs
      ensures View() == LoggedBytes(old(View()), t, chunk)
    {
      hs := hs[t := hs[t].(wire := hs[t].wire + chunk)];
    }

    method Send(i: nat, n: nat)
      requires Valid() && M.Enabled(View(), M.Send(i, n))
      modifies this`hs, table[i]
      ensures Valid() && View() == M.Step(old(View()), M.Send(i, n))
    {
      hide M.Step, M.Enabled, M.SentMore;
      SendStep(View(), i, n);
      assert View().ss[i] == table[i].View();
      SendMore(i, n);
    }

    method SendMore(i: nat, n: nat)
      requires Valid() && i < |table| && table[i].pc.Writing? && table[i].pc.target < |hs|
      requires n <= |Encode(table[i].pc.frame)| - table[i].pc.sent
      modifies this`hs, table[i]
      ensures Valid() && View() == M.SentMore(old(View()), i, n)
    {
      hide M.SentMore, LoggedBytes, Encode;
      var pc := table[i].pc;
      ghost var st := View();
      assert st.ss[i] == table[i].View();
      Suspend(i, pc.(sent := pc.sent + n));
      SentMoreIs(st, i, n);
      LogBytes(pc.target, Encode(pc.frame)[pc.sent..pc.sent + n]);
    }

    /** What the command of a header makes of the session. */
    method Act(i: nat, ver: Byte, cmd: Byte, gen: Token, allowed: bool, rots: seq<Rotation>)
      returns (ghost found: Option<nat>)
      requires Valid() && IndexOk(View()) && i < |table| && AtCommand(table[i].View())
      modifies this`closed, mgr, table
      ensures if M.LooksUp(old(View()), i, ver, cmd, allowed) then M.FindOk(old(View()), M.Key(M.Forward, gen), found)
              else found == None
      ensures found.Some? ==> found.value < |table|
      ensures Valid() && View() == M.Dispatch(old(View()), i, ver, cmd, gen, allowed, found)
    {
      found := None;
      if cmd == CMD_LOGIN {
        if !table[i].ty.Null? {
          Close(i, rots);
        } else if ver == 1 {
          found := LoginLookup(i, ver, gen, allowed, rots);
        } else {
          Suspend(i, M.LoginToken(ver));
        }
      } else if cmd == CMD_CONNECT {
        if !table[i].ty.Null? {
          Close(i, rots);
        } else {
          Suspend(i, M.ConnectToken);
        }
      } else if cmd == CMD_ACCEPT {
        Suspend(i, M.AcceptToken);
      } else if cmd == CMD_KEEP_ALIVE {
        if ver != 1 {
          Suspend(i, M.Writing(i, KeepAliveFrame, ver, false, 0));
        }
      } else {
        Close(i, rots);
      }
    }

    method Note(i: nat, cmd: Byte)
      requires i < |hs|
      modifies this`hs
      ensures View() == M.Noted(old(View()), i, cmd)
    {
      if hs[i].first.None? {
        hs := hs[i := hs[i].(first := Some(cmd))];
      }
    }

    /** The command loop of a session: one header has come in. */
    method Dispatch(i: nat, ver: Byte, cmd: Byte, gen: Token, allowed: bool, rots: seq<Rotation>)
      returns (ghost found: Option<nat>)
      requires Valid() && Inv(View()) && i < |table| && table[i].pc.Receiving?
      modifies this, mgr, table
      ensures M.Enabled(old(View()), M.Header(i, ver, cmd, gen, allowed, found))
      ensures Valid() && View() == M.Step(old(View()), M.Header(i, ver, cmd, gen, allowed, found))
    {
      hide M.Step, M.Enabled, M.Dispatch, M.Noted, Inv, IndexOk, M.FindOk;
      ghost var st := View();
      assert st.ss[i] == table[i].View();
      AtHeader(st, i, cmd);
      Note(i, cmd);
      found := Act(i, ver, cmd, gen, allowed, rots);
      HeaderStep(st, i, ver, cmd, gen, allowed, found);
    }

    method Resume(i: nat, left: nat, rots: seq<seq<Rotation>>) returns (ghost found: Option<nat>)
      requires Valid() && Inv(View()) && i < |table| && |rots| == 3 && PcOk(table[i].View(), i)
      requires table[i].pc.Rejecting? || table[i].pc.AwaitAccept? || table[i].pc.AwaitConnect?
      modifies this, mgr, table
      ensures if old(table[i].pc).AwaitConnect? && left > 0
              then M.FindOk(old(View()), M.Key(M.Connect, old(table[i].pc).token), found) else found == None
      ensures found.Some? ==> found.value < |old(table)|
      ensures Valid() && View() == M.Wake(old(View()), i, left, found)
    {
      hide M.AcceptTry, M.Close, Inv;
      var self := table[i];
      assert View().ss[i] == self.View();
      found := None;
      match self.pc
      case Rejecting(_) =>
        if left == 0 {
          Close(i, rots[2]);
        } else {
          Suspend(i, M.Rejecting(left));
        }
      case AwaitAccept(_) =>
        if left == 0 || self.remoteFd >= 0 {
          Suspend(i, M.Splicing(self.remoteFd));
        } else {
          Suspend(i, M.AwaitAccept(left));
        }
      case AwaitConnect(token, _) =>
        found := AcceptTry(i, token, left, rots);
    }

    /** A receive has failed or come up short. */
    method ReadFails(i: nat, rots: seq<Rotation>)
      requires Valid() && Inv(View()) && i < |table|
      requires var pc := table[i].pc; pc.Receiving? || pc.LoginToken? || pc.ConnectToken? || pc.AcceptToken?
      modifies this`closed, mgr, table[i]
      ensures M.Enabled(old(View()), M.ShortRead(i))
      ensures Valid() && View() == M.Step(old(View()), M.ShortRead(i))
    {
      hide M.Step, M.Enabled, M.Close, Inv;
      AtTask(View(), i);
      assert View().ss[i] == table[i].View();
      EndStep(View(), i);
      Close(i, rots);
    }

    /** The token of a CONNECT has come in. */
    method ConnectToken(i: nat, mt: Token, gen: Token) returns (ghost found: Option<nat>)
      requires Valid() && Inv(View()) && i < |table| && table[i].pc.ConnectToken?
      modifies table
      ensures M.Enabled(old(View()), M.ConnectTo(i, mt, gen, found))
      ensures Valid() && View() == M.Step(old(View()), M.ConnectTo(i, mt, gen, found))
    {
      hide M.Step, M.Enabled, M.ConnectLookup, Inv, M.FindOk;
      ghost var st := View();
      AtTask(st, i);
      assert st.ss[i] == table[i].View();
      found := ConnectLookup(i, mt, gen);
      ConnectStep(st, i, mt, gen, found);
    }

    /** The token of an ACCEPT has come in. */
    method AcceptToken(i: nat, mt: Token, rots: seq<seq<Rotation>>) returns (ghost found: Option<nat>)
      requires Valid() && Inv(View()) && i < |table| && table[i].pc.AcceptToken? && |rots| == 3
      modifies this, mgr, table
      ensures M.Enabled(old(View()), M.AcceptOf(i, mt, found))
      ensures Valid() && View() == M.Step(old(View()), M.AcceptOf(i, mt, found))
    {
      hide M.Step, M.Enabled, M.AcceptTry, Inv, M.FindOk;
      ghost var st := View();
      AtTask(st, i);
      assert st.ss[i] == table[i].View();
      found := AcceptTry(i, mt, table[i].timeout, rots);
      AcceptStep(st, i, mt, found);
    }

    /** The splice of a connector has ended. */
    method SpliceEnds(i: nat, rots: seq<Rotation>)
      requires Valid() && Inv(View()) && i < |table| && table[i].pc.Splicing?
      modifies this`closed, mgr, table[i]
      ensures M.Enabled(old(View()), M.SpliceEnd(i))
      ensures Valid() && View() == M.Step(old(View()), M.SpliceEnd(i))
    {
      hide M.Step, M.Enabled, M.Close, Inv;
      AtTask(View(), i);
      assert View().ss[i] == table[i].View();
      EndStep(View(), i);
      Close(i, rots);
    }

    /** A sleeping task resumes. */
    method Wake(i: nat, left: nat, rots: seq<seq<Rotation>>) returns (ghost found: Option<nat>)
      requires Valid() && Inv(View()) && i < |table| && |rots| == 3
      requires match table[i].pc
               case Rejecting(was) => left <= was
               case AwaitAccept(was) => left <= was
               case AwaitConnect(_, was) => left <= was
               case _ => false
      modifies this, mgr, table
      ensures M.Enabled(old(View()), M.Slept(i, left, found))
      ensures Valid() && View() == M.Step(old(View()), M.Slept(i, left, found))
    {
      hide M.Step, M.Enabled, M.Wake, M.FindOk, Inv;
      ghost var st := View();
      assert st.ss[i] == table[i].View();
      AtTask(st, i);
      found := Resume(i, left, rots);
      WakeStep(st, i, left, found);
    }
  }

  lemma NotedIndex(st: M.State, i: nat, cmd: Byte)
    requires Inv(st) && i < |st.hs|
    ensures IndexOk(M.Noted(st, i, cmd))
  {
    SessionSafety.QuietIndex(st, M.Noted(st, i, cmd));
  }

  lemma FoundWithin(st: M.State, k: M.Key)
    ensures forall found: Option<nat> :: M.FindOk(st, k, found) && found.Some? ==> found.value < |st.ss|
  {}

  /** Naming an unlinked session leaves the index and every lookup alone. */
  lemma NamedIndex(st: M.State, named: M.State, i: nat)
    requires IndexOk(st) && i < |st.ss| && Unnamed(st.ss[i])
    requires |named.ss| == |st.ss| && named == M.With(st, i, st.ss[i].(token := named.ss[i].token))
    ensures IndexOk(named)
    ensures forall k, found: Option<nat> :: M.FindOk(named, k, found) <==> M.FindOk(st, k, found)
  {
    SessionSafety.QuietIndex(st, named);
    assert i !in st.order;
  }

  // ----------------------------------------- sections of the model, change by change

  lemma CloseIs(st: M.State, i: nat)
    requires i < |st.ss|
    ensures var mid := if st.ss[i].isMgr then st.(order := Without(st.order, i)) else st;
            M.Close(st, i) == M.Suspend(mid.(closed := mid.closed + M.Held(st.ss[i])), i, M.Dead)
  {}

  lemma EvictIs(st: M.State, x: nat)
    requires x < |st.ss|
    ensures var mid := M.With(st, x, st.ss[x].(isMgr := false, ty := M.Closed)).(order := Without(st.order, x));
            M.Evict(st, x) == M.With(mid, x, mid.ss[x].(timeout := 0))
  {}

  function LoggedBytes(st: M.State, t: nat, chunk: seq<Byte>): M.State
    requires t < |st.hs|
  {
    st.(hs := st.hs[t := st.hs[t].(wire := st.hs[t].wire + chunk)])
  }

  lemma SentMoreIs(st: M.State, i: nat, n: nat)
    requires i < |st.ss| && st.ss[i].pc.Writing? && st.ss[i].pc.target < |st.hs|
    requires n <= |Encode(st.ss[i].pc.frame)| - st.ss[i].pc.sent
    ensures var pc := st.ss[i].pc;
            M.SentMore(st, i, n) == LoggedBytes(M.Suspend(st, i, pc.(sent := pc.sent + n)), pc.target,
                                                Encode(pc.frame)[pc.sent..pc.sent + n])
  {}

  // ------------------------------------------------ steps of the model, by section

  lemma EndStep(st: M.State, i: nat)
    requires i < |st.ss| == |st.hs|
    ensures var pc := st.ss[i].pc;
            pc.Receiving? || pc.LoginToken? || pc.ConnectToken? || pc.AcceptToken? ==>
              M.Enabled(st, M.ShortRead(i)) && M.Step(st, M.ShortRead(i)) == M.Close(st, i)
    ensures st.ss[i].pc.Splicing? ==>
              M.Enabled(st, M.SpliceEnd(i)) && M.Step(st, M.SpliceEnd(i)) == M.Close(st, i)
  {
    hide M.Close;
  }

  lemma ConnectStep(st: M.State, i: nat, mt: Token, gen: Token, found: Option<nat>)
    requires i < |st.ss| == |st.hs| && st.ss[i].pc.ConnectToken? && M.FindOk(st, M.Key(M.Forward, mt), found)
    requires found.Some? ==> found.value < |st.ss|
    ensures M.Enabled(st, M.ConnectTo(i, mt, gen, found))
    ensures M.Step(st, M.ConnectTo(i, mt, gen, found)) == M.ConnectLookup(st, i, mt, gen, found)
  {
    hide M.ConnectLookup, M.FindOk;
  }

  lemma AcceptStep(st: M.State, i: nat, mt: Token, found: Option<nat>)
    requires i < |st.ss| == |st.hs| && st.ss[i].pc.AcceptToken? && (found.Some? ==> found.value < |st.ss|)
    requires if st.ss[i].timeout > 0 then M.FindOk(st, M.Key(M.Connect, mt), found) else found == None
    ensures M.Enabled(st, M.AcceptOf(i, mt, found))
    ensures M.Step(st, M.AcceptOf(i, mt, found)) == M.AcceptTry(st, i, mt, st.ss[i].timeout, found)
  {
    hide M.AcceptTry, M.FindOk;
  }

  lemma AcceptedStep(st: M.State, fd: int, timeout: nat)
    requires M.Enabled(st, M.Accepted(fd, timeout))
    ensures M.Step(st, M.Accepted(fd, timeout)) == M.Admit(st, fd, timeout)
  {}

  lemma AtTask(st: M.State, i: nat)
    requires Inv(st) && i < |st.ss|
    ensures PcOk(st.ss[i], i) && IndexOk(st) && |st.hs| == |st.ss|
  {}

  lemma AtToken(st: M.State, i: nat)
    requires Inv(st) && i < |st.ss| && st.ss[i].pc.LoginToken?
    ensures Unnamed(st.ss[i]) && IndexOk(st) && |st.hs| == |st.ss|
  {
    AtTask(st, i);
  }

  lemma AtHeader(st: M.State, i: nat, cmd: Byte)
    requires Inv(st) && i < |st.ss| && st.ss[i].pc.Receiving?
    ensures AtCommand(st.ss[i]) && |st.hs| == |st.ss| && IndexOk(M.Noted(st, i, cmd))
    ensures M.Noted(st, i, cmd).ss == st.ss && M.Noted(st, i, cmd).order == st.order
  {
    AtTask(st, i);
    NotedIndex(st, i, cmd);
  }

  lemma LoginStep(st: M.State, i: nat, mt: Token, gen: Token, allowed: bool, found: Option<nat>)
    requires i < |st.ss| == |st.hs| && st.ss[i].pc.LoginToken? && (found.Some? ==> found.value < |st.ss|)
    requires if allowed then M.FindOk(st, M.Key(M.Forward, M.LoginName(mt, gen)), found) else found.None?
    ensures M.Enabled(st, M.Login(i, mt, gen, allowed, found))
    ensures M.Step(st, M.Login(i, mt, gen, allowed, found))
            == M.LoginLookup(st, i, st.ss[i].pc.ver, M.LoginName(mt, gen), allowed, found)
  {
    hide M.LoginLookup, M.FindOk;
  }

  lemma SendEndStep(st: M.State, i: nat, ok: bool)
    requires Inv(st) && M.Enabled(st, M.SendEnd(i, ok))
    ensures i < |st.ss| == |st.hs| && st.ss[i].pc.Writing? && st.ss[i].pc.target < |st.ss|
    ensures IndexOk(M.Released(st, i)) && PcsOk(M.Released(st, i).ss)
    ensures M.Step(st, M.SendEnd(i, ok)) == M.Continued(M.Released(st, i), i, ok)
  {
    hide M.Continued, M.Released;
    ReleasedSafe(st, i);
    ReleasedPcs(st, i);
  }

  lemma LockStep(st: M.State, i: nat)
    requires M.Enabled(st, M.Lock(i))
    ensures i < |st.ss| && st.ss[i].pc.Writing? && st.ss[i].pc.target < |st.ss|
    ensures M.Step(st, M.Lock(i)) == M.Locked(st, i)
  {}

  lemma SendStep(st: M.State, i: nat, n: nat)
    requires M.Enabled(st, M.Send(i, n))
    ensures i < |st.ss| == |st.hs| && st.ss[i].pc.Writing? && st.ss[i].pc.target < |st.ss|
    ensures n <= |Encode(st.ss[i].pc.frame)| - st.ss[i].pc.sent
    ensures M.Step(st, M.Send(i, n)) == M.SentMore(st, i, n)
  {
    hide M.SentMore;
  }

  lemma HeaderStep(st: M.State, i: nat, ver: Byte, cmd: Byte, gen: Token, allowed: bool, found: Option<nat>)
    requires i < |st.ss| == |st.hs| && st.ss[i].pc.Receiving? && (found.Some? ==> found.value < |st.ss|)
    requires if M.LooksUp(st, i, ver, cmd, allowed) then M.FindOk(M.Noted(st, i, cmd), M.Key(M.Forward, gen), found)
             else found.None?
    ensures M.Enabled(st, M.Header(i, ver, cmd, gen, allowed, found))
    ensures M.Step(st, M.Header(i, ver, cmd, gen, allowed, found))
            == M.Dispatch(M.Noted(st, i, cmd), i, ver, cmd, gen, allowed, found)
  {
    hide M.Dispatch;
  }

  lemma WakeStep(st: M.State, i: nat, left: nat, found: Option<nat>)
    requires i < |st.ss| == |st.hs| && (found.Some? ==> found.value < |st.ss|)
    requires match st.ss[i].pc
             case Rejecting(was) => left <= was
             case AwaitAccept(was) => left <= was
             case AwaitConnect(_, was) => left <= was
             case _ => false
    requires if st.ss[i].pc.AwaitConnect? && left > 0
             then M.FindOk(st, M.Key(M.Connect, st.ss[i].pc.token), found) else found == None
    ensures M.Enabled(st, M.Slept(i, left, found))
    ensures M.Step(st, M.Slept(i, left, found)) == M.Wake(st, i, left, found)
  {
    hide M.Wake, M.FindOk;
  }
}
