/** Which KEEP_ALIVEs the server answers, counted over whole runs. */
module SessionReplies {
  import opened Bytes
  import opened Frames
  import opened SessionModel
  import opened SessionInvariants
  import opened SessionSteps
  import SessionLives
  import SessionRuns
  import SessionSafety
  import SessionTasks
  import SessionWire

  /** The KEEP_ALIVEs among some sends. */
  function KeepAlives(sends: seq<Sent>): nat {
    if sends == [] then 0
    else KeepAlives(sends[..|sends| - 1]) + (if sends[|sends| - 1].frame.KeepAliveFrame? then 1 else 0)
  }

  lemma KeepAlivesAppend(sends: seq<Sent>, p: Sent)
    ensures KeepAlives(sends + [p]) == KeepAlives(sends) + (if p.frame.KeepAliveFrame? then 1 else 0)
  {
    assert (sends + [p])[..|sends|] == sends;
  }

  predicate Replying(pc: Pc) {
    pc.Writing? && pc.frame.KeepAliveFrame?
  }

  /** The KEEP_ALIVEs on connection j: those of which something went out, and the
      one that is still to be sent. */
  function Replies(st: State, j: nat): nat
    requires j < |st.ss| && j < |st.hs|
  {
    KeepAlives(st.hs[j].sends) + (if Replying(st.ss[j].pc) then 1 else 0)
  }

  /** The header of a KEEP_ALIVE, byte 2, of another version than 1. */
  predicate Asks(e: Event, j: nat) {
    e.Header? && e.i == j && e.cmd == 2 && e.ver != 1
  }

  /** How many of them session j has received in the first n steps. */
  function Asked(es: seq<Event>, j: nat, n: nat): nat
    requires n <= |es|
  {
    if n == 0 then 0 else Asked(es, j, n - 1) + (if Asks(es[n - 1], j) then 1 else 0)
  }

  /** A reply ends before its first byte. */
  predicate Loses(st: State, e: Event, j: nat) {
    e.SendEnd? && e.i == j && j < |st.ss| && Replying(st.ss[j].pc) && st.ss[j].pc.sent == 0
  }

  ghost predicate HasLost(tr: seq<State>, es: seq<Event>, j: nat, n: nat) {
    exists k :: 0 <= k < n && k < |es| && k < |tr| && Loses(tr[k], es[k], j)
  }

  lemma SilentReplies(st: State, e: Event, j: nat)
    requires Inv(st) && Enabled(st, e) && WritesNothing(e) && j < |st.ss|
    ensures j < |Step(st, e).ss|
    ensures Replying(Step(st, e).ss[j].pc) <==> Asks(e, j) || Replying(st.ss[j].pc)
    ensures Asks(e, j) ==> !Replying(st.ss[j].pc)
  {
    hide Inv, Step;
    if e.i != j {
      OthersWait(st, e, j);
    } else {
      match e
      case Header(_, _, _, _, _, _) => HeaderReplies(st, e);
      case Login(_, _, _, _, _) => LookupReplies(st, e);
      case ConnectTo(_, _, _, _) => LookupReplies(st, e);
      case _ => WaiterTask(st, e);
    }
  }

  lemma HeaderReplies(st: State, e: Event)
    requires Inv(st) && Enabled(st, e) && e.Header?
    ensures e.i < |st.ss| && st.ss[e.i].pc.Receiving? && e.i < |Step(st, e).ss|
    ensures Replying(Step(st, e).ss[e.i].pc) <==> e.cmd == 2 && e.ver != 1
  {
    hide Inv, Step;
    SessionTasks.CommandMeans(st, e);
  }

  lemma LookupReplies(st: State, e: Event)
    requires Inv(st) && Enabled(st, e) && (e.Login? || e.ConnectTo?)
    ensures e.i < |st.ss| && !st.ss[e.i].pc.Writing?
    ensures e.i < |Step(st, e).ss| && !Replying(Step(st, e).ss[e.i].pc)
  {
    hide Inv, Step, SessionTasks.NoneRegistered;
    if e.Login? {
      SessionTasks.LoginMeans(st, e);
      assert (forall k :: 0 <= k < 16 ==> e.mt[k] == 0) || exists k :: 0 <= k < 16 && e.mt[k] != 0;
    } else {
      SessionTasks.ConnectMeans(st, e);
    }
  }

  /** Each KEEP_ALIVE that asks for a reply starts one, and a reply is lost only if
      nothing of it has gone out. */
  lemma StepReplies(st: State, e: Event, j: nat)
    requires Inv(st) && Enabled(st, e) && j < |st.ss| == |st.hs|
    ensures j < |Step(st, e).ss| && j < |Step(st, e).hs|
    ensures Replies(Step(st, e), j) + (if Loses(st, e, j) then 1 else 0)
            == Replies(st, j) + (if Asks(e, j) then 1 else 0)
  {
    hide Inv, Step, Enabled;
    if WritesNothing(e) {
      SilentReplies(st, e, j);
      SessionWire.SilentLogs(st, e, j);
    } else if e.SendEnd? {
      EndReplies(st, e, j);
    } else {
      SenderReplies(st, e, j);
    }
  }

  lemma SenderReplies(st: State, e: Event, j: nat)
    requires Inv(st) && Enabled(st, e) && (e.Accepted? || e.Lock? || e.Send?) && j < |st.ss| == |st.hs|
    ensures j < |Step(st, e).ss| && j < |Step(st, e).hs| && Step(st, e).hs[j].sends == st.hs[j].sends
    ensures Replying(Step(st, e).ss[j].pc) <==> Replying(st.ss[j].pc)
  {
    hide Inv, Locked, SentMore;
    match e
    case Accepted(_, _) =>
    case Lock(i) => SessionWire.LockedRole(st, i, j);
    case Send(i, n) => SessionWire.SentRole(st, i, n, j);
  }

  lemma EndReplies(st: State, e: Event, j: nat)
    requires Inv(st) && Enabled(st, e) && e.SendEnd? && j < |st.ss| == |st.hs|
    ensures j < |Step(st, e).ss| && j < |Step(st, e).hs|
    ensures Replies(Step(st, e), j) + (if Loses(st, e, j) then 1 else 0) == Replies(st, j)
  {
    hide Continued, Released, Recorded, SessionSafety.Safe, KeepAlives, Step;
    var pc := st.ss[e.i].pc;
    assert PcOk(st.ss[e.i], e.i);
    EndedSends(st, e, j);
    if pc.sent > 0 && j == pc.target {
      KeepAlivesAppend(st.hs[j].sends, Sent(pc.frame, pc.sent));
    } else {
      assert st.hs[j].sends + [] == st.hs[j].sends;
    }
  }

  lemma EndedSends(st: State, e: Event, j: nat)
    requires Inv(st) && Enabled(st, e) && e.SendEnd? && j < |st.ss| == |st.hs|
    ensures e.i < |st.ss| && j < |Step(st, e).ss| && j < |Step(st, e).hs|
    ensures var pc := st.ss[e.i].pc;
            Step(st, e).hs[j].sends
            == st.hs[j].sends + (if j == pc.target && pc.sent > 0 then [Sent(pc.frame, pc.sent)] else [])
    ensures if j == e.i then !Step(st, e).ss[j].pc.Writing? else Step(st, e).ss[j].pc == st.ss[j].pc
  {
    hide Continued, Released, Recorded, SessionSafety.Safe;
    SessionWire.EndedLogs(st, e.i, e.ok);
    SessionWire.RecordedSends(st.hs, e.i, st.ss[e.i].pc, j);
    EndedTasks(st, e.i, e.ok, j);
  }

  /** In every run, the KEEP_ALIVEs on a connection, sent or still to be sent, are as
      many as it has received of another version than 1, but for one whose reply
      failed before its first byte, with which the session has ended. */
  lemma {:induction false} RepliesOfRuns(tr: seq<State>, es: seq<Event>, n: nat, j: nat)
    requires Run(tr, es) && n < |tr| && j < |tr[n].ss|
    ensures |tr[n].hs| == |tr[n].ss|
    ensures Replies(tr[n], j) + (if HasLost(tr, es, j, n) then 1 else 0) == Asked(es, j, n)
    ensures HasLost(tr, es, j, n) ==> tr[n].ss[j].pc.Dead?
  {
    hide Enabled, Step, Inv, Replies, Loses, Asks;
    SessionRuns.RunInv(tr, es, n);
    Logs(tr[n]);
    if n > 0 {
      SessionRuns.RunInv(tr, es, n - 1);
      Logs(tr[n - 1]);
      if j >= |tr[n - 1].ss| {
        Newcomers(tr[n - 1], es[n - 1], j);
        SessionLives.Arrives(tr[n - 1], es[n - 1]);
        SessionLives.NotYetTaken(tr, es, n - 1, j);
        NewReplies(tr, es, n, j);
      } else {
        RepliesOfRuns(tr, es, n - 1, j);
        StepReplies(tr[n - 1], es[n - 1], j);
        LostOnce(tr, es, n, j);
      }
    }
  }

  lemma Logs(st: State)
    requires Inv(st)
    ensures |st.hs| == |st.ss|
  {}

  lemma LostOnce(tr: seq<State>, es: seq<Event>, n: nat, j: nat)
    requires Run(tr, es) && 0 < n < |tr| && j < |tr[n - 1].ss| && Inv(tr[n - 1])
    requires HasLost(tr, es, j, n - 1) ==> tr[n - 1].ss[j].pc.Dead?
    ensures HasLost(tr, es, j, n) <==> HasLost(tr, es, j, n - 1) || Loses(tr[n - 1], es[n - 1], j)
    ensures HasLost(tr, es, j, n - 1) ==> !Loses(tr[n - 1], es[n - 1], j)
    ensures HasLost(tr, es, j, n) ==> j < |tr[n].ss| && tr[n].ss[j].pc.Dead?
  {
    hide Enabled, Step, Inv;
    if HasLost(tr, es, j, n - 1) {
      SessionLives.DeadStays(tr[n - 1], es[n - 1], j);
    } else if Loses(tr[n - 1], es[n - 1], j) {
      LoserEnds(tr[n - 1], es[n - 1]);
    }
  }

  lemma LoserEnds(st: State, e: Event)
    requires Inv(st) && Enabled(st, e) && e.SendEnd?
    requires e.i < |st.ss| && st.ss[e.i].pc.Writing? && st.ss[e.i].pc.sent == 0
    ensures e.i < |Step(st, e).ss| && Step(st, e).ss[e.i].pc.Dead?
  {
    hide Inv, Step;
    SessionTasks.SendEndMeans(st, e);
  }

  lemma NewReplies(tr: seq<State>, es: seq<Event>, n: nat, j: nat)
    requires Run(tr, es) && 0 < n < |tr| && |tr[n].hs| == |tr[n].ss|
    requires j == |tr[n].ss| - 1 == |tr[n - 1].ss| == |tr[n - 1].hs|
    requires es[n - 1].Accepted? && tr[n].ss[j].pc.Receiving?
    requires forall k :: 0 <= k < n ==> !SessionLives.TakenBy(es, j, k)
    ensures Replies(tr[n], j) == 0 == Asked(es, j, n) && !HasLost(tr, es, j, n)
  {
    hide Step, Enabled;
    NewSends(tr[n - 1], es[n - 1]);
    NeverAsked(es, j, n);
    forall k | 0 <= k < n && k < |tr| ensures !Loses(tr[k], es[k], j) {
      assert !SessionLives.TakenBy(es, j, k);
    }
  }

  lemma NewSends(st: State, e: Event)
    requires Enabled(st, e) && e.Accepted?
    ensures |Step(st, e).hs| == |st.hs| + 1 && Step(st, e).hs[|st.hs|].sends == []
  {}

  lemma {:induction false} NeverAsked(es: seq<Event>, j: nat, n: nat)
    requires n <= |es| && forall k :: 0 <= k < n ==> !SessionLives.TakenBy(es, j, k)
    ensures Asked(es, j, n) == 0
  {
    if n > 0 {
      assert !SessionLives.TakenBy(es, j, n - 1);
      NeverAsked(es, j, n - 1);
    }
  }
}
