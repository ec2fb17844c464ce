/**
 Who is served by the nonblocking FIFO server when no call fails and nobody is killed: the
 clients that were in their open when the server opened, and nobody else.
 */
module FifoNonblock {
  import opened FifoServer

  predicate Calm(who: Who) {
    if who.Server? then who.ok else !who.killed
  }

  ghost predicate CalmNext(s: State, s': State) {
    exists who: Who :: Exists(s, who) && Calm(who) && Step(false, s, who) == To(s')
  }

  ghost predicate IsCalmRun(run: seq<State>) {
    |run| > 0 && Init(run[0]) && forall t | 0 <= t < |run| - 1 :: CalmNext(run[t], run[t + 1])
  }

  lemma CalmRunIsRun(run: seq<State>)
    requires IsCalmRun(run)
    ensures IsRun(false, run)
  {
    hide Step;
    forall t | 0 <= t < |run| - 1 ensures Next(false, run[t], run[t + 1]) {
      assert CalmNext(run[t], run[t + 1]);
    }
  }

  /** The server's open of this client's FIFO failed. */
  ghost predicate PassedOver(s: State, pid: int)
    requires pid in s.clients
  {
    Handled(Req(pid, s.clients[pid].len), OpenFailed) in s.log
  }

  /** How far an honest client is: its number is on the way, being written, still to come, or never to come. */
  ghost predicate CalmOk(s: State, pid: int)
    requires pid in s.clients
  {
    var c := s.clients[pid];
    && !c.pc.Leaving? && !c.pc.Gone?
    && (!HasAsked(c) ==> !c.met && c.fifo.Nothing?)
    && (HasAsked(c) && c.fifo.Nothing? ==>
          if c.met then Reads(c) && BeingServed(s, pid)
          else (c.pc.RequestSent? || c.pc.OpeningFifo?) && (Awaited(s, pid) || PassedOver(s, pid)))
    && (c.fifo.Holds? ==> c.met && !c.pc.RequestSent? && !BeingServed(s, pid))
    && (BeingServed(s, pid) ==> c.met)
  }

  ghost predicate CalmState(s: State) {
    && Inv(s) && !s.server.InOpen?
    && forall pid | pid in s.clients && !s.clients[pid].malicious :: CalmOk(s, pid)
  }

  /** The client whose request the server has has no number yet, and that request carries its length. */
  lemma PeerHasNothing(s: State)
    requires Inv(s) && (s.server.Opening? || s.server.Writing?)
    ensures var req := s.server.req;
            req.pid in s.clients && HasAsked(s.clients[req.pid]) && s.clients[req.pid].fifo.Nothing?
            && req == Req(req.pid, s.clients[req.pid].len)
  {
    hide Opened, Ranges.Tiles;
    RequestOfServer(s);
    var pid := s.server.req.pid;
    var c := s.clients[pid];
    assert ClientOk(s.log, pid, c);
    if c.fifo.Holds? {
      InHandIsNotLogged(s, Handled(Req(pid, c.len), Delivered(c.fifo.seqNum)));
    }
  }

  lemma LogGrows(s: State, s': State, h: Handled)
    requires h in s.log && s.log <= s'.log
    ensures h in s'.log
  {
  }

  lemma ServerLogGrows(s: State)
    requires ServerStep(false, s, true).To?
    ensures s.log <= ServerStep(false, s, true).next.log
  {
  }

  lemma CalmServerStep(s: State, pid: int)
    requires CalmState(s) && pid in s.clients && !s.clients[pid].malicious && ServerStep(false, s, true).To?
    ensures pid in ServerStep(false, s, true).next.clients && CalmOk(ServerStep(false, s, true).next, pid)
  {
    var s' := ServerStep(false, s, true).next;
    assert CalmOk(s, pid);
    ServerLogGrows(s);
    if PassedOver(s, pid) {
      LogGrows(s, s', Handled(Req(pid, s.clients[pid].len), OpenFailed));
    }
    if s.server.Reading? {
      if Awaited(s, pid) {
        AwaitedAfterRead(s, pid);
      }
    } else {
      if s.server.Opening? || s.server.Writing? {
        PeerHasNothing(s);
      }
      if s'.log != s.log {
        assert s'.log[|s.log|].req == s.server.req;
      }
      assert s'.requests == s.requests;
    }
    hide Inv;
  }

  lemma CalmClientStep(s: State, pid: int, other: int)
    requires CalmState(s) && pid in s.clients && other in s.clients && !s.clients[other].malicious
    requires ClientStep(s, pid, false).To?
    ensures other in ClientStep(s, pid, false).next.clients && CalmOk(ClientStep(s, pid, false).next, other)
  {
    hide Inv;
    var s' := ClientStep(s, pid, false).next;
    assert CalmOk(s, other);
    assert s.requests <= s'.requests && s'.server == s.server && s'.log == s.log;
    if Awaited(s, other) {
      AwaitedStays(s, s', other);
    }
    if other == pid && s.clients[pid].pc.Requesting? {
      assert s'.requests[|s.requests|].pid == pid;
    }
  }

  lemma CalmStep(s: State, who: Who)
    requires CalmState(s) && Exists(s, who) && Calm(who) && Step(false, s, who).To?
    ensures CalmState(Step(false, s, who).next)
  {
    var s' := Step(false, s, who).next;
    StepKeepsInv(false, s, who);
    SameClients(s, who);
    forall pid | pid in s'.clients && !s'.clients[pid].malicious ensures CalmOk(s', pid) {
      hide Inv, CalmOk, ServerStep, ClientStep;
      match who
      case Server(_) => CalmServerStep(s, pid);
      case TheClient(i, _) => CalmClientStep(s, i, pid);
    }
    hide Inv, CalmOk;
  }

  lemma SameClients(s: State, who: Who)
    requires Exists(s, who) && Step(false, s, who).To?
    ensures Step(false, s, who).next.clients.Keys == s.clients.Keys
    ensures forall pid | pid in s.clients :: Step(false, s, who).next.clients[pid].malicious == s.clients[pid].malicious
  {
  }

  lemma {:induction false} CalmRunKeeps(run: seq<State>, t: nat)
    requires IsCalmRun(run) && t < |run|
    ensures CalmState(run[t])
  {
    hide Inv, Step, CalmOk;
    if t == 0 {
      CalmStart(run[0]);
    } else {
      CalmRunKeeps(run, t - 1);
      assert CalmNext(run[t - 1], run[t - 1 + 1]);
      var who: Who :| Exists(run[t - 1], who) && Calm(who) && Step(false, run[t - 1], who) == To(run[t]);
      CalmStep(run[t - 1], who);
    }
  }

  lemma CalmStart(s: State)
    requires Init(s)
    ensures CalmState(s)
  {
    InitKeepsInv(s);
    hide Inv;
  }

  // ---- Runs that cannot go on ----------------------------------------------------------------------

  ghost predicate CanMoveCalmly(s: State) {
    exists who: Who :: Exists(s, who) && Calm(who) && Step(false, s, who).To?
  }

  /** At the end an honest client has its number, or was passed over and waits in its open. */
  lemma EndOfClient(s: State, pid: int)
    requires CalmState(s) && !CanMoveCalmly(s) && pid in s.clients && !s.clients[pid].malicious
    ensures var c := s.clients[pid];
            (c.pc.Got? && c.met) || (c.pc.OpeningFifo? && !c.met && PassedOver(s, pid))
  {
    assert !Step(false, s, Server(true)).To? && !Step(false, s, TheClient(pid, false)).To?;
    assert s.server.Reading? && s.requests == [];
    assert CalmOk(s, pid);
    hide Inv;
  }

  // ---- The server's open ---------------------------------------------------------------------------

  /** In step `t` the server opens this client's FIFO, or fails to. */
  predicate OpensAt(run: seq<State>, t: nat, pid: int) {
    && t + 1 < |run| && run[t].server.Opening? && run[t].server.req.pid == pid
    && run[t + 1].server != run[t].server
  }

  ghost predicate OpenedBefore(run: seq<State>, u: nat, pid: int) {
    exists t: nat :: t < u && OpensAt(run, t, pid)
  }

  /** The request has been taken further than the server's open. */
  ghost predicate PastOpen(s: State, pid: int) {
    (s.server.Writing? && s.server.req.pid == pid) || exists h :: h in s.log && h.req.pid == pid
  }

  lemma PastOpenStep(s: State, who: Who, pid: int)
    requires Exists(s, who) && Calm(who) && !s.server.InOpen? && Step(false, s, who).To?
    requires PastOpen(Step(false, s, who).next, pid)
    ensures PastOpen(s, pid)
         || (s.server.Opening? && s.server.req.pid == pid && Step(false, s, who).next.server != s.server)
  {
    var s' := Step(false, s, who).next;
    if h :| h in s'.log && h.req.pid == pid {
      if h !in s.log {
        assert s'.log == s.log + [h] by { NewEntry(s, who, h); }
      }
    }
  }

  lemma NewEntry(s: State, who: Who, h: Handled)
    requires Exists(s, who) && Step(false, s, who).To? && h in Step(false, s, who).next.log && h !in s.log
    ensures Step(false, s, who).next.log == s.log + [h] && who.Server?
  {
  }

  lemma {:induction false} PastOpenWasOpened(run: seq<State>, u: nat, pid: int)
    requires IsCalmRun(run) && u < |run| && PastOpen(run[u], pid)
    ensures OpenedBefore(run, u, pid)
  {
    hide Step, PastOpen;
    if u == 0 {
      NothingAtFirst(run[0], pid);
    } else {
      assert CalmNext(run[u - 1], run[u - 1 + 1]);
      var who: Who :| Exists(run[u - 1], who) && Calm(who) && Step(false, run[u - 1], who) == To(run[u]);
      CalmRunKeeps(run, u - 1);
      PastOpenStep(run[u - 1], who, pid);
      if PastOpen(run[u - 1], pid) {
        PastOpenWasOpened(run, u - 1, pid);
        var t: nat :| t < u - 1 && OpensAt(run, t, pid);
        assert OpensAt(run, t, pid) && t < u;
      } else {
        assert OpensAt(run, u - 1, pid);
      }
    }
  }

  lemma NothingAtFirst(s: State, pid: int)
    requires Init(s)
    ensures !PastOpen(s, pid)
  {
  }

  /** What a step keeps: an opened FIFO stays met, an entry stays in the log. */
  lemma CalmKeeps(s: State, who: Who, pid: int, h: Handled)
    requires Exists(s, who) && Step(false, s, who).To? && pid in s.clients
    ensures pid in Step(false, s, who).next.clients
    ensures s.clients[pid].met ==> Step(false, s, who).next.clients[pid].met
    ensures s.clients[pid].len == Step(false, s, who).next.clients[pid].len
    ensures h in s.log ==> h in Step(false, s, who).next.log
  {
  }

  lemma {:induction false} RunKeeps(run: seq<State>, t: nat, u: nat, pid: int, h: Handled)
    requires IsCalmRun(run) && t <= u < |run| && pid in run[t].clients
    ensures pid in run[u].clients && run[u].clients[pid].len == run[t].clients[pid].len
    ensures run[t].clients[pid].met ==> run[u].clients[pid].met
    ensures h in run[t].log ==> h in run[u].log
    decreases u
  {
    hide Step;
    if t < u {
      RunKeeps(run, t, u - 1, pid, h);
      assert CalmNext(run[u - 1], run[u - 1 + 1]);
      var who: Who :| Exists(run[u - 1], who) && Calm(who) && Step(false, run[u - 1], who) == To(run[u]);
      CalmKeeps(run[u - 1], who, pid, h);
    }
  }

  /** The open meets the client exactly if the client is in its own. */
  lemma OpenMeets(run: seq<State>, t: nat, pid: int)
    requires IsCalmRun(run) && OpensAt(run, t, pid)
    ensures pid in run[t].clients && pid in run[t + 1].clients && run[t + 1].clients[pid].len == run[t].clients[pid].len
    ensures if Reads(run[t].clients[pid]) then run[t + 1].clients[pid].met
            else Handled(Req(pid, run[t].clients[pid].len), OpenFailed) in run[t + 1].log
  {
    var s := run[t];
    CalmRunKeeps(run, t);
    assert CalmNext(s, run[t + 1]);
    PeerHasNothing(s);
    hide IsCalmRun, Inv, CalmOk;
    var who: Who :| Exists(s, who) && Calm(who) && Step(false, s, who) == To(run[t + 1]);
    if !Reads(s.clients[pid]) {
      assert run[t + 1].log[|s.log|] == Handled(s.server.req, OpenFailed);
    }
  }

  // ---- Main result ---------------------------------------------------------------------------------

  /**
   In a nonblocking run that cannot go on, with no failing call and nobody killed, the server
   has opened each honest client's FIFO once or tried to; the client has its number exactly if
   it was in its own open then, and otherwise it waits there, with the failure logged.
   */
  lemma ServedExactlyIfInOpen(run: seq<State>, pid: int)
    requires IsCalmRun(run) && !CanMoveCalmly(run[|run| - 1])
    requires pid in run[|run| - 1].clients && !run[|run| - 1].clients[pid].malicious
    ensures OpenedBefore(run, |run| - 1, pid)
    ensures forall t: nat | OpensAt(run, t, pid) ::
              && pid in run[t].clients
              && (run[|run| - 1].clients[pid].pc.Got? <==> Reads(run[t].clients[pid]))
    ensures var last := run[|run| - 1];
            last.clients[pid].pc.Got? || (last.clients[pid].pc.OpeningFifo? && PassedOver(last, pid))
  {
    var end := |run| - 1;
    var last := run[end];
    CalmRunIsRun(run);
    CalmRunKeeps(run, end);
    EndOfClient(last, pid);
    hide CanMoveCalmly, CalmState, IsRun;
    if last.clients[pid].pc.Got? {
      EachClientGetsItsOwn(false, run, end, pid);
    }
    PastOpenWasOpened(run, end, pid);
    forall t: nat | OpensAt(run, t, pid)
      ensures pid in run[t].clients && (last.clients[pid].pc.Got? <==> Reads(run[t].clients[pid]))
    {
      OpenMeets(run, t, pid);
      var failed := Handled(Req(pid, run[t].clients[pid].len), OpenFailed);
      RunKeeps(run, t + 1, end, pid, failed);
      hide IsCalmRun;
      if failed in last.log {
        OnlyDeliveredGet(false, run, end, failed);
      }
    }
  }
}
