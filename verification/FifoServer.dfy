/**
 Sequence numbers over FIFOs: one server FIFO for the requests, one FIFO per client for the
 reply, in blocking or nonblocking mode, with clients that never read and clients that die.
 */
module FifoServer {
  import opened Ranges

  datatype Req = Req(pid: int, len: nat)

  datatype ServerPc =
    | Reading                                 // read(serverFd, &req, ...)
    | Opening(req: Req)                       // open(clientFifo, flag) is called
    | InOpen(req: Req)                        // the blocking open waits for a reader
    | Writing(req: Req)                       // write(clientFd, &resp, ...)
    | Closing(req: Req)                       // close(clientFd)
    | Advancing(req: Req)                     // seq_n += req.seqLen

  datatype ClientPc =
    | MakingFifo
    | Requesting
    | RequestSent                             // between the write and the open
    | OpeningFifo                             // in open(clientFifo, O_RDONLY)
    | Receiving                               // read(clientFd, &resp, ...)
    | Leaving                                 // the malicious client, before it exits
    | Got(seqNum: nat)
    | Gone(linked: bool)                      // ended without a number; a killed one leaves its FIFO

  datatype Content = Nothing | Holds(seqNum: nat)

  /** `met` says that the server has opened the client's FIFO; `fifo` is what is in it. */
  datatype Client = Client(len: nat, malicious: bool, pc: ClientPc, met: bool, fifo: Content)

  /** What became of a request; `seqNum` is the number in the response. */
  datatype Outcome = Discarded | OpenFailed | WriteFailed(seqNum: nat) | Delivered(seqNum: nat)

  datatype Handled = Handled(req: Req, outcome: Outcome)

  /** The clients by pid; `log` lists the requests dealt with and what became of them. */
  datatype State = State(
    requests: seq<Req>, seqN: nat, server: ServerPc, clients: map<int, Client>, log: seq<Handled>)

  datatype Moved = Blocked | To(next: State)

  /** The client has its FIFO open for reading, or is in the call that opens it. */
  predicate Reads(c: Client) {
    c.pc.OpeningFifo? || c.pc.Receiving?
  }

  predicate HasFifo(c: Client) {
    Reads(c) || c.pc.Requesting? || c.pc.RequestSent? || c.pc.Leaving? || c.pc == Gone(true)
  }

  predicate PeerReads(s: State, pid: int) {
    pid in s.clients && Reads(s.clients[pid])
  }

  predicate PeerHasFifo(s: State, pid: int) {
    pid in s.clients && HasFifo(s.clients[pid])
  }

  function SetClient(s: State, pid: int, c: Client): State {
    s.(clients := s.clients[pid := c])
  }

  /** Opening meets the reader. */
  function Meet(s: State, req: Req): State
    requires PeerReads(s, req.pid)
  {
    SetClient(s, req.pid, s.clients[req.pid].(met := true)).(server := Writing(req))
  }

  function Log(s: State, req: Req, outcome: Outcome): State {
    s.(log := s.log + [Handled(req, outcome)])
  }

  /** The server's next call; `ok` is whether the call succeeds when nothing prevents it. */
  function ServerStep(block: bool, s: State, ok: bool): Moved {
    match s.server
    case Reading =>
      if s.requests == [] then Blocked
      else
        var taken := s.(requests := s.requests[1..]);
        To(if ok then taken.(server := Opening(s.requests[0])) else Log(taken, s.requests[0], Discarded))
    case Opening(req) =>
      if !ok || !PeerHasFifo(s, req.pid) then To(Log(s, req, OpenFailed).(server := Reading))
      else if block then To(s.(server := InOpen(req)))
      else if PeerReads(s, req.pid) then To(Meet(s, req))
      else To(Log(s, req, OpenFailed).(server := Reading))
    case InOpen(req) =>
      if PeerReads(s, req.pid) then To(Meet(s, req)) else Blocked
    case Writing(req) =>
      if !ok || !PeerReads(s, req.pid) then To(Log(s, req, WriteFailed(s.seqN)).(server := Closing(req)))
      else
        To(SetClient(Log(s, req, Delivered(s.seqN)).(server := Closing(req)), req.pid,
                     s.clients[req.pid].(fifo := Holds(s.seqN))))
    case Closing(req) => To(s.(server := Advancing(req)))
    case Advancing(req) => To(s.(server := Reading, seqN := s.seqN + req.len))
  }

  /** The server has this client's FIFO open for writing. */
  predicate ServerHasOpen(s: State, pid: int) {
    (s.server.Writing? || s.server.Closing?) && s.server.req.pid == pid
  }

  /** The next call of a client; any client may also be killed. */
  function ClientStep(s: State, pid: int, killed: bool): Moved
    requires pid in s.clients
  {
    var c := s.clients[pid];
    if c.pc.Got? || c.pc.Gone? then Blocked
    else if killed then To(SetClient(s, pid, c.(pc := Gone(!c.pc.MakingFifo?))))
    else
      match c.pc
      case MakingFifo => To(SetClient(s, pid, c.(pc := Requesting)))
      case Requesting =>
        To(SetClient(s, pid, c.(pc := if c.malicious then Leaving else RequestSent))
           .(requests := s.requests + [Req(pid, c.len)]))
      case RequestSent => To(SetClient(s, pid, c.(pc := OpeningFifo)))
      case OpeningFifo =>
        if c.met then To(SetClient(s, pid, c.(pc := Receiving))) else Blocked
      case Receiving =>
        if c.fifo.Holds? then To(SetClient(s, pid, c.(pc := Got(c.fifo.seqNum))))
        else if ServerHasOpen(s, pid) then Blocked
        else To(SetClient(s, pid, c.(pc := Gone(false))))
      case _ => To(SetClient(s, pid, c.(pc := Gone(false))))
  }

  datatype Who = Server(ok: bool) | TheClient(pid: int, killed: bool)

  predicate Exists(s: State, who: Who) {
    who.TheClient? ==> who.pid in s.clients
  }

  function Step(block: bool, s: State, who: Who): Moved
    requires Exists(s, who)
  {
    match who
    case Server(ok) => ServerStep(block, s, ok)
    case TheClient(pid, killed) => ClientStep(s, pid, killed)
  }

  ghost predicate Init(s: State) {
    && s.requests == [] && s.seqN == 0 && s.server == Reading && s.log == []
    && forall pid | pid in s.clients ::
         s.clients[pid].pc == MakingFifo && !s.clients[pid].met && s.clients[pid].fifo == Nothing
  }

  ghost predicate Next(block: bool, s: State, s': State) {
    exists who: Who :: Exists(s, who) && Step(block, s, who) == To(s')
  }

  ghost predicate IsPath(block: bool, run: seq<State>) {
    |run| > 0 && forall t | 0 <= t < |run| - 1 :: Next(block, run[t], run[t + 1])
  }

  // ---- The log and what it says about the counter -----------------------------------------------

  function Reqs(log: seq<Handled>): seq<Req> {
    seq(|log|, k requires 0 <= k < |log| => log[k].req)
  }

  /** A failed open takes nothing; a failed write leaves its range unused. */
  predicate HasRange(o: Outcome) {
    o.WriteFailed? || o.Delivered?
  }

  /** The ranges of the responses made, as they were numbered. */
  function Opened(log: seq<Handled>): seq<Grant> {
    if log == [] then []
    else
      var h := log[|log| - 1];
      var before := Opened(log[..|log| - 1]);
      if HasRange(h.outcome) then before + [Grant(h.req.pid, h.outcome.seqNum, h.req.len)] else before
  }

  lemma OpenedExtends(log: seq<Handled>, h: Handled)
    ensures Opened(log + [h]) == if HasRange(h.outcome)
                                 then Opened(log) + [Grant(h.req.pid, h.outcome.seqNum, h.req.len)] else Opened(log)
  {
    assert (log + [h])[..|log|] == log;
  }

  // ---- Invariant ------------------------------------------------------------------------------

  /** Every request written so far, in the order of writing. */
  function Asked(s: State): seq<Req> {
    Reqs(s.log)
      + (if s.server.Opening? || s.server.InOpen? || s.server.Writing? then [s.server.req] else [])
      + s.requests
  }

  predicate HasAsked(c: Client) {
    !c.pc.MakingFifo? && !c.pc.Requesting?
  }

  ghost predicate ReqOk(clients: map<int, Client>, req: Req) {
    && req.pid in clients && clients[req.pid].len == req.len
    && (HasAsked(clients[req.pid]))
  }

  ghost predicate ClientOk(log: seq<Handled>, pid: int, c: Client) {
    && (c.fifo.Holds? ==>
          && Grant(pid, c.fifo.seqNum, c.len) in Opened(log)
          && Handled(Req(pid, c.len), Delivered(c.fifo.seqNum)) in log)
    && (c.pc.Got? ==> c.fifo == Holds(c.pc.seqNum))
    && (c.malicious ==> !Reads(c) && !c.pc.RequestSent? && !c.pc.Got?)
    && (!c.malicious ==> !c.pc.Leaving?)
  }

  ghost predicate AskedOk(clients: map<int, Client>, asked: seq<Req>) {
    && (forall k | 0 <= k < |asked| :: ReqOk(clients, asked[k]))
    && (forall k, l | 0 <= k < l < |asked| :: asked[k].pid != asked[l].pid)
  }

  predicate LastIs(log: seq<Handled>, req: Req) {
    |log| > 0 && log[|log| - 1].req == req
  }

  ghost predicate Inv(s: State) {
    && Tiles(Opened(s.log), s.seqN + Pending(s))
    && (s.server.Closing? || s.server.Advancing? ==> LastIs(s.log, s.server.req))
    && AskedOk(s.clients, Asked(s))
    && (forall pid | pid in s.clients :: ClientOk(s.log, pid, s.clients[pid]))
  }

  /** The length that is used up but not yet counted. */
  function Pending(s: State): nat {
    if s.server.Closing? || s.server.Advancing? then s.server.req.len else 0
  }

  lemma InitKeepsInv(s: State)
    requires Init(s)
    ensures Inv(s)
  {
  }

  lemma ReqsExtend(log: seq<Handled>, req: Req, outcome: Outcome)
    ensures Reqs(log + [Handled(req, outcome)]) == Reqs(log) + [req]
  {
  }

  /** The server takes the requests in the order of writing and loses none. */
  lemma ServerKeepsAsked(block: bool, s: State, ok: bool)
    requires ServerStep(block, s, ok).To?
    ensures Asked(ServerStep(block, s, ok).next) == Asked(s)
  {
    var s' := ServerStep(block, s, ok).next;
    if |s'.log| > |s.log| {
      var h := s'.log[|s.log|];
      ReqsExtend(s.log, h.req, h.outcome);
    }
    hide Reqs;
    if s.server.Reading? {
      assert s.requests == [s.requests[0]] + s.requests[1..];
    }
  }

  /** A client's request goes behind all those written before it; its other steps change none. */
  lemma ClientAsksLast(s: State, pid: int, killed: bool)
    requires pid in s.clients && ClientStep(s, pid, killed).To?
    ensures Asked(ClientStep(s, pid, killed).next)
         == Asked(s) + if s.clients[pid].pc.Requesting? && !killed then [Req(pid, s.clients[pid].len)] else []
  {
    hide Reqs;
    var s' := ClientStep(s, pid, killed).next;
    assert s'.log == s.log && s'.server == s.server;
  }

  lemma ServerKeepsClients(block: bool, s: State, ok: bool)
    requires ServerStep(block, s, ok).To?
    ensures var s' := ServerStep(block, s, ok).next;
            && s'.clients.Keys == s.clients.Keys
            && forall pid | pid in s.clients ::
                 var c, c' := s.clients[pid], s'.clients[pid];
                 && c'.len == c.len && c'.malicious == c.malicious && c'.pc == c.pc
                 && (c'.fifo == c.fifo
                     || (s.server.Writing? && pid == s.server.req.pid && PeerReads(s, pid)
                         && c'.fifo == Holds(s.seqN) && s'.log == s.log + [Handled(s.server.req, Delivered(s.seqN))]))
  {
  }

  lemma AskedOkAgain(before: map<int, Client>, after: map<int, Client>, asked: seq<Req>)
    requires AskedOk(before, asked) && before.Keys <= after.Keys
    requires forall pid | pid in before ::
               after[pid].len == before[pid].len && (HasAsked(before[pid]) ==> HasAsked(after[pid]))
    ensures AskedOk(after, asked)
  {
    forall k | 0 <= k < |asked| ensures ReqOk(after, asked[k]) {
      assert ReqOk(before, asked[k]);
    }
  }

  /** A longer log keeps what it said about a client. */
  lemma ClientOkStays(log: seq<Handled>, log': seq<Handled>, pid: int, c: Client, c': Client)
    requires ClientOk(log, pid, c)
    requires log' == log || exists h :: log' == log + [h]
    requires c'.len == c.len && c'.malicious == c.malicious && c'.pc == c.pc && c'.fifo == c.fifo
    ensures ClientOk(log', pid, c')
  {
    if log' != log {
      var h :| log' == log + [h];
      hide Opened;
      OpenedExtends(log, h);
    }
  }

  lemma DeliveryIsLogged(log: seq<Handled>, req: Req, n: nat)
    ensures var log' := log + [Handled(req, Delivered(n))];
            Grant(req.pid, n, req.len) in Opened(log') && Handled(req, Delivered(n)) in log'
  {
    var h := Handled(req, Delivered(n));
    hide Opened;
    OpenedExtends(log, h);
    assert (log + [h])[|log|] == h;
    assert Opened(log + [h])[|Opened(log)|] == Grant(req.pid, n, req.len);
  }

  lemma RequestOfServer(s: State)
    requires Inv(s) && (s.server.Opening? || s.server.InOpen? || s.server.Writing?)
    ensures ReqOk(s.clients, s.server.req)
  {
    hide ReqOk, ClientOk, Opened, Tiles;
    assert Asked(s)[|s.log|] == s.server.req;
  }

  /** What the server writes is the range that the log gives to the client. */
  lemma WrittenIsGranted(s: State, c': Client)
    requires Inv(s) && s.server.Writing? && PeerReads(s, s.server.req.pid)
    requires c' == s.clients[s.server.req.pid].(fifo := Holds(s.seqN))
    ensures ClientOk(s.log + [Handled(s.server.req, Delivered(s.seqN))], s.server.req.pid, c')
  {
    hide Opened, Tiles, AskedOk, Asked;
    RequestOfServer(s);
    DeliveryIsLogged(s.log, s.server.req, s.seqN);
    assert ClientOk(s.log, s.server.req.pid, s.clients[s.server.req.pid]);
  }

  lemma ServerCounts(block: bool, s: State, ok: bool)
    requires Inv(s) && ServerStep(block, s, ok).To?
    ensures var s' := ServerStep(block, s, ok).next;
            Tiles(Opened(s'.log), s'.seqN + Pending(s'))
            && (s'.server.Closing? || s'.server.Advancing? ==> LastIs(s'.log, s'.server.req))
            && (s'.log == s.log || exists h :: s'.log == s.log + [h])
  {
    hide AskedOk, ClientOk, Opened, Tiles, Asked;
    var s' := ServerStep(block, s, ok).next;
    if |s'.log| > |s.log| {
      var h := s'.log[|s.log|];
      OpenedExtends(s.log, h);
      if HasRange(h.outcome) {
        TilesExtend(Opened(s.log), Grant(h.req.pid, h.outcome.seqNum, h.req.len));
      }
      assert s'.log == s.log + [s'.log[|s.log|]];
    }
  }

  lemma ServerKeepsInv(block: bool, s: State, ok: bool)
    requires Inv(s) && ServerStep(block, s, ok).To?
    ensures Inv(ServerStep(block, s, ok).next)
  {
    var s' := ServerStep(block, s, ok).next;
    ServerKeepsAsked(block, s, ok);
    ServerKeepsClients(block, s, ok);
    ServerCounts(block, s, ok);
    AskedOkAgain(s.clients, s'.clients, Asked(s));
    forall pid | pid in s'.clients ensures ClientOk(s'.log, pid, s'.clients[pid]) {
      hide ServerStep, Opened, Asked, AskedOk;
      if s'.clients[pid].fifo == s.clients[pid].fifo {
        ClientOkStays(s.log, s'.log, pid, s.clients[pid], s'.clients[pid]);
      } else {
        assert ServerStep(block, s, ok) == To(s');
        WrittenIsGranted(s, s.clients[pid].(fifo := Holds(s.seqN)));
        ClientOkSame(s'.log, pid, s.clients[pid].(fifo := Holds(s.seqN)), s'.clients[pid]);
      }
    }
  }

  lemma ClientOkSame(log: seq<Handled>, pid: int, c: Client, c': Client)
    requires ClientOk(log, pid, c)
    requires c'.len == c.len && c'.malicious == c.malicious && c'.pc == c.pc && c'.fifo == c.fifo
    ensures ClientOk(log, pid, c')
  {
  }

  lemma ClientKeepsInv(s: State, pid: int, killed: bool)
    requires Inv(s) && pid in s.clients && ClientStep(s, pid, killed).To?
    ensures Inv(ClientStep(s, pid, killed).next)
  {
    hide Opened, Tiles;
    var s' := ClientStep(s, pid, killed).next;
    var c := s.clients[pid];
    assert ClientOk(s.log, pid, c);
    assert ClientOk(s'.log, pid, s'.clients[pid]);
    AskedOkAgain(s.clients, s'.clients, Asked(s));
    if !killed && c.pc.Requesting? {
      var asked := Asked(s);
      assert Asked(s') == asked + [Req(pid, c.len)];
      hide Asked;
      forall k | 0 <= k < |asked| ensures asked[k].pid != pid {
        assert ReqOk(s.clients, asked[k]);
      }
    } else {
      assert Asked(s') == Asked(s);
    }
  }

  lemma StepKeepsInv(block: bool, s: State, who: Who)
    requires Inv(s) && Exists(s, who) && Step(block, s, who).To?
    ensures Inv(Step(block, s, who).next)
  {
    hide Inv, ServerStep, ClientStep;
    match who
    case Server(ok) => ServerKeepsInv(block, s, ok);
    case TheClient(pid, killed) => ClientKeepsInv(s, pid, killed);
  }

  ghost predicate IsRun(block: bool, run: seq<State>) {
    IsPath(block, run) && Init(run[0])
  }

  lemma {:induction false} PathKeepsInv(block: bool, run: seq<State>, t: nat)
    requires IsPath(block, run) && Inv(run[0]) && t < |run|
    ensures Inv(run[t])
  {
    hide Inv, Step;
    if t > 0 {
      PathKeepsInv(block, run, t - 1);
      assert Next(block, run[t - 1], run[t - 1 + 1]);
      var who: Who :| Exists(run[t - 1], who) && Step(block, run[t - 1], who) == To(run[t]);
      StepKeepsInv(block, run[t - 1], who);
    }
  }

  lemma RunKeepsInv(block: bool, run: seq<State>, t: nat)
    requires IsRun(block, run) && t < |run|
    ensures Inv(run[t])
  {
    hide Inv, IsPath;
    InitKeepsInv(run[0]);
    PathKeepsInv(block, run, t);
  }

  lemma RunNext(block: bool, run: seq<State>, t: nat)
    requires IsRun(block, run) && 0 < t < |run|
    ensures Next(block, run[t - 1], run[t])
  {
    hide Next, Init;
    assert Next(block, run[t - 1], run[t - 1 + 1]);
  }

  // ---- Main results: the numbers -----------------------------------------------------------------

  /**
   In either mode and whatever fails, the ranges of the requests whose FIFO opened are pairwise
   disjoint, start one where the one before ends, and cover everything up to the counter.
   */
  lemma OpenedRangesTileTheCounter(block: bool, run: seq<State>, t: nat)
    requires IsRun(block, run) && t < |run|
    ensures Partition(Opened(run[t].log), run[t].seqN + Pending(run[t]))
  {
    hide Partition, Tiles, IsRun, Opened;
    RunKeepsInv(block, run, t);
    TilesPartition(Opened(run[t].log), run[t].seqN + Pending(run[t]));
  }

  /** A number that a client got is the start of the range logged for its own request, made once. */
  lemma EachClientGetsItsOwn(block: bool, run: seq<State>, t: nat, pid: int)
    requires IsRun(block, run) && t < |run| && pid in run[t].clients && run[t].clients[pid].pc.Got?
    ensures var c := run[t].clients[pid];
            && !c.malicious
            && Grant(pid, c.pc.seqNum, c.len) in Opened(run[t].log)
            && Handled(Req(pid, c.len), Delivered(c.pc.seqNum)) in run[t].log
            && forall h | h in run[t].log && h.req.pid == pid :: h == Handled(Req(pid, c.len), Delivered(c.pc.seqNum))
  {
    hide IsRun, Opened, Tiles;
    RunKeepsInv(block, run, t);
    var s := run[t];
    assert ClientOk(s.log, pid, s.clients[pid]);
    var own := Handled(Req(pid, s.clients[pid].len), Delivered(s.clients[pid].pc.seqNum));
    forall h | h in s.log && h.req.pid == pid ensures h == own {
      LoggedOnce(s, h, own);
    }
  }

  lemma LoggedOnce(s: State, h: Handled, own: Handled)
    requires AskedOk(s.clients, Asked(s)) && h in s.log && own in s.log && h.req.pid == own.req.pid
    ensures h == own
  {
    var k :| 0 <= k < |s.log| && s.log[k] == h;
    var l :| 0 <= l < |s.log| && s.log[l] == own;
    assert Asked(s)[k] == h.req && Asked(s)[l] == own.req;
  }

  /** The ranges delivered to two clients do not meet. */
  lemma DeliveredRangesAreDisjoint(block: bool, run: seq<State>, t: nat, p: int, q: int)
    requires IsRun(block, run) && t < |run| && p in run[t].clients && q in run[t].clients && p != q
    requires run[t].clients[p].pc.Got? && run[t].clients[q].pc.Got?
    ensures var a, b := run[t].clients[p], run[t].clients[q];
            a.pc.seqNum + a.len <= b.pc.seqNum || b.pc.seqNum + b.len <= a.pc.seqNum
  {
    hide IsRun, Opened, Tiles;
    OpenedRangesTileTheCounter(block, run, t);
    EachClientGetsItsOwn(block, run, t, p);
    EachClientGetsItsOwn(block, run, t, q);
    var g := Opened(run[t].log);
    var a, b := run[t].clients[p], run[t].clients[q];
    var k :| 0 <= k < |g| && g[k] == Grant(p, a.pc.seqNum, a.len);
    var l :| 0 <= l < |g| && g[l] == Grant(q, b.pc.seqNum, b.len);
  }

  /** What a request uses of the counter: nothing unless its FIFO opened, and then its length, written or not. */
  function Uses(h: Handled): nat {
    match h.outcome
    case Discarded => 0
    case OpenFailed => 0
    case WriteFailed(_) => h.req.len
    case Delivered(_) => h.req.len
  }

  function Used(log: seq<Handled>): nat {
    if log == [] then 0 else Used(log[..|log| - 1]) + Uses(log[|log| - 1])
  }

  predicate Numbered(o: Outcome) {
    match o
    case Discarded => false
    case OpenFailed => false
    case WriteFailed(_) => true
    case Delivered(_) => true
  }

  /** Each response carries what the requests before it have used. */
  ghost predicate NumbersOk(s: State) {
    Used(s.log) == s.seqN + Pending(s) && LogNumbered(s.log)
  }

  lemma UsedExtends(log: seq<Handled>, h: Handled)
    ensures Used(log + [h]) == Used(log) + Uses(h)
  {
    assert (log + [h])[..|log|] == log;
  }

  /** What a step writes into the log, and what it does to the counter. */
  lemma StepLogs(block: bool, s: State, who: Who)
    requires Exists(s, who) && Step(block, s, who).To?
    ensures var s' := Step(block, s, who).next;
            || (s'.log == s.log && s'.seqN + Pending(s') == s.seqN + Pending(s))
            || (|s'.log| == |s.log| + 1 && s'.log == s.log + [s'.log[|s.log|]] && Pending(s) == 0
                && s'.seqN + Pending(s') == s.seqN + Uses(s'.log[|s.log|])
                && (Numbered(s'.log[|s.log|].outcome) ==> s'.log[|s.log|].outcome.seqNum == s.seqN))
  {
  }

  ghost predicate LogNumbered(log: seq<Handled>) {
    forall k | 0 <= k < |log| && Numbered(log[k].outcome) :: log[k].outcome.seqNum == Used(log[..k])
  }

  lemma LogExtends(log: seq<Handled>, h: Handled)
    requires LogNumbered(log) && (Numbered(h.outcome) ==> h.outcome.seqNum == Used(log))
    ensures LogNumbered(log + [h])
  {
    hide Used;
    var more := log + [h];
    forall k | 0 <= k < |more| && Numbered(more[k].outcome) ensures more[k].outcome.seqNum == Used(more[..k]) {
      assert more[..k] == log[..k];
      assert log[..|log|] == log;
    }
  }

  lemma StepKeepsNumbers(block: bool, s: State, who: Who)
    requires Exists(s, who) && Step(block, s, who).To? && NumbersOk(s)
    ensures NumbersOk(Step(block, s, who).next)
  {
    hide Step, Used, LogNumbered, Uses, Numbered;
    var s' := Step(block, s, who).next;
    StepLogs(block, s, who);
    if s'.log != s.log {
      UsedExtends(s.log, s'.log[|s.log|]);
      LogExtends(s.log, s'.log[|s.log|]);
    }
  }

  lemma {:induction false} RunKeepsNumbers(block: bool, run: seq<State>, t: nat)
    requires IsRun(block, run) && t < |run|
    ensures NumbersOk(run[t])
  {
    hide Step, NumbersOk;
    if t == 0 {
      NumbersAtFirst(run[0]);
    } else {
      RunKeepsNumbers(block, run, t - 1);
      RunNext(block, run, t);
      hide IsRun;
      var who: Who :| Exists(run[t - 1], who) && Step(block, run[t - 1], who) == To(run[t]);
      StepKeepsNumbers(block, run[t - 1], who);
    }
  }

  lemma NumbersAtFirst(s: State)
    requires Init(s)
    ensures NumbersOk(s)
  {
  }

  lemma {:induction false} UsedGrows(log: seq<Handled>, k: nat, l: nat)
    requires k < l <= |log|
    ensures Used(log[..k]) + Uses(log[k]) <= Used(log[..l])
  {
    var front := log[..l];
    assert front[..l - 1] == log[..l - 1] && front[l - 1] == log[l - 1];
    if k < l - 1 {
      UsedGrows(log, k, l - 1);
    }
  }

  /**
   A failed open or a discarded request uses nothing of the counter; a failed write uses its
   length as a delivered one does, and no client is ever given any of that range.
   */
  lemma FailedWriteLeavesGap(block: bool, run: seq<State>, t: nat, k: nat, pid: int)
    requires IsRun(block, run) && t < |run| && k < |run[t].log| && run[t].log[k].outcome.WriteFailed?
    requires pid in run[t].clients && run[t].clients[pid].pc.Got?
    ensures var h, c := run[t].log[k], run[t].clients[pid];
            && h.outcome.seqNum == Used(run[t].log[..k])
            && (c.pc.seqNum + c.len <= h.outcome.seqNum || h.outcome.seqNum + h.req.len <= c.pc.seqNum)
    ensures run[t].seqN + Pending(run[t]) == Used(run[t].log)
  {
    hide IsRun, Used, Opened, Tiles;
    RunKeepsNumbers(block, run, t);
    EachClientGetsItsOwn(block, run, t, pid);
    var log, c := run[t].log, run[t].clients[pid];
    var own := Handled(Req(pid, c.len), Delivered(c.pc.seqNum));
    var l :| 0 <= l < |log| && log[l] == own;
    assert c.pc.seqNum == Used(log[..l]);
    if l < k {
      UsedGrows(log, l, k);
    } else {
      UsedGrows(log, k, l);
    }
  }

  // ---- Main results: waiting ---------------------------------------------------------------------

  /** The server runs on its own until it is back at its read. */
  function ServerAlone(block: bool, s: State, oks: seq<bool>): State
    decreases |oks|
  {
    if s.server.Reading? || oks == [] then s
    else
      match ServerStep(block, s, oks[0])
      case Blocked => s
      case To(next) => ServerAlone(block, next, oks[1..])
  }

  function StepsLeft(pc: ServerPc): nat {
    match pc
    case Reading => 0
    case Advancing(_) => 1
    case Closing(_) => 2
    case Writing(_) => 3
    case Opening(_) => 4
    case InOpen(_) => 4
  }

  /**
   In nonblocking mode the server deals with the request it has without a step of any client,
   whatever its calls return: it logs the request and takes no other.
   */
  lemma {:induction false} NonblockFinishesAlone(s: State, oks: seq<bool>)
    requires !s.server.InOpen? && StepsLeft(s.server) <= |oks|
    ensures var s' := ServerAlone(false, s, oks);
            && s'.server.Reading? && s'.requests == s.requests
            && Reqs(s'.log) == Reqs(s.log) + if s.server.Opening? || s.server.Writing? then [s.server.req] else []
    decreases |oks|
  {
    if !s.server.Reading? {
      var next := ServerStep(false, s, oks[0]).next;
      if |next.log| > |s.log| {
        ReqsExtend(s.log, s.server.req, next.log[|s.log|].outcome);
      }
      hide Reqs;
      NonblockFinishesAlone(next, oks[1..]);
    }
  }

  lemma {:induction false} NonblockNeverWaitsInOpen(run: seq<State>, t: nat)
    requires IsRun(false, run) && t < |run|
    ensures !run[t].server.InOpen?
  {
    if t > 0 {
      NonblockNeverWaitsInOpen(run, t - 1);
      assert Next(false, run[t - 1], run[t - 1 + 1]);
    }
  }

  /** At any point of a nonblocking run the request in hand is finished without the clients. */
  lemma NonblockServerNeverWaits(run: seq<State>, t: nat, oks: seq<bool>)
    requires IsRun(false, run) && t < |run| && |oks| >= 4
    ensures ServerAlone(false, run[t], oks).server.Reading?
    ensures !run[t].server.Reading? ==> LastIs(ServerAlone(false, run[t], oks).log, run[t].server.req)
  {
    hide IsRun, ServerAlone, Opened, Tiles;
    NonblockNeverWaitsInOpen(run, t);
    NonblockFinishesAlone(run[t], oks);
    RunKeepsInv(false, run, t);
    if !run[t].server.Reading? {
      LastRequest(run[t], ServerAlone(false, run[t], oks).log);
    }
  }

  lemma LastRequest(s: State, log: seq<Handled>)
    requires !s.server.Reading? && !s.server.InOpen?
    requires s.server.Closing? || s.server.Advancing? ==> LastIs(s.log, s.server.req)
    requires Reqs(log) == Reqs(s.log) + if s.server.Opening? || s.server.Writing? then [s.server.req] else []
    ensures LastIs(log, s.server.req)
  {
    assert |log| == |Reqs(log)| > 0;
    assert log[|log| - 1].req == Reqs(log)[|log| - 1];
    if s.server.Closing? || s.server.Advancing? {
      assert Reqs(s.log)[|s.log| - 1] == s.log[|s.log| - 1].req;
    }
  }

  /** The peer of a waiting server will never read. */
  predicate NeverReads(c: Client) {
    c.malicious || c.pc.Gone?
  }

  /** The server of `s` waits for a peer that never reads. */
  predicate HeldUp(s: State) {
    s.server.InOpen? && s.server.req.pid in s.clients && NeverReads(s.clients[s.server.req.pid])
  }

  /** The server can go on at once, or as soon as its peer has called open. */
  predicate GoesOn(block: bool, s: State, ok: bool)
    requires s.server.InOpen?
  {
    var pid := s.server.req.pid;
    || ServerStep(block, s, ok).To?
    || (pid in s.clients && ClientStep(s, pid, false).To? && ServerStep(block, ClientStep(s, pid, false).next, ok).To?)
  }

  /** In blocking mode the server is held up exactly by a peer that never reads. */
  lemma WaitsExactlyWhen(block: bool, run: seq<State>, t: nat, ok: bool)
    requires IsRun(block, run) && t < |run| && run[t].server.InOpen?
    ensures GoesOn(block, run[t], ok) <==> !HeldUp(run[t])
  {
    hide IsRun, Opened, Tiles;
    var s := run[t];
    RunKeepsInv(block, run, t);
    var pid := s.server.req.pid;
    RequestOfServer(s);
    var c := s.clients[pid];
    assert ClientOk(s.log, pid, c);
    if c.pc.Got? {
      InHandIsNotLogged(s, Handled(Req(pid, c.len), Delivered(c.fifo.seqNum)));
    }
  }

  /** The request in hand is not in the log. */
  lemma InHandIsNotLogged(s: State, h: Handled)
    requires AskedOk(s.clients, Asked(s)) && (s.server.Opening? || s.server.InOpen? || s.server.Writing?)
    ensures h in s.log ==> h.req.pid != s.server.req.pid
  {
    if h in s.log {
      var k :| 0 <= k < |s.log| && s.log[k] == h;
      assert Asked(s)[k] == h.req && Asked(s)[|s.log|] == s.server.req;
    }
  }

  /** Nothing was dealt with, and nobody's FIFO was filled, between the two states. */
  ghost predicate SameService(s: State, s': State) {
    && s'.server == s.server && s'.log == s.log && s'.seqN == s.seqN && s'.clients.Keys == s.clients.Keys
    && forall pid | pid in s.clients :: s'.clients[pid].fifo == s.clients[pid].fifo
  }

  lemma HeldUpStep(block: bool, s: State, s': State)
    requires Inv(s) && Next(block, s, s') && HeldUp(s)
    ensures HeldUp(s') && SameService(s, s')
  {
    hide AskedOk, Opened, Tiles;
    var who: Who :| Exists(s, who) && Step(block, s, who) == To(s');
    assert ClientOk(s.log, s.server.req.pid, s.clients[s.server.req.pid]);
    match who
    case Server(_) =>
    case TheClient(pid, killed) => HeldUpClientStep(s, pid, killed);
  }

  lemma HeldUpClientStep(s: State, pid: int, killed: bool)
    requires HeldUp(s) && pid in s.clients && ClientStep(s, pid, killed).To?
    requires ClientOk(s.log, s.server.req.pid, s.clients[s.server.req.pid])
    ensures HeldUp(ClientStep(s, pid, killed).next) && SameService(s, ClientStep(s, pid, killed).next)
  {
    hide Opened;
  }

  lemma SameServiceChains(a: State, b: State, c: State)
    requires SameService(a, b) && SameService(b, c)
    ensures SameService(a, c)
  {
  }

  /**
   Such a peer holds the server up for good: from then on no request of any client is dealt
   with and nobody's FIFO is filled.
   */
  lemma {:induction false} WaitsForever(block: bool, run: seq<State>, t: nat, u: nat)
    requires IsRun(block, run) && t <= u < |run| && HeldUp(run[t])
    ensures HeldUp(run[u]) && SameService(run[t], run[u])
    decreases u
  {
    if t < u {
      hide Inv, Next, HeldUp, IsRun, SameService;
      WaitsForever(block, run, t, u - 1);
      RunKeepsInv(block, run, u - 1);
      RunNext(block, run, u);
      HeldUpStep(block, run[u - 1], run[u]);
      SameServiceChains(run[t], run[u - 1], run[u]);
    } else {
      hide Inv, Next, HeldUp, IsRun;
    }
  }

  /** The documented case: one malicious client, and the blocking server serves nobody. */
  lemma MaliciousClientHoldsUpServer(pid: int, other: int) returns (run: seq<State>)
    requires pid != other
    ensures IsRun(true, run)
    ensures var s := run[|run| - 1];
            && HeldUp(s) && s.server.req.pid == pid
            && other in s.clients && !s.clients[other].malicious && s.clients[other].pc.RequestSent?
            && Req(other, s.clients[other].len) in s.requests
  {
    var m, c := Client(1, true, MakingFifo, false, Nothing), Client(1, false, MakingFifo, false, Nothing);
    var s0 := State([], 0, Reading, map[pid := m, other := c], []);
    var s1 := ClientStep(s0, pid, false).next;
    var s2 := ClientStep(s1, pid, false).next;
    var s3 := ClientStep(s2, other, false).next;
    var s4 := ClientStep(s3, other, false).next;
    assert Step(true, s0, TheClient(pid, false)) == To(s1) && Step(true, s1, TheClient(pid, false)) == To(s2);
    assert Step(true, s2, TheClient(other, false)) == To(s3) && Step(true, s3, TheClient(other, false)) == To(s4);
    assert s4.requests == [Req(pid, 1), Req(other, 1)];
    var s5 := ServerStep(true, s4, true).next;
    var s6 := ServerStep(true, s5, true).next;
    assert Step(true, s4, Server(true)) == To(s5) && Step(true, s5, Server(true)) == To(s6);
    assert s6.requests == [Req(other, 1)] && s6.requests[0] == Req(other, 1);
    run := [s0, s1, s2, s3, s4, s5, s6];
    hide Step, ClientStep, ServerStep;
    assert Next(true, s0, s1) && Next(true, s1, s2) && Next(true, s2, s3);
    assert Next(true, s3, s4) && Next(true, s4, s5) && Next(true, s5, s6);
  }

  /** A client whose request was dealt with in any other way than by a delivery has no number. */
  lemma OnlyDeliveredGet(block: bool, run: seq<State>, t: nat, h: Handled)
    requires IsRun(block, run) && t < |run| && h in run[t].log && !h.outcome.Delivered?
    ensures h.req.pid in run[t].clients && !run[t].clients[h.req.pid].pc.Got?
  {
    hide IsRun, Opened, Tiles;
    RunKeepsInv(block, run, t);
    var s := run[t];
    var k :| 0 <= k < |s.log| && s.log[k] == h;
    assert Asked(s)[k] == h.req && ReqOk(s.clients, h.req);
    if s.clients[h.req.pid].pc.Got? {
      EachClientGetsItsOwn(block, run, t, h.req.pid);
    }
  }

  /**
   The price of not waiting: an honest client that has not called open when the server does
   is passed over, and then waits in its open.
   */
  lemma LateClientIsPassedOver(pid: int, len: nat) returns (run: seq<State>)
    ensures IsRun(false, run)
    ensures var s := run[|run| - 1];
            && pid in s.clients && !s.clients[pid].malicious && s.log == [Handled(Req(pid, len), OpenFailed)]
            && s.clients[pid].pc.OpeningFifo? && ClientStep(s, pid, false) == Blocked
            && forall ok :: ServerStep(false, s, ok) == Blocked
  {
    var s0 := State([], 0, Reading, map[pid := Client(len, false, MakingFifo, false, Nothing)], []);
    var s1 := ClientStep(s0, pid, false).next;
    var s2 := ClientStep(s1, pid, false).next;
    assert Step(false, s0, TheClient(pid, false)) == To(s1) && Step(false, s1, TheClient(pid, false)) == To(s2);
    assert s2.requests == [Req(pid, len)];
    var s3 := ServerStep(false, s2, true).next;
    var s4 := ServerStep(false, s3, true).next;
    var s5 := ClientStep(s4, pid, false).next;
    assert Step(false, s2, Server(true)) == To(s3) && Step(false, s3, Server(true)) == To(s4);
    assert Step(false, s4, TheClient(pid, false)) == To(s5);
    run := [s0, s1, s2, s3, s4, s5];
    hide Step;
    assert Next(false, s0, s1) && Next(false, s1, s2) && Next(false, s2, s3);
    assert Next(false, s3, s4) && Next(false, s4, s5);
  }

  // ---- Main results: honest clients of the blocking server -----------------------------------------

  ghost predicate HonestNext(s: State, s': State) {
    exists who: Who :: Exists(s, who) && (if who.Server? then who.ok else !who.killed) && Step(true, s, who) == To(s')
  }

  /** A run in blocking mode in which no call fails, nobody is killed and every client reads. */
  ghost predicate IsHonestRun(run: seq<State>) {
    && |run| > 0 && Init(run[0])
    && (forall pid | pid in run[0].clients :: !run[0].clients[pid].malicious)
    && forall t | 0 <= t < |run| - 1 :: HonestNext(run[t], run[t + 1])
  }

  /** The client's request is in the FIFO or with the server, which has not opened yet. */
  ghost predicate Awaited(s: State, pid: int) {
    || ((s.server.Opening? || s.server.InOpen?) && s.server.req.pid == pid)
    || exists k :: 0 <= k < |s.requests| && s.requests[k].pid == pid
  }

  predicate BeingServed(s: State, pid: int) {
    s.server.Writing? && s.server.req.pid == pid
  }

  /** How far an honest client is: its number is on the way, being written, or still to come. */
  ghost predicate HonestOk(s: State, pid: int)
    requires pid in s.clients
  {
    var c := s.clients[pid];
    && !c.malicious && !c.pc.Leaving? && !c.pc.Gone?
    && (!HasAsked(c) ==> !c.met && c.fifo.Nothing?)
    && (HasAsked(c) && c.fifo.Nothing? ==>
          if c.met then Reads(c) && BeingServed(s, pid)
          else (c.pc.RequestSent? || c.pc.OpeningFifo?) && Awaited(s, pid))
    && (c.fifo.Holds? ==> c.met && !c.pc.RequestSent? && !BeingServed(s, pid))
    && (BeingServed(s, pid) ==> c.met)
  }

  ghost predicate Honest(s: State) {
    Inv(s) && forall pid | pid in s.clients :: HonestOk(s, pid)
  }

  /** The client whose request the server has is there, reads, and has no number yet. */
  lemma PeerOfHonest(s: State)
    requires Honest(s) && (s.server.Opening? || s.server.InOpen? || s.server.Writing?)
    ensures s.server.req.pid in s.clients
    ensures var c := s.clients[s.server.req.pid]; HasFifo(c) && c.fifo.Nothing? && (Reads(c) || c.pc.RequestSent?)
  {
    hide Opened, Tiles;
    RequestOfServer(s);
    var pid := s.server.req.pid;
    var c := s.clients[pid];
    assert ClientOk(s.log, pid, c) && HonestOk(s, pid);
    if c.fifo.Holds? {
      InHandIsNotLogged(s, Handled(Req(pid, c.len), Delivered(c.fifo.seqNum)));
    }
  }

  lemma AwaitedAfterRead(s: State, pid: int)
    requires s.server.Reading? && s.requests != [] && Awaited(s, pid)
    ensures Awaited(ServerStep(true, s, true).next, pid)
  {
    var s' := ServerStep(true, s, true).next;
    var k :| 0 <= k < |s.requests| && s.requests[k].pid == pid;
    assert k > 0 ==> s'.requests[k - 1] == s.requests[k];
  }

  lemma HonestServerStep(s: State, pid: int)
    requires Honest(s) && pid in s.clients && ServerStep(true, s, true).To?
    ensures pid in ServerStep(true, s, true).next.clients && HonestOk(ServerStep(true, s, true).next, pid)
  {
    var s' := ServerStep(true, s, true).next;
    assert HonestOk(s, pid);
    hide Inv;
    if s.server.Reading? {
      if Awaited(s, pid) {
        AwaitedAfterRead(s, pid);
      }
    } else {
      if s.server.Opening? || s.server.InOpen? || s.server.Writing? {
        PeerOfHonest(s);
      }
      assert s'.requests == s.requests;
    }
  }

  lemma HonestClientStep(s: State, pid: int, other: int)
    requires Honest(s) && pid in s.clients && other in s.clients && ClientStep(s, pid, false).To?
    ensures other in ClientStep(s, pid, false).next.clients && HonestOk(ClientStep(s, pid, false).next, other)
  {
    hide Inv;
    var s' := ClientStep(s, pid, false).next;
    assert HonestOk(s, pid) && HonestOk(s, other);
    assert s.requests <= s'.requests && s'.server == s.server;
    if Awaited(s, other) {
      AwaitedStays(s, s', other);
    }
    if other == pid && s.clients[pid].pc.Requesting? {
      assert s'.requests[|s.requests|].pid == pid;
    }
  }

  lemma AwaitedStays(s: State, s': State, pid: int)
    requires Awaited(s, pid) && s.requests <= s'.requests && s'.server == s.server
    ensures Awaited(s', pid)
  {
    if !((s.server.Opening? || s.server.InOpen?) && s.server.req.pid == pid) {
      var k :| 0 <= k < |s.requests| && s.requests[k].pid == pid;
      assert s'.requests[k] == s.requests[k];
    }
  }

  lemma HonestStep(s: State, who: Who)
    requires Honest(s) && Exists(s, who) && (if who.Server? then who.ok else !who.killed) && Step(true, s, who).To?
    ensures Honest(Step(true, s, who).next)
  {
    var s' := Step(true, s, who).next;
    StepKeepsInv(true, s, who);
    forall pid | pid in s'.clients ensures HonestOk(s', pid) {
      assert pid in s.clients;
      hide Inv, HonestOk, ServerStep, ClientStep;
      match who
      case Server(_) => HonestServerStep(s, pid);
      case TheClient(i, _) => HonestClientStep(s, i, pid);
    }
  }

  // ---- Their runs are finite ----------------------------------------------------------------------

  function Rank(pc: ClientPc): nat {
    match pc
    case MakingFifo => 5
    case Requesting => 4
    case RequestSent => 3
    case OpeningFifo => 2
    case Receiving => 1
    case _ => 0
  }

  /** The clients with at least `n` calls left. */
  function WithLeft(clients: map<int, Client>, n: nat): set<int> {
    set pid | pid in clients && Rank(clients[pid].pc) >= n
  }

  lemma WithLeftUpdate(clients: map<int, Client>, pid: int, c: Client, n: nat)
    requires pid in clients && Rank(c.pc) + 1 == Rank(clients[pid].pc)
    ensures |WithLeft(clients[pid := c], n)| == |WithLeft(clients, n)| - if Rank(clients[pid].pc) == n then 1 else 0
  {
    var before, after := WithLeft(clients, n), WithLeft(clients[pid := c], n);
    if Rank(clients[pid].pc) == n {
      assert before == after + {pid};
    } else {
      assert before == after;
    }
  }

  lemma WithLeftSame(before: map<int, Client>, after: map<int, Client>, n: nat)
    requires before.Keys == after.Keys && forall pid | pid in before :: after[pid].pc == before[pid].pc
    ensures WithLeft(after, n) == WithLeft(before, n)
  {
    forall pid ensures pid in WithLeft(after, n) <==> pid in WithLeft(before, n) {
      assert pid in after.Keys <==> pid in before.Keys;
    }
  }

  function ServerCalls(pc: ServerPc): nat {
    match pc
    case Opening(_) => 5
    case _ => StepsLeft(pc)
  }

  /** The calls left of all clients and, six for each request, of the server. */
  function CallsLeft(s: State): nat {
    var w := s.clients;
    |WithLeft(w, 1)| + |WithLeft(w, 2)| + |WithLeft(w, 3)| + 7 * |WithLeft(w, 4)| + |WithLeft(w, 5)|
      + 6 * |s.requests| + ServerCalls(s.server)
  }

  lemma HonestStepDecreases(s: State, who: Who)
    requires Honest(s) && Exists(s, who) && (if who.Server? then who.ok else !who.killed) && Step(true, s, who).To?
    ensures CallsLeft(Step(true, s, who).next) < CallsLeft(s)
  {
    var s' := Step(true, s, who).next;
    match who
    case Server(_) =>
      ServerKeepsClients(true, s, true);
      forall n: nat ensures WithLeft(s'.clients, n) == WithLeft(s.clients, n) {
        WithLeftSame(s.clients, s'.clients, n);
      }
      if s.server.Opening? {
        PeerOfHonest(s);
      }
    case TheClient(pid, _) =>
      assert HonestOk(s, pid);
      HonestRankDrops(s, pid);
      forall n: nat ensures |WithLeft(s'.clients, n)|
                         == |WithLeft(s.clients, n)| - if Rank(s.clients[pid].pc) == n then 1 else 0 {
        WithLeftUpdate(s.clients, pid, s'.clients[pid], n);
      }
  }

  lemma HonestRankDrops(s: State, pid: int)
    requires Honest(s) && pid in s.clients && ClientStep(s, pid, false).To?
    ensures var s' := ClientStep(s, pid, false).next;
            && s'.clients == s.clients[pid := s'.clients[pid]] && s'.server == s.server
            && Rank(s'.clients[pid].pc) + 1 == Rank(s.clients[pid].pc)
            && |s'.requests| == |s.requests| + if Rank(s.clients[pid].pc) == 4 then 1 else 0
  {
    hide Inv;
    assert HonestOk(s, pid);
  }

  predicate AllGot(s: State) {
    s.server.Reading? && s.requests == [] && forall pid | pid in s.clients :: s.clients[pid].pc.Got?
  }

  ghost predicate CanMoveHonestly(s: State) {
    exists who: Who :: Exists(s, who) && (if who.Server? then who.ok else !who.killed) && Step(true, s, who).To?
  }

  lemma InOpenMoves(s: State)
    requires Honest(s) && s.server.InOpen?
    ensures CanMoveHonestly(s)
  {
    PeerOfHonest(s);
    assert Step(true, s, Server(true)).To? || Step(true, s, TheClient(s.server.req.pid, false)).To?;
  }

  lemma HonestStuckExactlyWhen(s: State)
    requires Honest(s)
    ensures !CanMoveHonestly(s) <==> AllGot(s)
  {
    if !CanMoveHonestly(s) {
      assert !Step(true, s, Server(true)).To?;
      if s.server.InOpen? {
        InOpenMoves(s);
      }
      forall pid | pid in s.clients ensures s.clients[pid].pc.Got? {
        assert !Step(true, s, TheClient(pid, false)).To? && HonestOk(s, pid);
      }
    }
  }

  lemma {:induction false} HonestRunKeeps(run: seq<State>, t: nat)
    requires IsHonestRun(run) && t < |run|
    ensures Honest(run[t]) && CallsLeft(run[t]) + t <= CallsLeft(run[0])
  {
    hide Inv, Step, CallsLeft, HonestOk;
    if t == 0 {
      HonestStart(run[0]);
    } else {
      HonestRunKeeps(run, t - 1);
      assert HonestNext(run[t - 1], run[t - 1 + 1]);
      var s := run[t - 1];
      var who: Who :| Exists(s, who) && (if who.Server? then who.ok else !who.killed)
                      && Step(true, s, who) == To(run[t]);
      HonestStep(s, who);
      HonestStepDecreases(s, who);
    }
  }

  lemma HonestStart(s: State)
    requires Init(s) && forall pid | pid in s.clients :: !s.clients[pid].malicious
    ensures Honest(s)
  {
    InitKeepsInv(s);
    hide Inv;
  }

  lemma CallsAtFirst(s: State)
    requires Init(s)
    ensures CallsLeft(s) == 11 * |s.clients|
  {
    forall n: nat | n <= 5 ensures WithLeft(s.clients, n) == s.clients.Keys {
      assert forall pid :: pid in WithLeft(s.clients, n) <==> pid in s.clients.Keys;
    }
  }

  /**
   When every client reads and no call fails the blocking server serves everybody: every run
   is finite and one that cannot go on has given each client its number.
   */
  lemma HonestClientsAreServed(run: seq<State>)
    requires IsHonestRun(run)
    ensures |run| <= 11 * |run[0].clients| + 1
    ensures !CanMoveHonestly(run[|run| - 1]) <==> AllGot(run[|run| - 1])
  {
    CallsAtFirst(run[0]);
    hide Honest, CallsLeft, CanMoveHonestly;
    HonestRunKeeps(run, |run| - 1);
    HonestStuckExactlyWhen(run[|run| - 1]);
  }
}
