/**
 Sequence numbers over one message queue: clients post requests of type 1, the server
 replies on the same queue with the client's pid as type.
 */
module MsgQueue {
  import opened Ranges

  const REQUEST_TYPE: int := 1

  datatype Body = Request(pid: int, len: nat) | Response(seqNum: nat)

  datatype Msg = Msg(mtype: int, body: Body)

  datatype ServerPc =
    | Receiving                        // msgrcv(qid, &req, SIZE, 1, 0)
    | Replying(pid: int, len: nat)     // msgsnd(qid, &resp, SIZE, 0)
    | Advancing(pid: int, len: nat)    // seq_num += req.seqLen
    | Confused                         // took something that is no request

  datatype ClientPc = Starting | Waiting | Got(seqNum: nat)

  datatype Client = Client(pid: int, len: nat, pc: ClientPc)

  /** `granted` records the replies in the order they were sent. */
  datatype State = State(queue: seq<Msg>, seqNum: nat, server: ServerPc, clients: seq<Client>, granted: seq<Grant>)

  datatype Moved = Blocked | To(next: State)

  /** The first message of the given type, or the length of the queue. */
  function FirstOf(queue: seq<Msg>, mtype: int): (i: nat)
    ensures i <= |queue| && forall k | 0 <= k < i :: queue[k].mtype != mtype
    ensures i < |queue| ==> queue[i].mtype == mtype
  {
    if queue == [] || queue[0].mtype == mtype then 0 else 1 + FirstOf(queue[1..], mtype)
  }

  function Without(queue: seq<Msg>, i: nat): seq<Msg>
    requires i < |queue|
  {
    queue[..i] + queue[i + 1..]
  }

  function ServerStep(cap: nat, s: State): Moved {
    match s.server
    case Receiving =>
      var i := FirstOf(s.queue, REQUEST_TYPE);
      if i == |s.queue| then Blocked
      else
        var body := s.queue[i].body;
        To(s.(queue := Without(s.queue, i),
              server := if body.Request? then Replying(body.pid, body.len) else Confused))
    case Replying(pid, len) =>
      if |s.queue| >= cap then Blocked
      else To(s.(queue := s.queue + [Msg(pid, Response(s.seqNum))], server := Advancing(pid, len),
                 granted := s.granted + [Grant(pid, s.seqNum, len)]))
    case Advancing(pid, len) => To(s.(seqNum := s.seqNum + len, server := Receiving))
    case Confused => Blocked
  }

  function ClientStep(cap: nat, s: State, i: nat): Moved
    requires i < |s.clients|
  {
    var c := s.clients[i];
    match c.pc
    case Starting =>
      if |s.queue| >= cap then Blocked
      else To(s.(queue := s.queue + [Msg(REQUEST_TYPE, Request(c.pid, c.len))],
                 clients := s.clients[i := c.(pc := Waiting)]))
    case Waiting =>
      var at := FirstOf(s.queue, c.pid);
      if at == |s.queue| || !s.queue[at].body.Response? then Blocked
      else To(s.(queue := Without(s.queue, at),
                 clients := s.clients[i := c.(pc := Got(s.queue[at].body.seqNum))]))
    case Got(_) => Blocked
  }

  datatype Who = Server | TheClient(i: nat)

  function Step(cap: nat, s: State, who: Who): Moved
    requires who.TheClient? ==> who.i < |s.clients|
  {
    match who
    case Server => ServerStep(cap, s)
    case TheClient(i) => ClientStep(cap, s, i)
  }

  ghost predicate Init(s: State) {
    && s.queue == [] && s.seqNum == 0 && s.server == Receiving && s.granted == []
    && (forall i | 0 <= i < |s.clients| :: s.clients[i].pc == Starting && s.clients[i].pid != 1)
    && (forall i, j | 0 <= i < j < |s.clients| :: s.clients[i].pid != s.clients[j].pid)
  }

  ghost predicate Next(cap: nat, s: State, s': State) {
    exists who: Who :: (who.TheClient? ==> who.i < |s.clients|) && Step(cap, s, who) == To(s')
  }

  ghost predicate IsRun(cap: nat, run: seq<State>) {
    && |run| > 0
    && Init(run[0])
    && forall t | 0 <= t < |run| - 1 :: Next(cap, run[t], run[t + 1])
  }

  // ---- Each request is in exactly one place ------------------------------------------------

  /** The client a message is from or for. */
  function Owner(m: Msg): int {
    if m.body.Request? then m.body.pid else m.mtype
  }

  ghost predicate IsGranted(g: seq<Grant>, pid: int) {
    exists k :: 0 <= k < |g| && g[k].pid == pid
  }

  ghost predicate WaitingClient(s: State, pid: int, len: nat) {
    exists i :: 0 <= i < |s.clients| && s.clients[i].pid == pid && s.clients[i].len == len && s.clients[i].pc == Waiting
  }

  ghost predicate InQueue(s: State, pid: int) {
    exists a :: 0 <= a < |s.queue| && Owner(s.queue[a]) == pid
  }

  /** A message of the queue: a request of a waiting client, or the reply granted to one. */
  ghost predicate MsgOk(s: State, m: Msg) {
    match m.body
    case Request(pid, len) => m.mtype == REQUEST_TYPE && WaitingClient(s, pid, len) && !IsGranted(s.granted, pid)
    case Response(seqNum) =>
      exists k :: 0 <= k < |s.granted| && s.granted[k].pid == m.mtype && s.granted[k].start == seqNum
                  && WaitingClient(s, m.mtype, s.granted[k].len)
  }

  ghost predicate ClientOk(s: State, c: Client) {
    match c.pc
    case Starting => !InQueue(s, c.pid) && !IsGranted(s.granted, c.pid) && !Held(s, c.pid)
    case Waiting => InQueue(s, c.pid) || Held(s, c.pid)
    case Got(x) => !InQueue(s, c.pid) && !Held(s, c.pid) && Grant(c.pid, x, c.len) in s.granted
  }

  /** The server has taken the request and not yet replied. */
  predicate Held(s: State, pid: int) {
    s.server.Replying? && s.server.pid == pid
  }

  ghost predicate ClientsDistinct(s: State) {
    && (forall i | 0 <= i < |s.clients| :: s.clients[i].pid != REQUEST_TYPE)
    && (forall i, j | 0 <= i < j < |s.clients| :: s.clients[i].pid != s.clients[j].pid)
  }

  ghost predicate OwnersDistinct(s: State) {
    forall a, b | 0 <= a < b < |s.queue| :: Owner(s.queue[a]) != Owner(s.queue[b])
  }

  ghost predicate ServerOk(s: State) {
    && !s.server.Confused?
    && Tiles(s.granted, s.seqNum + if s.server.Advancing? then s.server.len else 0)
    && (s.server.Replying? ==>
          && WaitingClient(s, s.server.pid, s.server.len)
          && !InQueue(s, s.server.pid) && !IsGranted(s.granted, s.server.pid))
    && (forall k, l | 0 <= k < l < |s.granted| :: s.granted[k].pid != s.granted[l].pid)
  }

  ghost predicate Inv(s: State) {
    && ClientsDistinct(s) && OwnersDistinct(s) && ServerOk(s)
    && (forall a | 0 <= a < |s.queue| :: MsgOk(s, s.queue[a]))
    && (forall i | 0 <= i < |s.clients| :: ClientOk(s, s.clients[i]))
  }

  lemma InitKeepsInv(s: State)
    requires Init(s)
    ensures Inv(s)
  {
  }

  lemma SameClient(s: State, i: nat, j: nat)
    requires ClientsDistinct(s) && i < |s.clients| && j < |s.clients| && s.clients[i].pid == s.clients[j].pid
    ensures i == j
  {
  }

  // ---- Every step keeps the invariant ----------------------------------------------------

  /** Taking a message out leaves the others, in order, and their owners. */
  lemma TakenOut(s: State, i: nat, s': State)
    requires i < |s.queue| && s'.queue == Without(s.queue, i) && OwnersDistinct(s)
    ensures forall a | 0 <= a < |s'.queue| :: s'.queue[a] in s.queue && Owner(s'.queue[a]) != Owner(s.queue[i])
    ensures OwnersDistinct(s')
    ensures forall pid :: InQueue(s', pid) <==> InQueue(s, pid) && pid != Owner(s.queue[i])
  {
    forall a | 0 <= a < |s'.queue|
      ensures s'.queue[a] == s.queue[if a < i then a else a + 1]
      ensures Owner(s'.queue[a]) != Owner(s.queue[i])
    {
    }
    forall pid | InQueue(s, pid) && pid != Owner(s.queue[i]) ensures InQueue(s', pid) {
      var a :| 0 <= a < |s.queue| && Owner(s.queue[a]) == pid;
      assert s'.queue[if a < i then a else a - 1] == s.queue[a];
    }
  }

  lemma PutIn(s: State, m: Msg, s': State)
    requires s'.queue == s.queue + [m]
    ensures forall pid :: InQueue(s', pid) <==> InQueue(s, pid) || pid == Owner(m)
    ensures OwnersDistinct(s) && !InQueue(s, Owner(m)) ==> OwnersDistinct(s')
  {
    assert s'.queue[|s.queue|] == m;
    forall pid | InQueue(s, pid) ensures InQueue(s', pid) {
      var a :| 0 <= a < |s.queue| && Owner(s.queue[a]) == pid;
      assert s'.queue[a] == s.queue[a];
    }
  }

  lemma ReceiveStep(cap: nat, s: State)
    requires Inv(s) && s.server.Receiving? && ServerStep(cap, s).To?
    ensures Inv(ServerStep(cap, s).next)
  {
    var s' := ServerStep(cap, s).next;
    var i := FirstOf(s.queue, REQUEST_TYPE);
    assert MsgOk(s, s.queue[i]);
    TakenOut(s, i, s');
    var pid := Owner(s.queue[i]);
    assert s'.clients == s.clients && s'.granted == s.granted;
    hide OwnersDistinct, InQueue, FirstOf, Without;
    forall a | 0 <= a < |s'.queue| ensures MsgOk(s', s'.queue[a]) {
      assert MsgOk(s, s'.queue[a]);
    }
    forall j | 0 <= j < |s.clients| ensures ClientOk(s', s'.clients[j]) {
      assert ClientOk(s, s.clients[j]);
    }
  }

  lemma ReplyStep(cap: nat, s: State)
    requires Inv(s) && s.server.Replying? && ServerStep(cap, s).To?
    ensures Inv(ServerStep(cap, s).next)
  {
    var s' := ServerStep(cap, s).next;
    var pid, len := s.server.pid, s.server.len;
    var g := Grant(pid, s.seqNum, len);
    PutIn(s, Msg(pid, Response(s.seqNum)), s');
    assert s'.granted == s.granted + [g] && s'.clients == s.clients;
    assert s'.granted[..|s'.granted| - 1] == s.granted;
    forall q ensures IsGranted(s'.granted, q) <==> IsGranted(s.granted, q) || q == pid {
      assert s'.granted[|s.granted|] == g;
      if k :| 0 <= k < |s.granted| && s.granted[k].pid == q {
        assert s'.granted[k] == s.granted[k];
      }
    }
    hide OwnersDistinct, InQueue, Tiles;
    forall a | 0 <= a < |s'.queue| ensures MsgOk(s', s'.queue[a]) {
      ReplyKeepsMsg(s, s', g, a);
    }
    forall j | 0 <= j < |s.clients| ensures ClientOk(s', s'.clients[j]) {
      assert ClientOk(s, s.clients[j]);
    }
    TilesExtend(s.granted, g);
  }

  lemma ReplyKeepsMsg(s: State, s': State, g: Grant, a: nat)
    requires s'.queue == s.queue + [Msg(g.pid, Response(g.start))] && s'.granted == s.granted + [g]
    requires s'.clients == s.clients && a < |s'.queue|
    requires WaitingClient(s, g.pid, g.len) && !InQueue(s, g.pid)
    requires forall b | 0 <= b < |s.queue| :: MsgOk(s, s.queue[b])
    ensures MsgOk(s', s'.queue[a])
  {
    assert WaitingClient(s', g.pid, g.len);
    assert s'.granted[|s.granted|] == g;
    if a < |s.queue| {
      var m := s.queue[a];
      assert MsgOk(s, m) && Owner(m) != g.pid;
      if m.body.Response? {
        var k :| 0 <= k < |s.granted| && s.granted[k].pid == m.mtype && s.granted[k].start == m.body.seqNum
                 && WaitingClient(s, m.mtype, s.granted[k].len);
        assert s'.granted[k] == s.granted[k] && WaitingClient(s', m.mtype, s.granted[k].len);
      } else {
        assert WaitingClient(s', m.body.pid, m.body.len);
      }
    }
  }

  lemma AdvanceStep(cap: nat, s: State)
    requires Inv(s) && s.server.Advancing? && ServerStep(cap, s).To?
    ensures Inv(ServerStep(cap, s).next)
  {
    var s' := ServerStep(cap, s).next;
    assert s' == s.(seqNum := s.seqNum + s.server.len, server := Receiving);
    hide Tiles;
    forall a | 0 <= a < |s.queue| ensures MsgOk(s', s'.queue[a]) {
      assert MsgOk(s, s.queue[a]);
    }
    forall j | 0 <= j < |s.clients| ensures ClientOk(s', s'.clients[j]) {
      assert ClientOk(s, s.clients[j]);
      assert InQueue(s', s.clients[j].pid) <==> InQueue(s, s.clients[j].pid);
    }
  }

  /** Another client's place is not touched when client `i` moves. */
  lemma OthersStay(s: State, s': State, i: nat, pid: int, len: nat)
    requires ClientsDistinct(s) && i < |s.clients| && |s'.clients| == |s.clients|
    requires forall j | 0 <= j < |s.clients| && j != i :: s'.clients[j] == s.clients[j]
    requires s'.clients[i].pid == s.clients[i].pid
    requires pid != s.clients[i].pid
    ensures WaitingClient(s', pid, len) <==> WaitingClient(s, pid, len)
  {
    if k :| 0 <= k < |s.clients| && s.clients[k].pid == pid && s.clients[k].len == len && s.clients[k].pc == Waiting {
      assert s'.clients[k] == s.clients[k];
    }
    if k :| 0 <= k < |s.clients| && s'.clients[k].pid == pid && s'.clients[k].len == len
            && s'.clients[k].pc == Waiting {
      assert s'.clients[k] == s.clients[k];
    }
  }

  lemma OtherMessagesStay(s: State, s': State, i: nat, m: Msg)
    requires ClientsDistinct(s) && i < |s.clients| && |s'.clients| == |s.clients| && s'.granted == s.granted
    requires forall j | 0 <= j < |s.clients| && j != i :: s'.clients[j] == s.clients[j]
    requires s'.clients[i].pid == s.clients[i].pid
    requires MsgOk(s, m) && Owner(m) != s.clients[i].pid
    ensures MsgOk(s', m)
  {
    if m.body.Response? {
      var k :| 0 <= k < |s.granted| && s.granted[k].pid == m.mtype && s.granted[k].start == m.body.seqNum
               && WaitingClient(s, m.mtype, s.granted[k].len);
      OthersStay(s, s', i, m.mtype, s.granted[k].len);
    } else {
      OthersStay(s, s', i, m.body.pid, m.body.len);
    }
  }

  lemma SendStep(cap: nat, s: State, i: nat)
    requires Inv(s) && i < |s.clients| && s.clients[i].pc == Starting && ClientStep(cap, s, i).To?
    ensures Inv(ClientStep(cap, s, i).next)
  {
    var s' := ClientStep(cap, s, i).next;
    var c := s.clients[i];
    var m := Msg(REQUEST_TYPE, Request(c.pid, c.len));
    assert ClientOk(s, c);
    PutIn(s, m, s');
    assert s'.clients == s.clients[i := c.(pc := Waiting)] && s'.granted == s.granted;
    assert s'.clients[i].pc == Waiting && WaitingClient(s', c.pid, c.len);
    hide OwnersDistinct, InQueue, Tiles;
    forall a | 0 <= a < |s'.queue| ensures MsgOk(s', s'.queue[a]) {
      if a < |s.queue| {
        NotOwnedBy(s, c.pid, a);
        OtherMessagesStay(s, s', i, s.queue[a]);
      }
    }
    if s.server.Replying? {
      OthersStay(s, s', i, s.server.pid, s.server.len);
    }
    OtherClientsStay(s, s', i);
  }

  lemma NotOwnedBy(s: State, pid: int, a: nat)
    requires !InQueue(s, pid) && a < |s.queue|
    ensures Owner(s.queue[a]) != pid
  {
  }

  lemma OtherClientsStay(s: State, s': State, i: nat)
    requires Inv(s) && i < |s.clients| && |s'.clients| == |s.clients|
    requires s'.granted == s.granted && s'.server == s.server
    requires forall j | 0 <= j < |s.clients| && j != i :: s'.clients[j] == s.clients[j]
    requires forall pid | pid != s.clients[i].pid :: InQueue(s', pid) <==> InQueue(s, pid)
    ensures forall j | 0 <= j < |s.clients| && j != i :: ClientOk(s', s'.clients[j])
  {
    hide InQueue, Tiles, OwnersDistinct;
    forall j | 0 <= j < |s.clients| && j != i ensures ClientOk(s', s'.clients[j]) {
      assert ClientOk(s, s.clients[j]);
      assert s.clients[j].pid != s.clients[i].pid;
    }
  }

  lemma CollectStep(cap: nat, s: State, i: nat)
    requires Inv(s) && i < |s.clients| && s.clients[i].pc == Waiting && ClientStep(cap, s, i).To?
    ensures Inv(ClientStep(cap, s, i).next)
    ensures exists k :: 0 <= k < |s.granted| && s.granted[k].pid == s.clients[i].pid
                        && ClientStep(cap, s, i).next.clients[i].pc == Got(s.granted[k].start)
  {
    var s' := ClientStep(cap, s, i).next;
    var c := s.clients[i];
    var at := FirstOf(s.queue, c.pid);
    var m := s.queue[at];
    var k := ReplyFor(s, i);
    TakenOut(s, at, s');
    assert s'.clients == s.clients[i := c.(pc := Got(m.body.seqNum))] && s'.granted == s.granted;
    assert IsGranted(s.granted, c.pid) && (s.server.Replying? ==> s.server.pid != c.pid);
    hide OwnersDistinct, InQueue, Tiles, FirstOf, Without, ClientStep;
    forall a | 0 <= a < |s'.queue| ensures MsgOk(s', s'.queue[a]) {
      OtherMessagesStay(s, s', i, s'.queue[a]);
    }
    if s.server.Replying? {
      OthersStay(s, s', i, s.server.pid, s.server.len);
    }
    OtherClientsStay(s, s', i);
  }

  /** The reply a waiting client finds was granted to it. */
  lemma ReplyFor(s: State, i: nat) returns (k: nat)
    requires Inv(s) && i < |s.clients|
    requires var at := FirstOf(s.queue, s.clients[i].pid); at < |s.queue| && s.queue[at].body.Response?
    ensures var m := s.queue[FirstOf(s.queue, s.clients[i].pid)];
            && Owner(m) == s.clients[i].pid && k < |s.granted|
            && s.granted[k] == Grant(s.clients[i].pid, m.body.seqNum, s.clients[i].len)
  {
    hide Tiles, OwnersDistinct;
    var c := s.clients[i];
    var m := s.queue[FirstOf(s.queue, c.pid)];
    assert MsgOk(s, m) && Owner(m) == c.pid;
    k :| 0 <= k < |s.granted| && s.granted[k].pid == m.mtype && s.granted[k].start == m.body.seqNum
         && WaitingClient(s, m.mtype, s.granted[k].len);
    var l :| 0 <= l < |s.clients| && s.clients[l].pid == c.pid && s.clients[l].len == s.granted[k].len
             && s.clients[l].pc == Waiting;
    SameClient(s, i, l);
  }

  lemma StepKeepsInv(cap: nat, s: State, who: Who)
    requires Inv(s) && (who.TheClient? ==> who.i < |s.clients|) && Step(cap, s, who).To?
    ensures Inv(Step(cap, s, who).next)
  {
    hide Inv;
    if who == Server {
      match s.server
      case Receiving => ReceiveStep(cap, s);
      case Replying(_, _) => ReplyStep(cap, s);
      case Advancing(_, _) => AdvanceStep(cap, s);
      case Confused =>
    } else if s.clients[who.i].pc == Starting {
      SendStep(cap, s, who.i);
    } else if s.clients[who.i].pc == Waiting {
      CollectStep(cap, s, who.i);
    }
  }

  // ---- The order of service ----------------------------------------------------------------

  datatype Req = Req(pid: int, len: nat)

  function Given(granted: seq<Grant>): seq<Req> {
    seq(|granted|, k requires 0 <= k < |granted| => Req(granted[k].pid, granted[k].len))
  }

  function RequestOf(m: Msg): seq<Req> {
    if m.body.Request? then [Req(m.body.pid, m.body.len)] else []
  }

  /** The requests among the messages, in the order of the queue. */
  function Posted(queue: seq<Msg>): seq<Req> {
    if queue == [] then [] else RequestOf(queue[0]) + Posted(queue[1..])
  }

  /** Every request posted so far: those granted, the one in the server's hand, those in the queue. */
  function Asked(s: State): seq<Req> {
    Given(s.granted) + (if s.server.Replying? then [Req(s.server.pid, s.server.len)] else []) + Posted(s.queue)
  }

  lemma {:induction false} PostedAppends(a: seq<Msg>, b: seq<Msg>)
    ensures Posted(a + b) == Posted(a) + Posted(b)
  {
    if a == [] {
      assert a + b == b;
    } else {
      assert (a + b)[1..] == a[1..] + b;
      PostedAppends(a[1..], b);
    }
  }

  lemma {:induction false} NoRequests(queue: seq<Msg>)
    requires forall a | 0 <= a < |queue| :: !queue[a].body.Request?
    ensures Posted(queue) == []
  {
    if queue != [] {
      NoRequests(queue[1..]);
    }
  }

  lemma PostedOne(m: Msg)
    ensures Posted([m]) == RequestOf(m)
  {
    assert [m][1..] == [];
  }

  lemma SplitAround(queue: seq<Msg>, i: nat)
    requires i < |queue|
    ensures queue == queue[..i] + [queue[i]] + queue[i + 1..]
  {
  }

  /** Message `i` and what is before and behind it. */
  lemma PostedAround(queue: seq<Msg>, i: nat)
    requires i < |queue|
    ensures Posted(queue) == Posted(queue[..i]) + RequestOf(queue[i]) + Posted(queue[i + 1..])
    ensures Posted(Without(queue, i)) == Posted(queue[..i]) + Posted(queue[i + 1..])
  {
    hide Posted, RequestOf;
    var front, back := queue[..i], queue[i + 1..];
    SplitAround(queue, i);
    PostedAppends(front + [queue[i]], back);
    PostedAppends(front, [queue[i]]);
    PostedOne(queue[i]);
    PostedAppends(front, back);
  }

  /** What the server takes is the earliest request in the queue. */
  lemma ReceivesEarliest(cap: nat, s: State)
    requires Inv(s) && s.server.Receiving? && ServerStep(cap, s).To?
    ensures var s' := ServerStep(cap, s).next;
            s'.server.Replying? && Posted(s.queue) == [Req(s'.server.pid, s'.server.len)] + Posted(s'.queue)
  {
    hide Posted, Inv, Without;
    var i := FirstOf(s.queue, REQUEST_TYPE);
    FirstRequest(s);
    NoRequests(s.queue[..i]);
    PostedAround(s.queue, i);
  }

  /** No message before the first one of the request type is a request. */
  lemma FirstRequest(s: State)
    requires Inv(s) && FirstOf(s.queue, REQUEST_TYPE) < |s.queue|
    ensures s.queue[FirstOf(s.queue, REQUEST_TYPE)].body.Request?
    ensures forall a | 0 <= a < FirstOf(s.queue, REQUEST_TYPE) :: !s.queue[a].body.Request?
  {
    hide Tiles;
    var i := FirstOf(s.queue, REQUEST_TYPE);
    assert MsgOk(s, s.queue[i]);
    forall a | 0 <= a < i ensures !s.queue[a].body.Request? {
      assert MsgOk(s, s.queue[a]);
    }
  }

  lemma ServerKeepsOrder(cap: nat, s: State)
    requires Inv(s) && ServerStep(cap, s).To?
    ensures Asked(ServerStep(cap, s).next) == Asked(s)
  {
    hide Posted, RequestOf;
    var s' := ServerStep(cap, s).next;
    var given := Given(s.granted);
    if s.server.Receiving? {
      ReceivesEarliest(cap, s);
      hide Inv;
      assert given + [] + Posted(s.queue) == given + [Req(s'.server.pid, s'.server.len)] + Posted(s'.queue);
    } else if s.server.Replying? {
      hide Inv;
      var m := Msg(s.server.pid, Response(s.seqNum));
      PostedAppends(s.queue, [m]);
      PostedOne(m);
      assert RequestOf(m) == [] by { ResponseAsksNothing(m); }
      assert Given(s'.granted) == given + [Req(s.server.pid, s.server.len)];
    }
  }

  lemma ResponseAsksNothing(m: Msg)
    requires m.body.Response?
    ensures RequestOf(m) == []
  {
  }

  lemma PostGoesBehind(cap: nat, s: State, i: nat)
    requires i < |s.clients| && s.clients[i].pc == Starting && ClientStep(cap, s, i).To?
    ensures Asked(ClientStep(cap, s, i).next) == Asked(s) + [Req(s.clients[i].pid, s.clients[i].len)]
  {
    var c := s.clients[i];
    var m := Msg(REQUEST_TYPE, Request(c.pid, c.len));
    assert RequestOf(m) == [Req(c.pid, c.len)];
    hide Posted, RequestOf;
    PostedAppends(s.queue, [m]);
    PostedOne(m);
  }

  lemma CollectKeepsOrder(cap: nat, s: State, i: nat)
    requires i < |s.clients| && s.clients[i].pc == Waiting && ClientStep(cap, s, i).To?
    ensures Asked(ClientStep(cap, s, i).next) == Asked(s)
  {
    var at := FirstOf(s.queue, s.clients[i].pid);
    ResponseAsksNothing(s.queue[at]);
    hide Posted, RequestOf;
    PostedAround(s.queue, at);
    assert Posted(s.queue[..at]) + [] == Posted(s.queue[..at]);
  }

  /** The server keeps the order of the requests; a client's post goes behind all of them. */
  lemma StepKeepsOrder(cap: nat, s: State, who: Who)
    requires Inv(s) && (who.TheClient? ==> who.i < |s.clients|) && Step(cap, s, who).To?
    ensures Asked(Step(cap, s, who).next)
         == Asked(s) + if who.TheClient? && s.clients[who.i].pc == Starting
                       then [Req(s.clients[who.i].pid, s.clients[who.i].len)] else []
  {
    if who == Server {
      hide Inv, Asked, ServerStep;
      ServerKeepsOrder(cap, s);
      assert Asked(s) + [] == Asked(s);
    } else if s.clients[who.i].pc == Starting {
      hide Inv, Asked;
      PostGoesBehind(cap, s, who.i);
    } else {
      hide Inv, Asked;
      CollectKeepsOrder(cap, s, who.i);
      assert Asked(s) + [] == Asked(s);
    }
  }

  // ---- Every run is finite -----------------------------------------------------------------

  function Weight(queue: seq<Msg>): nat {
    if queue == [] then 0 else (if queue[0].body.Request? then 4 else 1) + Weight(queue[1..])
  }

  lemma {:induction false} WeightSplits(a: seq<Msg>, b: seq<Msg>)
    ensures Weight(a + b) == Weight(a) + Weight(b)
  {
    if a == [] {
      assert a + b == b;
    } else {
      assert (a + b)[1..] == a[1..] + b;
      WeightSplits(a[1..], b);
    }
  }

  lemma {:induction false} WeightWithout(queue: seq<Msg>, i: nat)
    requires i < |queue|
    ensures Weight(Without(queue, i)) == Weight(queue) - if queue[i].body.Request? then 4 else 1
  {
    if i == 0 {
      assert Without(queue, 0) == queue[1..];
    } else {
      WeightWithout(queue[1..], i - 1);
      var rest := Without(queue[1..], i - 1);
      assert Without(queue, i) == [queue[0]] + rest;
      assert ([queue[0]] + rest)[1..] == rest;
    }
  }

  function Unsent(clients: seq<Client>): nat {
    if clients == [] then 0 else (if clients[0].pc == Starting then 1 else 0) + Unsent(clients[1..])
  }

  lemma {:induction false} UnsentUpdate(clients: seq<Client>, i: nat, c: Client)
    requires i < |clients|
    ensures Unsent(clients[i := c])
         == Unsent(clients) - (if clients[i].pc == Starting then 1 else 0) + if c.pc == Starting then 1 else 0
  {
    if i > 0 {
      assert clients[i := c][1..] == clients[1..][i - 1 := c];
      UnsentUpdate(clients[1..], i - 1, c);
    }
  }

  function Measure(s: State): nat {
    6 * Unsent(s.clients) + Weight(s.queue) + if s.server.Replying? then 3 else if s.server.Advancing? then 1 else 0
  }

  lemma StepDecreases(cap: nat, s: State, who: Who)
    requires Inv(s) && (who.TheClient? ==> who.i < |s.clients|) && Step(cap, s, who).To?
    ensures Measure(Step(cap, s, who).next) < Measure(s)
  {
    var s' := Step(cap, s, who).next;
    if who == Server {
      if s.server.Receiving? {
        var i := FirstOf(s.queue, REQUEST_TYPE);
        assert MsgOk(s, s.queue[i]);
        WeightWithout(s.queue, i);
      } else if s.server.Replying? {
        var m := Msg(s.server.pid, Response(s.seqNum));
        WeightSplits(s.queue, [m]);
        assert [m][1..] == [];
      }
    } else {
      var c := s.clients[who.i];
      UnsentUpdate(s.clients, who.i, s'.clients[who.i]);
      if c.pc == Starting {
        var m := Msg(REQUEST_TYPE, Request(c.pid, c.len));
        WeightSplits(s.queue, [m]);
        assert [m][1..] == [];
      } else {
        WeightWithout(s.queue, FirstOf(s.queue, c.pid));
      }
    }
  }

  // ---- When nobody can move ----------------------------------------------------------------

  ghost predicate CanMove(cap: nat, s: State) {
    exists who: Who :: (who.TheClient? ==> who.i < |s.clients|) && Step(cap, s, who).To?
  }

  predicate AllServed(s: State) {
    s.server.Receiving? && forall i | 0 <= i < |s.clients| :: s.clients[i].pc.Got?
  }

  /** The server cannot reply into a queue that is full of requests. */
  predicate Jammed(cap: nat, s: State) {
    s.server.Replying? && |s.queue| >= cap && forall a | 0 <= a < |s.queue| :: s.queue[a].body.Request?
  }

  lemma ResponseIsCollected(cap: nat, s: State, a: nat)
    requires Inv(s) && a < |s.queue| && s.queue[a].body.Response?
    ensures CanMove(cap, s)
  {
    var m := s.queue[a];
    assert MsgOk(s, m);
    var i :| 0 <= i < |s.clients| && s.clients[i].pid == m.mtype && s.clients[i].pc == Waiting;
    var at := FirstOf(s.queue, m.mtype);
    assert MsgOk(s, s.queue[at]);
    hide FirstOf;
    assert Step(cap, s, TheClient(i)).To?;
  }

  lemma QueueHasWaiting(s: State)
    requires Inv(s) && s.queue != []
    ensures exists i :: 0 <= i < |s.clients| && s.clients[i].pc == Waiting
  {
    hide Tiles;
    assert MsgOk(s, s.queue[0]);
  }

  lemma OnlyRequests(queue: seq<Msg>)
    requires forall a | 0 <= a < |queue| :: queue[a].mtype == REQUEST_TYPE
    ensures queue != [] ==> FirstOf(queue, REQUEST_TYPE) < |queue|
  {
  }

  lemma JammedBlocks(cap: nat, s: State, who: Who)
    requires Jammed(cap, s) && (who.TheClient? ==> who.i < |s.clients|)
    ensures Step(cap, s, who) == Blocked
  {
    if who.TheClient? && s.clients[who.i].pc == Waiting {
      var at := FirstOf(s.queue, s.clients[who.i].pid);
      if at < |s.queue| {
        assert s.queue[at].body.Request?;
      }
    }
  }

  /** No process can move exactly when all are served or the queue is jammed. */
  lemma StuckExactlyWhen(cap: nat, s: State)
    requires Inv(s) && cap > 0
    ensures !CanMove(cap, s) <==> AllServed(s) || Jammed(cap, s)
  {
    hide Tiles, FirstOf, Without;
    if !CanMove(cap, s) {
      assert !Step(cap, s, Server).To?;
      forall a | 0 <= a < |s.queue| ensures s.queue[a].body.Request? {
        if s.queue[a].body.Response? {
          ResponseIsCollected(cap, s, a);
        }
      }
      if s.server.Receiving? {
        forall a | 0 <= a < |s.queue| ensures s.queue[a].mtype == REQUEST_TYPE {
          assert MsgOk(s, s.queue[a]);
        }
        OnlyRequests(s.queue);
        assert s.queue == [];
        forall i | 0 <= i < |s.clients| ensures s.clients[i].pc.Got? {
          assert !Step(cap, s, TheClient(i)).To?;
          assert ClientOk(s, s.clients[i]);
        }
      }
    } else {
      var who: Who :| (who.TheClient? ==> who.i < |s.clients|) && Step(cap, s, who).To?;
      if Jammed(cap, s) {
        JammedBlocks(cap, s, who);
      }
      if s.queue != [] {
        QueueHasWaiting(s);
      }
    }
  }

  function Pids(clients: seq<Client>): set<int> {
    if clients == [] then {} else {clients[0].pid} + Pids(clients[1..])
  }

  lemma {:induction false} PidsAre(clients: seq<Client>)
    ensures |Pids(clients)| <= |clients|
    ensures forall i | 0 <= i < |clients| :: clients[i].pid in Pids(clients)
  {
    if clients != [] {
      PidsAre(clients[1..]);
    }
  }

  function Owners(queue: seq<Msg>): set<int> {
    if queue == [] then {} else {Owner(queue[0])} + Owners(queue[1..])
  }

  lemma {:induction false} OwnersAre(queue: seq<Msg>, pid: int)
    ensures pid in Owners(queue) <==> exists a :: 0 <= a < |queue| && Owner(queue[a]) == pid
  {
    if queue != [] {
      OwnersAre(queue[1..], pid);
      if a :| 0 <= a < |queue[1..]| && Owner(queue[1..][a]) == pid {
        assert Owner(queue[a + 1]) == pid;
      }
      if a :| 0 <= a < |queue| && Owner(queue[a]) == pid {
        assert a > 0 ==> Owner(queue[1..][a - 1]) == pid;
      }
    }
  }

  lemma {:induction false} OwnersCount(queue: seq<Msg>)
    requires forall a, b | 0 <= a < b < |queue| :: Owner(queue[a]) != Owner(queue[b])
    ensures |Owners(queue)| == |queue|
  {
    if queue != [] {
      OwnersCount(queue[1..]);
      OwnersAre(queue[1..], Owner(queue[0]));
    }
  }

  lemma {:induction false} SubsetIsSmaller(a: set<int>, b: set<int>)
    requires a <= b
    ensures |a| <= |b|
  {
    assert b == a + (b - a);
  }

  /** With room for one message per client the queue never jams. */
  lemma EnoughRoomNeverJams(cap: nat, s: State)
    requires Inv(s) && |s.clients| <= cap
    ensures !Jammed(cap, s)
  {
    hide Tiles;
    if s.server.Replying? {
      OwnersCount(s.queue);
      PidsAre(s.clients);
      var held := s.server.pid;
      assert held in Pids(s.clients) by {
        var i :| 0 <= i < |s.clients| && s.clients[i].pid == held;
      }
      forall pid | pid in Owners(s.queue) ensures pid in Pids(s.clients) - {held} {
        OwnersAre(s.queue, pid);
        var a :| 0 <= a < |s.queue| && Owner(s.queue[a]) == pid;
        assert MsgOk(s, s.queue[a]) && InQueue(s, pid);
        var i :| 0 <= i < |s.clients| && s.clients[i].pid == pid;
      }
      SubsetIsSmaller(Owners(s.queue), Pids(s.clients) - {held});
    }
  }

  // ---- Main results -----------------------------------------------------------------------------

  lemma {:induction false} RunKeepsInv(cap: nat, run: seq<State>, t: nat)
    requires IsRun(cap, run) && t < |run|
    ensures Inv(run[t]) && Measure(run[t]) <= Measure(run[0]) - t
  {
    hide Inv, Step, Measure, Init;
    if t == 0 {
      InitKeepsInv(run[0]);
    } else {
      RunKeepsInv(cap, run, t - 1);
      assert Next(cap, run[t - 1], run[t - 1 + 1]);
      var who: Who :| (who.TheClient? ==> who.i < |run[t - 1].clients|) && Step(cap, run[t - 1], who) == To(run[t]);
      StepKeepsInv(cap, run[t - 1], who);
      StepDecreases(cap, run[t - 1], who);
    }
  }

  /**
   For any interleaving a client that has a number got it from a reply made for its own
   pid and length, and that is the only reply ever made for it.
   */
  lemma EachClientGetsItsOwn(cap: nat, run: seq<State>, t: nat, i: nat)
    requires IsRun(cap, run) && t < |run| && i < |run[t].clients| && run[t].clients[i].pc.Got?
    ensures var c := run[t].clients[i];
            Grant(c.pid, c.pc.seqNum, c.len) in run[t].granted
            && multiset(run[t].granted)[Grant(c.pid, c.pc.seqNum, c.len)] == 1
            && forall g | g in run[t].granted && g.pid == c.pid :: g == Grant(c.pid, c.pc.seqNum, c.len)
  {
    hide IsRun, Tiles, Measure;
    RunKeepsInv(cap, run, t);
    var s := run[t];
    var c := s.clients[i];
    assert ClientOk(s, c);
    var g := Grant(c.pid, c.pc.seqNum, c.len);
    OccursOnce(s.granted, g);
  }

  lemma {:induction false} OccursOnce(granted: seq<Grant>, g: Grant)
    requires forall k, l | 0 <= k < l < |granted| :: granted[k].pid != granted[l].pid
    requires g in granted
    ensures multiset(granted)[g] == 1
  {
    var k :| 0 <= k < |granted| && granted[k] == g;
    assert granted == granted[..k] + [g] + granted[k + 1..];
    assert g !in granted[..k] && g !in granted[k + 1..];
  }

  /** In the step between the two states client `i` posts its request. */
  predicate PostsAt(s: State, s': State, i: nat) {
    i < |s.clients| == |s'.clients| && s.clients[i].pc == Starting && s'.clients[i].pc == Waiting
  }

  /** The request posted in the step between the two states, if there is one. */
  ghost function PostIn(s: State, s': State): seq<Req> {
    if exists i: nat :: PostsAt(s, s', i) then
      var i: nat :| PostsAt(s, s', i);
      [Req(s.clients[i].pid, s.clients[i].len)]
    else []
  }

  /** The requests in the order in which the clients posted them. */
  ghost function Posts(run: seq<State>, t: nat): seq<Req>
    requires t < |run|
  {
    if t == 0 then [] else Posts(run, t - 1) + PostIn(run[t - 1], run[t])
  }

  lemma PostInIs(cap: nat, s: State, who: Who)
    requires (who.TheClient? ==> who.i < |s.clients|) && Step(cap, s, who).To?
    ensures PostIn(s, Step(cap, s, who).next)
         == if who.TheClient? && s.clients[who.i].pc == Starting
            then [Req(s.clients[who.i].pid, s.clients[who.i].len)] else []
  {
    var s' := Step(cap, s, who).next;
    assert forall i: nat :: PostsAt(s, s', i) ==> who == TheClient(i);
    if who.TheClient? && s.clients[who.i].pc == Starting {
      assert PostsAt(s, s', who.i);
    }
  }

  lemma {:induction false} AskedArePosts(cap: nat, run: seq<State>, t: nat)
    requires IsRun(cap, run) && t < |run|
    ensures Asked(run[t]) == Posts(run, t)
  {
    hide Inv, Step, Asked, PostIn;
    if t > 0 {
      AskedArePosts(cap, run, t - 1);
      RunKeepsInv(cap, run, t - 1);
      assert Next(cap, run[t - 1], run[t - 1 + 1]);
      var s := run[t - 1];
      var who: Who :| (who.TheClient? ==> who.i < |s.clients|) && Step(cap, s, who) == To(run[t]);
      StepKeepsOrder(cap, s, who);
      PostInIs(cap, s, who);
    } else {
      NothingAsked(run[0]);
    }
  }

  lemma NothingAsked(s: State)
    requires Init(s)
    ensures Asked(s) == []
  {
  }

  /**
   In every state the ranges handed out are pairwise disjoint, each starts at the sum of the
   lengths served before it, together they cover everything up to the counter, and they are
   for the requests posted first, in the order of posting.
   */
  lemma RangesTileTheCounter(cap: nat, run: seq<State>, t: nat)
    requires IsRun(cap, run) && t < |run|
    ensures !run[t].server.Confused?
    ensures Partition(run[t].granted, run[t].seqNum + if run[t].server.Advancing? then run[t].server.len else 0)
    ensures |run[t].granted| <= |Posts(run, t)|
    ensures forall k | 0 <= k < |run[t].granted| ::
              Req(run[t].granted[k].pid, run[t].granted[k].len) == Posts(run, t)[k]
  {
    hide IsRun, Measure, Posts;
    RunKeepsInv(cap, run, t);
    AskedArePosts(cap, run, t);
    hide Inv, Tiles, Partition, Posted;
    InvTiles(run[t]);
    TilesPartition(run[t].granted, run[t].seqNum + if run[t].server.Advancing? then run[t].server.len else 0);
    var given := Given(run[t].granted);
    assert given <= Asked(run[t]);
    assert forall k | 0 <= k < |run[t].granted| :: given[k] == Asked(run[t])[k];
  }

  lemma InvTiles(s: State)
    requires Inv(s)
    ensures !s.server.Confused? && Tiles(s.granted, s.seqNum + if s.server.Advancing? then s.server.len else 0)
  {
    hide Tiles;
  }

  /** With room for one message per client every run ends, with every client served. */
  lemma EveryClientIsServed(cap: nat, run: seq<State>)
    requires IsRun(cap, run) && 0 < cap && |run[0].clients| <= cap
    ensures |run| <= Measure(run[0]) + 1
    ensures !CanMove(cap, run[|run| - 1]) ==> AllServed(run[|run| - 1])
  {
    hide IsRun, Inv, Measure, CanMove;
    RunKeepsInv(cap, run, |run| - 1) by { RunIsNonEmpty(cap, run); }
    ClientsStay(cap, run, |run| - 1);
    StuckExactlyWhen(cap, run[|run| - 1]);
    EnoughRoomNeverJams(cap, run[|run| - 1]);
  }

  lemma RunIsNonEmpty(cap: nat, run: seq<State>)
    requires IsRun(cap, run)
    ensures |run| > 0
  {
  }

  lemma RunExtends(cap: nat, run: seq<State>, s: State)
    requires IsRun(cap, run) && Next(cap, run[|run| - 1], s)
    ensures IsRun(cap, run + [s])
  {
    hide Next, Init;
    var more := run + [s];
    forall t | 0 <= t < |more| - 1 ensures Next(cap, more[t], more[t + 1]) {
      if t < |run| - 1 {
        assert more[t] == run[t] && more[t + 1] == run[t + 1];
      } else {
        assert more[t] == run[|run| - 1] && more[t + 1] == s;
      }
    }
  }

  /** The server has taken one request and `n` others are in the queue, with clients still to post. */
  predicate Filling(s: State, n: nat) {
    && s.server.Replying? && |s.queue| == n && (forall a | 0 <= a < n :: s.queue[a].body.Request?)
    && n < |s.clients| && forall i | n < i < |s.clients| :: s.clients[i].pc == Starting
  }

  lemma FirstRequestTaken(cap: nat, s: State) returns (run: seq<State>)
    requires Init(s) && 0 < cap && s.clients != []
    ensures IsRun(cap, run) && run[0] == s && Filling(run[|run| - 1], 0)
    ensures |run[|run| - 1].clients| == |s.clients|
  {
    var c := s.clients[0];
    var ask := Msg(REQUEST_TYPE, Request(c.pid, c.len));
    var posted := s.(queue := [ask], clients := s.clients[0 := c.(pc := Waiting)]);
    var taken := posted.(queue := [], server := Replying(c.pid, c.len));
    assert Without([ask], 0) == [];
    assert Step(cap, s, TheClient(0)) == To(posted) && Step(cap, posted, Server) == To(taken);
    run := [s, posted, taken];
    hide Step;
    assert Next(cap, s, posted) && Next(cap, posted, taken);
  }

  /** While the server holds its reply, clients post until the queue has `n` requests. */
  lemma {:induction false} QueueFills(cap: nat, s: State, n: nat) returns (run: seq<State>)
    requires Init(s) && 0 < cap && n <= cap && n < |s.clients|
    ensures IsRun(cap, run) && run[0] == s && Filling(run[|run| - 1], n)
    ensures |run[|run| - 1].clients| == |s.clients|
  {
    if n == 0 {
      run := FirstRequestTaken(cap, s);
    } else {
      run := QueueFills(cap, s, n - 1);
      var last := run[|run| - 1];
      var c := last.clients[n];
      var next := last.(queue := last.queue + [Msg(REQUEST_TYPE, Request(c.pid, c.len))],
                        clients := last.clients[n := c.(pc := Waiting)]);
      assert Step(cap, last, TheClient(n)) == To(next);
      hide IsRun, Init;
      RunExtends(cap, run, next);
      run := run + [next];
    }
  }

  /** With more clients than places there is a run that jams. */
  lemma MoreClientsCanJam(cap: nat, s: State) returns (run: seq<State>)
    requires Init(s) && 0 < cap < |s.clients|
    ensures IsRun(cap, run) && run[0] == s && Jammed(cap, run[|run| - 1]) && !CanMove(cap, run[|run| - 1])
  {
    run := QueueFills(cap, s, cap);
    hide IsRun, Inv, CanMove, Measure, Init;
    RunKeepsInv(cap, run, |run| - 1) by { RunIsNonEmpty(cap, run); }
    StuckExactlyWhen(cap, run[|run| - 1]);
  }

  lemma {:induction false} ClientsStay(cap: nat, run: seq<State>, t: nat)
    requires IsRun(cap, run) && t < |run|
    ensures |run[t].clients| == |run[0].clients|
  {
    if t > 0 {
      ClientsStay(cap, run, t - 1);
      assert Next(cap, run[t - 1], run[t - 1 + 1]);
    }
  }

  /** A run from `s` that cannot go on. */
  ghost predicate Ends(cap: nat, s: State, run: seq<State>) {
    IsRun(cap, run) && run[0] == s && !CanMove(cap, run[|run| - 1])
  }

  /** Every run can end only with every client served, exactly when there is a place for each client. */
  lemma ServedExactlyWhen(cap: nat, s: State)
    requires Init(s) && 0 < cap
    ensures (forall run | Ends(cap, s, run) :: AllServed(run[|run| - 1])) <==> |s.clients| <= cap
  {
    hide CanMove, Inv, Measure;
    if |s.clients| <= cap {
      forall run | Ends(cap, s, run) ensures AllServed(run[|run| - 1]) {
        ClientsStay(cap, run, |run| - 1);
        EveryClientIsServed(cap, run);
      }
    } else {
      var run := MoreClientsCanJam(cap, s);
      assert Ends(cap, s, run) && !AllServed(run[|run| - 1]);
    }
  }
}
