/**
 The dictionary server: the parent accepts connections from the listen queue and forks a
 child for each, which answers its client from the descriptor it inherited.  Any number of
 clients, any interleaving, whole records on the stream.
 */
module DictServer {
  import opened Descriptors
  import opened Lists
  import opened SortedDict

  const BACKLOG: nat := 128

  /** A connected socket pair: records on their way to the server and back. */
  datatype Conn = Conn(owner: nat, up: seq<Dictrec>, down: seq<Dictrec>, closed: bool)

  datatype Client = Client(
    conn: Option<nat>,           // its socket, connected by the first lookup
    sought: Dictrec,             // the client's record
    waiting: bool,               // the client is between its write and its read
    todo: seq<string>, answers: seq<Reply>)

  datatype ParentPc =
    | Accepting                  // cd = accept(sd, NULL, NULL)
    | Forking(cd: nat)           // fork()
    | Closing(cd: nat)           // close(cd)

  datatype ChildPc =
    | ClosesListener             // close(sd)
    | Reads                      // read(cd, &tryit, sizeof(tryit))
    | LooksUp                    // lookup(&tryit, argv[1])
    | Writes                     // write(cd, &tryit, sizeof(Dictrec))
    | Exited

  /** `mapped` is lookup's own flag, false before its first call in this process. */
  datatype Child = Child(pc: ChildPc, fds: Table, cd: nat, tryit: Dictrec, mapped: bool)

  /** `backlog` is the listen queue; `sd` and `fds` belong to the parent. */
  datatype State = State(
    clients: seq<Client>, conns: seq<Conn>, backlog: seq<nat>,
    sd: nat, parent: ParentPc, fds: Table, children: seq<Child>)

  datatype Moved = Blocked | To(next: State)

  datatype Who = TheParent | TheChild(j: nat) | TheClient(i: nat)

  function PutClient(s: State, i: nat, c: Client): State
    requires i < |s.clients|
  {
    s.(clients := s.clients[i := c])
  }

  function PutConn(s: State, k: nat, c: Conn): State
    requires k < |s.conns|
  {
    s.(conns := s.conns[k := c])
  }

  function PutChild(s: State, j: nat, c: Child): State
    requires j < |s.children|
  {
    s.(children := s.children[j := c])
  }

  /** What lookup7 makes of the record it reads back. */
  function Judge(rec: Dictrec): Reply {
    Reply(rec.text != NOT_FOUND, rec.text)
  }

  /** The client takes `rec` for the answer to its question. */
  function Receive(c: Client, rec: Dictrec): Client {
    c.(sought := rec, waiting := false, answers := c.answers + [Judge(rec)],
       todo := if c.todo == [] then [] else c.todo[1..])
  }

  /** The server side of connection `k` is open somewhere. */
  ghost predicate Served(s: State, k: nat) {
    || k in s.backlog || Holds(s.fds, Connection(k))
    || exists j :: 0 <= j < |s.children| && Holds(s.children[j].fds, Connection(k))
  }

  ghost function ClientStep(s: State, i: nat): Moved
    requires i < |s.clients|
  {
    var c := s.clients[i];
    match c.conn
    case None =>
      if c.todo == [] || |s.backlog| >= BACKLOG then Blocked
      else
        To(PutClient(s, i, c.(conn := Some(|s.conns|)))
           .(conns := s.conns + [Conn(i, [], [], false)], backlog := s.backlog + [|s.conns|]))
    case Some(k) =>
      if k >= |s.conns| then Blocked
      else if c.waiting then
        if s.conns[k].down != [] then
          To(PutConn(PutClient(s, i, Receive(c, s.conns[k].down[0])), k, s.conns[k].(down := s.conns[k].down[1..])))
        else if Served(s, k) then Blocked
        else To(PutClient(s, i, Receive(c, c.sought)))
      else if c.todo != [] then
        var query := c.sought.(word := c.todo[0]);
        To(PutConn(PutClient(s, i, c.(sought := query, waiting := true)), k,
                   s.conns[k].(up := s.conns[k].up + [query])))
      else if s.conns[k].closed then Blocked
      else To(PutConn(s, k, s.conns[k].(closed := true)))
  }

  function ParentStep(s: State): Moved {
    match s.parent
    case Accepting =>
      if s.backlog == [] then Blocked
      else
        var cd := Lowest(s.fds);
        To(s.(parent := Forking(cd), fds := s.fds[cd := Connection(s.backlog[0])], backlog := s.backlog[1..]))
    case Forking(cd) =>
      To(s.(parent := Closing(cd), children := s.children + [Child(ClosesListener, s.fds, cd, Dictrec("", ""), false)]))
    case Closing(cd) => To(s.(parent := Accepting, fds := Close(s.fds, cd)))
  }

  function Exit(c: Child): Child {
    c.(pc := Exited, fds := map[])
  }

  /** The connection that the child's `cd` stands for. */
  function Peer(s: State, c: Child): Option<nat>
    ensures Peer(s, c).Some? ==> Peer(s, c).value < |s.conns|
  {
    if c.cd in c.fds && c.fds[c.cd].Connection? && c.fds[c.cd].id < |s.conns| then Some(c.fds[c.cd].id) else None
  }

  /** The first lookup of a process opens the dictionary and never closes it. */
  function OpenFile(file: string, c: Child): Child {
    if c.mapped then c else c.(mapped := true, fds := c.fds[Lowest(c.fds) := File(file, false)])
  }

  function ChildStep(file: string, recs: seq<Dictrec>, s: State, j: nat): Moved
    requires j < |s.children|
  {
    var c := s.children[j];
    var k := Peer(s, c);
    match c.pc
    case ClosesListener => To(PutChild(s, j, c.(pc := Reads, fds := Close(c.fds, s.sd))))
    case Reads =>
      if k == None then To(PutChild(s, j, Exit(c)))
      else if s.conns[k.value].up != [] then
        To(PutConn(PutChild(s, j, c.(pc := LooksUp, tryit := s.conns[k.value].up[0])), k.value,
                   s.conns[k.value].(up := s.conns[k.value].up[1..])))
      else if s.conns[k.value].closed then To(PutChild(s, j, Exit(c)))
      else Blocked
    case LooksUp =>
      To(PutChild(s, j, OpenFile(file, c).(pc := Writes, tryit := c.tryit.(text := Lookup5(recs, c.tryit.word).text))))
    case Writes =>
      if k == None then To(PutChild(s, j, Exit(c)))
      else
        To(PutConn(PutChild(s, j, c.(pc := Reads)), k.value,
                   s.conns[k.value].(down := s.conns[k.value].down + [c.tryit])))
    case Exited => Blocked
  }

  predicate Exists(s: State, who: Who) {
    (who.TheChild? ==> who.j < |s.children|) && (who.TheClient? ==> who.i < |s.clients|)
  }

  ghost function Step(job: Job, s: State, who: Who): Moved
    requires Exists(s, who)
  {
    match who
    case TheParent => ParentStep(s)
    case TheChild(j) => ChildStep(job.file, job.recs, s, j)
    case TheClient(i) => ClientStep(s, i)
  }

  /** The constants of one run: the file, the questions of each client, the parent's first table. */
  datatype Job = Job(file: string, recs: seq<Dictrec>, queries: seq<seq<string>>, std: Std) {
    predicate Ok() {
      !std.input.Connection? && !std.output.Connection? && !std.error.Connection?
    }

    /** The parent's table while it waits in accept. */
    function Base(): Table { std.ToTable()[3 := Listener] }

    /** The table of the child for connection `k`, once it has closed the listener. */
    function Alone(k: nat): Table { std.ToTable()[4 := Connection(k)] }

    /** Its table from the first lookup on. */
    function WithFile(k: nat): Table { Alone(k)[3 := File(file, false)] }
  }

  ghost predicate Init(job: Job, s: State) {
    && s.conns == [] && s.backlog == [] && s.children == []
    && s.parent == Accepting && s.sd == 3 && s.fds == job.Base()
    && |s.clients| == |job.queries|
    && forall i | 0 <= i < |s.clients| ::
         s.clients[i].conn == None && !s.clients[i].waiting
         && s.clients[i].todo == job.queries[i] && s.clients[i].answers == []
  }

  ghost predicate Next(job: Job, s: State, s': State) {
    exists who: Who :: Exists(s, who) && Step(job, s, who) == To(s')
  }

  ghost predicate IsRun(job: Job, run: seq<State>) {
    |run| > 0 && Init(job, run[0]) && forall t | 0 <= t < |run| - 1 :: Next(job, run[t], run[t + 1])
  }

  // ---- Who holds which connection ----------------------------------------------------------------

  /** The connections that have left the listen queue. */
  function Taken(s: State): nat {
    |s.children| + if s.parent.Forking? then 1 else 0
  }

  ghost predicate QueueOk(s: State) {
    && Taken(s) + |s.backlog| == |s.conns|
    && forall b | 0 <= b < |s.backlog| :: s.backlog[b] == Taken(s) + b
  }

  /** The parent has a connection only between accept and close. */
  ghost predicate ParentOk(job: Job, s: State) {
    s.sd == 3 &&
    match s.parent
    case Accepting => s.fds == job.Base()
    case Forking(cd) => cd == 4 && s.fds == job.Base()[4 := Connection(|s.children|)]
    case Closing(cd) => cd == 4 && |s.children| > 0 && s.fds == job.Base()[4 := Connection(|s.children| - 1)]
  }

  ghost predicate ChildOk(job: Job, c: Child, k: nat) {
    c.cd == 4 &&
    match c.pc
    case ClosesListener => c.fds == job.Base()[4 := Connection(k)] && !c.mapped
    case Exited => c.fds == map[]
    case _ => c.fds == if c.mapped then job.WithFile(k) else job.Alone(k)
  }

  // ---- What is on the way -------------------------------------------------------------------------

  function One(b: bool): nat { if b then 1 else 0 }

  /** The record with the answer to a question. */
  function Answer(job: Job, w: string): Dictrec {
    Dictrec(w, Lookup5(job.recs, w).text)
  }

  /** The answer through the server. */
  function Remote(job: Job, w: string): Reply {
    Judge(Answer(job, w))
  }

  ghost predicate ClientOk(job: Job, c: Client, i: nat) {
    && i < |job.queries| && |c.answers| <= |job.queries[i]| && c.todo == job.queries[i][|c.answers|..]
    && (forall q | 0 <= q < |c.answers| :: c.answers[q] == Remote(job, job.queries[i][q]))
    && (c.waiting ==> c.conn.Some? && c.todo != [])
    && (c.answers != [] ==> c.conn.Some?)
  }

  /** The question of a waiting client is in one place, with its word or with the answer to it. */
  ghost predicate FlowOk(job: Job, c: Client, conn: Conn, child: Option<Child>) {
    var pc := if child.Some? then child.value.pc else ClosesListener;
    && |conn.up| + One(pc.LooksUp? || pc.Writes?) + |conn.down| == One(c.waiting)
    && (conn.up != [] ==> c.todo != [] && conn.up[0].word == c.todo[0])
    && (pc.LooksUp? ==> c.todo != [] && child.value.tryit.word == c.todo[0])
    && (pc.Writes? ==> c.todo != [] && child.value.tryit == Answer(job, c.todo[0]))
    && (conn.down != [] ==> c.todo != [] && conn.down[0] == Answer(job, c.todo[0]))
    && (conn.closed ==> c.todo == [])
    && (pc.Exited? ==> conn.closed)
    && (child.Some? && child.value.mapped <==> c.answers != [] || conn.down != [] || pc.Writes?)
  }

  function ChildAt(s: State, k: nat): Option<Child> {
    if k < |s.children| then Some(s.children[k]) else None
  }

  ghost predicate ConnOk(job: Job, s: State, k: nat)
    requires k < |s.conns|
  {
    var conn := s.conns[k];
    && conn.owner < |s.clients| && s.clients[conn.owner].conn == Some(k)
    && FlowOk(job, s.clients[conn.owner], conn, ChildAt(s, k))
  }

  ghost predicate LinkOk(s: State, i: nat)
    requires i < |s.clients|
  {
    s.clients[i].conn.Some? ==> s.clients[i].conn.value < |s.conns| && s.conns[s.clients[i].conn.value].owner == i
  }

  ghost predicate Inv(job: Job, s: State) {
    && job.Ok() && |s.clients| == |job.queries|
    && QueueOk(s) && ParentOk(job, s)
    && (forall j | 0 <= j < |s.children| :: ChildOk(job, s.children[j], j))
    && (forall i | 0 <= i < |s.clients| :: ClientOk(job, s.clients[i], i) && LinkOk(s, i))
    && (forall k | 0 <= k < |s.conns| :: ConnOk(job, s, k))
  }

  lemma InitKeepsInv(job: Job, s: State)
    requires job.Ok() && Init(job, s)
    ensures Inv(job, s)
  {
  }

  /** A step that touches one connection, its client and its child leaves the rest as it was. */
  lemma LocalStep(job: Job, s: State, k: nat, s': State)
    requires Inv(job, s) && k < |s.conns| && |s'.clients| == |s.clients| && |s'.conns| == |s.conns|
    requires |s'.children| == |s.children| && s'.backlog == s.backlog && s'.sd == s.sd
    requires s'.parent == s.parent && s'.fds == s.fds
    requires s'.conns[k].owner == s.conns[k].owner < |s.clients|
    requires forall i | 0 <= i < |s.clients| && i != s.conns[k].owner :: s'.clients[i] == s.clients[i]
    requires forall l | 0 <= l < |s.conns| && l != k :: s'.conns[l] == s.conns[l]
    requires forall l | 0 <= l < |s.children| && l != k :: s'.children[l] == s.children[l]
    requires s'.clients[s.conns[k].owner].conn == Some(k)
    requires ClientOk(job, s'.clients[s.conns[k].owner], s.conns[k].owner)
    requires k < |s.children| ==> ChildOk(job, s'.children[k], k)
    requires FlowOk(job, s'.clients[s.conns[k].owner], s'.conns[k], ChildAt(s', k))
    ensures Inv(job, s')
  {
    hide ClientOk, ChildOk, FlowOk;
    assert ConnOk(job, s, k);
    forall l | 0 <= l < |s'.conns| ensures ConnOk(job, s', l) {
      assert ConnOk(job, s, l);
      assert l != k ==> ChildAt(s', l) == ChildAt(s, l);
    }
    forall i | 0 <= i < |s'.clients| ensures LinkOk(s', i) {
      assert LinkOk(s, i);
    }
  }

  lemma ConnFacts(job: Job, s: State, k: nat)
    requires Inv(job, s) && k < |s.conns|
    ensures ConnOk(job, s, k)
    ensures ClientOk(job, s.clients[s.conns[k].owner], s.conns[k].owner)
    ensures k < |s.children| ==> ChildOk(job, s.children[k], k)
  {
    hide ClientOk, ChildOk, FlowOk;
    assert ConnOk(job, s, k);
  }

  // ---- The clients ---------------------------------------------------------------------------------

  /** A connection with a waiting client is open on the server's side. */
  lemma WaitingIsServed(job: Job, s: State, k: nat)
    requires Inv(job, s) && k < |s.conns| && !s.conns[k].closed
    ensures Served(s, k)
  {
    hide ClientOk;
    ConnFacts(job, s, k);
    if k >= Taken(s) {
      assert s.backlog[k - Taken(s)] == k;
    } else if k < |s.children| {
      assert 4 in s.children[k].fds && s.children[k].fds[4] == Connection(k);
      assert Holds(s.children[k].fds, Connection(k));
    } else {
      assert 4 in s.fds && s.fds[4] == Connection(k);
    }
  }

  lemma AnsweredOk(job: Job, c: Client, i: nat)
    requires ClientOk(job, c, i) && c.waiting
    ensures ClientOk(job, Receive(c, Answer(job, c.todo[0])), i)
  {
    var q := job.queries[i];
    assert c.todo[0] == q[|c.answers|];
    assert c.todo[1..] == q[|c.answers| + 1..];
  }

  lemma ClientKeepsInv(job: Job, s: State, i: nat)
    requires Inv(job, s) && i < |s.clients| && s.clients[i].conn.Some? && ClientStep(s, i).To?
    ensures Inv(job, ClientStep(s, i).next)
  {
    var c := s.clients[i];
    var k := c.conn.value;
    var s' := ClientStep(s, i).next;
    assert LinkOk(s, i);
    ConnFacts(job, s, k);
    hide ChildOk, QueueOk, ParentOk, LinkOk, Answer, Served;
    if c.waiting {
      if s.conns[k].down != [] {
        AnsweredOk(job, c, i);
      } else {
        WaitingIsServed(job, s, k);
      }
    }
    hide Inv;
    LocalStep(job, s, k, s');
  }

  lemma ConnectKeepsInv(job: Job, s: State, i: nat)
    requires Inv(job, s) && i < |s.clients| && s.clients[i].conn == None && ClientStep(s, i).To?
    ensures Inv(job, ClientStep(s, i).next)
  {
    var s' := ClientStep(s, i).next;
    var n := |s.conns|;
    hide ChildOk;
    assert ClientOk(job, s.clients[i], i);
    forall k | 0 <= k < |s'.conns| ensures ConnOk(job, s', k) {
      if k < n {
        assert ConnOk(job, s, k);
      }
    }
    forall l | 0 <= l < |s'.clients| ensures LinkOk(s', l) {
      assert LinkOk(s, l);
    }
    hide ClientOk, ConnOk, LinkOk;
  }

  // ---- The parent and its children -----------------------------------------------------------------

  lemma ParentKeepsInv(job: Job, s: State)
    requires Inv(job, s) && ParentStep(s).To?
    ensures Inv(job, ParentStep(s).next)
  {
    var s' := ParentStep(s).next;
    LowestOfDense(job.Base(), 4);
    hide ClientOk, LinkOk;
    forall k | 0 <= k < |s'.conns| ensures ConnOk(job, s', k) {
      assert ConnOk(job, s, k);
    }
    forall i | 0 <= i < |s'.clients| ensures LinkOk(s', i) {
      assert LinkOk(s, i);
    }
    hide ConnOk;
  }

  /** A child reads and writes the connection it was made for. */
  lemma PeerIsOwn(job: Job, s: State, j: nat)
    requires Inv(job, s) && j < |s.children| && !s.children[j].pc.Exited?
    ensures j < |s.conns| && Peer(s, s.children[j]) == Some(j)
  {
    hide ClientOk, ConnOk, LinkOk;
    assert ChildOk(job, s.children[j], j);
  }

  lemma ChildKeepsInv(job: Job, s: State, j: nat)
    requires Inv(job, s) && j < |s.children| && ChildStep(job.file, job.recs, s, j).To?
    ensures Inv(job, ChildStep(job.file, job.recs, s, j).next)
  {
    var s' := ChildStep(job.file, job.recs, s, j).next;
    PeerIsOwn(job, s, j);
    ConnFacts(job, s, j);
    hide ClientOk, LinkOk, QueueOk, Lookup5, Peer, StrictlySorted;
    assert s.sd == 3;
    ClosedListener(job, j);
    hide Inv, ParentOk, Job.Base, Job.Alone;
    LocalStep(job, s, j, s');
  }

  lemma ClosedListener(job: Job, k: nat)
    ensures Close(job.Base()[4 := Connection(k)], 3) == job.Alone(k)
  {
  }

  lemma StepKeepsInv(job: Job, s: State, who: Who)
    requires Inv(job, s) && Exists(s, who) && Step(job, s, who).To?
    ensures Inv(job, Step(job, s, who).next)
  {
    hide Inv, ClientStep, ParentStep, ChildStep;
    match who
    case TheParent => ParentKeepsInv(job, s);
    case TheChild(j) => ChildKeepsInv(job, s, j);
    case TheClient(i) =>
      if s.clients[i].conn == None {
        ConnectKeepsInv(job, s, i);
      } else {
        ClientKeepsInv(job, s, i);
      }
  }

  // ---- Every run is finite --------------------------------------------------------------------------

  function Sum(s: seq<nat>): nat {
    if s == [] then 0 else s[0] + Sum(s[1..])
  }

  lemma {:induction false} SumUpdate(s: seq<nat>, i: nat, x: nat)
    requires i < |s|
    ensures Sum(s[i := x]) + s[i] == Sum(s) + x
  {
    if i > 0 {
      assert s[i := x][1..] == s[1..][i - 1 := x];
      SumUpdate(s[1..], i - 1, x);
    }
  }

  lemma {:induction false} SumAppend(s: seq<nat>, x: nat)
    ensures Sum(s + [x]) == Sum(s) + x
  {
    if s != [] {
      assert (s + [x])[1..] == s[1..] + [x];
      SumAppend(s[1..], x);
    } else {
      assert ([x])[1..] == [];
    }
  }

  /** Five steps for each question, four of them done before the client's read. */
  function ClientLeft(c: Client): nat {
    (if c.conn == None && c.todo != [] then 7 else 0)
    + if c.waiting && c.todo != [] then 5 * |c.todo| - 4 else 5 * |c.todo|
  }

  function ConnLeft(c: Conn): nat {
    3 * |c.up| + One(!c.closed)
  }

  function ChildLeft(c: Child): nat {
    match c.pc
    case ClosesListener => 2
    case Reads => 1
    case LooksUp => 3
    case Writes => 2
    case Exited => 0
  }

  function ParentLeft(pc: ParentPc): nat {
    match pc
    case Accepting => 0
    case Forking(_) => 4
    case Closing(_) => 1
  }

  function ClientsLeft(s: State): nat {
    Sum(seq(|s.clients|, i requires 0 <= i < |s.clients| => ClientLeft(s.clients[i])))
  }

  function ConnsLeft(s: State): nat {
    Sum(seq(|s.conns|, k requires 0 <= k < |s.conns| => ConnLeft(s.conns[k])))
  }

  function ChildrenLeft(s: State): nat {
    Sum(seq(|s.children|, j requires 0 <= j < |s.children| => ChildLeft(s.children[j])))
  }

  function Left(s: State): nat {
    ClientsLeft(s) + ConnsLeft(s) + ChildrenLeft(s) + 5 * |s.backlog| + ParentLeft(s.parent)
  }

  lemma ClientsUpdate(s: State, i: nat, c: Client)
    requires i < |s.clients|
    ensures ClientsLeft(PutClient(s, i, c)) + ClientLeft(s.clients[i]) == ClientsLeft(s) + ClientLeft(c)
  {
    var before := seq(|s.clients|, l requires 0 <= l < |s.clients| => ClientLeft(s.clients[l]));
    var s' := PutClient(s, i, c);
    var after := seq(|s'.clients|, l requires 0 <= l < |s'.clients| => ClientLeft(s'.clients[l]));
    hide ClientLeft, Sum;
    assert after == before[i := ClientLeft(c)];
    SumUpdate(before, i, ClientLeft(c));
  }

  lemma ConnsUpdate(s: State, k: nat, c: Conn)
    requires k < |s.conns|
    ensures ConnsLeft(PutConn(s, k, c)) + ConnLeft(s.conns[k]) == ConnsLeft(s) + ConnLeft(c)
  {
    var before := seq(|s.conns|, l requires 0 <= l < |s.conns| => ConnLeft(s.conns[l]));
    var s' := PutConn(s, k, c);
    var after := seq(|s'.conns|, l requires 0 <= l < |s'.conns| => ConnLeft(s'.conns[l]));
    hide ConnLeft, Sum;
    assert after == before[k := ConnLeft(c)];
    SumUpdate(before, k, ConnLeft(c));
  }

  lemma ChildrenUpdate(s: State, j: nat, c: Child)
    requires j < |s.children|
    ensures ChildrenLeft(PutChild(s, j, c)) + ChildLeft(s.children[j]) == ChildrenLeft(s) + ChildLeft(c)
  {
    var before := seq(|s.children|, l requires 0 <= l < |s.children| => ChildLeft(s.children[l]));
    var s' := PutChild(s, j, c);
    var after := seq(|s'.children|, l requires 0 <= l < |s'.children| => ChildLeft(s'.children[l]));
    hide ChildLeft, Sum;
    assert after == before[j := ChildLeft(c)];
    SumUpdate(before, j, ChildLeft(c));
  }

  lemma ConnsAppend(s: State, c: Conn)
    ensures ConnsLeft(s.(conns := s.conns + [c])) == ConnsLeft(s) + ConnLeft(c)
  {
    var before := seq(|s.conns|, l requires 0 <= l < |s.conns| => ConnLeft(s.conns[l]));
    var s' := s.(conns := s.conns + [c]);
    var after := seq(|s'.conns|, l requires 0 <= l < |s'.conns| => ConnLeft(s'.conns[l]));
    hide ConnLeft, Sum;
    assert after == before + [ConnLeft(c)];
    SumAppend(before, ConnLeft(c));
  }

  lemma ChildrenAppend(s: State, c: Child)
    ensures ChildrenLeft(s.(children := s.children + [c])) == ChildrenLeft(s) + ChildLeft(c)
  {
    var before := seq(|s.children|, l requires 0 <= l < |s.children| => ChildLeft(s.children[l]));
    var s' := s.(children := s.children + [c]);
    var after := seq(|s'.children|, l requires 0 <= l < |s'.children| => ChildLeft(s'.children[l]));
    hide ChildLeft, Sum;
    assert after == before + [ChildLeft(c)];
    SumAppend(before, ChildLeft(c));
  }

  /** The sums depend on their own part of the state only. */
  lemma SameSums(s: State, s': State)
    ensures s'.clients == s.clients ==> ClientsLeft(s') == ClientsLeft(s)
    ensures s'.conns == s.conns ==> ConnsLeft(s') == ConnsLeft(s)
    ensures s'.children == s.children ==> ChildrenLeft(s') == ChildrenLeft(s)
  {
  }

  lemma ClientStepDecreases(job: Job, s: State, i: nat)
    requires Inv(job, s) && i < |s.clients| && ClientStep(s, i).To?
    ensures Left(ClientStep(s, i).next) < Left(s)
  {
    var c, s' := s.clients[i], ClientStep(s, i).next;
    ClientsUpdate(s, i, s'.clients[i]);
    SameSums(PutClient(s, i, s'.clients[i]), s');
    SameSums(s, s');
    if c.conn == None {
      var conn := Conn(i, [], [], false);
      ConnsAppend(s, conn);
      SameSums(s.(conns := s.conns + [conn]), s');
    } else {
      var k := c.conn.value;
      assert LinkOk(s, i) && ClientOk(job, c, i);
      ConnFacts(job, s, k);
      if c.waiting && s.conns[k].down == [] {
        WaitingIsServed(job, s, k);
      }
      ConnsUpdate(s, k, s'.conns[k]);
      SameSums(PutConn(s, k, s'.conns[k]), s');
    }
    hide Inv, ClientsLeft, ConnsLeft, ChildrenLeft, ClientOk, ConnOk, Served;
  }

  lemma ChildStepDecreases(job: Job, s: State, j: nat)
    requires Inv(job, s) && j < |s.children| && ChildStep(job.file, job.recs, s, j).To?
    ensures Left(ChildStep(job.file, job.recs, s, j).next) < Left(s)
  {
    var s' := ChildStep(job.file, job.recs, s, j).next;
    PeerIsOwn(job, s, j);
    ChildrenUpdate(s, j, s'.children[j]);
    SameSums(PutChild(s, j, s'.children[j]), s');
    SameSums(s, s');
    ConnsUpdate(s, j, s'.conns[j]);
    SameSums(PutConn(s, j, s'.conns[j]), s');
    hide Inv, ClientsLeft, ConnsLeft, ChildrenLeft, Lookup5, Peer;
  }

  lemma ParentStepDecreases(s: State)
    requires ParentStep(s).To?
    ensures Left(ParentStep(s).next) < Left(s)
  {
    var s' := ParentStep(s).next;
    SameSums(s, s');
    if s.parent.Forking? {
      var c := s'.children[|s.children|];
      ChildrenAppend(s, c);
      SameSums(s.(children := s.children + [c]), s');
    }
    hide ClientsLeft, ConnsLeft, ChildrenLeft;
  }

  lemma {:induction false} RunKeepsInv(job: Job, run: seq<State>, t: nat)
    requires job.Ok() && IsRun(job, run) && t < |run|
    ensures Inv(job, run[t]) && Left(run[t]) + t <= Left(run[0])
  {
    hide Inv, ClientStep, ParentStep, ChildStep, Left, Init;
    if t == 0 {
      InitKeepsInv(job, run[0]);
    } else {
      RunKeepsInv(job, run, t - 1);
      assert Next(job, run[t - 1], run[t - 1 + 1]);
      var s := run[t - 1];
      var who: Who :| Exists(s, who) && Step(job, s, who) == To(run[t]);
      StepKeepsInv(job, s, who);
      match who
      case TheParent => ParentStepDecreases(s);
      case TheChild(j) => ChildStepDecreases(job, s, j);
      case TheClient(i) => ClientStepDecreases(job, s, i);
    }
  }

  // ---- When nobody can move --------------------------------------------------------------------------

  ghost predicate CanMove(job: Job, s: State) {
    exists who: Who :: Exists(s, who) && Step(job, s, who).To?
  }

  /** Every question is answered, every child has ended, and the parent is as it was. */
  ghost predicate AllDone(job: Job, s: State) {
    && |s.clients| == |job.queries|
    && (forall i | 0 <= i < |s.clients| :: |s.clients[i].answers| == |job.queries[i]|)
    && (forall j | 0 <= j < |s.children| :: s.children[j].pc.Exited?)
    && s.parent == Accepting && s.fds == job.Base() && s.backlog == []
    && |s.children| == |s.conns|
  }

  lemma ClientMoves(job: Job, s: State, i: nat)
    requires Inv(job, s) && s.backlog == [] && i < |s.clients| && !s.clients[i].waiting
    ensures ClientStep(s, i).To? || s.clients[i].todo == []
    ensures || ClientStep(s, i).To? || s.clients[i].conn == None
            || (LinkOk(s, i) && s.conns[s.clients[i].conn.value].closed)
  {
    hide ClientOk, ConnOk, ChildOk;
    assert LinkOk(s, i);
  }

  /** While a client waits, its child or the client itself can move. */
  lemma WaitingMoves(job: Job, s: State, i: nat)
    requires Inv(job, s) && |s.children| == |s.conns| && i < |s.clients| && s.clients[i].waiting
    ensures CanMove(job, s)
  {
    assert LinkOk(s, i) && ClientOk(job, s.clients[i], i);
    var k := s.clients[i].conn.value;
    ConnFacts(job, s, k);
    if s.conns[k].down != [] {
      assert Step(job, s, TheClient(i)).To?;
    } else {
      PeerIsOwn(job, s, k);
      assert Step(job, s, TheChild(k)).To?;
    }
  }

  /** A child that cannot move has ended, unless its client has not closed the connection. */
  lemma ChildMoves(job: Job, s: State, j: nat)
    requires Inv(job, s) && j < |s.children|
    ensures j < |s.conns|
    ensures ChildStep(job.file, job.recs, s, j).To? || s.children[j].pc.Exited? || !s.conns[j].closed
  {
    hide ClientOk, ConnOk, LinkOk;
    if !s.children[j].pc.Exited? {
      PeerIsOwn(job, s, j);
    }
  }

  lemma StuckMeansDone(job: Job, s: State)
    requires Inv(job, s) && !CanMove(job, s)
    ensures AllDone(job, s)
  {
    assert !Step(job, s, TheParent).To?;
    assert s.parent == Accepting && s.backlog == [] && |s.children| == |s.conns|;
    forall i | 0 <= i < |s.clients|
      ensures !s.clients[i].waiting && |s.clients[i].answers| == |job.queries[i]|
      ensures s.clients[i].conn == None || (LinkOk(s, i) && s.conns[s.clients[i].conn.value].closed)
    {
      hide QueueOk, ParentOk, ChildOk, ConnOk, LinkOk, ClientStep;
      assert !Step(job, s, TheClient(i)).To?;
      if s.clients[i].waiting {
        WaitingMoves(job, s, i);
      } else {
        ClientMoves(job, s, i);
        assert ClientOk(job, s.clients[i], i);
      }
    }
    forall j | 0 <= j < |s.children| ensures s.children[j].pc.Exited? {
      hide ClientOk, FlowOk, ChildOk, ChildStep;
      assert !Step(job, s, TheChild(j)).To?;
      assert ConnOk(job, s, j);
      ChildMoves(job, s, j);
    }
  }

  lemma DoneMeansStuck(job: Job, s: State, who: Who)
    requires Inv(job, s) && AllDone(job, s) && Exists(s, who)
    ensures Step(job, s, who) == Blocked
  {
    if who.TheClient? {
      assert ClientOk(job, s.clients[who.i], who.i) && LinkOk(s, who.i);
      var c := s.clients[who.i];
      if c.conn.Some? {
        ConnFacts(job, s, c.conn.value);
      }
    }
  }

  // ---- Main results ---------------------------------------------------------------------------------

  /**
   In every state of every run the connection a child answers on is the one its own client
   made, no other descriptor of any child is a connection, and the parent has one only
   between accept and close.
   */
  lemma EveryChildHasItsOwnClient(job: Job, run: seq<State>, t: nat, j: nat)
    requires job.Ok() && IsRun(job, run) && t < |run| && j < |run[t].children| && !run[t].children[j].pc.Exited?
    ensures var s, c := run[t], run[t].children[j];
            && j < |s.conns| && s.conns[j].owner < |s.clients| && s.clients[s.conns[j].owner].conn == Some(j)
            && c.cd in c.fds && c.fds[c.cd] == Connection(j)
            && (forall fd | fd in c.fds && c.fds[fd].Connection? :: fd == c.cd)
            && (c.pc != ClosesListener ==> c.fds == if c.mapped then job.WithFile(j) else job.Alone(j))
            && (c.mapped <==> s.clients[s.conns[j].owner].answers != [] || s.conns[j].down != [] || c.pc == Writes)
            && (s.parent == Accepting ==> s.fds == job.Base())
  {
    hide IsRun, Left;
    RunKeepsInv(job, run, t);
    hide ClientOk, LinkOk;
    PeerIsOwn(job, run[t], j);
    assert ConnOk(job, run[t], j) && ChildOk(job, run[t].children[j], j);
  }

  lemma BacklogStep(job: Job, s: State, who: Who)
    requires Exists(s, who) && Step(job, s, who).To?
    ensures var s' := Step(job, s, who).next;
            |s'.backlog| <= |s.backlog| || (|s.backlog| < 128 && |s'.backlog| == |s.backlog| + 1)
  {
  }

  lemma {:induction false} BacklogIsBounded(job: Job, run: seq<State>, t: nat)
    requires IsRun(job, run) && t < |run|
    ensures |run[t].backlog| <= 128
  {
    hide Step;
    if t > 0 {
      BacklogIsBounded(job, run, t - 1);
      assert Next(job, run[t - 1], run[t - 1 + 1]);
      var who: Who :| Exists(run[t - 1], who) && Step(job, run[t - 1], who) == To(run[t]);
      BacklogStep(job, run[t - 1], who);
    }
  }

  /** At most 128 connections wait, and a client waits for room in the queue only when there are so many. */
  lemma QueueHolds128(job: Job, run: seq<State>, t: nat, i: nat)
    requires IsRun(job, run) && t < |run| && i < |run[t].clients|
    requires run[t].clients[i].conn == None && run[t].clients[i].todo != []
    ensures |run[t].backlog| <= 128 && (ClientStep(run[t], i) == Blocked <==> |run[t].backlog| == 128)
  {
    hide IsRun;
    BacklogIsBounded(job, run, t);
  }

  /** No two children hold the same connection. */
  lemma ConnectionsAreNotShared(job: Job, run: seq<State>, t: nat, j: nat, l: nat, k: nat)
    requires job.Ok() && IsRun(job, run) && t < |run| && j < |run[t].children| && l < |run[t].children|
    requires Holds(run[t].children[j].fds, Connection(k)) && Holds(run[t].children[l].fds, Connection(k))
    ensures j == l == k
  {
    hide IsRun, Left;
    RunKeepsInv(job, run, t);
    HeldByOwn(job, run[t], j, k);
    HeldByOwn(job, run[t], l, k);
  }

  lemma HeldByOwn(job: Job, s: State, j: nat, k: nat)
    requires Inv(job, s) && j < |s.children| && Holds(s.children[j].fds, Connection(k))
    ensures j == k
  {
    hide ClientOk, LinkOk, ConnOk;
    assert ChildOk(job, s.children[j], j);
  }

  /** The answer through the server differs from the local one for a sentinel found, and only then. */
  lemma RemoteIsLocal(job: Job, w: string)
    ensures Remote(job, w) == Lookup5(job.recs, w)
       <==> !(Lookup5(job.recs, w).found && Lookup5(job.recs, w).text == NOT_FOUND)
  {
  }

  predicate NoSentinel(recs: seq<Dictrec>) {
    forall k | 0 <= k < |recs| :: recs[k].text != "Not Found!"
  }

  /**
   On a sorted file every question has the same answer through the server as locally exactly
   when no definition in the file is the sentinel.
   */
  lemma RemoteIsLocalExactlyWhen(job: Job)
    requires StrictlySorted(job.recs)
    ensures (forall w :: Remote(job, w) == Lookup5(job.recs, w)) <==> NoSentinel(job.recs)
  {
    if !NoSentinel(job.recs) {
      var k :| 0 <= k < |job.recs| && job.recs[k].text == NOT_FOUND;
      FindsAllExactlyWhen(job.recs);
      RemoteIsLocal(job, job.recs[k].word);
    }
    forall w | NoSentinel(job.recs) ensures Remote(job, w) == Lookup5(job.recs, w) {
      RemoteIsLocal(job, w);
    }
  }

  /**
   For any number of clients and any interleaving each client has so far received, in order,
   the answers of a local lookup5 to its own first questions, and on a sorted file those of
   a search through the whole file, when no stored definition is the sentinel.
   */
  lemma EveryClientGetsLocalAnswers(job: Job, run: seq<State>, t: nat, i: nat)
    requires job.Ok() && IsRun(job, run) && t < |run| && i < |job.queries|
    requires NoSentinel(job.recs)
    ensures |run[t].clients| == |job.queries| && |run[t].clients[i].answers| <= |job.queries[i]|
    ensures forall q | 0 <= q < |run[t].clients[i].answers| ::
              && run[t].clients[i].answers[q] == Lookup5(job.recs, job.queries[i][q])
              && (StrictlySorted(job.recs) ==> run[t].clients[i].answers[q] == Scan(job.recs, job.queries[i][q]))
  {
    hide IsRun, Left;
    RunKeepsInv(job, run, t);
    var c := run[t].clients[i];
    assert ClientOk(job, c, i);
    hide Inv, StrictlySorted, Scan;
    forall q | 0 <= q < |c.answers|
      ensures c.answers[q] == Lookup5(job.recs, job.queries[i][q])
      ensures StrictlySorted(job.recs) ==> c.answers[q] == Scan(job.recs, job.queries[i][q])
    {
      RemoteIsLocal(job, job.queries[i][q]);
      if StrictlySorted(job.recs) {
        Lookup5IsScan(job.recs, job.queries[i][q]);
      }
    }
  }

  /**
   Every run is finite, and one cannot go on exactly when every question of every client is
   answered, every child has ended and the parent waits in accept with its first table.
   */
  lemma EveryQuestionIsAnswered(job: Job, run: seq<State>)
    requires job.Ok() && IsRun(job, run)
    ensures |run| <= Left(run[0]) + 1
    ensures !CanMove(job, run[|run| - 1]) <==> AllDone(job, run[|run| - 1])
  {
    var last := run[|run| - 1];
    hide Inv, Left, AllDone, IsRun, Step;
    assert |run| > 0 by { RunIsNonEmpty(job, run); }
    RunKeepsInv(job, run, |run| - 1);
    if !CanMove(job, last) {
      StuckMeansDone(job, last);
    } else if AllDone(job, last) {
      var who: Who :| Exists(last, who) && Step(job, last, who).To?;
      DoneMeansStuck(job, last, who);
    }
  }

  lemma RunIsNonEmpty(job: Job, run: seq<State>)
    requires IsRun(job, run)
    ensures |run| > 0
  {
  }
}
