/**
 my_popen and my_pclose: a table of child pids by descriptor, which a new child uses to close
 the streams that were open before it.
 */
module Popen {
  import opened Descriptors
  import opened Lists
  import opened PipeCommand

  const SLOTS: nat := 100

  /** An open stream: the child at its other end, the pipe between them and the direction. */
  datatype Stream = Stream(pid: int, pipe: nat, reading: bool) {
    function End(): Open { if reading then ReadEnd(pipe) else WriteEnd(pipe) }
    function OtherEnd(): Open { if reading then WriteEnd(pipe) else ReadEnd(pipe) }
  }

  /** `children` has the table with which each child executes its command. */
  datatype World = World(
    fds: Table, pipes: nat, pids: nat, streams: map<nat, Stream>, children: map<int, Table>)

  predicate OnPipe(e: Open, pipe: nat) {
    e == ReadEnd(pipe) || e == WriteEnd(pipe)
  }

  ghost predicate Untouched(t: Table, pipe: nat) {
    forall fd | fd in t :: !OnPipe(t[fd], pipe)
  }

  /** No pipe of this table is newer than the count. */
  ghost predicate Known(t: Table, pipes: nat) {
    forall fd | fd in t :: t[fd].IsPipeEnd() ==> t[fd].pipe < pipes
  }

  /** The table of a new child when it executes its command. */
  function ChildTable(fds: Table, pipes: nat, streams: set<nat>, reading: bool): Table {
    var (full, r, w) := Piped(fds, pipes);
    (if reading then Dup2(Close(full, r), w, 1) else Dup2(full, r, 0)) - streams
  }

  /** The two descriptors of a new pipe fit into the pid list. */
  predicate Fits(fds: Table, pipes: nat) {
    Piped(fds, pipes).1 < 100 && Piped(fds, pipes).2 < 100
  }

  function StreamFd(w: World, reading: bool): nat {
    if reading then Piped(w.fds, w.pipes).1 else Piped(w.fds, w.pipes).2
  }

  function AfterPopen(w: World, reading: bool): World {
    var (full, r, x) := Piped(w.fds, w.pipes);
    w.(fds := Close(full, if reading then x else r), pipes := w.pipes + 1, pids := w.pids + 1,
       streams := w.streams[StreamFd(w, reading) := Stream(w.pids, w.pipes, reading)],
       children := w.children[w.pids := ChildTable(w.fds, w.pipes, w.streams.Keys, reading)])
  }

  function AfterPclose(w: World, fp: nat): World {
    w.(fds := Close(w.fds, fp), streams := w.streams - {fp})
  }

  // ---- Who holds which pipe end -----------------------------------------------------------------

  /** The stream's descriptor is its own end of its pipe, and the process has no other of that pipe. */
  ghost predicate StreamOk(w: World, f: nat) {
    && f in w.streams && 2 < f < SLOTS && f in w.fds && w.fds[f] == w.streams[f].End()
    && w.streams[f].pid > 0 && w.streams[f].pid in w.children && w.streams[f].pipe < w.pipes
    && forall fd | fd in w.fds && OnPipe(w.fds[fd], w.streams[f].pipe) :: fd == f
  }

  /** The stream's child has the other end; no other child has either end. */
  ghost predicate ChildOk(w: World, f: nat, c: int) {
    && f in w.streams && c in w.children
    && if c == w.streams[f].pid then Linked(w.children[c], w.streams[f])
       else Untouched(w.children[c], w.streams[f].pipe)
  }

  /** The child's standard output or input is the pipe; one that reads also has the write end. */
  ghost predicate Linked(t: Table, s: Stream) {
    if s.reading then
      && 1 in t && t[1] == WriteEnd(s.pipe) && !Holds(t, ReadEnd(s.pipe))
    else
      && 0 in t && t[0] == ReadEnd(s.pipe) && Holds(t, WriteEnd(s.pipe))
  }

  ghost predicate Sound(w: World) {
    && w.pids > 0 && 0 in w.fds && 1 in w.fds && 2 in w.fds
    && Known(w.fds, w.pipes)
    && (forall c | c in w.children :: c < w.pids && Known(w.children[c], w.pipes))
    && (forall f | f in w.streams :: StreamOk(w, f))
    && (forall f, c | f in w.streams && c in w.children :: ChildOk(w, f, c))
    && (forall f, g | f in w.streams && g in w.streams && f != g :: w.streams[f].pid != w.streams[g].pid)
  }

  lemma PipedFacts(fds: Table, pipes: nat)
    requires 0 in fds && 1 in fds && 2 in fds
    ensures var (full, r, w) := Piped(fds, pipes);
            && 2 < r < w && r !in fds && w !in fds
            && full == fds[r := ReadEnd(pipes)][w := WriteEnd(pipes)]
  {
    var r := Lowest(fds);
    var w := Lowest(fds[r := ReadEnd(pipes)]);
    assert w !in fds && w != r;
    assert w < r ==> w in fds;
  }

  /** The child's table, entry by entry: the process's own without its streams, and the new pipe. */
  lemma ChildTableIs(fds: Table, pipes: nat, streams: set<nat>, reading: bool)
    requires 0 in fds && 1 in fds && 2 in fds && 0 !in streams && 1 !in streams && streams <= fds.Keys
    ensures var (_, r, w) := Piped(fds, pipes);
            ChildTable(fds, pipes, streams, reading)
            == if reading then (fds - streams)[1 := WriteEnd(pipes)][w := WriteEnd(pipes)]
               else (fds - streams)[0 := ReadEnd(pipes)][r := ReadEnd(pipes)][w := WriteEnd(pipes)]
  {
    PipedFacts(fds, pipes);
  }

  lemma NewChildIsLinked(w: World, reading: bool)
    requires Sound(w)
    ensures Linked(ChildTable(w.fds, w.pipes, w.streams.Keys, reading), Stream(w.pids, w.pipes, reading))
    ensures Known(ChildTable(w.fds, w.pipes, w.streams.Keys, reading), w.pipes + 1)
  {
    hide ChildOk;
    StreamsAreAbove(w);
    PipedFacts(w.fds, w.pipes);
    ChildTableIs(w.fds, w.pipes, w.streams.Keys, reading);
    var t := ChildTable(w.fds, w.pipes, w.streams.Keys, reading);
    hide ChildTable, Piped, StreamOk, Sound;
    if !reading {
      assert t[Piped(w.fds, w.pipes).2] == WriteEnd(w.pipes);
    }
  }

  lemma StreamsAreAbove(w: World)
    requires Sound(w)
    ensures 0 !in w.streams && 1 !in w.streams && 2 !in w.streams && w.streams.Keys <= w.fds.Keys
  {
    hide ChildOk;
    forall f | f in w.streams ensures 2 < f && f in w.fds {
      assert StreamOk(w, f);
    }
  }

  /** A new child holds no end of the pipe of a stream opened before it. */
  lemma NewChildIsClean(w: World, reading: bool, f: nat)
    requires Sound(w) && f in w.streams
    ensures Untouched(ChildTable(w.fds, w.pipes, w.streams.Keys, reading), w.streams[f].pipe)
  {
    StreamsAreAbove(w);
    assert StreamOk(w, f);
    ChildTableIs(w.fds, w.pipes, w.streams.Keys, reading);
    hide Sound, ChildTable, Piped;
  }

  lemma OldChildDoesNotKnow(w: World, c: int)
    requires Sound(w) && c in w.children
    ensures Untouched(w.children[c], w.pipes)
  {
    hide StreamOk, ChildOk;
    assert Known(w.children[c], w.pipes);
  }

  lemma PopenKeepsStreams(w: World, reading: bool, f: nat)
    requires Sound(w) && Fits(w.fds, w.pipes) && f in AfterPopen(w, reading).streams
    ensures StreamOk(AfterPopen(w, reading), f)
  {
    hide ChildOk, ChildTable;
    StreamsAreAbove(w);
    PipedFacts(w.fds, w.pipes);
    hide Piped;
    if f != StreamFd(w, reading) {
      assert StreamOk(w, f);
    }
  }

  lemma PopenKeepsChildren(w: World, reading: bool, f: nat, c: int)
    requires Sound(w) && Fits(w.fds, w.pipes)
    requires f in AfterPopen(w, reading).streams && c in AfterPopen(w, reading).children
    ensures ChildOk(AfterPopen(w, reading), f, c)
  {
    PipedFacts(w.fds, w.pipes);
    StreamsAreAbove(w);
    hide Piped, ChildTable, Linked, Untouched, Known;
    if c == w.pids {
      if f == StreamFd(w, reading) {
        NewChildIsLinked(w, reading);
      } else {
        assert StreamOk(w, f);
        NewChildIsClean(w, reading, f);
      }
    } else if f == StreamFd(w, reading) {
      OldChildDoesNotKnow(w, c);
    } else {
      assert ChildOk(w, f, c);
    }
  }

  lemma PopenKeepsTables(w: World, reading: bool)
    requires Sound(w)
    ensures var w' := AfterPopen(w, reading);
            && 0 in w'.fds && 1 in w'.fds && 2 in w'.fds && Known(w'.fds, w'.pipes)
            && forall c | c in w'.children :: c < w'.pids && Known(w'.children[c], w'.pipes)
  {
    hide ChildOk, StreamOk, ChildTable;
    NewChildIsLinked(w, reading);
    PipedFacts(w.fds, w.pipes);
    hide Piped, Linked;
  }

  lemma PopenKeepsPids(w: World, reading: bool, f: nat, g: nat)
    requires Sound(w) && f in AfterPopen(w, reading).streams && g in AfterPopen(w, reading).streams && f != g
    ensures AfterPopen(w, reading).streams[f].pid != AfterPopen(w, reading).streams[g].pid
  {
    hide ChildOk, ChildTable, Piped;
    assert f in w.streams ==> StreamOk(w, f);
    assert g in w.streams ==> StreamOk(w, g);
  }

  lemma PopenKeepsSound(w: World, reading: bool)
    requires Sound(w) && Fits(w.fds, w.pipes)
    ensures Sound(AfterPopen(w, reading))
  {
    var w' := AfterPopen(w, reading);
    forall f | f in w'.streams ensures StreamOk(w', f) {
      PopenKeepsStreams(w, reading, f);
    }
    forall f, c | f in w'.streams && c in w'.children ensures ChildOk(w', f, c) {
      PopenKeepsChildren(w, reading, f, c);
    }
    forall f, g | f in w'.streams && g in w'.streams && f != g ensures w'.streams[f].pid != w'.streams[g].pid {
      PopenKeepsPids(w, reading, f, g);
    }
    PopenKeepsTables(w, reading);
    assert w'.pids > 0;
    hide ChildOk, StreamOk, AfterPopen, Known;
  }

  lemma PcloseKeepsSound(w: World, fp: nat)
    requires Sound(w) && fp in w.streams
    ensures Sound(AfterPclose(w, fp))
  {
    var w' := AfterPclose(w, fp);
    StreamsAreAbove(w);
    forall f | f in w'.streams ensures StreamOk(w', f) {
      assert StreamOk(w, f);
    }
    forall f, c | f in w'.streams && c in w'.children ensures ChildOk(w', f, c) {
      assert ChildOk(w, f, c);
    }
    hide ChildOk, StreamOk;
  }

  // ---- The calls themselves -------------------------------------------------------------------

  datatype Result = Exited | Opened(fp: nat)

  class Parent {
    const process: Process
    const kernel: Kernel
    const pidList: array<int>
    var pids: nat                           // the pid of the next child
    ghost var streams: map<nat, Stream>
    ghost var children: map<int, Table>

    ghost function Now(): World
      reads this, process, kernel
    {
      World(process.fds, kernel.pipes, pids, streams, children)
    }

    /** The pid list is zero exactly where no stream is open and otherwise has the stream's own child. */
    ghost predicate Listed()
      reads this, pidList
    {
      && pidList.Length == SLOTS
      && forall f: nat | f < SLOTS :: pidList[f] == if f in streams then streams[f].pid else 0
    }

    ghost predicate Valid()
      reads this, process, kernel, pidList
    {
      Listed() && Sound(Now())
    }

    constructor (process: Process, kernel: Kernel, pids: nat)
      requires 0 in process.fds && 1 in process.fds && 2 in process.fds && pids > 0
      requires Known(process.fds, kernel.pipes)
      ensures Valid() && fresh(pidList) && pidList.Length == 100 && this.process == process && this.kernel == kernel
      ensures Now() == World(process.fds, kernel.pipes, pids, map[], map[])
    {
      this.process, this.kernel, this.pids := process, kernel, pids;
      streams, children := map[], map[];
      pidList := new int[SLOTS](_ => 0);
    }

    /** What the child does between fork and exec. */
    method Child(r: nat, w: nat, reading: bool) returns (child: Process)
      requires Listed() && r != w && r in process.fds && w in process.fds
      requires forall f | f in streams :: f < SLOTS && streams[f].pid > 0
      ensures fresh(child)
      ensures child.fds
           == (if reading then Dup2(Close(process.fds, r), w, 1) else Dup2(process.fds, r, 0)) - streams.Keys
    {
      child := new Process(process.fds);
      if reading {
        child.CloseFd(r);
        var _ := child.Dup(w, 1);
      } else {
        var _ := child.Dup(r, 0);
      }
      ghost var start := child.fds;
      for i := 0 to SLOTS
        invariant fresh(child)
        invariant child.fds == start - Below(streams.Keys, i)
      {
        BelowNext(streams.Keys, i);
        if pidList[i] > 0 {
          child.CloseFd(i);
        }
      }
      assert Below(streams.Keys, SLOTS) == streams.Keys;
    }

    /** The entry for a new stream. */
    method Record(fd: nat, pid: int, ghost stream: Stream, ghost table: Table)
      requires Listed() && fd < SLOTS && pid == stream.pid
      modifies this, pidList
      ensures Listed() && pidList[fd] == pid && pids == old(pids)
      ensures streams == old(streams)[fd := stream] && children == old(children)[pid := table]
    {
      pidList[fd] := pid;
      streams := streams[fd := stream];
      children := children[pid := table];
    }

    method MyPopen(kind: string) returns (fp: Result, child: Process?)
      requires Valid() && Fits(process.fds, kernel.pipes)
      modifies this, process, kernel, pidList
      ensures fp.Exited? <==> kind != "r" && kind != "w"
      ensures fp.Opened? ==> Valid() && Now() == AfterPopen(old(Now()), kind == "r")
      ensures fp.Opened? ==> fp.fp == StreamFd(old(Now()), kind == "r") && pidList[fp.fp] == old(pids)
      ensures fp.Opened? ==> child != null && Now().children[old(pids)] == child.fds
      ensures fp.Opened? && kind == "r" ==>
                && fp.fp in process.fds && process.fds[fp.fp] == ReadEnd(old(kernel.pipes))
                && 1 in child.fds && child.fds[1] == WriteEnd(old(kernel.pipes))
      ensures fp.Opened? && kind == "w" ==>
                && fp.fp in process.fds && process.fds[fp.fp] == WriteEnd(old(kernel.pipes))
                && 0 in child.fds && child.fds[0] == ReadEnd(old(kernel.pipes))
    {
      hide Sound;
      ghost var before := Now();
      SoundFacts(before);
      PipedFacts(process.fds, kernel.pipes);
      var r, w := process.Pipe(kernel);
      var pid := pids;
      pids := pids + 1;
      if kind != "r" && kind != "w" {
        return Exited, null;
      }
      child := Child(r, w, kind == "r");
      var fd := r;
      if kind == "r" {
        process.CloseFd(w);
      } else {
        process.CloseFd(r);
        fd := w;
      }
      hide Listed;
      Record(fd, pid, Stream(pid, before.pipes, kind == "r"), child.fds);
      fp := Opened(fd);
      PopenKeepsSound(before, kind == "r");
      assert Now() == AfterPopen(before, kind == "r");
    }

    /** `status` is what the child's exit leaves for waitpid. */
    method MyPclose(fp: nat, status: int) returns (r: Option<int>, waited: int)
      requires Valid() && fp < SLOTS
      modifies this, process, pidList
      ensures r == if fp in old(streams) then Some(status) else None
      ensures r.Some? ==> Valid() && Now() == AfterPclose(old(Now()), fp) && waited == old(streams)[fp].pid
    {
      SoundFacts(Now());
      waited := pidList[fp];
      if waited == 0 {
        return None, waited;
      }
      PcloseKeepsSound(Now(), fp);
      ghost var before := Now();
      pidList[fp] := 0;
      process.CloseFd(fp);
      streams := streams - {fp};
      hide Sound;
      assert Now() == AfterPclose(before, fp);
      r := Some(status);
    }
  }

  ghost function Below(s: set<nat>, n: nat): set<nat> {
    set x | x in s && x < n
  }

  lemma BelowNext(s: set<nat>, n: nat)
    ensures Below(s, n + 1) == if n in s then Below(s, n) + {n} else Below(s, n)
  {
  }

  lemma SoundFacts(w: World)
    requires Sound(w)
    ensures 0 in w.fds && 1 in w.fds && 2 in w.fds
    ensures forall f | f in w.streams :: 2 < f < SLOTS && w.streams[f].pid > 0
  {
    hide ChildOk;
    forall f | f in w.streams ensures 2 < f < SLOTS && w.streams[f].pid > 0 {
      assert StreamOk(w, f);
    }
  }

  // ---- Any sequence of calls ----------------------------------------------------------------------

  datatype Op = Popen(kind: string) | Pclose(fp: nat)

  function After(w: World, op: Op): Option<World> {
    match op
    case Popen(kind) => if kind == "r" || kind == "w" then Some(AfterPopen(w, kind == "r")) else None
    case Pclose(fp) => if fp in w.streams then Some(AfterPclose(w, fp)) else None
  }

  /** None when one of the calls exits. */
  function AfterAll(w: World, ops: seq<Op>): Option<World>
    decreases |ops|
  {
    if ops == [] then Some(w)
    else
      match After(w, ops[0])
      case None => None
      case Some(next) => AfterAll(next, ops[1..])
  }

  predicate AllFit(w: World, ops: seq<Op>)
    decreases |ops|
  {
    ops == []
    || ((ops[0].Popen? ==> Fits(w.fds, w.pipes)) && (ops[0].Pclose? ==> ops[0].fp < SLOTS)
        && (After(w, ops[0]).Some? ==> AllFit(After(w, ops[0]).value, ops[1..])))
  }

  method Calls(parent: Parent, ops: seq<Op>) returns (done: bool)
    requires parent.Valid() && AllFit(parent.Now(), ops)
    modifies parent, parent.process, parent.kernel, parent.pidList
    ensures done == AfterAll(old(parent.Now()), ops).Some?
    ensures done ==> parent.Valid() && parent.Now() == AfterAll(old(parent.Now()), ops).value
  {
    ghost var start := parent.Now();
    for i := 0 to |ops|
      invariant parent.Valid() && AllFit(parent.Now(), ops[i..])
      invariant AfterAll(parent.Now(), ops[i..]) == AfterAll(start, ops)
    {
      hide Sound, AfterPopen, AfterPclose, Fits;
      assert ops[i..][0] == ops[i] && ops[i..][1..] == ops[i + 1..];
      match ops[i]
      case Popen(kind) =>
        var fp, _ := parent.MyPopen(kind);
        if fp.Exited? {
          return false;
        }
      case Pclose(fp) =>
        var r, _ := parent.MyPclose(fp, 0);
        if r.None? {
          return false;
        }
    }
    assert ops[|ops|..] == [];
    done := true;
  }

  ghost predicate Start(w: World) {
    && w.pids > 0 && 0 in w.fds && 1 in w.fds && 2 in w.fds && Known(w.fds, w.pipes)
    && w.streams == map[] && w.children == map[]
  }

  lemma {:induction false} AfterAllIsSound(w: World, ops: seq<Op>)
    requires Sound(w) && AllFit(w, ops) && AfterAll(w, ops).Some?
    ensures Sound(AfterAll(w, ops).value)
    decreases |ops|
  {
    hide Sound, AfterPopen, AfterPclose, Fits;
    if ops != [] {
      match ops[0] {
        case Popen(kind) => PopenKeepsSound(w, kind == "r");
        case Pclose(fp) => PcloseKeepsSound(w, fp);
      }
      AfterAllIsSound(After(w, ops[0]).value, ops[1..]);
    }
  }

  /**
   After any sequence of calls a child made next executes its command without any descriptor
   of the streams open before it, and with everything else its parent had.
   */
  lemma NewChildHoldsNoEarlierStream(start: World, ops: seq<Op>, reading: bool)
    requires Start(start) && AllFit(start, ops) && AfterAll(start, ops).Some?
    ensures var w := AfterAll(start, ops).value;
            var t := ChildTable(w.fds, w.pipes, w.streams.Keys, reading);
            && (forall f | f in w.streams :: Untouched(t, w.streams[f].pipe))
            && (forall fd | fd in w.fds && fd !in w.streams && fd != (if reading then 1 else 0) ::
                  fd in t && t[fd] == w.fds[fd])
            && Linked(t, Stream(w.pids, w.pipes, reading))
  {
    var w := AfterAll(start, ops).value;
    assert Sound(start);
    hide Sound, AfterAll, AllFit;
    AfterAllIsSound(start, ops);
    forall f | f in w.streams
      ensures Untouched(ChildTable(w.fds, w.pipes, w.streams.Keys, reading), w.streams[f].pipe)
    {
      NewChildIsClean(w, reading, f);
    }
    NewChildIsLinked(w, reading);
    StreamsAreAbove(w);
    SoundFacts(w);
    PipedFacts(w.fds, w.pipes);
    ChildTableIs(w.fds, w.pipes, w.streams.Keys, reading);
    hide ChildTable, Piped, Untouched, Linked;
  }

  /**
   After any sequence of calls the other end of a stream's pipe is with its own child and
   nobody else, and its own end only with the caller, except that a child that reads from
   its caller also has the write end and so never sees an end of file.
   */
  lemma PipeEndsAreWithTheirOwn(start: World, ops: seq<Op>, f: nat, c: int)
    requires Start(start) && AllFit(start, ops) && AfterAll(start, ops).Some?
    requires f in AfterAll(start, ops).value.streams && c in AfterAll(start, ops).value.children
    ensures var w := AfterAll(start, ops).value;
            var s := w.streams[f];
            && s.pid in w.children
            && (Holds(w.children[c], s.OtherEnd()) <==> c == s.pid)
            && (Holds(w.children[c], s.End()) <==> c == s.pid && !s.reading)
            && f in w.fds && w.fds[f] == s.End() && !Holds(w.fds, s.OtherEnd())
            && forall fd | fd in w.fds && w.fds[fd] == s.End() :: fd == f
  {
    var w := AfterAll(start, ops).value;
    assert Sound(start);
    AfterAllIsSound(start, ops);
    assert StreamOk(w, f) && ChildOk(w, f, c);
    hide Sound, AfterAll, AllFit;
    EndsOfLinked(w.children[c], w.streams[f]);
    forall fd | fd in w.fds ensures w.fds[fd] != w.streams[f].OtherEnd() {
      assert OnPipe(w.fds[fd], w.streams[f].pipe) ==> fd == f;
    }
  }

  lemma EndsOfLinked(t: Table, s: Stream)
    ensures Linked(t, s) ==> Holds(t, s.OtherEnd()) && (Holds(t, s.End()) <==> !s.reading)
    ensures Untouched(t, s.pipe) ==> !Holds(t, s.OtherEnd()) && !Holds(t, s.End())
  {
    if Linked(t, s) {
      assert t[if s.reading then 1 else 0] == s.OtherEnd();
    }
    if Untouched(t, s.pipe) {
      forall fd | fd in t ensures t[fd] != s.OtherEnd() && t[fd] != s.End() {
        assert !OnPipe(t[fd], s.pipe);
      }
    }
  }
}
