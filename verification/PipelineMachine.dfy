/**
 Every interleaving of the processes of a pipeline, from the first pipe() call of the
 shell's child to the exit of the last command.

 Each process is at some point of pipe_and_exec or runs its command; each system call is
 one step of one process.  A command is described by the bytes it may already write after
 reading `x` (`early(x)`) and by all it writes once it has read `x` and seen end of file
 (`final(x)`).
 */
module PipelineMachine {
  import opened Descriptors
  import opened ShellSyntax

  type Bytes = seq<bv8>

  datatype Command = Command(early: Bytes -> Bytes, final: Bytes -> Bytes)

  /** What a command writes early is never taken back by more input. */
  ghost predicate Streaming(c: Command) {
    forall x, z | x <= z :: c.early(x) <= c.final(z)
  }

  type Programs = Argv -> Command

  /** Where a process is: inside pipe_and_exec, running its command, or gone. */
  datatype Stage =
    | Begin
    | Forking(r: nat, w: nat)
    | ParentClosesRead(r: nat, w: nat)
    | ParentDups(w: nat)
    | ParentClosesWrite(w: nat)
    | ParentExecs
    | ChildClosesWrite(r: nat, w: nat)
    | ChildDups(r: nat)
    | Running(eof: bool)
    | Exited
    | Killed
    | Failed

  datatype Proc = Proc(stage: Stage, argv: Argv, fds: Table, got: Bytes, sent: Bytes)

  datatype Sys = Sys(procs: seq<Proc>, pipes: seq<Bytes>, input: Bytes, output: Bytes)

  datatype Moved = Blocked | To(next: Sys)

  function Put(s: Sys, i: nat, p: Proc): Sys
    requires i < |s.procs|
  {
    s.(procs := s.procs[i := p])
  }

  /** A process that leaves closes all its descriptors. */
  function Leave(s: Sys, i: nat, stage: Stage): Sys
    requires i < |s.procs|
  {
    Put(s, i, s.procs[i].(stage := stage, fds := map[]))
  }

  ghost predicate SomeoneHolds(s: Sys, e: Open) {
    exists j :: 0 <= j < |s.procs| && Holds(s.procs[j].fds, e)
  }

  function Init(argv: Argv, std: Std, input: Bytes): Sys {
    Sys([Proc(Begin, argv, std.ToTable(), [], [])], [], input, [])
  }

  /** One system call of process `i`; `n` is the number of bytes a read or write moves. */
  ghost function Step(prog: Programs, cap: nat, s: Sys, i: nat, n: nat): Moved
    requires i < |s.procs|
  {
    var p := s.procs[i];
    match p.stage
    case Begin =>
      var at := PipeIndex(p.argv);
      if at == -1 then To(Leave(s, i, Failed))
      else if at == 0 then To(Put(s, i, p.(stage := Running(false))))
      else
        var r := Lowest(p.fds);
        var half := p.fds[r := ReadEnd(|s.pipes|)];
        var w := Lowest(half);
        To(Put(s, i, p.(stage := Forking(r, w), fds := half[w := WriteEnd(|s.pipes|)])).(pipes := s.pipes + [[]]))
    case Forking(r, w) =>
      var parent := Put(s, i, p.(stage := ParentClosesRead(r, w)));
      To(parent.(procs := parent.procs + [p.(stage := ChildClosesWrite(r, w))]))
    case ParentClosesRead(r, w) =>
      To(Put(s, i, p.(stage := ParentDups(w), fds := Close(p.fds, r))))
    case ParentDups(w) =>
      if w !in p.fds then To(Leave(s, i, Failed))
      else To(Put(s, i, p.(stage := ParentClosesWrite(w), fds := Dup2(p.fds, w, 1))))
    case ParentClosesWrite(w) =>
      To(Put(s, i, p.(stage := ParentExecs, fds := Close(p.fds, w))))
    case ParentExecs =>
      var at := PipeIndex(p.argv);
      if at <= 0 then To(Leave(s, i, Failed))
      else To(Put(s, i, p.(stage := Running(false), argv := p.argv[..at])))
    case ChildClosesWrite(r, w) =>
      To(Put(s, i, p.(stage := ChildDups(r), fds := Close(p.fds, w))))
    case ChildDups(r) =>
      var at := PipeIndex(p.argv);
      if r !in p.fds || at <= 0 then To(Leave(s, i, Failed))
      else To(Put(s, i, p.(stage := Begin, fds := Dup2(p.fds, r, 0), argv := p.argv[at + 1..])))
    case Running(eof) =>
      var due := Due(prog, p);
      if |p.sent| < |due| then Write(cap, s, i, n, due)
      else if !eof then Read(s, i, n)
      else To(Leave(s, i, Exited))
    case _ => Blocked
  }

  /** All that a running process may have written by now. */
  ghost function Due(prog: Programs, p: Proc): Bytes
    requires p.stage.Running?
  {
    if p.stage.eof then prog(p.argv).final(p.got) else prog(p.argv).early(p.got)
  }

  ghost function Write(cap: nat, s: Sys, i: nat, n: nat, due: Bytes): Moved
    requires i < |s.procs| && |s.procs[i].sent| < |due|
  {
    var p := s.procs[i];
    if 1 !in p.fds || p.fds[1].ReadEnd? then To(Leave(s, i, Failed))
    else if n == 0 || n > |due| - |p.sent| then Blocked
    else
      var chunk := due[|p.sent|..|p.sent| + n];
      var wrote := Put(s, i, p.(sent := p.sent + chunk));
      match p.fds[1]
      case WriteEnd(q) =>
        if q >= |s.pipes| || !SomeoneHolds(s, ReadEnd(q)) then To(Leave(s, i, Killed))
        else if |s.pipes[q]| + n > cap then Blocked
        else To(wrote.(pipes := s.pipes[q := s.pipes[q] + chunk]))
      case _ => To(wrote.(output := s.output + chunk))
  }

  ghost function Read(s: Sys, i: nat, n: nat): Moved
    requires i < |s.procs| && s.procs[i].stage.Running?
  {
    var p := s.procs[i];
    if 0 !in p.fds || p.fds[0].WriteEnd? then To(Leave(s, i, Failed))
    else
      match p.fds[0]
      case ReadEnd(q) =>
        if q >= |s.pipes| then To(Leave(s, i, Failed))
        else if s.pipes[q] == [] then
          if SomeoneHolds(s, WriteEnd(q)) then Blocked
          else To(Put(s, i, p.(stage := Running(true))))
        else if 1 <= n <= |s.pipes[q]| then
          To(Put(s, i, p.(got := p.got + s.pipes[q][..n])).(pipes := s.pipes[q := s.pipes[q][n..]]))
        else Blocked
      case _ =>
        if s.input == [] then To(Put(s, i, p.(stage := Running(true))))
        else if 1 <= n <= |s.input| then
          To(Put(s, i, p.(got := p.got + s.input[..n])).(input := s.input[n..]))
        else Blocked
  }

  ghost predicate Next(prog: Programs, cap: nat, s: Sys, s': Sys) {
    exists i: nat, n: nat :: i < |s.procs| && Step(prog, cap, s, i, n) == To(s')
  }

  ghost predicate IsRun(prog: Programs, cap: nat, first: Sys, run: seq<Sys>) {
    && |run| > 0
    && run[0] == first
    && forall t | 0 <= t < |run| - 1 :: Next(prog, cap, run[t], run[t + 1])
  }

  // ---- What the states of a run look like ----------------------------------------------

  /** The constants of one run: the commands, the segments, the first table and the input. */
  datatype Job = Job(prog: Programs, segs: seq<Argv>, std: Std, input: Bytes) {
    ghost predicate Ok() {
      && AreSegments(segs)
      && std.NoPipes()
      && forall k | 0 <= k < |segs| :: Streaming(prog(segs[k]))
    }
  }

  /** What stage `k` is to read: the composition of the first `k` commands. */
  ghost function Feed(j: Job, k: nat): Bytes
    requires k <= |j.segs|
  {
    if k == 0 then j.input else j.prog(j.segs[k - 1]).final(Feed(j, k - 1))
  }

  /** The table process `k` starts pipe_and_exec with: `k` read ends are left over. */
  function Base(k: nat, std: Std): Table {
    map fd: nat | 0 <= fd < k + 3 :: BaseAt(k, std, fd)
  }

  function BaseAt(k: nat, std: Std, fd: nat): Open {
    if fd == 0 then (if k == 0 then std.input else ReadEnd(k - 1))
    else if fd == 1 then std.output
    else if fd == 2 then std.error
    else ReadEnd(fd - 3)
  }

  /** The table process `k` of `n` runs its command with. */
  function Wired(k: nat, n: nat, std: Std): Table {
    if k + 1 == n then Base(k, std) else Base(k, std)[1 := WriteEnd(k)]
  }

  ghost predicate TableOk(k: nat, n: nat, std: Std, stage: Stage, fds: Table) {
    match stage
    case Begin => fds == Base(k, std)
    case Forking(r, w) => r == k + 3 && w == k + 4 && fds == Base(k, std)[r := ReadEnd(k)][w := WriteEnd(k)]
    case ParentClosesRead(r, w) => r == k + 3 && w == k + 4 && fds == Base(k, std)[r := ReadEnd(k)][w := WriteEnd(k)]
    case ParentDups(w) => w == k + 4 && fds == Base(k, std)[w := WriteEnd(k)]
    case ParentClosesWrite(w) => w == k + 4 && fds == Base(k, std)[w := WriteEnd(k)][1 := WriteEnd(k)]
    case ParentExecs => fds == Base(k, std)[1 := WriteEnd(k)]
    case ChildClosesWrite(r, w) =>
      k > 0 && r == k + 2 && w == k + 3 && fds == Base(k - 1, std)[r := ReadEnd(k - 1)][w := WriteEnd(k - 1)]
    case ChildDups(r) => k > 0 && r == k + 2 && fds == Base(k - 1, std)[r := ReadEnd(k - 1)]
    case Running(_) => fds == Wired(k, n, std)
    case Exited => fds == map[]
    case _ => false
  }

  ghost predicate ArgvOk(k: nat, segs: seq<Argv>, stage: Stage, argv: Argv)
    requires k < |segs|
  {
    match stage
    case Running(_) => argv == segs[k]
    case Exited => argv == segs[k]
    case ChildClosesWrite(_, _) => k > 0 && argv == Join(segs[k - 1..])
    case ChildDups(_) => k > 0 && argv == Join(segs[k - 1..])
    case _ => argv == Join(segs[k..])
  }

  /** Which stages process `k` can be at while `m` of `n` processes exist. */
  ghost predicate PlaceOk(k: nat, m: nat, n: nat, stage: Stage) {
    match stage
    case Begin => k + 1 == m
    case ChildClosesWrite(_, _) => k + 1 == m
    case ChildDups(_) => k + 1 == m
    case Forking(_, _) => k + 1 == m < n
    case Running(_) => k + 1 < m || m == n
    case Exited => k + 1 < m || m == n
    case _ => k + 1 < m
  }

  ghost predicate DataOk(j: Job, k: nat, p: Proc)
    requires k < |j.segs|
  {
    && p.got <= Feed(j, k)
    && p.sent <= Feed(j, k + 1)
    && (Finished(p) ==> p.got == Feed(j, k))
    && (p.stage.Exited? ==> p.sent == Feed(j, k + 1))
    && (!p.stage.Running? && !p.stage.Exited? ==> p.got == [] && p.sent == [])
  }

  /** The process has seen the end of its input. */
  predicate Finished(p: Proc) {
    p.stage == Running(true) || p.stage.Exited?
  }

  ghost predicate ProcOk(j: Job, k: nat, m: nat, p: Proc)
    requires k < |j.segs|
  {
    && TableOk(k, |j.segs|, j.std, p.stage, p.fds)
    && ArgvOk(k, j.segs, p.stage, p.argv)
    && PlaceOk(k, m, |j.segs|, p.stage)
    && DataOk(j, k, p)
  }

  function Got(s: Sys, k: nat): Bytes {
    if k < |s.procs| then s.procs[k].got else []
  }

  ghost predicate ProcsOk(j: Job, s: Sys) {
    var m := |s.procs|;
    && 1 <= m <= |j.segs|
    && |s.pipes| == m - 1 + (if s.procs[m - 1].stage.Forking? then 1 else 0)
    && (forall k | 0 <= k < m :: ProcOk(j, k, m, s.procs[k]))
    && (forall k, l | 0 <= k < l < m :: Finished(s.procs[l]) ==> s.procs[k].stage.Exited?)
  }

  /** No byte is lost, invented or reordered on the way from one process to the next. */
  ghost predicate FlowOk(j: Job, s: Sys) {
    && 1 <= |s.procs| <= |j.segs|
    && |s.pipes| <= |s.procs|
    && (forall q {:trigger s.pipes[q]} | 0 <= q < |s.pipes| :: s.procs[q].sent == Got(s, q + 1) + s.pipes[q])
    && j.input == s.procs[0].got + s.input
    && s.output == if |s.procs| == |j.segs| then s.procs[|j.segs| - 1].sent else []
  }

  ghost predicate Inv(j: Job, s: Sys) {
    ProcsOk(j, s) && FlowOk(j, s)
  }

  // ---- Who holds which end -------------------------------------------------------------

  /** A write end is held only by its own process, or by its child for one step. */
  lemma WriteEndHolder(j: Job, k: nat, m: nat, p: Proc, q: nat)
    requires j.Ok() && k < |j.segs| && ProcOk(j, k, m, p)
    ensures Holds(p.fds, WriteEnd(q)) <==>
              || (q == k && (p.stage.Forking? || p.stage.ParentClosesRead? || p.stage.ParentDups?
                             || p.stage.ParentClosesWrite? || p.stage.ParentExecs?
                             || (p.stage.Running? && k + 1 < |j.segs|)))
              || (q + 1 == k && p.stage.ChildClosesWrite?)
  {
    match p.stage
    case Forking(r, w) => assert p.fds[w] == WriteEnd(k);
    case ParentClosesRead(r, w) => assert p.fds[w] == WriteEnd(k);
    case ParentDups(w) => assert p.fds[w] == WriteEnd(k);
    case ParentClosesWrite(w) => assert p.fds[w] == WriteEnd(k);
    case ParentExecs => assert p.fds[1] == WriteEnd(k);
    case ChildClosesWrite(r, w) => assert p.fds[w] == WriteEnd(k - 1);
    case Running(_) => if k + 1 < |j.segs| { assert p.fds[1] == WriteEnd(k); }
    case _ =>
  }

  /** As long as the next process has not exited it can read what process `k` writes. */
  lemma ReaderHolds(j: Job, k: nat, m: nat, p: Proc)
    requires j.Ok() && 0 < k < |j.segs| && ProcOk(j, k, m, p) && !p.stage.Exited?
    ensures Holds(p.fds, ReadEnd(k - 1))
  {
    if p.stage.ChildClosesWrite? || p.stage.ChildDups? {
      assert p.fds[k + 2] == ReadEnd(k - 1);
    } else {
      assert p.fds[0] == ReadEnd(k - 1);
    }
  }

  // ---- Every step keeps the invariant --------------------------------------------------

  lemma InitKeepsInv(j: Job)
    requires j.Ok()
    ensures Inv(j, Init(Join(j.segs), j.std, j.input))
  {
    assert j.segs[0..] == j.segs;
    assert j.std.ToTable() == Base(0, j.std);
  }

  /** A step that only changes process `i` itself. */
  lemma LocalStep(j: Job, s: Sys, i: nat, p: Proc)
    requires j.Ok() && Inv(j, s) && i < |s.procs|
    requires ProcOk(j, i, |s.procs|, p)
    requires p.got == s.procs[i].got && p.sent == s.procs[i].sent
    requires p.stage.Forking? == s.procs[i].stage.Forking?
    requires s.procs[i].stage.Exited? ==> p.stage.Exited?
    requires Finished(p) ==> forall k | 0 <= k < i :: s.procs[k].stage.Exited?
    ensures Inv(j, Put(s, i, p))
  {
    hide TableOk, ArgvOk, DataOk, PlaceOk, Feed;
    assert ProcsOk(j, Put(s, i, p)) by {
      hide FlowOk;
    }
    assert FlowOk(j, Put(s, i, p)) by {
      hide ProcsOk;
    }
  }

  lemma BuildStep(j: Job, cap: nat, s: Sys, i: nat, n: nat)
    requires j.Ok() && Inv(j, s) && i < |s.procs|
    requires !s.procs[i].stage.Running?
    ensures Step(j.prog, cap, s, i, n).To? ==> Inv(j, Step(j.prog, cap, s, i, n).next)
  {
    hide Feed, FlowOk, ProcOk;
    var stage := s.procs[i].stage;
    if stage.Begin? {
      hide ProcsOk, Job.Ok;
      BeginStep(j, cap, s, i, n);
    } else if stage.Forking? {
      hide ProcsOk, Job.Ok;
      ForkStep(j, cap, s, i, n);
    } else if stage.Exited? {
    } else {
      var p := Rewiring(j, cap, s, i, n);
      hide ProcsOk, Job.Ok, Rewired;
      Rewire(j, s, i, p);
    }
  }

  /** The call a process being built makes next changes only its own stage, vector and table. */
  lemma Rewiring(j: Job, cap: nat, s: Sys, i: nat, n: nat) returns (p: Proc)
    requires j.Ok() && i < |s.procs| && i < |j.segs| && ProcOk(j, i, |s.procs|, s.procs[i]) && |s.procs| <= |j.segs|
    requires var t := s.procs[i].stage; !t.Running? && !t.Exited? && !t.Begin? && !t.Forking?
    ensures Rewired(j, i, s.procs[i], p) && Step(j.prog, cap, s, i, n) == To(Put(s, i, p))
  {
    hide Feed, Join, PipeIndex, Lowest, SomeoneHolds;
    var q := s.procs[i];
    if q.stage.ParentExecs? {
      SegmentHeads(j.segs, i);
      p := q.(stage := Running(false), argv := j.segs[i]);
    } else if q.stage.ChildDups? {
      SegmentHeads(j.segs, i - 1);
      p := q.(stage := Begin, fds := Dup2(q.fds, q.stage.r, 0), argv := Join(j.segs[i..]));
    } else {
      p := Step(j.prog, cap, s, i, n).next.procs[i];
    }
  }

  /** The table, vector and stage changes of a process being built, and nothing else. */
  ghost predicate Rewired(j: Job, i: nat, q: Proc, p: Proc)
    requires i < |j.segs|
  {
    && p.got == q.got && p.sent == q.sent
    && match q.stage
       case ParentClosesRead(r, w) => p.argv == q.argv && p.stage == ParentDups(w) && p.fds == Close(q.fds, r)
       case ParentDups(w) =>
         p.argv == q.argv && p.stage == ParentClosesWrite(w) && w in q.fds && p.fds == Dup2(q.fds, w, 1)
       case ParentClosesWrite(w) => p.argv == q.argv && p.stage == ParentExecs && p.fds == Close(q.fds, w)
       case ParentExecs => p.argv == j.segs[i] && p.stage == Running(false) && p.fds == q.fds
       case ChildClosesWrite(r, w) => p.argv == q.argv && p.stage == ChildDups(r) && p.fds == Close(q.fds, w)
       case ChildDups(r) =>
         p.argv == Join(j.segs[i..]) && p.stage == Begin && r in q.fds && p.fds == Dup2(q.fds, r, 0)
       case _ => false
  }

  lemma RewiredOk(j: Job, i: nat, m: nat, q: Proc, p: Proc)
    requires j.Ok() && i < m <= |j.segs| && ProcOk(j, i, m, q) && Rewired(j, i, q, p)
    ensures ProcOk(j, i, m, p)
    ensures !Finished(p) && !p.stage.Forking? && !q.stage.Forking? && !q.stage.Exited?
  {
    hide Join, Feed;
    match q.stage
    case ParentClosesRead(r, w) => assert p.fds == Base(i, j.std)[w := WriteEnd(i)];
    case ParentClosesWrite(w) => assert p.fds == Base(i, j.std)[1 := WriteEnd(i)];
    case ChildClosesWrite(r, w) => assert p.fds == Base(i - 1, j.std)[r := ReadEnd(i - 1)];
    case ChildDups(r) => assert p.fds == Base(i, j.std);
    case _ =>
  }

  lemma Rewire(j: Job, s: Sys, i: nat, p: Proc)
    requires j.Ok() && Inv(j, s) && i < |s.procs|
    requires Rewired(j, i, s.procs[i], p)
    ensures Inv(j, Put(s, i, p))
  {
    assert ProcOk(j, i, |s.procs|, s.procs[i]) by { hide ProcOk, Rewired; }
    RewiredOk(j, i, |s.procs|, s.procs[i], p);
    assert p.got == s.procs[i].got && p.sent == s.procs[i].sent;
    hide ProcOk, FlowOk, ProcsOk, Inv, Rewired;
    LocalStep(j, s, i, p);
  }

  lemma BeginStep(j: Job, cap: nat, s: Sys, i: nat, n: nat)
    requires j.Ok() && Inv(j, s) && i < |s.procs|
    requires s.procs[i].stage.Begin?
    ensures Step(j.prog, cap, s, i, n).To? && Inv(j, Step(j.prog, cap, s, i, n).next)
  {
    var p := s.procs[i];
    var m := |s.procs|;
    assert ProcOk(j, i, m, p) && m <= |j.segs| by { hide ProcOk; }
    assert i == m - 1;
    assert |s.pipes| == i by { hide ProcOk; }
    BeginMoves(j, cap, s, i, n);
    hide ProcOk, Step;
    if i + 1 == |j.segs| {
      LocalStep(j, s, i, p.(stage := Running(false))) by { hide FlowOk; }
    } else {
      var q := PipeMade(j, i, m, p);
      MakePipe(j, s, i, q);
    }
  }

  lemma BeginMoves(j: Job, cap: nat, s: Sys, i: nat, n: nat)
    requires j.Ok() && i + 1 == |s.procs| <= |j.segs| && |s.pipes| == i
    requires s.procs[i].stage.Begin? && ProcOk(j, i, |s.procs|, s.procs[i])
    ensures s.procs[i].got == s.procs[i].sent == []
    ensures i + 1 == |j.segs| ==>
              var p := s.procs[i].(stage := Running(false));
              ProcOk(j, i, |s.procs|, p) && Step(j.prog, cap, s, i, n) == To(Put(s, i, p))
    ensures i + 1 < |j.segs| ==>
              var p := s.procs[i];
              var q := p.(stage := Forking(i + 3, i + 4), fds := p.fds[i + 3 := ReadEnd(i)][i + 4 := WriteEnd(i)]);
              Step(j.prog, cap, s, i, n) == To(Put(s, i, q).(pipes := s.pipes + [[]]))
  {
    hide Feed, Join, PipeIndex, Lowest;
    SegmentHeads(j.segs, i);
    if i + 1 < |j.segs| {
      var q := PipeMade(j, i, |s.procs|, s.procs[i]);
    }
  }

  /** What pipe() leaves in the table of process `i`. */
  lemma PipeMade(j: Job, i: nat, m: nat, p: Proc) returns (q: Proc)
    requires j.Ok() && i + 1 < |j.segs| && ProcOk(j, i, m, p) && p.stage.Begin?
    ensures Lowest(p.fds) == i + 3 && Lowest(p.fds[i + 3 := ReadEnd(i)]) == i + 4
    ensures q == p.(stage := Forking(i + 3, i + 4), fds := p.fds[i + 3 := ReadEnd(i)][i + 4 := WriteEnd(i)])
    ensures ProcOk(j, i, m, q)
  {
    hide Feed, Join, Lowest;
    LowestOfDense(p.fds, i + 3);
    LowestOfDense(p.fds[i + 3 := ReadEnd(i)], i + 4);
    q := p.(stage := Forking(i + 3, i + 4), fds := p.fds[i + 3 := ReadEnd(i)][i + 4 := WriteEnd(i)]);
  }

  lemma MakePipe(j: Job, s: Sys, i: nat, q: Proc)
    requires j.Ok() && Inv(j, s) && i == |s.procs| - 1 == |s.pipes|
    requires ProcOk(j, i, |s.procs|, q) && q.stage.Forking?
    requires s.procs[i].stage.Begin? && q.got == s.procs[i].got == [] && q.sent == s.procs[i].sent == []
    ensures Inv(j, Put(s, i, q).(pipes := s.pipes + [[]]))
  {
    hide ProcOk, Feed;
    var s' := Put(s, i, q).(pipes := s.pipes + [[]]);
    assert ProcsOk(j, s') by { hide FlowOk; }
    assert FlowOk(j, s') by { hide ProcsOk; }
  }

  lemma ForkStep(j: Job, cap: nat, s: Sys, i: nat, n: nat)
    requires j.Ok() && Inv(j, s) && i < |s.procs|
    requires s.procs[i].stage.Forking?
    ensures Step(j.prog, cap, s, i, n).To? && Inv(j, Step(j.prog, cap, s, i, n).next)
  {
    hide Feed, Join, PipeIndex, Lowest;
    var p := s.procs[i];
    var m := |s.procs|;
    assert ProcOk(j, i, m, p) by { hide ProcOk; }
    var s' := Step(j.prog, cap, s, i, n).next;
    var parent := p.(stage := ParentClosesRead(p.stage.r, p.stage.w));
    var child := p.(stage := ChildClosesWrite(p.stage.r, p.stage.w));
    assert s' == s.(procs := s.procs[i := parent] + [child]);
    hide Step;
    Forked(j, i, m, p);
    hide ProcOk;
    Fork(j, s, i, parent, child);
  }

  lemma Forked(j: Job, i: nat, m: nat, p: Proc)
    requires j.Ok() && i < |j.segs| && ProcOk(j, i, m, p) && p.stage.Forking?
    ensures i + 1 == m < |j.segs| && p.got == [] && p.sent == []
    ensures ProcOk(j, i, m + 1, p.(stage := ParentClosesRead(p.stage.r, p.stage.w)))
    ensures ProcOk(j, m, m + 1, p.(stage := ChildClosesWrite(p.stage.r, p.stage.w)))
  {
    hide Feed, Join;
    assert i + 1 == m;
    assert j.segs[m - 1..] == j.segs[i..];
  }

  lemma Fork(j: Job, s: Sys, i: nat, parent: Proc, child: Proc)
    requires j.Ok() && Inv(j, s) && i + 1 == |s.procs| < |j.segs|
    requires s.procs[i].stage.Forking?
    requires ProcOk(j, i, |s.procs| + 1, parent) && ProcOk(j, i + 1, |s.procs| + 1, child)
    requires parent.stage.ParentClosesRead? && child.stage.ChildClosesWrite?
    requires parent.got == s.procs[i].got && parent.sent == s.procs[i].sent && child.got == [] && child.sent == []
    ensures Inv(j, s.(procs := s.procs[i := parent] + [child]))
  {
    hide ProcOk, Feed, Job.Ok;
    var m := |s.procs|;
    var s' := s.(procs := s.procs[i := parent] + [child]);
    forall k | 0 <= k < m + 1 ensures ProcOk(j, k, m + 1, s'.procs[k]) {
      if k < i {
        StaysOk(j, k, m, s.procs[k]);
      }
    }
    assert ProcsOk(j, s') by { hide FlowOk; }
    assert FlowOk(j, s') by { hide ProcsOk; }
  }

  lemma StaysOk(j: Job, k: nat, m: nat, p: Proc)
    requires k + 1 < m < |j.segs| && ProcOk(j, k, m, p)
    ensures ProcOk(j, k, m + 1, p)
  {
    hide TableOk, ArgvOk, DataOk;
  }

  /** A running command never writes anything the finished command would not write. */
  lemma DueIsSafe(j: Job, i: nat, m: nat, p: Proc)
    requires j.Ok() && i < |j.segs| && ProcOk(j, i, m, p) && p.stage.Running?
    ensures Due(j.prog, p) <= Feed(j, i + 1)
    ensures p.stage.eof ==> Due(j.prog, p) == Feed(j, i + 1)
  {
    hide TableOk, PlaceOk;
    assert Streaming(j.prog(j.segs[i]));
  }

  lemma SendToPipe(j: Job, s: Sys, i: nat, chunk: Bytes)
    requires j.Ok() && Inv(j, s) && i + 1 < |s.procs| && s.procs[i].stage.Running? && i < |s.pipes|
    requires s.procs[i].sent + chunk <= Feed(j, i + 1)
    ensures var p := s.procs[i];
            Inv(j, Put(s, i, p.(sent := p.sent + chunk)).(pipes := s.pipes[i := s.pipes[i] + chunk]))
  {
    var p := s.procs[i];
    assert ProcOk(j, i, |s.procs|, p) by { hide ProcOk; }
    SentOk(j, i, |s.procs|, p, chunk);
    hide ProcOk, Feed, FlowOk;
    SendFlows(j, s, i, chunk) by { hide ProcsOk; }
  }

  lemma SendFlows(j: Job, s: Sys, i: nat, chunk: Bytes)
    requires FlowOk(j, s) && i + 1 < |s.procs| && i < |s.pipes|
    ensures var p := s.procs[i];
            FlowOk(j, Put(s, i, p.(sent := p.sent + chunk)).(pipes := s.pipes[i := s.pipes[i] + chunk]))
  {
  }

  lemma SentOk(j: Job, i: nat, m: nat, p: Proc, chunk: Bytes)
    requires i < |j.segs| && ProcOk(j, i, m, p) && p.stage.Running? && p.sent + chunk <= Feed(j, i + 1)
    ensures ProcOk(j, i, m, p.(sent := p.sent + chunk))
  {
    hide TableOk, ArgvOk, PlaceOk, Feed;
  }

  lemma SendToOutput(j: Job, s: Sys, i: nat, chunk: Bytes)
    requires j.Ok() && Inv(j, s) && i + 1 == |s.procs| == |j.segs| && s.procs[i].stage.Running?
    requires s.procs[i].sent + chunk <= Feed(j, i + 1)
    ensures var p := s.procs[i];
            Inv(j, Put(s, i, p.(sent := p.sent + chunk)).(output := s.output + chunk))
  {
    var p := s.procs[i];
    assert ProcOk(j, i, |s.procs|, p) by { hide ProcOk; }
    SentOk(j, i, |s.procs|, p, chunk);
    hide ProcOk, Feed, FlowOk;
    OutputFlows(j, s, i, chunk) by { hide ProcsOk; }
  }

  lemma OutputFlows(j: Job, s: Sys, i: nat, chunk: Bytes)
    requires FlowOk(j, s) && i + 1 == |s.procs| == |j.segs| && |s.pipes| == i
    ensures var p := s.procs[i];
            FlowOk(j, Put(s, i, p.(sent := p.sent + chunk)).(output := s.output + chunk))
  {
  }

  lemma TakeFromPipe(j: Job, s: Sys, i: nat, n: nat)
    requires j.Ok() && Inv(j, s) && 0 < i < |s.procs| && i <= |s.pipes|
    requires s.procs[i].stage == Running(false) && n <= |s.pipes[i - 1]|
    ensures var p := s.procs[i];
            Inv(j, Put(s, i, p.(got := p.got + s.pipes[i - 1][..n])).(pipes := s.pipes[i - 1 := s.pipes[i - 1][n..]]))
  {
    var p := s.procs[i];
    assert ProcOk(j, i, |s.procs|, p) && ProcOk(j, i - 1, |s.procs|, s.procs[i - 1]) by { hide ProcOk, FlowOk; }
    hide ProcOk, Feed;
    TakeFlows(j, s, i, n) by { hide ProcsOk; }
    hide FlowOk;
    SentIsDue(j, i - 1, |s.procs|, s.procs[i - 1]);
    GotOk(j, i, |s.procs|, p, s.pipes[i - 1], n);
  }

  lemma TakeFlows(j: Job, s: Sys, i: nat, n: nat)
    requires FlowOk(j, s) && 0 < i < |s.procs| && i <= |s.pipes| && n <= |s.pipes[i - 1]|
    ensures s.procs[i - 1].sent == s.procs[i].got + s.pipes[i - 1]
    ensures var p := s.procs[i];
            FlowOk(j, Put(s, i, p.(got := p.got + s.pipes[i - 1][..n]))
                      .(pipes := s.pipes[i - 1 := s.pipes[i - 1][n..]]))
  {
    var p, pipe := s.procs[i], s.pipes[i - 1];
    assert pipe == pipe[..n] + pipe[n..];
    assert p.got + pipe == (p.got + pipe[..n]) + pipe[n..];
  }

  lemma GotOk(j: Job, i: nat, m: nat, p: Proc, source: Bytes, n: nat)
    requires i < |j.segs| && ProcOk(j, i, m, p) && p.stage == Running(false)
    requires n <= |source| && p.got + source <= Feed(j, i)
    ensures ProcOk(j, i, m, p.(got := p.got + source[..n]))
  {
    hide TableOk, ArgvOk, PlaceOk, Feed;
    assert p.got + source == (p.got + source[..n]) + source[n..];
  }

  lemma TakeFromInput(j: Job, s: Sys, n: nat)
    requires j.Ok() && Inv(j, s)
    requires s.procs[0].stage == Running(false) && n <= |s.input|
    ensures var p := s.procs[0];
            Inv(j, Put(s, 0, p.(got := p.got + s.input[..n])).(input := s.input[n..]))
  {
    var p := s.procs[0];
    assert ProcOk(j, 0, |s.procs|, p) by { hide ProcOk, FlowOk; }
    hide ProcOk;
    InputFlows(j, s, n) by { hide ProcsOk; }
    hide FlowOk;
    GotOk(j, 0, |s.procs|, p, s.input, n);
  }

  lemma InputFlows(j: Job, s: Sys, n: nat)
    requires FlowOk(j, s) && n <= |s.input|
    ensures s.procs[0].got + s.input == j.input
    ensures var p := s.procs[0];
            FlowOk(j, Put(s, 0, p.(got := p.got + s.input[..n])).(input := s.input[n..]))
  {
    assert s.input == s.input[..n] + s.input[n..];
    assert s.procs[0].got + s.input == (s.procs[0].got + s.input[..n]) + s.input[n..];
  }

  /** Where a running process reads and writes. */
  lemma RunningWires(j: Job, i: nat, m: nat, p: Proc)
    requires j.Ok() && i < m <= |j.segs| && ProcOk(j, i, m, p) && p.stage.Running?
    ensures 0 in p.fds && 1 in p.fds && p.argv == j.segs[i]
    ensures p.fds[0] == if i == 0 then j.std.input else ReadEnd(i - 1)
    ensures p.fds[1] == if i + 1 == |j.segs| then j.std.output else WriteEnd(i)
    ensures i + 1 < m || m == |j.segs|
  {
    hide Feed;
  }

  /** Once nobody can write to the pipe, the process before has written all of its output. */
  lemma EofMeansExited(j: Job, s: Sys, i: nat)
    requires j.Ok() && Inv(j, s) && 0 < i < |s.procs|
    requires !SomeoneHolds(s, WriteEnd(i - 1))
    ensures s.procs[i - 1].stage.Exited? && s.procs[i - 1].sent == Feed(j, i)
  {
    var p := s.procs[i - 1];
    assert ProcOk(j, i - 1, |s.procs|, p) by { hide ProcOk; }
    WriteEndHolder(j, i - 1, |s.procs|, p, i - 1);
    assert !Holds(p.fds, WriteEnd(i - 1));
    hide TableOk, ArgvOk, Inv;
  }

  lemma WriteStep(j: Job, cap: nat, s: Sys, i: nat, n: nat, due: Bytes)
    requires j.Ok() && Inv(j, s) && i < |s.procs| && s.procs[i].stage.Running?
    requires |s.procs[i].sent| < |due| && due <= Feed(j, i + 1)
    ensures Write(cap, s, i, n, due).To? ==> Inv(j, Write(cap, s, i, n, due).next)
  {
    hide ProcOk, Feed, FlowOk;
    WriteMoves(j, cap, s, i, n, due);
    SentIsDue(j, i, |s.procs|, s.procs[i]);
    hide ProcsOk, Inv, Job.Ok, Write;
    if Write(cap, s, i, n, due).To? {
      var chunk := due[|s.procs[i].sent|..|s.procs[i].sent| + n];
      assert s.procs[i].sent + chunk == due[..|s.procs[i].sent| + n];
      if i + 1 < |j.segs| {
        SendToPipe(j, s, i, chunk);
      } else {
        SendToOutput(j, s, i, chunk);
      }
    }
  }

  /** A write of process `i` goes to pipe `i`, or to the output of the last process, or waits for room. */
  lemma WriteMoves(j: Job, cap: nat, s: Sys, i: nat, n: nat, due: Bytes)
    requires j.Ok() && Inv(j, s) && i < |s.procs| && s.procs[i].stage.Running?
    requires |s.procs[i].sent| < |due|
    ensures i + 1 < |s.procs| || i + 1 == |s.procs| == |j.segs|
    ensures i + 1 < |s.procs| ==> i < |s.pipes|
    ensures Write(cap, s, i, n, due).To? ==> 0 < n <= |due| - |s.procs[i].sent|
    ensures 0 < n <= |due| - |s.procs[i].sent| ==>
              var p := s.procs[i];
              var chunk := due[|p.sent|..|p.sent| + n];
              var wrote := Put(s, i, p.(sent := p.sent + chunk));
              Write(cap, s, i, n, due) ==
              if i + 1 == |j.segs| then To(wrote.(output := s.output + chunk))
              else if |s.pipes[i]| + n > cap then Blocked
              else To(wrote.(pipes := s.pipes[i := s.pipes[i] + chunk]))
  {
    hide ProcOk, Feed, FlowOk;
    RunningWires(j, i, |s.procs|, s.procs[i]);
    if i + 1 < |s.procs| {
      NextCanRead(j, s, i);
    }
    hide ProcsOk, Inv;
  }

  lemma SentIsDue(j: Job, i: nat, m: nat, p: Proc)
    requires i < |j.segs| && ProcOk(j, i, m, p)
    ensures p.sent <= Feed(j, i + 1) && p.got <= Feed(j, i)
  {
    hide TableOk, ArgvOk, PlaceOk, Feed;
  }

  /** A process that still runs has a live reader behind its pipe: no SIGPIPE. */
  lemma NextCanRead(j: Job, s: Sys, i: nat)
    requires j.Ok() && Inv(j, s) && i + 1 < |s.procs| && !s.procs[i].stage.Exited?
    ensures i < |s.pipes| && !s.procs[i + 1].stage.Exited? && SomeoneHolds(s, ReadEnd(i))
  {
    hide ProcOk, FlowOk, Feed;
    ReaderHolds(j, i + 1, |s.procs|, s.procs[i + 1]);
    assert Holds(s.procs[i + 1].fds, ReadEnd(i));
  }

  lemma ReadStep(j: Job, s: Sys, i: nat, n: nat)
    requires j.Ok() && Inv(j, s) && i < |s.procs| && s.procs[i].stage == Running(false)
    ensures Read(s, i, n).To? ==> Inv(j, Read(s, i, n).next)
  {
    hide ProcOk, FlowOk;
    RunningWires(j, i, |s.procs|, s.procs[i]);
    assert |s.pipes| >= i;
    hide ProcsOk, Inv;
    if i == 0 {
      ReadInputStep(j, s, n);
    } else {
      ReadPipeStep(j, s, i, n);
    }
  }

  lemma ReadInputStep(j: Job, s: Sys, n: nat)
    requires j.Ok() && Inv(j, s) && 0 < |s.procs| && s.procs[0].stage == Running(false)
    requires 0 in s.procs[0].fds && s.procs[0].fds[0] == j.std.input
    ensures Read(s, 0, n).To? ==> Inv(j, Read(s, 0, n).next)
  {
    hide ProcsOk;
    if s.input == [] {
      assert s.procs[0].got == j.input;
      hide FlowOk;
      Eof(j, s, 0);
    } else if n <= |s.input| {
      hide FlowOk;
      TakeFromInput(j, s, n);
    }
  }

  lemma ReadPipeStep(j: Job, s: Sys, i: nat, n: nat)
    requires j.Ok() && Inv(j, s) && 0 < i < |s.procs| && s.procs[i].stage == Running(false)
    requires 0 in s.procs[i].fds && s.procs[i].fds[0] == ReadEnd(i - 1) && i <= |s.pipes|
    ensures Read(s, i, n).To? ==> Inv(j, Read(s, i, n).next)
  {
    hide ProcsOk, FlowOk, Inv, Feed;
    if s.pipes[i - 1] == [] {
      if !SomeoneHolds(s, WriteEnd(i - 1)) {
        EofMeansExited(j, s, i);
        DrainedPipe(j, s, i);
        Eof(j, s, i);
      }
    } else if n <= |s.pipes[i - 1]| {
      TakeFromPipe(j, s, i, n);
    }
  }

  lemma DrainedPipe(j: Job, s: Sys, i: nat)
    requires Inv(j, s) && 0 < i < |s.procs| && i <= |s.pipes| && s.pipes[i - 1] == []
    ensures s.procs[i].got == s.procs[i - 1].sent
  {
    hide ProcsOk;
  }

  lemma Eof(j: Job, s: Sys, i: nat)
    requires j.Ok() && Inv(j, s) && i < |s.procs| && s.procs[i].stage == Running(false)
    requires s.procs[i].got == Feed(j, i) && (i > 0 ==> s.procs[i - 1].stage.Exited?)
    ensures Inv(j, Put(s, i, s.procs[i].(stage := Running(true))))
  {
    var p := s.procs[i];
    assert ProcOk(j, i, |s.procs|, p) by { hide ProcOk; }
    assert ProcOk(j, i, |s.procs|, p.(stage := Running(true))) by { hide Feed; }
    hide ProcOk, FlowOk;
    LocalStep(j, s, i, p.(stage := Running(true)));
  }

  lemma ExitStep(j: Job, s: Sys, i: nat)
    requires j.Ok() && Inv(j, s) && i < |s.procs| && s.procs[i].stage == Running(true)
    requires |s.procs[i].sent| >= |Due(j.prog, s.procs[i])|
    ensures Inv(j, Leave(s, i, Exited))
  {
    var p := s.procs[i];
    assert ProcOk(j, i, |s.procs|, p) by { hide ProcOk; }
    DueIsSafe(j, i, |s.procs|, p);
    assert ProcOk(j, i, |s.procs|, p.(stage := Exited, fds := map[])) by { hide Feed; }
    hide ProcOk, FlowOk;
    LocalStep(j, s, i, p.(stage := Exited, fds := map[]));
  }

  lemma StepKeepsInv(j: Job, cap: nat, s: Sys, i: nat, n: nat)
    requires j.Ok() && Inv(j, s) && i < |s.procs|
    ensures Step(j.prog, cap, s, i, n).To? ==> Inv(j, Step(j.prog, cap, s, i, n).next)
  {
    if s.procs[i].stage.Running? {
      var p := s.procs[i];
      assert ProcOk(j, i, |s.procs|, p) by { hide ProcOk; }
      DueIsSafe(j, i, |s.procs|, p);
      var due := Due(j.prog, p);
      hide ProcOk, Inv, Due, Write, Read, Feed;
      if |p.sent| < |due| {
        WriteStep(j, cap, s, i, n, due);
      } else if !p.stage.eof {
        ReadStep(j, s, i, n);
      } else {
        ExitStep(j, s, i);
      }
    } else {
      BuildStep(j, cap, s, i, n) by { hide Inv; }
    }
  }

  // ---- No process ever waits forever -------------------------------------------------------

  ghost predicate AllDone(j: Job, s: Sys) {
    |s.procs| == |j.segs| && forall k | 0 <= k < |s.procs| :: s.procs[k].stage.Exited?
  }

  predicate Building(p: Proc) {
    !p.stage.Running? && !p.stage.Exited?
  }

  ghost predicate CanMove(j: Job, cap: nat, s: Sys) {
    exists i: nat, n: nat :: i < |s.procs| && Step(j.prog, cap, s, i, n).To?
  }

  lemma BuildingMoves(j: Job, cap: nat, s: Sys, i: nat)
    requires j.Ok() && Inv(j, s) && i < |s.procs| && Building(s.procs[i])
    ensures CanMove(j, cap, s)
  {
    hide Feed, FlowOk, DataOk;
    assert ProcOk(j, i, |s.procs|, s.procs[i]) by { hide ProcOk; }
    assert Step(j.prog, cap, s, i, 0).To?;
  }

  lemma ExitedReleases(j: Job, s: Sys, i: nat)
    requires j.Ok() && Inv(j, s) && 0 < i < |s.procs| && s.procs[i - 1].stage.Exited?
    requires forall k | 0 <= k < |s.procs| :: !Building(s.procs[k])
    ensures !SomeoneHolds(s, WriteEnd(i - 1))
  {
    hide ProcOk, FlowOk, Feed;
    forall k | 0 <= k < |s.procs| ensures !Holds(s.procs[k].fds, WriteEnd(i - 1)) {
      WriteEndHolder(j, k, |s.procs|, s.procs[k], i - 1);
      assert !Building(s.procs[k]);
    }
  }

  /** A running process that is not waiting for input can move, or one further right can. */
  lemma RunningMoves(j: Job, cap: nat, s: Sys, i: nat)
    requires j.Ok() && Inv(j, s) && cap > 0 && i < |s.procs| == |j.segs| && s.procs[i].stage.Running?
    requires forall k | 0 <= k < |s.procs| :: !Building(s.procs[k])
    requires i == 0 || s.procs[i - 1].stage.Exited? || (i <= |s.pipes| && s.pipes[i - 1] != [])
    ensures CanMove(j, cap, s)
    decreases |s.procs| - i
  {
    hide ProcOk, FlowOk, Feed;
    var p := s.procs[i];
    var due := Due(j.prog, p);
    if |p.sent| < |due| {
      WriteMoves(j, cap, s, i, 1, due);
      if i + 1 < |j.segs| && |s.pipes[i]| + 1 > cap {
        assert !s.procs[i + 1].stage.Exited? && !Building(s.procs[i + 1]);
        RunningMoves(j, cap, s, i + 1);
      } else {
        assert Step(j.prog, cap, s, i, 1).To?;
      }
    } else if p.stage.eof {
      assert Step(j.prog, cap, s, i, 1).To?;
    } else {
      RunningWires(j, i, |s.procs|, p);
      assert |s.pipes| >= i;
      if i > 0 && s.pipes[i - 1] == [] {
        ExitedReleases(j, s, i);
      }
      assert Step(j.prog, cap, s, i, 1) == Read(s, i, 1);
      assert Step(j.prog, cap, s, i, 1).To?;
    }
  }

  lemma Progress(j: Job, cap: nat, s: Sys)
    requires j.Ok() && Inv(j, s) && cap > 0 && !AllDone(j, s)
    ensures CanMove(j, cap, s)
  {
    hide FlowOk, Feed, CanMove;
    if k :| 0 <= k < |s.procs| && Building(s.procs[k]) {
      hide ProcOk, ProcsOk;
      BuildingMoves(j, cap, s, k);
    } else {
      LastMeansAll(j, s);
      hide ProcOk;
      var i := FirstAlive(s);
      RunningMoves(j, cap, s, i);
    }
  }

  lemma LastMeansAll(j: Job, s: Sys)
    requires Inv(j, s) && forall k | 0 <= k < |s.procs| :: !Building(s.procs[k])
    ensures |s.procs| == |j.segs|
  {
    hide FlowOk, Feed, TableOk, DataOk, ArgvOk;
    assert ProcOk(j, |s.procs| - 1, |s.procs|, s.procs[|s.procs| - 1]);
  }

  lemma FirstAlive(s: Sys) returns (i: nat)
    requires exists k :: 0 <= k < |s.procs| && !s.procs[k].stage.Exited?
    ensures i < |s.procs| && !s.procs[i].stage.Exited?
    ensures forall k | 0 <= k < i :: s.procs[k].stage.Exited?
  {
    i := 0;
    while s.procs[i].stage.Exited?
      invariant i < |s.procs|
      invariant forall k | 0 <= k < i :: s.procs[k].stage.Exited?
      decreases |s.procs| - i
    {
      i := i + 1;
    }
  }

  // ---- Every run is finite --------------------------------------------------------------

  function Rank(stage: Stage): nat {
    match stage
    case ChildClosesWrite(_, _) => 10
    case ChildDups(_) => 9
    case Begin => 8
    case Forking(_, _) => 7
    case ParentClosesRead(_, _) => 6
    case ParentDups(_) => 5
    case ParentClosesWrite(_) => 4
    case ParentExecs => 3
    case Running(eof) => if eof then 1 else 2
    case _ => 0
  }

  /** What process `k` has still to do: calls to make, bytes to read and bytes to write. */
  ghost function Left(j: Job, s: Sys, k: nat): int
    requires k < |j.segs|
  {
    if k < |s.procs| then
      Rank(s.procs[k].stage) + (|Feed(j, k)| - |s.procs[k].got|) + (|Feed(j, k + 1)| - |s.procs[k].sent|)
    else 11 + |Feed(j, k)| + |Feed(j, k + 1)|
  }

  ghost function LeftUpTo(j: Job, s: Sys, k: nat): int
    requires k <= |j.segs|
  {
    if k == 0 then 0 else LeftUpTo(j, s, k - 1) + Left(j, s, k - 1)
  }

  ghost function Measure(j: Job, s: Sys): int {
    LeftUpTo(j, s, |j.segs|)
  }

  lemma {:induction false} LeftDrops(j: Job, s: Sys, s': Sys, i: nat, k: nat)
    requires k <= |j.segs| && i < |j.segs|
    requires forall l | 0 <= l < |j.segs| :: Left(j, s', l) <= Left(j, s, l)
    requires Left(j, s', i) < Left(j, s, i)
    ensures LeftUpTo(j, s', k) <= LeftUpTo(j, s, k)
    ensures i < k ==> LeftUpTo(j, s', k) < LeftUpTo(j, s, k)
  {
    hide Left;
    if k > 0 {
      LeftDrops(j, s, s', i, k - 1);
    }
  }

  lemma {:induction false} LeftIsNat(j: Job, s: Sys, k: nat)
    requires Inv(j, s) && k <= |j.segs|
    ensures LeftUpTo(j, s, k) >= 0
  {
    hide FlowOk, Feed, ProcOk;
    if k > 0 {
      LeftIsNat(j, s, k - 1);
      if k - 1 < |s.procs| {
        SentIsDue(j, k - 1, |s.procs|, s.procs[k - 1]);
      }
    }
  }

  /** Process `i` has less to do in `s'`, the others are as before, at most one is new. */
  ghost predicate OneLess(s: Sys, s': Sys, i: nat)
    requires i < |s.procs|
  {
    && |s.procs| <= |s'.procs| <= |s.procs| + 1
    && (forall k | 0 <= k < |s.procs| && k != i :: s'.procs[k] == s.procs[k])
    && (var p, p' := s.procs[i], s'.procs[i];
        |p.got| + |p.sent| + Rank(p'.stage) < |p'.got| + |p'.sent| + Rank(p.stage))
    && (|s'.procs| > |s.procs| ==> s'.procs[|s.procs|].stage.ChildClosesWrite?)
  }

  lemma OneLessGrows(s: Sys, s': Sys, i: nat)
    requires i < |s.procs| && OneLess(s, s', i)
    ensures |s.procs| <= |s'.procs|
  {
  }

  lemma OneLessIsLess(j: Job, s: Sys, s': Sys, i: nat)
    requires i < |s.procs| <= |s'.procs| <= |j.segs| && OneLess(s, s', i)
    ensures Left(j, s', i) < Left(j, s, i)
    ensures forall k | 0 <= k < |j.segs| :: Left(j, s', k) <= Left(j, s, k)
  {
    hide Feed;
  }

  lemma WriteUses(cap: nat, s: Sys, i: nat, n: nat, due: Bytes)
    requires i < |s.procs| && s.procs[i].stage.Running? && |s.procs[i].sent| < |due|
    requires Write(cap, s, i, n, due).To?
    ensures OneLess(s, Write(cap, s, i, n, due).next, i)
  {
    hide SomeoneHolds;
  }

  lemma ReadUses(s: Sys, i: nat, n: nat)
    requires i < |s.procs| && s.procs[i].stage == Running(false)
    requires Read(s, i, n).To?
    ensures OneLess(s, Read(s, i, n).next, i)
  {
    hide SomeoneHolds;
  }

  /** Each call uses up some of the work of the process that makes it. */
  lemma StepUses(prog: Programs, cap: nat, s: Sys, i: nat, n: nat)
    requires i < |s.procs| && Step(prog, cap, s, i, n).To?
    ensures OneLess(s, Step(prog, cap, s, i, n).next, i)
  {
    hide SomeoneHolds, PipeIndex, Lowest, Due, Write, Read;
    var p := s.procs[i];
    if p.stage.Running? {
      var due := Due(prog, p);
      hide OneLess;
      if |p.sent| < |due| {
        WriteUses(cap, s, i, n, due);
      } else if !p.stage.eof {
        ReadUses(s, i, n);
      } else {
        LeavingUses(s, i);
      }
    }
  }

  lemma LeavingUses(s: Sys, i: nat)
    requires i < |s.procs| && s.procs[i].stage == Running(true)
    ensures OneLess(s, Leave(s, i, Exited), i)
  {
  }

  lemma StepDecreases(j: Job, cap: nat, s: Sys, i: nat, n: nat)
    requires j.Ok() && Inv(j, s) && i < |s.procs| && Step(j.prog, cap, s, i, n).To?
    ensures 0 <= Measure(j, Step(j.prog, cap, s, i, n).next) < Measure(j, s)
  {
    var s' := Step(j.prog, cap, s, i, n).next;
    hide ProcOk, FlowOk, Feed, Step, Left, LeftUpTo, Job.Ok, OneLess;
    StepKeepsInv(j, cap, s, i, n);
    StepUses(j.prog, cap, s, i, n);
    assert i < |s.procs| <= |s'.procs| <= |j.segs| by { OneLessGrows(s, s', i); }
    OneLessIsLess(j, s, s', i);
    LeftDrops(j, s, s', i, |j.segs|);
    LeftIsNat(j, s', |j.segs|);
  }

  // ---- Main results -----------------------------------------------------------------------

  lemma {:induction false} RunKeepsInv(j: Job, cap: nat, run: seq<Sys>, t: nat)
    requires j.Ok() && IsRun(j.prog, cap, Init(Join(j.segs), j.std, j.input), run) && t < |run|
    ensures Inv(j, run[t])
    ensures 0 <= Measure(j, run[t]) <= Measure(j, run[0]) - t
  {
    hide Inv, Step, Measure, Job.Ok, Init;
    if t == 0 {
      InitKeepsInv(j);
      LeftIsNat(j, run[0], |j.segs|) by { hide LeftUpTo; }
      assert Measure(j, run[0]) == LeftUpTo(j, run[0], |j.segs|) by { MeasureIs(j, run[0]); }
    } else {
      RunKeepsInv(j, cap, run, t - 1);
      assert Next(j.prog, cap, run[t - 1], run[t - 1 + 1]);
      var i: nat, n: nat :| i < |run[t - 1].procs| && Step(j.prog, cap, run[t - 1], i, n) == To(run[t]);
      StepKeepsInv(j, cap, run[t - 1], i, n);
      StepDecreases(j, cap, run[t - 1], i, n);
    }
  }

  lemma MeasureIs(j: Job, s: Sys)
    ensures Measure(j, s) == LeftUpTo(j, s, |j.segs|)
  {
  }

  /** Whatever the schedule, a run has a bounded number of steps. */
  lemma RunsAreFinite(j: Job, cap: nat, run: seq<Sys>)
    requires j.Ok() && IsRun(j.prog, cap, Init(Join(j.segs), j.std, j.input), run)
    ensures |run| <= Measure(j, run[0]) + 1
  {
    hide Inv, Measure, IsRun, Job.Ok;
    RunKeepsInv(j, cap, run, |run| - 1) by { RunIsNonEmpty(j, cap, run); }
  }

  lemma RunIsNonEmpty(j: Job, cap: nat, run: seq<Sys>)
    requires IsRun(j.prog, cap, Init(Join(j.segs), j.std, j.input), run)
    ensures |run| > 0
  {
  }

  /**
   Every schedule of a pipeline computes the composition of its commands: what is on the
   output is always a prefix of it, and a run that cannot go on has exited every process
   and written all of it.
   */
  lemma EveryScheduleComposes(j: Job, cap: nat, run: seq<Sys>)
    requires j.Ok() && cap > 0
    requires IsRun(j.prog, cap, Init(Join(j.segs), j.std, j.input), run)
    ensures var last := run[|run| - 1];
            && last.output <= Feed(j, |j.segs|)
            && (!CanMove(j, cap, last) ==>
                  && last.output == Feed(j, |j.segs|)
                  && |last.procs| == |j.segs|
                  && forall k | 0 <= k < |j.segs| :: last.procs[k].stage.Exited? && last.procs[k].argv == j.segs[k])
  {
    var last := run[|run| - 1];
    hide IsRun, Feed, CanMove, ProcOk;
    RunIsNonEmpty(j, cap, run);
    RunKeepsInv(j, cap, run, |run| - 1);
    var n := |j.segs|;
    if |last.procs| == n {
      SentIsDue(j, n - 1, n, last.procs[n - 1]);
    }
    if !CanMove(j, cap, last) {
      if !AllDone(j, last) {
        Progress(j, cap, last);
      }
      forall k | 0 <= k < n ensures last.procs[k].argv == j.segs[k] && last.procs[k].sent == Feed(j, k + 1) {
        ExitedOk(j, k, n, last.procs[k]);
      }
    }
  }

  lemma ExitedOk(j: Job, k: nat, m: nat, p: Proc)
    requires k < |j.segs| && ProcOk(j, k, m, p) && p.stage.Exited?
    ensures p.argv == j.segs[k] && p.sent == Feed(j, k + 1)
  {
    hide Feed;
  }

  /**
   In every state of every run each process that runs its command executes its own segment,
   reads the pipe before it and writes the pipe after it (the inherited ends at both
   extremes), with `k` left over read ends above; and no process is killed or fails.
   */
  lemma EveryStateIsWired(j: Job, cap: nat, run: seq<Sys>, t: nat, k: nat)
    requires j.Ok() && IsRun(j.prog, cap, Init(Join(j.segs), j.std, j.input), run)
    requires t < |run| && k < |run[t].procs|
    ensures |run[t].procs| <= |j.segs|
    ensures var p := run[t].procs[k];
            && !p.stage.Killed? && !p.stage.Failed?
            && (p.stage.Running? ==>
                  && p.argv == j.segs[k]
                  && (forall fd: nat :: fd in p.fds <==> fd < k + 3)
                  && p.fds[0] == (if k == 0 then j.std.input else ReadEnd(k - 1))
                  && p.fds[1] == (if k + 1 == |j.segs| then j.std.output else WriteEnd(k))
                  && p.fds[2] == j.std.error
                  && forall fd: nat | 3 <= fd < k + 3 :: p.fds[fd] == ReadEnd(fd - 3))
  {
    hide IsRun, Feed, FlowOk;
    RunKeepsInv(j, cap, run, t) by { hide Inv; }
    assert ProcOk(j, k, |run[t].procs|, run[t].procs[k]) by { hide ProcOk; }
  }

  /**
   In every state of every run a write end of pipe `q` is held only by process `q`, except
   that the child it forks holds it until its first call; a running command holds no other.
   */
  lemma WriteEndsAreExclusive(j: Job, cap: nat, run: seq<Sys>, t: nat, k: nat, q: nat)
    requires j.Ok() && IsRun(j.prog, cap, Init(Join(j.segs), j.std, j.input), run)
    requires t < |run| && k < |run[t].procs| && Holds(run[t].procs[k].fds, WriteEnd(q))
    ensures k == q || (k == q + 1 && run[t].procs[k].stage.ChildClosesWrite?)
  {
    hide IsRun, Feed, FlowOk, ProcOk;
    RunKeepsInv(j, cap, run, t) by { hide Inv; }
    WriteEndHolder(j, k, |run[t].procs|, run[t].procs[k], q);
  }
}
