/** pipe_present and pipe_and_exec: one process at a time, in program order. */
module PipeCommand {
  import opened Descriptors
  import opened Lists
  import opened ShellSyntax
  import opened Vectors
  import M = PipelineMachine

  class Process {
    var fds: Table

    constructor (fds: Table)
      ensures this.fds == fds
    {
      this.fds := fds;
    }

    method Pipe(kernel: Kernel) returns (r: nat, w: nat)
      modifies this, kernel
      ensures r == Lowest(old(fds)) && w == Lowest(old(fds)[r := ReadEnd(old(kernel.pipes))])
      ensures fds == old(fds)[r := ReadEnd(old(kernel.pipes))][w := WriteEnd(old(kernel.pipes))]
      ensures kernel.pipes == old(kernel.pipes) + 1
    {
      r := Lowest(fds);
      fds := fds[r := ReadEnd(kernel.pipes)];
      w := Lowest(fds);
      fds := fds[w := WriteEnd(kernel.pipes)];
      kernel.pipes := kernel.pipes + 1;
    }

    method Dup(from: nat, to: nat) returns (ok: bool)
      modifies this
      ensures ok == (from in old(fds))
      ensures fds == if ok then Dup2(old(fds), from, to) else old(fds)
    {
      ok := from in fds;
      if ok {
        fds := Dup2(fds, from, to);
      }
    }

    method CloseFd(fd: nat)
      modifies this
      ensures fds == Close(old(fds), fd)
    {
      fds := Close(fds, fd);
    }
  }

  /** The kernel's count of pipes made so far; it names each pipe. */
  class Kernel {
    var pipes: nat

    constructor ()
      ensures pipes == 0
    {
      pipes := 0;
    }
  }

  /** How a process leaves pipe_and_exec: by executing a vector, or for want of a command. */
  datatype Launch = Exec(argv: Argv, fds: Table) | Missing(argv: Argv, fds: Table)

  method PipePresent(argv: array<Cell>, start: nat) returns (r: int)
    requires Terminated(argv[..], start)
    ensures r == PipeIndex(Words(argv[..], start))
  {
    ghost var w := Words(argv[..], start);
    CellAt(argv[..], start, 0);
    var index := 0;
    if argv[start] == None {
      return -1;
    }
    while argv[start + index] != None
      invariant 0 <= index <= |w|
      invariant start + index < argv.Length
      invariant argv[start + index] == if index < |w| then Some(w[index]) else None
      invariant PipeFrom(w, 0) == PipeFrom(w, index)
      decreases |w| - index
    {
      CellAt(argv[..], start, index + 1);
      if argv[start + index].value == PIPE {
        if index == 0 {
          return -1;
        } else if argv[start + index + 1] == None {
          return 0;
        } else {
          return index;
        }
      }
      index := index + 1;
    }
    return 0;
  }

  /** The table after pipe(), and the two descriptors it returned. */
  function Piped(fds: Table, pipes: nat): (t: (Table, nat, nat)) {
    var r := Lowest(fds);
    var half := fds[r := ReadEnd(pipes)];
    var w := Lowest(half);
    (half[w := WriteEnd(pipes)], r, w)
  }

  /** The table of the left side when it executes its command. */
  function LeftTable(fds: Table, pipes: nat): Table {
    var (full, r, w) := Piped(fds, pipes);
    Close(Dup2(Close(full, r), w, 1), w)
  }

  /** The table of the right side when it goes on with the rest of the vector. */
  function RightTable(fds: Table, pipes: nat): Table {
    var (full, r, w) := Piped(fds, pipes);
    Dup2(Close(full, w), r, 0)
  }

  /** What the processes made from one vector execute, and with which tables, left to right. */
  function Wiring(argv: Argv, fds: Table, pipes: nat): seq<Launch>
    decreases |argv|
  {
    var at := PipeIndex(argv);
    if at == -1 then [Missing(argv, fds)]
    else if at == 0 then [Exec(argv, fds)]
    else
      [Exec(argv[..at], LeftTable(fds, pipes))] + Wiring(argv[at + 1..], RightTable(fds, pipes), pipes + 1)
  }

  /** The copy of the words before the pipe symbol. */
  method LeftVector(argv: array<Cell>, start: nat, at: nat) returns (left: array<Cell>)
    requires Terminated(argv[..], start) && at <= |Words(argv[..], start)|
    ensures fresh(left) && Words(left[..], 0) == Words(argv[..], start)[..at]
  {
    WordsStop(argv[..], start);
    left := new Cell[at + 1];
    for i := 0 to at
      invariant forall k | 0 <= k < i :: left[k] == argv[start + k]
    {
      left[i] := argv[start + i];
    }
    left[at] := None;
    ghost var w := Words(argv[..], start);
    forall i | 0 <= i < at ensures left[..][0 + i] == Some(w[..at][i]) {
      assert argv[..][start + i] == Some(w[i]);
    }
    WordsAre(left[..], 0, w[..at]);
  }

  /** The running "parent": its output goes into the pipe, it keeps neither end and all else. */
  method LeftSide(process: Process, r: nat, w: nat)
    requires w in process.fds && r != w
    modifies process
    ensures forall fd :: fd in process.fds <==> fd != w && (fd == 1 || (fd != r && fd in old(process.fds)))
    ensures forall fd | fd in process.fds :: process.fds[fd] == old(process.fds)[if fd == 1 then w else fd]
  {
    process.CloseFd(r);
    var dupped := process.Dup(w, 1);
    process.CloseFd(w);
  }

  /** The listening child: its input comes from the pipe, it keeps the read end too and all else. */
  method RightSide(process: Process, r: nat, w: nat)
    requires r in process.fds && r != w
    modifies process
    ensures forall fd :: fd in process.fds <==> fd == 0 || (fd != w && fd in old(process.fds))
    ensures forall fd | fd in process.fds :: process.fds[fd] == old(process.fds)[if fd == 0 then r else fd]
  {
    process.CloseFd(w);
    var dupped := process.Dup(r, 0);
  }

  lemma WiringUnfolds(argv: Argv, fds: Table, pipes: nat)
    ensures var at := PipeIndex(argv);
            Wiring(argv, fds, pipes) ==
            if at == -1 then [Missing(argv, fds)]
            else if at == 0 then [Exec(argv, fds)]
            else [Exec(argv[..at], LeftTable(fds, pipes))] + Wiring(argv[at + 1..], RightTable(fds, pipes), pipes + 1)
  {
  }

  method PipeAndExec(kernel: Kernel, process: Process, argv: array<Cell>, start: nat)
    returns (launched: seq<Launch>)
    requires Terminated(argv[..], start)
    modifies kernel, process
    ensures launched == Wiring(Words(argv[..], start), old(process.fds), old(kernel.pipes))
    ensures kernel.pipes == old(kernel.pipes) + |launched| - 1
    decreases argv.Length - start
  {
    hide Wiring, PipeIndex, Lowest, Words;
    ghost var cells, fds, pipes := argv[..], process.fds, kernel.pipes;
    var words := Words(argv[..], start);
    WordsStop(cells, start);
    WiringUnfolds(words, fds, pipes);
    var at := PipePresent(argv, start);
    if at == -1 {
      return [Missing(words, process.fds)];
    } else if at == 0 {
      return [Exec(words, process.fds)];
    }
    WordsFrom(cells, start, at + 1);
    var left := LeftVector(argv, start, at);
    var child := SplitHere(kernel, process);
    assert argv[..] == cells;
    hide LeftTable, RightTable;
    var rest := PipeAndExec(kernel, child, argv, start + at + 1);
    launched := [Exec(Words(left[..], 0), process.fds)] + rest;
  }

  /** pipe(), fork() and the calls of both sides up to the command and the recursion. */
  method SplitHere(kernel: Kernel, process: Process) returns (child: Process)
    modifies kernel, process
    ensures fresh(child) && kernel.pipes == old(kernel.pipes) + 1
    ensures process.fds == LeftTable(old(process.fds), old(kernel.pipes))
    ensures child.fds == RightTable(old(process.fds), old(kernel.pipes))
  {
    ghost var before, pipes := process.fds, kernel.pipes;
    var r, w := process.Pipe(kernel);
    ghost var full := process.fds;
    assert (full, r, w) == Piped(before, pipes);
    child := new Process(process.fds);
    hide Piped, LeftTable, RightTable, Lowest;
    LeftSide(process, r, w);
    RightSide(child, r, w);
    LeftIs(before, pipes, process.fds);
    RightIs(before, pipes, child.fds);
  }

  lemma LeftIs(fds: Table, pipes: nat, t: Table)
    requires var (full, r, w) := Piped(fds, pipes);
             && (forall fd :: fd in t <==> fd != w && (fd == 1 || (fd != r && fd in full)))
             && w in full && forall fd | fd in t :: t[fd] == full[if fd == 1 then w else fd]
    ensures t == LeftTable(fds, pipes)
  {
  }

  lemma RightIs(fds: Table, pipes: nat, t: Table)
    requires var (full, r, w) := Piped(fds, pipes);
             && (forall fd :: fd in t <==> fd == 0 || (fd != w && fd in full))
             && r in full && forall fd | fd in t :: t[fd] == full[if fd == 0 then r else fd]
    ensures t == RightTable(fds, pipes)
  {
  }

  // ---- What the wiring means ---------------------------------------------------------------

  /** The vectors of the launched processes, joined by pipe symbols. */
  function Rejoin(launched: seq<Launch>): Argv {
    if launched == [] then []
    else if |launched| == 1 then launched[0].argv
    else launched[0].argv + [PIPE] + Rejoin(launched[1..])
  }

  /** For every vector the launched processes account for all of its words, in order. */
  lemma {:induction false} NoWordIsLost(argv: Argv, fds: Table, pipes: nat)
    ensures Wiring(argv, fds, pipes) != []
    ensures Rejoin(Wiring(argv, fds, pipes)) == argv
    decreases |argv|
  {
    var at := PipeIndex(argv);
    if at > 0 {
      hide LeftTable, RightTable, PipeIndex, Rejoin;
      NoWordIsLost(argv[at + 1..], RightTable(fds, pipes), pipes + 1);
      RejoinSplit(argv, fds, pipes);
    }
  }

  lemma RejoinSplit(argv: Argv, fds: Table, pipes: nat)
    requires var at := PipeIndex(argv);
      && at > 0
      && var rest := Wiring(argv[at + 1..], RightTable(fds, pipes), pipes + 1);
         rest != [] && Rejoin(rest) == argv[at + 1..]
    ensures Wiring(argv, fds, pipes) != [] && Rejoin(Wiring(argv, fds, pipes)) == argv
  {
    var at := PipeIndex(argv);
    WiringUnfolds(argv, fds, pipes);
    hide LeftTable, RightTable, PipeIndex, Rejoin, Wiring;
    RejoinCons(Exec(argv[..at], LeftTable(fds, pipes)), Wiring(argv[at + 1..], RightTable(fds, pipes), pipes + 1));
    assert argv == argv[..at] + [PIPE] + argv[at + 1..];
  }

  lemma RejoinCons(first: Launch, rest: seq<Launch>)
    requires rest != []
    ensures Rejoin([first] + rest) == first.argv + [PIPE] + Rejoin(rest)
  {
    assert ([first] + rest)[1..] == rest;
  }

  /** No command next to a pipe symbol, at the start of the line or after another pipe symbol. */
  ghost predicate LacksCommand(argv: Argv) {
    argv == [] || argv[0] == PIPE || exists i :: 0 <= i < |argv| - 1 && argv[i] == PIPE && argv[i + 1] == PIPE
  }

  /**
   Only the last process can find a command missing, and it does exactly for a vector that
   is empty, starts with a pipe symbol or has two in a row.  A pipe symbol at the very end
   is not reported: it is passed to the last command as an argument.
   */
  lemma {:induction false} MissingExactlyWhen(argv: Argv, fds: Table, pipes: nat)
    ensures var l := Wiring(argv, fds, pipes);
            && l != []
            && (forall k | 0 <= k < |l| - 1 :: l[k].Exec?)
            && (l[|l| - 1].Missing? <==> LacksCommand(argv))
    decreases |argv|
  {
    var at := PipeIndex(argv);
    if at > 0 {
      hide LeftTable, RightTable, LacksCommand;
      var rest := argv[at + 1..];
      MissingExactlyWhen(rest, RightTable(fds, pipes), pipes + 1);
      assert Wiring(argv, fds, pipes)[1..] == Wiring(rest, RightTable(fds, pipes), pipes + 1);
      LackIsInTheRest(argv);
    }
  }

  lemma LackIsInTheRest(argv: Argv)
    requires PipeIndex(argv) > 0
    ensures LacksCommand(argv) <==> LacksCommand(argv[PipeIndex(argv) + 1..])
  {
    var at := PipeIndex(argv);
    var rest := argv[at + 1..];
    assert forall i | 0 <= i < at :: argv[..at][i] != PIPE;
    forall i | 0 <= i < |rest| ensures rest[i] == argv[at + 1 + i] {
    }
    if i :| 0 <= i < |rest| - 1 && rest[i] == PIPE && rest[i + 1] == PIPE {
      assert argv[at + 1 + i] == PIPE && argv[at + 1 + i + 1] == PIPE;
    }
    if i :| at <= i < |argv| - 1 && argv[i] == PIPE && argv[i + 1] == PIPE {
      if i == at {
        assert rest[0] == PIPE;
      } else {
        assert rest[i - at - 1] == PIPE && rest[i - at - 1 + 1] == PIPE;
      }
    }
  }

  /** The processes of a pipeline as the running pipeline has them. */
  function Wired(segs: seq<Argv>, std: Std, k: nat): seq<Launch>
    requires k <= |segs|
    decreases |segs| - k
  {
    if k == |segs| then [] else [Exec(segs[k], M.Wired(k, |segs|, std))] + Wired(segs, std, k + 1)
  }

  lemma {:induction false} WiredAt(segs: seq<Argv>, std: Std, k: nat, i: nat)
    requires k <= i < |segs|
    ensures |Wired(segs, std, k)| == |segs| - k
    ensures Wired(segs, std, k)[i - k] == Exec(segs[i], M.Wired(i, |segs|, std))
    decreases |segs| - k
  {
    if k < i {
      WiredAt(segs, std, k + 1, i);
    } else if k + 1 < |segs| {
      WiredAt(segs, std, k + 1, k + 1);
    }
  }

  /**
   On `n` segments exactly `n` processes are made, and process `k` executes exactly segment
   `k` with the table the running pipeline has.
   */
  lemma PipelineIsWired(segs: seq<Argv>, std: Std)
    requires AreSegments(segs)
    ensures var l := Wiring(Join(segs), std.ToTable(), 0);
            && |l| == |segs|
            && forall k | 0 <= k < |segs| :: l[k] == Exec(segs[k], M.Wired(k, |segs|, std))
  {
    assert segs[0..] == segs && std.ToTable() == M.Base(0, std);
    WiredFrom(segs, std, 0);
    WiredAt(segs, std, 0, 0);
    forall k | 0 <= k < |segs| ensures Wired(segs, std, 0)[k] == Exec(segs[k], M.Wired(k, |segs|, std)) {
      WiredAt(segs, std, 0, k);
    }
  }

  lemma {:induction false} WiredFrom(segs: seq<Argv>, std: Std, k: nat)
    requires AreSegments(segs) && k < |segs|
    ensures Wiring(Join(segs[k..]), M.Base(k, std), k) == Wired(segs, std, k)
    decreases |segs| - k
  {
    SegmentHeads(segs, k);
    var argv := Join(segs[k..]);
    var fds := M.Base(k, std);
    if k + 1 < |segs| {
      LowestOfDense(fds, k + 3);
      LowestOfDense(fds[k + 3 := ReadEnd(k)], k + 4);
      var full: Table := fds[k + 3 := ReadEnd(k)][k + 4 := WriteEnd(k)];
      assert Piped(fds, k) == (full, k + 3, k + 4);
      assert LeftTable(fds, k) == M.Wired(k, |segs|, std);
      assert RightTable(fds, k) == M.Base(k + 1, std);
      hide LeftTable, RightTable, Piped;
      WiredFrom(segs, std, k + 1);
    }
  }
}
