/**
 run_command: the background mark, the redirections and the pipeline of one line, each of
 which edits the same argument vector in place before the next looks at it.
 */
module RunCommand {
  import opened Descriptors
  import opened Lists
  import opened ShellSyntax
  import opened Vectors
  import opened PipeCommand
  import M = PipelineMachine

  const AMPERSAND: string := "&"
  const LESS: string := "<"
  const GREATER: string := ">"

  /** Which files open() can open for reading and for writing. */
  datatype Files = Files(readable: string -> bool, writable: string -> bool)

  // ---- The edits on words ------------------------------------------------------------------

  /** The words before the first `symbol`. */
  function Before(w: Argv, symbol: string): Argv {
    w[..IndexOf(w, symbol)]
  }

  /** Whether a redirection is present and its file opens. */
  predicate Redirects(w: Argv, symbol: string, opens: string -> bool) {
    var i := IndexOf(w, symbol);
    i + 1 < |w| && opens(w[i + 1])
  }

  /** The words a redirection leaves. */
  function Stripped(w: Argv, symbol: string, opens: string -> bool): Argv {
    if Redirects(w, symbol, opens) then Before(w, symbol) else w
  }

  /**
   The table with an opened file as descriptor `n` and no other change.  When `n` is the
   number that open() gets, closing the extra descriptor closes `n` itself.
   */
  function FileAs(fds: Table, name: string, symbol: string, n: nat): Table {
    if n == Lowest(fds) then fds else fds[n := File(name, symbol == GREATER)]
  }

  /** The table a redirection of descriptor `n` leaves. */
  function Redirected(fds: Table, w: Argv, symbol: string, n: nat, opens: string -> bool): Table {
    if Redirects(w, symbol, opens) then FileAs(fds, w[IndexOf(w, symbol) + 1], symbol, n) else fds
  }

  /** The vector and the table with which the pipeline of one line is started. */
  function Edited(w: Argv, fds: Table, files: Files): (Argv, Table) {
    var w1 := Before(w, AMPERSAND);
    var w2 := Stripped(w1, LESS, files.readable);
    var t2 := Redirected(fds, w1, LESS, 0, files.readable);
    (Stripped(w2, GREATER, files.writable), Redirected(t2, w2, GREATER, 1, files.writable))
  }

  /** What the processes of one line execute. */
  function LineWiring(w: Argv, fds: Table, files: Files): seq<Launch> {
    Wiring(Edited(w, fds, files).0, Edited(w, fds, files).1, 0)
  }

  // ---- The C functions ------------------------------------------------------------------

  /** The marks among the first `n` cells are replaced by NULL, and nothing else. */
  ghost predicate Cleared(cells: seq<Cell>, cut: seq<Cell>, n: nat) {
    && |cut| == |cells|
    && forall k | 0 <= k < |cells| :: cut[k] == if k < n && cells[k] == Some(AMPERSAND) then None else cells[k]
  }

  lemma ClearNext(cells: seq<Cell>, cut: seq<Cell>, n: nat)
    requires n < |cells| && Cleared(cells, cut, n)
    ensures cut[n] == cells[n]
    ensures Cleared(cells, if cells[n] == Some(AMPERSAND) then cut[n := None] else cut, n + 1)
  {
  }

  lemma ClearedBelow(cells: seq<Cell>, cut: seq<Cell>, n: nat, k: nat)
    requires n <= k < |cells| && Cleared(cells, cut, n)
    ensures cut[k] == cells[k]
  {
  }

  /** Every "&" is replaced by NULL, so that later scans stop at the first of them. */
  method IsBackground(argv: array<Cell>) returns (detect: bool)
    requires Terminated(argv[..], 0)
    modifies argv
    ensures detect <==> AMPERSAND in Words(old(argv[..]), 0)
    ensures Terminated(argv[..], 0) && Words(argv[..], 0) == Before(Words(old(argv[..]), 0), AMPERSAND)
    ensures Cleared(old(argv[..]), argv[..], |Words(old(argv[..]), 0)|)
  {
    ghost var cells := argv[..];
    ghost var w := Words(cells, 0);
    assert Cleared(cells, cells, 0);
    CellAt(cells, 0, 0);
    hide Words, IndexOf, Terminated, Before, Cleared;
    detect := false;
    if argv[0] == None {
      MarksAreCut(cells, cells);
      return;
    }
    var count := 0;
    while argv[count] != None
      invariant 0 <= count <= |w| && count < argv.Length
      invariant argv[count] == if count < |w| then Some(w[count]) else None
      invariant detect <==> AMPERSAND in w[..count]
      invariant Cleared(cells, argv[..], count)
      decreases |w| - count
    {
      CellAt(cells, 0, count);
      CellAt(cells, 0, count + 1);
      ClearNext(cells, argv[..], count);
      if argv[count].value == AMPERSAND {
        detect := true;
        argv[count] := None;
      }
      ClearedBelow(cells, argv[..], count + 1, count + 1);
      SeenNext(w, AMPERSAND, count);
      count := count + 1;
    }
    assert w[..|w|] == w;
    MarksAreCut(cells, argv[..]);
  }

  lemma SeenNext(w: Argv, symbol: string, n: nat)
    requires n < |w|
    ensures symbol in w[..n + 1] <==> symbol in w[..n] || w[n] == symbol
  {
    assert w[..n + 1] == w[..n] + [w[n]];
  }

  lemma MarksAreCut(cells: seq<Cell>, cut: seq<Cell>)
    requires Terminated(cells, 0) && Cleared(cells, cut, |Words(cells, 0)|)
    ensures Terminated(cut, 0) && Words(cut, 0) == Before(Words(cells, 0), AMPERSAND)
  {
    hide Words, IndexOf, Terminated;
    var w := Words(cells, 0);
    var i := IndexOf(w, AMPERSAND);
    CellAt(cells, 0, i);
    forall k | 0 <= k < i ensures cut[k] == cells[k] {
      CellAt(cells, 0, k);
      assert w[..i][k] == w[k];
    }
    CutAt(cells, cut, i);
  }

  /** Opens the file, makes it descriptor `n` and closes the extra descriptor. */
  method UseFile(process: Process, name: string, symbol: string, n: nat)
    modifies process
    ensures process.fds == FileAs(old(process.fds), name, symbol, n)
  {
    var fd := Lowest(process.fds);
    process.fds := process.fds[fd := File(name, symbol == GREATER)];
    var dupped := process.Dup(fd, n);
    process.CloseFd(fd);
  }

  /** The forward scan for a symbol; it ends at the symbol or at the NULL. */
  method ScanFor(argv: array<Cell>, symbol: string) returns (i: nat)
    requires Terminated(argv[..], 0)
    ensures i == IndexOf(Words(argv[..], 0), symbol) && i < argv.Length
    ensures argv[i] == if symbol in Words(argv[..], 0) then Some(symbol) else None
  {
    ghost var cells := argv[..];
    ghost var w := Words(cells, 0);
    CellAt(cells, 0, 0);
    hide Words, IndexOf, Terminated;
    i := 0;
    while argv[i] != None
      invariant 0 <= i <= |w| && i < argv.Length
      invariant argv[i] == if i < |w| then Some(w[i]) else None
      invariant symbol !in w[..i]
      decreases |w| - i
    {
      CellAt(cells, 0, i + 1);
      if argv[i].value == symbol {
        FoundAt(w, symbol, i);
        return;
      }
      SeenNext(w, symbol, i);
      i := i + 1;
    }
    assert w[..|w|] == w;
    NotFound(w, symbol);
  }

  /**
   redirect_in and redirect_out differ in their symbol, descriptor and open mode only.
   Once a redirection is taken its cell holds a NULL, so the scan goes no further.
   */
  method Redirect(argv: array<Cell>, process: Process, symbol: string, n: nat, opens: string -> bool)
    returns (ok: bool)
    requires Terminated(argv[..], 0)
    modifies argv, process
    ensures var w := Words(old(argv[..]), 0);
            && ok == (w != [] && (symbol in w ==> Redirects(w, symbol, opens)))
            && Terminated(argv[..], 0) && Words(argv[..], 0) == Stripped(w, symbol, opens)
            && process.fds == Redirected(old(process.fds), w, symbol, n, opens)
  {
    ghost var cells := argv[..];
    ghost var w := Words(cells, 0);
    CellAt(cells, 0, 0);
    RedirectionCases(w, symbol, opens, process.fds, n);
    hide Words, IndexOf, Terminated, FileAs, Redirects, Stripped, Redirected, Before;
    if argv[0] == None {
      return false;
    }
    var i := ScanFor(argv, symbol);
    if argv[i] == None {
      return true;
    }
    CellAt(cells, 0, i + 1);
    if argv[i + 1] == None || !opens(argv[i + 1].value) {
      return false;
    }
    UseFile(process, argv[i + 1].value, symbol, n);
    argv[i] := None;
    argv[i + 1] := None;
    assert argv[..] == cells[i := None][i + 1 := None];
    CutTwo(cells, i);
    return true;
  }

  lemma CutTwo(cells: seq<Cell>, i: nat)
    requires Terminated(cells, 0) && i < |Words(cells, 0)| && i + 1 < |cells|
    ensures Terminated(cells[i := None][i + 1 := None], 0)
    ensures Words(cells[i := None][i + 1 := None], 0) == Words(cells, 0)[..i]
  {
    hide Words, Terminated;
    CutAt(cells, cells[i := None][i + 1 := None], i);
  }

  lemma NotFound(w: Argv, symbol: string)
    requires symbol !in w
    ensures IndexOf(w, symbol) == |w|
  {
    IndexIs(w, symbol, |w|);
  }

  lemma RedirectionCases(w: Argv, symbol: string, opens: string -> bool, fds: Table, n: nat)
    ensures symbol in w ==> IndexOf(w, symbol) < |w|
    ensures symbol !in w ==> Stripped(w, symbol, opens) == w && Redirected(fds, w, symbol, n, opens) == fds
    ensures var i := IndexOf(w, symbol);
            if i + 1 < |w| && opens(w[i + 1])
            then Redirects(w, symbol, opens) && Stripped(w, symbol, opens) == w[..i]
                 && Redirected(fds, w, symbol, n, opens) == FileAs(fds, w[i + 1], symbol, n)
            else !Redirects(w, symbol, opens) && Stripped(w, symbol, opens) == w
                 && Redirected(fds, w, symbol, n, opens) == fds
  {
    hide FileAs;
    assert w[..|w|] == w;
  }

  lemma FoundAt(w: Argv, symbol: string, i: nat)
    requires i < |w| && w[i] == symbol && symbol !in w[..i]
    ensures IndexOf(w, symbol) == i
  {
    forall k | 0 <= k < i ensures w[k] != symbol {
      assert w[..i][k] == w[k];
    }
    IndexIs(w, symbol, i);
  }

  /** The shell's child for one line, up to the launch of its commands. */
  method RunLine(argv: array<Cell>, process: Process, kernel: Kernel, files: Files)
    returns (background: bool, launched: seq<Launch>)
    requires Terminated(argv[..], 0) && kernel.pipes == 0
    modifies argv, process, kernel
    ensures background <==> AMPERSAND in Words(old(argv[..]), 0)
    ensures launched == LineWiring(Words(old(argv[..]), 0), old(process.fds), files)
  {
    hide Words, IndexOf, Terminated, Lowest, Wiring, Redirected, Stripped, Before;
    background := IsBackground(argv);
    var child := new Process(process.fds);
    var ok := Redirect(argv, child, LESS, 0, files.readable);
    ok := Redirect(argv, child, GREATER, 1, files.writable);
    launched := PipeAndExec(kernel, child, argv, 0);
  }

  // ---- What a line means ---------------------------------------------------------------

  /** The optional parts that follow the pipeline on a line. */
  datatype Tail = Tail(out: Option<string>, inp: Option<string>, background: bool) {
    /** The words of a line: the pipeline, `> out`, `< in` and `&`. */
    function After(w: Argv): Argv {
      w + (if out.Some? then [GREATER, out.value] else [])
      + (if inp.Some? then [LESS, inp.value] else [])
      + (if background then [AMPERSAND] else [])
    }

    /** File names the scans do not take for a symbol. */
    predicate Ok(files: Files) {
      && (out.Some? ==> out.value != AMPERSAND && out.value != LESS && files.writable(out.value))
      && (inp.Some? ==> inp.value != AMPERSAND && files.readable(inp.value))
    }

    function Streams(std: Std): Std {
      Std(if inp.Some? then File(inp.value, false) else std.input,
          if out.Some? then File(out.value, true) else std.output,
          std.error)
    }
  }

  ghost predicate Plain(w: Argv) {
    AMPERSAND !in w && LESS !in w && GREATER !in w
  }

  lemma FirstIs(w: Argv, symbol: string, rest: Argv)
    requires symbol !in w
    ensures IndexOf(w + [symbol] + rest, symbol) == |w|
    ensures IndexOf(w, symbol) == |w|
  {
    var all := w + [symbol] + rest;
    assert all[..|w|] == w;
    FoundAt(all, symbol, |w|);
  }

  lemma AmpersandIsCut(w: Argv, background: bool)
    requires AMPERSAND !in w
    ensures Before(w + (if background then [AMPERSAND] else []), AMPERSAND) == w
  {
    FirstIs(w, AMPERSAND, []);
    assert w + [AMPERSAND] + [] == w + [AMPERSAND];
    assert (w + [AMPERSAND])[..|w|] == w;
  }

  lemma RedirectionIsTaken(w: Argv, symbol: string, name: Option<string>, n: nat, opens: string -> bool, std: Std)
    requires symbol !in w && (name.Some? ==> opens(name.value)) && n < 2
    ensures var line := w + (if name.Some? then [symbol, name.value] else []);
            && Stripped(line, symbol, opens) == w
            && Redirected(std.ToTable(), line, symbol, n, opens)
               == if name.Some? then std.ToTable()[n := File(name.value, symbol == GREATER)] else std.ToTable()
  {
    if name.Some? {
      var line := w + [symbol, name.value];
      FirstIs(w, symbol, [name.value]);
      assert w + [symbol] + [name.value] == line;
      LowestOfDense(std.ToTable(), 3);
      assert line[..|w|] == w;
    } else {
      FirstIs(w, symbol, []);
      assert w + [] == w;
    }
  }

  /**
   A line `A0 | ... | An-1 > out < in &` (each of the last three parts optional) launches
   exactly its segments; the first reads `in`, the last writes `out`, and each has the
   table the running pipeline has when it starts from {0, 1, 2}.
   */
  lemma LineMeansPipeline(segs: seq<Argv>, tail: Tail, std: Std, files: Files)
    requires AreSegments(segs) && Plain(Join(segs)) && tail.Ok(files)
    ensures var launched := LineWiring(tail.After(Join(segs)), std.ToTable(), files);
            && |launched| == |segs|
            && forall k | 0 <= k < |segs| ::
                 launched[k] == Exec(segs[k], M.Wired(k, |segs|, tail.Streams(std)))
  {
    EditsLeave(Join(segs), tail, std, files);
    hide Wiring, Edited;
    PipelineIsWired(segs, tail.Streams(std));
  }

  lemma BackgroundIsSeen(w: Argv, tail: Tail, files: Files)
    requires Plain(w) && tail.Ok(files)
    ensures AMPERSAND in tail.After(w) <==> tail.background
  {
    var line := tail.After(w);
    assert tail.background ==> line[|line| - 1] == AMPERSAND;
  }

  /** What the edits leave of a line: the pipeline, and a table of three descriptors. */
  lemma EditsLeave(w: Argv, tail: Tail, std: Std, files: Files)
    requires Plain(w) && tail.Ok(files)
    ensures Edited(tail.After(w), std.ToTable(), files) == (w, tail.Streams(std).ToTable())
  {
    var withOut := w + (if tail.out.Some? then [GREATER, tail.out.value] else []);
    var withIn := withOut + (if tail.inp.Some? then [LESS, tail.inp.value] else []);
    var mid := Std(if tail.inp.Some? then File(tail.inp.value, false) else std.input, std.output, std.error);
    hide Wiring, Stripped, Redirected, Before;
    assert Before(tail.After(w), AMPERSAND) == withIn by { AmpersandIsCut(withIn, tail.background); }
    RedirectionIsTaken(withOut, LESS, tail.inp, 0, files.readable, std);
    assert mid.ToTable() == if tail.inp.Some? then std.ToTable()[0 := mid.input] else std.ToTable();
    RedirectionIsTaken(w, GREATER, tail.out, 1, files.writable, mid);
    assert tail.Streams(std).ToTable()
        == if tail.out.Some? then mid.ToTable()[1 := tail.Streams(std).output] else mid.ToTable();
  }

  lemma IndexBelow(w: Argv, symbol: string, n: nat)
    requires n <= |w|
    ensures IndexOf(w[..n], symbol) == if IndexOf(w, symbol) < n then IndexOf(w, symbol) else n
  {
    var i := if IndexOf(w, symbol) < n then IndexOf(w, symbol) else n;
    assert forall k | 0 <= k < i :: w[..n][k] == w[k];
    IndexIs(w[..n], symbol, i);
  }

  /** A redirection in the words before `n`, in terms of the whole vector. */
  lemma RedirectsBelow(w: Argv, symbol: string, n: nat, opens: string -> bool)
    requires n <= |w|
    ensures Redirects(w[..n], symbol, opens) <==> IndexOf(w, symbol) + 1 < n && opens(w[IndexOf(w, symbol) + 1])
  {
    hide IndexOf;
    IndexBelow(w, symbol, n);
  }

  /**
   The output redirection of a line takes effect exactly when its symbol and its file name
   stand before the first `&`, the file opens, and both stand before the input redirection
   if that one takes effect: taking `< in` out of the vector also hides the words behind it.
   */
  lemma OutputRedirectionHonouredExactlyWhen(w: Argv, files: Files)
    ensures var amp, lt, gt := IndexOf(w, AMPERSAND), IndexOf(w, LESS), IndexOf(w, GREATER);
            Redirects(Stripped(Before(w, AMPERSAND), LESS, files.readable), GREATER, files.writable)
            <==> && gt + 1 < amp && files.writable(w[gt + 1])
                 && (lt + 1 < amp && files.readable(w[lt + 1]) ==> gt + 1 < lt)
  {
    var amp, lt := IndexOf(w, AMPERSAND), IndexOf(w, LESS);
    var seen := Before(w, AMPERSAND);
    RedirectsBelow(w, LESS, amp, files.readable);
    RedirectsBelow(w, GREATER, amp, files.writable);
    RedirectsBelow(w, GREATER, if lt < amp then lt else amp, files.writable);
    IndexBelow(w, LESS, amp);
    assert seen == w[..amp];
    assert lt < amp ==> seen[..lt] == w[..lt];
  }

  /** Without a file name of its own `>` loses the output too, although it stands first. */
  lemma MissingNameLosesOutput(std: Std)
    ensures LineWiring(["cat", ">", "<", "in"], std.ToTable(), Files(_ => true, _ => true))
            == [Exec(["cat", ">"], std.ToTable()[0 := File("in", false)])]
  {
    var w := ["cat", GREATER, LESS, "in"];
    var files := Files(_ => true, _ => true);
    FirstIs(w, AMPERSAND, []);
    assert w[..4] == w;
    FirstIs(["cat", GREATER], LESS, ["in"]);
    assert ["cat", GREATER] + [LESS] + ["in"] == w;
    assert w[..2] == ["cat", GREATER];
    LowestOfDense(std.ToTable(), 3);
    FirstIs(["cat"], GREATER, []);
    assert ["cat"] + [GREATER] + [] == ["cat", GREATER];
    assert Redirected(std.ToTable(), w, LESS, 0, files.readable) == std.ToTable()[0 := File("in", false)];
    assert PipeIndex(["cat", GREATER]) == 0;
  }

  /** The concrete line on which the output file is never opened. */
  lemma InputFirstLosesOutput(std: Std)
    ensures LineWiring(["cat", "<", "in", ">", "out"], std.ToTable(), Files(_ => true, _ => true))
            == [Exec(["cat"], std.ToTable()[0 := File("in", false)])]
  {
    var w := ["cat", LESS, "in", GREATER, "out"];
    var files := Files(_ => true, _ => true);
    FirstIs(w, AMPERSAND, []);
    assert w[..5] == w;
    FirstIs(["cat"], LESS, ["in", GREATER, "out"]);
    assert ["cat"] + [LESS] + ["in", GREATER, "out"] == w;
    assert Stripped(w, LESS, files.readable) == ["cat"];
    LowestOfDense(std.ToTable(), 3);
    FirstIs(["cat"], GREATER, []);
    assert Redirected(std.ToTable(), w, LESS, 0, files.readable) == std.ToTable()[0 := File("in", false)];
  }

  /** One line in full, symbol by symbol and descriptor by descriptor. */
  lemma WholeLineInFull(std: Std)
    ensures LineWiring(["sort", "|", "uniq", ">", "o", "<", "i", "&"], std.ToTable(), Files(_ => true, _ => true))
         == [Exec(["sort"], map[0 := File("i", false), 1 := WriteEnd(0), 2 := std.error]),
             Exec(["uniq"], map[0 := ReadEnd(0), 1 := File("o", true), 2 := std.error, 3 := ReadEnd(0)])]
  {
    var segs, tail := [["sort"], ["uniq"]], Tail(Some("o"), Some("i"), true);
    var files := Files(_ => true, _ => true);
    SegmentsInFull(segs);
    TailInFull(tail, std, files);
    hide Join, AreSegments, LineWiring, Plain, Tail.After, Tail.Ok, Tail.Streams;
    LineMeansPipeline(segs, tail, std, files);
    WiredOfTwo(tail.Streams(std));
    hide M.Wired;
  }

  lemma TailInFull(tail: Tail, std: Std, files: Files)
    requires tail == Tail(Some("o"), Some("i"), true) && files == Files(_ => true, _ => true)
    ensures tail.Ok(files) && tail.Streams(std) == Std(File("i", false), File("o", true), std.error)
    ensures tail.After(["sort", "|", "uniq"]) == ["sort", "|", "uniq", ">", "o", "<", "i", "&"]
  {
  }

  lemma WiredOfTwo(std: Std)
    ensures M.Wired(0, 2, std) == map[0 := std.input, 1 := WriteEnd(0), 2 := std.error]
    ensures M.Wired(1, 2, std) == map[0 := ReadEnd(0), 1 := std.output, 2 := std.error, 3 := ReadEnd(0)]
  {
  }

  lemma SegmentsInFull(segs: seq<Argv>)
    requires segs == [["sort"], ["uniq"]]
    ensures AreSegments(segs) && Join(segs) == ["sort", "|", "uniq"] && Plain(Join(segs))
  {
    assert segs[1..] == [["uniq"]];
    assert IsSegment(segs[0]) && IsSegment(segs[1]);
  }
}
