/** One line of the shell, from its text to the processes it starts. */
module Shell {
  import opened CStrings
  import opened Descriptors
  import opened Lists
  import opened ShellSyntax
  import opened Vectors
  import opened PipeCommand
  import M = PipelineMachine
  import P = Parse
  import R = RunCommand

  function Builtins(): seq<string> {
    ["builtin", "echo", "quit", "exit", "bye", "logout", "cd", "pwd", "id", "hostname"]
  }

  method IsBuiltin(cmd: string) returns (b: bool)
    ensures b <==> cmd in Builtins()
    ensures b <==> cmd in {"builtin", "echo", "quit", "exit", "bye", "logout", "cd", "pwd", "id", "hostname"}
  {
    var table := Builtins();
    assert cmd in table
      <==> cmd in {"builtin", "echo", "quit", "exit", "bye", "logout", "cd", "pwd", "id", "hostname"};
    hide Builtins;
    for i := 0 to |table|
      invariant cmd !in table[..i]
    {
      if table[i] == cmd {
        return true;
      }
    }
    assert table[..|table|] == table;
    b := false;
  }

  /** What becomes of a line: a copy past its block, a built-in command, or processes. */
  datatype Outcome = Overrun | Builtin | Ran(background: bool, launched: seq<Launch>)

  /**
   A line that spells, with any blanks between the words, `A0 | ... | An-1 > out < in &`
   (each of the last three parts optional).  When each word fits the block made for the word
   before it, and the first is no built-in command, exactly the segments are started as a
   wired pipeline between the two files.
   */
  method RunText(line: array<char>, room: nat -> nat, process: Process, kernel: Kernel, files: R.Files,
                 ghost segs: seq<Argv>, ghost tail: R.Tail, ghost gaps: seq<string>, ghost std: Std)
    returns (outcome: Outcome)
    requires AreSegments(segs) && R.Plain(Join(segs)) && tail.Ok(files) && P.Allocates(room)
    requires P.AreWords(tail.After(Join(segs))) && P.AreGaps(gaps, |tail.After(Join(segs))|)
    requires NUL in line[..] && UpToNul(line[..]) == P.Line(tail.After(Join(segs)), gaps)
    requires process.fds == std.ToTable() && kernel.pipes == 0
    modifies line, process, kernel
    ensures outcome.Overrun? <==> !P.EachFits(tail.After(Join(segs)), room)
    ensures !outcome.Overrun? ==> (outcome.Builtin? <==> segs[0] != [] && segs[0][0] in Builtins())
    ensures outcome.Ran? ==>
              && outcome.background == tail.background
              && |outcome.launched| == |segs|
              && forall k | 0 <= k < |segs| ::
                   outcome.launched[k] == Exec(segs[k], M.Wired(k, |segs|, tail.Streams(std)))
  {
    ghost var words := tail.After(Join(segs));
    FirstWord(segs, tail);
    P.TokensOfLine(words, gaps);
    R.BackgroundIsSeen(Join(segs), tail, files);
    R.LineMeansPipeline(segs, tail, std, files);
    hide P.Tokens, P.Line, P.AreGaps, P.AreWords, P.EachFits, UpToNul, Words;
    hide R.LineWiring, R.Plain, Join, AreSegments, Builtins;
    P.TokensOfGap([NL]);
    var parsed := P.Parse(line, room);
    if parsed.Overrun? {
      return Overrun;
    }
    var argv := parsed.argv;
    CellAt(argv[..], 0, 0);
    var builtin := IsBuiltin(argv[0].value);
    if builtin {
      return Builtin;
    }
    var background, launched := R.RunLine(argv, process, kernel, files);
    outcome := Ran(background, launched);
  }

  /** The processes of a line before the first pipe is made. */
  function Started(words: Argv, std: Std, files: R.Files, input: M.Bytes): M.Sys {
    var (argv, fds) := R.Edited(words, std.ToTable(), files);
    M.Sys([M.Proc(M.Begin, argv, fds, [], [])], [], input, [])
  }

  /**
   Every schedule of the processes that such a line starts computes the composition of its
   commands on what the first one reads, and writes it where the last one writes.
   */
  lemma LineComputes(segs: seq<Argv>, tail: R.Tail, std: Std, files: R.Files,
                     prog: M.Programs, cap: nat, input: M.Bytes, run: seq<M.Sys>)
    requires AreSegments(segs) && R.Plain(Join(segs)) && tail.Ok(files)
    requires std.NoPipes() && cap > 0 && forall k | 0 <= k < |segs| :: M.Streaming(prog(segs[k]))
    requires M.IsRun(prog, cap, Started(tail.After(Join(segs)), std, files, input), run)
    ensures var j := M.Job(prog, segs, tail.Streams(std), input);
            var last := run[|run| - 1];
            && last.output <= M.Feed(j, |segs|)
            && |run| <= M.Measure(j, run[0]) + 1
            && (!M.CanMove(j, cap, last) ==>
                  && last.output == M.Feed(j, |segs|)
                  && |last.procs| == |segs|
                  && forall k | 0 <= k < |segs| :: last.procs[k].stage.Exited? && last.procs[k].argv == segs[k])
  {
    R.EditsLeave(Join(segs), tail, std, files);
    var j := M.Job(prog, segs, tail.Streams(std), input);
    assert j.Ok();
    assert Started(tail.After(Join(segs)), std, files, input) == M.Init(Join(segs), j.std, input);
    hide M.IsRun, M.Measure, M.Feed, M.CanMove, R.Edited, M.Init;
    M.EveryScheduleComposes(j, cap, run);
    M.RunsAreFinite(j, cap, run);
  }

  lemma FirstWord(segs: seq<Argv>, tail: R.Tail)
    requires AreSegments(segs)
    ensures segs[0] != [] && tail.After(Join(segs)) != [] && tail.After(Join(segs))[0] == segs[0][0]
  {
    JoinNonEmpty(segs);
    assert IsSegment(segs[0]);
  }
}
