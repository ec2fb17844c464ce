/** Argument vectors of the shell and the search for a pipe symbol in them. */
module ShellSyntax {

  type Argv = seq<string>

  const PIPE: string := "|"

  /** The scan of pipe_present from index `i` on. */
  function PipeFrom(argv: Argv, i: nat): (r: int)
    requires i <= |argv|
    ensures r == -1 ==> i == 0 && argv != [] && argv[0] == PIPE
    ensures r > 0 ==> i <= r && r + 1 < |argv| && argv[r] == PIPE && PIPE !in argv[i..r]
    ensures r == 0 ==> forall j | i <= j < |argv| - 1 :: argv[j] != PIPE
    ensures -1 <= r
    decreases |argv| - i
  {
    if i == |argv| then 0
    else if argv[i] == PIPE then
      if i == 0 then -1 else if i + 1 == |argv| then 0 else i
    else PipeFrom(argv, i + 1)
  }

  /** Where a pipeline is split: -1 without a first command, 0 without a split. */
  function PipeIndex(argv: Argv): (r: int)
    ensures r == -1 <==> argv == [] || argv[0] == PIPE
    ensures r > 0 ==> r + 1 < |argv| && argv[r] == PIPE && PIPE !in argv[..r]
    ensures r == 0 ==> argv != [] && forall j | 0 <= j < |argv| - 1 :: argv[j] != PIPE
    ensures -1 <= r
  {
    if argv == [] then -1 else PipeFrom(argv, 0)
  }

  ghost predicate IsSegment(seg: Argv) {
    seg != [] && PIPE !in seg
  }

  ghost predicate AreSegments(segs: seq<Argv>) {
    segs != [] && forall k | 0 <= k < |segs| :: IsSegment(segs[k])
  }

  function Join(segs: seq<Argv>): Argv {
    if |segs| == 0 then []
    else if |segs| == 1 then segs[0]
    else segs[0] + [PIPE] + Join(segs[1..])
  }

  lemma JoinNonEmpty(segs: seq<Argv>)
    requires AreSegments(segs)
    ensures Join(segs) != [] && Join(segs)[0] == segs[0][0] && segs[0][0] != PIPE
  {
    assert IsSegment(segs[0]);
    assert segs[0][0] in segs[0];
  }

  /** The first split of a joined pipeline falls right after its first segment. */
  lemma JoinSplits(segs: seq<Argv>)
    requires AreSegments(segs)
    ensures |segs| == 1 ==> PipeIndex(Join(segs)) == 0 && Join(segs) == segs[0]
    ensures |segs| > 1 ==>
              && PipeIndex(Join(segs)) == |segs[0]|
              && Join(segs)[..|segs[0]|] == segs[0]
              && Join(segs)[|segs[0]| + 1..] == Join(segs[1..])
              && AreSegments(segs[1..])
  {
    JoinNonEmpty(segs);
    var argv := Join(segs);
    var r := PipeIndex(argv);
    assert IsSegment(segs[0]);
    if |segs| > 1 {
      var n := |segs[0]|;
      assert AreSegments(segs[1..]) by {
        forall k | 0 <= k < |segs[1..]| ensures IsSegment(segs[1..][k]) {
          assert IsSegment(segs[k + 1]);
        }
      }
      JoinNonEmpty(segs[1..]);
      assert argv[n] == PIPE && n + 1 < |argv|;
      assert forall j | 0 <= j < n :: argv[j] == segs[0][j];
    }
  }

  /** The remaining vector of process `k` starts with its own segment. */
  lemma SegmentHeads(segs: seq<Argv>, k: nat)
    requires AreSegments(segs) && k < |segs|
    ensures PipeIndex(Join(segs[k..])) == if k + 1 == |segs| then 0 else |segs[k]|
    ensures k + 1 == |segs| ==> Join(segs[k..]) == segs[k]
    ensures k + 1 < |segs| ==>
              var at := PipeIndex(Join(segs[k..]));
              && 0 < at < |Join(segs[k..])|
              && Join(segs[k..])[..at] == segs[k]
              && Join(segs[k..])[at + 1..] == Join(segs[k + 1..])
  {
    hide PipeIndex, Join;
    var rest := segs[k..];
    assert IsSegment(segs[k]);
    assert AreSegments(rest) by {
      forall i | 0 <= i < |rest| ensures IsSegment(rest[i]) {
        assert IsSegment(segs[k + i]);
      }
    }
    JoinSplits(rest);
    assert k + 1 < |segs| ==> rest[1..] == segs[k + 1..];
  }
}
