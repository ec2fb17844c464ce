/**
 The uppercase relay: a parent sends its standard input through one pipe to a child, the
 child turns every byte to upper case and sends it back through a second pipe, and the parent
 writes the reply to its standard output.  Reads and writes may be as partial as they like.
 */
module Relay {

  type Bytes = seq<bv8>

  const SIZE: nat := 4096

  /** toupper in the C locale. */
  function Toupper(b: bv8): bv8 {
    if 97 <= b <= 122 then b - 32 else b
  }

  function Upper(s: Bytes): (r: Bytes)
    ensures |r| == |s|
  {
    seq(|s|, k requires 0 <= k < |s| => Toupper(s[k]))
  }

  datatype ParentPc =
    | ReadInput        // rn = read(STDIN_FILENO, p_buf, SIZE)
    | WriteOne         // write(pd1[1], p_buf, rn); p is what is still to be transferred
    | ReadTwo          // rn = read(pd2[0], p_buf, SIZE)
    | WriteOutput      // write(STDOUT_FILENO, p_buf, rn)

  datatype ChildPc =
    | ReadOne          // rrn = read(pd1[0], c_buf, SIZE)
    | Convert(i: nat)  // the loop that overwrites c_buf[i]
    | WriteTwo         // write(pd2[1], c_buf, rrn); c is what is still to be transferred

  /** `p` and `c` are the bytes in use of the two buffers; `consumed` is what was read of the input. */
  datatype State = State(
    input: Bytes, consumed: Bytes, parent: ParentPc, p: Bytes, pipe1: Bytes,
    child: ChildPc, c: Bytes, pipe2: Bytes, output: Bytes)

  datatype Moved = Blocked | To(next: State)

  datatype Who = Parent | Child

  /** A read of `n` bytes is possible: some but not more than there are, zero only at the end. */
  predicate CanRead(n: nat, available: nat) {
    0 < n <= SIZE && n <= available
  }

  /** `n` of the bytes still to be written fit into a pipe. */
  predicate CanWrite(cap: nat, n: nat, left: nat, held: nat) {
    0 < n <= left && held + n <= cap
  }

  function ParentStep(cap: nat, s: State, n: nat): Moved {
    match s.parent
    case ReadInput =>
      if CanRead(n, |s.input|) || (n == 0 && s.input == []) then
        To(s.(parent := WriteOne, p := s.input[..n], input := s.input[n..], consumed := s.consumed + s.input[..n]))
      else Blocked
    case WriteOne =>
      if s.p == [] then To(s.(parent := ReadTwo))
      else if CanWrite(cap, n, |s.p|, |s.pipe1|) then To(s.(pipe1 := s.pipe1 + s.p[..n], p := s.p[n..]))
      else Blocked
    case ReadTwo =>
      if CanRead(n, |s.pipe2|) then To(s.(parent := WriteOutput, p := s.pipe2[..n], pipe2 := s.pipe2[n..]))
      else Blocked
    case WriteOutput => To(s.(parent := ReadInput, p := [], output := s.output + s.p))
  }

  function ChildStep(cap: nat, s: State, n: nat): Moved {
    match s.child
    case ReadOne =>
      if CanRead(n, |s.pipe1|) then To(s.(child := Convert(0), c := s.pipe1[..n], pipe1 := s.pipe1[n..]))
      else Blocked
    case Convert(i) =>
      if i < |s.c| then To(s.(child := Convert(i + 1), c := s.c[i := Toupper(s.c[i])]))
      else To(s.(child := WriteTwo))
    case WriteTwo =>
      if s.c == [] then To(s.(child := ReadOne))
      else if CanWrite(cap, n, |s.c|, |s.pipe2|) then To(s.(pipe2 := s.pipe2 + s.c[..n], c := s.c[n..]))
      else Blocked
  }

  function Step(cap: nat, s: State, who: Who, n: nat): Moved {
    if who == Parent then ParentStep(cap, s, n) else ChildStep(cap, s, n)
  }

  ghost predicate Init(s: State, input: Bytes) {
    s == State(input, [], ReadInput, [], [], ReadOne, [], [], [])
  }

  ghost predicate Next(cap: nat, s: State, s': State) {
    exists who: Who, n: nat :: Step(cap, s, who, n) == To(s')
  }

  ghost predicate IsRun(cap: nat, input: Bytes, run: seq<State>) {
    && |run| > 0 && Init(run[0], input)
    && forall t | 0 <= t < |run| - 1 :: Next(cap, run[t], run[t + 1])
  }

  // ---- Where the bytes are ------------------------------------------------------------------

  function Reply(s: State): Bytes {
    if s.parent == WriteOutput then s.p else []
  }

  function Unsent(s: State): Bytes {
    if s.parent == WriteOne then s.p else []
  }

  /** What the child will have written of the bytes in its buffer. */
  function Converted(s: State): Bytes {
    match s.child
    case Convert(i) => if i <= |s.c| then s.c[..i] + Upper(s.c[i..]) else s.c
    case _ => s.c
  }

  /** Every byte read of the input is in one place, in order, upper case once past the child. */
  ghost predicate Conserved(s: State) {
    Upper(s.consumed) == s.output + Reply(s) + s.pipe2 + Converted(s) + Upper(s.pipe1) + Upper(Unsent(s))
  }

  ghost predicate Inv(s: State, input: Bytes) {
    && s.consumed + s.input == input
    && Conserved(s)
    && (s.parent == ReadInput || s.parent == ReadTwo ==> s.p == [])
    && (s.child == ReadOne ==> s.c == [])
    && (s.child.Convert? ==> s.child.i <= |s.c|)
    && (s.parent == WriteOne || s.parent == ReadTwo ==> s.input == [] || |s.output| < |s.consumed|)
  }

  lemma UpperSplits(a: Bytes, b: Bytes)
    ensures Upper(a + b) == Upper(a) + Upper(b)
  {
  }

  lemma InitKeepsInv(s: State, input: Bytes)
    requires Init(s, input)
    ensures Inv(s, input)
  {
  }

  lemma Regroup(a: Bytes, b: Bytes, c: Bytes, d: Bytes)
    ensures a + (b + c) + d == a + b + (c + d)
    ensures a + b + (c + d) == (a + b) + c + d
  {
  }

  lemma ParentConserves(cap: nat, s: State, n: nat)
    requires Conserved(s) && ParentStep(cap, s, n).To?
    requires s.parent == ReadInput || s.parent == ReadTwo ==> s.p == []
    ensures Conserved(ParentStep(cap, s, n).next)
  {
    var s' := ParentStep(cap, s, n).next;
    hide Upper, Converted;
    UpperOfNone();
    var o, r, t, c, u, v := s.output, Reply(s), s.pipe2, Converted(s), Upper(s.pipe1), Upper(Unsent(s));
    assert Converted(s') == c by { ConvertedSame(s, s'); }
    match s.parent
    case ReadInput =>
      UpperSplits(s.consumed, s.input[..n]);
      assert o + r + t + c + u + v == o + r + t + c + u;
    case WriteOne =>
      if s.p == [] {
        assert s'.pipe1 == s.pipe1 && Unsent(s') == [] && Upper(s.p) == [];
      } else {
        UpperSplits(s.pipe1, s.p[..n]);
        UpperSplits(s.p[..n], s.p[n..]);
        assert s.p == s.p[..n] + s.p[n..];
        Regroup(o + r + t + c, u, Upper(s.p[..n]), Upper(s.p[n..]));
      }
    case ReadTwo =>
      assert s.pipe2 == s.pipe2[..n] + s.pipe2[n..];
      assert o + r + t == o + s.pipe2[..n] + s.pipe2[n..];
    case WriteOutput =>
      assert o + r + t == (o + r) + [] + t;
  }

  lemma ConvertedSame(s: State, s': State)
    requires s'.child == s.child && s'.c == s.c
    ensures Converted(s') == Converted(s)
  {
  }

  lemma ConvertOne(c: Bytes, i: nat)
    requires i < |c|
    ensures c[i := Toupper(c[i])][..i + 1] + Upper(c[i := Toupper(c[i])][i + 1..]) == c[..i] + Upper(c[i..])
  {
  }

  /** Each step of the child moves bytes on without changing what will come out of them. */
  lemma ConvertedAfter(cap: nat, s: State, n: nat)
    requires ChildStep(cap, s, n).To?
    requires s.child == ReadOne ==> s.c == []
    requires s.child.Convert? ==> s.child.i <= |s.c|
    ensures var s' := ChildStep(cap, s, n).next;
            && s'.output == s.output && Reply(s') == Reply(s) && Unsent(s') == Unsent(s)
            && if s.child == ReadOne then Converted(s) == [] && Converted(s') == Upper(s.pipe1[..n])
               else if s.child == WriteTwo && s.c != [] then Converted(s) == s.c[..n] + Converted(s')
               else Converted(s') == Converted(s)
  {
    if s.child.Convert? && s.child.i < |s.c| {
      ConvertOne(s.c, s.child.i);
    }
  }

  lemma ChildConserves(cap: nat, s: State, n: nat)
    requires Conserved(s) && ChildStep(cap, s, n).To?
    requires s.child == ReadOne ==> s.c == []
    requires s.child.Convert? ==> s.child.i <= |s.c|
    ensures Conserved(ChildStep(cap, s, n).next)
  {
    var s' := ChildStep(cap, s, n).next;
    hide Upper, Converted, Reply, Unsent;
    ConvertedAfter(cap, s, n);
    var o, r, t := s.output, Reply(s), s.pipe2;
    if s.child == ReadOne {
      assert s.pipe1 == s.pipe1[..n] + s.pipe1[n..];
      UpperSplits(s.pipe1[..n], s.pipe1[n..]);
      Regroup(o + r, t, Upper(s.pipe1[..n]), Upper(s.pipe1[n..]));
      assert o + r + t + [] == o + r + t;
    } else if s.child == WriteTwo && s.c != [] {
      Regroup(o + r, t, s.c[..n], Converted(s'));
    }
  }

  lemma UpperOfNone()
    ensures Upper([]) == []
  {
  }

  lemma SizesAgree(s: State)
    requires Conserved(s)
    ensures |s.consumed| == |s.output| + |Reply(s)| + |s.pipe2| + |s.c| + |s.pipe1| + |Unsent(s)|
  {
    assert |Converted(s)| == |s.c|;
    assert |Upper(s.consumed)| == |s.consumed| && |Upper(s.pipe1)| == |s.pipe1| && |Upper(Unsent(s))| == |Unsent(s)|;
  }

  lemma StepKeepsInv(cap: nat, s: State, input: Bytes, who: Who, n: nat)
    requires Inv(s, input) && Step(cap, s, who, n).To?
    ensures Inv(Step(cap, s, who, n).next, input)
  {
    hide Conserved;
    if who == Parent {
      ParentConserves(cap, s, n);
      SizesAgree(s);
      if s.parent == ReadInput {
        assert s.input == s.input[..n] + s.input[n..];
      }
    } else {
      ChildConserves(cap, s, n);
    }
  }

  // ---- Every run is finite -----------------------------------------------------------------

  function ParentRank(pc: ParentPc): nat {
    match pc
    case WriteOutput => 3
    case ReadInput => 2
    case WriteOne => 1
    case ReadTwo => 0
  }

  function ChildWork(s: State): nat {
    match s.child
    case ReadOne => 0
    case Convert(i) => 2 + 6 * |s.c| + if i <= |s.c| then |s.c| - i else 0
    case WriteTwo => 1 + 6 * |s.c|
  }

  /** A weighted count of the bytes on their way and of the calls left in each loop. */
  function Measure(s: State): nat {
    12 * |s.input| + 11 * |Unsent(s)| + 10 * |s.pipe1| + ChildWork(s) + 5 * |s.pipe2| + |Reply(s)|
      + ParentRank(s.parent)
  }

  lemma StepDecreases(cap: nat, s: State, input: Bytes, who: Who, n: nat)
    requires Inv(s, input) && Step(cap, s, who, n).To?
    ensures Measure(Step(cap, s, who, n).next) < Measure(s)
  {
    hide Conserved;
    if who == Parent {
      ParentStepDecreases(cap, s, n);
    } else {
      ChildStepDecreases(cap, s, n);
    }
  }

  lemma ParentStepDecreases(cap: nat, s: State, n: nat)
    requires ParentStep(cap, s, n).To? && (s.parent == ReadInput || s.parent == ReadTwo ==> s.p == [])
    ensures Measure(ParentStep(cap, s, n).next) < Measure(s)
  {
    var s' := ParentStep(cap, s, n).next;
    assert ChildWork(s') == ChildWork(s);
    hide ChildWork;
  }

  lemma ChildStepDecreases(cap: nat, s: State, n: nat)
    requires ChildStep(cap, s, n).To? && (s.child == ReadOne ==> s.c == [])
    ensures Measure(ChildStep(cap, s, n).next) < Measure(s)
  {
    var s' := ChildStep(cap, s, n).next;
    assert Unsent(s') == Unsent(s) && Reply(s') == Reply(s);
    hide Unsent, Reply;
  }

  lemma {:induction false} RunKeepsInv(cap: nat, input: Bytes, run: seq<State>, t: nat)
    requires IsRun(cap, input, run) && t < |run|
    ensures Inv(run[t], input) && Measure(run[t]) + t <= Measure(run[0])
  {
    hide Inv, Step, Measure, Init;
    if t == 0 {
      InitKeepsInv(run[0], input);
    } else {
      RunKeepsInv(cap, input, run, t - 1);
      assert Next(cap, run[t - 1], run[t - 1 + 1]);
      var who: Who, n: nat :| Step(cap, run[t - 1], who, n) == To(run[t]);
      StepKeepsInv(cap, run[t - 1], input, who, n);
      StepDecreases(cap, run[t - 1], input, who, n);
    }
  }

  // ---- When nobody can move ----------------------------------------------------------------

  ghost predicate CanMove(cap: nat, s: State) {
    exists who: Who, n: nat :: Step(cap, s, who, n).To?
  }

  /** The input is used up and all of it was written; the parent waits for a reply for ever. */
  predicate AllDelivered(s: State, input: Bytes) {
    && s.input == [] && s.output == Upper(input)
    && s.parent == ReadTwo && s.child == ReadOne
  }

  /** Each process waits for the other to empty a full pipe. */
  predicate CrossFull(cap: nat, s: State) {
    && s.parent == WriteOne && s.p != [] && |s.pipe1| >= cap
    && s.child == WriteTwo && s.c != [] && |s.pipe2| >= cap
  }

  /** A step that is possible unless the process has to wait. */
  function Least(s: State, who: Who): nat {
    if who == Parent && s.parent == ReadInput && s.input == [] then 0 else 1
  }

  lemma MovesUnlessWaiting(cap: nat, s: State)
    ensures Step(cap, s, Parent, Least(s, Parent)).To?
         || (s.parent == WriteOne && s.p != [] && |s.pipe1| >= cap) || (s.parent == ReadTwo && s.pipe2 == [])
    ensures Step(cap, s, Child, Least(s, Child)).To?
         || (s.child == WriteTwo && s.c != [] && |s.pipe2| >= cap) || (s.child == ReadOne && s.pipe1 == [])
  {
  }

  lemma WaitingBlocks(cap: nat, s: State, input: Bytes, who: Who, n: nat)
    requires Inv(s, input) && (AllDelivered(s, input) || CrossFull(cap, s))
    ensures Step(cap, s, who, n) == Blocked
  {
    if AllDelivered(s, input) {
      SizesAgree(s);
    }
  }

  lemma NothingInFlight(s: State, input: Bytes)
    requires Inv(s, input) && s.parent == ReadTwo && s.pipe2 == [] && s.child == ReadOne && s.pipe1 == []
    ensures s.input == [] && s.output == Upper(input)
  {
    SizesAgree(s);
    assert s.consumed == input;
    assert Converted(s) == [] && Unsent(s) == [] && Reply(s) == [];
  }

  /** No process can move exactly when all is delivered or both pipes are full. */
  lemma StuckExactlyWhen(cap: nat, s: State, input: Bytes)
    requires Inv(s, input) && cap > 0
    ensures !CanMove(cap, s) <==> AllDelivered(s, input) || CrossFull(cap, s)
  {
    hide Inv, Step, Upper;
    if !CanMove(cap, s) {
      MovesUnlessWaiting(cap, s);
      if s.parent == ReadTwo && s.child == ReadOne {
        NothingInFlight(s, input);
      }
    } else if AllDelivered(s, input) || CrossFull(cap, s) {
      var who: Who, n: nat :| Step(cap, s, who, n).To?;
      WaitingBlocks(cap, s, input, who, n);
    }
  }

  // ---- Main results -----------------------------------------------------------------------------

  /** At every moment of every run the output is the upper case of a beginning of the input. */
  lemma OutputIsUpperPrefix(cap: nat, input: Bytes, run: seq<State>, t: nat)
    requires IsRun(cap, input, run) && t < |run|
    ensures run[t].consumed + run[t].input == input && Conserved(run[t])
    ensures run[t].output <= Upper(input)
  {
    hide IsRun, Measure;
    RunKeepsInv(cap, input, run, t);
    var s := run[t];
    hide Upper;
    UpperSplits(s.consumed, s.input);
    PrefixOfSum(s.output, Reply(s), s.pipe2, Converted(s), Upper(s.pipe1), Upper(Unsent(s)), Upper(s.input));
  }

  lemma PrefixOfSum(a: Bytes, b: Bytes, c: Bytes, d: Bytes, e: Bytes, f: Bytes, g: Bytes)
    ensures a <= a + b + c + d + e + f + g
  {
  }

  /** What the relay does to a byte `c` that comes out as `o`, by the codes of the letters. */
  predicate IsRelayed(c: bv8, o: bv8) {
    && !(97 <= o <= 122)
    && (!(97 <= c <= 122) ==> o == c)
    && (97 <= c <= 122 ==> 65 <= o <= 90 && o as int - 65 == c as int - 97)
  }

  lemma ToupperRelays(c: bv8)
    ensures IsRelayed(c, Toupper(c))
  {
    if 97 <= c <= 122 {
      assert c as int == (c - 32) as int + 32;
    }
  }

  /** At every moment each byte written is the upper case of the byte consumed at the same place. */
  lemma OutputByteByByte(cap: nat, input: Bytes, run: seq<State>, t: nat, k: nat)
    requires IsRun(cap, input, run) && t < |run| && k < |run[t].output|
    ensures k < |run[t].consumed| <= |input| && run[t].consumed[k] == input[k]
    ensures IsRelayed(run[t].consumed[k], run[t].output[k])
  {
    hide IsRun, Measure, IsRelayed;
    OutputIsUpperPrefix(cap, input, run, t);
    SizesAgree(run[t]);
    ToupperRelays(input[k]);
  }

  lemma RunStarts(cap: nat, input: Bytes, run: seq<State>)
    requires IsRun(cap, input, run)
    ensures |run| > 0 && Init(run[0], input)
  {
  }

  /** Every run is finite, and one that can go no further has delivered all or is stuck on full pipes. */
  lemma EveryRunDeliversOrJams(cap: nat, input: Bytes, run: seq<State>)
    requires IsRun(cap, input, run) && cap > 0
    ensures |run| <= 12 * |input| + 3
    ensures var s := run[|run| - 1];
            !CanMove(cap, s) <==> AllDelivered(s, input) || CrossFull(cap, s)
  {
    hide Inv, IsRun;
    assert Measure(run[0]) == 12 * |input| + 2 by { RunStarts(cap, input, run); }
    hide Measure;
    RunKeepsInv(cap, input, run, |run| - 1);
    StuckExactlyWhen(cap, run[|run| - 1], input);
  }

  // ---- Pipes that transfer whole chunks ----------------------------------------------------------

  /** A write to a pipe is not split, and a read takes all there is; the input may still come in any chunks. */
  predicate Whole(s: State, who: Who, n: nat) {
    if who == Parent then
      && (s.parent == WriteOne ==> n == |s.p|)
      && (s.parent == ReadTwo ==> n == if |s.pipe2| <= SIZE then |s.pipe2| else SIZE)
    else
      && (s.child == WriteTwo ==> n == |s.c|)
      && (s.child == ReadOne ==> n == if |s.pipe1| <= SIZE then |s.pipe1| else SIZE)
  }

  ghost predicate IsWholeRun(cap: nat, input: Bytes, run: seq<State>) {
    && |run| > 0 && Init(run[0], input)
    && forall t | 0 <= t < |run| - 1 :: WholeNext(cap, run[t], run[t + 1])
  }

  ghost predicate WholeNext(cap: nat, s: State, s': State) {
    exists who: Who, n: nat :: Whole(s, who, n) && Step(cap, s, who, n) == To(s')
  }

  /** Between the parent's write and its read at most one chunk is on its way, otherwise none. */
  predicate OneChunk(s: State) {
    && |s.p| <= SIZE && |s.pipe1| <= SIZE && |s.c| <= SIZE && |s.pipe2| <= SIZE
    && (s.pipe1 == [] || s.c == []) && (s.c == [] || s.pipe2 == []) && (s.pipe1 == [] || s.pipe2 == [])
    && (s.parent == ReadInput || s.parent == WriteOutput || (s.parent == WriteOne && s.p != [])
        ==> s.pipe1 == [] && s.c == [] && s.pipe2 == [])
  }

  lemma WholeStepKeepsOneChunk(cap: nat, s: State, input: Bytes, who: Who, n: nat)
    requires cap >= SIZE && Inv(s, input) && OneChunk(s) && Whole(s, who, n) && Step(cap, s, who, n).To?
    ensures OneChunk(Step(cap, s, who, n).next)
  {
    hide Conserved;
  }

  lemma {:induction false} WholeRunKeepsOneChunk(cap: nat, input: Bytes, run: seq<State>, t: nat)
    requires cap >= SIZE && IsWholeRun(cap, input, run) && t < |run|
    ensures Inv(run[t], input) && OneChunk(run[t])
  {
    hide Inv, Step, Whole;
    if t == 0 {
      InitKeepsInv(run[0], input);
    } else {
      WholeRunKeepsOneChunk(cap, input, run, t - 1);
      assert WholeNext(cap, run[t - 1], run[t - 1 + 1]);
      var who: Who, n: nat :| Whole(run[t - 1], who, n) && Step(cap, run[t - 1], who, n) == To(run[t]);
      StepKeepsInv(cap, run[t - 1], input, who, n);
      WholeStepKeepsOneChunk(cap, run[t - 1], input, who, n);
    }
  }

  ghost predicate CanMoveWhole(cap: nat, s: State) {
    exists who: Who, n: nat :: Whole(s, who, n) && Step(cap, s, who, n).To?
  }

  function MostWhole(s: State, who: Who): nat {
    if who == Parent then
      match s.parent
      case ReadInput => if s.input == [] then 0 else 1
      case ReadTwo => if |s.pipe2| <= SIZE then |s.pipe2| else SIZE
      case _ => |s.p|
    else if s.child == ReadOne then if |s.pipe1| <= SIZE then |s.pipe1| else SIZE
    else |s.c|
  }

  lemma MovesWholeUnlessWaiting(cap: nat, s: State)
    requires cap >= SIZE && OneChunk(s)
    ensures forall who :: Whole(s, who, MostWhole(s, who))
    ensures (s.parent == ReadTwo && s.pipe2 == []) || Step(cap, s, Parent, MostWhole(s, Parent)).To?
    ensures (s.child == ReadOne && s.pipe1 == []) || Step(cap, s, Child, MostWhole(s, Child)).To?
  {
  }

  /** With room for one chunk and whole transfers, a run stops only when all is delivered. */
  lemma WholeTransfersDeliver(cap: nat, input: Bytes, run: seq<State>)
    requires cap >= SIZE && IsWholeRun(cap, input, run)
    ensures IsRun(cap, input, run) && !CrossFull(cap, run[|run| - 1])
    ensures !CanMoveWhole(cap, run[|run| - 1]) <==> AllDelivered(run[|run| - 1], input)
  {
    var s := run[|run| - 1];
    WholeRunIsRun(cap, input, run);
    hide Inv, Step, Whole, MostWhole, Upper, IsWholeRun, Next;
    WholeRunKeepsOneChunk(cap, input, run, |run| - 1);
    if !CanMoveWhole(cap, s) {
      MovesWholeUnlessWaiting(cap, s);
      NothingInFlight(s, input);
    } else if AllDelivered(s, input) {
      var who: Who, n: nat :| Whole(s, who, n) && Step(cap, s, who, n).To?;
      WaitingBlocks(cap, s, input, who, n);
    }
  }

  lemma WholeRunIsRun(cap: nat, input: Bytes, run: seq<State>)
    requires IsWholeRun(cap, input, run)
    ensures IsRun(cap, input, run)
  {
    hide Step, Whole;
    forall t | 0 <= t < |run| - 1 ensures Next(cap, run[t], run[t + 1]) {
      assert WholeNext(cap, run[t], run[t + 1]);
    }
  }

  // ---- Exactly when a run can jam ------------------------------------------------------------------

  /** The rounds of the parent's loop before which its reads cannot bring in enough to fill both pipes. */
  function Rounds(cap: nat): nat {
    2 * cap / (SIZE - 1)
  }

  lemma RoundsIsLeast(cap: nat, k: nat)
    ensures k * (SIZE - 1) + SIZE >= 2 * cap + 2 <==> k >= Rounds(cap)
  {
  }

  /** In each round the parent reads at most one buffer and writes at least one byte out. */
  ghost predicate Paced(s: State) {
    && |s.consumed| <= SIZE * (|s.output| + if s.parent == ReadInput then 0 else 1)
    && (s.parent == WriteOutput ==> s.p != [])
  }

  lemma {:induction false} RunIsPaced(cap: nat, input: Bytes, run: seq<State>, t: nat)
    requires IsRun(cap, input, run) && t < |run|
    ensures Paced(run[t])
  {
    if t > 0 {
      RunIsPaced(cap, input, run, t - 1);
      assert Next(cap, run[t - 1], run[t - 1 + 1]);
      var who: Who, n: nat :| Step(cap, run[t - 1], who, n) == To(run[t]);
      hide IsRun, Upper;
    }
  }

  /** What a jam takes: two full pipes, a byte of each process, and one written out in every round before. */
  lemma JamNeeds(cap: nat, input: Bytes, run: seq<State>, t: nat)
    requires IsRun(cap, input, run) && t < |run| && CrossFull(cap, run[t])
    ensures |input| >= 2 * cap + 2 + 2 * cap / 4095
  {
    hide IsRun, Measure;
    RunKeepsInv(cap, input, run, t);
    RunIsPaced(cap, input, run, t);
    SizesAgree(run[t]);
    hide Conserved, Rounds;
    RoundsIsLeast(cap, |run[t].output|);
  }

  ghost predicate IsPath(cap: nat, path: seq<State>) {
    |path| > 0 && forall t | 0 <= t < |path| - 1 :: Next(cap, path[t], path[t + 1])
  }

  ghost predicate Reaches(cap: nat, s: State, s': State) {
    exists path :: IsPath(cap, path) && path[0] == s && path[|path| - 1] == s'
  }

  lemma ReachesSelf(cap: nat, s: State)
    ensures Reaches(cap, s, s)
  {
    assert IsPath(cap, [s]);
  }

  lemma ReachesStep(cap: nat, s: State, who: Who, n: nat)
    requires Step(cap, s, who, n).To?
    ensures Reaches(cap, s, Step(cap, s, who, n).next)
  {
    var s' := Step(cap, s, who, n).next;
    assert Next(cap, s, s') && IsPath(cap, [s, s']);
  }

  lemma ReachesOn(cap: nat, s1: State, s2: State, s3: State)
    requires Reaches(cap, s1, s2) && Reaches(cap, s2, s3)
    ensures Reaches(cap, s1, s3)
  {
    hide Next;
    var a :| IsPath(cap, a) && a[0] == s1 && a[|a| - 1] == s2;
    var b :| IsPath(cap, b) && b[0] == s2 && b[|b| - 1] == s3;
    var path := a + b[1..];
    forall t | 0 <= t < |path| - 1 ensures Next(cap, path[t], path[t + 1]) {
      if t < |a| - 1 {
        assert path[t] == a[t] && path[t + 1] == a[t + 1];
      } else {
        assert path[t] == b[t - |a| + 1] && path[t + 1] == b[t - |a| + 1 + 1];
      }
    }
    assert IsPath(cap, path);
  }

  /** The child takes one byte and converts it. */
  lemma ChildTakes(cap: nat, s: State) returns (s': State)
    requires s.child == ReadOne && s.c == [] && s.pipe1 != []
    ensures Reaches(cap, s, s')
    ensures s' == s.(pipe1 := s.pipe1[1..], child := WriteTwo, c := [Toupper(s.pipe1[0])])
  {
    var s1 := s.(pipe1 := s.pipe1[1..], child := Convert(0), c := s.pipe1[..1]);
    var s2 := s1.(child := Convert(1), c := [Toupper(s.pipe1[0])]);
    s' := s2.(child := WriteTwo);
    assert Step(cap, s, Child, 1) == To(s1) && Step(cap, s1, Child, 0) == To(s2) && Step(cap, s2, Child, 0) == To(s');
    ReachesStep(cap, s, Child, 1);
    ReachesStep(cap, s1, Child, 0);
    ReachesStep(cap, s2, Child, 0);
    hide Step, Reaches;
    ReachesOn(cap, s, s1, s2);
    ReachesOn(cap, s, s2, s');
  }

  /** The child passes one byte on and is back at its read. */
  lemma ChildPasses(cap: nat, s: State) returns (s': State)
    requires s.child == ReadOne && s.c == [] && s.pipe1 != [] && |s.pipe2| < cap
    ensures Reaches(cap, s, s')
    ensures s' == s.(pipe1 := s.pipe1[1..], pipe2 := s.pipe2 + [Toupper(s.pipe1[0])])
  {
    var s1 := ChildTakes(cap, s);
    var s2 := s1.(pipe2 := s.pipe2 + s1.c, c := []);
    s' := s2.(child := ReadOne);
    assert Step(cap, s1, Child, 1) == To(s2) && Step(cap, s2, Child, 0) == To(s');
    ReachesStep(cap, s1, Child, 1);
    ReachesStep(cap, s2, Child, 0);
    hide Step, Reaches;
    ReachesOn(cap, s, s1, s2);
    ReachesOn(cap, s, s2, s');
  }

  /** The child is at its read with nothing in hand, and the pipes have `held` bytes. */
  predicate Idle(cap: nat, s: State, held: nat) {
    s.child == ReadOne && s.c == [] && |s.pipe1| <= cap && |s.pipe2| <= cap && |s.pipe1| + |s.pipe2| == held
  }

  /** The parent gets rid of all but `m` bytes, as far as both pipes have room. */
  lemma {:induction false} Push(cap: nat, s: State, held: nat, m: nat) returns (s': State)
    requires s.parent == WriteOne && Idle(cap, s, held) && m <= |s.p| && held + |s.p| - m <= 2 * cap
    ensures Reaches(cap, s, s') && s'.parent == WriteOne && |s'.p| == m && Idle(cap, s', held + |s.p| - m)
    ensures s'.input == s.input && s'.output == s.output
    decreases |s.p|
  {
    if |s.p| == m {
      s' := s;
      ReachesSelf(cap, s);
    } else {
      var s1 := s;
      if |s.pipe1| == cap {
        s1 := ChildPasses(cap, s);
      } else {
        ReachesSelf(cap, s);
      }
      var s2 := s1.(pipe1 := s1.pipe1 + s1.p[..1], p := s1.p[1..]);
      assert Step(cap, s1, Parent, 1) == To(s2);
      ReachesStep(cap, s1, Parent, 1);
      hide Step, Reaches;
      s' := Push(cap, s2, held + 1, m);
      ReachesOn(cap, s, s1, s2);
      ReachesOn(cap, s, s2, s');
    }
  }

  /** At its read of the input the parent takes `n` bytes. */
  lemma TakeInput(cap: nat, s: State, n: nat) returns (s': State)
    requires s.parent == ReadInput && 0 < n <= SIZE && n <= |s.input|
    ensures Reaches(cap, s, s') && s'.parent == WriteOne && |s'.p| == n && |s'.input| == |s.input| - n
    ensures s'.child == s.child && s'.c == s.c && s'.pipe1 == s.pipe1 && s'.pipe2 == s.pipe2 && s'.output == s.output
  {
    ReachesStep(cap, s, Parent, n);
    s' := Step(cap, s, Parent, n).next;
  }

  /** One round that reads `n` bytes and writes a single one out. */
  lemma SlowRound(cap: nat, s: State, held: nat, n: nat) returns (s': State)
    requires s.parent == ReadInput && Idle(cap, s, held) && 0 < n <= SIZE && n <= |s.input|
    requires held + n <= 2 * cap
    ensures Reaches(cap, s, s') && s'.parent == ReadInput && Idle(cap, s', held + n - 1)
    ensures |s'.input| == |s.input| - n
  {
    var s1 := TakeInput(cap, s, n);
    var s2 := Push(cap, s1, held, 0);
    assert Step(cap, s2, Parent, 0) == To(s2.(parent := ReadTwo));
    ReachesStep(cap, s2, Parent, 0);
    var s3 := s2.(parent := ReadTwo);
    var s4 := s3;
    if s3.pipe2 == [] {
      s4 := ChildPasses(cap, s3);
    } else {
      ReachesSelf(cap, s3);
    }
    var s5 := s4.(parent := WriteOutput, p := s4.pipe2[..1], pipe2 := s4.pipe2[1..]);
    s' := s5.(parent := ReadInput, p := [], output := s5.output + s5.p);
    assert Step(cap, s4, Parent, 1) == To(s5) && Step(cap, s5, Parent, 0) == To(s');
    ReachesStep(cap, s4, Parent, 1);
    ReachesStep(cap, s5, Parent, 0);
    hide Step, Reaches;
    ReachesOn(cap, s, s1, s2);
    ReachesOn(cap, s, s2, s3);
    ReachesOn(cap, s, s3, s4);
    ReachesOn(cap, s, s4, s5);
    ReachesOn(cap, s, s5, s');
  }

  /** The last round: both pipes are filled, and each process has a byte left to write. */
  lemma LastRound(cap: nat, s: State, held: nat) returns (s': State)
    requires cap > 0 && s.parent == ReadInput && Idle(cap, s, held) && held <= 2 * cap
    requires 2 * cap + 2 - held <= SIZE && 2 * cap + 2 - held <= |s.input|
    ensures Reaches(cap, s, s') && CrossFull(cap, s')
  {
    var s1 := TakeInput(cap, s, 2 * cap + 2 - held);
    var s2 := Push(cap, s1, held, 2);
    var s3 := ChildTakes(cap, s2);
    s' := s3.(pipe1 := s3.pipe1 + s3.p[..1], p := s3.p[1..]);
    assert Step(cap, s3, Parent, 1) == To(s');
    ReachesStep(cap, s3, Parent, 1);
    hide Step, Reaches;
    ReachesOn(cap, s, s1, s2);
    ReachesOn(cap, s, s2, s3);
    ReachesOn(cap, s, s3, s');
  }

  /** With `k` rounds to spare the pipes can be filled. */
  lemma {:induction false} JamFrom(cap: nat, s: State, held: nat, k: nat) returns (s': State)
    requires cap > 0 && s.parent == ReadInput && Idle(cap, s, held) && held <= 2 * cap
    requires k * (SIZE - 1) + SIZE + held >= 2 * cap + 2 && |s.input| >= 2 * cap + 2 - held + k
    ensures Reaches(cap, s, s') && CrossFull(cap, s')
    decreases k
  {
    if 2 * cap + 2 - held <= SIZE {
      s' := LastRound(cap, s, held);
    } else {
      var n := if held + SIZE <= 2 * cap then SIZE else SIZE - 1;
      var s1 := SlowRound(cap, s, held, n);
      hide Reaches;
      s' := JamFrom(cap, s1, held + n - 1, k - 1);
      ReachesOn(cap, s, s1, s');
    }
  }

  /** Some run on this input fills both pipes. */
  ghost predicate CanJam(cap: nat, input: Bytes) {
    exists run, t: nat :: IsRun(cap, input, run) && t < |run| && CrossFull(cap, run[t])
  }

  /**
   A relay can get stuck on full pipes exactly when the input is long enough to fill both, to
   leave each process a byte, and to let one byte out in each round that this takes.
   */
  lemma JamsExactlyWhen(cap: nat, input: Bytes)
    requires cap > 0
    ensures CanJam(cap, input) <==> |input| >= 2 * cap + 2 + 2 * cap / 4095
  {
    if CanJam(cap, input) {
      var run, t: nat :| IsRun(cap, input, run) && t < |run| && CrossFull(cap, run[t]);
      hide IsRun, Rounds;
      JamNeeds(cap, input, run, t);
    }
    if |input| >= 2 * cap + 2 + Rounds(cap) {
      var s := State(input, [], ReadInput, [], [], ReadOne, [], [], []);
      RoundsIsLeast(cap, Rounds(cap));
      hide Rounds, Next;
      var s' := JamFrom(cap, s, 0, Rounds(cap));
      var path :| IsPath(cap, path) && path[0] == s && path[|path| - 1] == s';
      assert IsRun(cap, input, path) && CrossFull(cap, path[|path| - 1]);
    }
  }

  /** A run that cannot go on. */
  ghost predicate Ends(cap: nat, input: Bytes, run: seq<State>) {
    IsRun(cap, input, run) && !CanMove(cap, run[|run| - 1])
  }

  /** Every run can end only with the whole input delivered, exactly for the shorter inputs. */
  lemma DeliversExactlyWhen(cap: nat, input: Bytes)
    requires cap > 0
    ensures (forall run | Ends(cap, input, run) :: AllDelivered(run[|run| - 1], input))
       <==> |input| < 2 * cap + 2 + 2 * cap / 4095
  {
    hide CanMove, Rounds, Inv, Upper, Next, Init;
    JamsExactlyWhen(cap, input);
    if CanJam(cap, input) {
      var run, t: nat :| IsRun(cap, input, run) && t < |run| && CrossFull(cap, run[t]);
      var jammed := run[..t + 1];
      RunStartsAt(cap, input, run, t);
      RunKeepsInv(cap, input, jammed, t);
      StuckExactlyWhen(cap, jammed[t], input);
      assert Ends(cap, input, jammed) && !AllDelivered(jammed[|jammed| - 1], input);
    } else {
      forall run | Ends(cap, input, run) ensures AllDelivered(run[|run| - 1], input) {
        EveryRunDeliversOrJams(cap, input, run);
      }
    }
  }

  lemma RunStartsAt(cap: nat, input: Bytes, run: seq<State>, t: nat)
    requires IsRun(cap, input, run) && t < |run|
    ensures IsRun(cap, input, run[..t + 1]) && run[..t + 1][t] == run[t]
  {
    hide Next;
    var front := run[..t + 1];
    forall u | 0 <= u < |front| - 1 ensures Next(cap, front[u], front[u + 1]) {
      assert front[u] == run[u] && front[u + 1] == run[u + 1];
    }
  }
}
