/**
 The transfer through shared memory: a writer and a reader process, two semaphores, one
 count and one buffer.  Each statement that touches shared state is one step.
 */
module SharedMemory {

  type Bytes = seq<bv8>

  const BUF_SIZE: nat := 4096

  /** Where the writer is; the comments give the statement it executes next. */
  datatype WriterPc =
    | WInitAvailable    // initSemAvailable(semid, WRITE_SEM)
    | WInitInUse        // initSemInUse(semid, READ_SEM)
    | WReserve          // reserveSem(semid, WRITE_SEM)
    | WRead             // shmp->cnt = read(...)
    | WRelease          // releaseSem(semid, READ_SEM)
    | WCheck            // if (shmp->cnt == 0) break
    | WBump             // xfrs++, bytes += shmp->cnt
    | WLastReserve      // reserveSem(semid, WRITE_SEM)
    | WRemove           // semctl(semid, 0, IPC_RMID)
    | WUnlink           // shm_unlink
    | WDone
    | WFailed

  datatype ReaderPc =
    | RReserve          // reserveSem(semid, READ_SEM)
    | RLoad             // write_n = shmp->cnt; if (write_n == 0) break
    | RAdd              // bytes += shmp->cnt
    | RWrite            // write(STDOUT_FILENO, shmp->buf, write_n)
    | RRelease          // releaseSem(semid, WRITE_SEM)
    | RBump             // xfrs++
    | RLastRelease      // releaseSem(semid, WRITE_SEM) after the loop
    | RDone
    | RFailed

  datatype Writer = Writer(pc: WriterPc, bytes: nat, xfrs: nat)
  datatype Reader = Reader(pc: ReaderPc, n: nat, bytes: nat, xfrs: nat)

  /** `consumed` is what the writer has read so far; `input` is what it has still to read. */
  datatype State = State(
    writeSem: nat, readSem: nat, setExists: bool,
    cnt: nat, buf: Bytes,
    w: Writer, r: Reader,
    consumed: Bytes, input: Bytes, output: Bytes)

  datatype Moved = Blocked | To(next: State)

  datatype Who = TheWriter | TheReader

  ghost predicate Init(s: State, input: Bytes) {
    && s.writeSem == 0 && s.readSem == 0 && s.setExists
    && |s.buf| == BUF_SIZE && s.cnt == 0   // a fresh segment is filled with zeros
    && s.w == Writer(WInitAvailable, 0, 0)
    && s.r.pc == RReserve && s.r.bytes == 0 && s.r.xfrs == 0
    && s.consumed == [] && s.input == input && s.output == []
  }

  /** The writer's next statement; `n` is the number of bytes its read delivers. */
  function WriterStep(s: State, n: nat): Moved
    requires |s.buf| == BUF_SIZE
  {
    var w := s.w;
    match w.pc
    case WInitAvailable => To(s.(writeSem := 1, w := w.(pc := WInitInUse)))
    case WInitInUse => To(s.(readSem := 0, w := w.(pc := WReserve)))
    case WReserve =>
      if !s.setExists then To(s.(w := w.(pc := WFailed)))
      else if s.writeSem == 0 then Blocked
      else To(s.(writeSem := s.writeSem - 1, w := w.(pc := WRead)))
    case WRead =>
      if n > BUF_SIZE || n > |s.input| || (n == 0 && s.input != []) then Blocked
      else To(s.(cnt := n, buf := s.input[..n] + s.buf[n..],
                 consumed := s.consumed + s.input[..n], input := s.input[n..], w := w.(pc := WRelease)))
    case WRelease =>
      if !s.setExists then To(s.(w := w.(pc := WFailed)))
      else To(s.(readSem := s.readSem + 1, w := w.(pc := WCheck)))
    case WCheck => To(s.(w := w.(pc := if s.cnt == 0 then WLastReserve else WBump)))
    case WBump => To(s.(w := w.(pc := WReserve, xfrs := w.xfrs + 1, bytes := w.bytes + s.cnt)))
    case WLastReserve =>
      if !s.setExists then To(s.(w := w.(pc := WFailed)))
      else if s.writeSem == 0 then Blocked
      else To(s.(writeSem := s.writeSem - 1, w := w.(pc := WRemove)))
    case WRemove => To(s.(setExists := false, w := w.(pc := WUnlink)))
    case WUnlink => To(s.(w := w.(pc := WDone)))
    case _ => Blocked
  }

  function ReaderStep(s: State): Moved
    requires |s.buf| == BUF_SIZE
  {
    var r := s.r;
    match r.pc
    case RReserve =>
      if !s.setExists then To(s.(r := r.(pc := RFailed)))
      else if s.readSem == 0 then Blocked
      else To(s.(readSem := s.readSem - 1, r := r.(pc := RLoad)))
    case RLoad => To(s.(r := r.(n := s.cnt, pc := if s.cnt == 0 then RLastRelease else RAdd)))
    case RAdd => To(s.(r := r.(bytes := r.bytes + s.cnt, pc := RWrite)))
    case RWrite =>
      if r.n > BUF_SIZE then To(s.(r := r.(pc := RFailed)))
      else To(s.(output := s.output + s.buf[..r.n], r := r.(pc := RRelease)))
    case RRelease =>
      if !s.setExists then To(s.(r := r.(pc := RFailed)))
      else To(s.(writeSem := s.writeSem + 1, r := r.(pc := RBump)))
    case RBump => To(s.(r := r.(pc := RReserve, xfrs := r.xfrs + 1)))
    case RLastRelease =>
      if !s.setExists then To(s.(r := r.(pc := RFailed)))
      else To(s.(writeSem := s.writeSem + 1, r := r.(pc := RDone)))
    case _ => Blocked
  }

  function Step(s: State, who: Who, n: nat): Moved
    requires |s.buf| == BUF_SIZE
  {
    if who.TheWriter? then WriterStep(s, n) else ReaderStep(s)
  }

  ghost predicate Next(s: State, s': State) {
    |s.buf| == BUF_SIZE && exists who: Who, n: nat :: Step(s, who, n) == To(s')
  }

  ghost predicate IsRun(input: Bytes, run: seq<State>) {
    && |run| > 0
    && Init(run[0], input)
    && forall t | 0 <= t < |run| - 1 :: Next(run[t], run[t + 1])
  }

  /** The writer's read may deliver any number of bytes up to the size of the buffer. */
  lemma AnyChunkIsRead(s: State, n: nat)
    requires |s.buf| == 4096 && s.w.pc.WRead?
    ensures WriterStep(s, n).To? <==> n <= 4096 && n <= |s.input| && (n == 0 ==> s.input == [])
    ensures WriterStep(s, n).To? ==>
              var s' := WriterStep(s, n).next;
              && s'.cnt == n && |s'.buf| == 4096 && s'.buf[..n] == s.input[..n]
              && s'.consumed + s'.input == s.consumed + s.input
  {
    if WriterStep(s, n).To? {
      assert s.input == s.input[..n] + s.input[n..];
    }
  }

  // ---- Who owns the buffer ---------------------------------------------------------------

  /** The writer may touch the buffer and the count. */
  predicate InWriter(s: State) {
    s.w.pc.WRead? || s.w.pc.WRelease?
  }

  /** The reader may look at the buffer and the count. */
  predicate InReader(s: State) {
    s.r.pc.RLoad? || s.r.pc.RAdd? || s.r.pc.RWrite? || s.r.pc.RRelease? || s.r.pc.RLastRelease?
  }

  /** The writer has taken the last token and is tearing down. */
  predicate TearingDown(s: State) {
    s.w.pc.WRemove? || s.w.pc.WUnlink? || s.w.pc.WDone?
  }

  function One(b: bool): nat { if b then 1 else 0 }

  function Tokens(s: State): nat {
    s.writeSem + s.readSem + One(InWriter(s)) + One(InReader(s)) + One(TearingDown(s))
  }

  /** The last chunk the writer stored was the empty one. */
  predicate Ended(s: State) {
    || ((s.w.pc.WRelease? || s.w.pc.WCheck?) && s.cnt == 0)
    || s.w.pc.WLastReserve? || TearingDown(s)
  }

  /** The chunk in the buffer has been stored and not yet written to the output. */
  predicate Pending(s: State) {
    s.w.pc.WRelease? || s.readSem > 0 || s.r.pc.RLoad? || s.r.pc.RAdd? || s.r.pc.RWrite?
  }

  ghost predicate ControlOk(s: State) {
    && |s.buf| == BUF_SIZE && s.cnt <= BUF_SIZE
    && !s.w.pc.WFailed? && !s.r.pc.RFailed?
    && Tokens(s) == One(!s.w.pc.WInitAvailable?)
    && (s.w.pc.WInitAvailable? || s.w.pc.WInitInUse? ==> s.readSem == 0 && s.r.pc.RReserve?)
    && (s.setExists <==> !(s.w.pc.WUnlink? || s.w.pc.WDone?))
    && (s.w.pc.WBump? ==> s.cnt > 0)
    && (s.w.pc.WLastReserve? || TearingDown(s) ==> s.cnt == 0)
    && (Ended(s) ==> s.input == [])
    && (s.r.pc.RAdd? || s.r.pc.RWrite? ==> s.r.n == s.cnt)
    && (s.r.pc.RAdd? || s.r.pc.RWrite? || s.r.pc.RRelease? ==> s.cnt > 0)
    && (Pending(s) && !Ended(s) ==> s.cnt > 0)
    && (s.r.pc.RLastRelease? || s.r.pc.RDone? ==> Ended(s) && s.readSem == 0 && !InWriter(s))
    && (Ended(s) && !s.w.pc.WRelease? && (s.writeSem > 0 || TearingDown(s)) ==> s.r.pc.RDone?)
  }

  /** Every byte the writer consumed is in the output or, in order, in the pending chunk. */
  ghost predicate DataOk(input: Bytes, s: State) {
    && |s.buf| == BUF_SIZE && s.cnt <= BUF_SIZE
    && input == s.consumed + s.input
    && s.consumed == s.output + (if Pending(s) then s.buf[..s.cnt] else [])
    && s.w.bytes == |s.consumed| - (if s.w.pc.WRelease? || s.w.pc.WCheck? || s.w.pc.WBump? then s.cnt else 0)
    && s.r.bytes == |s.output| + (if s.r.pc.RWrite? then s.cnt else 0)
    // the writer is at most one counted transfer ahead of what it will count, the reader behind
    && s.w.xfrs + One((s.w.pc.WRelease? || s.w.pc.WCheck? || s.w.pc.WBump?) && s.cnt > 0)
       == s.r.xfrs + One(s.r.pc.RRelease? || s.r.pc.RBump?) + One(Pending(s) && s.cnt > 0)
  }

  ghost predicate Inv(input: Bytes, s: State) {
    ControlOk(s) && DataOk(input, s)
  }

  lemma InitKeepsInv(input: Bytes, s: State)
    requires Init(s, input)
    ensures Inv(input, s)
  {
  }

  lemma WriterKeepsInv(input: Bytes, s: State, n: nat)
    requires Inv(input, s) && WriterStep(s, n).To?
    ensures Inv(input, WriterStep(s, n).next)
  {
    assert ControlOk(WriterStep(s, n).next) by { hide DataOk; }
    if s.w.pc.WRead? {
      StoreKeepsData(input, s, n);
    } else {
      assert DataOk(input, WriterStep(s, n).next);
    }
  }

  lemma StoreKeepsData(input: Bytes, s: State, n: nat)
    requires Inv(input, s) && s.w.pc.WRead? && WriterStep(s, n).To?
    ensures DataOk(input, WriterStep(s, n).next)
  {
    var s' := WriterStep(s, n).next;
    assert s'.buf[..n] == s.input[..n];
    assert s.input == s.input[..n] + s.input[n..];
    assert !Pending(s);
  }

  lemma ReaderKeepsControl(input: Bytes, s: State)
    requires Inv(input, s) && ReaderStep(s).To?
    ensures ControlOk(ReaderStep(s).next)
  {
    hide DataOk;
  }

  lemma ReaderKeepsData(input: Bytes, s: State)
    requires Inv(input, s) && ReaderStep(s).To?
    ensures DataOk(input, ReaderStep(s).next)
  {
  }

  lemma ReaderKeepsInv(input: Bytes, s: State)
    requires Inv(input, s) && ReaderStep(s).To?
    ensures Inv(input, ReaderStep(s).next)
  {
    hide ControlOk, DataOk;
    ReaderKeepsControl(input, s);
    ReaderKeepsData(input, s);
  }

  lemma StepKeepsInv(input: Bytes, s: State, who: Who, n: nat)
    requires Inv(input, s) && Step(s, who, n).To?
    ensures Inv(input, Step(s, who, n).next)
  {
    hide Inv, WriterStep, ReaderStep;
    assert |s.buf| == BUF_SIZE by { SizeOf(input, s); }
    if who.TheWriter? {
      WriterKeepsInv(input, s, n);
    } else {
      ReaderKeepsInv(input, s);
    }
  }

  // ---- No deadlock, no endless run -----------------------------------------------------------

  predicate AllDone(s: State) {
    s.w.pc.WDone? && s.r.pc.RDone?
  }

  ghost predicate CanMove(s: State) {
    |s.buf| == BUF_SIZE && exists who: Who, n: nat :: Step(s, who, n).To?
  }

  lemma NoDeadlock(input: Bytes, s: State)
    requires Inv(input, s) && !AllDone(s)
    ensures CanMove(s)
  {
    hide DataOk;
    if s.w.pc.WRead? {
      assert Step(s, TheWriter, if s.input == [] then 0 else 1).To?;
    } else if !WriterStep(s, 0).Blocked? {
      assert Step(s, TheWriter, 0).To?;
    } else {
      assert Step(s, TheReader, 0).To?;
    }
  }

  function WriterRank(s: State): nat {
    match s.w.pc
    case WInitAvailable => 12
    case WInitInUse => 11
    case WReserve => 10
    case WRead => 9
    case WRelease => if s.cnt == 0 then 8 else 13
    case WCheck => if s.cnt == 0 then 7 else 12
    case WBump => 11
    case WLastReserve => 6
    case WRemove => 5
    case WUnlink => 4
    case _ => 0
  }

  function ReaderRank(s: State): nat {
    match s.r.pc
    case RReserve => 5
    case RLoad => 4
    case RAdd => 3
    case RWrite => 2
    case RRelease => 7
    case RBump => 6
    case RLastRelease => 3
    case _ => 0
  }

  /** Work left: the input, a pending chunk, and the statements up to the next wait. */
  function Measure(s: State): nat {
    24 * |s.input| + WriterRank(s) + ReaderRank(s) + 8 * One(Pending(s) && s.cnt > 0)
  }

  lemma StepDecreases(input: Bytes, s: State, who: Who, n: nat)
    requires Inv(input, s) && Step(s, who, n).To?
    ensures Measure(Step(s, who, n).next) < Measure(s)
  {
    hide DataOk;
  }

  // ---- Main results --------------------------------------------------------------------------

  lemma {:induction false} RunKeepsInv(input: Bytes, run: seq<State>, t: nat)
    requires IsRun(input, run) && t < |run|
    ensures Inv(input, run[t]) && Measure(run[t]) <= Measure(run[0]) - t
  {
    hide Inv, Step, Measure, Init;
    if t == 0 {
      InitKeepsInv(input, run[0]);
    } else {
      RunKeepsInv(input, run, t - 1);
      assert Next(run[t - 1], run[t - 1 + 1]);
      var who: Who, n: nat :| Step(run[t - 1], who, n) == To(run[t]);
      StepKeepsInv(input, run[t - 1], who, n);
      StepDecreases(input, run[t - 1], who, n);
    }
  }

  /**
   In every state of every run there is exactly one token once the writer has made it, so
   the two never are in their sections together and a store never meets a reader's look;
   and no semaphore call finds the set removed.
   */
  lemma OneToken(input: Bytes, run: seq<State>, t: nat)
    requires IsRun(input, run) && t < |run|
    ensures Tokens(run[t]) == One(!run[t].w.pc.WInitAvailable?)
    ensures !(InWriter(run[t]) && InReader(run[t]))
    ensures InWriter(run[t]) || InReader(run[t]) ==> run[t].writeSem == run[t].readSem == 0
    ensures run[t].w.pc.WRemove? || run[t].w.pc.WUnlink? || run[t].w.pc.WDone? ==> run[t].r.pc.RDone?
    ensures !run[t].w.pc.WFailed? && !run[t].r.pc.RFailed?
  {
    hide DataOk, IsRun;
    RunKeepsInv(input, run, t) by { hide Inv; }
  }

  /**
   After its release, while the reader may be anywhere, the writer reads the length of the
   chunk it consumed last: what it has consumed beyond the bytes it has counted.
   */
  lemma CountIsOwnChunk(input: Bytes, run: seq<State>, t: nat)
    requires IsRun(input, run) && t < |run| && (run[t].w.pc.WCheck? || run[t].w.pc.WBump?)
    ensures run[t].cnt == |run[t].consumed| - run[t].w.bytes
    ensures run[t].w.pc.WCheck? ==> (run[t].cnt == 0 <==> run[t].input == [] && run[t].w.bytes == |input|)
  {
    hide IsRun;
    RunKeepsInv(input, run, t) by { hide Inv; }
  }

  /** From one store to the next the count and the buffer stay as they are. */
  lemma {:induction false} CountIsStable(input: Bytes, run: seq<State>, t: nat, u: nat)
    requires IsRun(input, run) && t <= u < |run|
    requires forall v | t <= v < u :: !run[v].w.pc.WRead?
    ensures run[u].cnt == run[t].cnt && run[u].buf == run[t].buf
    decreases u
  {
    hide Init, Inv;
    if t < u {
      CountIsStable(input, run, t, u - 1);
      assert Next(run[u - 1], run[u - 1 + 1]);
    }
  }

  /** A look of the reader never overlaps a store of the writer. */
  lemma {:induction false} ReaderSeesOneChunk(input: Bytes, run: seq<State>, t: nat, u: nat)
    requires IsRun(input, run) && t <= u < |run|
    requires forall v | t <= v <= u :: InReader(run[v])
    ensures run[u].cnt == run[t].cnt && run[u].buf == run[t].buf
  {
    hide IsRun, Inv, Tokens;
    forall v | t <= v < u ensures !run[v].w.pc.WRead? {
      OneToken(input, run, v);
      assert InReader(run[v]);
    }
    CountIsStable(input, run, t, u);
  }

  /** The steps before `t` in which the writer consumed something: its stores of non-empty chunks. */
  ghost function Chunks(run: seq<State>, t: nat): nat
    requires t < |run|
  {
    if t == 0 then 0
    else Chunks(run, t - 1) + if |run[t - 1].consumed| < |run[t].consumed| then 1 else 0
  }

  /** A chunk that is stored and not yet counted. */
  predicate Uncounted(s: State) {
    (s.w.pc.WRelease? || s.w.pc.WCheck? || s.w.pc.WBump?) && s.cnt > 0
  }

  ghost predicate CountsChunks(s: State, chunks: nat) {
    && s.w.xfrs + One(Uncounted(s)) == chunks
    && chunks <= |s.consumed| <= 4096 * chunks
  }

  lemma StepCounts(input: Bytes, s: State, who: Who, n: nat, chunks: nat)
    requires Inv(input, s) && Step(s, who, n).To? && CountsChunks(s, chunks)
    ensures var s' := Step(s, who, n).next;
            CountsChunks(s', chunks + if |s.consumed| < |s'.consumed| then 1 else 0)
  {
    hide DataOk;
  }

  lemma {:induction false} RunCounts(input: Bytes, run: seq<State>, t: nat)
    requires IsRun(input, run) && t < |run|
    ensures CountsChunks(run[t], Chunks(run, t))
  {
    if t > 0 {
      RunCounts(input, run, t - 1);
      RunKeepsInv(input, run, t - 1);
      hide Inv, CountsChunks, Step;
      assert Next(run[t - 1], run[t - 1 + 1]);
      var who: Who, n: nat :| Step(run[t - 1], who, n) == To(run[t]);
      StepCounts(input, run[t - 1], who, n, Chunks(run, t - 1));
    }
  }

  /**
   For every input and every way read() chunks it, the output is always a prefix of what
   the writer consumed; when both have finished it is the input, and both report its length
   and the number of chunks it was consumed in, a byte at least and a buffer at most in each.
   */
  lemma TransferIsExact(input: Bytes, run: seq<State>, t: nat)
    requires IsRun(input, run) && t < |run|
    ensures run[t].output <= run[t].consumed <= input
    ensures AllDone(run[t]) ==>
              && run[t].output == input
              && run[t].w.bytes == run[t].r.bytes == |input|
              && run[t].w.xfrs == run[t].r.xfrs == Chunks(run, t)
              && run[t].w.xfrs <= |input| <= 4096 * run[t].w.xfrs
  {
    hide IsRun, Chunks;
    RunCounts(input, run, t) by { hide Inv, CountsChunks; }
    RunKeepsInv(input, run, t) by { hide Inv; }
  }

  /** Every run is finite, and one that cannot go on has finished both processes. */
  lemma EveryRunFinishes(input: Bytes, run: seq<State>)
    requires IsRun(input, run)
    ensures |run| <= Measure(run[0]) + 1
    ensures !CanMove(run[|run| - 1]) ==> AllDone(run[|run| - 1])
  {
    hide Inv, Measure, CanMove;
    var last := |run| - 1;
    RunKeepsInv(input, run, last);
    if !AllDone(run[last]) {
      NoDeadlock(input, run[last]);
    }
  }

  lemma SizeOf(input: Bytes, s: State)
    requires Inv(input, s)
    ensures |s.buf| == BUF_SIZE
  {
  }
}
