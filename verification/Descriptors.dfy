/** Descriptor tables of a process, as the system calls of the exercises change them. */
module Descriptors {

  /** What an open descriptor refers to. */
  datatype Open =
    | Inherited(id: nat)
    | File(path: string, forWriting: bool)
    | ReadEnd(pipe: nat)
    | WriteEnd(pipe: nat)
    | Listener
    | Connection(id: nat)
  {
    predicate IsPipeEnd() { ReadEnd? || WriteEnd? }
  }

  type Table = map<nat, Open>

  /** The three standard descriptors a process starts with. */
  datatype Std = Std(input: Open, output: Open, error: Open) {
    predicate NoPipes() { !input.IsPipeEnd() && !output.IsPipeEnd() && !error.IsPipeEnd() }
    function ToTable(): Table { map[0 := input, 1 := output, 2 := error] }
  }

  ghost function AtLeast(used: set<nat>, n: nat): set<nat> {
    set x | x in used && n <= x
  }

  /** The lowest number from `n` on that is not in use. */
  function LowestFrom(used: set<nat>, n: nat): (fd: nat)
    ensures fd !in used && n <= fd
    ensures forall m | n <= m < fd :: m in used
    decreases AtLeast(used, n)
  {
    if n !in used then n
    else
      assert n in AtLeast(used, n) && n !in AtLeast(used, n + 1);
      LowestFrom(used, n + 1)
  }

  function Lowest(t: Table): (fd: nat)
    ensures fd !in t && forall m: nat | m < fd :: m in t
  {
    LowestFrom(t.Keys, 0)
  }

  function Dup2(t: Table, from: nat, to: nat): Table
    requires from in t
  {
    t[to := t[from]]
  }

  function Close(t: Table, fd: nat): Table {
    t - {fd}
  }

  ghost predicate Holds(t: Table, e: Open) {
    exists fd :: fd in t && t[fd] == e
  }

  /** A table whose numbers are exactly 0..n-1 hands out n next. */
  lemma LowestOfDense(t: Table, n: nat)
    requires forall fd: nat :: fd in t <==> fd < n
    ensures Lowest(t) == n
  {
    assert n !in t && Lowest(t) !in t;
  }
}
