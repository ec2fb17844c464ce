/** NULL-terminated argument vectors as the shell stores and edits them. */
module Vectors {
  import opened Lists
  import opened ShellSyntax

  type Cell = Option<string>

  /** There is a NULL at or after `from`, so that scans from there stop inside the array. */
  ghost predicate Terminated(a: seq<Cell>, from: nat) {
    exists k :: from <= k < |a| && a[k] == None
  }

  /** The words a scan starting at `from` sees: up to the first NULL. */
  function Words(a: seq<Cell>, from: nat): (w: Argv)
    ensures w != [] ==> from + |w| <= |a|
    ensures forall i | 0 <= i < |w| :: a[from + i] == Some(w[i])
    ensures from + |w| < |a| ==> a[from + |w|] == None
    decreases |a| - from
  {
    if from >= |a| || a[from] == None then [] else [a[from].value] + Words(a, from + 1)
  }

  lemma {:induction false} WordsStop(a: seq<Cell>, from: nat)
    requires Terminated(a, from)
    ensures from + |Words(a, from)| < |a|
    ensures a[from + |Words(a, from)|] == None
    decreases |a| - from
  {
    if a[from] != None {
      WordsStop(a, from + 1);
    }
  }

  /** A scan stops exactly where the words end. */
  lemma CellAt(a: seq<Cell>, from: nat, i: nat)
    requires Terminated(a, from) && i <= |Words(a, from)|
    ensures from + i < |a|
    ensures a[from + i] == if i < |Words(a, from)| then Some(Words(a, from)[i]) else None
  {
    WordsStop(a, from);
  }

  /** The words are determined by the cells up to the first NULL. */
  lemma {:induction false} WordsAre(a: seq<Cell>, from: nat, w: Argv)
    requires from + |w| < |a| && a[from + |w|] == None
    requires forall i | 0 <= i < |w| :: a[from + i] == Some(w[i])
    ensures Words(a, from) == w && Terminated(a, from)
    decreases |w|
  {
    if |w| > 0 {
      assert a[from + 0] == Some(w[0]);
      forall i | 0 <= i < |w[1..]| ensures a[from + 1 + i] == Some(w[1..][i]) {
        assert a[from + (i + 1)] == Some(w[i + 1]);
      }
      WordsAre(a, from + 1, w[1..]);
    }
  }

  /** Starting later in the same vector drops the words before. */
  lemma WordsFrom(a: seq<Cell>, from: nat, d: nat)
    requires Terminated(a, from) && d <= |Words(a, from)|
    ensures Words(a, from + d) == Words(a, from)[d..] && Terminated(a, from + d)
  {
    WordsStop(a, from);
    var w := Words(a, from)[d..];
    forall i | 0 <= i < |w| ensures a[from + d + i] == Some(w[i]) {
      assert a[from + (d + i)] == Some(Words(a, from)[d + i]);
    }
    WordsAre(a, from + d, w);
  }

  /** Putting a NULL in place of word `i` keeps exactly the words before it. */
  lemma CutAt(a: seq<Cell>, b: seq<Cell>, i: nat)
    requires Terminated(a, 0) && i <= |Words(a, 0)| && i < |b|
    requires b[i] == None && forall k | 0 <= k < i :: b[k] == a[k]
    ensures Words(b, 0) == Words(a, 0)[..i] && Terminated(b, 0)
  {
    WordsStop(a, 0);
    var w := Words(a, 0)[..i];
    forall k | 0 <= k < |w| ensures b[0 + k] == Some(w[k]) {
      assert a[0 + k] == Some(Words(a, 0)[k]);
    }
    WordsAre(b, 0, w);
  }
}
