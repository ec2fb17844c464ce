/**
 The process tree: a list of nodes linked into a forest in place, then printed from its
 roots.  Positions in the list of records stand for the nodes in the specification.
 */
module PidTree {

  const SIZE: nat := 512

  datatype Rec = Rec(pid: int, ppid: int, data: string)

  datatype Line = Line(level: nat, pid: int, data: string)

  // ---- The forest the records describe -------------------------------------------------

  /** The first record with this pid, or -1. */
  function FirstWith(recs: seq<Rec>, pid: int): (i: int)
    ensures -1 <= i < |recs|
    ensures i >= 0 ==> recs[i].pid == pid && forall k | 0 <= k < i :: recs[k].pid != pid
    ensures i == -1 ==> forall k | 0 <= k < |recs| :: recs[k].pid != pid
  {
    if recs == [] then -1
    else if recs[0].pid == pid then 0
    else
      var i := FirstWith(recs[1..], pid);
      assert i == -1 ==> forall k | 1 <= k < |recs| :: recs[k] == recs[1..][k - 1];
      if i < 0 then -1 else i + 1
  }

  function ParentOf(recs: seq<Rec>, i: nat): int
    requires i < |recs|
  {
    FirstWith(recs, recs[i].ppid)
  }

  predicate Ascending(c: seq<nat>) {
    forall j, k | 0 <= j < k < |c| :: c[j] < c[k]
  }

  /** The children of `p` among the first `k` records, in list order. */
  function ChildrenUpTo(recs: seq<Rec>, p: int, k: nat): (c: seq<nat>)
    requires k <= |recs|
    ensures |c| <= k
    ensures forall j | 0 <= j < |c| :: c[j] < k && ParentOf(recs, c[j]) == p
    ensures Ascending(c)
  {
    if k == 0 then []
    else ChildrenUpTo(recs, p, k - 1) + if ParentOf(recs, k - 1) == p then [k - 1] else []
  }

  function Children(recs: seq<Rec>, p: int): seq<nat> {
    ChildrenUpTo(recs, p, |recs|)
  }

  function RootsUpTo(recs: seq<Rec>, k: nat): (c: seq<nat>)
    requires k <= |recs|
    ensures forall j | 0 <= j < |c| :: c[j] < k && recs[c[j]].ppid == 0
    ensures Ascending(c)
  {
    if k == 0 then []
    else RootsUpTo(recs, k - 1) + if recs[k - 1].ppid == 0 then [k - 1] else []
  }

  /** Kernel pids are never zero; zero as a parent marks a root. */
  ghost predicate NoZeroPid(recs: seq<Rec>) {
    forall i | 0 <= i < |recs| :: recs[i].pid != 0
  }

  ghost predicate FewChildren(recs: seq<Rec>) {
    forall p | 0 <= p < |recs| :: |Children(recs, p)| <= 511
  }

  /** The chain of parents from `i` reaches a root after exactly `d` steps. */
  ghost predicate HasDepth(recs: seq<Rec>, i: int, d: nat)
    decreases d
  {
    && 0 <= i < |recs|
    && if recs[i].ppid == 0 then d == 0
       else d > 0 && HasDepth(recs, ParentOf(recs, i), d - 1)
  }

  lemma {:induction false} DepthIsUnique(recs: seq<Rec>, i: int, d: nat, e: nat)
    requires HasDepth(recs, i, d) && HasDepth(recs, i, e)
    ensures d == e
    decreases d
  {
    if d > 0 {
      DepthIsUnique(recs, ParentOf(recs, i), d - 1, e - 1);
    }
  }

  ghost function Chain(recs: seq<Rec>, i: int, d: nat): set<int>
    requires HasDepth(recs, i, d)
    decreases d
  {
    {i} + if d == 0 then {} else Chain(recs, ParentOf(recs, i), d - 1)
  }

  ghost predicate Shallow(recs: seq<Rec>, k: int, d: nat) {
    0 <= k < |recs| && exists e: nat :: e <= d && HasDepth(recs, k, e)
  }

  lemma {:induction false} ChainIsSimple(recs: seq<Rec>, i: int, d: nat)
    requires HasDepth(recs, i, d)
    ensures |Chain(recs, i, d)| == d + 1
    ensures forall k | k in Chain(recs, i, d) :: Shallow(recs, k, d)
    decreases d
  {
    assert HasDepth(recs, i, d) && Shallow(recs, i, d);
    if d > 0 {
      var up := ParentOf(recs, i);
      ChainIsSimple(recs, up, d - 1);
      if i in Chain(recs, up, d - 1) {
        var e: nat :| e <= d - 1 && HasDepth(recs, i, e);
        DepthIsUnique(recs, i, d, e);
      }
    }
  }

  lemma {:induction false} IndicesBelow(s: set<int>, n: nat)
    requires forall k | k in s :: 0 <= k < n
    ensures |s| <= n
  {
    if n == 0 {
      assert forall k :: k !in s;
      assert s == {};
    } else {
      IndicesBelow(s - {n - 1}, n - 1);
    }
  }

  /** A node is never deeper than there are other nodes, cycles elsewhere or not. */
  lemma DepthIsBounded(recs: seq<Rec>, i: int, d: nat)
    requires HasDepth(recs, i, d)
    ensures 0 <= i < |recs| && d < |recs|
  {
    ChainIsSimple(recs, i, d);
    IndicesBelow(Chain(recs, i, d), |recs|);
  }

  lemma ChildIsDeeper(recs: seq<Rec>, i: int, d: nat)
    requires NoZeroPid(recs) && HasDepth(recs, i, d)
    ensures forall c | c in Children(recs, i) :: HasDepth(recs, c, d + 1)
  {
  }

  // ---- What is printed ----------------------------------------------------------------------

  /** The lines of the tree below `i`: positions and levels, parents first. */
  ghost function Draw(recs: seq<Rec>, i: nat, d: nat): seq<(nat, nat)>
    requires NoZeroPid(recs) && HasDepth(recs, i, d)
    decreases |recs| - d, 0
  {
    DepthIsBounded(recs, i, d);
    ChildIsDeeper(recs, i, d);
    [(i, d)] + DrawAll(recs, Children(recs, i), d + 1)
  }

  ghost function DrawAll(recs: seq<Rec>, list: seq<nat>, d: nat): seq<(nat, nat)>
    requires NoZeroPid(recs) && forall c | c in list :: HasDepth(recs, c, d)
    decreases |recs| - d, |list|
  {
    if list == [] then []
    else
      assert list[0] in list;
      DepthIsBounded(recs, list[0], d);
      Draw(recs, list[0], d) + DrawAll(recs, list[1..], d)
  }

  ghost function Forest(recs: seq<Rec>): seq<(nat, nat)>
    requires NoZeroPid(recs)
  {
    DrawAll(recs, RootsUpTo(recs, |recs|), 0)
  }

  /** The ancestor `m` steps up, or -1. */
  ghost function Up(recs: seq<Rec>, i: int, m: nat): int {
    if m == 0 then i
    else
      var u := Up(recs, i, m - 1);
      if 0 <= u < |recs| then ParentOf(recs, u) else -1
  }

  lemma {:induction false} UpHasDepth(recs: seq<Rec>, i: int, l: nat, m: nat)
    requires NoZeroPid(recs) && HasDepth(recs, i, l) && m <= l
    ensures HasDepth(recs, Up(recs, i, m), l - m)
  {
    if m > 0 {
      UpHasDepth(recs, i, l, m - 1);
    }
  }

  lemma {:induction false} ChildrenAre(recs: seq<Rec>, p: int, k: nat, c: nat)
    requires c < |recs| && k <= |recs|
    ensures c in ChildrenUpTo(recs, p, k) <==> c < k && ParentOf(recs, c) == p
  {
    if k > 0 {
      ChildrenAre(recs, p, k - 1, c);
    }
  }

  lemma {:induction false} RootsAre(recs: seq<Rec>, k: nat, c: nat)
    requires c < |recs| && k <= |recs|
    ensures c in RootsUpTo(recs, k) <==> c < k && recs[c].ppid == 0
  {
    if k > 0 {
      RootsAre(recs, k - 1, c);
    }
  }

  ghost function OneIf(b: bool): nat { if b then 1 else 0 }

  lemma {:induction false} DrawCounts(recs: seq<Rec>, r: nat, d: nat, i: nat, l: nat)
    requires NoZeroPid(recs) && HasDepth(recs, r, d)
    ensures multiset(Draw(recs, r, d))[(i, l)] == OneIf(HasDepth(recs, i, l) && l >= d && Up(recs, i, l - d) == r)
    decreases |recs| - d, 0
  {
    hide ChildrenUpTo, FirstWith;
    DepthIsBounded(recs, r, d);
    ChildIsDeeper(recs, r, d);
    var kids := Children(recs, r);
    DrawAllCounts(recs, kids, d + 1, i, l);
    assert multiset(Draw(recs, r, d)) == multiset{(r, d)} + multiset(DrawAll(recs, kids, d + 1));
    hide Draw, DrawAll;
    if HasDepth(recs, i, l) {
      if l > d {
        UpHasDepth(recs, i, l, l - d - 1);
        ChildrenAre(recs, r, |recs|, Up(recs, i, l - d - 1));
      } else if l == d {
        assert Up(recs, i, 0) == i;
      }
    }
  }

  lemma {:induction false} DrawAllCounts(recs: seq<Rec>, list: seq<nat>, d: nat, i: nat, l: nat)
    requires NoZeroPid(recs) && Ascending(list) && forall c | c in list :: HasDepth(recs, c, d)
    ensures multiset(DrawAll(recs, list, d))[(i, l)]
         == OneIf(HasDepth(recs, i, l) && l >= d && Up(recs, i, l - d) in list)
    decreases |recs| - d, |list|
  {
    if list != [] {
      assert list[0] in list;
      DepthIsBounded(recs, list[0], d);
      DrawCounts(recs, list[0], d, i, l);
      DrawAllCounts(recs, list[1..], d, i, l);
      assert multiset(DrawAll(recs, list, d))
          == multiset(Draw(recs, list[0], d)) + multiset(DrawAll(recs, list[1..], d));
    }
  }

  /**
   Every node whose chain of parents reaches a root is printed exactly once, at its depth,
   and no other node is printed, however the remaining parents are linked.
   */
  lemma ForestPrintsEachOnce(recs: seq<Rec>, i: nat, l: nat)
    requires NoZeroPid(recs)
    ensures multiset(Forest(recs))[(i, l)] == OneIf(HasDepth(recs, i, l))
  {
    var roots := RootsUpTo(recs, |recs|);
    DrawAllCounts(recs, roots, 0, i, l);
    if HasDepth(recs, i, l) {
      UpHasDepth(recs, i, l, l);
      RootsAre(recs, |recs|, Up(recs, i, l));
    }
  }

  /** Entry `u` is the parent of entry `t`: the last line before it that is less indented. */
  ghost predicate IsParentLine(recs: seq<Rec>, drawn: seq<(nat, nat)>, u: nat, t: nat)
    requires u < t < |drawn| && drawn[t].0 < |recs|
  {
    && drawn[u].0 == ParentOf(recs, drawn[t].0) && drawn[u].1 + 1 == drawn[t].1
    && forall v | u < v < t :: drawn[v].1 >= drawn[t].1
  }

  /** No line is left of `d`, and each line further right has its parent line above it. */
  ghost predicate Indented(recs: seq<Rec>, drawn: seq<(nat, nat)>, d: nat) {
    forall t | 0 <= t < |drawn| :: EntryOk(recs, drawn, d, t)
  }

  ghost predicate EntryOk(recs: seq<Rec>, drawn: seq<(nat, nat)>, d: nat, t: nat)
    requires t < |drawn|
  {
    && drawn[t].0 < |recs| && drawn[t].1 >= d
    && (drawn[t].1 > d ==> exists u: nat :: u < t && IsParentLine(recs, drawn, u, t))
  }

  lemma IndentedConcat(recs: seq<Rec>, a: seq<(nat, nat)>, b: seq<(nat, nat)>, d: nat)
    requires Indented(recs, a, d) && Indented(recs, b, d)
    ensures Indented(recs, a + b, d)
  {
    var c := a + b;
    forall t | 0 <= t < |c| ensures EntryOk(recs, c, d, t) {
      if t < |a| {
        assert EntryOk(recs, a, d, t) && c[t] == a[t];
        if a[t].1 > d {
          var u: nat :| u < t && IsParentLine(recs, a, u, t);
          assert IsParentLine(recs, c, u, t);
        }
      } else {
        var t' := t - |a|;
        assert EntryOk(recs, b, d, t') && c[t] == b[t'];
        if b[t'].1 > d {
          var u: nat :| u < t' && IsParentLine(recs, b, u, t');
          ParentLineShifts(recs, a, b, u, t');
        }
      }
    }
  }

  lemma IndentedUnder(recs: seq<Rec>, r: nat, d: nat, b: seq<(nat, nat)>)
    requires r < |recs| && Indented(recs, b, d + 1)
    requires forall t | 0 <= t < |b| :: b[t].0 < |recs| && b[t].1 >= d + 1
    requires forall t | 0 <= t < |b| && b[t].1 == d + 1 :: ParentOf(recs, b[t].0) == r
    ensures Indented(recs, [(r, d)] + b, d)
  {
    forall t | 0 <= t < |[(r, d)] + b| ensures EntryOk(recs, [(r, d)] + b, d, t) {
      hide Indented;
      if t > 0 {
        assert EntryOk(recs, b, d + 1, t - 1) by { EntryAt(recs, b, d + 1, t - 1); }
        EntryUnder(recs, r, d, b, t - 1);
      }
    }
  }

  lemma EntryAt(recs: seq<Rec>, drawn: seq<(nat, nat)>, d: nat, t: nat)
    requires Indented(recs, drawn, d) && t < |drawn|
    ensures EntryOk(recs, drawn, d, t)
  {
  }

  lemma EntryUnder(recs: seq<Rec>, r: nat, d: nat, b: seq<(nat, nat)>, t: nat)
    requires r < |recs| && t < |b| && EntryOk(recs, b, d + 1, t)
    requires b[t].1 == d + 1 ==> ParentOf(recs, b[t].0) == r
    requires forall v | 0 <= v < t :: b[v].1 >= d + 1
    ensures EntryOk(recs, [(r, d)] + b, d, t + 1)
  {
    var c := [(r, d)] + b;
    assert c[t + 1] == b[t];
    if b[t].1 > d + 1 {
      var u: nat :| u < t && IsParentLine(recs, b, u, t);
      ParentLineShifts(recs, [(r, d)], b, u, t);
    } else {
      TopParentLine(recs, (r, d), b, t);
    }
  }

  lemma ParentLineShifts(recs: seq<Rec>, a: seq<(nat, nat)>, b: seq<(nat, nat)>, u: nat, t: nat)
    requires u < t < |b| && b[t].0 < |recs| && IsParentLine(recs, b, u, t)
    ensures IsParentLine(recs, a + b, u + |a|, t + |a|)
  {
    var c := a + b;
    forall v | u + |a| < v < t + |a| ensures c[v].1 >= c[t + |a|].1 {
      var w := v - |a|;
      assert c[v] == b[w] && u < w < t;
    }
  }

  lemma TopParentLine(recs: seq<Rec>, x: (nat, nat), b: seq<(nat, nat)>, t: nat)
    requires t < |b| && b[t].0 < |recs| && b[t].1 == x.1 + 1 && ParentOf(recs, b[t].0) == x.0
    requires forall v | 0 <= v < t :: b[v].1 >= x.1 + 1
    ensures IsParentLine(recs, [x] + b, 0, t + 1)
  {
    var c := [x] + b;
    forall v | 0 < v < t + 1 ensures c[v].1 >= c[t + 1].1 {
      var w := v - 1;
      assert c[v] == b[w] && 0 <= w < t;
    }
  }

  lemma {:induction false} DrawIsIndented(recs: seq<Rec>, i: nat, d: nat)
    requires NoZeroPid(recs) && HasDepth(recs, i, d)
    ensures Indented(recs, Draw(recs, i, d), d)
    ensures forall e | e in Draw(recs, i, d) :: e.1 == d ==> e.0 == i
    decreases |recs| - d, 0
  {
    hide Indented, ChildrenUpTo;
    DepthIsBounded(recs, i, d);
    ChildIsDeeper(recs, i, d);
    var kids := Children(recs, i);
    var below := DrawAll(recs, kids, d + 1);
    DrawAllIsIndented(recs, kids, d + 1);
    LevelsOf(recs, below, d + 1);
    forall t | 0 <= t < |below| && below[t].1 == d + 1 ensures ParentOf(recs, below[t].0) == i {
      assert below[t] in below;
      var j :| 0 <= j < |kids| && kids[j] == below[t].0;
    }
    IndentedUnder(recs, i, d, below);
  }

  lemma LevelsOf(recs: seq<Rec>, drawn: seq<(nat, nat)>, d: nat)
    requires Indented(recs, drawn, d)
    ensures forall t | 0 <= t < |drawn| :: drawn[t].0 < |recs| && drawn[t].1 >= d
  {
    forall t | 0 <= t < |drawn| ensures drawn[t].0 < |recs| && drawn[t].1 >= d {
      assert EntryOk(recs, drawn, d, t);
    }
  }

  lemma {:induction false} DrawAllIsIndented(recs: seq<Rec>, list: seq<nat>, d: nat)
    requires NoZeroPid(recs) && forall c | c in list :: HasDepth(recs, c, d)
    ensures Indented(recs, DrawAll(recs, list, d), d)
    ensures forall e | e in DrawAll(recs, list, d) :: e.1 == d ==> e.0 in list
    decreases |recs| - d, |list|
  {
    if list != [] {
      hide Indented;
      assert list[0] in list;
      DepthIsBounded(recs, list[0], d);
      DrawIsIndented(recs, list[0], d);
      DrawAllIsIndented(recs, list[1..], d);
      IndentedConcat(recs, Draw(recs, list[0], d), DrawAll(recs, list[1..], d), d);
    }
  }

  /**
   The drawing determines the tree: for every printed line below a root, the last line
   above it that is less indented is the line of its parent, one level to the left.
   */
  lemma IndentationShowsParents(recs: seq<Rec>, t: nat)
    requires NoZeroPid(recs) && t < |Forest(recs)| && Forest(recs)[t].1 > 0
    ensures Forest(recs)[t].0 < |recs|
    ensures exists u: nat :: u < t && IsParentLine(recs, Forest(recs), u, t)
  {
    var roots := RootsUpTo(recs, |recs|);
    DrawAllIsIndented(recs, roots, 0);
    assert EntryOk(recs, Forest(recs), 0, t);
  }

  // ---- Siblings stand in list order --------------------------------------------------------------

  ghost predicate InRange(recs: seq<Rec>, drawn: seq<(nat, nat)>) {
    forall t | 0 <= t < |drawn| :: drawn[t].0 < |recs|
  }

  ghost predicate SiblingsAscend(recs: seq<Rec>, drawn: seq<(nat, nat)>)
    requires InRange(recs, drawn)
  {
    forall t, u | 0 <= t < u < |drawn| && recs[drawn[t].0].ppid == recs[drawn[u].0].ppid :: drawn[t].0 < drawn[u].0
  }

  lemma {:induction false} UpFromParent(recs: seq<Rec>, i: nat, m: nat)
    requires i < |recs| && m > 0
    ensures Up(recs, i, m) == Up(recs, ParentOf(recs, i), m - 1)
  {
    if m > 1 {
      UpFromParent(recs, i, m - 1);
    } else {
      assert Up(recs, i, 1) == (var u := Up(recs, i, 0); ParentOf(recs, u));
    }
  }

  lemma SiblingsHaveOneDepth(recs: seq<Rec>, i: nat, l: nat, j: nat, m: nat)
    requires i < |recs| && j < |recs| && recs[i].ppid == recs[j].ppid && HasDepth(recs, i, l) && HasDepth(recs, j, m)
    ensures l == m
  {
    if recs[i].ppid != 0 {
      DepthIsUnique(recs, ParentOf(recs, i), l - 1, m - 1);
    }
  }

  lemma OtherDepthOtherParent(recs: seq<Rec>, i: nat, l: nat, j: nat, m: nat)
    requires i < |recs| && j < |recs| && HasDepth(recs, i, l) && HasDepth(recs, j, m) && l != m
    ensures recs[i].ppid != recs[j].ppid
  {
    if recs[i].ppid == recs[j].ppid {
      SiblingsHaveOneDepth(recs, i, l, j, m);
    }
  }

  lemma InDrawAll(recs: seq<Rec>, list: seq<nat>, d: nat, e: (nat, nat))
    requires NoZeroPid(recs) && Ascending(list) && (forall c | c in list :: HasDepth(recs, c, d))
    requires e in DrawAll(recs, list, d)
    ensures HasDepth(recs, e.0, e.1) && e.1 >= d && Up(recs, e.0, e.1 - d) in list
  {
    hide HasDepth, DrawAll, Up, NoZeroPid;
    DrawAllCounts(recs, list, d, e.0, e.1);
    assert (e.0, e.1) == e && e in multiset(DrawAll(recs, list, d));
  }

  lemma InDraw(recs: seq<Rec>, r: nat, d: nat, e: (nat, nat))
    requires NoZeroPid(recs) && HasDepth(recs, r, d) && e in Draw(recs, r, d)
    ensures HasDepth(recs, e.0, e.1) && e.1 >= d && Up(recs, e.0, e.1 - d) == r
  {
    hide HasDepth, Draw, Up, NoZeroPid;
    DrawCounts(recs, r, d, e.0, e.1);
    assert (e.0, e.1) == e && e in multiset(Draw(recs, r, d));
  }

  /** A line of the first tree comes before its sibling in a later one. */
  lemma AcrossTrees(recs: seq<Rec>, list: seq<nat>, d: nat, x: (nat, nat), y: (nat, nat))
    requires NoZeroPid(recs) && list != [] && Ascending(list) && (forall c | c in list :: HasDepth(recs, c, d))
    requires HasDepth(recs, list[0], d) && (forall c | c in list[1..] :: HasDepth(recs, c, d)) && Ascending(list[1..])
    requires x in Draw(recs, list[0], d) && y in DrawAll(recs, list[1..], d)
    requires x.0 < |recs| && y.0 < |recs| && recs[x.0].ppid == recs[y.0].ppid
    ensures x.0 < y.0
  {
    hide HasDepth, Draw, DrawAll, NoZeroPid, Up, Ascending;
    InDraw(recs, list[0], d, x);
    InDrawAll(recs, list[1..], d, y);
    SiblingsHaveOneDepth(recs, x.0, x.1, y.0, y.1);
    var top := Up(recs, y.0, y.1 - d);
    FirstIsLess(list, top);
    if x.1 == d {
      UpNone(recs, x.0);
      UpNone(recs, y.0);
    } else {
      SameTop(recs, x.0, y.0, x.1 - d);
    }
  }

  lemma UpNone(recs: seq<Rec>, i: int)
    ensures Up(recs, i, 0) == i
  {
  }

  lemma SameTop(recs: seq<Rec>, i: nat, j: nat, m: nat)
    requires i < |recs| && j < |recs| && recs[i].ppid == recs[j].ppid && m > 0
    ensures Up(recs, i, m) == Up(recs, j, m)
  {
    UpFromParent(recs, i, m);
    UpFromParent(recs, j, m);
  }

  lemma FirstIsLess(list: seq<nat>, v: int)
    requires list != [] && Ascending(list) && v in list[1..]
    ensures list[0] < v
  {
    var k :| 0 <= k < |list[1..]| && list[1..][k] == v;
    assert list[k + 1] == v;
  }

  lemma SiblingsOfBoth(recs: seq<Rec>, a: seq<(nat, nat)>, b: seq<(nat, nat)>)
    requires InRange(recs, a) && InRange(recs, b) && SiblingsAscend(recs, a) && SiblingsAscend(recs, b)
    requires forall x, y | x in a && y in b && recs[x.0].ppid == recs[y.0].ppid :: x.0 < y.0
    ensures InRange(recs, a + b) && SiblingsAscend(recs, a + b)
  {
    var both := a + b;
    forall t, u | 0 <= t < u < |both| && recs[both[t].0].ppid == recs[both[u].0].ppid ensures both[t].0 < both[u].0 {
      if t < |a| <= u {
        assert both[t] in a && both[u] in b;
      }
    }
  }

  lemma {:induction false} DrawSiblings(recs: seq<Rec>, r: nat, d: nat)
    requires NoZeroPid(recs) && HasDepth(recs, r, d)
    ensures InRange(recs, Draw(recs, r, d)) && SiblingsAscend(recs, Draw(recs, r, d))
    decreases |recs| - d, 0
  {
    DepthIsBounded(recs, r, d);
    ChildIsDeeper(recs, r, d);
    var kids := Children(recs, r);
    var below := DrawAll(recs, kids, d + 1);
    DrawAllSiblings(recs, kids, d + 1);
    assert Draw(recs, r, d) == [(r, d)] + below;
    hide Draw, DrawAll, ChildrenUpTo;
    forall y | y in below ensures recs[r].ppid != recs[y.0].ppid {
      InDrawAll(recs, kids, d + 1, y);
      OtherDepthOtherParent(recs, r, d, y.0, y.1);
    }
    SiblingsOfBoth(recs, [(r, d)], below);
  }

  lemma {:induction false} DrawAllSiblings(recs: seq<Rec>, list: seq<nat>, d: nat)
    requires NoZeroPid(recs) && Ascending(list) && forall c | c in list :: HasDepth(recs, c, d)
    ensures InRange(recs, DrawAll(recs, list, d)) && SiblingsAscend(recs, DrawAll(recs, list, d))
    decreases |recs| - d, |list|
  {
    if list != [] {
      assert list[0] in list;
      DepthIsBounded(recs, list[0], d);
      var first, others := Draw(recs, list[0], d), DrawAll(recs, list[1..], d);
      assert DrawAll(recs, list, d) == first + others;
      DrawSiblings(recs, list[0], d);
      DrawAllSiblings(recs, list[1..], d);
      hide HasDepth, Draw, DrawAll, NoZeroPid;
      forall x, y | x in first && y in others && recs[x.0].ppid == recs[y.0].ppid ensures x.0 < y.0 {
        AcrossTrees(recs, list, d, x, y);
      }
      SiblingsOfBoth(recs, first, others);
    }
  }

  // ---- The list of nodes --------------------------------------------------------------------

  class Node {
    var next: Node?
    var parent: Node?
    const children: array<Node?>
    const rec: Rec

    constructor (rec: Rec)
      ensures this.rec == rec && next == null && parent == null
      ensures fresh(children) && children.Length == SIZE && children[0] == null
    {
      this.rec := rec;
      next := null;
      parent := null;
      children := new Node?[SIZE];
      new;
      children[0] := null;
    }
  }

  /** The nodes linked from `head`, in order, carry the records, each with its own array. */
  ghost predicate IsList(head: Node?, nodes: seq<Node>, recs: seq<Rec>)
    reads (set n | n in nodes)`next
  {
    && |nodes| == |recs|
    && head == (if nodes == [] then null else nodes[0])
    && (forall i | 0 <= i < |nodes| :: nodes[i].rec == recs[i] && nodes[i].children.Length == SIZE)
    && (forall i, j | 0 <= i < j < |nodes| ::
          && nodes[i] != nodes[j] && nodes[i].children != nodes[j].children
          && (i + 1 == j ==> nodes[i].next == nodes[j]))
    && (nodes != [] ==> nodes[|nodes| - 1].next == null)
  }

  ghost function Arrays(nodes: seq<Node>): (a: seq<array<Node?>>)
    ensures |a| == |nodes| && forall i | 0 <= i < |a| :: a[i] == nodes[i].children
  {
    seq(|nodes|, i requires 0 <= i < |nodes| => nodes[i].children)
  }

  /** The first cells of an array are the listed nodes, then comes a NULL. */
  ghost predicate Holds(cells: seq<Node?>, nodes: seq<Node>, list: seq<nat>) {
    && |list| < |cells|
    && (forall j | 0 <= j < |list| :: list[j] < |nodes| && cells[j] == nodes[list[j]])
    && cells[|list|] == null
  }

  ghost function Cells(nodes: seq<Node>): (cells: seq<seq<Node?>>)
    reads Arrays(nodes)
    ensures |cells| == |nodes| && forall p | 0 <= p < |cells| :: cells[p] == nodes[p].children[..]
  {
    if nodes == [] then []
    else
      var last := |nodes| - 1;
      assert Arrays(nodes[..last]) == Arrays(nodes)[..last];
      Cells(nodes[..last]) + [nodes[last].children[..]]
  }

  ghost predicate KidsIn(cells: seq<seq<Node?>>, nodes: seq<Node>, recs: seq<Rec>, k: nat)
    requires k <= |recs| == |nodes| == |cells|
  {
    forall p | 0 <= p < |nodes| :: Holds(cells[p], nodes, ChildrenUpTo(recs, p, k))
  }

  /** The first `k` nodes are in the arrays of their parents. */
  ghost predicate KidsOk(nodes: seq<Node>, recs: seq<Rec>, k: nat)
    requires k <= |recs| == |nodes|
    reads Arrays(nodes)
  {
    KidsIn(Cells(nodes), nodes, recs, k)
  }

  ghost predicate ParentsOk(nodes: seq<Node>, recs: seq<Rec>, k: nat)
    requires k <= |recs| == |nodes|
    reads (set n | n in nodes)`parent
  {
    forall i | 0 <= i < |nodes| ::
      nodes[i].parent == if i < k && ParentOf(recs, i) >= 0 then nodes[ParentOf(recs, i)] else null
  }

  /** A node that has not been linked yet. */
  ghost predicate Bare(node: Node)
    reads node`parent, node.children
  {
    node.children.Length > 0 && node.children[0] == null && node.parent == null
  }

  /** A new node at the end of the list. */
  method Append(rec: Rec, head: Node?, prev: Node?, ghost nodes: seq<Node>, ghost recs: seq<Rec>)
    returns (newHead: Node?, node: Node)
    requires IsList(head, nodes, recs) && prev == if nodes == [] then null else nodes[|nodes| - 1]
    modifies (set n | n in nodes)`next
    ensures fresh(node) && fresh(node.children) && Bare(node)
    ensures IsList(newHead, nodes + [node], recs + [rec])
  {
    newHead := head;
    node := new Node(rec);
    if prev == null {
      newHead := node;
    } else {
      prev.next := node;
    }
  }

  /** One node per record, in order. */
  method Build(recs: seq<Rec>) returns (head: Node?, ghost nodes: seq<Node>)
    ensures |nodes| == |recs| && IsList(head, nodes, recs)
    ensures KidsOk(nodes, recs, 0) && ParentsOk(nodes, recs, 0)
    ensures fresh(nodes) && fresh(Arrays(nodes))
  {
    hide IsList;
    head := null;
    nodes := [];
    var prev: Node? := null;
    assert IsList(head, nodes, recs[..0]) by { EmptyIsList(recs); }
    for i := 0 to |recs|
      invariant IsList(head, nodes, recs[..i])
      invariant prev == if nodes == [] then null else nodes[|nodes| - 1]
      invariant forall p | 0 <= p < |nodes| :: Bare(nodes[p])
      invariant fresh(nodes) && fresh(Arrays(nodes))
    {
      var node;
      head, node := Append(recs[i], head, prev, nodes, recs[..i]);
      assert recs[..i + 1] == recs[..i] + [recs[i]];
      assert Arrays(nodes + [node]) == Arrays(nodes) + [node.children];
      prev := node;
      nodes := nodes + [node];
    }
    assert recs[..|recs|] == recs;
    assert |nodes| == |recs| by { ListLength(head, nodes, recs); }
  }

  lemma EmptyIsList(recs: seq<Rec>)
    ensures IsList(null, [], recs[..0])
  {
  }

  lemma ListLength(head: Node?, nodes: seq<Node>, recs: seq<Rec>)
    requires IsList(head, nodes, recs)
    ensures |nodes| == |recs|
  {
  }

  method FindParent(head: Node?, pid: int, ghost nodes: seq<Node>, ghost recs: seq<Rec>) returns (node: Node?)
    requires IsList(head, nodes, recs)
    ensures node == if FirstWith(recs, pid) >= 0 then nodes[FirstWith(recs, pid)] else null
  {
    node := head;
    ghost var i := 0;
    while node != null
      invariant 0 <= i <= |nodes|
      invariant node == if i < |nodes| then nodes[i] else null
      invariant forall k | 0 <= k < i :: recs[k].pid != pid
      decreases |nodes| - i
    {
      if node.rec.pid == pid {
        return;
      }
      node := node.next;
      i := i + 1;
    }
  }

  lemma {:induction false} ChildrenGrow(recs: seq<Rec>, p: int, k: nat, m: nat)
    requires k <= m <= |recs|
    ensures |ChildrenUpTo(recs, p, k)| <= |ChildrenUpTo(recs, p, m)|
    decreases m
  {
    if k < m {
      ChildrenGrow(recs, p, k, m - 1);
    }
  }

  /** Appends a node to the children of its parent. */
  method Adopt(parent: Node, node: Node, ghost nodes: seq<Node>, ghost list: seq<nat>, ghost k: nat)
    requires Holds(parent.children[..], nodes, list) && |list| + 1 < parent.children.Length
    requires k < |nodes| && nodes[k] == node
    modifies parent.children, node`parent
    ensures node.parent == parent && Holds(parent.children[..], nodes, list + [k])
  {
    node.parent := parent;
    var child := 0;
    while parent.children[child] != null
      invariant 0 <= child <= |list|
      decreases |list| - child
    {
      child := child + 1;
    }
    parent.children[child] := node;
    parent.children[child + 1] := null;
  }

  /** One pass of the linking loop, for the node at position `k`. */
  method LinkOne(head: Node?, node: Node, ghost nodes: seq<Node>, ghost recs: seq<Rec>, ghost k: nat)
    requires IsList(head, nodes, recs) && k < |nodes| && node == nodes[k] && FewChildren(recs)
    requires KidsOk(nodes, recs, k) && ParentsOk(nodes, recs, k)
    modifies node`parent, Arrays(nodes)
    ensures KidsOk(nodes, recs, k + 1) && ParentsOk(nodes, recs, k + 1)
  {
    hide FirstWith, ChildrenUpTo, Holds, Cells, KidsIn, Arrays;
    assert forall i | 0 <= i < |nodes| && i != k :: nodes[i] != node;
    assert forall i, j | 0 <= i < |nodes| && 0 <= j < |nodes| && i != j :: nodes[i].children != nodes[j].children;
    assert node.rec == recs[k];
    ghost var before := Cells(nodes);
    ghost var p := ParentOf(recs, k);
    ghost var list := ChildrenUpTo(recs, p, k);
    var parent := FindParent(head, node.rec.ppid, nodes, recs);
    hide IsList;
    if parent != null {
      ChildrenStep(recs, p, k);
      ChildrenGrow(recs, p, k + 1, |recs|);
      KidsAt(before, nodes, recs, k, p);
      assert |Children(recs, p)| < SIZE;
      Adopt(parent, node, nodes, list, k);
      forall q | 0 <= q < |nodes| && q != p ensures Cells(nodes)[q] == before[q] {
        assert nodes[q].children != nodes[p].children;
      }
    }
    KidsStep(before, Cells(nodes), nodes, recs, k);
  }

  lemma KidsAt(cells: seq<seq<Node?>>, nodes: seq<Node>, recs: seq<Rec>, k: nat, p: nat)
    requires k <= |recs| == |nodes| == |cells| && p < |recs| && KidsIn(cells, nodes, recs, k)
    ensures Holds(cells[p], nodes, ChildrenUpTo(recs, p, k))
  {
  }

  lemma KidsStep(before: seq<seq<Node?>>, after: seq<seq<Node?>>, nodes: seq<Node>, recs: seq<Rec>, k: nat)
    requires k < |recs| == |nodes| == |before| == |after| && KidsIn(before, nodes, recs, k)
    requires forall q | 0 <= q < |nodes| && q != ParentOf(recs, k) :: after[q] == before[q]
    requires var p := ParentOf(recs, k);
      p >= 0 ==> Holds(after[p], nodes, ChildrenUpTo(recs, p, k) + [k])
    ensures KidsIn(after, nodes, recs, k + 1)
  {
    hide Holds, FirstWith, ChildrenUpTo;
    forall q | 0 <= q < |nodes| ensures Holds(after[q], nodes, ChildrenUpTo(recs, q, k + 1)) {
      ChildrenStep(recs, q, k);
    }
  }

  lemma ChildrenStep(recs: seq<Rec>, p: int, k: nat)
    requires k < |recs|
    ensures ChildrenUpTo(recs, p, k + 1)
         == if ParentOf(recs, k) == p then ChildrenUpTo(recs, p, k) + [k] else ChildrenUpTo(recs, p, k)
  {
  }

  method Link(head: Node?, ghost nodes: seq<Node>, ghost recs: seq<Rec>)
    requires IsList(head, nodes, recs) && FewChildren(recs)
    requires KidsOk(nodes, recs, 0) && ParentsOk(nodes, recs, 0)
    modifies nodes`parent, Arrays(nodes)
    ensures IsList(head, nodes, recs) && KidsOk(nodes, recs, |recs|) && ParentsOk(nodes, recs, |recs|)
  {
    hide KidsOk, ParentsOk, FewChildren;
    var node := head;
    ghost var k := 0;
    while node != null
      invariant 0 <= k <= |nodes| && node == if k < |nodes| then nodes[k] else null
      invariant IsList(head, nodes, recs) && KidsOk(nodes, recs, k) && ParentsOk(nodes, recs, k)
      decreases |nodes| - k
    {
      LinkOne(head, node, nodes, recs, k);
      assert IsList(head, nodes, recs) && node == nodes[k];
      assert node.next == if k + 1 < |nodes| then nodes[k + 1] else null;
      node := node.next;
      k := k + 1;
    }
  }

  // ---- Printing ------------------------------------------------------------------------

  ghost function Render(recs: seq<Rec>, drawn: seq<(nat, nat)>): (lines: seq<Line>)
    requires forall j | 0 <= j < |drawn| :: drawn[j].0 < |recs|
    ensures |lines| == |drawn|
  {
    seq(|drawn|, j requires 0 <= j < |drawn| => Line(drawn[j].1, recs[drawn[j].0].pid, recs[drawn[j].0].data))
  }

  lemma {:induction false} DrawInRange(recs: seq<Rec>, i: nat, d: nat)
    requires NoZeroPid(recs) && HasDepth(recs, i, d)
    ensures forall e | e in Draw(recs, i, d) :: e.0 < |recs|
    decreases |recs| - d, 0
  {
    DepthIsBounded(recs, i, d);
    ChildIsDeeper(recs, i, d);
    DrawAllInRange(recs, Children(recs, i), d + 1);
  }

  lemma {:induction false} DrawAllInRange(recs: seq<Rec>, list: seq<nat>, d: nat)
    requires NoZeroPid(recs) && forall c | c in list :: HasDepth(recs, c, d)
    ensures forall e | e in DrawAll(recs, list, d) :: e.0 < |recs|
    decreases |recs| - d, |list|
  {
    if list != [] {
      assert list[0] in list;
      DepthIsBounded(recs, list[0], d);
      DrawInRange(recs, list[0], d);
      DrawAllInRange(recs, list[1..], d);
    }
  }

  lemma {:induction false} RenderAppends(recs: seq<Rec>, a: seq<(nat, nat)>, b: seq<(nat, nat)>)
    requires forall j | 0 <= j < |a| :: a[j].0 < |recs|
    requires forall j | 0 <= j < |b| :: b[j].0 < |recs|
    ensures forall j | 0 <= j < |a + b| :: (a + b)[j].0 < |recs|
    ensures Render(recs, a + b) == Render(recs, a) + Render(recs, b)
  {
  }

  lemma {:induction false} DrawAllAppends(recs: seq<Rec>, list: seq<nat>, c: nat, d: nat)
    requires NoZeroPid(recs) && HasDepth(recs, c, d) && forall e | e in list :: HasDepth(recs, e, d)
    ensures forall e | e in list + [c] :: HasDepth(recs, e, d)
    ensures DrawAll(recs, list + [c], d) == DrawAll(recs, list, d) + Draw(recs, c, d)
    decreases |list|
  {
    hide HasDepth, FirstWith, NoZeroPid;
    DepthIsBounded(recs, c, d);
    if list == [] {
      assert [c][1..] == [];
    } else {
      assert list[0] in list;
      DepthIsBounded(recs, list[0], d);
      assert (list + [c])[1..] == list[1..] + [c];
      DrawAllAppends(recs, list[1..], c, d);
    }
  }

  // ---- The lines themselves ----------------------------------------------------------------------

  ghost predicate DistinctPids(recs: seq<Rec>) {
    forall i, j | 0 <= i < j < |recs| :: recs[i].pid != recs[j].pid
  }

  /** Each node of the chain names the next one as its parent, and the last one is a root. */
  ghost predicate IsChain(recs: seq<Rec>, chain: seq<nat>) {
    && chain != [] && (forall j | 0 <= j < |chain| :: chain[j] < |recs|)
    && recs[chain[|chain| - 1]].ppid == 0
    && forall j, k | 0 <= j < |chain| - 1 && k == j + 1 :: recs[chain[j]].ppid == recs[chain[k]].pid
  }

  /** Node `i` is `l` steps below a root. */
  ghost predicate ChainOf(recs: seq<Rec>, i: nat, l: nat) {
    exists chain :: IsChain(recs, chain) && |chain| == l + 1 && chain[0] == i
  }

  lemma {:induction false} DepthHasChain(recs: seq<Rec>, i: nat, l: nat)
    requires HasDepth(recs, i, l)
    ensures ChainOf(recs, i, l)
    decreases l
  {
    if l == 0 {
      assert IsChain(recs, [i]);
    } else {
      var p := ParentOf(recs, i);
      DepthHasChain(recs, p, l - 1);
      var up :| IsChain(recs, up) && |up| == l && up[0] == p;
      assert IsChain(recs, [i] + up);
    }
  }

  lemma {:induction false} ChainHasDepth(recs: seq<Rec>, chain: seq<nat>)
    requires NoZeroPid(recs) && DistinctPids(recs) && IsChain(recs, chain)
    ensures HasDepth(recs, chain[0], |chain| - 1)
    decreases |chain|
  {
    if |chain| > 1 {
      assert recs[chain[0]].ppid == recs[chain[1]].pid;
      assert IsChain(recs, chain[1..]);
      ChainHasDepth(recs, chain[1..]);
      assert ParentOf(recs, chain[0]) == chain[1];
    }
  }

  lemma DepthIsChain(recs: seq<Rec>, i: nat, l: nat)
    requires NoZeroPid(recs) && DistinctPids(recs)
    ensures HasDepth(recs, i, l) <==> ChainOf(recs, i, l)
  {
    if HasDepth(recs, i, l) {
      DepthHasChain(recs, i, l);
    }
    if ChainOf(recs, i, l) {
      var chain :| IsChain(recs, chain) && |chain| == l + 1 && chain[0] == i;
      ChainHasDepth(recs, chain);
    }
  }

  /** Exactly the nodes below a root are printed, once, with their level, pid and name. */
  ghost predicate PrintsForest(recs: seq<Rec>, lines: seq<Line>) {
    && (forall i: nat, l: nat | i < |recs| :: PrintsOnce(recs, lines, i, l))
    && forall t | 0 <= t < |lines| :: IsSomeLine(recs, lines[t])
  }

  ghost predicate IsSomeLine(recs: seq<Rec>, line: Line) {
    exists i: nat :: IsLineOf(recs, i, line)
  }

  ghost predicate PrintsOnce(recs: seq<Rec>, lines: seq<Line>, i: nat, l: nat)
    requires i < |recs|
  {
    multiset(lines)[Line(l, recs[i].pid, recs[i].data)] == if ChainOf(recs, i, l) then 1 else 0
  }

  predicate IsLineOf(recs: seq<Rec>, i: nat, line: Line) {
    i < |recs| && line.pid == recs[i].pid && line.data == recs[i].data
  }

  /** The last line above with a smaller level is the parent's. */
  ghost predicate ParentLineAt(recs: seq<Rec>, lines: seq<Line>, u: nat, t: nat, i: nat) {
    && u < t < |lines| && IsLineOf(recs, i, lines[t])
    && lines[u].pid == recs[i].ppid && lines[u].level + 1 == lines[t].level
    && forall v | u < v < t :: lines[v].level >= lines[t].level
  }

  ghost predicate ShowsParents(recs: seq<Rec>, lines: seq<Line>) {
    forall t: nat | t < |lines| && lines[t].level > 0 :: exists u: nat, i: nat :: ParentLineAt(recs, lines, u, t, i)
  }

  /** Lines of nodes with the same parent, or of roots, stand in the order of the records. */
  ghost predicate KeepsOrder(recs: seq<Rec>, lines: seq<Line>) {
    forall t: nat, u: nat, i: nat, j: nat
      | t < u < |lines| && IsLineOf(recs, i, lines[t]) && IsLineOf(recs, j, lines[u]) && recs[i].ppid == recs[j].ppid
      :: i < j
  }

  lemma RenderAt(recs: seq<Rec>, drawn: seq<(nat, nat)>, t: nat)
    requires (forall j | 0 <= j < |drawn| :: drawn[j].0 < |recs|) && t < |drawn|
    ensures Render(recs, drawn)[t] == Line(drawn[t].1, recs[drawn[t].0].pid, recs[drawn[t].0].data)
    ensures DistinctPids(recs) ==> forall i: nat :: IsLineOf(recs, i, Render(recs, drawn)[t]) <==> i == drawn[t].0
  {
  }

  lemma {:induction false} RenderCounts(recs: seq<Rec>, drawn: seq<(nat, nat)>, i: nat, l: nat)
    requires (forall j | 0 <= j < |drawn| :: drawn[j].0 < |recs|) && DistinctPids(recs) && i < |recs|
    ensures multiset(Render(recs, drawn))[Line(l, recs[i].pid, recs[i].data)] == multiset(drawn)[(i, l)]
  {
    if drawn != [] {
      var first, others := drawn[0], drawn[1..];
      RenderCounts(recs, others, i, l);
      assert drawn == [first] + others;
      RenderAppends(recs, [first], others);
      RenderAt(recs, [first], 0);
      assert Render(recs, [first]) == [Line(first.1, recs[first.0].pid, recs[first.0].data)];
      hide Render, DistinctPids;
      assert first == (i, l) <==> Line(first.1, recs[first.0].pid, recs[first.0].data)
                                  == Line(l, recs[i].pid, recs[i].data) by { LineIsOwn(recs, first, i, l); }
    }
  }

  lemma LineIsOwn(recs: seq<Rec>, e: (nat, nat), i: nat, l: nat)
    requires DistinctPids(recs) && i < |recs| && e.0 < |recs|
    ensures e == (i, l) <==> Line(e.1, recs[e.0].pid, recs[e.0].data) == Line(l, recs[i].pid, recs[i].data)
  {
    assert e == (e.0, e.1);
  }

  lemma RenderPrintsForest(recs: seq<Rec>)
    requires NoZeroPid(recs) && DistinctPids(recs) && forall e | e in Forest(recs) :: e.0 < |recs|
    ensures PrintsForest(recs, Render(recs, Forest(recs)))
  {
    hide NoZeroPid, DistinctPids, Forest, Render, HasDepth, ChainOf;
    var drawn := Forest(recs);
    var lines := Render(recs, drawn);
    forall i: nat, l: nat | i < |recs|
      ensures PrintsOnce(recs, lines, i, l)
    {
      RenderCounts(recs, drawn, i, l);
      ForestPrintsEachOnce(recs, i, l);
      DepthIsChain(recs, i, l);
    }
    forall t | 0 <= t < |lines| ensures IsSomeLine(recs, lines[t]) {
      RenderAt(recs, drawn, t);
      assert IsLineOf(recs, drawn[t].0, lines[t]);
    }
  }

  lemma RenderShowsParents(recs: seq<Rec>)
    requires NoZeroPid(recs) && forall e | e in Forest(recs) :: e.0 < |recs|
    ensures ShowsParents(recs, Render(recs, Forest(recs)))
  {
    hide NoZeroPid, Forest;
    var drawn := Forest(recs);
    var lines := Render(recs, drawn);
    forall t: nat | t < |lines| && lines[t].level > 0
      ensures exists u: nat, i: nat :: ParentLineAt(recs, lines, u, t, i)
    {
      IndentationShowsParents(recs, t);
      var u: nat :| u < t && IsParentLine(recs, drawn, u, t);
      assert drawn[u].0 == ParentOf(recs, drawn[t].0);
      assert ParentLineAt(recs, lines, u, t, drawn[t].0);
    }
  }

  lemma RenderKeepsOrder(recs: seq<Rec>)
    requires NoZeroPid(recs) && DistinctPids(recs) && forall e | e in Forest(recs) :: e.0 < |recs|
    ensures KeepsOrder(recs, Render(recs, Forest(recs)))
  {
    var roots := RootsUpTo(recs, |recs|);
    forall c | c in roots ensures HasDepth(recs, c, 0) {
      RootsAre(recs, |recs|, c);
    }
    DrawAllSiblings(recs, roots, 0);
    var drawn := Forest(recs);
    assert drawn == DrawAll(recs, roots, 0);
    hide NoZeroPid, DistinctPids, Forest, Render, HasDepth, DrawAll, RootsUpTo, IsLineOf;
    forall t: nat, u: nat, i: nat, j: nat
      | t < u < |drawn| && IsLineOf(recs, i, Render(recs, drawn)[t]) && IsLineOf(recs, j, Render(recs, drawn)[u])
        && i < |recs| && j < |recs| && recs[i].ppid == recs[j].ppid
      ensures i < j
    {
      RenderAt(recs, drawn, t);
      RenderAt(recs, drawn, u);
    }
    LineIsInRange(recs);
  }

  lemma RenderMeans(recs: seq<Rec>)
    requires NoZeroPid(recs) && forall e | e in Forest(recs) :: e.0 < |recs|
    ensures ShowsParents(recs, Render(recs, Forest(recs)))
    ensures DistinctPids(recs) ==>
              PrintsForest(recs, Render(recs, Forest(recs))) && KeepsOrder(recs, Render(recs, Forest(recs)))
  {
    hide ShowsParents, PrintsForest, KeepsOrder, DistinctPids, Forest, Render, NoZeroPid;
    RenderShowsParents(recs);
    if DistinctPids(recs) {
      RenderPrintsForest(recs);
      RenderKeepsOrder(recs);
    }
  }

  lemma LineIsInRange(recs: seq<Rec>)
    ensures forall i: nat, line | IsLineOf(recs, i, line) :: i < |recs|
  {
  }

  /** The recursive printer, called for the node at position `i`. */
  method PrintTree(root: Node, treeLevel: nat, ghost i: nat, ghost nodes: seq<Node>, ghost recs: seq<Rec>)
    returns (lines: seq<Line>)
    requires |nodes| == |recs| && KidsOk(nodes, recs, |recs|) && NoZeroPid(recs)
    requires forall j | 0 <= j < |nodes| :: nodes[j].rec == recs[j]
    requires HasDepth(recs, i, treeLevel) && root == nodes[i]
    ensures forall e | e in Draw(recs, i, treeLevel) :: e.0 < |recs|
    ensures lines == Render(recs, Draw(recs, i, treeLevel))
    ensures lines != [] && lines[0] == Line(treeLevel, root.rec.pid, root.rec.data)
    ensures KidsOk(nodes, recs, |recs|)
    decreases |recs| - treeLevel
  {
    hide KidsOk, ChildrenUpTo, HasDepth, Draw, DrawAll;
    DepthIsBounded(recs, i, treeLevel);
    ChildIsDeeper(recs, i, treeLevel);
    lines := [Line(treeLevel, root.rec.pid, root.rec.data)];
    ghost var kids := Children(recs, i);
    KidsAre(nodes, recs, i);
    ghost var drawn := [(i, treeLevel)];
    DrawNone(recs, treeLevel + 1);
    assert kids[..0] == [];
    var j := 0;
    while root.children[j] != null
      invariant 0 <= j <= |kids|
      invariant KidsOk(nodes, recs, |recs|)
      invariant forall e | e in kids[..j] :: HasDepth(recs, e, treeLevel + 1)
      invariant drawn == [(i, treeLevel)] + DrawAll(recs, kids[..j], treeLevel + 1)
      invariant forall e | e in drawn :: e.0 < |recs|
      invariant lines == Render(recs, drawn)
      decreases |kids| - j
    {
      assert kids[j] in kids;
      var sub := PrintTree(root.children[j], treeLevel + 1, kids[j], nodes, recs);
      DrawAllAppends(recs, kids[..j], kids[j], treeLevel + 1);
      assert kids[..j + 1] == kids[..j] + [kids[j]];
      RenderAppends(recs, drawn, Draw(recs, kids[j], treeLevel + 1));
      drawn := drawn + Draw(recs, kids[j], treeLevel + 1);
      lines := lines + sub;
      j := j + 1;
    }
    assert kids[..|kids|] == kids;
    DrawUnfolds(recs, i, treeLevel);
  }

  lemma KidsAre(nodes: seq<Node>, recs: seq<Rec>, i: nat)
    requires |nodes| == |recs| && KidsOk(nodes, recs, |recs|) && i < |nodes|
    ensures Holds(nodes[i].children[..], nodes, Children(recs, i))
  {
  }

  lemma DrawNone(recs: seq<Rec>, d: nat)
    requires NoZeroPid(recs)
    ensures DrawAll(recs, [], d) == []
  {
  }

  lemma DrawUnfolds(recs: seq<Rec>, i: nat, d: nat)
    requires NoZeroPid(recs) && HasDepth(recs, i, d)
    ensures forall c | c in Children(recs, i) :: HasDepth(recs, c, d + 1)
    ensures Draw(recs, i, d) == [(i, d)] + DrawAll(recs, Children(recs, i), d + 1)
  {
    ChildIsDeeper(recs, i, d);
  }

  /**
   The whole program on the records of /proc: the printed lines are the forest of the
   records, drawn from its roots in list order.
   */
  method DrawProcesses(recs: seq<Rec>) returns (lines: seq<Line>)
    requires NoZeroPid(recs) && FewChildren(recs)
    ensures forall e | e in Forest(recs) :: e.0 < |recs|
    ensures lines == Render(recs, Forest(recs))
    ensures ShowsParents(recs, lines)
    ensures DistinctPids(recs) ==> PrintsForest(recs, lines) && KeepsOrder(recs, lines)
  {
    hide IsList, KidsOk, ParentsOk, FewChildren, Forest, Arrays, Render, ShowsParents, PrintsForest, KeepsOrder;
    var head, nodes := Build(recs);
    Link(head, nodes, recs);
    lines := PrintRoots(head, nodes, recs);
  }

  lemma RootsStep(recs: seq<Rec>, k: nat)
    requires k <= |recs|
    ensures RootsUpTo(recs, 0) == []
    ensures k < |recs| ==>
              RootsUpTo(recs, k + 1) == if recs[k].ppid == 0 then RootsUpTo(recs, k) + [k] else RootsUpTo(recs, k)
    ensures k < |recs| && recs[k].ppid == 0 ==> HasDepth(recs, k, 0)
  {
  }

  /** The drawings of the roots among the first `k` nodes. */
  ghost predicate RootsDrawn(recs: seq<Rec>, k: nat, drawn: seq<(nat, nat)>)
    requires NoZeroPid(recs)
  {
    && k <= |recs| && (forall e | e in RootsUpTo(recs, k) :: HasDepth(recs, e, 0))
    && drawn == DrawAll(recs, RootsUpTo(recs, k), 0)
    && forall j | 0 <= j < |drawn| :: drawn[j].0 < |recs|
  }

  /** One round of the loop over the list. */
  method PrintIfRoot(node: Node, ghost k: nat, ghost nodes: seq<Node>, ghost recs: seq<Rec>,
                     lines: seq<Line>, ghost drawn: seq<(nat, nat)>)
    returns (lines': seq<Line>, ghost drawn': seq<(nat, nat)>)
    requires k < |recs| == |nodes| && node == nodes[k] && KidsOk(nodes, recs, |recs|) && NoZeroPid(recs)
    requires forall j | 0 <= j < |nodes| :: nodes[j].rec == recs[j]
    requires RootsDrawn(recs, k, drawn) && lines == Render(recs, drawn)
    ensures RootsDrawn(recs, k + 1, drawn') && lines' == Render(recs, drawn') && KidsOk(nodes, recs, |recs|)
  {
    hide KidsOk, Draw, DrawAll, HasDepth, RootsUpTo, Render, NoZeroPid;
    lines', drawn' := lines, drawn;
    RootsStep(recs, k);
    if node.rec.ppid == 0 {
      var tree := PrintTree(node, 0, k, nodes, recs);
      DrawAllAppends(recs, RootsUpTo(recs, k), k, 0);
      RenderAppends(recs, drawn, Draw(recs, k, 0));
      drawn' := drawn + Draw(recs, k, 0);
      lines' := lines + tree;
    }
  }

  /** The loop over the list that prints a tree for each root. */
  method PrintRoots(head: Node?, ghost nodes: seq<Node>, ghost recs: seq<Rec>) returns (lines: seq<Line>)
    requires IsList(head, nodes, recs) && KidsOk(nodes, recs, |recs|) && NoZeroPid(recs)
    ensures forall e | e in Forest(recs) :: e.0 < |recs|
    ensures lines == Render(recs, Forest(recs)) && ShowsParents(recs, lines)
    ensures DistinctPids(recs) ==> PrintsForest(recs, lines) && KeepsOrder(recs, lines)
  {
    hide ShowsParents, PrintsForest, KeepsOrder, DistinctPids;
    hide KidsOk, Draw, DrawAll, HasDepth, RootsUpTo, Render, NoZeroPid;
    assert NoZeroPid(recs);
    var node := head;
    ghost var k := 0;
    ghost var drawn: seq<(nat, nat)> := [];
    lines := [];
    DrawNone(recs, 0);
    assert RootsUpTo(recs, 0) == [] by { RootsStep(recs, 0); }
    while node != null
      invariant 0 <= k <= |nodes| && node == if k < |nodes| then nodes[k] else null
      invariant IsList(head, nodes, recs) && KidsOk(nodes, recs, |recs|)
      invariant RootsDrawn(recs, k, drawn) && lines == Render(recs, drawn)
      decreases |nodes| - k
    {
      lines, drawn := PrintIfRoot(node, k, nodes, recs, lines, drawn);
      node := node.next;
      k := k + 1;
    }
    RenderMeans(recs);
  }
}
