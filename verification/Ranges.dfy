/** Ranges of sequence numbers handed out one after the other. */
module Ranges {

  /** A range handed out: its first number, its length and the client it was made for. */
  datatype Grant = Grant(pid: int, start: nat, len: nat)

  /** The ranges follow each other without a gap from zero to `end`. */
  ghost predicate Tiles(g: seq<Grant>, end: nat) {
    if g == [] then end == 0
    else
      var last := g[|g| - 1];
      last.start + last.len == end && Tiles(g[..|g| - 1], last.start)
  }

  /** The sum of the lengths served. */
  function Total(g: seq<Grant>): nat {
    if g == [] then 0 else Total(g[..|g| - 1]) + g[|g| - 1].len
  }

  lemma {:induction false} TilesAre(g: seq<Grant>, end: nat, k: nat)
    requires Tiles(g, end) && k < |g|
    ensures g[k].start == Total(g[..k]) && g[k].start + g[k].len <= end && end == Total(g)
    decreases |g|
  {
    var front := g[..|g| - 1];
    if k < |g| - 1 {
      TilesAre(front, g[|g| - 1].start, k);
      assert front[..k] == g[..k];
    } else {
      TilesTotal(front, g[|g| - 1].start);
    }
    TilesTotal(g, end);
  }

  lemma {:induction false} TilesTotal(g: seq<Grant>, end: nat)
    requires Tiles(g, end)
    ensures end == Total(g)
  {
    if g != [] {
      TilesTotal(g[..|g| - 1], g[|g| - 1].start);
    }
  }

  lemma {:induction false} TilesDisjoint(g: seq<Grant>, end: nat, k: nat, l: nat)
    requires Tiles(g, end) && k < l < |g|
    ensures g[k].start + g[k].len <= g[l].start
    decreases |g|
  {
    var front := g[..|g| - 1];
    if l < |g| - 1 {
      TilesDisjoint(front, g[|g| - 1].start, k, l);
    } else {
      TilesAre(front, g[l].start, k);
    }
  }

  /** Every number below the end lies in one of the ranges. */
  lemma {:induction false} TilesCover(g: seq<Grant>, end: nat, x: nat) returns (k: nat)
    requires Tiles(g, end) && x < end
    ensures k < |g| && g[k].start <= x < g[k].start + g[k].len
    decreases |g|
  {
    var last := g[|g| - 1];
    if last.start <= x {
      k := |g| - 1;
    } else {
      k := TilesCover(g[..|g| - 1], last.start, x);
    }
  }

  ghost predicate Covered(g: seq<Grant>, x: nat) {
    exists k :: 0 <= k < |g| && g[k].start <= x < g[k].start + g[k].len
  }

  lemma TilesExtend(g: seq<Grant>, e: Grant)
    requires Tiles(g, e.start)
    ensures Tiles(g + [e], e.start + e.len)
  {
    assert (g + [e])[..|g|] == g;
  }

  /** What tiling means, all at once. */
  ghost predicate Partition(g: seq<Grant>, end: nat) {
    && end == Total(g)
    && (forall k | 0 <= k < |g| :: g[k].start == Total(g[..k]) && g[k].start + g[k].len <= end)
    && (forall k, l | 0 <= k < l < |g| :: g[k].start + g[k].len <= g[l].start)
    && (forall x: nat | x < end :: Covered(g, x))
  }

  lemma TilesPartition(g: seq<Grant>, end: nat)
    requires Tiles(g, end)
    ensures Partition(g, end)
  {
    hide Tiles, Total;
    TilesTotal(g, end);
    forall k | 0 <= k < |g| ensures g[k].start == Total(g[..k]) && g[k].start + g[k].len <= end {
      TilesAre(g, end, k);
    }
    forall k, l | 0 <= k < l < |g| ensures g[k].start + g[k].len <= g[l].start {
      TilesDisjoint(g, end, k, l);
    }
    forall x: nat | x < end ensures Covered(g, x) {
      var k := TilesCover(g, end, x);
    }
  }
}
