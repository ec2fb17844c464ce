/** parse: a line cut into words by strtok and kept in a growing, NULL-terminated vector. */
module Parse {
  import opened CStrings
  import opened Lists
  import opened ShellSyntax
  import opened Vectors

  /** SPACE, TAB or NL. */
  predicate IsDelim(c: char) {
    c == ' ' || c == '\t' || c == '\n'
  }

  // ---- What a line consists of -----------------------------------------------------------------

  function SkipDelim(s: string): (t: string)
    ensures |t| <= |s|
  {
    if s != [] && IsDelim(s[0]) then SkipDelim(s[1..]) else s
  }

  function FirstToken(s: string): (t: string)
    ensures |t| <= |s|
  {
    if s != [] && !IsDelim(s[0]) then [s[0]] + FirstToken(s[1..]) else []
  }

  /** What follows the token and the delimiter that ends it. */
  function AfterToken(s: string): (t: string)
    ensures s != [] ==> |t| < |s|
  {
    var n := |FirstToken(s)|;
    if n < |s| then s[n + 1..] else []
  }

  function Tokens(s: string): Argv
    decreases |s|
  {
    var t := SkipDelim(s);
    if t == [] then [] else [FirstToken(t)] + Tokens(AfterToken(t))
  }

  // ---- The code -----------------------------------------------------------------------------------

  ghost predicate IsBlank(s: string) {
    forall k | 0 <= k < |s| :: IsDelim(s[k])
  }

  ghost predicate IsSolid(s: string) {
    forall k | 0 <= k < |s| :: !IsDelim(s[k])
  }

  lemma {:induction false} SkipGap(gap: string, t: string)
    requires IsBlank(gap) && (t == [] || !IsDelim(t[0]))
    ensures SkipDelim(gap + t) == t
  {
    if gap == [] {
      assert gap + t == t;
    } else {
      assert (gap + t)[1..] == gap[1..] + t;
      SkipGap(gap[1..], t);
    }
  }

  lemma {:induction false} TokenThen(word: string, rest: string)
    requires IsSolid(word) && (rest == [] || IsDelim(rest[0]))
    ensures FirstToken(word + rest) == word
    ensures AfterToken(word + rest) == if rest == [] then [] else rest[1..]
  {
    if word == [] {
      assert word + rest == rest;
    } else {
      assert (word + rest)[1..] == word[1..] + rest;
      TokenThen(word[1..], rest);
    }
  }

  /** The buffer `a` holds the string `s` from offset `from` on. */
  ghost predicate HoldsAt(a: seq<char>, from: nat, s: string) {
    && from + |s| < |a| && a[from + |s|] == NUL && NUL !in s
    && forall k | from <= k < from + |s| :: a[k] == s[k - from]
  }

  lemma HoldsAtIs(a: seq<char>, from: nat, s: string)
    requires HoldsAt(a, from, s)
    ensures NUL in a[from..] && UpToNul(a[from..]) == s
  {
    var rest := a[from..];
    assert rest[|s|] == NUL;
    assert rest[..|s|] == s;
    UpToNulAt(rest, |s|);
  }

  lemma StringHoldsAt(a: seq<char>, from: nat)
    requires from <= |a| && NUL in a[from..]
    ensures HoldsAt(a, from, UpToNul(a[from..]))
  {
    UpToNulEnds(a[from..]);
    UpToNulIsPrefix(a[from..]);
  }

  /** Cutting the string at `q` leaves what is before and what is behind. */
  lemma CutLeaves(a: seq<char>, from: nat, s: string, p: nat, q: nat)
    requires HoldsAt(a, from, s) && from <= p <= q <= from + |s|
    ensures HoldsAt(a[q := NUL], p, s[p - from..q - from])
    ensures q < from + |s| ==> HoldsAt(a[q := NUL], q + 1, s[q - from + 1..])
    ensures q == from + |s| ==> HoldsAt(a[q := NUL], q, "")
  {
  }

  /** The first token of a string that has a gap up to `d` and a word from there to `e`. */
  lemma TokenLiesAt(s: string, d: nat, e: nat)
    requires d < e <= |s| && IsBlank(s[..d]) && IsSolid(s[d..e]) && (e < |s| ==> IsDelim(s[e]))
    ensures SkipDelim(s) == s[d..] && FirstToken(s[d..]) == s[d..e]
    ensures AfterToken(s[d..]) == if e < |s| then s[e + 1..] else ""
  {
    hide SkipDelim, FirstToken, AfterToken, IsDelim, IsBlank, IsSolid;
    var gap, word, rest := s[..d], s[d..e], s[e..];
    assert s == gap + s[d..] && s[d..] == word + rest;
    assert !IsDelim(s[d..][0]) by { FirstIsSolid(word); }
    SkipGap(gap, s[d..]);
    TokenThen(word, rest);
    assert e < |s| ==> rest[1..] == s[e + 1..];
  }

  /** What one call of strtok makes of the buffer `a`; `p` to `q` is the token. */
  lemma TokenIsCut(a: seq<char>, from: nat, s: string, p: nat, q: nat)
    requires HoldsAt(a, from, s) && from <= p < q <= from + |s| && q < |a|
    requires IsBlank(s[..p - from]) && IsSolid(s[p - from..q - from]) && (q < from + |s| ==> IsDelim(s[q - from]))
    ensures var b, t := a[q := NUL], SkipDelim(s);
            && t != [] && HoldsAt(b, p, FirstToken(t))
            && (q < from + |s| ==> HoldsAt(b, q + 1, AfterToken(t)))
            && (q == from + |s| ==> HoldsAt(b, q, AfterToken(t)))
  {
    hide SkipDelim, FirstToken, AfterToken, IsDelim, HoldsAt, IsBlank, IsSolid;
    TokenLiesAt(s, p - from, q - from);
    CutLeaves(a, from, s, p, q);
  }

  lemma FirstIsSolid(s: string)
    requires IsSolid(s) && s != []
    ensures !IsDelim(s[0])
  {
  }

  /** The first position from `from` on that is not a delimiter. */
  method SkipFrom(line: array<char>, from: nat, ghost s: string) returns (p: nat)
    requires HoldsAt(line[..], from, s)
    ensures from <= p <= from + |s| < line.Length && IsBlank(s[..p - from])
    ensures line[p] == (if p - from < |s| then s[p - from] else NUL) && !IsDelim(line[p])
  {
    p := from;
    while IsDelim(line[p])
      invariant from <= p <= from + |s|
      invariant IsBlank(s[..p - from])
      decreases from + |s| - p
    {
      p := p + 1;
    }
  }

  /** The first position from `p` on that is a delimiter or the end. */
  method ScanToken(line: array<char>, p: nat, ghost s: string) returns (q: nat)
    requires HoldsAt(line[..], p, s)
    ensures p <= q <= p + |s| < line.Length && IsSolid(s[..q - p])
    ensures line[q] == (if q - p < |s| then s[q - p] else NUL) && (line[q] == NUL || IsDelim(line[q]))
  {
    q := p;
    while line[q] != NUL && !IsDelim(line[q])
      invariant p <= q <= p + |s|
      invariant IsSolid(s[..q - p])
      decreases p + |s| - q
    {
      q := q + 1;
    }
  }

  /** Where strtok stands: at a token or at none, with the rest of the string at `next`. */
  ghost predicate Standing(a: seq<char>, token: Option<nat>, next: nat) {
    && next <= |a| && NUL in a[next..]
    && (token.Some? ==> token.value <= |a| && NUL in a[token.value..])
  }

  /** The words still to come. */
  ghost function Left(a: seq<char>, token: Option<nat>, next: nat): Argv
    requires Standing(a, token, next)
  {
    if token == None then [] else [UpToNul(a[token.value..])] + Tokens(UpToNul(a[next..]))
  }

  /** strtok(line, delim), continued from `from`; `next` is where the following call goes on. */
  method Strtok(line: array<char>, from: nat) returns (token: Option<nat>, next: nat)
    requires from <= line.Length && NUL in line[from..]
    modifies line
    ensures Standing(line[..], token, next)
    ensures Left(line[..], token, next) == Tokens(UpToNul(old(line[from..])))
    ensures token.Some? ==> |UpToNul(line[next..])| < |UpToNul(old(line[from..]))|
  {
    hide SkipDelim, FirstToken, AfterToken, UpToNul, IsDelim, Tokens, HoldsAt, IsSolid, IsBlank;
    ghost var a := line[..];
    assert line[from..] == a[from..];
    ghost var s := UpToNul(a[from..]);
    StringHoldsAt(a, from);
    TokensOf(s);
    var p := SkipFrom(line, from, s);
    if line[p] == NUL {
      EndOfString(a, from, s, p);
      assert line[p..][0] == NUL && line[..][p..] == line[p..];
      return None, p;
    }
    token := Some(p);
    RestHolds(a, from, s, p);
    var q := ScanToken(line, p, s[p - from..]);
    TokenLies(a, from, s, p, q);
    TokenIsCut(a, from, s, p, q);
    if line[q] == NUL {
      next := q;
      assert a[q := NUL] == a;
    } else {
      line[q] := NUL;
      next := q + 1;
    }
    assert line[..] == a[q := NUL];
    HoldsAtIs(line[..], p, FirstToken(SkipDelim(s)));
    HoldsAtIs(line[..], next, AfterToken(SkipDelim(s)));
    assert line[..][next..] == line[next..];
  }

  lemma InsideIsNotNul(a: seq<char>, from: nat, s: string, p: nat)
    requires HoldsAt(a, from, s) && from <= p < from + |s|
    ensures a[p] != NUL
  {
    assert s[p - from] in s;
  }

  lemma EndOfString(a: seq<char>, from: nat, s: string, p: nat)
    requires HoldsAt(a, from, s) && from <= p <= from + |s| && a[p] == NUL && IsBlank(s[..p - from])
    ensures p == from + |s| && SkipDelim(s) == []
  {
    hide SkipDelim, IsDelim, IsBlank;
    if p < from + |s| {
      InsideIsNotNul(a, from, s, p);
    } else {
      hide HoldsAt;
      assert s == s[..p - from] + [];
    }
    SkipGap(s[..p - from], []);
  }

  lemma RestHolds(a: seq<char>, from: nat, s: string, p: nat)
    requires HoldsAt(a, from, s) && from <= p <= from + |s|
    ensures HoldsAt(a, p, s[p - from..])
  {
  }

  /** The token is not empty and ends at a delimiter or with the string. */
  lemma TokenLies(a: seq<char>, from: nat, s: string, p: nat, q: nat)
    requires HoldsAt(a, from, s) && from <= p <= q <= from + |s| && IsSolid(s[p - from..][..q - p])
    requires a[p] != NUL && !IsDelim(a[p]) && (a[q] == NUL || IsDelim(a[q]))
    ensures p < q && IsSolid(s[p - from..q - from])
    ensures (q < from + |s| ==> IsDelim(s[q - from])) && (q < from + |s| <==> a[q] != NUL)
  {
    assert s[p - from..][..q - p] == s[p - from..q - from];
  }

  /** The word installed at the end of the vector, and the vector grown by one cell. */
  method Install(argv: array<Cell>, word: string, ghost words: Argv) returns (bigger: array<Cell>)
    requires HasCells(argv[..], words)
    modifies argv
    ensures fresh(bigger) && HasCells(bigger[..], words + [word])
  {
    argv[argv.Length - 1] := Some(word);
    bigger := new Cell[argv.Length + 1](_ => Some(""));
    for i := 0 to argv.Length
      invariant forall k | 0 <= k < i :: bigger[k] == Some((words + [word])[k])
      invariant forall k | 0 <= k < argv.Length :: argv[k] == Some((words + [word])[k])
    {
      bigger[i] := argv[i];
    }
  }

  /** The copy of a token that strcpy makes. */
  method Copy(line: array<char>, at: nat) returns (t: string)
    requires at <= line.Length && NUL in line[at..]
    ensures t == UpToNul(line[at..])
  {
    ghost var s := UpToNul(line[at..]);
    assert line[..][at..] == line[at..];
    StringHoldsAt(line[..], at);
    hide UpToNul;
    var i := 0;
    t := [];
    while line[at + i] != NUL
      invariant i <= |s| && t == s[..i]
      decreases |s| - i
    {
      t := t + [line[at + i]];
      i := i + 1;
    }
  }

  /** strcmp(line, "\n") == 0 */
  method IsEmptyLine(line: array<char>) returns (b: bool)
    requires NUL in line[..]
    ensures b == (UpToNul(line[..]) == [NL])
  {
    assert line[..][0..] == line[..];
    StringHoldsAt(line[..], 0);
    b := line[0] == NL && line[1] == NUL;
    if b {
      assert UpToNul(line[..])[0] == NL;
    }
  }

  /** strlen of the string at `at`. */
  method Strlen(line: array<char>, at: nat) returns (n: nat)
    requires at <= line.Length && NUL in line[at..]
    ensures n == |UpToNul(line[at..])|
  {
    ghost var s := UpToNul(line[at..]);
    assert line[..][at..] == line[at..];
    StringHoldsAt(line[..], at);
    hide UpToNul;
    n := 0;
    while line[at + n] != NUL
      invariant n <= |s|
      decreases |s| - n
    {
      n := n + 1;
    }
  }

  /** strcpy into a block; it is not done when it would write behind the block. */
  method Strcpy(block: array<char>, line: array<char>, at: nat) returns (ok: bool)
    requires at <= line.Length && NUL in line[at..] && block != line
    modifies block
    ensures ok <==> |UpToNul(line[at..])| < block.Length
    ensures ok ==> NUL in block[..] && UpToNul(block[..]) == UpToNul(line[at..])
  {
    ghost var s := UpToNul(line[at..]);
    assert line[..][at..] == line[at..];
    StringHoldsAt(line[..], at);
    hide UpToNul;
    var i := 0;
    while line[at + i] != NUL
      invariant i <= |s| && i <= block.Length && block[..i] == s[..i]
      invariant HoldsAt(line[..], at, s)
      decreases |s| - i
    {
      if i >= block.Length {
        return false;
      }
      block[i] := line[at + i];
      i := i + 1;
    }
    if i >= block.Length {
      return false;
    }
    block[i] := NUL;
    assert HoldsAt(block[..], 0, s) by {
      assert forall k | 0 <= k < i :: block[..i][k] == s[..i][k];
    }
    HoldsAtIs(block[..], 0, s);
    assert block[..][0..] == block[..];
    ok := true;
  }

  /**
   malloc: `room(n)` is what the allocator sets aside for a request of `n` bytes; the
   language promises no more than `n`.
   */
  ghost predicate Allocates(room: nat -> nat) {
    forall n :: room(n) >= n
  }

  /** Word `k` goes into the block that was made for the word before it. */
  predicate FitsAt(words: Argv, room: nat -> nat, k: nat)
    requires k < |words|
  {
    |words[k]| < BlockFor(words, room, k)
  }

  /** The size of the block that cell `k` has when word `k` is copied. */
  function BlockFor(words: Argv, room: nat -> nat, k: nat): nat
    requires k < |words|
  {
    room(|words[if k == 0 then 0 else k - 1]| + 1)
  }

  ghost predicate EachFits(words: Argv, room: nat -> nat) {
    FitsTo(words, room, |words|)
  }

  ghost predicate FitsTo(words: Argv, room: nat -> nat, n: nat)
    requires n <= |words|
  {
    forall k | 0 <= k < n :: FitsAt(words, room, k)
  }

  lemma FitsNext(words: Argv, room: nat -> nat, n: nat)
    requires n < |words| && FitsTo(words, room, n)
    ensures if |words[n]| < BlockFor(words, room, n) then FitsTo(words, room, n + 1) else !EachFits(words, room)
  {
    assert FitsAt(words, room, n) <==> |words[n]| < BlockFor(words, room, n);
  }

  ghost predicate NoneLonger(words: Argv) {
    forall k | 0 < k < |words| :: |words[k]| <= |words[k - 1]|
  }

  /** One round of the loop: the token is copied and the next one looked for. */
  method NextWord(line: array<char>, token: nat, next: nat, argv: array<Cell>, block: array<char>,
                  room: nat -> nat, ghost words: Argv)
    returns (ok: bool, argv': array<Cell>, block': array<char>, token': Option<nat>, next': nat)
    requires Standing(line[..], Some(token), next) && HasCells(argv[..], words) && block != line && Allocates(room)
    modifies line, argv, block
    ensures ok <==> |old(UpToNul(line[..][token..]))| < block.Length
    ensures ok ==>
              var word := old(UpToNul(line[..][token..]));
              && fresh(argv') && HasCells(argv'[..], words + [word])
              && fresh(block') && block'.Length == room(|word| + 1)
              && Standing(line[..], token', next')
              && old(Left(line[..], Some(token), next)) == [word] + Left(line[..], token', next')
    ensures ok && token'.Some? ==> |UpToNul(line[..][next'..])| < |UpToNul(old(line[..][next..]))|
  {
    hide UpToNul, Tokens, HasCells, Allocates;
    assert line[..][next..] == line[next..] && line[..][token..] == line[token..];
    argv', block', token', next' := argv, block, None, next;
    ok := Strcpy(block, line, token);
    if !ok {
      return;
    }
    assert block[..] == block[0..];
    var word := Copy(block, 0);
    argv' := Install(argv, word, words);
    var n := Strlen(line, token);
    block' := new char[room(n + 1)];
    token', next' := Strtok(line, next);
    assert line[..][next'..] == line[next'..];
  }

  /** In the loop: `words` of `all` are in the cells, the others still to come, and the last block has its size. */
  ghost predicate Collecting(a: seq<char>, token: Option<nat>, next: nat, cells: seq<Cell>, size: nat,
                             room: nat -> nat, all: Argv, words: Argv)
  {
    && Standing(a, token, next) && HasCells(cells, words)
    && words + Left(a, token, next) == all && FitsTo(all, room, |words|)
    && (token.Some? ==> |words| < |all| && size == BlockFor(all, room, |words|))
  }

  /** One round of the loop, or a word that does not fit. */
  method Round(line: array<char>, token: nat, next: nat, argv: array<Cell>, block: array<char>,
               room: nat -> nat, ghost all: Argv, ghost words: Argv)
    returns (ok: bool, argv': array<Cell>, block': array<char>, token': Option<nat>, next': nat, ghost words': Argv)
    requires Collecting(line[..], Some(token), next, argv[..], block.Length, room, all, words)
    requires block != line && Allocates(room) && next <= line.Length
    modifies line, argv, block
    ensures !ok ==> !EachFits(all, room)
    ensures ok ==>
              && fresh(argv') && fresh(block') && next' <= line.Length
              && Collecting(line[..], token', next', argv'[..], block'.Length, room, all, words')
    ensures ok && token'.Some? ==> |UpToNul(line[..][next'..])| < |UpToNul(old(line[..][next..]))|
  {
    hide Tokens, HasCells, FitsTo, FitsAt, EachFits, Allocates, Collecting, Left, UpToNul, BlockFor;
    ghost var a, cells, size := line[..], argv[..], block.Length;
    WordInHand(a, token, next, cells, size, room, all, words);
    ghost var word := UpToNul(a[token..]);
    words' := words + [word];
    ok, argv', block', token', next' := NextWord(line, token, next, argv, block, room, words);
    if ok {
      WordIsStored(a, token, next, cells, size, room, all, words, line[..], token', next', argv'[..], block'.Length);
    }
  }

  lemma WordInHand(a: seq<char>, token: nat, next: nat, cells: seq<Cell>, size: nat,
                   room: nat -> nat, all: Argv, words: Argv)
    requires Collecting(a, Some(token), next, cells, size, room, all, words)
    ensures Standing(a, Some(token), next) && next <= |a| && token <= |a| && HasCells(cells, words)
    ensures size <= |UpToNul(a[token..])| ==> !EachFits(all, room)
  {
    hide UpToNul, Tokens, HasCells;
    assert all[|words|] == UpToNul(a[token..]);
    FitsNext(all, room, |words|);
  }

  lemma WordIsStored(a: seq<char>, token: nat, next: nat, cells: seq<Cell>, size: nat, room: nat -> nat,
                     all: Argv, words: Argv,
                     a': seq<char>, token': Option<nat>, next': nat, cells': seq<Cell>, size': nat)
    requires Collecting(a, Some(token), next, cells, size, room, all, words) && token <= |a|
    requires var word := UpToNul(a[token..]);
             && |word| < size && size' == room(|word| + 1)
             && HasCells(cells', words + [word]) && Standing(a', token', next')
             && Left(a, Some(token), next) == [word] + Left(a', token', next')
    ensures Collecting(a', token', next', cells', size', room, all, words + [UpToNul(a[token..])])
  {
    hide UpToNul, Tokens, HasCells, FitsTo;
    var word := UpToNul(a[token..]);
    assert all[|words|] == word;
    FitsNext(all, room, |words|);
    Shift(words, word, Left(a', token', next'));
    assert token'.Some? ==> |words + [word]| < |all|;
  }

  /** All the words from the first token on, unless one of them does not fit its block. */
  method Collect(line: array<char>, first: nat, from: nat, room: nat -> nat)
    returns (ok: bool, argv: array<Cell>, ghost words: Argv)
    requires Standing(line[..], Some(first), from) && Allocates(room)
    modifies line
    ensures ok <==> EachFits(old(Left(line[..], Some(first), from)), room)
    ensures ok ==> fresh(argv) && HasCells(argv[..], words) && words == old(Left(line[..], Some(first), from))
  {
    var token: Option<nat>, next: nat := Some(first), from;
    assert line[..][first..] == line[first..];
    var n := Strlen(line, first);
    argv := new Cell[1](_ => Some(""));
    var block := new char[room(n + 1)];
    words := [];
    ghost var all := Left(line[..], Some(first), from);
    assert Collecting(line[..], token, next, argv[..], block.Length, room, all, words);
    hide Collecting, Left, UpToNul, EachFits, HasCells;
    while token != None
      invariant Collecting(line[..], token, next, argv[..], block.Length, room, all, words)
      invariant next <= line.Length && fresh(argv) && fresh(block)
      decreases if token == None then 0 else 1 + |UpToNul(line[..][next..])|
    {
      ok, argv, block, token, next, words := Round(line, token.value, next, argv, block, room, all, words);
      if !ok {
        return;
      }
    }
    Collected(line[..], next, argv[..], block.Length, room, all, words);
    ok := true;
  }

  lemma Collected(a: seq<char>, next: nat, cells: seq<Cell>, size: nat, room: nat -> nat, all: Argv, words: Argv)
    requires Collecting(a, None, next, cells, size, room, all, words)
    ensures words == all && HasCells(cells, words) && EachFits(all, room)
  {
    assert words + [] == words;
  }

  lemma Shift(a: Argv, x: string, b: Argv)
    ensures a + ([x] + b) == (a + [x]) + b
  {
  }

  datatype Parsed = Nothing | Overrun | Vector(argv: array<Cell>)

  /**
   The words of the line in a NULL-terminated vector, or nothing for an empty line; a line of
   blanks alone is not for this function.  Overrun stands for a copy that goes past its block.
   */
  method Parse(line: array<char>, room: nat -> nat) returns (r: Parsed)
    requires NUL in line[..] && Allocates(room)
    requires UpToNul(line[..]) == [NL] || Tokens(UpToNul(line[..])) != []
    modifies line
    ensures r.Nothing? <==> UpToNul(old(line[..])) == [NL]
    ensures r.Overrun? <==> !EachFits(Tokens(UpToNul(old(line[..]))), room)
    ensures r.Vector? ==>
              && fresh(r.argv) && Terminated(r.argv[..], 0)
              && Words(r.argv[..], 0) == Tokens(UpToNul(old(line[..])))
  {
    hide UpToNul, Tokens, HasCells, EachFits, Words, Terminated, Allocates;
    var nothing := IsEmptyLine(line);
    NoWordsFit(room);
    if nothing {
      return Nothing;
    }
    assert line[..] == line[0..];
    var token, next := Strtok(line, 0);
    var ok, argv, words := Collect(line, token.value, next, room);
    if !ok {
      return Overrun;
    }
    CellsAreWords(argv[..], words);
    argv[argv.Length - 1] := None;
    r := Vector(argv);
  }

  lemma NoWordsFit(room: nat -> nat)
    ensures Tokens([NL]) == [] && EachFits(Tokens([NL]), room)
  {
    TokensOfGap([NL]);
  }

  /** With blocks of the size asked for the copies fit exactly when no word is longer than the one before it. */
  lemma FitsExactlyWhen(words: Argv)
    ensures EachFits(words, n => n) <==> NoneLonger(words)
  {
    if EachFits(words, n => n) {
      forall k | 0 < k < |words| ensures |words[k]| <= |words[k - 1]| {
        assert FitsAt(words, n => n, k);
      }
    }
  }

  /** An ordinary line on which they do not. */
  lemma OrdinaryLineOverruns()
    ensures Tokens("ls -la\n") == ["ls", "-la"] && !EachFits(["ls", "-la"], n => n)
  {
    var words, gaps := ["ls", "-la"], ["", " ", "\n"];
    assert gaps[1..] == [" ", "\n"] && gaps[1..][1..] == ["\n"];
    assert words[1..] == ["-la"] && words[1..][1..] == [];
    assert Line([], ["\n"]) == "\n";
    assert Line(["-la"], [" ", "\n"]) == " -la\n";
    assert Line(words, gaps) == "ls -la\n";
    assert IsWord(words[0]) && IsWord(words[1]);
    TokensOfLine(words, gaps);
    assert !FitsAt(words, n => n, 1);
  }

  /** A vector of these words with one unused cell at its end. */
  ghost predicate HasCells(a: seq<Cell>, words: Argv) {
    |a| == |words| + 1 && forall k | 0 <= k < |words| :: a[k] == Some(words[k])
  }

  lemma CellsAreWords(a: seq<Cell>, words: Argv)
    requires HasCells(a, words)
    ensures |a| > 0 && Terminated(a[|a| - 1 := None], 0) && Words(a[|a| - 1 := None], 0) == words
  {
    var b := a[|a| - 1 := None];
    forall i | 0 <= i < |words| ensures b[0 + i] == Some(words[i]) {
      assert b[i] == a[i];
    }
    WordsAre(b, 0, words);
  }

  lemma TokensOf(s: string)
    ensures var t := SkipDelim(s);
            && Tokens(s) == (if t == [] then [] else [FirstToken(t)] + Tokens(AfterToken(t)))
            && (t != [] ==> |AfterToken(t)| < |s|)
  {
  }

  // ---- Lines and their words ----------------------------------------------------------------

  ghost predicate IsWord(s: string) {
    s != [] && IsSolid(s)
  }

  /** A gap before each word and one at the end; those between words are not empty. */
  ghost predicate AreGaps(gaps: seq<string>, n: nat) {
    && |gaps| == n + 1
    && (forall k | 0 <= k <= n :: IsBlank(gaps[k]))
    && forall k | 0 < k < n :: gaps[k] != []
  }

  function Line(words: Argv, gaps: seq<string>): string
    requires |gaps| == |words| + 1
  {
    if words == [] then gaps[0] else gaps[0] + words[0] + Line(words[1..], gaps[1..])
  }

  ghost predicate AreWords(words: Argv) {
    forall k | 0 <= k < |words| :: IsWord(words[k])
  }

  lemma {:induction false} TokensOfGap(gap: string)
    requires IsBlank(gap)
    ensures Tokens(gap) == []
  {
    assert gap + [] == gap;
    SkipGap(gap, []);
  }

  /** A gap, a word and what follows, which begins with a delimiter. */
  lemma TokensOfWord(gap: string, word: string, rest: string)
    requires IsBlank(gap) && IsWord(word) && (rest == [] || IsDelim(rest[0]))
    ensures Tokens(gap + word + rest) == [word] + Tokens(rest)
  {
    assert gap + word + rest == gap + (word + rest);
    SkipGap(gap, word + rest);
    TokenThen(word, rest);
    var t := if rest == [] then [] else rest[1..];
    hide SkipDelim, FirstToken, AfterToken;
    TokensOf(gap + word + rest);
    assert SkipDelim(gap + word + rest) == word + rest != [];
    assert Tokens(t) == Tokens(rest) by { DropDelim(rest); }
  }

  lemma DropDelim(s: string)
    requires s == [] || IsDelim(s[0])
    ensures Tokens(if s == [] then [] else s[1..]) == Tokens(s)
  {
  }

  /** Whatever the gaps, the words of a line come back. */
  lemma {:induction false} TokensOfLine(words: Argv, gaps: seq<string>)
    requires AreWords(words) && AreGaps(gaps, |words|)
    ensures Tokens(Line(words, gaps)) == words
  {
    hide Tokens;
    if words == [] {
      TokensOfGap(gaps[0]);
    } else {
      assert IsWord(words[0]);
      var rest := Line(words[1..], gaps[1..]);
      RestOfGaps(words, gaps);
      TokensOfLine(words[1..], gaps[1..]);
      TokensOfWord(gaps[0], words[0], rest);
    }
  }

  lemma RestOfGaps(words: Argv, gaps: seq<string>)
    requires AreWords(words) && AreGaps(gaps, |words|) && words != []
    ensures AreWords(words[1..]) && AreGaps(gaps[1..], |words| - 1)
    ensures IsBlank(gaps[0])
    ensures var rest := Line(words[1..], gaps[1..]); rest == [] || IsDelim(rest[0])
  {
    forall k | 0 <= k < |words| - 1 ensures IsWord(words[1..][k]) {
      assert IsWord(words[k + 1]);
    }
    forall k | 0 <= k <= |words| - 1 ensures IsBlank(gaps[1..][k]) {
      assert IsBlank(gaps[k + 1]);
    }
    assert IsBlank(gaps[1]) && (|words| > 1 ==> gaps[1] != []);
  }

  /** The blanks are space, tab and newline, and no other character. */
  lemma BlanksAre(s: string)
    ensures IsBlank(s) <==> forall c | c in s :: c in " \t\n"
  {
    if forall c | c in s :: c in " \t\n" {
      forall k | 0 <= k < |s| ensures IsDelim(s[k]) {
        assert s[k] in " \t\n";
      }
    }
    if IsBlank(s) {
      forall c | c in s ensures c in " \t\n" {
        var k :| 0 <= k < |s| && s[k] == c;
        assert IsDelim(s[k]);
        assert " \t\n"[0] == ' ' && " \t\n"[1] == '\t' && " \t\n"[2] == '\n';
      }
    }
  }

  /** Every line is its words with some gaps. */
  lemma {:induction false} LineOfTokens(s: string) returns (gaps: seq<string>)
    ensures AreWords(Tokens(s)) && AreGaps(gaps, |Tokens(s)|) && Line(Tokens(s), gaps) == s
    decreases |s|
  {
    var gap, t := SplitGap(s);
    if t == [] {
      assert s == gap;
      gaps := [gap];
    } else {
      var word, rest := SplitToken(t);
      assert s == gap + word + rest;
      TokensOfWord(gap, word, rest);
      var more := LineOfTokens(rest);
      gaps := [gap] + more;
      GapsExtend(gap, word, Tokens(rest), more, rest);
    }
  }

  lemma GapIsNeeded(words: Argv, gaps: seq<string>)
    requires words != [] && AreWords(words) && |gaps| == |words| + 1
    requires Line(words, gaps) == [] || IsDelim(Line(words, gaps)[0])
    ensures gaps[0] != []
  {
    assert IsWord(words[0]) && !IsDelim(words[0][0]);
    assert Line(words, gaps) == gaps[0] + words[0] + Line(words[1..], gaps[1..]);
    assert Line(words, gaps)[|gaps[0]|] == words[0][0];
  }

  lemma GapsExtend(gap: string, word: string, words: Argv, more: seq<string>, rest: string)
    requires IsBlank(gap) && IsWord(word) && AreWords(words) && AreGaps(more, |words|)
    requires Line(words, more) == rest && (rest == [] || IsDelim(rest[0]))
    ensures AreWords([word] + words) && AreGaps([gap] + more, |words| + 1)
    ensures Line([word] + words, [gap] + more) == gap + word + rest
  {
    var w, g := [word] + words, [gap] + more;
    assert w[1..] == words && g[1..] == more;
    if words != [] {
      GapIsNeeded(words, more);
    }
    forall k | 0 < k < |words| + 1 ensures g[k] != [] {
      assert g[k] == more[k - 1];
    }
  }

  lemma {:induction false} SplitGap(s: string) returns (gap: string, t: string)
    ensures s == gap + t && IsBlank(gap) && (t == [] || !IsDelim(t[0])) && t == SkipDelim(s)
  {
    if s != [] && IsDelim(s[0]) {
      gap, t := SplitGap(s[1..]);
      gap := [s[0]] + gap;
    } else {
      gap, t := [], s;
    }
  }

  lemma {:induction false} SplitToken(s: string) returns (word: string, rest: string)
    requires s == [] || !IsDelim(s[0])
    ensures s == word + rest && IsSolid(word) && (rest == [] || IsDelim(rest[0])) && (s != [] ==> word != [])
  {
    if s == [] || (|s| > 1 && IsDelim(s[1])) || |s| == 1 {
      word, rest := s[..if s == [] then 0 else 1], s[if s == [] then 0 else 1..];
    } else {
      word, rest := SplitToken(s[1..]);
      word := [s[0]] + word;
    }
  }
}
