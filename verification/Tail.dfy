/** tail: a scan backwards over the whole file for the newline before the last lines. */
module Tail {
  import opened CStrings
  import opened Lists

  function Newlines(s: string): nat {
    if s == [] then 0 else (if s[0] == NL then 1 else 0) + Newlines(s[1..])
  }

  lemma {:induction false} NewlinesSplit(a: string, b: string)
    ensures Newlines(a + b) == Newlines(a) + Newlines(b)
  {
    if a == [] {
      assert a + b == b;
    } else {
      assert (a + b)[1..] == a[1..] + b;
      NewlinesSplit(a[1..], b);
    }
  }

  lemma NewlinesFrom(s: string, i: nat)
    requires i < |s|
    ensures Newlines(s[i..]) == (if s[i] == NL then 1 else 0) + Newlines(s[i + 1..])
    ensures Newlines(s) >= Newlines(s[i..])
  {
    assert s[i..][1..] == s[i + 1..];
    NewlinesSplit(s[..i], s[i..]);
    assert s == s[..i] + s[i..];
  }

  /** `out` is what follows the newline with exactly `n` more behind it. */
  ghost predicate IsTail(file: string, n: nat, out: string) {
    && Newlines(out) == n && |out| < |file|
    && file[|file| - |out|..] == out && file[|file| - |out| - 1] == NL
  }

  /** There is just one such end of a file. */
  lemma TailIsUnique(file: string, n: nat, a: string, b: string)
    requires IsTail(file, n, a) && IsTail(file, n, b)
    ensures a == b
  {
    if |a| != |b| {
      var (short, long) := if |a| < |b| then (a, b) else (b, a);
      TailsDiffer(file, n, short, long);
    }
  }

  lemma TailsDiffer(file: string, n: nat, short: string, long: string)
    requires IsTail(file, n, short) && |short| < |long| <= |file| && file[|file| - |long|..] == long
    ensures Newlines(long) > n
  {
    var d := |long| - |short| - 1;
    assert long == long[..d] + ([NL] + short) by {
      assert long[d + 1..] == file[|file| - |short|..];
      assert long[d] == file[|file| - |short| - 1];
    }
    NewlinesSplit(long[..d], [NL] + short);
    assert ([NL] + short)[1..] == short;
  }

  /**
   The bytes written for the file in `buf`; None stands for the scan running off the front of
   the buffer, where the index wraps around.
   */
  method Tail(buf: array<char>, n: nat) returns (out: Option<string>)
    ensures out.Some? <==> Newlines(buf[..]) > n
    ensures out.Some? ==> IsTail(buf[..], n, out.value)
  {
    var offset: int := n;
    var toWrite := -1;
    var i := buf.Length - 1;
    ghost var file := buf[..];
    while offset + 1 > 0
      invariant -1 <= i < buf.Length && toWrite == buf.Length - 2 - i && offset >= -1
      invariant Newlines(file[i + 1..]) == n - offset
      invariant offset == -1 ==> i + 1 < buf.Length && buf[i + 1] == NL
      decreases i + 1
    {
      if i < 0 {
        assert file[0..] == file;
        return None;
      }
      NewlinesFrom(file, i);
      if buf[i] == NL {
        offset := offset - 1;
      }
      toWrite := toWrite + 1;
      i := i - 1;
    }
    NewlinesFrom(file, i + 1);
    out := Some(buf[buf.Length - toWrite..]);
    assert out.value == file[i + 2..];
  }

  // ---- Lines ------------------------------------------------------------------------------------

  function Unlines(lines: seq<string>): string {
    if lines == [] then [] else lines[0] + [NL] + Unlines(lines[1..])
  }

  ghost predicate AreLines(lines: seq<string>) {
    forall k | 0 <= k < |lines| :: NL !in lines[k]
  }

  lemma {:induction false} NoNewlines(s: string)
    requires NL !in s
    ensures Newlines(s) == 0
  {
    if s != [] {
      assert s[0] in s;
      NoNewlines(s[1..]);
    }
  }

  lemma {:induction false} NewlinesOfLines(lines: seq<string>, rest: string)
    requires AreLines(lines) && NL !in rest
    ensures Newlines(Unlines(lines) + rest) == |lines|
  {
    if lines == [] {
      assert Unlines(lines) + rest == rest;
      NoNewlines(rest);
    } else {
      var more := Unlines(lines[1..]) + rest;
      NewlinesOfLines(lines[1..], rest);
      NoNewlines(lines[0]);
      assert Unlines(lines) + rest == lines[0] + ([NL] + more);
      NewlinesSplit(lines[0], [NL] + more);
      assert ([NL] + more)[1..] == more;
    }
  }

  lemma {:induction false} UnlinesSplit(a: seq<string>, b: seq<string>)
    ensures Unlines(a + b) == Unlines(a) + Unlines(b)
  {
    if a == [] {
      assert a + b == b;
    } else {
      assert (a + b)[1..] == a[1..] + b;
      UnlinesSplit(a[1..], b);
    }
  }

  lemma {:induction false} UnlinesEnds(lines: seq<string>)
    requires lines != []
    ensures Unlines(lines) != [] && Unlines(lines)[|Unlines(lines)| - 1] == NL
  {
    if |lines| > 1 {
      UnlinesEnds(lines[1..]);
    }
  }

  /**
   Of a file with lines and perhaps an unfinished last one, exactly the last `n` lines and that
   one are written, provided there are more than `n`.
   */
  lemma TailIsLastLines(lines: seq<string>, partial: string, n: nat)
    requires AreLines(lines) && NL !in partial
    ensures Newlines(Unlines(lines) + partial) > n <==> |lines| > n
    ensures |lines| > n ==> IsTail(Unlines(lines) + partial, n, Unlines(lines[|lines| - n..]) + partial)
  {
    hide Unlines, Newlines, IsTail;
    NewlinesOfLines(lines, partial);
    if |lines| > n {
      var front, back := lines[..|lines| - n], lines[|lines| - n..];
      assert front + back == lines && front != [];
      assert AreLines(back);
      UnlinesSplit(front, back);
      UnlinesEnds(front);
      NewlinesOfLines(back, partial);
      Regroup(Unlines(front), Unlines(back), partial);
      EndIsTail(Unlines(front), Unlines(back) + partial, n);
    }
  }

  lemma Regroup(a: string, b: string, c: string)
    ensures a + b + c == a + (b + c)
  {
  }

  lemma EndIsTail(front: string, out: string, n: nat)
    requires front != [] && front[|front| - 1] == NL && Newlines(out) == n
    ensures IsTail(front + out, n, out)
  {
    hide Newlines;
  }

  /** The last two lines of a file of three. */
  lemma TwoOfThree()
    ensures IsTail("a\nb\nc\n", 2, "b\nc\n")
  {
    assert "b\nc\n"[1..] == "\nc\n" && "\nc\n"[1..] == "c\n" && "c\n"[1..] == "\n" && "\n"[1..] == [];
    assert Newlines("\n") == 1 && Newlines("c\n") == 1 && Newlines("\nc\n") == 2;
  }

  /** The file written out and its last lines asked for. */
  method LastLines(buf: array<char>, n: nat, ghost lines: seq<string>, ghost partial: string)
    returns (out: Option<string>)
    requires AreLines(lines) && NL !in partial && buf[..] == Unlines(lines) + partial
    ensures out == if |lines| > n then Some(Unlines(lines[|lines| - n..]) + partial) else None
  {
    out := Tail(buf, n);
    TailIsLastLines(lines, partial, n);
    if out.Some? {
      TailIsUnique(buf[..], n, out.value, Unlines(lines[|lines| - n..]) + partial);
    }
  }
}
