/**
 The dictionary file: convert turns a text of entries into 512-byte records, lookup1
 searches the records with a file cursor.  Buffers are C strings: their value is what
 comes before the first NUL.
 */
module DictFile {
  import opened CStrings
  import opened Lists

  const WORD: nat := 32
  const TEXT: nat := 480
  const BIGLINE: nat := 512

  // ---- Streams ----------------------------------------------------------------------------

  /** What fgets takes from the rest of a file: up to a newline, `max` characters or the end. */
  function FirstLine(s: string, max: nat): (line: string)
    ensures |line| <= max && line <= s
    ensures s != [] && max > 0 ==> line != []
  {
    if s == [] || max == 0 then []
    else if s[0] == NL then [NL]
    else [s[0]] + FirstLine(s[1..], max - 1)
  }

  lemma {:induction false} WholeLine(x: string, rest: string, max: nat)
    requires NL !in x && NUL !in x && |x| < max
    ensures FirstLine(x + [NL] + rest, max) == x + [NL]
    ensures UpToNul(x + [NL]) == x + [NL]
  {
    if x != [] {
      assert x[0] in x;
      assert (x + [NL] + rest)[1..] == x[1..] + [NL] + rest;
      assert (x + [NL])[1..] == x[1..] + [NL];
      WholeLine(x[1..], rest, max - 1);
    }
  }

  /** An open file with a position and an end-of-file indicator. */
  class Stream {
    const data: string
    var pos: nat
    var eof: bool

    constructor (data: string)
      ensures this.data == data && pos == 0 && !eof
    {
      this.data := data;
      pos := 0;
      eof := false;
    }

    function Rest(): string
      reads this
    {
      if pos <= |data| then data[pos..] else []
    }

    /** fgets(buffer, n, this): without a character left the buffer keeps its old value. */
    method Fgets(n: nat, buffer: string) returns (value: string)
      requires n > 1
      modifies this
      ensures old(Rest()) == [] ==> value == buffer && pos == old(pos) && eof
      ensures old(Rest()) != [] ==>
                var line := FirstLine(old(Rest()), n - 1);
                && value == UpToNul(line) && pos == old(pos) + |line|
                && (eof <==> old(eof) || (|line| < n - 1 && line[|line| - 1] != NL))
    {
      if pos >= |data| {
        eof := true;
        return buffer;
      }
      var line := FirstLine(data[pos..], n - 1);
      pos := pos + |line|;
      if |line| < n - 1 && line[|line| - 1] != NL {
        eof := true;
      }
      value := UpToNul(line);
    }

    /** fseek(this, n, SEEK_CUR) */
    method Skip(n: nat)
      modifies this
      ensures pos == old(pos) + n && !eof
    {
      pos := pos + n;
      eof := false;
    }

    method Rewind()
      modifies this
      ensures pos == 0 && !eof
    {
      pos := 0;
      eof := false;
    }
  }

  // ---- Character arrays ----------------------------------------------------------------------

  function Nuls(n: nat): string {
    seq(n, _ => NUL)
  }

  /** A field of `n` bytes holding `s`, the unused bytes NUL. */
  function Pad(s: string, n: nat): (field: string)
    requires |s| <= n
    ensures |field| == n
  {
    s + Nuls(n - |s|)
  }

  method Memset(a: array<char>)
    modifies a
    ensures a[..] == Pad("", a.Length)
  {
    for i := 0 to a.Length
      invariant forall k | 0 <= k < i :: a[k] == NUL
    {
      a[i] := NUL;
    }
  }

  /** What copying `s` and its terminator to offset `at` makes of the bytes `a`. */
  function Over(a: string, at: nat, s: string): (b: string)
    requires at + |s| < |a|
    ensures |b| == |a|
  {
    a[..at] + s + [NUL] + a[at + |s| + 1..]
  }

  lemma OverPad(value: string, n: nat, s: string)
    requires |value| + |s| < n
    ensures Over(Pad(value, n), |value|, s) == Pad(value + s, n)
  {
  }

  method CopyTo(a: array<char>, at: nat, s: string)
    requires at + |s| < a.Length
    modifies a
    ensures a[..] == Over(old(a[..]), at, s)
  {
    ghost var before := a[..];
    for i := 0 to |s|
      invariant forall k | 0 <= k < a.Length :: a[k] == if at <= k < at + i then s[k - at] else before[k]
    {
      a[at + i] := s[i];
    }
    a[at + |s|] := NUL;
  }

  method Strcpy(a: array<char>, s: string)
    requires |s| < a.Length && a[..] == Pad("", a.Length)
    modifies a
    ensures a[..] == Pad(s, a.Length)
  {
    OverPad("", a.Length, s);
    assert "" + s == s;
    CopyTo(a, 0, s);
  }

  method Strcat(a: array<char>, s: string, ghost value: string)
    requires |value| + |s| < a.Length && NUL !in value && a[..] == Pad(value, a.Length)
    modifies a
    ensures a[..] == Pad(value + s, a.Length)
  {
    OverPad(value, a.Length, s);
    assert forall k | 0 <= k < |value| :: a[k] == a[..][k] == value[k] && value[k] in value;
    assert a[|value|] == a[..][|value|];
    hide Over, Pad;
    var end := 0;
    while a[end] != NUL
      invariant 0 <= end <= |value|
      decreases |value| - end
    {
      end := end + 1;
    }
    CopyTo(a, end, s);
  }

  // ---- Entries -------------------------------------------------------------------------------

  datatype Entry = Entry(word: string, lines: seq<string>) {
    /** The lines of the definition, one after the other. */
    function Definition(): string { Concat(lines) }

    function Text(): string { word + [NL] + TextOf(lines) + [NL] }

    ghost predicate Ok() {
      && 1 <= |word| <= 30 && NL !in word && NUL !in word
      && lines != []
      && (forall i | 0 <= i < |lines| :: lines[i] != [] && NL !in lines[i] && NUL !in lines[i])
      && |Concat(lines)| <= 478
    }

    function Record(): string
      requires Ok()
    {
      Pad(word + [NL], WORD) + Pad(Definition() + [NL], TEXT)
    }
  }

  function Concat(lines: seq<string>): string {
    if lines == [] then [] else lines[0] + Concat(lines[1..])
  }

  function TextOf(lines: seq<string>): string {
    if lines == [] then [] else lines[0] + [NL] + TextOf(lines[1..])
  }

  ghost predicate AllOk(entries: seq<Entry>) {
    forall k | 0 <= k < |entries| :: entries[k].Ok()
  }

  /** The text file: each entry followed by a blank line. */
  function Print(entries: seq<Entry>): string {
    if entries == [] then [] else entries[0].Text() + Print(entries[1..])
  }

  /** The record file: one record for each entry. */
  function Records(entries: seq<Entry>): (data: string)
    requires AllOk(entries)
    ensures |data| == 512 * |entries|
  {
    if entries == [] then [] else
      assert entries[0].Ok();
      entries[0].Record() + Records(entries[1..])
  }

  lemma {:induction false} ConcatIsClean(lines: seq<string>)
    requires forall i | 0 <= i < |lines| :: NL !in lines[i] && NUL !in lines[i]
    ensures NL !in Concat(lines) && NUL !in Concat(lines)
  {
    if lines != [] {
      ConcatIsClean(lines[1..]);
    }
  }

  lemma {:induction false} ConcatSplits(lines: seq<string>, j: nat)
    requires j < |lines|
    ensures Concat(lines[..j + 1]) == Concat(lines[..j]) + lines[j]
    ensures |Concat(lines[..j + 1])| <= |Concat(lines)|
  {
    if j == 0 {
      assert lines[..1] == [lines[0]] && lines[..0] == [];
      assert Concat([lines[0]]) == lines[0] + Concat([lines[0]][1..]);
    } else {
      ConcatSplits(lines[1..], j - 1);
      assert lines[..j + 1][1..] == lines[1..][..j];
      assert lines[..j][1..] == lines[1..][..j - 1];
    }
  }

  lemma {:induction false} RecordsAppend(entries: seq<Entry>, e: Entry)
    requires AllOk(entries) && e.Ok()
    ensures AllOk(entries + [e])
    ensures Records(entries + [e]) == Records(entries) + e.Record()
  {
    if entries != [] {
      assert (entries + [e])[1..] == entries[1..] + [e];
      RecordsAppend(entries[1..], e);
    } else {
      assert [e][1..] == [];
    }
  }

  // ---- convert -----------------------------------------------------------------------------

  class Sink {
    var data: string

    constructor ()
      ensures data == ""
    {
      data := "";
    }

    method Write(a: array<char>)
      modifies this
      ensures data == old(data) + a[..]
    {
      data := data + a[..];
    }
  }

  /** Reading a line `x` that is there completely. */
  method ReadLine(input: Stream, buffer: string, ghost x: string, ghost rest: string) returns (line: string)
    requires NL !in x && NUL !in x && |x| < BIGLINE - 1 && !input.eof
    requires input.Rest() == x + [NL] + rest
    modifies input
    ensures line == x + [NL] && input.Rest() == rest && !input.eof
  {
    WholeLine(x, rest, BIGLINE - 1);
    line := input.Fgets(BIGLINE, buffer);
  }

  /** The definition lines of one entry, up to and including the blank line. */
  method ReadDefinition(input: Stream, text: array<char>, ghost e: Entry, ghost rest: string) returns (line: string)
    requires e.Ok() && text.Length == TEXT && text[..] == Pad("", TEXT) && !input.eof
    requires input.Rest() == TextOf(e.lines) + [NL] + rest
    modifies input, text
    ensures text[..] == Pad(e.Definition() + [NL], TEXT)
    ensures line == [NL] && input.Rest() == rest && !input.eof
  {
    ghost var lines := e.lines;
    hide Pad, Nuls, TextOf;
    TextOfFirst(e.lines);
    LineFits(e, 0);
    assert input.Rest() == lines[0] + [NL] + (TextOf(lines[1..]) + [NL] + rest);
    line := ReadLine(input, "", lines[0], TextOf(lines[1..]) + [NL] + rest);
    line := line[..|line| - 1];
    ConcatSplits(lines, 0);
    assert Concat(lines[..0]) == [] && [] + lines[0] == lines[0];
    Strcpy(text, line);

    line := ReadNext(input, e, 1, rest);
    ghost var j := 1;
    var noword := true;
    while noword
      invariant 1 <= j <= |lines| && !input.eof && |Concat(lines[..j])| <= 478
      invariant text[..] == Pad(Concat(lines[..j]), TEXT)
      invariant line == if j < |lines| then lines[j] + [NL] else [NL]
      invariant input.Rest() == if j < |lines| then TextOf(lines[j + 1..]) + [NL] + rest else rest
      invariant !noword ==> j == |lines|
      decreases |lines| - j, noword
    {
      if j < |lines| {
        LineFits(e, j);
      }
      if |line| == 1 {
        noword := false;
      } else {
        line := line[..|line| - 1];
        ConcatSplits(lines, j);
        PartIsClean(e, j);
        Strcat(text, line, Concat(lines[..j]));
        line := ReadNext(input, e, j + 1, rest);
        j := j + 1;
      }
    }
    assert lines[..|lines|] == lines;
    PartIsClean(e, |lines|);
    Strcat(text, [NL], Concat(lines));
  }

  /** The line after the first `j` definition lines: one more, or the blank line. */
  method ReadNext(input: Stream, ghost e: Entry, ghost j: nat, ghost rest: string) returns (line: string)
    requires e.Ok() && j <= |e.lines| && !input.eof
    requires input.Rest() == TextOf(e.lines[j..]) + [NL] + rest
    modifies input
    ensures line == (if j < |e.lines| then e.lines[j] + [NL] else [NL]) && !input.eof
    ensures input.Rest() == if j < |e.lines| then TextOf(e.lines[j + 1..]) + [NL] + rest else rest
  {
    ghost var x, tail := [], rest;
    if j < |e.lines| {
      LineFits(e, j);
      x, tail := e.lines[j], TextOf(e.lines[j + 1..]) + [NL] + rest;
      assert e.lines[j..][1..] == e.lines[j + 1..];
    }
    assert input.Rest() == x + [NL] + tail;
    line := ReadLine(input, "", x, tail);
  }

  lemma TextOfFirst(lines: seq<string>)
    requires lines != []
    ensures TextOf(lines) == lines[0] + [NL] + TextOf(lines[1..])
  {
  }

  lemma LineFits(e: Entry, j: nat)
    requires e.Ok() && j < |e.lines|
    ensures e.lines[j] != [] && NL !in e.lines[j] && NUL !in e.lines[j] && |e.lines[j]| <= 478
  {
    ConcatSplits(e.lines, j);
  }

  lemma PartIsClean(e: Entry, j: nat)
    requires e.Ok() && j <= |e.lines|
    ensures NL !in Concat(e.lines[..j]) && NUL !in Concat(e.lines[..j])
  {
    ConcatIsClean(e.lines[..j]);
  }

  /**
   The main loop on a printed list of entries, with or without one extra blank line.  At
   the end of the file the line buffer still holds the last blank line, which ends it.
   */
  method Convert(input: Stream, out: Sink, ghost entries: seq<Entry>, ghost extra: bool)
    requires AllOk(entries) && (entries != [] || extra)
    requires input.data == Print(entries) + (if extra then [NL] else []) && input.pos == 0 && !input.eof
    requires out.data == ""
    modifies input, out
    ensures out.data == Records(entries)
  {
    hide Records, Print, TextOf, Concat, Pad, AllOk, Entry.Ok, Entry.Record;
    ghost var end := if extra then [NL] else [];
    ghost var k := 0;
    var word := new char[WORD];
    var text := new char[TEXT];
    var line := "";
    assert entries[0..] == entries && input.Rest() == Print(entries[0..]) + end;
    StartOf(entries);
    while !input.eof
      invariant 0 <= k <= |entries|
      invariant AllOk(entries[..k]) && out.data == Records(entries[..k])
      invariant !input.eof && input.Rest() == Print(entries[k..]) + end
      invariant k > 0 ==> line == [NL]
      decreases |entries| - k
    {
      Memset(word);
      line := ReadWord(input, line, entries, k, end);
      if |line| == 1 {
        break;
      }
      line := WriteEntry(input, out, word, text, line, entries[k], Print(entries[k + 1..]) + end);
      NextRecord(entries, k);
      k := k + 1;
    }
    assert entries[..|entries|] == entries;
  }

  lemma StartOf(entries: seq<Entry>)
    ensures AllOk(entries[..0]) && Records(entries[..0]) == ""
  {
  }

  /** The rest of one pass: fill in the word, read the definition, write the record. */
  method WriteEntry(input: Stream, out: Sink, word: array<char>, text: array<char>, buffer: string,
                    ghost e: Entry, ghost rest: string)
    returns (line: string)
    requires e.Ok() && !input.eof && word != text && word.Length == WORD && text.Length == TEXT
    requires word[..] == Pad("", WORD) && buffer == e.word + [NL]
    requires input.Rest() == TextOf(e.lines) + [NL] + rest
    modifies input, out, word, text
    ensures line == [NL] && input.Rest() == rest && !input.eof
    ensures out.data == old(out.data) + e.Record()
  {
    RecordIs(e);
    hide TextOf, Concat, Pad, Entry.Record;
    Strcpy(word, buffer);
    Memset(text);
    line := ReadDefinition(input, text, e, rest);
    out.Write(word);
    out.Write(text);
    assert out.data == old(out.data) + (Pad(e.word + [NL], WORD) + Pad(e.Definition() + [NL], TEXT));
  }

  lemma NextRecord(entries: seq<Entry>, k: nat)
    requires k < |entries| && AllOk(entries[..k]) && entries[k].Ok()
    ensures AllOk(entries[..k + 1]) && Records(entries[..k + 1]) == Records(entries[..k]) + entries[k].Record()
  {
    RecordsAppend(entries[..k], entries[k]);
    assert entries[..k + 1] == entries[..k] + [entries[k]];
  }

  lemma RecordIs(e: Entry)
    requires e.Ok()
    ensures e.Record() == Pad(e.word + [NL], WORD) + Pad(e.Definition() + [NL], TEXT)
  {
  }

  /** The line with the next word; at the end a blank line, new or left over in the buffer. */
  method ReadWord(input: Stream, buffer: string, ghost entries: seq<Entry>, ghost k: nat, ghost end: string)
    returns (line: string)
    requires AllOk(entries) && k <= |entries| && !input.eof
    requires end == [NL] || (end == [] && (k < |entries| || buffer == [NL]))
    requires input.Rest() == Print(entries[k..]) + end
    modifies input
    ensures k < |entries| ==>
              && entries[k].Ok() && line == entries[k].word + [NL] && |line| != 1 && !input.eof
              && input.Rest() == TextOf(entries[k].lines) + [NL] + (Print(entries[k + 1..]) + end)
    ensures k == |entries| ==> line == [NL]
  {
    hide Print, TextOf, Concat, FirstLine, UpToNul;
    ghost var x, tail := [], [];
    if k == |entries| {
      assert entries[k..] == [] && Print([]) + end == end by { PrintNothing(end); }
    } else {
      EntryComesNext(entries, k, end);
      x, tail := entries[k].word, TextOf(entries[k].lines) + [NL] + (Print(entries[k + 1..]) + end);
    }
    WholeLine(x, tail, BIGLINE - 1);
    assert [] + [NL] + [] == [NL];
    line := input.Fgets(BIGLINE, buffer);
  }

  lemma PrintNothing(end: string)
    ensures Print([]) + end == end
  {
  }

  lemma EntryComesNext(entries: seq<Entry>, k: nat, end: string)
    requires AllOk(entries) && k < |entries|
    ensures entries[k].Ok()
    ensures Print(entries[k..]) + end
         == entries[k].word + [NL] + (TextOf(entries[k].lines) + [NL] + (Print(entries[k + 1..]) + end))
  {
    assert entries[k..][1..] == entries[k + 1..];
  }

  // ---- lookup1 ------------------------------------------------------------------------------

  function Words(entries: seq<Entry>): (words: seq<string>)
    ensures |words| == |entries| && forall k | 0 <= k < |entries| :: words[k] == entries[k].word
  {
    seq(|entries|, k requires 0 <= k < |entries| => entries[k].word)
  }

  /** What a search of the entry list answers. */
  function Search(entries: seq<Entry>, w: string): Option<string> {
    var i := IndexOf(Words(entries), w);
    if i < |entries| then Some(entries[i].Definition()) else None
  }

  predicate IsProperPrefix(w: string, of: string) {
    0 < |w| < |of| && w <= of
  }

  /** What lookup1 answers: past the end of the table the last word lives on and is shortened. */
  function Lookup1Answer(entries: seq<Entry>, w: string): Option<string>
    requires entries != []
  {
    var last := entries[|entries| - 1];
    if IndexOf(Words(entries), w) == |entries| && IsProperPrefix(w, last.word) then Some(last.Definition())
    else Search(entries, w)
  }

  lemma {:induction false} RecordsFrom(entries: seq<Entry>, k: nat)
    requires AllOk(entries) && k <= |entries|
    ensures AllOk(entries[k..])
    ensures Records(entries)[512 * k..] == Records(entries[k..])
  {
    if k == 0 {
      assert entries[0..] == entries;
    } else {
      assert entries[0].Ok();
      RecordsFrom(entries[1..], k - 1);
      assert entries[1..][k - 1..] == entries[k..];
      var size := WORD + TEXT;
      assert size * k == size + size * (k - 1);
      assert Records(entries)[size * k..] == Records(entries)[size..][size * (k - 1)..];
      assert Records(entries)[size..] == Records(entries[1..]);
    }
  }

  /** Where the word and the text of record `k` start in the file. */
  lemma RecordAt(entries: seq<Entry>, k: nat) returns (behindWord: string, behindText: string)
    requires AllOk(entries) && k < |entries|
    ensures entries[k].Ok() && NL !in entries[k].Definition() && NUL !in entries[k].Definition()
    ensures 512 * k + 32 < |Records(entries)|
    ensures Records(entries)[512 * k..] == entries[k].word + "\n" + behindWord
    ensures Records(entries)[512 * k + 32..] == entries[k].Definition() + "\n" + behindText
  {
    var e := entries[k];
    assert e.Ok();
    ConcatIsClean(e.lines);
    RecordsFrom(entries, k);
    var at := (WORD + TEXT) * k;
    var rest := Records(entries[k + 1..]);
    assert entries[k..][1..] == entries[k + 1..];
    assert Records(entries)[at..] == e.Record() + rest;
    hide Records, AllOk, Concat;
    behindWord, behindText := FieldsOf(e, rest);
    assert Records(entries)[at + WORD..] == Records(entries)[at..][WORD..];
  }

  /** Where a record keeps its word and its text. */
  lemma FieldsOf(e: Entry, rest: string) returns (behindWord: string, behindText: string)
    requires e.Ok()
    ensures e.Record() + rest == e.word + [NL] + behindWord
    ensures |e.Record()| == WORD + TEXT && (e.Record() + rest)[WORD..] == e.Definition() + [NL] + behindText
  {
    var w, t := Pad(e.word + [NL], WORD), Pad(e.Definition() + [NL], TEXT);
    behindText := Nuls(TEXT - |e.Definition()| - 1) + rest;
    behindWord := Nuls(WORD - |e.word| - 1) + (t + rest);
    assert e.Record() + rest == w + (t + rest);
    assert (e.Record() + rest)[WORD..] == t + rest;
  }

  class LocalDictionary {
    var input: Stream?   // opened by the first call

    constructor ()
      ensures input == null
    {
      input := null;
    }

    /** One record, or what is left of the last one once the file is at its end. */
    method ReadRecord(input: Stream, wordBuffer: string, textBuffer: string, ghost entries: seq<Entry>, ghost k: nat)
      returns (word: string, text: string, more: bool)
      requires AllOk(entries) && input.data == Records(entries) && !input.eof && k <= |entries|
      requires if k < |entries| then input.pos == (WORD + TEXT) * k else input.pos >= |input.data|
      requires k == |entries| ==> 1 <= |wordBuffer| <= 30 && 1 <= |textBuffer| < TEXT
      modifies input
      ensures k < |entries| ==>
                && more && word == entries[k].word + [NL] && text == entries[k].Definition() + [NL]
                && input.pos == (WORD + TEXT) * (k + 1) && !input.eof
      ensures k == |entries| ==>
                && word == wordBuffer && text == textBuffer && more == (|word| != 1)
                && input.pos >= |input.data| && (more ==> !input.eof)
    {
      hide Records, AllOk, FirstLine, UpToNul;
      ghost var behindWord, behindText := "", "";
      if k < |entries| {
        behindWord, behindText := RecordAt(entries, k);
        WholeLine(entries[k].word, behindWord, WORD - 1);
        WholeLine(entries[k].Definition(), behindText, TEXT - 1);
      }
      word := input.Fgets(WORD, wordBuffer);
      text := textBuffer;
      more := |word| != 1;
      if more {
        input.Skip(WORD - |word|);
        text := input.Fgets(TEXT, textBuffer);
        input.Skip(TEXT - |text|);
      }
    }

    method Lookup(sought: string, file: string, ghost entries: seq<Entry>)
      returns (answer: Option<string>)
      requires AllOk(entries) && entries != [] && file == Records(entries)
      requires input != null ==> input.data == file
      modifies this, input
      ensures input != null && input.data == file && (old(input) != null ==> input == old(input))
      ensures old(input) == null ==> fresh(input)
      ensures answer == Lookup1Answer(entries, sought)
    {
      hide Records, AllOk, Entry.Ok, Concat;
      if input == null {
        input := new Stream(file);
      }
      input.Rewind();
      var word, text := "", "";
      ghost var k := 0;
      while !input.eof
        invariant input != null && input.data == file && !input.eof && 0 <= k <= |entries|
        invariant input == old(input) || fresh(input)
        invariant old(input) != null ==> input == old(input)
        invariant if k < |entries| then input.pos == (WORD + TEXT) * k else input.pos >= |input.data|
        invariant forall i | 0 <= i < k :: entries[i].word != sought
        invariant k > 0 ==> 1 <= |word| <= 30 && word <= entries[k - 1].word
        invariant k > 0 ==> text == entries[k - 1].Definition() + [NL] && |text| < TEXT
        invariant k > 0 ==> !(sought <= entries[k - 1].word && |word| <= |sought|)
        decreases |entries| - k, if k == |entries| then |word| else 0
      {
        if k < |entries| {
          EntryFits(entries, k);
        }
        var more;
        word, text, more := ReadRecord(input, word, text, entries, k);
        if !more {
          break;
        }
        word := word[..|word| - 1];
        if k < |entries| {
          k := k + 1;
        }
        if word == sought {
          AnswerFound(entries, sought, k, word);
          return Some(text[..|text| - 1]);
        }
      }
      AnswerNone(entries, sought);
      return None;
    }
  }

  lemma EntryFits(entries: seq<Entry>, k: nat)
    requires AllOk(entries) && k < |entries|
    ensures 1 <= |entries[k].word| <= 30 && |entries[k].Definition()| <= 478
  {
    assert entries[k].Ok();
  }

  lemma AnswerNone(entries: seq<Entry>, w: string)
    requires entries != [] && forall k | 0 <= k < |entries| :: entries[k].word != w
    requires !(w <= entries[|entries| - 1].word && 1 <= |w|)
    ensures Lookup1Answer(entries, w) == None
  {
    IndexIs(Words(entries), w, |entries|);
  }

  lemma AnswerFound(entries: seq<Entry>, w: string, k: nat, word: string)
    requires 0 < k <= |entries| && word == w && 1 <= |word| && word <= entries[k - 1].word
    requires forall i | 0 <= i < k - 1 :: entries[i].word != w
    requires word == entries[k - 1].word || (k == |entries| && entries[k - 1].word != w)
    ensures Lookup1Answer(entries, w) == Some(entries[k - 1].Definition())
  {
    IndexIs(Words(entries), w, if word == entries[k - 1].word then k - 1 else k);
  }

  /**
   lookup1 answers as a search of the entry list does, exactly unless the sought word is
   not listed and is a proper prefix of the last word.
   */
  lemma Lookup1IsSearchExactlyWhen(entries: seq<Entry>, w: string)
    requires entries != []
    ensures Lookup1Answer(entries, w) == Search(entries, w)
       <==> !(IndexOf(Words(entries), w) == |entries| && IsProperPrefix(w, entries[|entries| - 1].word))
  {
  }

  /** The false hit on a concrete table of one record. */
  lemma PrefixOfLastWordIsFound()
    ensures var entries := [Entry("cats", ["small ", "animals"])];
            && AllOk(entries)
            && Search(entries, "cat") == None
            && Lookup1Answer(entries, "cat") == Some("small animals")
  {
    var lines := ["small ", "animals"];
    var e := Entry("cats", lines);
    assert lines[1..] == ["animals"] && lines[1..][1..] == [];
    assert Concat(lines[1..]) == "animals" + [] == "animals";
    assert Concat(lines) == "small " + "animals" == "small animals";
    IndexIs(Words([e]), "cat", 1);
    assert "cat" <= "cats";
  }

  /** One entry in full: its lines in the text file, and its record. */
  lemma EntryInFull()
    ensures var e := Entry("cats", ["small ", "animals"]);
            && e.Ok()
            && e.Text() == "cats\nsmall \nanimals\n\n"
            && |e.Record()| == 512 && e.Record()[..32] == "cats\n" + seq(27, _ => '\0')
            && e.Record()[32..] == "small animals\n" + seq(466, _ => '\0')
  {
    hide Lookup1Answer, Search, Concat, TextOf, Entry.Ok, Words, AllOk;
    var e := Entry("cats", ["small ", "animals"]);
    PrefixOfLastWordIsFound();
    assert [e][0].Ok();
    LinesInFull(e.lines);
    PadInFull("cats\n", 32);
    PadInFull("small animals\n", 480);
  }

  lemma LinesInFull(lines: seq<string>)
    requires lines == ["small ", "animals"]
    ensures Concat(lines) == "small animals" && TextOf(lines) == "small \nanimals\n"
  {
    assert lines[1..] == ["animals"] && lines[1..][1..] == [];
    assert Concat(lines[1..]) == "animals" + [] == "animals";
    assert TextOf(lines[1..]) == "animals" + [NL] + [] == "animals\n";
    assert TextOf(lines) == "small " + [NL] + "animals\n" == "small \nanimals\n";
  }

  lemma PadInFull(s: string, n: nat)
    requires |s| <= n
    ensures Pad(s, n) == s + seq(n - |s|, _ => '\0')
  {
  }

  /**
   Round trip: converting a printed list of entries and looking a word up in the result
   gives the joined definition lines of its first entry.
   */
  method ConvertThenLookup(entries: seq<Entry>, extra: bool, w: string) returns (answer: Option<string>)
    requires AllOk(entries) && entries != []
    ensures (exists k :: 0 <= k < |entries| && entries[k].word == w) ==>
              exists k :: 0 <= k < |entries| && entries[k].word == w
                          && (forall i | 0 <= i < k :: entries[i].word != w)
                          && answer == Some(Concat(entries[k].lines))
    ensures (forall k | 0 <= k < |entries| :: entries[k].word != w)
              && !IsProperPrefix(w, entries[|entries| - 1].word) ==>
              answer == None
  {
    var input := new Stream(Print(entries) + if extra then [NL] else []);
    var out := new Sink();
    assert input.Rest() == input.data;
    Convert(input, out, entries, extra);
    var dictionary := new LocalDictionary();
    answer := dictionary.Lookup(w, out.data, entries);
    var i := IndexOf(Words(entries), w);
    if i < |entries| {
      assert entries[i].word == w && answer == Some(Concat(entries[i].lines));
    }
  }
}
