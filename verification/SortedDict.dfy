/** Binary search in a sorted table of records, compared by the words as C strings. */
module SortedDict {
  import opened Lists

  const NOT_FOUND: string := "Not Found!"

  datatype Dictrec = Dictrec(word: string, text: string)

  /** What a lookup leaves for its caller: the return value and the text field. */
  datatype Reply = Reply(found: bool, text: string)

  /** strcmp: negative, zero or positive. */
  function StrCmp(a: string, b: string): int {
    if a == [] && b == [] then 0
    else if a == [] then -1
    else if b == [] then 1
    else if a[0] < b[0] then -1
    else if a[0] > b[0] then 1
    else StrCmp(a[1..], b[1..])
  }

  lemma {:induction false} CmpIsAntisymmetric(a: string, b: string)
    ensures StrCmp(a, b) == -StrCmp(b, a)
    ensures StrCmp(a, b) == 0 <==> a == b
  {
    if a != [] && b != [] && a[0] == b[0] {
      CmpIsAntisymmetric(a[1..], b[1..]);
      assert a == [a[0]] + a[1..] && b == [b[0]] + b[1..];
    }
  }

  lemma {:induction false} CmpIsTransitive(a: string, b: string, c: string)
    requires StrCmp(a, b) <= 0 && StrCmp(b, c) <= 0
    ensures StrCmp(a, c) <= 0
    ensures StrCmp(a, b) < 0 || StrCmp(b, c) < 0 ==> StrCmp(a, c) < 0
  {
    if a != [] && b != [] && c != [] && a[0] == b[0] == c[0] {
      CmpIsTransitive(a[1..], b[1..], c[1..]);
    }
  }

  lemma SameBefore(a: string, b: string, k: nat, m: nat)
    requires m < k <= |a| && k <= |b| && a[..k] == b[..k]
    ensures a[m] == b[m]
  {
    assert a[..k][m] == a[m] && b[..k][m] == b[m];
  }

  /** strcmp is negative exactly for a proper prefix, or a smaller character at the first difference. */
  lemma {:induction false} CmpIsLexicographic(a: string, b: string)
    ensures StrCmp(a, b) < 0
       <==> a < b || exists k :: 0 <= k < |a| && k < |b| && a[..k] == b[..k] && a[k] < b[k]
  {
    if a != [] && b != [] && a[0] == b[0] {
      CmpIsLexicographic(a[1..], b[1..]);
      assert a == [a[0]] + a[1..] && b == [b[0]] + b[1..];
      if k :| 0 <= k < |a| && k < |b| && a[..k] == b[..k] && a[k] < b[k] {
        assert a[1..][..k - 1] == a[..k][1..] && b[1..][..k - 1] == b[..k][1..];
      }
      if k :| 0 <= k < |a[1..]| && k < |b[1..]| && a[1..][..k] == b[1..][..k] && a[1..][k] < b[1..][k] {
        assert a[..k + 1] == [a[0]] + a[1..][..k] && b[..k + 1] == [b[0]] + b[1..][..k];
      }
    } else if a != [] && b != [] {
      assert a[..0] == b[..0];
      if k :| 0 <= k < |a| && k < |b| && a[..k] == b[..k] && a[k] < b[k] {
        if k > 0 {
          SameBefore(a, b, k, 0);
        }
      }
    }
  }

  ghost predicate StrictlySorted(table: seq<Dictrec>) {
    forall i, j | 0 <= i < j < |table| :: StrCmp(table[i].word, table[j].word) < 0
  }

  function DictCmp(key: string, rec: Dictrec): int {
    StrCmp(key, rec.word)
  }

  // ---- Linear search: the simple form --------------------------------------------------------

  function Words(table: seq<Dictrec>): (words: seq<string>)
    ensures |words| == |table| && forall k | 0 <= k < |table| :: words[k] == table[k].word
  {
    seq(|table|, k requires 0 <= k < |table| => table[k].word)
  }

  /** What a scan of the whole table answers. */
  function Scan(table: seq<Dictrec>, w: string): Reply {
    var i := IndexOf(Words(table), w);
    if i < |table| then Reply(true, table[i].text) else Reply(false, NOT_FOUND)
  }

  // ---- Binary search: the fast form ------------------------------------------------------------

  /** Words on one side of a compared record are on that side of the key as well. */
  lemma Halves(table: seq<Dictrec>, key: string, mid: nat)
    requires StrictlySorted(table) && mid < |table|
    ensures DictCmp(key, table[mid]) < 0 ==> forall k | mid <= k < |table| :: table[k].word != key
    ensures DictCmp(key, table[mid]) > 0 ==> forall k | 0 <= k <= mid :: table[k].word != key
    ensures DictCmp(key, table[mid]) == 0 ==> table[mid].word == key
  {
    CmpIsAntisymmetric(key, table[mid].word);
    forall k | mid <= k < |table| && DictCmp(key, table[mid]) < 0 ensures table[k].word != key {
      CmpIsAntisymmetric(key, table[k].word);
      if k > mid {
        CmpIsTransitive(key, table[mid].word, table[k].word);
      }
    }
    forall k | 0 <= k <= mid && DictCmp(key, table[mid]) > 0 ensures table[k].word != key {
      CmpIsAntisymmetric(table[k].word, key);
      if k < mid {
        CmpIsTransitive(table[k].word, table[mid].word, key);
      }
    }
  }

  /** The record that halving the range from `lo` to `hi` ends at, or -1; the table may be in any order. */
  function Halving(key: string, table: seq<Dictrec>, lo: nat, hi: nat): (found: int)
    requires lo <= hi <= |table|
    ensures -1 <= found < |table|
    decreases hi - lo
  {
    if lo == hi then -1
    else
      var mid := (lo + hi) / 2;
      var c := DictCmp(key, table[mid]);
      if c < 0 then Halving(key, table, lo, mid) else if c > 0 then Halving(key, table, mid + 1, hi) else mid
  }

  /** In a sorted table it ends at the record with the key, unless there is none. */
  lemma {:induction false} HalvingFinds(key: string, table: seq<Dictrec>, lo: nat, hi: nat)
    requires StrictlySorted(table) && lo <= hi <= |table|
    requires forall k | 0 <= k < |table| && !(lo <= k < hi) :: table[k].word != key
    ensures var at := Halving(key, table, lo, hi);
            if at >= 0 then table[at].word == key else forall k | 0 <= k < |table| :: table[k].word != key
    decreases hi - lo
  {
    if lo < hi {
      var mid := (lo + hi) / 2;
      Halves(table, key, mid);
      var c := DictCmp(key, table[mid]);
      hide DictCmp, StrictlySorted;
      if c < 0 {
        HalvingFinds(key, table, lo, mid);
      } else if c > 0 {
        HalvingFinds(key, table, mid + 1, hi);
      }
    }
  }

  /** What lookup5 answers, on a table in any order. */
  function Lookup5(table: seq<Dictrec>, w: string): Reply {
    var at := Halving(w, table, 0, |table|);
    if at >= 0 then Reply(true, table[at].text) else Reply(false, NOT_FOUND)
  }

  /** On a sorted table the fast search answers as the simple one. */
  lemma Lookup5IsScan(table: seq<Dictrec>, w: string)
    requires StrictlySorted(table)
    ensures Lookup5(table, w) == Scan(table, w)
  {
    HalvingFinds(w, table, 0, |table|);
    var at := Halving(w, table, 0, |table|);
    if at >= 0 {
      OnlyOne(table, w, at);
    } else {
      IndexIs(Words(table), w, |table|);
    }
  }

  lemma OnlyOne(table: seq<Dictrec>, w: string, at: nat)
    requires StrictlySorted(table) && at < |table| && table[at].word == w
    ensures IndexOf(Words(table), w) == at
  {
    forall k | 0 <= k < at ensures Words(table)[k] != w {
      CmpIsAntisymmetric(table[k].word, table[at].word);
    }
    IndexIs(Words(table), w, at);
  }

  // ---- Exactly which tables the fast search can use -----------------------------------------------

  ghost predicate SortedBetween(table: seq<Dictrec>, lo: nat, hi: nat)
    requires lo <= hi <= |table|
  {
    forall i, j | lo <= i < j < hi :: StrCmp(table[i].word, table[j].word) < 0
  }

  /** Halving a range finds each record of the range by its own word. */
  ghost predicate FindsAll(table: seq<Dictrec>, lo: nat, hi: nat)
    requires lo <= hi <= |table|
  {
    forall k | lo <= k < hi :: Halving(table[k].word, table, lo, hi) == k
  }

  lemma {:induction false} HalvingStaysInside(key: string, table: seq<Dictrec>, lo: nat, hi: nat)
    requires lo <= hi <= |table|
    ensures var at := Halving(key, table, lo, hi); at == -1 || lo <= at < hi
    decreases hi - lo
  {
    if lo < hi {
      var mid := (lo + hi) / 2;
      HalvingStaysInside(key, table, lo, mid);
      HalvingStaysInside(key, table, mid + 1, hi);
    }
  }

  /** A record that is found lies on the side of the middle that its comparison says. */
  lemma FoundOnItsSide(table: seq<Dictrec>, lo: nat, hi: nat, k: nat)
    requires lo <= k < hi <= |table| && Halving(table[k].word, table, lo, hi) == k
    ensures var mid := (lo + hi) / 2;
            && (k < mid ==> StrCmp(table[k].word, table[mid].word) < 0 && Halving(table[k].word, table, lo, mid) == k)
            && (mid < k ==> StrCmp(table[mid].word, table[k].word) < 0
                            && Halving(table[k].word, table, mid + 1, hi) == k)
  {
    var mid := (lo + hi) / 2;
    HalvingStaysInside(table[k].word, table, lo, mid);
    HalvingStaysInside(table[k].word, table, mid + 1, hi);
    CmpIsAntisymmetric(table[k].word, table[mid].word);
  }

  /** The words before the middle are smaller and those behind it larger. */
  ghost predicate Parted(table: seq<Dictrec>, lo: nat, mid: nat, hi: nat)
    requires lo <= mid < hi <= |table|
  {
    && (forall i | lo <= i < mid :: StrCmp(table[i].word, table[mid].word) < 0)
    && (forall j | mid < j < hi :: StrCmp(table[mid].word, table[j].word) < 0)
  }

  lemma FindsAllInHalves(table: seq<Dictrec>, lo: nat, hi: nat)
    requires lo < hi <= |table| && FindsAll(table, lo, hi)
    ensures var mid := (lo + hi) / 2;
            FindsAll(table, lo, mid) && FindsAll(table, mid + 1, hi) && Parted(table, lo, mid, hi)
  {
    var mid := (lo + hi) / 2;
    hide Halving, StrCmp;
    forall k | lo <= k < hi
      ensures k < mid ==> StrCmp(table[k].word, table[mid].word) < 0 && Halving(table[k].word, table, lo, mid) == k
      ensures mid < k ==> StrCmp(table[mid].word, table[k].word) < 0
                          && Halving(table[k].word, table, mid + 1, hi) == k
    {
      FoundOnItsSide(table, lo, hi, k);
    }
  }

  lemma SortedFromHalves(table: seq<Dictrec>, lo: nat, mid: nat, hi: nat)
    requires lo <= mid < hi <= |table| && Parted(table, lo, mid, hi)
    requires SortedBetween(table, lo, mid) && SortedBetween(table, mid + 1, hi)
    ensures SortedBetween(table, lo, hi)
  {
    hide StrCmp;
    forall i, j | lo <= i < j < hi ensures StrCmp(table[i].word, table[j].word) < 0 {
      if i < mid < j {
        CmpIsTransitive(table[i].word, table[mid].word, table[j].word);
      }
    }
  }

  lemma {:induction false} FindingAllMeansSorted(table: seq<Dictrec>, lo: nat, hi: nat)
    requires lo <= hi <= |table| && FindsAll(table, lo, hi)
    ensures SortedBetween(table, lo, hi)
    decreases hi - lo
  {
    if lo < hi {
      var mid := (lo + hi) / 2;
      FindsAllInHalves(table, lo, hi);
      hide FindsAll, Parted, SortedBetween;
      FindingAllMeansSorted(table, lo, mid);
      FindingAllMeansSorted(table, mid + 1, hi);
      SortedFromHalves(table, lo, mid, hi);
    }
  }

  /** The fast search finds every record of a table by its word exactly when the table is strictly sorted. */
  lemma FindsAllExactlyWhen(table: seq<Dictrec>)
    ensures StrictlySorted(table) <==> forall k | 0 <= k < |table| :: Halving(table[k].word, table, 0, |table|) == k
  {
    if StrictlySorted(table) {
      forall k | 0 <= k < |table| ensures Halving(table[k].word, table, 0, |table|) == k {
        HalvingFinds(table[k].word, table, 0, |table|);
        OnlyOne(table, table[k].word, k);
        OnlyOne(table, table[k].word, Halving(table[k].word, table, 0, |table|));
      }
    }
    if FindsAll(table, 0, |table|) {
      FindingAllMeansSorted(table, 0, |table|);
    }
  }

  /** One that is not, and the word that is missed. */
  lemma UnsortedTableLosesWord()
    ensures var table := [Dictrec("b", "x"), Dictrec("a", "y")];
            Lookup5(table, "b") == Reply(false, NOT_FOUND) && Scan(table, "b") == Reply(true, "x")
  {
    var table := [Dictrec("b", "x"), Dictrec("a", "y")];
    assert StrCmp("b", "a") == 1;
    assert Halving("b", table, 0, 2) == Halving("b", table, 2, 2);
    IndexIs(Words(table), "b", 0);
  }

  /** bsearch over the first `numrec` records. */
  method BSearch(key: string, table: array<Dictrec>, numrec: nat) returns (found: int)
    requires numrec <= table.Length
    ensures found == Halving(key, table[..numrec], 0, numrec)
    ensures StrictlySorted(table[..numrec]) ==>
              if found >= 0 then found < numrec && table[found].word == key
              else forall k | 0 <= k < numrec :: table[k].word != key
  {
    ghost var recs := table[..numrec];
    if StrictlySorted(recs) {
      HalvingFinds(key, recs, 0, numrec);
    }
    assert forall k | 0 <= k < numrec :: recs[k] == table[k];
    hide StrictlySorted;
    var lo, hi := 0, numrec;
    while lo < hi
      invariant 0 <= lo <= hi <= numrec
      invariant Halving(key, recs, lo, hi) == Halving(key, recs, 0, numrec)
    {
      var mid := (lo + hi) / 2;
      var c := DictCmp(key, table[mid]);
      if c < 0 {
        hi := mid;
      } else if c > 0 {
        lo := mid + 1;
      } else {
        return mid;
      }
    }
    return -1;
  }

  /** The caller's record: the word is the question, the text is overwritten by the answer. */
  class Sought {
    var word: string
    var text: string

    constructor (word: string, text: string)
      ensures this.word == word && this.text == text
    {
      this.word, this.text := word, text;
    }
  }

  /** lookup5, with the mapped table kept from the first call on. */
  class MappedDictionary {
    var table: array?<Dictrec>
    var numrec: nat

    constructor ()
      ensures table == null
    {
      table, numrec := null, 0;
    }

    /** The mapping, once made, is the file. */
    ghost predicate Valid(file: seq<Dictrec>)
      reads this, table
    {
      table != null ==> numrec == table.Length && table[..] == file
    }

    method Lookup(sought: Sought, file: seq<Dictrec>) returns (found: bool)
      requires Valid(file)
      modifies this, sought`text
      ensures Valid(file) && table != null && (old(table) != null ==> table == old(table))
      ensures Reply(found, sought.text) == Lookup5(file, sought.word)
      ensures StrictlySorted(file) ==> Reply(found, sought.text) == Scan(file, sought.word)
    {
      if table == null {
        table := new Dictrec[|file|](i requires 0 <= i < |file| => file[i]);
        numrec := table.Length;
      }
      assert table[..numrec] == file;
      if StrictlySorted(file) {
        Lookup5IsScan(file, sought.word);
      }
      hide StrictlySorted, Scan;
      var at := BSearch(sought.word, table, numrec);
      if at >= 0 {
        sought.text := table[at].text;
        return true;
      } else {
        sought.text := NOT_FOUND;
        return false;
      }
    }
  }
}
