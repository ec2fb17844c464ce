/** An optional value, and the position of a word in a list. */
module Lists {

  datatype Option<+T> = None | Some(value: T)

  /** The index of the first `w`, or the length without one. */
  function IndexOf(words: seq<string>, w: string): (i: nat)
    ensures i <= |words| && forall k | 0 <= k < i :: words[k] != w
    ensures i < |words| ==> words[i] == w
  {
    if words == [] || words[0] == w then 0 else 1 + IndexOf(words[1..], w)
  }

  /** No other index than this one has the word first. */
  lemma IndexIs(words: seq<string>, w: string, i: nat)
    requires i <= |words| && forall k | 0 <= k < i :: words[k] != w
    requires i < |words| ==> words[i] == w
    ensures IndexOf(words, w) == i
  {
  }
}
