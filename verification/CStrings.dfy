/** C strings: the value of a buffer is what comes before the first NUL. */
module CStrings {

  const NUL: char := '\0'
  const NL: char := '\n'

  function UpToNul(s: string): (t: string)
    ensures |t| <= |s|
  {
    if s == [] || s[0] == NUL then [] else [s[0]] + UpToNul(s[1..])
  }

  lemma {:induction false} UpToNulIsPrefix(s: string)
    ensures UpToNul(s) <= s && NUL !in UpToNul(s)
  {
    if s != [] && s[0] != NUL {
      UpToNulIsPrefix(s[1..]);
    }
  }

  lemma {:induction false} UpToNulAt(s: string, n: nat)
    requires n < |s| && s[n] == NUL && NUL !in s[..n]
    ensures UpToNul(s) == s[..n]
  {
    if n > 0 {
      assert s[0] == s[..n][0];
      assert s[1..][..n - 1] == s[..n][1..];
      UpToNulAt(s[1..], n - 1);
    }
  }

  lemma {:induction false} UpToNulEnds(s: string)
    requires NUL in s
    ensures |UpToNul(s)| < |s| && s[|UpToNul(s)|] == NUL
  {
    if s[0] != NUL {
      assert NUL in s[1..];
      UpToNulEnds(s[1..]);
    }
  }
}
