/** NUL-terminated text in a character buffer. */
module CString {
  const NUL: char := '\0'

  function StrLen(s: seq<char>): (n: nat)
    ensures n <= |s| && (forall j | 0 <= j < n :: s[j] != NUL) && (n < |s| ==> s[n] == NUL)
  {
    if s == [] || s[0] == NUL then 0 else 1 + StrLen(s[1..])
  }

  function Text(s: seq<char>): string {
    s[..StrLen(s)]
  }

  predicate Terminated(s: seq<char>) {
    StrLen(s) < |s|
  }

  lemma TextIs(s: seq<char>, n: nat)
    requires n < |s| && s[n] == NUL && forall j | 0 <= j < n :: s[j] != NUL
    ensures StrLen(s) == n && Text(s) == s[..n] && Terminated(s)
  {
  }

  method StringLength(buf: array<char>) returns (n: nat)
    requires Terminated(buf[..])
    ensures n == StrLen(buf[..])
  {
    n := 0;
    while buf[n] != NUL
      invariant n <= StrLen(buf[..])
      decreases buf.Length - n
    {
      n := n + 1;
    }
  }
}
