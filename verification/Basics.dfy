/** What several components share: optional values, and C text as a sequence of characters. */
module Basics {

  datatype Option<T> = None | Some(value: T)

  /** Where c first stands in s; |s| if nowhere. */
  function IndexOf(s: string, c: char): (k: nat)
    ensures k <= |s|
    ensures k < |s| ==> s[k] == c
    ensures forall i :: 0 <= i < k ==> s[i] != c
  {
    if s == [] || s[0] == c then 0 else 1 + IndexOf(s[1..], c)
  }

  lemma IndexIs(s: string, c: char, k: nat)
    requires k <= |s| && (k < |s| ==> s[k] == c)
    requires forall i :: 0 <= i < k ==> s[i] != c
    ensures IndexOf(s, c) == k
  {
  }

  /** The first n characters, or all of them. */
  function Cut(s: string, n: nat): (t: string)
    ensures |t| <= n && |t| <= |s| && t == s[..|t|]
    ensures |s| <= n ==> t == s
    ensures |s| > n ==> |t| == n
  {
    if |s| <= n then s else s[..n]
  }

  /** The C string in a buffer: what comes before the first NUL. */
  function CStr(s: string): (t: string)
    ensures |t| <= |s| && '\0' !in t
    ensures '\0' !in s ==> t == s
  {
    s[..IndexOf(s, '\0')]
  }
}
