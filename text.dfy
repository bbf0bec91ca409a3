/** String predicates shared by the Ruby, Go and JavaScript parts: prefixes, substrings, ASCII case, white space. */
module Text {
  predicate HasPrefix(s: string, p: string) {
    |p| <= |s| && s[..|p|] == p
  }

  predicate HasSuffix(s: string, p: string) {
    |p| <= |s| && s[|s| - |p|..] == p
  }

  /** Whether `k` occurs in `s` as a substring. */
  predicate Occurs(s: string, k: string)
    decreases |s|
  {
    HasPrefix(s, k) || (|s| > 0 && Occurs(s[1..], k))
  }

  /** ASCII lower case; other characters are left alone. */
  function Lower(c: char): char {
    if 'A' <= c <= 'Z' then (c as int + 32) as char else c
  }

  function Downcase(s: string): (r: string)
    ensures |r| == |s| && forall i :: 0 <= i < |s| ==> r[i] == Lower(s[i])
  {
    seq(|s|, i requires 0 <= i < |s| => Lower(s[i]))
  }

  /** Equal up to ASCII case (Ruby's `casecmp(…) == 0`, Go's `strings.EqualFold` on ASCII). */
  predicate CaseEqual(a: string, b: string) {
    |a| == |b| && forall i :: 0 <= i < |a| ==> Lower(a[i]) == Lower(b[i])
  }

  /** ASCII white space: space, tab, line feed, vertical tab, form feed, carriage return. */
  predicate IsSpace(c: char) {
    c == ' ' || c == '\t' || c == '\n' || c == '\U{B}' || c == '\U{C}' || c == '\r'
  }

  /** The position of the first `c` in `s`, or the length when there is none. */
  function IndexOf(s: string, c: char): (n: nat)
    ensures n <= |s| && (n < |s| ==> s[n] == c)
    ensures forall i :: 0 <= i < n ==> s[i] != c
  {
    if s == [] || s[0] == c then 0 else 1 + IndexOf(s[1..], c)
  }

  /** Text without `c`, followed by `c` or by nothing: the first `c` is right after the text. */
  lemma {:induction false} IndexOfAfter(t: string, rest: string, c: char)
    requires forall i :: 0 <= i < |t| ==> t[i] != c
    requires rest == [] || rest[0] == c
    ensures IndexOf(t + rest, c) == |t|
  {
    if t != [] {
      assert (t + rest)[1..] == t[1..] + rest;
      IndexOfAfter(t[1..], rest, c);
    } else {
      assert t + rest == rest;
    }
  }
}
