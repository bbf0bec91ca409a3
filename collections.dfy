/** Small facts about sets and sequences shared by the other modules. */
module Collections {

  lemma SomeOf<X>(s: set<X>) returns (x: X)
    requires |s| > 0
    ensures x in s
  {
    x :| x in s;
  }

  method Pick<X>(s: set<X>) returns (x: X)
    requires |s| > 0
    ensures x in s
  {
    x :| x in s;
  }

  /** The elements of a sequence. */
  function Elems<X(!new)>(s: seq<X>): (r: set<X>)
    ensures forall x :: x in r <==> x in s
  {
    set x | x in s
  }

  lemma ElemsSnoc<X(!new)>(s: seq<X>, x: X)
    ensures Elems(s + [x]) == Elems(s) + {x}
  {
  }

  lemma PrefixSnoc<X>(s: seq<X>, i: nat)
    requires i < |s|
    ensures s[..i + 1] == s[..i] + [s[i]]
  {
  }

  lemma ConsPrefix<X>(x: X, s: seq<X>, n: nat)
    requires 1 <= n <= |s| + 1
    ensures ([x] + s)[..n] == [x] + s[..n - 1]
  {
  }

  lemma PrefixOfTail<X>(s: seq<X>, n: nat)
    requires 1 <= n <= |s|
    ensures s[..n] == [s[0]] + s[1..][..n - 1]
  {
  }

  /** A sequence has at least as many positions as distinct elements. */
  lemma {:induction false} ElemsCard<X(!new)>(s: seq<X>)
    ensures |Elems(s)| <= |s|
  {
    if s != [] {
      var init := s[..|s| - 1];
      ElemsCard(init);
      assert s == init + [s[|s| - 1]];
      ElemsSnoc(init, s[|s| - 1]);
    }
  }

  /** Removing keys one at a time is removing them all. */
  lemma MinusStep<K, V>(m: map<K, V>, a: set<K>, k: K)
    ensures (m - a) - {k} == m - (a + {k})
  {
  }

  /** Concatenation regroups freely. */
  lemma ConcatAssoc<T>(a: seq<T>, b: seq<T>, c: seq<T>)
    ensures a + (b + c) == (a + b) + c
  {
  }
}
