/** Small operations on texts. */
module Texts {
  /** Where the first `c` is, or the length of the text when there is none. */
  function IndexOf(s: string, c: char): (i: nat)
    ensures i <= |s|
  {
    if s == "" || s[0] == c then 0 else 1 + IndexOf(s[1..], c)
  }

  lemma {:induction false} FirstIndex(s: string, c: char, i: nat)
    requires i <= |s| && (i < |s| ==> s[i] == c) && forall k | 0 <= k < i :: s[k] != c
    ensures IndexOf(s, c) == i
    decreases |s|
  {
    if i > 0 {
      forall k | 0 <= k < i - 1 ensures s[1..][k] != c { assert s[k + 1] != c; }
      FirstIndex(s[1..], c, i - 1);
    }
  }

  lemma {:induction false} IndexIsFirst(s: string, c: char)
    ensures IndexOf(s, c) < |s| ==> s[IndexOf(s, c)] == c
    ensures forall k | 0 <= k < IndexOf(s, c) :: s[k] != c
    decreases |s|
  {
    if s != "" && s[0] != c {
      IndexIsFirst(s[1..], c);
      forall k | 0 <= k < IndexOf(s, c) ensures s[k] != c {
        if k > 0 { assert s[k] == s[1..][k - 1]; }
      }
    }
  }

  function Lower(c: char): (l: char) {
    if 'A' <= c <= 'Z' then (c as int - 'A' as int + 'a' as int) as char else c
  }

  function Folded(s: string): (r: string) {
    seq(|s|, i requires 0 <= i < |s| => Lower(s[i]))
  }

  /** One character is the capital of the other. */
  predicate Capital(u: char, l: char) {
    'A' <= u <= 'Z' && l as int == u as int + 32
  }

  /** The texts differ at most in the case of letters. */
  ghost predicate SameUpToCase(a: string, b: string) {
    |a| == |b| && forall i | 0 <= i < |a| :: a[i] == b[i] || Capital(a[i], b[i]) || Capital(b[i], a[i])
  }

  lemma LowerIff(c: char, d: char)
    ensures Lower(c) == Lower(d) <==> c == d || Capital(c, d) || Capital(d, c)
  {
  }

  /** Folding identifies exactly the texts that differ in case only. */
  lemma FoldedIff(a: string, b: string)
    ensures Folded(a) == Folded(b) <==> SameUpToCase(a, b)
  {
    forall c, d ensures Lower(c) == Lower(d) <==> c == d || Capital(c, d) || Capital(d, c) { LowerIff(c, d); }
    if Folded(a) == Folded(b) {
      forall i | 0 <= i < |a| ensures a[i] == b[i] || Capital(a[i], b[i]) || Capital(b[i], a[i]) {
        assert Folded(a)[i] == Folded(b)[i];
      }
    }
    assert SameUpToCase(a, b) ==> Folded(a) == Folded(b);
  }

  predicate NoCapitals(s: string) {
    forall c | c in s :: !('A' <= c <= 'Z')
  }

  /** The folded text is the one without capitals among those that differ in case only. */
  lemma FoldedIs(a: string, b: string)
    ensures b == Folded(a) <==> NoCapitals(b) && SameUpToCase(a, b)
  {
    FoldedIff(a, b);
    if b == Folded(a) {
      forall c | c in b ensures !('A' <= c <= 'Z') {
        var i :| 0 <= i < |b| && b[i] == c;
        assert c == Lower(a[i]);
      }
    }
    if NoCapitals(b) {
      forall i | 0 <= i < |b| ensures Folded(b)[i] == b[i] { assert b[i] in b; }
      assert Folded(b) == b;
    }
  }

  lemma FoldedWord(word: string)
    requires forall c | c in word :: 'a' <= c <= 'z'
    ensures Folded(word) == word
  {
    forall i | 0 <= i < |word| ensures Folded(word)[i] == word[i] { assert word[i] in word; }
  }
}
