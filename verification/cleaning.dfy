/**
 * `clean` (code/process_results.py): drop placeholder strings for unresolved
 * entries from a list, one placeholder word at a time.
 */
module Cleaning {

  /** The default words `clean` removes: how a missing value prints. */
  const PLACEHOLDERS: seq<string> := ["nan", "<NA>"]

  /** The comprehension that keeps every entry different from `word`. */
  function Without(s: seq<string>, word: string): seq<string>
  {
    if s == [] then []
    else (if s[0] == word then [] else [s[0]]) + Without(s[1..], word)
  }

  /** Reference definition: the entries of s that are none of words, in their order. */
  function Kept(s: seq<string>, words: seq<string>): seq<string>
  {
    if s == [] then []
    else (if s[0] in words then [] else [s[0]]) + Kept(s[1..], words)
  }

  /** Every word loses all its occurrences; every other entry keeps all of them. */
  lemma {:induction false} KeptCounts(s: seq<string>, words: seq<string>)
    ensures forall x :: multiset(Kept(s, words))[x] == if x in words then 0 else multiset(s)[x]
  {
    if s != [] {
      KeptCounts(s[1..], words);
      assert s == [s[0]] + s[1..];
    }
  }

  /** a occurs in b in the same order, possibly with gaps. */
  predicate IsSubsequence(a: seq<string>, b: seq<string>)
    decreases |b|
  {
    if a == [] then true
    else if b == [] then false
    else if a[0] == b[0] then IsSubsequence(a[1..], b[1..])
    else IsSubsequence(a, b[1..])
  }

  lemma {:induction false} KeptNothing(s: seq<string>)
    ensures Kept(s, []) == s
  {
    if s != [] {
      KeptNothing(s[1..]);
    }
  }

  /** Removing one more word after the ones already removed is removing all of them. */
  lemma {:induction false} WithoutAfterKept(s: seq<string>, words: seq<string>, word: string)
    ensures Without(Kept(s, words), word) == Kept(s, words + [word])
  {
    if s != [] {
      WithoutAfterKept(s[1..], words, word);
      assert s[0] in words + [word] <==> s[0] in words || s[0] == word;
      var rest := Kept(s[1..], words);
      if s[0] !in words {
        assert Kept(s, words) == [s[0]] + rest;
        assert ([s[0]] + rest)[1..] == rest;
        if s[0] == word {
          assert Kept(s, words + [word]) == Kept(s[1..], words + [word]);
        } else {
          assert Kept(s, words + [word]) == [s[0]] + Kept(s[1..], words + [word]);
        }
      } else {
        assert Kept(s, words) == rest;
        assert Kept(s, words + [word]) == Kept(s[1..], words + [word]);
      }
    }
  }

  /** `clean`: copy the list, then filter it once per word. */
  method Clean(list: seq<string>, words: seq<string> := PLACEHOLDERS) returns (res: seq<string>)
    ensures res == Kept(list, words)
    ensures forall x :: x in res <==> x in list && x !in words
  {
    res := list;
    KeptNothing(list);
    for i := 0 to |words|
      invariant res == Kept(list, words[..i])
    {
      WithoutAfterKept(list, words[..i], words[i]);
      assert words[..i] + [words[i]] == words[..i + 1];
      res := Without(res, words[i]);
    }
    assert words[..|words|] == words;
    KeptCounts(list, words);
    forall x
      ensures x in res <==> x in list && x !in words
    {
      assert x in res <==> x in multiset(res);
      assert x in list <==> x in multiset(list);
    }
  }

  /** What `clean` keeps is a subsequence of its input: the order is unchanged. */
  lemma {:induction false} KeptIsSubsequence(s: seq<string>, words: seq<string>)
    ensures IsSubsequence(Kept(s, words), s)
  {
    if s != [] {
      KeptIsSubsequence(s[1..], words);
      var rest := Kept(s[1..], words);
      if s[0] !in words {
        assert Kept(s, words) == [s[0]] + rest;
        assert ([s[0]] + rest)[1..] == rest;
      } else {
        assert Kept(s, words) == rest;
        if rest != [] {
          KeptCounts(s[1..], words);
          assert rest[0] in multiset(rest);
          assert rest[0] != s[0];
        }
      }
    }
  }

  /** Cleaning a cleaned list changes nothing. */
  lemma {:induction false} KeptIdempotent(s: seq<string>, words: seq<string>)
    ensures Kept(Kept(s, words), words) == Kept(s, words)
  {
    if s != [] {
      KeptIdempotent(s[1..], words);
      var rest := Kept(s[1..], words);
      if s[0] !in words {
        assert Kept(s, words) == [s[0]] + rest;
        assert ([s[0]] + rest)[1..] == rest;
        assert Kept([s[0]] + rest, words) == [s[0]] + Kept(rest, words);
      } else {
        assert Kept(s, words) == rest;
      }
    }
  }
}
