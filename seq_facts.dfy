/** Facts about sequences in general, used by the folds over meals, plan entries
    and tokens. Kept apart so that their proofs see none of the string functions. */
module SeqFacts {

  /** Concatenation is associative; stated once so that proofs about folds can
      regroup their pieces without reasoning about sequence elements. */
  lemma ConcatAssoc<T>(a: seq<T>, b: seq<T>, c: seq<T>)
    ensures (a + b) + c == a + (b + c)
  {
  }

  /** `x` is produced by `f` for some element of `s`. */
  ghost predicate SomeOf<A, B>(s: seq<A>, f: A -> seq<B>, x: B)
  {
    exists d :: 0 <= d < |s| && x in f(s[d])
  }

  /** Splitting off the last element of `s` splits `SomeOf` the same way. */
  lemma SomeOfLast<A, B>(s: seq<A>, f: A -> seq<B>, x: B)
    requires s != []
    ensures SomeOf(s, f, x) <==> SomeOf(s[..|s| - 1], f, x) || x in f(s[|s| - 1])
  {
    var n := |s| - 1;
    if SomeOf(s, f, x) {
      var d :| 0 <= d < |s| && x in f(s[d]);
      if d < n {
        assert s[..n][d] == s[d];
      }
    }
    if SomeOf(s[..n], f, x) {
      var d :| 0 <= d < n && x in f(s[..n][d]);
      assert s[..n][d] == s[d];
    }
  }
}
