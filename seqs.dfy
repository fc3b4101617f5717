/** Small facts about sequence slices, stated once so that proofs about the
    model can cite them without re-deriving them in a large context. */
module Seqs {

  /** A prefix one longer is the shorter prefix and the next element. */
  lemma TakeSnoc<T>(s: seq<T>, i: nat)
    requires i < |s|
    ensures s[..i + 1] == s[..i] + [s[i]]
  {
  }

  /** Replacing the last element is dropping it and appending the new one. */
  lemma UpdateLast<T>(s: seq<T>, v: T)
    requires s != []
    ensures s[|s| - 1 := v] == s[..|s| - 1] + [v]
  {
  }

  /** A non-empty sequence is its prefix without the last element, then that element. */
  lemma SplitLast<T>(s: seq<T>)
    requires s != []
    ensures s == s[..|s| - 1] + [s[|s| - 1]]
  {
  }

  /** Appending one element and dropping it again gives the sequence back. */
  lemma DropLast<T>(s: seq<T>, x: T)
    ensures var l := s + [x]; l[..|l| - 1] == s && l[|l| - 1] == x
  {
  }

  /** A non-empty sequence is its first element, then the rest. */
  lemma SplitFirst<T>(s: seq<T>)
    requires s != []
    ensures s == [s[0]] + s[1..]
  {
  }

  lemma AppendAssoc<T>(a: seq<T>, b: seq<T>, c: seq<T>)
    ensures a + (b + c) == (a + b) + c
  {
  }
}
