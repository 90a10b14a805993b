/** Facts about slicing sequences that grow at the end, stated once for every element type. */
module Seqs {
  /** Dropping the last element of `s + [a]` gives `s`. */
  lemma DropLast<T>(s: seq<T>, a: T)
    ensures (s + [a])[..|s|] == s
    ensures (s + [a])[|s|] == a
  {
  }

  /** Dropping the last element of `s + [a, b]` gives `s + [a]`. */
  lemma DropLast2<T>(s: seq<T>, a: T, b: T)
    ensures (s + [a, b])[..|s| + 1] == s + [a]
    ensures (s + [a, b])[|s| + 1] == b
  {
  }

  /** A non-empty sequence is its prefix and its last element. */
  lemma InitAndLast<T>(s: seq<T>)
    requires |s| > 0
    ensures s == s[..|s| - 1] + [s[|s| - 1]]
  {
  }

  /** A sequence one longer than `p` that starts with `p` is `p` and its last element. */
  lemma ExtendsBy<T>(s: seq<T>, p: seq<T>)
    requires |s| == |p| + 1 && s[..|p|] == p
    ensures s == p + [s[|p|]]
  {
  }

  /** Appending nothing changes nothing. */
  lemma AppendEmpty<T>(s: seq<T>)
    ensures s + [] == s
  {
  }
}
