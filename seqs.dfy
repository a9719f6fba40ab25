/** Index algebra for removing and replacing one element of a sequence,
    the two in-place edits `splice(i, 1)` and `a[i] = …` make. */
module Seqs {

  /** Writing slot |p| replaces the element between p and tail. */
  lemma ReplaceAt<T>(p: seq<T>, x: T, m: T, tail: seq<T>)
    ensures (p + [x] + tail)[|p| := m] == p + [m] + tail
  {
  }

  /** Cutting slot |p| out leaves p followed by tail. */
  lemma RemoveAt<T>(p: seq<T>, m: T, tail: seq<T>)
    ensures var u := p + [m] + tail; u[..|p|] + u[|p| + 1..] == p + tail
  {
    var u := p + [m] + tail;
    assert u[..|p|] == p;
    assert u[|p| + 1..] == tail;
  }

  lemma PrefixSplit<T>(s: seq<T>, i: int)
    requires 0 <= i < |s|
    ensures s[..i + 1] == s[..i] + [s[i]]
  {
  }

  lemma Assoc<T>(a: seq<T>, b: seq<T>, c: seq<T>)
    ensures a + (b + c) == a + b + c
  {
  }
}
