// Small definitions shared by every other module: an optional value, and the
// two facts about sequence prefixes that the left-to-right loops step with.

module Common {

  datatype Option<T> = None | Some(value: T)

  /** Taking one more element of a sequence. */
  lemma PrefixSnoc<T>(s: seq<T>, i: nat)
    requires i < |s|
    ensures s[..i + 1] == s[..i] + [s[i]]
  {
  }

  /** A prefix of length zero or of the whole sequence. */
  lemma PrefixEnds<T>(s: seq<T>)
    ensures s[..0] == [] && s[..|s|] == s
  {
  }
}
