// A label-to-number dictionary that remembers the order in which its keys
// were first inserted, as a Python dict does. Both chart aggregators build
// one: `if k not in d: d[k] = 0` is Touch, `d[k] += x` is Add.

module Tallies {

  predicate Distinct(s: seq<string>)
  {
    forall i, j :: 0 <= i < j < |s| ==> s[i] != s[j]
  }

  /** The distinct elements of s, each at the place it first occurs. */
  function FirstSeen(s: seq<string>): (r: seq<string>)
    ensures Distinct(r)
    ensures forall x :: x in r <==> x in s
    decreases |s|
  {
    if s == [] then []
    else
      var seen := FirstSeen(s[..|s| - 1]);
      var last := s[|s| - 1];
      assert forall x :: x in s <==> x in s[..|s| - 1] || x == last by {
        assert s == s[..|s| - 1] + [last];
      }
      if last in seen then seen else seen + [last]
  }

  lemma FirstSeenSnoc(s: seq<string>, x: string)
    ensures FirstSeen(s + [x]) == if x in FirstSeen(s) then FirstSeen(s) else FirstSeen(s) + [x]
  {
    assert (s + [x])[..|s|] == s;
  }

  /** Position of the first occurrence of x in s. */
  function FirstIndex(s: seq<string>, x: string): (k: nat)
    requires x in s
    ensures k < |s| && s[k] == x && x !in s[..k]
  {
    if s[0] == x then 0
    else
      assert s == [s[0]] + s[1..];
      var k := 1 + FirstIndex(s[1..], x);
      assert s[..k] == [s[0]] + s[1..][..k - 1];
      k
  }

  /** Where x already occurs in a prefix of s, its first position in s is its first position in that prefix. */
  lemma FirstIndexInPrefix(s: seq<string>, n: nat, x: string)
    requires n <= |s| && x in s[..n]
    ensures FirstIndex(s, x) == FirstIndex(s[..n], x) < n
  {
  }

  /** FirstSeen keeps the labels in the order of their first occurrence. */
  lemma {:induction false} FirstSeenOrder(s: seq<string>, i: nat, j: nat)
    requires i < j < |FirstSeen(s)|
    ensures FirstIndex(s, FirstSeen(s)[i]) < FirstIndex(s, FirstSeen(s)[j])
    decreases |s|
  {
    var n := |s| - 1;
    var front := s[..n];
    var seen := FirstSeen(front);
    var r := FirstSeen(s);
    assert r[i] in front;
    FirstIndexInPrefix(s, n, r[i]);
    if j < |seen| {
      assert r[i] == seen[i] && r[j] == seen[j];
      FirstIndexInPrefix(s, n, r[j]);
      FirstSeenOrder(front, i, j);
    } else {
      assert r[j] == s[n] && s[n] !in front;
      assert FirstIndex(s, r[j]) == n;
    }
  }

  /** The sum of m over the labels, in order. */
  function SumOver(labels: seq<string>, m: map<string, int>): int
    requires forall l :: l in labels ==> l in m
    decreases |labels|
  {
    if labels == [] then 0
    else SumOver(labels[..|labels| - 1], m) + m[labels[|labels| - 1]]
  }

  lemma SumOverAppend(labels: seq<string>, l: string, m: map<string, int>)
    requires forall x :: x in labels ==> x in m
    requires l in m
    ensures SumOver(labels + [l], m) == SumOver(labels, m) + m[l]
  {
    assert (labels + [l])[..|labels|] == labels;
  }

  /** Changing the entry of a label that is not listed does not change the sum. */
  lemma {:induction false} SumOverFrame(labels: seq<string>, m: map<string, int>, l: string, v: int)
    requires forall x :: x in labels ==> x in m
    requires l !in labels
    ensures SumOver(labels, m[l := v]) == SumOver(labels, m)
    decreases |labels|
  {
    if labels != [] {
      var front := labels[..|labels| - 1];
      assert forall x :: x in front ==> x in labels;
      SumOverFrame(front, m, l, v);
    }
  }

  /** Adding d to the entry of a label listed once adds d to the sum. */
  lemma {:induction false} SumOverBump(labels: seq<string>, m: map<string, int>, l: string, d: int)
    requires forall x :: x in labels ==> x in m
    requires Distinct(labels) && l in labels
    ensures SumOver(labels, m[l := m[l] + d]) == SumOver(labels, m) + d
    decreases |labels|
  {
    var n := |labels| - 1;
    var front := labels[..n];
    assert forall x :: x in front ==> x in labels;
    if labels[n] == l {
      assert l !in front;
      SumOverFrame(front, m, l, m[l] + d);
    } else {
      assert l in front by {
        var k :| 0 <= k < |labels| && labels[k] == l;
        assert front[k] == l;
      }
      SumOverBump(front, m, l, d);
    }
  }

  /** An insertion-ordered dictionary from label to integer. */
  datatype Tally = Tally(labels: seq<string>, counts: map<string, int>)
  {
    /** The keys, listed once each in insertion order, are exactly the map's keys. */
    ghost predicate Valid()
    {
      Distinct(labels) && forall l :: l in counts <==> l in labels
    }

    /** The sum of all values. */
    function Total(): int
      requires Valid()
    {
      SumOver(labels, counts)
    }

    /** `if key not in d: d[key] = 0`. */
    function Touch(key: string): (t: Tally)
      requires Valid()
      ensures t.Valid() && key in t.counts
      ensures key in counts ==> t == this
      ensures key !in counts ==> t.labels == labels + [key] && t.counts[key] == 0
      ensures forall l :: l in counts ==> l in t.counts && t.counts[l] == counts[l]
      ensures t.Total() == Total()
    {
      if key in counts then this
      else
        var t := Tally(labels + [key], counts[key := 0]);
        SumOverFrame(labels, counts, key, 0);
        SumOverAppend(labels, key, counts[key := 0]);
        t
    }

    /** `d[key] += delta` on a key already present. */
    function Add(key: string, delta: int): (t: Tally)
      requires Valid() && key in counts
      ensures t.Valid() && t.labels == labels && t.counts.Keys == counts.Keys
      ensures t.counts[key] == counts[key] + delta
      ensures forall l :: l in counts && l != key ==> t.counts[l] == counts[l]
      ensures t.Total() == Total() + delta
    {
      SumOverBump(labels, counts, key, delta);
      Tally(labels, counts[key := counts[key] + delta])
    }
  }

  const Empty: Tally := Tally([], map[])
}
