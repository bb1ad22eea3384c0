/** Where a text occurs in another. */
module Substrings {

  predicate OccursAt(content: string, fragment: string, i: nat) {
    i + |fragment| <= |content| && content[i..i + |fragment|] == fragment
  }

  ghost predicate Contains(content: string, fragment: string) {
    exists i: nat :: OccursAt(content, fragment, i)
  }

  lemma SliceIsContained(s: string, from: nat, to: nat)
    requires from <= to <= |s|
    ensures Contains(s, s[from..to])
  {
    assert OccursAt(s, s[from..to], from);
  }

  lemma ContainedInContained(a: string, b: string, c: string)
    requires Contains(a, b) && Contains(b, c)
    ensures Contains(a, c)
  {
    var i: nat :| OccursAt(a, b, i);
    var j: nat :| OccursAt(b, c, j);
    assert forall k | 0 <= k < |b| :: a[i + k] == a[i..i + |b|][k] == b[k];
    assert forall k | 0 <= k < |c| :: b[j + k] == b[j..j + |c|][k] == c[k];
    assert OccursAt(a, c, i + j);
  }
}
