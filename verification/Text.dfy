/**
 Searching a string for a separator.
 */
module Text {

  /** Index of the first `c`, or the length where there is none. */
  function FirstOf(s: string, c: char): (i: nat)
    ensures i <= |s| && c !in s[..i]
    ensures i < |s| ==> s[i] == c
  {
    if s == "" || s[0] == c then 0
    else
      var i := 1 + FirstOf(s[1..], c);
      assert s[..i] == [s[0]] + s[1..][..i - 1];
      i
  }

  lemma FirstOfAfter(a: string, c: char, b: string)
    requires c !in a
    ensures FirstOf(a + [c] + b, c) == |a|
  {
    var s := a + [c] + b;
    assert s[|a|] == c && forall k :: 0 <= k < |a| ==> s[k] == a[k];
    assert forall k :: 0 <= k < FirstOf(s, c) ==> s[k] == s[..FirstOf(s, c)][k];
  }

  lemma FirstOfNone(a: string, c: char)
    requires c !in a
    ensures FirstOf(a, c) == |a|
  {
    assert forall k :: 0 <= k < |a| ==> a[k] != c;
  }
}
