/** Python's substring test `sub in s` on `str`, over Unicode scalar values. */
module PyStr {

  /** `sub` occurs in `s` starting at position `i`. */
  predicate OccursAt(s: string, sub: string, i: nat)
  {
    i + |sub| <= |s| && s[i..i + |sub|] == sub
  }

  /** `sub in s`: `sub` is a contiguous piece of `s`; the empty string is in every string. */
  predicate Contains(s: string, sub: string)
  {
    exists i: nat | i <= |s| :: OccursAt(s, sub, i)
  }

  /** A string contains itself, so an exact match is also a substring match. */
  lemma ContainsSelf(s: string)
    ensures Contains(s, s)
  {
    assert OccursAt(s, s, 0);
  }

  /** The empty string is contained in every string, the empty one included. */
  lemma ContainsEmpty(s: string)
    ensures Contains(s, "")
  {
    assert OccursAt(s, "", 0);
  }

  /** Containment survives putting text on either side. */
  lemma ContainsInContext(pre: string, s: string, post: string, sub: string)
    requires Contains(s, sub)
    ensures Contains(pre + s + post, sub)
  {
    var i: nat :| i <= |s| && OccursAt(s, sub, i);
    var t := pre + s + post;
    assert t[|pre| + i..|pre| + i + |sub|] == s[i..i + |sub|];
    assert OccursAt(t, sub, |pre| + i);
  }

  /** A one-character key is in `s` exactly when that character occurs somewhere in `s`. */
  lemma ContainsChar(s: string, c: char)
    ensures Contains(s, [c]) <==> exists k :: 0 <= k < |s| && s[k] == c
  {
    if exists k :: 0 <= k < |s| && s[k] == c {
      var k :| 0 <= k < |s| && s[k] == c;
      assert OccursAt(s, [c], k);
    }
    if Contains(s, [c]) {
      var i: nat :| i <= |s| && OccursAt(s, [c], i);
      assert s[i] == s[i..i + 1][0];
    }
  }

  /** Text in front of a string keeps its prefixes as substrings. */
  lemma ContainsPrefix(s: string, rest: string)
    ensures Contains(s + rest, s)
  {
    assert (s + rest)[0..|s|] == s;
    assert OccursAt(s + rest, s, 0);
  }
}
