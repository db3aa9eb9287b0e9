/** Substrings. */
module Strings {
  predicate ContainsAt(s: string, part: string, i: int) {
    0 <= i && i + |part| <= |s| && s[i..i + |part|] == part
  }

  predicate Contains(s: string, part: string) {
    exists i :: 0 <= i <= |s| && ContainsAt(s, part, i)
  }

  lemma ContainsItself(s: string)
    ensures Contains(s, s)
  {
    assert ContainsAt(s, s, 0);
  }

  /** What contains head + part contains part. */
  lemma ContainsEnd(s: string, head: string, part: string)
    requires Contains(s, head + part)
    ensures Contains(s, part)
  {
    var i :| 0 <= i <= |s| && ContainsAt(s, head + part, i);
    assert s[i + |head|..i + |head| + |part|] == (head + part)[|head|..];
    assert ContainsAt(s, part, i + |head|);
  }

  lemma ContainsWider(pre: string, s: string, post: string, part: string)
    requires Contains(s, part)
    ensures Contains(pre + s + post, part)
  {
    var i :| 0 <= i <= |s| && ContainsAt(s, part, i);
    assert ContainsAt(pre + s + post, part, |pre| + i);
  }
}
