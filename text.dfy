// The two Python string operations the answer check relies on:
// `str.lower()` and `str.strip()` with no argument.

module Text {

  /** Python's `str.isspace()`: the characters `str.strip()` removes. */
  predicate IsSpace(c: char)
  {
    var n := c as int;
    || (0x09 <= n <= 0x0D) || (0x1C <= n <= 0x20)
    || n == 0x85 || n == 0xA0 || n == 0x1680
    || (0x2000 <= n <= 0x200A)
    || n == 0x2028 || n == 0x2029 || n == 0x202F || n == 0x205F || n == 0x3000
  }

  ghost predicate AllSpace(s: string)
  {
    forall i :: 0 <= i < |s| ==> IsSpace(s[i])
  }

  /** Lower-casing of one character (the ASCII letters). */
  function ToLower(c: char): (r: char)
    ensures 'A' <= c <= 'Z' ==> 'a' <= r <= 'z'
    ensures !('A' <= c <= 'Z') ==> r == c
  {
    if 'A' <= c <= 'Z' then (c as int - 'A' as int + 'a' as int) as char else c
  }

  function Lower(s: string): (r: string)
    ensures |r| == |s|
    ensures forall i :: 0 <= i < |s| ==> r[i] == ToLower(s[i])
  {
    seq(|s|, i requires 0 <= i < |s| => ToLower(s[i]))
  }

  /** `s` without its leading whitespace. */
  function StripLeft(s: string): (r: string)
    ensures |r| <= |s| && r == s[|s| - |r|..]
  {
    if s != [] && IsSpace(s[0]) then StripLeft(s[1..]) else s
  }

  /** What `StripLeft` removes is whitespace, and what it keeps does not
      start with whitespace. */
  lemma {:induction false} StripLeftRemovesSpace(s: string)
    ensures forall i :: 0 <= i < |s| - |StripLeft(s)| ==> IsSpace(s[i])
    ensures StripLeft(s) == [] || !IsSpace(StripLeft(s)[0])
  {
    if s != [] && IsSpace(s[0]) {
      var t := s[1..];
      StripLeftRemovesSpace(t);
      assert StripLeft(s) == StripLeft(t);
      forall i | 1 <= i < |s| - |StripLeft(s)|
        ensures IsSpace(s[i])
      {
        assert s[i] == t[i - 1];
      }
    }
  }

  /** `s` without its trailing whitespace. */
  function StripRight(s: string): (r: string)
    ensures |r| <= |s| && r == s[..|r|]
    ensures AllSpace(s[|r|..])
    ensures r == [] || !IsSpace(r[|r| - 1])
  {
    if s != [] && IsSpace(s[|s| - 1]) then StripRight(s[..|s| - 1]) else s
  }

  /** Python's `s.strip()`. */
  function Strip(s: string): string
  {
    StripLeft(StripRight(s))
  }

  lemma {:induction false} StripLeftSkipsSpace(pre: string, s: string)
    requires AllSpace(pre)
    ensures StripLeft(pre + s) == StripLeft(s)
  {
    if pre != [] {
      assert (pre + s)[1..] == pre[1..] + s;
      StripLeftSkipsSpace(pre[1..], s);
    } else {
      assert pre + s == s;
    }
  }

  lemma {:induction false} StripRightSkipsSpace(s: string, post: string)
    requires AllSpace(post)
    ensures StripRight(s + post) == StripRight(s)
  {
    if post != [] {
      var n := |post|;
      assert (s + post)[..|s + post| - 1] == s + post[..n - 1];
      StripRightSkipsSpace(s, post[..n - 1]);
    } else {
      assert s + post == s;
    }
  }

  lemma {:induction false} StripRightAllSpace(s: string)
    requires AllSpace(s)
    ensures StripRight(s) == []
  {
    if s != [] {
      StripRightAllSpace(s[..|s| - 1]);
    }
  }

  lemma {:induction false} StripRightKeepsPrefix(pre: string, s: string)
    requires !AllSpace(s)
    ensures StripRight(pre + s) == pre + StripRight(s)
  {
    var n := |s|;
    if IsSpace(s[n - 1]) {
      assert (pre + s)[..|pre + s| - 1] == pre + s[..n - 1];
      assert !AllSpace(s[..n - 1]) by {
        var i :| 0 <= i < n && !IsSpace(s[i]);
        assert s[..n - 1][i] == s[i];
      }
      StripRightKeepsPrefix(pre, s[..n - 1]);
    }
  }

  /** Surrounding whitespace never changes what `strip()` keeps. */
  lemma StripIgnoresPadding(pre: string, s: string, post: string)
    requires AllSpace(pre) && AllSpace(post)
    ensures Strip(pre + s + post) == Strip(s)
  {
    StripRightSkipsSpace(pre + s, post);
    if AllSpace(s) {
      assert AllSpace(pre + s);
      StripRightAllSpace(pre + s);
      StripRightAllSpace(s);
    } else {
      StripRightKeepsPrefix(pre, s);
      StripLeftSkipsSpace(pre, StripRight(s));
    }
  }

  lemma LowerOfConcat(a: string, b: string)
    ensures Lower(a + b) == Lower(a) + Lower(b)
  {
  }

  lemma LowerKeepsSpace(s: string)
    requires AllSpace(s)
    ensures Lower(s) == s
  {
  }
}
