/** The string operations the routes apply to form input: Python's
    `str.strip()` with no argument, `str.lstrip(c)` for one character and
    `str.startswith`. */
module Text {

  /** The characters Python's `str.isspace()` accepts, which are the ones
      `str.strip()` removes when called without an argument. */
  predicate IsSpace(c: char) {
    || c == ' '
    || '\t' <= c <= '\r'
    || '\U{1c}' <= c <= '\U{1f}'
    || c == '\U{85}' || c == '\U{a0}' || c == '\U{1680}'
    || '\U{2000}' <= c <= '\U{200a}'
    || c == '\U{2028}' || c == '\U{2029}' || c == '\U{202f}' || c == '\U{205f}'
    || c == '\U{3000}'
  }

  /** Python's `s.strip()`: drops whitespace from the front, then from the
      back. */
  function Strip(s: string): (r: string)
    ensures |r| <= |s|
    ensures r != [] ==> !IsSpace(r[0]) && !IsSpace(r[|r| - 1])
    ensures r == [] <==> forall k :: 0 <= k < |s| ==> IsSpace(s[k])
  {
    if s != [] && IsSpace(s[0]) then
      var r := Strip(s[1..]);
      assert forall k :: 0 < k < |s| ==> s[k] == s[1..][k - 1];
      r
    else if s != [] && IsSpace(s[|s| - 1]) then
      var r := Strip(s[..|s| - 1]);
      assert s[..|s| - 1] != [] ==> s[..|s| - 1][0] == s[0];
      r
    else s
  }

  /** `r` is the slice of `s` that starts at `i`, and everything of `s`
      outside it is whitespace. */
  ghost predicate SpaceAround(s: string, i: int, r: string) {
    && 0 <= i <= |s| - |r| && r == s[i..i + |r|]
    && (forall k :: 0 <= k < i ==> IsSpace(s[k]))
    && (forall k :: i + |r| <= k < |s| ==> IsSpace(s[k]))
  }

  lemma SpaceAroundFront(s: string, i: int, r: string)
    requires s != [] && IsSpace(s[0]) && SpaceAround(s[1..], i, r)
    ensures SpaceAround(s, i + 1, r)
  {
    var tail := s[1..];
    assert r == s[i + 1..i + 1 + |r|];
    forall k | i + 1 + |r| <= k < |s| ensures IsSpace(s[k]) {
      assert s[k] == tail[k - 1];
    }
  }

  lemma SpaceAroundBack(s: string, i: int, r: string)
    requires s != [] && IsSpace(s[|s| - 1]) && SpaceAround(s[..|s| - 1], i, r)
    ensures SpaceAround(s, i, r)
  {
    var init := s[..|s| - 1];
    assert r == s[i..i + |r|];
    forall k | i + |r| <= k < |s| ensures IsSpace(s[k]) {
      if k < |s| - 1 {
        assert s[k] == init[k];
      }
    }
  }

  /** `strip` removes whitespace at both ends and nothing else. */
  lemma {:induction false} StripIsSlice(s: string)
    ensures exists i :: SpaceAround(s, i, Strip(s))
  {
    var r := Strip(s);
    if s != [] && IsSpace(s[0]) {
      StripIsSlice(s[1..]);
      var i :| SpaceAround(s[1..], i, r);
      SpaceAroundFront(s, i, r);
    } else if s != [] && IsSpace(s[|s| - 1]) {
      StripIsSlice(s[..|s| - 1]);
      var i :| SpaceAround(s[..|s| - 1], i, r);
      SpaceAroundBack(s, i, r);
    } else {
      assert SpaceAround(s, 0, r);
    }
  }

  /** Neither starts nor ends with whitespace. */
  predicate IsStripped(s: string) {
    s == [] || (!IsSpace(s[0]) && !IsSpace(s[|s| - 1]))
  }

  /** The strings `strip` returns are exactly those it leaves unchanged, so
      stripping twice is stripping once. */
  lemma StrippedIsFixpoint(s: string)
    ensures IsStripped(Strip(s))
    ensures IsStripped(s) <==> Strip(s) == s
  {
  }

  lemma StripIdempotent(s: string)
    ensures Strip(Strip(s)) == Strip(s)
  {
    StrippedIsFixpoint(s);
    StrippedIsFixpoint(Strip(s));
  }

  /** Python's `s.startswith(prefix)`. */
  predicate StartsWith(s: string, prefix: string) {
    |prefix| <= |s| && s[..|prefix|] == prefix
  }

  /** Python's `s.lstrip(c)` for a single character `c`: the result is a
      suffix of `s`, everything dropped is `c`, and the result does not
      start with `c`. */
  function LStrip(s: string, c: char): (r: string)
    ensures |r| <= |s| && r == s[|s| - |r|..]
    ensures forall k :: 0 <= k < |s| - |r| ==> s[k] == c
    ensures r != [] ==> r[0] != c
  {
    if s != [] && s[0] == c then LStrip(s[1..], c) else s
  }
}
