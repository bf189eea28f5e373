/** Text helpers the history store relies on: the whitespace that Python's
    `str.strip` removes, splitting a file's text into lines, and substring
    search. */
module Text {

  /** The characters `str.isspace` accepts: ASCII whitespace, the four
      ASCII separators, and the Unicode space and line/paragraph separators. */
  predicate IsSpace(c: char) {
    c in {' ', '\t', '\n', '\r', '\U{0B}', '\U{0C}', '\U{1C}', '\U{1D}', '\U{1E}', '\U{1F}'}
    || c in {'\U{85}', '\U{A0}', '\U{1680}', '\U{2028}', '\U{2029}', '\U{202F}', '\U{205F}', '\U{3000}'}
    || '\U{2000}' <= c <= '\U{200A}'
  }

  /** Python's `s.strip()`: `s` without its leading and trailing whitespace. */
  function Strip(s: string): (r: string)
    ensures |r| <= |s|
    ensures r == [] || (!IsSpace(r[0]) && !IsSpace(r[|r| - 1]))
  {
    if s != [] && IsSpace(s[0]) then Strip(s[1..])
    else if s != [] && IsSpace(s[|s| - 1]) then Strip(s[..|s| - 1])
    else s
  }

  /** Stripping leaves nothing exactly when the text is all whitespace. */
  lemma {:induction false} StripEmpty(s: string)
    ensures Strip(s) == [] <==> Blank(s)
  {
    if s != [] && IsSpace(s[0]) {
      StripEmpty(s[1..]);
      assert Blank(s) <==> Blank(s[1..]) by {
        if Blank(s[1..]) {
          assert forall i :: 1 <= i < |s| ==> s[i] == s[1..][i - 1];
        }
      }
    } else if s != [] && IsSpace(s[|s| - 1]) {
      // The first character is not whitespace, so neither side is blank.
      StripEmpty(s[..|s| - 1]);
      assert s[..|s| - 1][0] == s[0];
    }
  }

  /** Stripping whitespace padding off both sides of a text whose ends are
      not whitespace gives back exactly that text. */
  lemma {:induction false} StripPadded(front: string, core: string, back: string)
    requires Blank(front) && Blank(back)
    requires core == [] || (!IsSpace(core[0]) && !IsSpace(core[|core| - 1]))
    ensures Strip(front + core + back) == core
    decreases |front| + |back|
  {
    var s := front + core + back;
    if front != [] {
      assert s[0] == front[0];
      assert s[1..] == front[1..] + core + back;
      StripPadded(front[1..], core, back);
    } else if back != [] {
      assert s == core + back;
      if core == [] {
        assert s[0] == back[0] && s[1..] == [] + [] + back[1..];
        StripPadded([], [], back[1..]);
      } else {
        assert s[0] == core[0];
        assert s[|s| - 1] == back[|back| - 1];
        assert s[..|s| - 1] == [] + core + back[..|back| - 1];
        StripPadded([], core, back[..|back| - 1]);
      }
    } else {
      assert s == core;
    }
  }

  /** A string that neither starts nor ends with whitespace is its own strip. */
  lemma StripKeeps(s: string)
    requires s == [] || (!IsSpace(s[0]) && !IsSpace(s[|s| - 1]))
    ensures Strip(s) == s
  {
  }

  /** The pieces of `s` between newline characters, in order; text after the
      last newline is a piece of its own (empty when `s` ends with a newline). */
  function SplitLines(s: string): (r: seq<string>)
    ensures 1 <= |r|
  {
    if s == [] then [""]
    else
      var rest := SplitLines(s[1..]);
      if s[0] == '\n' then [""] + rest
      else [[s[0]] + rest[0]] + rest[1..]
  }

  /** Text without a newline is a single line. */
  lemma {:induction false} SplitLinesOfLine(t: string)
    requires '\n' !in t
    ensures SplitLines(t) == [t]
  {
    if t != [] {
      assert '\n' !in t[1..];
      SplitLinesOfLine(t[1..]);
      assert [t[0]] + t[1..] == t;
    }
  }

  /** Splitting text joined at a newline gives the lines of each part. */
  lemma {:induction false} SplitLinesJoin(u: string, v: string)
    ensures SplitLines(u + "\n" + v) == SplitLines(u) + SplitLines(v)
  {
    if u == [] {
      assert u + "\n" + v == ['\n'] + v;
      assert (['\n'] + v)[1..] == v;
    } else {
      var w := u + "\n" + v;
      assert w[0] == u[0];
      assert w[1..] == u[1..] + "\n" + v;
      SplitLinesJoin(u[1..], v);
    }
  }

  /** A line followed by a newline and more text splits off as the first line. */
  lemma SplitLinesCons(t: string, v: string)
    requires '\n' !in t
    ensures SplitLines(t + "\n" + v) == [t] + SplitLines(v)
  {
    SplitLinesJoin(t, v);
    SplitLinesOfLine(t);
  }

  /** Every character of `s` is whitespace. */
  predicate Blank(s: string) {
    forall i :: 0 <= i < |s| ==> IsSpace(s[i])
  }

  /** `sub` occurs in `s` starting at position `i`. */
  predicate OccursAt(s: string, sub: string, i: int) {
    0 <= i <= |s| - |sub| && s[i..i + |sub|] == sub
  }

  /** `sub` occurs in `s` somewhere. */
  predicate Contains(s: string, sub: string) {
    exists i :: 0 <= i <= |s| - |sub| && OccursAt(s, sub, i)
  }
}
