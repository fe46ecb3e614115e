/** The parts of Python's str methods the program relies on: isspace(),
    strip(), lstrip(), rstrip() and lower(). */
module Text {

  /** The characters Python's str.isspace() accepts, which str.strip() removes. */
  predicate IsSpace(c: char) {
    || c == ' '
    || '\t' <= c <= '\r'
    || '\U{1c}' <= c <= '\U{1f}'
    || c == '\U{85}' || c == '\U{a0}' || c == '\U{1680}'
    || '\U{2000}' <= c <= '\U{200a}'
    || c == '\U{2028}' || c == '\U{2029}' || c == '\U{202f}' || c == '\U{205f}' || c == '\U{3000}'
  }

  predicate AllSpace(s: string) { forall i :: 0 <= i < |s| ==> IsSpace(s[i]) }

  /** str.lstrip(): drops the leading white space. */
  function StripLeft(s: string): (t: string)
    ensures |t| <= |s|
    ensures t == [] || !IsSpace(t[0])
  {
    if s != [] && IsSpace(s[0]) then StripLeft(s[1..]) else s
  }

  /** str.rstrip(): drops the trailing white space. */
  function StripRight(s: string): (t: string)
    ensures |t| <= |s|
    ensures t == [] || !IsSpace(t[|t| - 1])
  {
    if s != [] && IsSpace(s[|s| - 1]) then StripRight(s[..|s| - 1]) else s
  }

  /** str.strip(). */
  function Strip(s: string): string {
    StripRight(StripLeft(s))
  }

  function LowerChar(c: char): char {
    if 'A' <= c <= 'Z' then (c as int + 32) as char else c
  }

  /** str.lower() on ASCII letters; other characters are kept. */
  function Lower(s: string): (t: string)
    ensures |t| == |s| && forall i :: 0 <= i < |s| ==> t[i] == LowerChar(s[i])
  {
    seq(|s|, i requires 0 <= i < |s| => LowerChar(s[i]))
  }

  // ---------------------------------------------------------------------
  // strip() and lower()

  /** lstrip() removes white space only, and only at the front. */
  lemma {:induction false} StripLeftRemovesLeadingSpace(s: string)
    ensures var t := StripLeft(s); t == s[|s| - |t|..] && AllSpace(s[..|s| - |t|])
  {
    if s != [] && IsSpace(s[0]) {
      StripLeftRemovesLeadingSpace(s[1..]);
      var t := StripLeft(s[1..]);
      assert s[1..][..|s| - 1 - |t|] == s[1..|s| - |t|];
      assert s[1..][|s| - 1 - |t|..] == s[|s| - |t|..];
    }
  }

  /** rstrip() removes white space only, and only at the back. */
  lemma {:induction false} StripRightRemovesTrailingSpace(s: string)
    ensures var t := StripRight(s); t == s[..|t|] && AllSpace(s[|t|..])
  {
    if s != [] && IsSpace(s[|s| - 1]) {
      var init := s[..|s| - 1];
      StripRightRemovesTrailingSpace(init);
      var t := StripRight(init);
      assert StripRight(s) == t;
      assert init[..|t|] == s[..|t|];
      assert s[|t|..] == init[|t|..] + [s[|s| - 1]];
    }
  }

  lemma {:induction false} StripLeftAppend(x: string, y: string)
    ensures StripLeft(x + y) == if AllSpace(x) then StripLeft(y) else StripLeft(x) + y
  {
    if x == [] {
      assert x + y == y;
    } else {
      assert (x + y)[1..] == x[1..] + y;
      if IsSpace(x[0]) {
        StripLeftAppend(x[1..], y);
        assert AllSpace(x) <==> AllSpace(x[1..]) by {
          if AllSpace(x[1..]) {
            forall i | 0 <= i < |x| ensures IsSpace(x[i]) {
              if i > 0 { assert x[i] == x[1..][i - 1]; }
            }
          }
        }
      }
    }
  }

  lemma {:induction false} StripRightAppend(x: string, y: string)
    requires AllSpace(y)
    ensures StripRight(x + y) == StripRight(x)
  {
    if y != [] {
      assert (x + y)[..|x + y| - 1] == x + y[..|y| - 1];
      StripRightAppend(x, y[..|y| - 1]);
    } else {
      assert x + y == x;
    }
  }

  /** White space around the entry's text does not matter. */
  lemma StripIgnoresSurroundingSpace(pre: string, s: string, post: string)
    requires AllSpace(pre) && AllSpace(post)
    ensures Strip(pre + s + post) == Strip(s)
  {
    assert pre + s + post == pre + (s + post);
    StripLeftAppend(pre, s + post);
    StripLeftAppend(s, post);
    if AllSpace(s) {
      StripLeftAppend(s, []);
      assert s + [] == s;
      assert AllSpace(s + post);
      StripLeftAppend(s + post, []);
      assert s + post + [] == s + post;
      assert StripLeft(s + post) == [];
    } else {
      StripRightAppend(StripLeft(s), post);
    }
  }

  lemma {:induction false} StripLeftLower(s: string)
    ensures StripLeft(Lower(s)) == Lower(StripLeft(s))
  {
    if s != [] {
      assert Lower(s)[1..] == Lower(s[1..]);
      StripLeftLower(s[1..]);
    }
  }

  lemma {:induction false} StripRightLower(s: string)
    ensures StripRight(Lower(s)) == Lower(StripRight(s))
  {
    if s != [] {
      assert Lower(s)[..|s| - 1] == Lower(s[..|s| - 1]);
      StripRightLower(s[..|s| - 1]);
    }
  }

  lemma {:induction false} StripLeftNoSpace(s: string)
    requires s == [] || !IsSpace(s[0])
    ensures StripLeft(s) == s
  {
  }
}
