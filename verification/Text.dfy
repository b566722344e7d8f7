/** The few string operations of Python the models share. */
module Text {

  /** The characters `str.strip()` removes. */
  predicate IsSpace(c: char) {
    var u := c as int;
    || 0x09 <= u <= 0x0D || 0x1C <= u <= 0x20 || u == 0x85 || u == 0xA0 || u == 0x1680
    || 0x2000 <= u <= 0x200A || u == 0x2028 || u == 0x2029 || u == 0x202F || u == 0x205F || u == 0x3000
  }

  predicate Blank(s: string) {
    forall i | 0 <= i < |s| :: IsSpace(s[i])
  }

  /** Neither end is white space. */
  predicate Trimmed(s: string) {
    s == [] || (!IsSpace(s[0]) && !IsSpace(s[|s| - 1]))
  }

  function StripLeft(s: string): string {
    if s == [] || !IsSpace(s[0]) then s else StripLeft(s[1..])
  }

  function StripRight(s: string): string {
    if s == [] || !IsSpace(s[|s| - 1]) then s else StripRight(s[..|s| - 1])
  }

  function Strip(s: string): string { StripRight(StripLeft(s)) }

  lemma {:induction false} StripLeftSpec(s: string)
    ensures StripLeft(s) == [] || !IsSpace(StripLeft(s)[0])
    ensures exists left :: Blank(left) && s == left + StripLeft(s)
    decreases |s|
  {
    if s == [] || !IsSpace(s[0]) {
      assert s == [] + StripLeft(s);
    } else {
      StripLeftSpec(s[1..]);
      var left :| Blank(left) && s[1..] == left + StripLeft(s[1..]);
      assert Blank([s[0]] + left) && s == [s[0]] + left + StripLeft(s);
    }
  }

  lemma {:induction false} StripRightSpec(s: string)
    ensures StripRight(s) == [] || !IsSpace(StripRight(s)[|StripRight(s)| - 1])
    ensures exists right :: Blank(right) && s == StripRight(s) + right
    decreases |s|
  {
    if s == [] || !IsSpace(s[|s| - 1]) {
      assert s == StripRight(s) + [];
    } else {
      StripRightSpec(s[..|s| - 1]);
      var right :| Blank(right) && s[..|s| - 1] == StripRight(s[..|s| - 1]) + right;
      assert Blank(right + [s[|s| - 1]]) && s == StripRight(s) + (right + [s[|s| - 1]]);
    }
  }

  /** A stripped string is trimmed, and what was removed was white space at the ends. */
  lemma StripSpec(s: string) returns (left: string, right: string)
    ensures Trimmed(Strip(s)) && Blank(left) && Blank(right) && s == left + Strip(s) + right
  {
    StripLeftSpec(s);
    left :| Blank(left) && s == left + StripLeft(s);
    StripRightSpec(StripLeft(s));
    right :| Blank(right) && StripLeft(s) == Strip(s) + right;
    assert Strip(s) != [] ==> Strip(s)[0] == StripLeft(s)[0];
  }

  lemma {:induction false} StripLeftPadded(left: string, core: string)
    requires Blank(left) && (core == [] || !IsSpace(core[0]))
    ensures StripLeft(left + core) == core
    decreases |left|
  {
    if left == [] {
      assert left + core == core;
    } else {
      assert (left + core)[1..] == left[1..] + core;
      StripLeftPadded(left[1..], core);
    }
  }

  lemma {:induction false} StripRightPadded(core: string, right: string)
    requires Blank(right) && (core == [] || !IsSpace(core[|core| - 1]))
    ensures StripRight(core + right) == core
    decreases |right|
  {
    if right == [] {
      assert core + right == core;
    } else {
      assert (core + right)[..|core + right| - 1] == core + right[..|right| - 1];
      StripRightPadded(core, right[..|right| - 1]);
    }
  }

  /** Stripping removes exactly the padding around a trimmed core. */
  lemma StripPadded(left: string, core: string, right: string)
    requires Blank(left) && Blank(right) && Trimmed(core) && core != []
    ensures Strip(left + core + right) == core
  {
    assert left + core + right == left + (core + right);
    StripLeftPadded(left, core + right);
    StripRightPadded(core, right);
  }

  lemma StripTrimmed(s: string)
    ensures Strip(s) == s <==> Trimmed(s)
  {
    var _, _ := StripSpec(s);
  }

  /** `delimiter.join(pieces)`. */
  function Join(pieces: seq<string>, delimiter: char): string {
    if pieces == [] then [] else if |pieces| == 1 then pieces[0]
        else pieces[0] + [delimiter] + Join(pieces[1..], delimiter)
  }
}
