/** Java text as the activity sees it: a `String` is a sequence of UTF-16 code
    units, and the regular-expression engine behind `java.util.regex` on
    Android (ICU) reads it code point by code point. */
module JavaText {

  /** One UTF-16 code unit, the value range of a Java `char`. */
  newtype CodeUnit = x: int | 0 <= x < 0x1_0000

  /** A Java `String`. */
  type JString = seq<CodeUnit>

  /** The code unit of a character of the Basic Multilingual Plane below the surrogate range. */
  function Unit(c: char): (u: CodeUnit)
    requires c as int < 0xD800
    ensures u as int == c as int
  {
    c as int as CodeUnit
  }

  /** The Java string literal written with the given characters. */
  function Str(s: string): (r: JString)
    requires forall i | 0 <= i < |s| :: s[i] as int < 0xD800
    ensures |r| == |s|
    ensures forall i | 0 <= i < |s| :: r[i] as int == s[i] as int
  {
    seq(|s|, i requires 0 <= i < |s| => Unit(s[i]))
  }

  const Space: CodeUnit := Unit(' ')
  const LeftBracket: CodeUnit := Unit('[')
  const RightBracket: CodeUnit := Unit(']')

  predicate IsHighSurrogate(u: CodeUnit) {
    0xD800 <= u <= 0xDBFF
  }

  predicate IsLowSurrogate(u: CodeUnit) {
    0xDC00 <= u <= 0xDFFF
  }

  /** The line terminators that a regular-expression `.` refuses when DOTALL is
      off: line feed, vertical tab, form feed, carriage return, next line, line
      separator and paragraph separator (ICU's set; OpenJDK omits vertical tab
      and form feed). None of them is a surrogate, so a supplementary code point
      is never a line terminator. */
  predicate IsLineTerminator(u: CodeUnit) {
    (0x0A <= u <= 0x0D) || u == 0x85 || u == 0x2028 || u == 0x2029
  }

  /** Number of code units of the code point that starts at index `i`: a high
      surrogate followed by a low surrogate form one code point, every other
      unit (a lone surrogate included) is a code point of its own. */
  function CodePointWidth(s: JString, i: nat): (w: nat)
    requires i < |s|
    ensures 1 <= w <= 2 && i + w <= |s|
    // A two-unit code point is a surrogate pair ...
    ensures w == 2 ==> IsHighSurrogate(s[i]) && IsLowSurrogate(s[i + 1])
    // ... and a code point never ends between the two halves of a pair.
    ensures i + w < |s| ==> !(IsHighSurrogate(s[i + w - 1]) && IsLowSurrogate(s[i + w]))
  {
    if i + 1 < |s| && IsHighSurrogate(s[i]) && IsLowSurrogate(s[i + 1]) then 2 else 1
  }

  /** Number of code units that the pattern `.` consumes at index `i`, or 0 when
      it does not match there (end of input, or a line terminator). */
  function DotWidth(s: JString, i: nat): (w: nat)
    ensures w <= 2
    ensures w > 0 ==> i + w <= |s|
    ensures w == 0 <==> i >= |s| || IsLineTerminator(s[i])
    // Where `.` matches, it consumes exactly one whole code point.
    ensures w > 0 ==> w == CodePointWidth(s, i)
    ensures w == 2 ==> IsHighSurrogate(s[i]) && IsLowSurrogate(s[i + 1])
    ensures w > 0 && i + w < |s| ==> !(IsHighSurrogate(s[i + w - 1]) && IsLowSurrogate(s[i + w]))
  {
    if i >= |s| || IsLineTerminator(s[i]) then 0 else CodePointWidth(s, i)
  }

  /** Every unit of `s` is a space. */
  predicate AllSpaces(s: JString) {
    forall i | 0 <= i < |s| :: s[i] == Space
  }

  /** Length of the longest run of spaces that starts `s`: what the greedy
      pattern ` *` at the start of a line consumes. */
  function LeadingSpaces(s: JString): (n: nat)
    ensures n <= |s|
    ensures AllSpaces(s[..n])
    ensures n < |s| ==> s[n] != Space
    decreases |s|
  {
    if |s| > 0 && s[0] == Space then
      var m := LeadingSpaces(s[1..]);
      assert s[1..][..m] == s[1..m + 1];
      1 + m
    else
      0
  }

  /** The run of spaces that starts a line is the only prefix of spaces that
      can be followed by anything but a space. */
  lemma SpacePrefixIsLeadingRun(s: JString, k: nat)
    requires k < |s| && AllSpaces(s[..k]) && s[k] != Space
    ensures k == LeadingSpaces(s)
  {
  }
}
