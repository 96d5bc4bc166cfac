/** What a click on a displayed line means. The activity tests each line
    against two patterns anchored at the start of the line, `^ *\[(.)\] ` (a
    key line, whose captured character is the key to send) and `^ *Input ` (a
    line that asks for free text); a line matching neither is ignored. */
module LineClassifier {
  import opened JavaText

  /** The literal of the input pattern, `Input` and one space. */
  const InputWord: JString := Str("Input ")

  /** The classification of one displayed line. */
  datatype LineKind = Key(key: CodeUnit) | Input | Other

  /** The part `\[(.)\] ` of the key pattern matches at index `k`; the
      captured group starts at `k + 1`. */
  predicate KeyTailAt(s: JString, k: nat) {
    var w := DotWidth(s, k + 1);
    && k < |s|
    && s[k] == LeftBracket
    && w > 0
    && k + 2 + w < |s|
    && s[k + 1 + w] == RightBracket
    && s[k + 2 + w] == Space
  }

  /** Reference reading of `^ *\[(.)\] `: some prefix of spaces is followed by
      the bracketed tail, and the first code unit of the captured group is `c`. */
  ghost predicate KeyPatternCaptures(s: JString, c: CodeUnit) {
    exists k: nat | k <= |s| :: AllSpaces(s[..k]) && KeyTailAt(s, k) && s[k + 1] == c
  }

  /** The key pattern is found in `s`. */
  ghost predicate KeyPatternFinds(s: JString) {
    exists c :: KeyPatternCaptures(s, c)
  }

  /** Reference reading of `^ *Input `: some prefix of spaces is followed by the literal. */
  ghost predicate InputPatternFinds(s: JString) {
    exists k: nat | k <= |s| :: AllSpaces(s[..k]) && InputWord <= s[k..]
  }

  /** Any match of the key pattern starts its bracket right after the line's leading spaces. */
  lemma KeyMatchAfterLeadingSpaces(s: JString, k: nat)
    requires k <= |s| && AllSpaces(s[..k]) && KeyTailAt(s, k)
    ensures k == LeadingSpaces(s)
  {
    SpacePrefixIsLeadingRun(s, k);
  }

  /** Any match of the input pattern starts its literal right after the line's leading spaces. */
  lemma InputMatchAfterLeadingSpaces(s: JString, k: nat)
    requires k <= |s| && AllSpaces(s[..k]) && InputWord <= s[k..]
    ensures k == LeadingSpaces(s)
  {
    assert s[k..][0] == InputWord[0];
    SpacePrefixIsLeadingRun(s, k);
  }

  /** No line matches both patterns: after the leading spaces a key line has
      `[` where an input line has `I`. So the order in which the activity tests
      the two patterns never decides anything. */
  lemma {:induction false} PatternsExclusive(s: JString)
    ensures !(KeyPatternFinds(s) && InputPatternFinds(s))
  {
    if KeyPatternFinds(s) && InputPatternFinds(s) {
      var c :| KeyPatternCaptures(s, c);
      var k: nat :| k <= |s| && AllSpaces(s[..k]) && KeyTailAt(s, k) && s[k + 1] == c;
      var j: nat :| j <= |s| && AllSpaces(s[..j]) && InputWord <= s[j..];
      KeyMatchAfterLeadingSpaces(s, k);
      InputMatchAfterLeadingSpaces(s, j);
    }
  }

  /** Classifies a clicked line the way `onItemClick` does: the key pattern
      first, then the input pattern, otherwise nothing. */
  function Classify(s: JString): (r: LineKind)
    ensures forall c :: r == Key(c) <==> KeyPatternCaptures(s, c)
    ensures r == Input <==> !KeyPatternFinds(s) && InputPatternFinds(s)
    ensures r == Other <==> !KeyPatternFinds(s) && !InputPatternFinds(s)
  {
    var n := LeadingSpaces(s);
    ClassifyMatchesPatterns(s);
    if KeyTailAt(s, n) then Key(s[n + 1])
    else if InputWord <= s[n..] then Input
    else Other
  }

  /** The patterns hold exactly when their tails hold at the end of the leading spaces. */
  lemma ClassifyMatchesPatterns(s: JString)
    ensures forall c :: KeyPatternCaptures(s, c) <==> KeyTailAt(s, LeadingSpaces(s)) && s[LeadingSpaces(s) + 1] == c
    ensures InputPatternFinds(s) <==> InputWord <= s[LeadingSpaces(s)..]
  {
    var n := LeadingSpaces(s);
    forall c | KeyPatternCaptures(s, c)
      ensures KeyTailAt(s, n) && s[n + 1] == c
    {
      var k: nat :| k <= |s| && AllSpaces(s[..k]) && KeyTailAt(s, k) && s[k + 1] == c;
      KeyMatchAfterLeadingSpaces(s, k);
    }
    if InputPatternFinds(s) {
      var j: nat :| j <= |s| && AllSpaces(s[..j]) && InputWord <= s[j..];
      InputMatchAfterLeadingSpaces(s, j);
    }
  }

  /** A line with spaces, `[`, a character, `]` and a space is a key line for that character. */
  lemma KeyLineExample()
    ensures Classify(Str("  [1] Debug")) == Key(Unit('1'))
  {
    var s := Str("  [1] Debug");
    assert s[..2] == [Space, Space];
    SpacePrefixIsLeadingRun(s, 2);
    assert KeyTailAt(s, 2);
  }

  /** A line with spaces and then `Input ` asks for free text. */
  lemma InputLineExample()
    ensures Classify(Str(" Input code")) == Input
  {
    var s := Str(" Input code");
    assert s[..1] == [Space];
    SpacePrefixIsLeadingRun(s, 1);
    assert !KeyTailAt(s, 1);
    assert s[1..][..6] == InputWord;
  }

  /** A supplementary character is one code point of two units, and its first unit is the key. */
  lemma SurrogateKeyExample()
    ensures Classify([LeftBracket, 0xD83D, 0xDE00, RightBracket, Space]) == Key(0xD83D)
  {
  }

  /** `.` refuses a line terminator, so a bracketed newline is not a key. */
  lemma LineTerminatorExample()
    ensures Classify([LeftBracket, 0x0A, RightBracket, Space]) == Other
  {
  }
}
