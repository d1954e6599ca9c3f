/**
 * The announcement card: details shortened while collapsed, and a tap that
 * expands or collapses it. The details are a JavaScript string, so the card
 * works on UTF-16 code units: `length` and `slice` count units, and a cut may
 * fall between the two halves of a surrogate pair.
 */
module AnnouncementCard {
  import opened TextUtil

  /** The text appended to shortened details. */
  function Suffix(): seq<CodeUnit>
  {
    Utf16(" read more...")
  }

  /** `details.slice(0, 30)`. */
  function Prefix30(details: seq<CodeUnit>): (r: seq<CodeUnit>)
    ensures |r| == if |details| < 30 then |details| else 30
    ensures r == details[..|r|]
  {
    if |details| < 30 then details else details[..30]
  }

  /**
   * The text shown: the full details when expanded or when at most 15 code
   * units long; otherwise the first 30 units and " read more...".
   */
  function Displayed(expanded: bool, details: seq<CodeUnit>): (r: seq<CodeUnit>)
    ensures expanded || |details| <= 15 ==> r == details
    ensures !expanded && |details| > 15 ==> r == Prefix30(details) + Suffix()
  {
    if expanded then details
    else if |details| > 15 then Prefix30(details) + Suffix()
    else details
  }

  /**
   * Collapsed details of 16 to 30 code units are shown whole, with the suffix
   * added although nothing is hidden; longer ones lose everything after 30.
   */
  lemma MidLengthShownWhole(details: seq<CodeUnit>)
    requires 15 < |details| <= 30
    ensures Displayed(false, details) == details + Suffix()
  {
    assert Prefix30(details) == details;
  }

  lemma LongDetailsCut(details: seq<CodeUnit>)
    requires |details| > 30
    ensures Displayed(false, details) == details[..30] + Suffix()
    ensures |Displayed(false, details)| == 30 + |Suffix()|
  {
  }

  /** A collapsed card always shows the start of the details. */
  lemma CollapsedShowsStart(details: seq<CodeUnit>)
    ensures var r := Displayed(false, details);
      var n := if |details| < 30 then |details| else 30;
      n <= |r| && r[..n] == details[..n]
  {
  }

  /** For text within the Basic Multilingual Plane the thresholds count characters. */
  lemma BmpTextThresholds(text: string)
    requires forall i :: 0 <= i < |text| ==> text[i] as int < 0x1_0000
    ensures |text| <= 15 ==> Displayed(false, Utf16(text)) == Utf16(text)
    ensures |text| > 15 ==> Displayed(false, Utf16(text)) == Prefix30(Utf16(text)) + Suffix()
  {
    Utf16LengthOfBmp(text);
  }

  /**
   * Text of 8 to 15 emoji (characters beyond U+FFFF) already passes the
   * 15-unit threshold: it is shown whole with the suffix added.
   */
  lemma EmojiCountDouble(text: string)
    requires forall i :: 0 <= i < |text| ==> text[i] as int >= 0x1_0000
    requires 8 <= |text| <= 15
    ensures Displayed(false, Utf16(text)) == Utf16(text) + Suffix()
  {
    Utf16LengthOfAstral(text);
    var u := Utf16(text);
    assert 15 < |u| <= 30;
    MidLengthShownWhole(u);
  }

  /** A card starts collapsed. */
  const InitiallyExpanded := false

  /** `toggleExpand`. */
  function ToggleExpand(expanded: bool): (r: bool)
    ensures r != expanded
  {
    !expanded
  }

  /** Two taps restore the card; one tap on a fresh card shows the full details. */
  lemma ToggleTwice(expanded: bool, details: seq<CodeUnit>)
    ensures ToggleExpand(ToggleExpand(expanded)) == expanded
    ensures Displayed(ToggleExpand(InitiallyExpanded), details) == details
  {
  }
}
