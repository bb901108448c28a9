/** The card-string codec of the card component: `String.toCardDto()`
    parses the strings the server uses for cards, the play-string rule turns
    a card back into the string sent when it is played, and the colour and
    label rules decide how a card is drawn. */
module CardCodec {
  import opened Wrappers
  import opened Text
  import opened Dto

  const Wizard: string := "WIZARD"
  const Jester: string := "JESTER"
  const Special: string := "SPECIAL"
  const NumberType: string := "NUMBER"

  /** The card every wizard string parses to. */
  const WizardCard: CardDto := CardDto(Special, "0", Wizard)
  /** The card every jester string parses to. */
  const JesterCard: CardDto := CardDto(Special, "0", Jester)

  /** `String.toCardDto()`: "wizard" or "jester" in any letter case give the
      special cards; a string with an underscore that splits into exactly two
      pieces gives a number card; everything else is unreadable. */
  function ToCardDto(s: string): (r: Option<CardDto>)
    ensures EqualsIgnoreCase(s, Wizard) ==> r == Some(WizardCard)
    ensures EqualsIgnoreCase(s, Jester) ==> r == Some(JesterCard)
    ensures r.Some? && r.value.cardType == NumberType ==>
              '_' !in r.value.color && '_' !in r.value.value
  {
    if EqualsIgnoreCase(s, Wizard) then WizardIsNotJester(s); Some(WizardCard)
    else if EqualsIgnoreCase(s, Jester) then Some(JesterCard)
    else if '_' in s then
      var parts := Split(s, '_');
      if |parts| == 2 then Some(CardDto(parts[0], parts[1], NumberType)) else None
    else None
  }

  /** No string is both a wizard and a jester string. */
  lemma WizardIsNotJester(s: string)
    ensures !(EqualsIgnoreCase(s, Wizard) && EqualsIgnoreCase(s, Jester))
  {
    if |s| == |Wizard| {
      assert UpperChar(Wizard[0]) != UpperChar(Jester[0]);
    }
  }

  /** The string a card sends when it is clicked: the keyword for the two
      special types, otherwise colour and value joined by an underscore. */
  function PlayString(card: CardDto): (played: string)
    ensures card.cardType == Wizard || card.cardType == Jester ==> played == card.cardType && '_' !in played
    ensures card.cardType != Wizard && card.cardType != Jester ==>
              && |played| == |card.color| + 1 + |card.value|
              && played[..|card.color|] == card.color
              && played[|card.color|] == '_'
              && played[|card.color| + 1..] == card.value
  {
    if card.cardType == Wizard then Wizard
    else if card.cardType == Jester then Jester
    else card.color + "_" + card.value
  }

  /** A string equal, ignoring case, to an upper-case keyword has no underscore. */
  lemma KeywordHasNoUnderscore(s: string, keyword: string)
    requires forall i :: 0 <= i < |keyword| ==> 'A' <= keyword[i] <= 'Z'
    requires EqualsIgnoreCase(s, keyword)
    ensures '_' !in s
  {
    forall i | 0 <= i < |s| ensures s[i] != '_' {
      assert UpperChar(s[i]) == UpperChar(keyword[i]);
    }
  }

  /** Wizard and jester strings are exactly the case variants of the keywords. */
  lemma SpecialsHaveNoUnderscore(s: string)
    ensures EqualsIgnoreCase(s, Wizard) || EqualsIgnoreCase(s, Jester) ==> '_' !in s
  {
    if EqualsIgnoreCase(s, Wizard) {
      KeywordHasNoUnderscore(s, Wizard);
    } else if EqualsIgnoreCase(s, Jester) {
      KeywordHasNoUnderscore(s, Jester);
    }
  }

  /** Which strings parse at all: the two keywords in any case, and the
      strings with exactly one underscore. */
  lemma ParsesIff(s: string)
    ensures ToCardDto(s).Some? <==>
              EqualsIgnoreCase(s, Wizard) || EqualsIgnoreCase(s, Jester) || Count('_', s) == 1
  {
    SpecialsHaveNoUnderscore(s);
  }

  /** Two or more underscores make the string unreadable. */
  lemma ManyUnderscoresAreNull(s: string)
    requires Count('_', s) >= 2
    ensures ToCardDto(s) == None
  {
    ParsesIff(s);
  }

  /** Colour and value joined by one underscore parse back to that number card. */
  lemma ParsesNumberCard(color: string, value: string)
    requires '_' !in color && '_' !in value
    ensures ToCardDto(color + "_" + value) == Some(CardDto(color, value, NumberType))
  {
    var s := color + "_" + value;
    assert s == color + ['_'] + value;
    assert s[|color|] == '_';
    SpecialsHaveNoUnderscore(s);
    SplitAtSingleSeparator(color, value, '_');
  }

  /** Round trip from strings: every string with exactly one underscore is
      reproduced by the play string of the card it parses to. */
  lemma {:induction false} PlayStringOfParsed(s: string)
    requires Count('_', s) == 1
    ensures ToCardDto(s).Some?
    ensures PlayString(ToCardDto(s).value) == s
  {
    ParsesIff(s);
    SpecialsHaveNoUnderscore(s);
    var parts := Split(s, '_');
    SplitJoin(s, '_');
    assert Join(parts, '_') == parts[0] + ['_'] + parts[1];
  }

  /** Wizard and jester strings in any case come back as the upper-case keyword. */
  lemma SpecialPlayString(s: string)
    requires EqualsIgnoreCase(s, Wizard) || EqualsIgnoreCase(s, Jester)
    ensures ToCardDto(s).Some?
    ensures PlayString(ToCardDto(s).value) == Upper(s)
  {
    if EqualsIgnoreCase(s, Wizard) {
      KeywordIsUpperOfVariant(s, Wizard);
    } else {
      KeywordIsUpperOfVariant(s, Jester);
    }
  }

  /** A case variant of an upper-case keyword upper-cases to the keyword. */
  lemma KeywordIsUpperOfVariant(s: string, keyword: string)
    requires keyword == Wizard || keyword == Jester
    requires EqualsIgnoreCase(s, keyword)
    ensures Upper(s) == keyword
  {
    EqualsIgnoreCaseIsUpperEquality(s, keyword);
    UpperOfUpper(keyword);
  }

  /** The cards the parser produces: the two special cards, or a number card
      whose colour and value have no underscore. */
  predicate Canonical(card: CardDto) {
    card == WizardCard || card == JesterCard ||
    (card.cardType == NumberType && '_' !in card.color && '_' !in card.value)
  }

  /** Every card the parser produces is canonical. */
  lemma ParsedIsCanonical(s: string)
    requires ToCardDto(s).Some?
    ensures Canonical(ToCardDto(s).value)
  {
  }

  /** A card typed WIZARD or JESTER sends its keyword, which parses to the
      canonical special card whatever colour and value it carried. */
  lemma SpecialTypeRoundTrip(card: CardDto)
    ensures card.cardType == Wizard ==> ToCardDto(PlayString(card)) == Some(WizardCard)
    ensures card.cardType == Jester ==> ToCardDto(PlayString(card)) == Some(JesterCard)
  {
  }

  /** Round trip from cards: parsing the play string of a canonical card gives the card back. */
  lemma ParseOfPlayString(card: CardDto)
    requires Canonical(card)
    ensures ToCardDto(PlayString(card)) == Some(card)
  {
    if card.cardType == NumberType {
      ParsesNumberCard(card.color, card.value);
    }
  }

  /** The card colours the component can show. */
  datatype Colour = Red | Blue | Green | Yellow | LightGray

  /** The two text colours. */
  datatype TextColour = Black | White

  /** Background colour: the colour name, matched ignoring case; anything else is light grey. */
  function Background(card: CardDto): (colour: Colour)
    ensures colour != LightGray ==> Upper(card.color) == ColourName(colour)
  {
    match Upper(card.color)
    case "RED" => Red
    case "BLUE" => Blue
    case "GREEN" => Green
    case "YELLOW" => Yellow
    case _ => LightGray
  }

  /** Text is black on yellow and green colour names, white otherwise. */
  function Foreground(card: CardDto): (text: TextColour)
    ensures text == Black <==> Background(card) == Green || Background(card) == Yellow
  {
    var upper := Upper(card.color);
    if upper == "YELLOW" || upper == "GREEN" then Black else White
  }

  /** The upper-case name that selects each colour other than light grey. */
  function ColourName(colour: Colour): string
    requires colour != LightGray
  {
    match colour
    case Red => "RED"
    case Blue => "BLUE"
    case Green => "GREEN"
    case Yellow => "YELLOW"
  }

  /** Colour matching ignores case, in both directions, and light grey is the
      fallback for every other colour text. */
  lemma BackgroundIgnoresCase(card: CardDto, colour: Colour)
    requires colour != LightGray
    ensures Background(card) == colour <==> EqualsIgnoreCase(card.color, ColourName(colour))
  {
    EqualsIgnoreCaseIsUpperEquality(card.color, ColourName(colour));
    UpperOfUpper(ColourName(colour));
    BackgroundIsNamedColour(card, colour);
  }

  /** The background is a colour exactly when the upper-cased text is its name. */
  lemma BackgroundIsNamedColour(card: CardDto, colour: Colour)
    requires colour != LightGray
    ensures Background(card) == colour <==> Upper(card.color) == ColourName(colour)
  {
    match colour
    case Red =>
    case Blue =>
    case Green =>
    case Yellow =>
  }

  /** Light grey exactly when the colour text names none of the four colours. */
  lemma LightGrayIsFallback(card: CardDto)
    ensures Background(card) == LightGray <==>
              forall colour: Colour :: colour != LightGray ==> !EqualsIgnoreCase(card.color, ColourName(colour))
  {
    forall colour: Colour | colour != LightGray {
      BackgroundIgnoresCase(card, colour);
    }
    if Background(card) != LightGray {
      BackgroundIgnoresCase(card, Background(card));
    }
  }

  /** The upper label: the special names, otherwise the colour text. The
      component's `?` fallback applies to a null colour, which a `CardDto`
      cannot hold. */
  function Label(card: CardDto): (caption: string)
    ensures card.cardType == Wizard ==> caption == "Wizard"
    ensures card.cardType == Jester ==> caption == "Narr"
    ensures card.cardType == Wizard || card.cardType == Jester ==> caption != PlayString(card)
    ensures card.cardType != Wizard && card.cardType != Jester ==> caption == PlayString(card)[..|card.color|]
  {
    if card.cardType == Wizard then "Wizard"
    else if card.cardType == Jester then "Narr"
    else card.color
  }

  /** The lower text: empty for the special cards, otherwise the value text. */
  function ValueText(card: CardDto): (text: string)
    ensures card.cardType == Wizard || card.cardType == Jester ==> text == []
    ensures card.cardType != Wizard && card.cardType != Jester ==> Label(card) + "_" + text == PlayString(card)
  {
    if card.cardType == Wizard || card.cardType == Jester then "" else card.value
  }

  /** A parsed string is drawn as its own pieces: colour on top and value
      below for a number card, the special name and no value for a keyword. */
  lemma LabelsOfParsed(s: string)
    requires ToCardDto(s).Some?
    ensures EqualsIgnoreCase(s, Wizard) ==>
              Label(ToCardDto(s).value) == "Wizard" && ValueText(ToCardDto(s).value) == ""
    ensures EqualsIgnoreCase(s, Jester) ==>
              Label(ToCardDto(s).value) == "Narr" && ValueText(ToCardDto(s).value) == ""
    ensures Count('_', s) == 1 ==>
              Label(ToCardDto(s).value) + "_" + ValueText(ToCardDto(s).value) == s
  {
    if Count('_', s) == 1 {
      PlayStringOfParsed(s);
    }
  }
}
