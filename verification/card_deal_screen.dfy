/** The prediction screen's rules: whose turn it is to predict, the digit
    filter on the input field, when the field and the submit button are
    enabled, how the typed text becomes a 32-bit prediction, and what a
    click on submit does to the view model and to the input. */
module CardDealScreen {
  import opened Wrappers
  import opened Text
  import opened Dto
  import VM = ViewModel
  import MainScreen

  /** It is this player's turn to predict when the snapshot names them;
      never without a snapshot or without a predicting player. */
  function IsMyTurn(s: VM.State): (mine: bool)
    ensures mine ==> s.gameResponse.Some? && s.gameResponse.value.currentPredictionPlayerId == Some(s.playerId)
    ensures s.gameResponse.None? ==> !mine
  {
    match s.gameResponse
    case None => false
    case Some(resp) => resp.currentPredictionPlayerId == Some(s.playerId)
  }

  /** The cheat button appears only when this player is the current player:
      the deal screen's check agrees with the main screen's turn check. */
  function CheatButtonShown(s: VM.State): (shown: bool)
    ensures shown <==> MainScreen.IsPlayersTurn(s)
  {
    s.gameResponse.Some? && s.gameResponse.value.currentPlayerId == Some(s.playerId)
  }

  /** The turn check compares the predicting player with this player's id:
      without a snapshot, or with no predicting player, it is never this
      player's turn, even when the id is empty. */
  lemma MyTurnIff(s: VM.State)
    ensures IsMyTurn(s) <==>
              s.gameResponse.Some? && s.gameResponse.value.currentPredictionPlayerId.Some? &&
              s.gameResponse.value.currentPredictionPlayerId.value == s.playerId
    ensures s.gameResponse.None? ==> !IsMyTurn(s)
  {
  }

  /** The prediction turn is decided by the latest snapshot alone: after an
      update it is this player's turn exactly when the update names them. */
  lemma PredictionTurnFollowsLatestUpdate(s: VM.State, resp: GameResponse)
    ensures IsMyTurn(VM.OnGameUpdate(s, resp)) <==> resp.currentPredictionPlayerId == Some(s.playerId)
  {
  }

  /** The cheat button follows the current player, not the predicting one:
      it shows for this player exactly when the snapshot names them current. */
  lemma CheatButtonFollowsCurrentPlayer(s: VM.State)
    ensures CheatButtonShown(s) <==>
              s.gameResponse.Some? && s.gameResponse.value.currentPlayerId.Some? &&
              s.gameResponse.value.currentPlayerId.value == s.playerId
    ensures CheatButtonShown(s) && !IsMyTurn(s) ==>
              s.gameResponse.value.currentPredictionPlayerId != s.gameResponse.value.currentPlayerId
  {
  }

  /** Text made of digits only. */
  predicate AllDigits(s: string) {
    forall i :: 0 <= i < |s| ==> IsDigit(s[i])
  }

  /** The input field's change handler keeps only the digits of the typed
      text, in their order. */
  function FilterDigits(typed: string): (kept: string)
    ensures AllDigits(kept)
    ensures |kept| <= |typed|
  {
    if typed == [] then []
    else (if IsDigit(typed[0]) then [typed[0]] else []) + FilterDigits(typed[1..])
  }

  /** Filtering text typed in two parts filters each part. */
  lemma {:induction false} FilterDigitsAppend(a: string, b: string)
    ensures FilterDigits(a + b) == FilterDigits(a) + FilterDigits(b)
  {
    if a == [] {
      assert a + b == b;
    } else {
      assert (a + b)[1..] == a[1..] + b;
      FilterDigitsAppend(a[1..], b);
    }
  }

  /** Text made only of digits passes unchanged, and only such text does;
      so filtering twice is filtering once. */
  lemma {:induction false} FilterDigitsKeepsDigitText(typed: string)
    ensures FilterDigits(typed) == typed <==> AllDigits(typed)
    ensures FilterDigits(FilterDigits(typed)) == FilterDigits(typed)
  {
    if typed != [] {
      FilterDigitsKeepsDigitText(typed[1..]);
      if !IsDigit(typed[0]) {
        assert |FilterDigits(typed)| < |typed|;
      }
      FilterDigitsAppend(if IsDigit(typed[0]) then [typed[0]] else [], FilterDigits(typed[1..]));
      assert forall i :: 1 <= i < |typed| ==> typed[1..][i - 1] == typed[i];
    }
  }

  /** Every digit of the typed text is kept, and nothing else. */
  lemma {:induction false} FilterDigitsCount(typed: string, c: char)
    ensures Count(c, FilterDigits(typed)) == if IsDigit(c) then Count(c, typed) else 0
  {
    if typed != [] {
      FilterDigitsCount(typed[1..], c);
      CountAppend(c, if IsDigit(typed[0]) then [typed[0]] else [], FilterDigits(typed[1..]));
    }
  }

  /** The text field accepts input while it is this player's turn and no prediction is pending. */
  function FieldEnabled(s: VM.State): (enabled: bool)
    ensures enabled ==> IsMyTurn(s)
    ensures s.hasSubmittedPrediction ==> !enabled
  {
    IsMyTurn(s) && !s.hasSubmittedPrediction
  }

  /** The submit button additionally needs some non-blank input. */
  function SubmitEnabled(s: VM.State, input: string): (enabled: bool)
    ensures enabled <==> FieldEnabled(s) && IsNotBlank(input)
    ensures enabled ==> input != []
  {
    IsNotBlank(input) && IsMyTurn(s) && !s.hasSubmittedPrediction
  }

  /** The button is enabled exactly when the field is enabled and holds a digit. */
  lemma SubmitEnabledIff(s: VM.State, typed: string)
    ensures SubmitEnabled(s, FilterDigits(typed)) <==> FieldEnabled(s) && FilterDigits(typed) != []
  {
    var kept := FilterDigits(typed);
    if kept != [] {
      assert !IsWhitespace(kept[0]);
    }
  }

  function DigitValue(c: char): nat
    requires IsDigit(c)
  {
    c as int - '0' as int
  }

  /** The decimal value of a string of digits. */
  function DigitsValue(digits: string): nat
    requires AllDigits(digits)
  {
    if digits == [] then 0
    else DigitsValue(digits[..|digits| - 1]) * 10 + DigitValue(digits[|digits| - 1])
  }

  /** Kotlin's `String.toIntOrNull()`: an optional sign followed by at least
      one digit, whose value fits in an `Int`; anything else is null. */
  function ToIntOrNull(text: string): (r: Option<Int32>)
    ensures r.Some? ==> |text| > 0
    ensures AllDigits(text) && |text| > 0 && DigitsValue(text) <= MaxInt32 ==> r == Some(DigitsValue(text))
    ensures AllDigits(text) && DigitsValue(text) > MaxInt32 ==> r == None
    ensures text == [] || text == "-" || text == "+" ==> r == None
    ensures text != [] && text[0] != '-' && text[0] != '+' && !AllDigits(text) ==> r == None
    ensures |text| > 1 && (text[0] == '-' || text[0] == '+') && !AllDigits(text[1..]) ==> r == None
  {
    if text == [] then None
    else
      var negative := text[0] == '-';
      var digits := if text[0] == '-' || text[0] == '+' then text[1..] else text;
      if digits == [] || !AllDigits(digits) then None
      else
        var value := if negative then -(DigitsValue(digits) as int) else DigitsValue(digits);
        if MinInt32 <= value <= MaxInt32 then Some(value) else None
  }

  /** The digit character of a single decimal digit. */
  function DigitChar(d: nat): (c: char)
    requires d < 10
    ensures IsDigit(c) && DigitValue(c) == d
  {
    ('0' as int + d) as char
  }

  /** The decimal text of a natural number, as `Int.toString()` writes it:
      no sign, no leading zero. */
  function Decimal(n: nat): (digits: string)
    ensures |digits| > 0 && AllDigits(digits)
    ensures DigitsValue(digits) == n
    ensures |digits| > 1 ==> digits[0] != '0'
  {
    if n < 10 then [DigitChar(n)]
    else
      var prefix := Decimal(n / 10);
      var digits := prefix + [DigitChar(n % 10)];
      assert digits[..|digits| - 1] == prefix;
      digits
  }

  /** `toIntOrNull` reads back what `toString` writes, for every `Int`:
      non-negative values as their digits, negative ones after a minus sign. */
  lemma ToIntOrNullReadsDecimal(n: Int32)
    ensures n >= 0 ==> ToIntOrNull(Decimal(n)) == Some(n)
    ensures n < 0 ==> ToIntOrNull("-" + Decimal(-(n as int))) == Some(n)
  {
  }

  lemma LeadingDigitsValue()
    ensures DigitsValue("214748364") == 214748364
  {
    assert "214748364"[..8] == "21474836";
    assert "21474836"[..7] == "2147483";
    assert "2147483"[..6] == "214748";
    assert "214748"[..5] == "21474";
    assert "21474"[..4] == "2147";
    assert "2147"[..3] == "214";
    assert "214"[..2] == "21";
    assert "21"[..1] == "2";
    assert "2"[..0] == "";
  }

  /** The largest `Int` parses; one more is rejected as an overflow. */
  lemma OverflowIsRejected()
    ensures ToIntOrNull("2147483647") == Some(MaxInt32)
    ensures ToIntOrNull("2147483648") == None
  {
    LeadingDigitsValue();
    assert "2147483647"[..9] == "214748364";
    assert "2147483648"[..9] == "214748364";
  }

  /** What the screen holds besides the view model: the text in the field. */
  datatype Screen = Screen(input: string)

  /** The field's change handler. */
  function OnValueChange(screen: Screen, typed: string): (r: Screen)
    ensures AllDigits(r.input)
  {
    Screen(FilterDigits(typed))
  }

  /** A click on submit. Text that does not parse sends nothing. Otherwise
      the prediction is sent through the view model; on success the
      submission flag is set, on failure it is cleared and the field emptied. */
  function SubmitClicked(s: VM.State, screen: Screen, raised: Option<Exception>): (r: (VM.State, Screen))
    ensures ToIntOrNull(screen.input).None? ==> r == (s, screen)
    ensures ToIntOrNull(screen.input).Some? ==>
              r.0.effects == s.effects + [VM.SendPrediction(s.gameId, s.playerId, ToIntOrNull(screen.input).value)]
    ensures ToIntOrNull(screen.input).Some? && raised.None? ==>
              r.0.hasSubmittedPrediction && r.0.error.None? && r.1 == screen
    ensures ToIntOrNull(screen.input).Some? && raised.Some? ==>
              !r.0.hasSubmittedPrediction && r.0.error.Some? && r.1.input == []
    ensures ToIntOrNull(screen.input).Some? ==>
              r.0.error == VM.SendPredictionStep(s, s.gameId, s.playerId, ToIntOrNull(screen.input).value, raised).0.error
    ensures r.0 == s.(effects := r.0.effects, error := r.0.error, hasSubmittedPrediction := r.0.hasSubmittedPrediction)
  {
    match ToIntOrNull(screen.input)
    case None => (s, screen)
    case Some(prediction) =>
      var (sent, ok) := VM.SendPredictionStep(s, s.gameId, s.playerId, prediction, raised);
      if ok then (VM.SetHasSubmittedPrediction(sent, true), screen)
      else (VM.SetHasSubmittedPrediction(sent, false), Screen(""))
  }

  /** After a successful submission neither the field nor the button accepts
      input until the submission flag is cleared again. */
  lemma SuccessLocksInput(s: VM.State, screen: Screen)
    requires ToIntOrNull(screen.input).Some?
    ensures var (s', screen') := SubmitClicked(s, screen, None);
            !FieldEnabled(s') && !SubmitEnabled(s', screen'.input)
  {
  }

  /** After a failed submission the button stays off until a digit is typed
      again, while the field reopens on this player's turn. */
  lemma FailureReopensField(s: VM.State, screen: Screen, e: Exception)
    requires ToIntOrNull(screen.input).Some?
    ensures var (s', screen') := SubmitClicked(s, screen, Some(e));
            !SubmitEnabled(s', screen'.input) && (FieldEnabled(s') <==> IsMyTurn(s))
  {
  }

  /** A snapshot of a new round reopens the field for the player whose turn it names. */
  lemma NewRoundReopensField(s: VM.State, resp: GameResponse)
    requires resp.currentRound != s.lastKnownRound
    requires resp.currentPredictionPlayerId == Some(s.playerId)
    ensures FieldEnabled(VM.OnGameUpdate(s, resp))
  {
  }
}
