/** The view model's state reconciler. Its mutable fields become one
    immutable record; every callback and public operation becomes a pure
    step from one record to the next. Calls into the session client (and
    switching the torch on) are appended to an effect log rather than
    performed; each coroutine body runs as one atomic step. */
module ViewModel {
  import opened Wrappers
  import opened Text
  import opened Dto
  import SC = StompClient

  /** A call the view model makes into the session client or the torch helper. */
  datatype Effect =
    | SubscribeGameUpdates(playerId: string)
    | SubscribeErrors(playerId: string)
    | SubscribeScoreboard(gameId: string)
    | SendJoin(gameId: string, playerId: string, playerName: string)
    | SendPrediction(gameId: string, playerId: string, prediction: Int32)
    | SendPlayCard(gameId: string, playerId: string, card: string, isCheating: bool)
    | SendStartGame(gameId: string)
    | SendProceedToNextRound(gameId: string)
    | SendForceEndGame(gameId: string)
    | SendReturnToLobby(gameId: string)
    | FlashlightOn(millis: nat)

  /** The observable fields of the view model, plus the effect log. */
  datatype State = State(
    gameResponse: Option<GameResponse>,
    error: Option<string>,
    gameId: string,
    playerId: string,
    playerName: string,
    scoreboard: seq<PlayerDto>,
    showRoundSummaryScreen: bool,
    hasSubmittedPrediction: bool,
    lastKnownRound: int,
    cheatStates: map<string, bool>,
    effects: seq<Effect>)

  /** The round number before any update: no real round has it. */
  const NoRound: int := -1

  /** A freshly constructed view model. */
  const Initial: State := State(None, None, "", "", "", [], false, false, NoRound, map[], [])

  const FlashlightMillis: nat := 5000
  const ConnectionFailedMessage: string := "Connection to server failed"
  const CardPreconditionMessage: string := "Game ID or Player ID not set. Cannot play card."
  const SumMatchesRoundMarker: string := "exakt die Anzahl der Stiche"
  const WarningPrefix: string := "! "
  const SumMatchesRoundHeadline: string := "Vorhersage nicht erlaubt"
  const SumMatchesRoundMessage: string :=
    WarningPrefix + SumMatchesRoundHeadline + " – die Summe entspricht der Rundenzahl. Gib bitte einen anderen Wert ein."
  const GenericPredictionPrefix: string := WarningPrefix + "Fehler: "
  const UnknownErrorText: string := "Unbekannter Fehler"

  /** `isCheating(playerId)`: the stored flag, false for a player never toggled. */
  function IsCheating(s: State, playerId: string): (cheating: bool)
    ensures playerId in s.cheatStates ==> cheating == s.cheatStates[playerId]
    ensures playerId !in s.cheatStates ==> !cheating
  {
    if playerId in s.cheatStates then s.cheatStates[playerId] else false
  }

  /** `toggleCheatState(playerId)`: flips that player's flag and, only when
      the flag becomes true, switches the torch on for five seconds. */
  function ToggleCheatState(s: State, playerId: string): (r: State)
    ensures IsCheating(r, playerId) == !IsCheating(s, playerId)
    ensures forall q :: q != playerId ==> IsCheating(r, q) == IsCheating(s, q)
    ensures r.effects == s.effects + (if IsCheating(r, playerId) then [FlashlightOn(FlashlightMillis)] else [])
    ensures r == s.(cheatStates := r.cheatStates, effects := r.effects)
  {
    var now := !IsCheating(s, playerId);
    s.(cheatStates := s.cheatStates[playerId := now],
       effects := s.effects + (if now then [FlashlightOn(FlashlightMillis)] else []))
  }

  /** Toggling twice restores the flag and switches the torch on exactly once. */
  lemma ToggleTwice(s: State, playerId: string)
    ensures IsCheating(ToggleCheatState(ToggleCheatState(s, playerId), playerId), playerId) == IsCheating(s, playerId)
    ensures ToggleCheatState(ToggleCheatState(s, playerId), playerId).effects == s.effects + [FlashlightOn(FlashlightMillis)]
  {
    var once := ToggleCheatState(s, playerId);
    if IsCheating(s, playerId) {
      assert once.effects == s.effects;
    } else {
      assert once.effects == s.effects + [FlashlightOn(FlashlightMillis)];
    }
  }

  /** The `onUpdate` callback of the game-update subscription: a new round
      number clears the submission flag and the error; the summary flag
      follows the status; the stored snapshot is replaced wholesale. */
  function OnGameUpdate(s: State, resp: GameResponse): (r: State)
    ensures r.gameResponse == Some(resp)
    ensures r.showRoundSummaryScreen <==> resp.status == ROUND_END_SUMMARY
    ensures r.lastKnownRound == resp.currentRound
    ensures resp.currentRound != s.lastKnownRound ==> !r.hasSubmittedPrediction && r.error == None
    ensures resp.currentRound == s.lastKnownRound ==>
              r.hasSubmittedPrediction == s.hasSubmittedPrediction && r.error == s.error
    ensures r == s.(gameResponse := r.gameResponse, showRoundSummaryScreen := r.showRoundSummaryScreen,
                    hasSubmittedPrediction := r.hasSubmittedPrediction, error := r.error,
                    lastKnownRound := r.lastKnownRound)
  {
    var s1 :=
      if resp.currentRound != s.lastKnownRound
      then s.(hasSubmittedPrediction := false, error := None, lastKnownRound := resp.currentRound)
      else s;
    var s2 :=
      if resp.status == ROUND_END_SUMMARY then s1.(showRoundSummaryScreen := true)
      else if s1.showRoundSummaryScreen then s1.(showRoundSummaryScreen := false)
      else s1;
    s2.(gameResponse := Some(resp))
  }

  /** `hasGameStarted()`: the game is being played and no summary covers it. */
  function HasGameStarted(s: State): (started: bool)
    ensures started ==> s.gameResponse.Some? && s.gameResponse.value.status == PLAYING
    ensures s.showRoundSummaryScreen ==> !started
    ensures s.gameResponse.None? ==> !started
  {
    s.gameResponse.Some? && s.gameResponse.value.status == PLAYING && !s.showRoundSummaryScreen
  }

  /** Right after any update, the game counts as started exactly when the
      update says PLAYING; in particular never while a summary is shown. */
  lemma StartedAfterUpdate(s: State, resp: GameResponse)
    ensures HasGameStarted(OnGameUpdate(s, resp)) <==> resp.status == PLAYING
    ensures OnGameUpdate(s, resp).showRoundSummaryScreen ==> !HasGameStarted(OnGameUpdate(s, resp))
  {
  }

  /** The `onError` callback: the text becomes the error and any optimistic
      submission is withdrawn. */
  function OnError(s: State, message: string): (r: State)
    ensures r.error == Some(message) && !r.hasSubmittedPrediction
    ensures r == s.(error := r.error, hasSubmittedPrediction := r.hasSubmittedPrediction)
  {
    s.(error := Some(message), hasSubmittedPrediction := false)
  }

  /** The scoreboard callback: the board is replaced wholesale. */
  function OnScoreboard(s: State, board: seq<PlayerDto>): (r: State)
    ensures r.scoreboard == board
    ensures r == s.(scoreboard := board)
  {
    s.(scoreboard := board)
  }

  /** The synchronous part of `connectAndJoin`: the three ids are stored
      before any connection is attempted. */
  function ConnectAndJoin(s: State, gameId: string, playerId: string, playerName: string): (r: State)
    ensures r.gameId == gameId && r.playerId == playerId && r.playerName == playerName
    ensures r == s.(gameId := gameId, playerId := playerId, playerName := playerName)
  {
    s.(gameId := gameId, playerId := playerId, playerName := playerName)
  }

  /** How far the launched part of `connectAndJoin` got: `connect()` returned
      false, or the step named raised, or everything succeeded. The `try`
      also covers a `connect()` that raises (`ConnectRaised`); the session
      client's own `connect()` catches every exception, so against it this
      outcome cannot arise (see `LaunchedOutcome`). */
  datatype JoinOutcome =
    | ConnectReturnedFalse
    | ConnectRaised(e: Exception)
    | SubscribeGameRaised(e: Exception)
    | SubscribeErrorsRaised(e: Exception)
    | JoinRaised(e: Exception)
    | Joined

  /** The calls the launched part makes, in order, when nothing fails. */
  function JoinCalls(gameId: string, playerId: string, playerName: string): seq<Effect> {
    [SubscribeGameUpdates(playerId), SubscribeErrors(playerId), SendJoin(gameId, playerId, playerName), SubscribeScoreboard(gameId)]
  }

  /** How many of those calls were made before the outcome was decided. */
  function CallsMade(outcome: JoinOutcome): (n: nat)
    ensures n <= 4
  {
    match outcome
    case ConnectReturnedFalse => 0
    case ConnectRaised(_) => 0
    case SubscribeGameRaised(_) => 1
    case SubscribeErrorsRaised(_) => 2
    case JoinRaised(_) => 3
    case Joined => 4
  }

  /** The outcome of the launched part when it runs against the session
      client: `connect()` refuses or opens a session, then the game-update
      subscription, the error subscription and the join request each meet a
      transport that accepts or raises. The scoreboard subscription runs in a
      coroutine of its own, so its failure does not decide the outcome. */
  function LaunchedOutcome(c: SC.Client, attempt: SC.ConnectAttempt, game: SC.Transport, errors: SC.Transport,
                           join: SC.Transport, gameId: string, playerId: string, playerName: string): (o: JoinOutcome)
    ensures !o.ConnectRaised?
    ensures o.ConnectReturnedFalse? <==> attempt.Refuses?
    ensures attempt.Opens? && game.Raises? ==> o == SubscribeGameRaised(game.raised)
    ensures attempt.Opens? && game.Accepts? && errors.Raises? ==> o == SubscribeErrorsRaised(errors.raised)
    ensures attempt.Opens? && game.Accepts? && errors.Accepts? && join.Raises? ==> o == JoinRaised(join.raised)
    ensures o.Joined? <==> attempt.Opens? && game.Accepts? && errors.Accepts? && join.Accepts?
  {
    var (connected, ok) := SC.Connect(c, attempt);
    var gameSubscription := SC.OpenSubscription(connected, game);
    var errorSubscription := SC.OpenSubscription(connected, errors);
    var joinRequest := SC.SendJoinRequest(connected, gameId, playerId, playerName, join);
    if !ok then ConnectReturnedFalse
    else if gameSubscription.Failure? then SubscribeGameRaised(gameSubscription.error)
    else if errorSubscription.Failure? then SubscribeErrorsRaised(errorSubscription.error)
    else if joinRequest.Failure? then JoinRaised(joinRequest.error)
    else Joined
  }

  /** Kotlin's `"${e.message}"`: a null message prints as "null". */
  function MessageText(message: Option<string>): string {
    message.GetOr("null")
  }

  /** The launched part of `connectAndJoin`, with the ids it captured: the
      calls made up to the outcome are logged; a false connect sets the
      connection error, anything raised sets "Error: " and its message. */
  function JoinCompleted(s: State, gameId: string, playerId: string, playerName: string, outcome: JoinOutcome): (r: State)
    ensures r.effects == s.effects + JoinCalls(gameId, playerId, playerName)[..CallsMade(outcome)]
    ensures outcome.ConnectReturnedFalse? ==> r.error == Some(ConnectionFailedMessage)
    ensures outcome.Joined? ==> r.error == s.error
    ensures !outcome.ConnectReturnedFalse? && !outcome.Joined? ==>
              r.error == Some("Error: " + MessageText(outcome.e.message))
    ensures r == s.(effects := r.effects, error := r.error)
  {
    var calls := JoinCalls(gameId, playerId, playerName)[..CallsMade(outcome)];
    match outcome
    case Joined => s.(effects := s.effects + calls)
    case ConnectReturnedFalse => s.(error := Some(ConnectionFailedMessage))
    case _ => s.(effects := s.effects + calls, error := Some("Error: " + MessageText(outcome.e.message)))
  }

  /** The join request is sent only once both subscriptions are in place,
      and the scoreboard is subscribed only after the join request. */
  lemma JoinOrder(s: State, gameId: string, playerId: string, playerName: string, outcome: JoinOutcome)
    ensures var added := JoinCompleted(s, gameId, playerId, playerName, outcome).effects[|s.effects|..];
            && (SendJoin(gameId, playerId, playerName) in added <==> CallsMade(outcome) >= 3)
            && (CallsMade(outcome) >= 3 ==> added[..2] == [SubscribeGameUpdates(playerId), SubscribeErrors(playerId)])
            && (SubscribeScoreboard(gameId) in added <==> outcome.Joined?)
  {
    var added := JoinCompleted(s, gameId, playerId, playerName, outcome).effects[|s.effects|..];
    var calls := JoinCalls(gameId, playerId, playerName);
    assert added == calls[..CallsMade(outcome)];
    match CallsMade(outcome) {
      case 0 => assert added == [];
      case 1 => assert added == [calls[0]];
      case 2 => assert added == [calls[0], calls[1]];
      case 3 => assert added == [calls[0], calls[1], calls[2]];
      case 4 => assert added == calls;
    }
  }

  /** The failure text `sendPrediction` reports: the exception's message, else its cause's, else a fixed text. */
  function FailureText(e: Exception): (text: string)
    ensures e.message.Some? ==> text == e.message.value
    ensures e.message.None? && e.causeMessage.Some? ==> text == e.causeMessage.value
    ensures e.message.None? && e.causeMessage.None? ==> text == UnknownErrorText
  {
    e.message.GetOr(e.causeMessage.GetOr(UnknownErrorText))
  }

  /** The error shown after a failed prediction: the rule that the sum of
      predictions must not equal the round gets its own message. */
  function PredictionErrorText(msg: string): (text: string)
    ensures text == SumMatchesRoundMessage <==> ContainsSubstring(msg, SumMatchesRoundMarker)
    ensures !ContainsSubstring(msg, SumMatchesRoundMarker) ==> text == GenericPredictionPrefix + msg
    ensures text[..|WarningPrefix|] == WarningPrefix
  {
    SpecificMessageIsNotGeneric(msg);
    if ContainsSubstring(msg, SumMatchesRoundMarker) then SumMatchesRoundMessage else GenericPredictionPrefix + msg
  }

  /** `sendPrediction`: the prediction is sent; success clears the error and
      answers true; a raised failure sets the translated error and answers
      false. The submission flag is left to the caller. */
  function SendPredictionStep(s: State, gameId: string, playerId: string, prediction: Int32, raised: Option<Exception>): (r: (State, bool))
    ensures r.1 <==> raised.None?
    ensures r.0.effects == s.effects + [SendPrediction(gameId, playerId, prediction)]
    ensures r.1 ==> r.0.error == None
    ensures !r.1 && ContainsSubstring(FailureText(raised.value), SumMatchesRoundMarker) ==>
              r.0.error == Some(SumMatchesRoundMessage)
    ensures !r.1 && !ContainsSubstring(FailureText(raised.value), SumMatchesRoundMarker) ==>
              r.0.error == Some(GenericPredictionPrefix + FailureText(raised.value))
    ensures r.0 == s.(effects := r.0.effects, error := r.0.error)
  {
    var sent := s.(effects := s.effects + [SendPrediction(gameId, playerId, prediction)]);
    match raised
    case None => (sent.(error := None), true)
    case Some(e) => (sent.(error := Some(PredictionErrorText(FailureText(e)))), false)
  }

  /** The specific message can never be mistaken for a generic one. */
  lemma SpecificMessageIsNotGeneric(msg: string)
    ensures SumMatchesRoundMessage != GenericPredictionPrefix + msg
  {
    assert SumMatchesRoundMessage[2] == SumMatchesRoundHeadline[0] == 'V';
    assert (GenericPredictionPrefix + msg)[2] == 'F';
  }

  /** `playCard(card)`: with both ids set, the card is sent with the player's
      current cheat flag and the flag is reset; otherwise nothing is sent and
      the fixed precondition error is shown. */
  function PlayCard(s: State, card: string): (r: State)
    ensures s.gameId == [] || s.playerId == [] ==>
              r.effects == s.effects && r.error == Some(CardPreconditionMessage) && r == s.(error := r.error)
    ensures s.gameId != [] && s.playerId != [] ==>
              && r.effects == s.effects + [SendPlayCard(s.gameId, s.playerId, card, IsCheating(s, s.playerId))]
              && !IsCheating(r, s.playerId)
              && (forall q :: q != s.playerId ==> IsCheating(r, q) == IsCheating(s, q))
              && r == s.(effects := r.effects, cheatStates := r.cheatStates)
  {
    if s.gameId != [] && s.playerId != [] then
      s.(effects := s.effects + [SendPlayCard(s.gameId, s.playerId, card, IsCheating(s, s.playerId))],
         cheatStates := s.cheatStates[s.playerId := false])
    else
      s.(error := Some(CardPreconditionMessage))
  }

  /** A cheat flag is spent on the next card played. */
  lemma CheatFlagSpentOnPlay(s: State, card: string)
    requires s.gameId != [] && s.playerId != []
    requires !IsCheating(s, s.playerId)
    ensures PlayCard(ToggleCheatState(s, s.playerId), card).effects
            == s.effects + [FlashlightOn(FlashlightMillis), SendPlayCard(s.gameId, s.playerId, card, true)]
    ensures !IsCheating(PlayCard(ToggleCheatState(s, s.playerId), card), s.playerId)
  {
  }

  /** `startGame()`: the start request is sent even when the game id is empty. */
  function StartGame(s: State): (r: State)
    ensures r.effects == s.effects + [SendStartGame(s.gameId)]
    ensures r == s.(effects := r.effects)
  {
    s.(effects := s.effects + [SendStartGame(s.gameId)])
  }

  /** The effect a game-wide request produces for a game id. */
  datatype GameWide = Proceed | Abort | ReturnToLobby

  function GameWideEffect(kind: GameWide, gameId: string): Effect {
    match kind
    case Proceed => SendProceedToNextRound(gameId)
    case Abort => SendForceEndGame(gameId)
    case ReturnToLobby => SendReturnToLobby(gameId)
  }

  /** `proceedToNextRound`, `abortGameForAll` and `returnToLobbyForAll`: the
      request is sent only when a game id is set; otherwise nothing happens. */
  function GameWideRequest(s: State, kind: GameWide): (r: State)
    ensures s.gameId == [] ==> r == s
    ensures s.gameId != [] ==> r.effects == s.effects + [GameWideEffect(kind, s.gameId)]
    ensures r == s.(effects := r.effects)
  {
    if s.gameId != [] then s.(effects := s.effects + [GameWideEffect(kind, s.gameId)]) else s
  }

  /** `proceedToNextRound()`: the proceed request, only with a game id. */
  function ProceedToNextRound(s: State): (r: State)
    ensures s.gameId == [] ==> r == s
    ensures s.gameId != [] ==> r == s.(effects := s.effects + [SendProceedToNextRound(s.gameId)])
  {
    GameWideRequest(s, Proceed)
  }

  /** `abortGameForAll()`: the force-end request, only with a game id. */
  function AbortGameForAll(s: State): (r: State)
    ensures s.gameId == [] ==> r == s
    ensures s.gameId != [] ==> r == s.(effects := s.effects + [SendForceEndGame(s.gameId)])
  {
    GameWideRequest(s, Abort)
  }

  /** `returnToLobbyForAll()`: the return-to-lobby request, only with a game id. */
  function ReturnToLobbyForAll(s: State): (r: State)
    ensures s.gameId == [] ==> r == s
    ensures s.gameId != [] ==> r == s.(effects := s.effects + [SendReturnToLobby(s.gameId)])
  {
    GameWideRequest(s, ReturnToLobby)
  }

  /** `resetGame()`: every per-game field returns to its initial value; the
      game id, the cheat flags and the effect log are kept. */
  function ResetGame(s: State): (r: State)
    ensures r == Initial.(gameId := s.gameId, cheatStates := s.cheatStates, effects := s.effects)
  {
    s.(gameResponse := None, scoreboard := [], playerId := "", playerName := "",
       showRoundSummaryScreen := false, error := None, hasSubmittedPrediction := false,
       lastKnownRound := NoRound)
  }

  /** `endGameEarly()`: a stored snapshot is marked ENDED and the summary is
      hidden; an absent snapshot stays absent. */
  function EndGameEarly(s: State): (r: State)
    ensures s.gameResponse.None? ==> r.gameResponse.None?
    ensures s.gameResponse.Some? ==> r.gameResponse == Some(s.gameResponse.value.(status := ENDED))
    ensures !r.showRoundSummaryScreen
    ensures r == s.(gameResponse := r.gameResponse, showRoundSummaryScreen := false)
  {
    var resp := match s.gameResponse
      case None => None
      case Some(g) => Some(g.(status := ENDED));
    s.(gameResponse := resp, showRoundSummaryScreen := false)
  }

  /** `clearLastTrickWinner()`: only the trick winner of a stored snapshot is cleared. */
  function ClearLastTrickWinner(s: State): (r: State)
    ensures s.gameResponse.None? ==> r == s
    ensures s.gameResponse.Some? ==> r.gameResponse == Some(s.gameResponse.value.(lastTrickWinnerId := None))
    ensures r == s.(gameResponse := r.gameResponse)
  {
    match s.gameResponse
    case None => s
    case Some(g) => s.(gameResponse := Some(g.(lastTrickWinnerId := None)))
  }

  /** The public setter the prediction screen uses. */
  function SetHasSubmittedPrediction(s: State, value: bool): (r: State)
    ensures r.hasSubmittedPrediction == value
    ensures r == s.(hasSubmittedPrediction := value)
  {
    s.(hasSubmittedPrediction := value)
  }

  /** Everything that can happen to the view model. */
  datatype Event =
    | GameUpdate(response: GameResponse)
    | ErrorMessage(text: string)
    | ScoreboardUpdate(board: seq<PlayerDto>)
    | ConnectAndJoinCalled(gameId: string, playerId: string, playerName: string)
    | JoinFinished(joinGameId: string, joinPlayerId: string, joinPlayerName: string, outcome: JoinOutcome)
    | PredictionSent(predGameId: string, predPlayerId: string, prediction: Int32, raised: Option<Exception>)
    | CardPlayed(card: string)
    | StartGameCalled
    | GameWideCalled(kind: GameWide)
    | ResetCalled
    | EndEarlyCalled
    | ClearWinnerCalled
    | CheatToggled(cheater: string)
    | SubmittedFlagSet(value: bool)

  function Step(s: State, e: Event): State {
    match e
    case GameUpdate(resp) => OnGameUpdate(s, resp)
    case ErrorMessage(text) => OnError(s, text)
    case ScoreboardUpdate(board) => OnScoreboard(s, board)
    case ConnectAndJoinCalled(g, p, n) => ConnectAndJoin(s, g, p, n)
    case JoinFinished(g, p, n, outcome) => JoinCompleted(s, g, p, n, outcome)
    case PredictionSent(g, p, n, raised) => SendPredictionStep(s, g, p, n, raised).0
    case CardPlayed(card) => PlayCard(s, card)
    case StartGameCalled => StartGame(s)
    case GameWideCalled(kind) => GameWideRequest(s, kind)
    case ResetCalled => ResetGame(s)
    case EndEarlyCalled => EndGameEarly(s)
    case ClearWinnerCalled => ClearLastTrickWinner(s)
    case CheatToggled(p) => ToggleCheatState(s, p)
    case SubmittedFlagSet(value) => SetHasSubmittedPrediction(s, value)
  }

  /** Events applied one after another, in any interleaving of topics and user actions. */
  function Run(s: State, events: seq<Event>): State
    decreases |events|
  {
    if events == [] then s else Run(Step(s, events[0]), events[1..])
  }

  /** The summary flag mirrors the stored snapshot's status, and the last
      known round is the stored snapshot's round. */
  predicate Consistent(s: State) {
    && (s.showRoundSummaryScreen <==> s.gameResponse.Some? && s.gameResponse.value.status == ROUND_END_SUMMARY)
    && (s.gameResponse.Some? ==> s.lastKnownRound == s.gameResponse.value.currentRound)
  }

  lemma StepKeepsConsistent(s: State, e: Event)
    requires Consistent(s)
    ensures Consistent(Step(s, e))
  {
  }

  /** Whatever happens, the summary is shown exactly while the latest
      snapshot is a round-end summary. */
  lemma {:induction false} RunKeepsConsistent(s: State, events: seq<Event>)
    requires Consistent(s)
    ensures Consistent(Run(s, events))
    decreases |events|
  {
    if events != [] {
      StepKeepsConsistent(s, events[0]);
      RunKeepsConsistent(Step(s, events[0]), events[1..]);
    }
  }

  /** In every reachable state the game counts as started exactly when the
      stored snapshot says PLAYING. */
  lemma StartedIffPlaying(events: seq<Event>)
    ensures HasGameStarted(Run(Initial, events)) <==>
              Run(Initial, events).gameResponse.Some? && Run(Initial, events).gameResponse.value.status == PLAYING
  {
    RunKeepsConsistent(Initial, events);
  }

  /** The effect log is append-only. */
  lemma {:induction false} RunOnlyAppendsEffects(s: State, events: seq<Event>)
    ensures |s.effects| <= |Run(s, events).effects|
    ensures Run(s, events).effects[..|s.effects|] == s.effects
    decreases |events|
  {
    if events != [] {
      var next := Step(s, events[0]);
      StepOnlyAppendsEffects(s, events[0]);
      RunOnlyAppendsEffects(next, events[1..]);
      var final := Run(next, events[1..]);
      assert final.effects[..|next.effects|][..|s.effects|] == final.effects[..|s.effects|];
    }
  }

  /** One step keeps the earlier calls and can only add new ones. */
  lemma StepOnlyAppendsEffects(s: State, e: Event)
    ensures |s.effects| <= |Step(s, e).effects|
    ensures Step(s, e).effects[..|s.effects|] == s.effects
  {
  }

  /** The guard each game-bound request is issued under: card plays need both
      ids, game-wide requests need a game id. */
  predicate Guarded(e: Effect) {
    match e
    case SendPlayCard(g, p, _, _) => g != [] && p != []
    case SendProceedToNextRound(g) => g != []
    case SendForceEndGame(g) => g != []
    case SendReturnToLobby(g) => g != []
    case _ => true
  }

  predicate AllGuarded(effects: seq<Effect>) {
    forall i :: 0 <= i < |effects| ==> Guarded(effects[i])
  }

  lemma StepIssuesGuarded(s: State, e: Event)
    requires AllGuarded(s.effects)
    ensures AllGuarded(Step(s, e).effects)
  {
    var r := Step(s, e);
    assert r.effects[..|s.effects|] == s.effects;
    forall i | |s.effects| <= i < |r.effects| ensures Guarded(r.effects[i]) {
    }
  }

  /** No run ever issues a card play or a game-wide request with a missing id. */
  lemma {:induction false} RunIssuesGuarded(s: State, events: seq<Event>)
    requires AllGuarded(s.effects)
    ensures AllGuarded(Run(s, events).effects)
    decreases |events|
  {
    if events != [] {
      StepIssuesGuarded(s, events[0]);
      RunIssuesGuarded(Step(s, events[0]), events[1..]);
    }
  }

  /** A second update of the same round keeps a submission made in between. */
  lemma SameRoundKeepsSubmission(s: State, first: GameResponse, second: GameResponse)
    requires first.currentRound == second.currentRound
    ensures OnGameUpdate(SetHasSubmittedPrediction(OnGameUpdate(s, first), true), second).hasSubmittedPrediction
  {
  }

  /** The summary flag switches off on the very next update with another status. */
  lemma SummaryEndsOnNextUpdate(s: State, summary: GameResponse, next: GameResponse)
    requires summary.status == ROUND_END_SUMMARY && next.status != ROUND_END_SUMMARY
    ensures OnGameUpdate(s, summary).showRoundSummaryScreen
    ensures !OnGameUpdate(OnGameUpdate(s, summary), next).showRoundSummaryScreen
  {
  }
}
