/** The decisions the main screen makes: which screen a status change leads
    to, when the round summary covers everything, the number of the round
    just ended, when a hand card may be played, who has won, and the
    screen's own copy of the card-string parser. */
module MainScreen {
  import opened Wrappers
  import opened Text
  import opened Dto
  import opened CardCodec
  import VM = ViewModel

  /** The screens the main screen switches between. */
  datatype Screen = Lobby | Deal | Game | GameEnd

  /** What is drawn: the round summary, or the current screen. */
  datatype View = RoundSummary | Showing(screen: Screen)

  /** The screen shown before any status arrives. */
  const InitialScreen: Screen := Lobby

  /** The status effect: PREDICTION, PLAYING and ENDED switch to their
      screens; LOBBY, ROUND_END_SUMMARY and no snapshot keep the current one. */
  function ScreenForStatus(current: Screen, status: Option<GameStatus>): (next: Screen)
    ensures status == Some(PREDICTION) ==> next == Deal
    ensures status == Some(PLAYING) ==> next == Game
    ensures status == Some(ENDED) ==> next == GameEnd
    ensures next != current ==> status.Some? && status.value in {PREDICTION, PLAYING, ENDED}
    ensures next == current || next in {Deal, Game, GameEnd}
  {
    match status
    case Some(PREDICTION) => Deal
    case Some(PLAYING) => Game
    case Some(ENDED) => GameEnd
    case _ => current
  }

  /** The three driving statuses choose the screen whatever was shown
      before; every other status leaves the screen alone. */
  lemma StatusDrivesScreen(current: Screen, other: Screen, status: Option<GameStatus>)
    ensures ScreenForStatus(current, Some(PREDICTION)) == Deal
    ensures ScreenForStatus(current, Some(PLAYING)) == Game
    ensures ScreenForStatus(current, Some(ENDED)) == GameEnd
    ensures status in {Some(PREDICTION), Some(PLAYING), Some(ENDED)} ==>
              ScreenForStatus(current, status) == ScreenForStatus(other, status)
    ensures status !in {Some(PREDICTION), Some(PLAYING), Some(ENDED)} ==>
              ScreenForStatus(current, status) == current
  {
  }

  /** The summary flag overrides the current screen. */
  function Rendered(current: Screen, showRoundSummaryScreen: bool): (v: View)
    ensures v == RoundSummary <==> showRoundSummaryScreen
    ensures v.Showing? ==> v.screen == current
  {
    if showRoundSummaryScreen then RoundSummary else Showing(current)
  }

  /** In every reachable view-model state the round summary is drawn exactly
      while the latest snapshot is a round-end summary, whatever screen is current. */
  lemma SummaryShownIffLatestIsSummary(events: seq<VM.Event>, current: Screen)
    ensures var s := VM.Run(VM.Initial, events);
            Rendered(current, s.showRoundSummaryScreen) == RoundSummary <==>
              s.gameResponse.Some? && s.gameResponse.value.status == ROUND_END_SUMMARY
  {
    VM.RunKeepsConsistent(VM.Initial, events);
  }

  /** Callbacks of the screens that change the current screen. */
  datatype ScreenCallback = GameStartPressed | PredictionComplete

  /** The lobby's game-start callback opens the deal screen; the deal
      screen's prediction-complete callback opens the game screen. */
  function AfterCallback(current: Screen, callback: ScreenCallback): (next: Screen)
    ensures callback.GameStartPressed? ==> next == Deal
    ensures callback.PredictionComplete? ==> next == Game
    ensures callback.GameStartPressed? ==> next == ScreenForStatus(current, Some(PREDICTION))
    ensures callback.PredictionComplete? ==> next == ScreenForStatus(current, Some(PLAYING))
  {
    match callback
    case GameStartPressed => Deal
    case PredictionComplete => Game
  }

  /** The number of the round the summary reports: one less than the
      current round, and 0 when there is no positive round. */
  function RoundEnded(resp: Option<GameResponse>): (n: nat)
    ensures resp.None? ==> n == 0
    ensures resp.Some? && resp.value.currentRound > 0 ==> n + 1 == resp.value.currentRound
    ensures resp.Some? && resp.value.currentRound <= 0 ==> n == 0
  {
    var current := match resp case Some(r) => r.currentRound as int case None => 0;
    if current > 0 then current - 1 else 0
  }

  /** In every reachable state, the round the summary reports is the one
      before the round the view model last saw, once a positive round arrived. */
  lemma RoundEndedPrecedesLastKnownRound(events: seq<VM.Event>)
    ensures var s := VM.Run(VM.Initial, events);
            s.gameResponse.Some? && s.lastKnownRound > 0 ==> RoundEnded(s.gameResponse) + 1 == s.lastKnownRound
  {
    VM.RunKeepsConsistent(VM.Initial, events);
  }

  /** It is this player's turn to play when the snapshot names them as the current player. */
  function IsPlayersTurn(s: VM.State): (turn: bool)
    ensures turn ==> s.gameResponse.Some? && s.gameResponse.value.currentPlayerId == Some(s.playerId)
    ensures s.gameResponse.None? ==> !turn
  {
    s.gameResponse.Some? && s.gameResponse.value.currentPlayerId == Some(s.playerId)
  }

  /** The turn is decided by the latest snapshot alone: after an update it
      is this player's turn exactly when the update names them current. */
  lemma TurnFollowsLatestUpdate(s: VM.State, resp: GameResponse)
    ensures IsPlayersTurn(VM.OnGameUpdate(s, resp)) <==> resp.currentPlayerId == Some(s.playerId)
  {
  }

  /** Clicking a hand card: on this player's turn the card's play string is
      played; otherwise nothing happens. */
  function HandCardClicked(s: VM.State, card: CardDto): (r: VM.State)
    ensures !IsPlayersTurn(s) ==> r == s
    ensures IsPlayersTurn(s) ==> r == VM.PlayCard(s, PlayString(card))
  {
    if IsPlayersTurn(s) then VM.PlayCard(s, PlayString(card)) else s
  }

  /** A click out of turn sends nothing; a click in turn with both ids set
      sends exactly one card play whose string parses back to the card. */
  lemma ClickSendsParsableCard(s: VM.State, card: CardDto)
    requires Canonical(card)
    ensures !IsPlayersTurn(s) ==> HandCardClicked(s, card).effects == s.effects
    ensures IsPlayersTurn(s) && s.gameId != [] && s.playerId != [] ==>
              var sent := HandCardClicked(s, card).effects[|s.effects|..];
              |sent| == 1 && sent[0].SendPlayCard? && ToCardDto(sent[0].card) == Some(card)
  {
    ParseOfPlayString(card);
    if IsPlayersTurn(s) && s.gameId != [] && s.playerId != [] {
      var r := HandCardClicked(s, card);
      assert r.effects[|s.effects|..] == [VM.SendPlayCard(s.gameId, s.playerId, PlayString(card), VM.IsCheating(s, s.playerId))];
    }
  }

  /** `i` is the first entry with the highest score. */
  predicate IsFirstMax(board: seq<PlayerDto>, i: int) {
    && 0 <= i < |board|
    && (forall j :: 0 <= j < |board| ==> board[j].score <= board[i].score)
    && (forall j :: 0 <= j < i ==> board[j].score < board[i].score)
  }

  /** At most one entry is the first with the highest score. */
  lemma FirstMaxUnique(board: seq<PlayerDto>, i: int, k: int)
    requires IsFirstMax(board, i) && IsFirstMax(board, k)
    ensures i == k
  {
    assert board[i].score == board[k].score;
  }

  /** The game-end winner, `maxByOrNull { score }`: none for an empty board,
      otherwise the first entry whose score no other entry exceeds. */
  method Winner(board: seq<PlayerDto>) returns (winner: Option<PlayerDto>)
    ensures board == [] <==> winner.None?
    ensures winner.Some? ==> exists i :: IsFirstMax(board, i) && board[i] == winner.value
  {
    if board == [] {
      return None;
    }
    var best := 0;
    var i := 1;
    while i < |board|
      invariant 1 <= i <= |board|
      invariant 0 <= best < i
      invariant forall j :: 0 <= j < i ==> board[j].score <= board[best].score
      invariant forall j :: 0 <= j < best ==> board[j].score < board[best].score
    {
      if board[best].score < board[i].score {
        best := i;
      }
      i := i + 1;
    }
    assert IsFirstMax(board, best);
    winner := Some(board[best]);
  }

  /** The main screen's own copy of the card-string parser, which agrees
      with the card component's parser on every input. */
  function LocalToCardDto(s: string): (r: Option<CardDto>)
    ensures r == ToCardDto(s)
  {
    if EqualsIgnoreCase(s, "WIZARD") then Some(CardDto("SPECIAL", "0", "WIZARD"))
    else if EqualsIgnoreCase(s, "JESTER") then Some(CardDto("SPECIAL", "0", "JESTER"))
    else if '_' in s then
      var parts := Split(s, '_');
      if |parts| == 2 then Some(CardDto(parts[0], parts[1], "NUMBER")) else None
    else None
  }
}
