/** The records exchanged with the server: the game-status enum, card and
    player descriptors, the pushed game snapshot, and the two request
    bodies the client encodes. Kotlin's `String?` fields are `Option<string>`. */
module Dto {
  import opened Wrappers

  /** Kotlin's `Int`: a 32-bit signed integer. */
  const MinInt32: int := -0x8000_0000
  const MaxInt32: int := 0x7FFF_FFFF
  type Int32 = x: int | MinInt32 <= x <= MaxInt32

  /** The server's game phase. */
  datatype GameStatus = LOBBY | PREDICTION | PLAYING | ROUND_END_SUMMARY | ENDED

  /** A card as the server describes it: colour, value and type are free text
      ("RED", "7", "NUMBER"; "SPECIAL", "0", "WIZARD"). */
  datatype CardDto = CardDto(color: string, value: string, cardType: string)

  /** One player's public state; `tricksWon` and `prediction` default to 0. */
  datatype PlayerDto = PlayerDto(
    playerId: string,
    playerName: string,
    score: Int32,
    ready: bool,
    tricksWon: Int32,
    prediction: Int32)

  /** The game snapshot pushed on `/topic/game/{playerId}`. The last four
      fields are read by the view model and the screens although the record
      declaration shown in the repository does not list them. */
  datatype GameResponse = GameResponse(
    gameId: string,
    status: GameStatus,
    currentPlayerId: Option<string>,
    players: seq<PlayerDto>,
    handCards: seq<CardDto>,
    lastPlayedCard: Option<string>,
    lastTrickWinnerId: Option<string>,
    trumpCard: Option<CardDto>,
    currentRound: Int32,
    currentPredictionPlayerId: Option<string>)

  /** Body of the join and play-card requests. */
  datatype GameRequest = GameRequest(
    gameId: string,
    playerId: string,
    playerName: Option<string>,
    card: Option<string>,
    action: Option<string>)

  /** Body of the prediction request. */
  datatype PredictionRequest = PredictionRequest(gameId: string, playerId: string, prediction: Int32)

  /** A raised Kotlin exception: its own message and its cause's message, either possibly null. */
  datatype Exception = Exception(message: Option<string>, causeMessage: Option<string>)
}
