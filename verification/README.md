# Wizard client session core, in Dafny

A model of the client-side core of the Wizard card-game Android client: the
view model that reconciles server pushes into screen state, the STOMP session
client that sends commands and subscribes to topics, the card-string codec of
the card component, and the navigation and prediction rules embedded in the
main screen and the prediction (card-deal) screen.

- `wrappers.dfy` — `Option` (Kotlin's nullable values) and `Result` (a call that may raise).
- `text.dfy` — ASCII case folding, `equals(ignoreCase = true)`, `split` on one character with its inverse `Join`, substring test, digits and whitespace.
- `dto.dfy` — `GameStatus`, `CardDto`, `PlayerDto`, `GameResponse`, `GameRequest`, `PredictionRequest`, and the shape of a raised exception. `GameResponse` carries `lastTrickWinnerId`, `trumpCard`, `currentRound` and `currentPredictionPlayerId`: the view model and the screens read these fields, although the record declaration in `model/response/GameResponse.kt` lacks them. The card's `type` field is named `cardType` because `type` is a Dafny keyword.
- `card_codec.dfy` — `String.toCardDto()`, the play string a clicked card sends, background and text colours, and labels.
- `stomp_client.dfy` — the session client as an optional session plus a log of sent frames. It covers `connect`, the five sends with their destinations and payloads, the three topic names, and the decode loop shared by the subscriptions. JSON encoding is modelled as the typed request record a frame carries. Decoding is an arbitrary partial function `string -> Option<T>`, given as a parameter.
- `view_model.dfy` — the view model's fields as one immutable record. Every callback and public operation is a pure step. Calls into the session client, and switching the torch on, are appended to an effect log. `Run` applies any interleaving of events. The lemmas prove the following for every run:
  - the summary flag mirrors the latest snapshot;
  - the effect log is append-only;
  - no card play or game-wide request is issued with a missing id.
- `main_screen.dfy` — the status-to-screen effect, the summary override, the screen callbacks, the ended-round number, the play-on-my-turn guard, the game-end winner, and the screen file's own copy of the card parser.
- `card_deal_screen.dfy` — the prediction turn check, the cheat-button condition, the digit filter, the enable rules, Kotlin's `toIntOrNull` with 32-bit overflow, and the submit click with its effect on the submission flag and the input.

Design points the model makes explicit:
- `connectAndJoin` is split in two steps. The synchronous part stores the three ids before anything is attempted. The launched part makes its calls in order and records how far it got. Game and error callbacks can be interleaved between the two.
- The effect log records every subscribe and send call into the session client, including one that raised. `connect()` itself is not logged. Its result is part of the join outcome.
- The session client's send functions take the transport's answer as a parameter, so a send either appends its frame or raises. Without a session nothing is sent and nothing is raised.
- A subscription's per-frame `try` block covers both the decode and the callback, so an exception raised by the callback would also be swallowed, and the loop would go on. The view model's callbacks only assign fields and raise nothing. The model therefore passes every decoded value to the callback.
- Opening a subscription takes the transport's answer too. The call is outside the per-frame `try`, so its exception reaches the caller. `LaunchedOutcome` derives the join outcome from these client functions. It also shows that the outcome for a raising `connect()` cannot arise against the client's own `connect`, which catches every exception.
- The start and proceed requests wrap the game id in double quotes without escaping. `QuoteDoesNotEscape` shows that quotes inside the id reach the wire unchanged, so such an id does not yield a valid JSON string.
- A scoreboard topic is also the game topic of a player whose id ends in `/scoreboard`, because routing ids are not validated.
- The main screen file has its own copy of `CardView` (`MainScreen.kt:166-224`), and hand-card clicks go through that copy. Its colour rules, captions and play string (`actualCardString`, lines 178-182) are the same as the card component's, without the `?` fallbacks. `HandCardClicked` therefore uses `CardCodec.PlayString`, just as `LocalToCardDto` agrees with `CardCodec.ToCardDto`.
- The deal screen declares its prediction-complete callback but never calls it. Deal therefore moves to Game only through a PLAYING status.
- A LOBBY status never navigates back to the lobby screen.

## Model

| member | source | states |
|---|---|---|
| Text.Split | app/src/main/java/at/klu/client_wizardse2/ui/presentation/components/CardViewComponent.kt:99-100 | splitting on one character yields one piece more than there are separators, and no piece contains the separator |
| Text.SplitJoin | app/src/main/java/at/klu/client_wizardse2/ui/presentation/components/CardViewComponent.kt:99 | joining the pieces of a split with the separator restores the string |
| Text.EqualsIgnoreCaseIsUpperEquality | app/src/main/java/at/klu/client_wizardse2/ui/presentation/components/CardViewComponent.kt:86 | comparing ignoring case (ASCII) holds exactly when the upper-cased strings are equal |
| CardCodec.ToCardDto | app/src/main/java/at/klu/client_wizardse2/ui/presentation/components/CardViewComponent.kt:84-107 | "WIZARD" or "JESTER" in any letter case parse to the SPECIAL/"0" card of that type; a parsed number card has no underscore in colour or value |
| CardCodec.WizardIsNotJester | app/src/main/java/at/klu/client_wizardse2/ui/presentation/components/CardViewComponent.kt:86-96 | no string is both a wizard and a jester string, so the order of the two tests does not matter |
| CardCodec.PlayString | app/src/main/java/at/klu/client_wizardse2/ui/presentation/components/CardViewComponent.kt:36-40 | the play string of a wizard or jester card is its type keyword, without an underscore; for any other card it is the colour, one underscore, and the value, each readable back at its position |
| CardCodec.ParsesIff | app/src/main/java/at/klu/client_wizardse2/ui/presentation/components/CardViewComponent.kt:84-107 | a string parses exactly when it is a keyword in any case or has exactly one underscore; any other string gives null |
| CardCodec.ManyUnderscoresAreNull | app/src/main/java/at/klu/client_wizardse2/ui/presentation/components/CardViewComponent.kt:98-103 | two or more underscores give null |
| CardCodec.ParsesNumberCard | app/src/main/java/at/klu/client_wizardse2/ui/presentation/components/CardViewComponent.kt:98-103 | colour and value without underscores, joined by one, parse to the NUMBER card with exactly those parts |
| CardCodec.PlayStringOfParsed | app/src/main/java/at/klu/client_wizardse2/ui/presentation/components/CardViewComponent.kt:36-40 | every string with exactly one underscore is reproduced by the play string of the card it parses to |
| CardCodec.SpecialPlayString | app/src/main/java/at/klu/client_wizardse2/ui/presentation/components/CardViewComponent.kt:86-96 | a wizard or jester string in any case comes back from parse-then-play-string as the upper-case keyword |
| CardCodec.ParseOfPlayString | app/src/main/java/at/klu/client_wizardse2/ui/presentation/components/CardViewComponent.kt:36-40 | parsing the play string gives the card back for a canonical card: exactly CardDto("SPECIAL", "0", "WIZARD" or "JESTER"), or a NUMBER card whose colour and value have no underscore |
| CardCodec.SpecialTypeRoundTrip | app/src/main/java/at/klu/client_wizardse2/ui/presentation/components/CardViewComponent.kt:36-40 | a card typed WIZARD or JESTER sends its keyword, which parses to the canonical special card whatever colour and value the card carried |
| CardCodec.ParsedIsCanonical | app/src/main/java/at/klu/client_wizardse2/ui/presentation/components/CardViewComponent.kt:84-107 | every card the parser produces is canonical, so the round trip above covers every parsed card |
| CardCodec.BackgroundIgnoresCase | app/src/main/java/at/klu/client_wizardse2/ui/presentation/components/CardViewComponent.kt:26-32 | the background is red, blue, green or yellow exactly when the colour text equals that name ignoring case |
| CardCodec.Background | app/src/main/java/at/klu/client_wizardse2/ui/presentation/components/CardViewComponent.kt:26-32 | any background other than light grey is the colour whose name is the upper-cased colour text |
| CardCodec.LightGrayIsFallback | app/src/main/java/at/klu/client_wizardse2/ui/presentation/components/CardViewComponent.kt:26-32 | the background is light grey exactly when the colour text names none of the four colours |
| CardCodec.Foreground | app/src/main/java/at/klu/client_wizardse2/ui/presentation/components/CardViewComponent.kt:34 | the text is black exactly when the background is green or yellow, white otherwise |
| CardCodec.LabelsOfParsed | app/src/main/java/at/klu/client_wizardse2/ui/presentation/components/CardViewComponent.kt:63-78 | a parsed keyword shows "Wizard" or "Narr" with an empty value; a parsed number card shows the text before and after the underscore |
| CardCodec.Label | app/src/main/java/at/klu/client_wizardse2/ui/presentation/components/CardViewComponent.kt:63-71 | a WIZARD card is captioned "Wizard" and a JESTER card "Narr", whatever its colour and value, never its play string; any other card's caption is the colour part of its play string |
| CardCodec.ValueText | app/src/main/java/at/klu/client_wizardse2/ui/presentation/components/CardViewComponent.kt:72-79 | the lower text is empty for special cards; for any other card the caption, an underscore and the lower text spell its play string |
| StompClient.Connect | app/src/main/java/at/klu/client_wizardse2/network/GameStompClient.kt:49-59 | connect answers true exactly when the transport opens a session, which then replaces the old one; on failure it answers false, raises nothing and leaves the client unchanged |
| StompClient.SendText | app/src/main/java/at/klu/client_wizardse2/network/GameStompClient.kt:79-196 | `session?.sendText`: without a session nothing is sent and nothing raised; with one it succeeds exactly when the transport accepts, keeps the session, and appends exactly the one frame; a raise is the transport's exception |
| StompClient.ConnectThenSend | app/src/main/java/at/klu/client_wizardse2/network/GameStompClient.kt:49-59 | after a successful connect a send reaches the transport and adds one frame |
| StompClient.QuoteGameId | app/src/main/java/at/klu/client_wizardse2/network/GameStompClient.kt:140 | the payload is the id between two double quotes; stripping them gives the id back |
| StompClient.QuoteDoesNotEscape | app/src/main/java/at/klu/client_wizardse2/network/GameStompClient.kt:140 | quotes inside the id are not escaped: the payload has exactly two more quote characters than the id |
| StompClient.SendJoinRequest | app/src/main/java/at/klu/client_wizardse2/network/GameStompClient.kt:79-87 | without a session nothing happens; with one, a GameRequest with the name and no card or action goes to /app/game/join |
| StompClient.SendPrediction | app/src/main/java/at/klu/client_wizardse2/network/GameStompClient.kt:88-97 | a PredictionRequest with the three values goes to /app/game/predict; a transport failure is passed on to the caller unchanged |
| StompClient.SendStartGameRequest | app/src/main/java/at/klu/client_wizardse2/network/GameStompClient.kt:139-142 | the quoted game id goes to /app/game/start; nothing happens without a session |
| StompClient.SendPlayCardRequest | app/src/main/java/at/klu/client_wizardse2/network/GameStompClient.kt:144-152 | a GameRequest with the card and no name or action goes to /app/game/play |
| StompClient.SendProceedToNextRound | app/src/main/java/at/klu/client_wizardse2/network/GameStompClient.kt:190-196 | the quoted game id goes to /app/game/proceedToNextRound |
| StompClient.SendWithoutSessionIsNoOp | app/src/main/java/at/klu/client_wizardse2/network/GameStompClient.kt:79-196 | without a session every send is a silent no-op: no frame, no failure, client unchanged |
| StompClient.SendAppendsOneFrame | app/src/main/java/at/klu/client_wizardse2/network/GameStompClient.kt:79-196 | with a session and an accepting transport, every send keeps the session and the earlier frames, and appends exactly one frame addressed to its own destination |
| StompClient.SendFailurePassesOn | app/src/main/java/at/klu/client_wizardse2/network/GameStompClient.kt:88-97 | a failure raised by the transport is the failure the caller sees |
| StompClient.DestinationsDistinct | app/src/main/java/at/klu/client_wizardse2/network/GameStompClient.kt:79-196 | the five commands have five different destinations |
| StompClient.GameTopic | app/src/main/java/at/klu/client_wizardse2/network/GameStompClient.kt:125 | the game topic is "/topic/game/" followed by the player id, which can be read back from it |
| StompClient.ScoreboardTopic | app/src/main/java/at/klu/client_wizardse2/network/GameStompClient.kt:164 | the scoreboard topic is "/topic/game/", the game id and "/scoreboard" |
| StompClient.ErrorTopic | app/src/main/java/at/klu/client_wizardse2/network/GameStompClient.kt:183 | the error topic is "/topic/errors/" followed by the player id |
| StompClient.TopicsAreInjective | app/src/main/java/at/klu/client_wizardse2/network/GameStompClient.kt:120-188 | different ids give different topics of each kind |
| StompClient.GameAndErrorTopicsDiffer | app/src/main/java/at/klu/client_wizardse2/network/GameStompClient.kt:183 | no game topic is an error topic |
| StompClient.ScoreboardTopicIsAGameTopic | app/src/main/java/at/klu/client_wizardse2/network/GameStompClient.kt:164 | a scoreboard topic coincides with the game topic of the id extended by "/scoreboard" |
| StompClient.Decoded | app/src/main/java/at/klu/client_wizardse2/network/GameStompClient.kt:128-137 | the callback never receives more values than frames arrived |
| StompClient.RunSubscription | app/src/main/java/at/klu/client_wizardse2/network/GameStompClient.kt:128-137 | the per-frame loop with its try block delivers exactly the decodable frames' records, in arrival order |
| StompClient.DecodedAppend | app/src/main/java/at/klu/client_wizardse2/network/GameStompClient.kt:128-137 | skip-and-continue: the frames after any point are delivered as if they had arrived alone |
| StompClient.MalformedFrameIsSkipped | app/src/main/java/at/klu/client_wizardse2/network/GameStompClient.kt:165-175 | an undecodable frame invokes nothing and does not stop later frames |
| StompClient.DecodedKeepsAllIffAllDecode | app/src/main/java/at/klu/client_wizardse2/network/GameStompClient.kt:128-137 | nothing is dropped exactly when every frame decodes, and then the i-th callback gets the i-th frame's record |
| StompClient.VerbatimDecodeDeliversAll | app/src/main/java/at/klu/client_wizardse2/network/GameStompClient.kt:184-187 | forwarding frames without decoding delivers every frame, in order |
| StompClient.OpenSubscription | app/src/main/java/at/klu/client_wizardse2/network/GameStompClient.kt:128 | `session?.subscribeText` subscribes nothing without a session; with one it succeeds exactly when the transport accepts, and otherwise raises the transport's exception, outside the per-frame try |
| StompClient.SubscribeToGameUpdates | app/src/main/java/at/klu/client_wizardse2/network/GameStompClient.kt:120-138 | without a session nothing is subscribed; if opening the subscription raises, the exception reaches the caller; otherwise the player's game topic delivers the decoded records |
| StompClient.SubscribeToScoreboard | app/src/main/java/at/klu/client_wizardse2/network/GameStompClient.kt:159-176 | without a session nothing; a raising subscription reaches the caller; otherwise the game's scoreboard topic delivers the decoded boards |
| StompClient.SubscribeToErrors | app/src/main/java/at/klu/client_wizardse2/network/GameStompClient.kt:178-188 | without a session nothing; a raising subscription reaches the caller; otherwise every frame of the player's error topic is forwarded verbatim and in order |
| ViewModel.ToggleCheatState | app/src/main/java/at/klu/client_wizardse2/ui/presentation/viewmodels/MainViewModel.kt:59-67 | the player's flag is flipped and the others are kept; the torch is switched on for 5000 ms exactly when the flag becomes true; nothing else changes |
| ViewModel.ToggleTwice | app/src/main/java/at/klu/client_wizardse2/ui/presentation/viewmodels/MainViewModel.kt:59-67 | two toggles restore the flag and switch the torch on exactly once |
| ViewModel.IsCheating | app/src/main/java/at/klu/client_wizardse2/ui/presentation/viewmodels/MainViewModel.kt:55-57 | the stored flag of a player, and false for a player never toggled |
| ViewModel.OnGameUpdate | app/src/main/java/at/klu/client_wizardse2/ui/presentation/viewmodels/MainViewModel.kt:94-111 | the snapshot is replaced wholesale; the summary flag is true exactly for ROUND_END_SUMMARY; a new round clears the submission and the error, and the same round keeps both |
| ViewModel.StartedAfterUpdate | app/src/main/java/at/klu/client_wizardse2/ui/presentation/viewmodels/MainViewModel.kt:153-155 | right after an update the game counts as started exactly when the status is PLAYING, never while the summary shows |
| ViewModel.HasGameStarted | app/src/main/java/at/klu/client_wizardse2/ui/presentation/viewmodels/MainViewModel.kt:153-155 | started only with a stored PLAYING snapshot, never while the summary is shown and never without a snapshot |
| ViewModel.OnError | app/src/main/java/at/klu/client_wizardse2/ui/presentation/viewmodels/MainViewModel.kt:116-119 | the error becomes exactly the received text and the submission flag is cleared; nothing else changes |
| ViewModel.OnScoreboard | app/src/main/java/at/klu/client_wizardse2/ui/presentation/viewmodels/MainViewModel.kt:138-141 | the scoreboard is replaced by the received board; nothing else changes |
| ViewModel.ConnectAndJoin | app/src/main/java/at/klu/client_wizardse2/ui/presentation/viewmodels/MainViewModel.kt:80-85 | the three ids are stored before any connection attempt |
| ViewModel.JoinCompleted | app/src/main/java/at/klu/client_wizardse2/ui/presentation/viewmodels/MainViewModel.kt:87-131 | the subscribe and join calls made before the outcome are logged in order; a false connect sets "Connection to server failed"; a raise sets "Error: " and the message; success keeps the error |
| ViewModel.JoinOrder | app/src/main/java/at/klu/client_wizardse2/ui/presentation/viewmodels/MainViewModel.kt:92-124 | the join is sent only after both subscriptions succeed, and the scoreboard is subscribed only when everything succeeded |
| ViewModel.LaunchedOutcome | app/src/main/java/at/klu/client_wizardse2/ui/presentation/viewmodels/MainViewModel.kt:87-131 | run against the session client, the launched part never ends in a raising connect; it fails at the first of game subscription, error subscription and join request whose transport raises, with that exception; it completes exactly when the connect opens a session and all three are accepted |
| ViewModel.SendPredictionStep | app/src/main/java/at/klu/client_wizardse2/ui/presentation/viewmodels/MainViewModel.kt:157-171 | success clears the error and answers true; a failure containing "exakt die Anzahl der Stiche" sets the fixed sum-matches-round message; any other failure sets "! Fehler: " and the text; failures answer false |
| ViewModel.FailureText | app/src/main/java/at/klu/client_wizardse2/ui/presentation/viewmodels/MainViewModel.kt:163 | the failure text is the exception's message, else its cause's message, else "Unbekannter Fehler" |
| ViewModel.PredictionErrorText | app/src/main/java/at/klu/client_wizardse2/ui/presentation/viewmodels/MainViewModel.kt:164-168 | the fixed sum-matches-round message is shown exactly when the failure text contains "exakt die Anzahl der Stiche"; any other text is shown after "! Fehler: "; both start with "! " |
| ViewModel.SpecificMessageIsNotGeneric | app/src/main/java/at/klu/client_wizardse2/ui/presentation/viewmodels/MainViewModel.kt:164-168 | the sum-matches-round message is never one of the generic messages |
| ViewModel.PlayCard | app/src/main/java/at/klu/client_wizardse2/ui/presentation/viewmodels/MainViewModel.kt:173-187 | with both ids set, one card play carrying the current cheat flag is logged and the flag is reset; otherwise nothing is sent and the fixed precondition error is set |
| ViewModel.CheatFlagSpentOnPlay | app/src/main/java/at/klu/client_wizardse2/ui/presentation/viewmodels/MainViewModel.kt:176-182 | a toggled-on flag travels with the next card play and is then cleared |
| ViewModel.StartGame | app/src/main/java/at/klu/client_wizardse2/ui/presentation/viewmodels/MainViewModel.kt:147-151 | the start request is logged even with an empty game id |
| ViewModel.GameWideRequest | app/src/main/java/at/klu/client_wizardse2/ui/presentation/viewmodels/MainViewModel.kt:193-235 | proceed, abort and return-to-lobby are logged only when a game id is set; otherwise the state is unchanged |
| ViewModel.ProceedToNextRound | app/src/main/java/at/klu/client_wizardse2/ui/presentation/viewmodels/MainViewModel.kt:193-201 | with a game id exactly one proceed request for that game is logged and nothing else changes; without one nothing happens |
| ViewModel.AbortGameForAll | app/src/main/java/at/klu/client_wizardse2/ui/presentation/viewmodels/MainViewModel.kt:219-227 | with a game id exactly one force-end request for that game is logged and nothing else changes; without one nothing happens |
| ViewModel.ReturnToLobbyForAll | app/src/main/java/at/klu/client_wizardse2/ui/presentation/viewmodels/MainViewModel.kt:229-235 | with a game id exactly one return-to-lobby request for that game is logged and nothing else changes; without one nothing happens |
| ViewModel.ResetGame | app/src/main/java/at/klu/client_wizardse2/ui/presentation/viewmodels/MainViewModel.kt:203-212 | every per-game field returns to its initial value, the last known round to -1; the game id and the cheat flags are kept |
| ViewModel.EndGameEarly | app/src/main/java/at/klu/client_wizardse2/ui/presentation/viewmodels/MainViewModel.kt:214-217 | a stored snapshot gets status ENDED and the summary is hidden; an absent snapshot stays absent |
| ViewModel.ClearLastTrickWinner | app/src/main/java/at/klu/client_wizardse2/ui/presentation/viewmodels/MainViewModel.kt:189-191 | only the trick winner of the stored snapshot is cleared; an absent snapshot stays absent |
| ViewModel.SetHasSubmittedPrediction | app/src/main/java/at/klu/client_wizardse2/ui/presentation/viewmodels/MainViewModel.kt:47 | the public submission flag is set to the given value and nothing else changes |
| ViewModel.StepKeepsConsistent | app/src/main/java/at/klu/client_wizardse2/ui/presentation/viewmodels/MainViewModel.kt:100-110 | every step keeps the summary flag equal to "latest snapshot is a summary" and the last known round equal to the snapshot's round |
| ViewModel.RunKeepsConsistent | app/src/main/java/at/klu/client_wizardse2/ui/presentation/viewmodels/MainViewModel.kt:100-110 | the same holds after any sequence of events |
| ViewModel.StartedIffPlaying | app/src/main/java/at/klu/client_wizardse2/ui/presentation/viewmodels/MainViewModel.kt:153-155 | in every reachable state the game counts as started exactly when the stored status is PLAYING |
| ViewModel.StepOnlyAppendsEffects | app/src/main/java/at/klu/client_wizardse2/ui/presentation/viewmodels/MainViewModel.kt:147-235 | a single step keeps every call already made and can only add new ones |
| ViewModel.RunOnlyAppendsEffects | app/src/main/java/at/klu/client_wizardse2/ui/presentation/viewmodels/MainViewModel.kt:147-235 | the log of calls made is append-only |
| ViewModel.StepIssuesGuarded | app/src/main/java/at/klu/client_wizardse2/ui/presentation/viewmodels/MainViewModel.kt:173-235 | no step issues a card play without both ids or a game-wide request without a game id |
| ViewModel.RunIssuesGuarded | app/src/main/java/at/klu/client_wizardse2/ui/presentation/viewmodels/MainViewModel.kt:173-235 | the same holds for every sequence of events |
| ViewModel.SameRoundKeepsSubmission | app/src/main/java/at/klu/client_wizardse2/ui/presentation/viewmodels/MainViewModel.kt:94-99 | a second update of the same round keeps a submission made in between |
| ViewModel.SummaryEndsOnNextUpdate | app/src/main/java/at/klu/client_wizardse2/ui/presentation/viewmodels/MainViewModel.kt:100-108 | the summary flag turns off on the very next update with another status |
| MainScreen.StatusDrivesScreen | app/src/main/java/at/klu/client_wizardse2/ui/presentation/screen/MainScreen.kt:56-73 | PREDICTION, PLAYING and ENDED select Deal, Game and GameEnd whatever was shown; LOBBY, ROUND_END_SUMMARY and no snapshot keep the current screen |
| MainScreen.ScreenForStatus | app/src/main/java/at/klu/client_wizardse2/ui/presentation/screen/MainScreen.kt:56-73 | PREDICTION selects Deal, PLAYING selects Game and ENDED selects GameEnd; the screen changes only for a PREDICTION, PLAYING or ENDED status, and the result is the current screen or one of Deal, Game and GameEnd |
| MainScreen.SummaryShownIffLatestIsSummary | app/src/main/java/at/klu/client_wizardse2/ui/presentation/screen/MainScreen.kt:75-82 | the round summary is drawn, over any current screen, exactly while the latest snapshot is a round-end summary |
| MainScreen.Rendered | app/src/main/java/at/klu/client_wizardse2/ui/presentation/screen/MainScreen.kt:75-82 | the round summary is drawn exactly when the summary flag is set; otherwise the current screen is drawn |
| MainScreen.AfterCallback | app/src/main/java/at/klu/client_wizardse2/ui/presentation/screen/MainScreen.kt:84-93 | the lobby's game-start callback opens Deal, the screen a PREDICTION status selects; the deal screen's prediction-complete callback opens Game, the screen a PLAYING status selects |
| MainScreen.RoundEnded | app/src/main/java/at/klu/client_wizardse2/ui/presentation/screen/MainScreen.kt:357-358 | the ended round is one less than a positive current round, otherwise 0, and never negative |
| MainScreen.RoundEndedPrecedesLastKnownRound | app/src/main/java/at/klu/client_wizardse2/ui/presentation/screen/MainScreen.kt:357-358 | in every reachable view-model state with a snapshot, the ended round is the one before the round the view model last saw, once that is positive |
| MainScreen.IsPlayersTurn | app/src/main/java/at/klu/client_wizardse2/ui/presentation/screen/MainScreen.kt:281 | it is this player's turn to play only when the stored snapshot names their id as the current player; never without a snapshot |
| MainScreen.TurnFollowsLatestUpdate | app/src/main/java/at/klu/client_wizardse2/ui/presentation/screen/MainScreen.kt:281 | after any update, it is this player's turn exactly when that update names them as the current player |
| MainScreen.HandCardClicked | app/src/main/java/at/klu/client_wizardse2/ui/presentation/screen/MainScreen.kt:280-289 | a click plays the card's play string only on this player's turn and does nothing otherwise |
| MainScreen.ClickSendsParsableCard | app/src/main/java/at/klu/client_wizardse2/ui/presentation/screen/MainScreen.kt:280-289 | for a canonical card (a special card exactly as the parser builds it, or a number card without underscores in colour or value): a click out of turn sends nothing; a click in turn with both ids set sends exactly one card play whose string parses back to the card. With an id missing, the view model sends nothing |
| MainScreen.FirstMaxUnique | app/src/main/java/at/klu/client_wizardse2/ui/presentation/screen/MainScreen.kt:300-302 | at most one entry is the first with the highest score |
| MainScreen.Winner | app/src/main/java/at/klu/client_wizardse2/ui/presentation/screen/MainScreen.kt:300-302 | no winner for an empty board; otherwise the first entry whose score no other entry exceeds |
| MainScreen.LocalToCardDto | app/src/main/java/at/klu/client_wizardse2/ui/presentation/screen/MainScreen.kt:330-353 | the screen's own card parser gives the component parser's result on every string |
| CardDealScreen.IsMyTurn | app/src/main/java/at/klu/client_wizardse2/ui/presentation/screen/CardDealScreen.kt:36-37 | it is this player's turn to predict only when the snapshot names their id as the predicting player; never without a snapshot |
| CardDealScreen.PredictionTurnFollowsLatestUpdate | app/src/main/java/at/klu/client_wizardse2/ui/presentation/screen/CardDealScreen.kt:36-37 | after any update, it is this player's turn to predict exactly when that update names them |
| CardDealScreen.CheatButtonShown | app/src/main/java/at/klu/client_wizardse2/ui/presentation/screen/CardDealScreen.kt:58 | the cheat button shows exactly when the main screen counts it as this player's turn to play |
| CardDealScreen.MyTurnIff | app/src/main/java/at/klu/client_wizardse2/ui/presentation/screen/CardDealScreen.kt:36-37 | it is this player's turn to predict exactly when the snapshot names their id as predicting player; never without a snapshot |
| CardDealScreen.CheatButtonFollowsCurrentPlayer | app/src/main/java/at/klu/client_wizardse2/ui/presentation/screen/CardDealScreen.kt:58 | the cheat button shows exactly when the snapshot names this player as the current player |
| CardDealScreen.FilterDigits | app/src/main/java/at/klu/client_wizardse2/ui/presentation/screen/CardDealScreen.kt:101 | the filtered input holds only digits |
| CardDealScreen.FilterDigitsAppend | app/src/main/java/at/klu/client_wizardse2/ui/presentation/screen/CardDealScreen.kt:101 | filtering text typed in two parts filters each part, preserving order |
| CardDealScreen.FilterDigitsKeepsDigitText | app/src/main/java/at/klu/client_wizardse2/ui/presentation/screen/CardDealScreen.kt:101 | text passes unchanged exactly when it is all digits; filtering is idempotent |
| CardDealScreen.FilterDigitsCount | app/src/main/java/at/klu/client_wizardse2/ui/presentation/screen/CardDealScreen.kt:101 | every digit of the typed text is kept as often as typed, and no other character |
| CardDealScreen.FieldEnabled | app/src/main/java/at/klu/client_wizardse2/ui/presentation/screen/CardDealScreen.kt:104 | the field is enabled only on this player's turn to predict, and never after a submission |
| CardDealScreen.SubmitEnabled | app/src/main/java/at/klu/client_wizardse2/ui/presentation/screen/CardDealScreen.kt:136 | the button is enabled exactly when the field is enabled and the input is not blank, so never with empty input |
| CardDealScreen.OnValueChange | app/src/main/java/at/klu/client_wizardse2/ui/presentation/screen/CardDealScreen.kt:101 | the field's text after any change is digits only |
| CardDealScreen.SubmitEnabledIff | app/src/main/java/at/klu/client_wizardse2/ui/presentation/screen/CardDealScreen.kt:136 | the button is enabled exactly when the field is enabled (my turn, no submission) and the input is not blank |
| CardDealScreen.ToIntOrNull | app/src/main/java/at/klu/client_wizardse2/ui/presentation/screen/CardDealScreen.kt:119 | a non-empty digit string within Int range parses to its value, and one above the range gives null; empty text, a lone sign, and any other character besides a leading sign give null |
| CardDealScreen.Decimal | app/src/main/java/at/klu/client_wizardse2/ui/presentation/screen/CardDealScreen.kt:119 | the decimal text of a number is a non-empty digit string, without a leading zero, whose value is that number |
| CardDealScreen.ToIntOrNullReadsDecimal | app/src/main/java/at/klu/client_wizardse2/ui/presentation/screen/CardDealScreen.kt:119 | for every 32-bit Int, parsing its decimal text (after a minus sign when negative) gives the Int back |
| CardDealScreen.OverflowIsRejected | app/src/main/java/at/klu/client_wizardse2/ui/presentation/screen/CardDealScreen.kt:119-120 | "2147483647" parses, "2147483648" is rejected as an overflow |
| CardDealScreen.SubmitClicked | app/src/main/java/at/klu/client_wizardse2/ui/presentation/screen/CardDealScreen.kt:118-135 | unparsable input sends nothing and changes nothing; otherwise one prediction is sent, and the error becomes exactly what the view model's sendPrediction sets; success sets the submission flag and keeps the input, failure clears it and empties the input; no other view-model field changes |
| CardDealScreen.SuccessLocksInput | app/src/main/java/at/klu/client_wizardse2/ui/presentation/screen/CardDealScreen.kt:104-136 | after a successful submission neither the field nor the button is enabled |
| CardDealScreen.FailureReopensField | app/src/main/java/at/klu/client_wizardse2/ui/presentation/screen/CardDealScreen.kt:127-136 | after a failed submission the button is off and the field is enabled exactly on this player's turn |
| CardDealScreen.NewRoundReopensField | app/src/main/java/at/klu/client_wizardse2/ui/presentation/screen/CardDealScreen.kt:104 | a snapshot of a new round that names this player as predicting reopens the field |

## Left out

- Transport and serialisation: the STOMP and WebSocket transport, kotlinx.serialization JSON text, and the Gson import. Decoding is an abstract partial function and encoding is a typed record, because JSON syntax belongs to those libraries.
- Coroutines: dispatchers, `launchIn` and the 100 ms delay before the join request. Each callback and each coroutine body is one atomic step, and cross-topic interleaving is any sequence of `Event`s.
- Failure of the scoreboard subscription: the view model starts it in a coroutine of its own, outside the join's `try`, so what it raises reaches that coroutine's handler. `StompClient.SubscribeToScoreboard` returns the failure, and the view model only logs the call.
- Failures of fire-and-forget sends: `playCard`, `startGame` and the game-wide requests run inside launched coroutines, where an exception reaches the coroutine's handler. The model logs these calls and does not model a failure raised by them.
- Three client functions the view model calls are not defined in `network/GameStompClient.kt`: `sendForceEndGame`, `sendReturnToLobbyRequest`, and the four-argument `sendPlayCardRequest` with a cheat flag. The view model therefore logs abstract `Effect`s, and the session client models only the five sends it defines.
- Torch hardware: `FlashlightHelper`, the torch controllers, `ensureFlashlightHelperInitialized` and `performCleanupIfNeeded`. Only "torch switched on for 5000 ms" is logged.
- Rendering: Compose layout, real colour values (an enum stands in), the scoreboard views (they read a `roundScores` field that `PlayerDto` does not have), the lobby and join screens, the last-played-card and trick-winner texts, and the legacy echo prototype under `data/websocket`.
- Logging: the `Log.d` and `Log.e` calls are not modelled, because they change no state. A guard that "does nothing" in the model, such as `proceedToNextRound` without a game id, writes a log line in the source.
- Unicode: Kotlin's `uppercase`, `ignoreCase`, `isDigit` and `isWhitespace` are Unicode-aware. The model restricts all four to ASCII. Within ASCII, whitespace is Java's set: space, tab to carriage return, and the separators U+001C to U+001F. Non-ASCII spaces such as U+00A0 are not modelled. Neither are non-ASCII decimal digits such as U+0661. In the source, the digit filter keeps them and `toIntOrNull` reads their values. In the model, the filter drops them, so they never reach the parser.
- CardCodec.Label: the component's `?` fallbacks for a null colour or value are not modelled, because `CardDto`'s fields are non-nullable.
- The default value of `currentRound` in the missing `GameResponse` fields is unknown. The model makes the field required.
