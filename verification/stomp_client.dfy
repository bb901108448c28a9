/** The session client: one optional STOMP session, the commands sent
    through it (modelled as a log of frames), the topic names it subscribes
    to, and the per-frame decode loop of its subscriptions. JSON encoding
    is modelled by the typed request record a frame carries; decoding is an
    arbitrary partial function from frame text to a record. */
module StompClient {
  import opened Wrappers
  import opened Text
  import opened Dto

  /** An open STOMP session; the transport behind it is not modelled. */
  datatype Session = Session(handle: nat)

  /** What a frame carries: an encoded request record, or raw text. */
  datatype Body =
    | GameRequestBody(request: GameRequest)
    | PredictionBody(prediction: PredictionRequest)
    | RawText(text: string)

  /** One `sendText(destination, body)` that reached the transport. */
  datatype Frame = Frame(destination: string, body: Body)

  /** The client object: its session, if any, and every frame sent so far. */
  datatype Client = Client(session: Option<Session>, sent: seq<Frame>)

  /** How the transport answers a `connect` attempt. */
  datatype ConnectAttempt = Opens(newSession: Session) | Refuses(reason: Exception)

  /** How the transport answers one `sendText`. */
  datatype Transport = Accepts | Raises(raised: Exception)

  const JoinDestination: string := "/app/game/join"
  const PredictDestination: string := "/app/game/predict"
  const StartDestination: string := "/app/game/start"
  const PlayDestination: string := "/app/game/play"
  const ProceedDestination: string := "/app/game/proceedToNextRound"

  /** The client before any connection. */
  const Initial: Client := Client(None, [])

  /** `connect()`: true and the new session stored when the transport opens
      one; false, with the client untouched, when it raises. Never raises. */
  function Connect(c: Client, attempt: ConnectAttempt): (r: (Client, bool))
    ensures r.1 <==> attempt.Opens?
    ensures r.1 ==> r.0.session == Some(attempt.newSession) && r.0.sent == c.sent
    ensures !r.1 ==> r.0 == c
  {
    match attempt
    case Opens(session) => (c.(session := Some(session)), true)
    case Refuses(_) => (c, false)
  }

  /** `session?.sendText(destination, body)`: nothing at all without a
      session; otherwise the transport either accepts the frame or raises. */
  function SendText(c: Client, destination: string, body: Body, t: Transport): (r: Result<Client, Exception>)
    ensures c.session.None? ==> r == Success(c)
    ensures c.session.Some? ==> (r.Success? <==> t.Accepts?)
    ensures r.Success? ==> r.value.session == c.session && c.sent <= r.value.sent
    ensures c.session.Some? && t.Accepts? ==> r.value.sent == c.sent + [Frame(destination, body)]
    ensures r.Failure? ==> r.error == t.raised
  {
    match c.session
    case None => Success(c)
    case Some(_) =>
      match t
      case Accepts => Success(c.(sent := c.sent + [Frame(destination, body)]))
      case Raises(e) => Failure(e)
  }

  /** The game id as a JSON string literal, built by wrapping it in double
      quotes with no escaping. */
  function QuoteGameId(gameId: string): (q: string)
    ensures |q| == |gameId| + 2
    ensures q[0] == '"' && q[|q| - 1] == '"'
    ensures q[1..|q| - 1] == gameId
  {
    "\"" + gameId + "\""
  }

  /** No escaping: every double quote inside the id reaches the wire as it is. */
  lemma QuoteDoesNotEscape(gameId: string)
    ensures Count('"', QuoteGameId(gameId)) == Count('"', gameId) + 2
  {
    CountAppend('"', "\"" + gameId, "\"");
    CountAppend('"', "\"", gameId);
  }

  /** `sendJoinRequest`: a game request with name and no card or action, to the join destination. */
  function SendJoinRequest(c: Client, gameId: string, playerId: string, playerName: string, t: Transport): (r: Result<Client, Exception>)
    ensures c.session.None? ==> r == Success(c)
    ensures c.session.Some? && t.Accepts? ==>
              r.Success? && r.value.session == c.session &&
              r.value.sent == c.sent + [Frame(JoinDestination, GameRequestBody(GameRequest(gameId, playerId, Some(playerName), None, None)))]
    ensures c.session.Some? && t.Raises? ==> r == Failure(t.raised)
  {
    SendText(c, JoinDestination, GameRequestBody(GameRequest(gameId, playerId, Some(playerName), None, None)), t)
  }

  /** `sendPrediction`: a prediction request to the predict destination; a
      raised failure is passed on to the caller unchanged. */
  function SendPrediction(c: Client, gameId: string, playerId: string, prediction: Int32, t: Transport): (r: Result<Client, Exception>)
    ensures c.session.None? ==> r == Success(c)
    ensures c.session.Some? && t.Accepts? ==>
              r.Success? && r.value.session == c.session &&
              r.value.sent == c.sent + [Frame(PredictDestination, PredictionBody(PredictionRequest(gameId, playerId, prediction)))]
    ensures c.session.Some? && t.Raises? ==> r == Failure(t.raised)
  {
    SendText(c, PredictDestination, PredictionBody(PredictionRequest(gameId, playerId, prediction)), t)
  }

  /** `sendStartGameRequest`: the quoted game id to the start destination. */
  function SendStartGameRequest(c: Client, gameId: string, t: Transport): (r: Result<Client, Exception>)
    ensures c.session.None? ==> r == Success(c)
    ensures c.session.Some? && t.Accepts? ==>
              r.Success? && r.value.session == c.session &&
              r.value.sent == c.sent + [Frame(StartDestination, RawText("\"" + gameId + "\""))]
    ensures c.session.Some? && t.Raises? ==> r == Failure(t.raised)
  {
    SendText(c, StartDestination, RawText(QuoteGameId(gameId)), t)
  }

  /** `sendPlayCardRequest`: a game request with the card and no name or action, to the play destination. */
  function SendPlayCardRequest(c: Client, gameId: string, playerId: string, card: string, t: Transport): (r: Result<Client, Exception>)
    ensures c.session.None? ==> r == Success(c)
    ensures c.session.Some? && t.Accepts? ==>
              r.Success? && r.value.session == c.session &&
              r.value.sent == c.sent + [Frame(PlayDestination, GameRequestBody(GameRequest(gameId, playerId, None, Some(card), None)))]
    ensures c.session.Some? && t.Raises? ==> r == Failure(t.raised)
  {
    SendText(c, PlayDestination, GameRequestBody(GameRequest(gameId, playerId, None, Some(card), None)), t)
  }

  /** `sendProceedToNextRound`: the quoted game id to the proceed destination. */
  function SendProceedToNextRound(c: Client, gameId: string, t: Transport): (r: Result<Client, Exception>)
    ensures c.session.None? ==> r == Success(c)
    ensures c.session.Some? && t.Accepts? ==>
              r.Success? && r.value.session == c.session &&
              r.value.sent == c.sent + [Frame(ProceedDestination, RawText("\"" + gameId + "\""))]
    ensures c.session.Some? && t.Raises? ==> r == Failure(t.raised)
  {
    SendText(c, ProceedDestination, RawText(QuoteGameId(gameId)), t)
  }

  /** The five commands the client can send, with their arguments. */
  datatype Request =
    | Join(gameId: string, playerId: string, playerName: string)
    | Predict(gameId: string, playerId: string, prediction: Int32)
    | Start(gameId: string)
    | Play(gameId: string, playerId: string, card: string)
    | Proceed(gameId: string)

  /** Issues one request through the matching send operation. */
  function Send(c: Client, req: Request, t: Transport): Result<Client, Exception> {
    match req
    case Join(g, p, n) => SendJoinRequest(c, g, p, n, t)
    case Predict(g, p, n) => SendPrediction(c, g, p, n, t)
    case Start(g) => SendStartGameRequest(c, g, t)
    case Play(g, p, card) => SendPlayCardRequest(c, g, p, card, t)
    case Proceed(g) => SendProceedToNextRound(c, g, t)
  }

  /** The destination each request is addressed to. */
  function Destination(req: Request): string {
    match req
    case Join(_, _, _) => JoinDestination
    case Predict(_, _, _) => PredictDestination
    case Start(_) => StartDestination
    case Play(_, _, _) => PlayDestination
    case Proceed(_) => ProceedDestination
  }

  /** Without a session every send is a silent no-op: no frame, no failure, client unchanged. */
  lemma SendWithoutSessionIsNoOp(c: Client, req: Request, t: Transport)
    requires c.session.None?
    ensures Send(c, req, t) == Success(c)
  {
  }

  /** With a session and an accepting transport every send appends exactly
      one frame, addressed to the request's own destination, and keeps the session. */
  lemma SendAppendsOneFrame(c: Client, req: Request)
    requires c.session.Some?
    ensures Send(c, req, Accepts).Success?
    ensures Send(c, req, Accepts).value.session == c.session
    ensures |Send(c, req, Accepts).value.sent| == |c.sent| + 1
    ensures Send(c, req, Accepts).value.sent[..|c.sent|] == c.sent
    ensures Send(c, req, Accepts).value.sent[|c.sent|].destination == Destination(req)
  {
  }

  /** A raising transport leaves nothing behind: the failure is the one the transport raised. */
  lemma SendFailurePassesOn(c: Client, req: Request, e: Exception)
    requires c.session.Some?
    ensures Send(c, req, Raises(e)) == Failure(e)
  {
  }

  /** The server can tell the five commands apart by destination alone. */
  lemma DestinationsDistinct(a: Request, b: Request)
    requires Destination(a) == Destination(b)
    ensures a.Join? == b.Join? && a.Predict? == b.Predict? && a.Start? == b.Start?
    ensures a.Play? == b.Play? && a.Proceed? == b.Proceed?
  {
    assert JoinDestination[10] == 'j' && PredictDestination[10] == 'p' && StartDestination[10] == 's';
    assert PlayDestination[10] == 'p' && ProceedDestination[10] == 'p';
    assert PredictDestination[11] == 'r' && PlayDestination[11] == 'l' && ProceedDestination[11] == 'r';
    assert PredictDestination[12] == 'e' && ProceedDestination[12] == 'o';
  }

  /** After a successful connect, sends reach the transport. */
  lemma ConnectThenSend(c: Client, s: Session, req: Request)
    ensures Connect(c, Opens(s)).1
    ensures Send(Connect(c, Opens(s)).0, req, Accepts).Success?
    ensures |Send(Connect(c, Opens(s)).0, req, Accepts).value.sent| == |c.sent| + 1
  {
  }

  const GameTopicPrefix: string := "/topic/game/"
  const ErrorTopicPrefix: string := "/topic/errors/"
  const ScoreboardSuffix: string := "/scoreboard"

  /** The game-update topic of a player. */
  function GameTopic(playerId: string): (topic: string)
    ensures GameTopicPrefix <= topic && topic[|GameTopicPrefix|..] == playerId
  {
    GameTopicPrefix + playerId
  }

  /** The scoreboard topic of a game. */
  function ScoreboardTopic(gameId: string): (topic: string)
    ensures GameTopicPrefix <= topic
    ensures |topic| == |GameTopicPrefix| + |gameId| + |ScoreboardSuffix|
    ensures topic[|GameTopicPrefix|..|topic| - |ScoreboardSuffix|] == gameId
    ensures topic[|topic| - |ScoreboardSuffix|..] == ScoreboardSuffix
  {
    GameTopicPrefix + gameId + ScoreboardSuffix
  }

  /** The error topic of a player. */
  function ErrorTopic(playerId: string): (topic: string)
    ensures ErrorTopicPrefix <= topic && topic[|ErrorTopicPrefix|..] == playerId
  {
    ErrorTopicPrefix + playerId
  }

  /** Different players subscribe to different game and error topics. */
  lemma TopicsAreInjective(p: string, q: string)
    ensures GameTopic(p) == GameTopic(q) <==> p == q
    ensures ErrorTopic(p) == ErrorTopic(q) <==> p == q
    ensures ScoreboardTopic(p) == ScoreboardTopic(q) <==> p == q
  {
    if ScoreboardTopic(p) == ScoreboardTopic(q) {
      assert |p| == |q|;
    }
  }

  /** A game topic is never an error topic, whatever the ids. */
  lemma GameAndErrorTopicsDiffer(p: string, q: string)
    ensures GameTopic(p) != ErrorTopic(q)
  {
    assert GameTopic(p)[7] == 'g' && ErrorTopic(q)[7] == 'e';
  }

  /** Routing identifiers are not validated: a scoreboard topic is also the
      game topic of a player whose id ends in the scoreboard suffix. */
  lemma ScoreboardTopicIsAGameTopic(gameId: string)
    ensures ScoreboardTopic(gameId) == GameTopic(gameId + ScoreboardSuffix)
  {
  }

  /** The values the callback receives from a stream of frames: the frames
      that decode, in arrival order; a frame that fails to decode is skipped. */
  function Decoded<T>(decode: string -> Option<T>, frames: seq<string>): (out: seq<T>)
    ensures |out| <= |frames|
  {
    if frames == [] then []
    else
      var last := frames[|frames| - 1];
      var earlier := Decoded(decode, frames[..|frames| - 1]);
      match decode(last)
      case Some(v) => earlier + [v]
      case None => earlier
  }

  /** The `onEach` loop of a subscription: each frame is decoded, and its
      value handed to the callback, inside its own try block, so a frame that
      fails is dropped and the loop goes on. The callback sits in the same
      try block, so an exception it raised would be swallowed as well; the
      view model's callbacks only assign fields and raise nothing. */
  method RunSubscription<T>(decode: string -> Option<T>, frames: seq<string>) returns (delivered: seq<T>)
    ensures delivered == Decoded(decode, frames)
    ensures |delivered| <= |frames|
  {
    delivered := [];
    var i := 0;
    while i < |frames|
      invariant 0 <= i <= |frames|
      invariant delivered == Decoded(decode, frames[..i])
    {
      assert frames[..i + 1][..i] == frames[..i];
      match decode(frames[i]) {
        case Some(v) => delivered := delivered + [v];
        case None =>
      }
      i := i + 1;
    }
    assert frames[..|frames|] == frames;
  }

  /** Skip-and-continue: the frames after any point are delivered exactly as
      if they had arrived on their own. */
  lemma {:induction false} DecodedAppend<T>(decode: string -> Option<T>, a: seq<string>, b: seq<string>)
    ensures Decoded(decode, a + b) == Decoded(decode, a) + Decoded(decode, b)
    decreases |b|
  {
    if b == [] {
      assert a + b == a;
    } else {
      var b' := b[..|b| - 1];
      assert (a + b)[..|a + b| - 1] == a + b';
      DecodedAppend(decode, a, b');
    }
  }

  /** A malformed frame invokes nothing and does not stop the frames after it. */
  lemma MalformedFrameIsSkipped<T>(decode: string -> Option<T>, before: seq<string>, bad: string, after: seq<string>)
    requires decode(bad).None?
    ensures Decoded(decode, before + [bad] + after) == Decoded(decode, before) + Decoded(decode, after)
  {
    DecodedAppend(decode, before + [bad], after);
    DecodedAppend(decode, before, [bad]);
    assert [bad][..0] == [];
  }

  /** Every frame decodes. */
  predicate AllDecode<T>(decode: string -> Option<T>, frames: seq<string>) {
    forall i :: 0 <= i < |frames| ==> decode(frames[i]).Some?
  }

  /** Nothing is lost exactly when every frame decodes, and then the i-th
      callback receives the i-th frame's record. */
  lemma {:induction false} DecodedKeepsAllIffAllDecode<T>(decode: string -> Option<T>, frames: seq<string>)
    ensures |Decoded(decode, frames)| == |frames| <==> AllDecode(decode, frames)
    ensures AllDecode(decode, frames) ==>
              forall i :: 0 <= i < |frames| ==> decode(frames[i]) == Some(Decoded(decode, frames)[i])
    decreases |frames|
  {
    if frames != [] {
      var init := frames[..|frames| - 1];
      DecodedKeepsAllIffAllDecode(decode, init);
      if AllDecode(decode, frames) {
        assert forall i :: 0 <= i < |init| ==> init[i] == frames[i];
      }
      if decode(frames[|frames| - 1]).Some? && AllDecode(decode, init) {
        forall i | 0 <= i < |frames| ensures decode(frames[i]).Some? {
          if i < |init| { assert init[i] == frames[i]; }
        }
      }
    }
  }

  /** Forwarding every frame as it is delivers the frames themselves. */
  lemma {:induction false} VerbatimDecodeDeliversAll(frames: seq<string>)
    ensures Decoded(x => Some(x), frames) == frames
    decreases |frames|
  {
    if frames != [] {
      VerbatimDecodeDeliversAll(frames[..|frames| - 1]);
    }
  }

  /** `session?.subscribeText(topic)` before any frame arrives: without a
      session nothing is subscribed (`false`); otherwise the transport opens
      the subscription (`true`) or raises. The call sits outside the
      per-frame `try`, so what it raises reaches the caller. */
  function OpenSubscription(c: Client, t: Transport): (r: Result<bool, Exception>)
    ensures c.session.None? ==> r == Success(false)
    ensures c.session.Some? ==> (r == Success(true) <==> t.Accepts?)
    ensures c.session.Some? && t.Raises? ==> r == Failure(t.raised)
  {
    match c.session
    case None => Success(false)
    case Some(_) =>
      match t
      case Accepts => Success(true)
      case Raises(e) => Failure(e)
  }

  /** A subscription as the caller sees it: nothing when there is no
      session, the exception when opening it raised, otherwise the topic and
      the values passed to the callback. */
  datatype Delivery<T> = NotSubscribed | SubscribeFailed(raised: Exception) | Subscribed(topic: string, received: seq<T>)

  /** The delivery for one topic, once opening the subscription has been decided. */
  function Deliver<T>(subscription: Result<bool, Exception>, topic: string, received: seq<T>): Delivery<T> {
    match subscription
    case Failure(e) => SubscribeFailed(e)
    case Success(subscribed) => if subscribed then Subscribed(topic, received) else NotSubscribed
  }

  /** `subscribeToGameUpdates`: the game records decoded from the player's topic. */
  function SubscribeToGameUpdates(c: Client, playerId: string, t: Transport, decode: string -> Option<GameResponse>, frames: seq<string>): (d: Delivery<GameResponse>)
    ensures c.session.None? <==> d.NotSubscribed?
    ensures c.session.Some? && t.Raises? ==> d == SubscribeFailed(t.raised)
    ensures c.session.Some? && t.Accepts? ==> d == Subscribed(GameTopic(playerId), Decoded(decode, frames))
  {
    Deliver(OpenSubscription(c, t), GameTopic(playerId), Decoded(decode, frames))
  }

  /** `subscribeToScoreboard`: the scoreboards decoded from the game's scoreboard topic. */
  function SubscribeToScoreboard(c: Client, gameId: string, t: Transport, decode: string -> Option<seq<PlayerDto>>, frames: seq<string>): (d: Delivery<seq<PlayerDto>>)
    ensures c.session.None? <==> d.NotSubscribed?
    ensures c.session.Some? && t.Raises? ==> d == SubscribeFailed(t.raised)
    ensures c.session.Some? && t.Accepts? ==> d == Subscribed(ScoreboardTopic(gameId), Decoded(decode, frames))
  {
    Deliver(OpenSubscription(c, t), ScoreboardTopic(gameId), Decoded(decode, frames))
  }

  /** `subscribeToErrors`: every frame of the player's error topic, verbatim and in order. */
  function SubscribeToErrors(c: Client, playerId: string, t: Transport, frames: seq<string>): (d: Delivery<string>)
    ensures c.session.None? <==> d.NotSubscribed?
    ensures c.session.Some? && t.Raises? ==> d == SubscribeFailed(t.raised)
    ensures c.session.Some? && t.Accepts? ==> d == Subscribed(ErrorTopic(playerId), frames)
  {
    Deliver(OpenSubscription(c, t), ErrorTopic(playerId), frames)
  }
}
