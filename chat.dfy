/**
  One chat turn. The handler appends the user's turn to the session's history,
  asks the completion service for a reply, and then either generates an image
  (when the reply starts with the `GENERATE_IMAGE:` sentinel, or when the
  message looks like a change to the last image) or passes the reply through.
  The outcomes of the completion call and of the image call are inputs.
 */
module Chat {
  import opened Js
  import opened History
  import opened Intent
  import opened Enhancer

  /** The prefix by which the completion asks for an image. */
  const Sentinel: string := "GENERATE_IMAGE:"

  /** The reply when the image service fails after the sentinel. */
  const Apology: string :=
    "I'd love to generate that image for you, but I'm having trouble with the image service right now. Please try again later."

  /** The reply used when the completion has no content. */
  const NoResponse: string := "No response"

  /** The error of a failed completion call. */
  const ServerError: string := "Something went wrong"

  /** The error of a request that is not a POST. */
  const MethodNotAllowed: string := "Method not allowed"

  /** The prefix of the data URI the image is sent back in. */
  const DataUriPrefix: string := "data:image/png;base64,"

  /** What the completion call gave: a failure (it threw), or a first choice
      whose content may be absent. */
  datatype Completion = CompletionFailed | Completed(content: Option<string>)

  /** What the image call gave: the image, base64-encoded; a response that is
      not ok; or an exception. */
  datatype ImageCall = ImageOk(base64: string) | ImageNotOk | ImageThrew

  /** A JSON response body. */
  datatype Body =
    | ErrorBody(error: string)
    | ReplyBody(reply: string, sessionId: string, image: Option<string>, imagePrompt: Option<string>)

  datatype Response = Response(status: nat, body: Body)

  /** The parts of the request body the handler reads, and its HTTP method. */
  datatype Request = Request(httpMethod: string, message: string, sessionId: Option<string>)

  /** What one turn does after the user's turn is appended: the assistant turn
      it appends (none when the completion failed), the response, and the
      prompt it sends to the image service (none when it makes no image call). */
  datatype Outcome = Outcome(assistantTurn: Option<string>, response: Response, imageRequest: Option<string>)

  /** The response to a successful image call for `prompt`. */
  function ImageResponse(prompt: string, sessionId: string, base64: string): Response {
    Response(200, ReplyBody(ImageMarker + prompt, sessionId, Some(DataUriPrefix + base64), Some(prompt)))
  }

  /** A plain 200 reply. */
  function TextResponse(reply: string, sessionId: string): Response {
    Response(200, ReplyBody(reply, sessionId, None, None))
  }

  /** The turn, given the history `messages` that already ends with the user's
      turn for `message`. */
  function Respond(messages: seq<Turn>, message: string, sessionId: string, completion: Completion, image: ImageCall)
    : (o: Outcome)
    ensures o.assistantTurn.None? <==> completion.CompletionFailed?
    ensures completion.CompletionFailed? ==>
              o.response == Response(500, ErrorBody(ServerError)) && o.imageRequest.None?
    ensures completion.Completed? ==>
              && o.response.status == 200 && o.response.body.ReplyBody?
              && o.response.body.sessionId == sessionId
              && o.assistantTurn == Some(o.response.body.reply)
    ensures o.response.body.ReplyBody? ==>
              (o.response.body.image.Some? <==> o.imageRequest.Some? && image.ImageOk?)
    ensures o.response.body.ReplyBody? && o.response.body.image.Some? ==>
              && o.response == ImageResponse(o.imageRequest.value, sessionId, image.base64)
  {
    match completion
    case CompletionFailed => Outcome(None, Response(500, ErrorBody(ServerError)), None)
    case Completed(content) =>
      var text := OrElse(content, NoResponse);
      var modification := IsLikelyImageModification(message);
      var lastPrompt := LastImagePrompt(messages);
      if StartsWith(text, Sentinel) then
        var candidate := Trim(text[|Sentinel|..]);
        var prompt := if modification && Truthy(lastPrompt) then EnhancedPrompt(lastPrompt, message, candidate) else candidate;
        if image.ImageOk? then
          Outcome(Some(ImageMarker + prompt), ImageResponse(prompt, sessionId, image.base64), Some(prompt))
        else
          Outcome(Some(Apology), TextResponse(Apology, sessionId), Some(prompt))
      else if modification && Truthy(lastPrompt) then
        var prompt := EnhancedPrompt(lastPrompt, message, message);
        if image.ImageOk? then
          Outcome(Some(ImageMarker + prompt), ImageResponse(prompt, sessionId, image.base64), Some(prompt))
        else
          Outcome(Some(text), TextResponse(text, sessionId), Some(prompt))
      else
        Outcome(Some(text), TextResponse(text, sessionId), None)
  }

  /** The turns a turn appends after the user's. */
  function AssistantTurns(o: Outcome): seq<Turn> {
    if o.assistantTurn.Some? then [Turn(Assistant, o.assistantTurn.value)] else []
  }

  /** The branching of the handler once the user's turn is in `messages`: the
      sentinel branch, the heuristic branch with its silent fall-through, and
      the plain reply. */
  method ComposeReply(messages: seq<Turn>, message: string, sessionId: string, completion: Completion, image: ImageCall)
    returns (o: Outcome)
    ensures o == Respond(messages, message, sessionId, completion, image)
  {
    if completion.CompletionFailed? {
      return Outcome(None, Response(500, ErrorBody(ServerError)), None);
    }
    var isLikelyImageModification := IsLikelyImageModification(message);
    var assistantResponse := OrElse(completion.content, NoResponse);
    if StartsWith(assistantResponse, Sentinel) {
      var imagePrompt := Trim(assistantResponse[|Sentinel|..]);
      if isLikelyImageModification {
        var lastPrompt := GetLastImagePrompt(messages);
        if Truthy(lastPrompt) {
          imagePrompt := EnhanceImagePrompt(lastPrompt, message, imagePrompt);
        }
      }
      if image.ImageOk? {
        return Outcome(Some(ImageMarker + imagePrompt), ImageResponse(imagePrompt, sessionId, image.base64), Some(imagePrompt));
      }
      return Outcome(Some(Apology), TextResponse(Apology, sessionId), Some(imagePrompt));
    }
    var imageRequest := None;
    if isLikelyImageModification {
      var lastPrompt := GetLastImagePrompt(messages);
      if Truthy(lastPrompt) {
        var enhancedPrompt := EnhanceImagePrompt(lastPrompt, message, message);
        imageRequest := Some(enhancedPrompt);
        if image.ImageOk? {
          return Outcome(Some(ImageMarker + enhancedPrompt), ImageResponse(enhancedPrompt, sessionId, image.base64), imageRequest);
        }
      }
    }
    return Outcome(Some(assistantResponse), TextResponse(assistantResponse, sessionId), imageRequest);
  }

  /** The session store: a map from session id to that session's history. */
  class SessionStore {
    var sessions: map<string, seq<Turn>>
    /** The turn every new session is seeded with. */
    const seed: Turn

    /** Every stored history starts with the seed turn. */
    ghost predicate Valid()
      reads this
    {
      forall id :: id in sessions ==> sessions[id] != [] && sessions[id][0] == seed
    }

    /** An empty store whose sessions are seeded with the system turn. */
    constructor()
      ensures Valid()
      ensures sessions == map[] && seed == SystemTurn
    {
      sessions := map[];
      seed := SystemTurn;
    }

    /** The history of `sessionId`, as it stands or as a new session seeded
        with the seed turn. */
    function History(sessionId: string): (h: seq<Turn>)
      reads this
      requires Valid()
      ensures h != [] && h[0] == seed
    {
      if sessionId in sessions then sessions[sessionId] else [seed]
    }

    /** `initializeConversation(sessionId)`: get-or-create. An unseen id gets a
        history of the seed turn alone; a seen id and every other session are
        left as they are. */
    method InitializeConversation(sessionId: string) returns (messages: seq<Turn>)
      requires Valid()
      modifies this
      ensures Valid()
      ensures sessionId in old(sessions) ==> sessions == old(sessions)
      ensures sessionId !in old(sessions) ==> sessions == old(sessions)[sessionId := [seed]]
      ensures sessionId in sessions && messages == sessions[sessionId] == old(History(sessionId))
    {
      if sessionId !in sessions {
        sessions := sessions[sessionId := [seed]];
      }
      messages := sessions[sessionId];
    }

    /** `messages.push(turn)` on the history stored under `sessionId`. */
    method Push(sessionId: string, turn: Turn)
      requires Valid() && sessionId in sessions
      modifies this
      ensures Valid()
      ensures sessions == old(sessions)[sessionId := old(sessions)[sessionId] + [turn]]
    {
      sessions := sessions[sessionId := sessions[sessionId] + [turn]];
    }

    /** The `/chat` handler. With `guardMethod` set (the serverless handler),
        a request that is not a POST is refused before any session is touched.
        Otherwise the session's history gains the user's turn and, unless the
        completion failed, one assistant turn; no other session changes. The
        payload sent to the completion service and the prompt sent to the
        image service are returned alongside the response. */
    method HandleChat(request: Request, guardMethod: bool, generatedId: string, completion: Completion, image: ImageCall)
      returns (response: Response, completionRequest: Option<seq<Turn>>, imageRequest: Option<string>)
      requires Valid()
      modifies this
      ensures Valid()
      ensures guardMethod && request.httpMethod != "POST" ==>
                && response == Response(405, ErrorBody(MethodNotAllowed))
                && sessions == old(sessions) && completionRequest.None? && imageRequest.None?
      ensures !(guardMethod && request.httpMethod != "POST") ==>
                var id := OrElse(request.sessionId, generatedId);
                var messages := old(History(id)) + [Turn(User, request.message)];
                var o := Respond(messages, request.message, id, completion, image);
                && sessions == old(sessions)[id := messages + AssistantTurns(o)]
                && response == o.response
                && completionRequest == Some(Cleanup(messages))
                && imageRequest == o.imageRequest
    {
      if guardMethod && request.httpMethod != "POST" {
        return Response(405, ErrorBody(MethodNotAllowed)), None, None;
      }
      ghost var before := sessions;
      var message := request.message;
      var currentSessionId := OrElse(request.sessionId, generatedId);
      var messages := InitializeConversation(currentSessionId);
      Push(currentSessionId, Turn(User, message));
      messages := messages + [Turn(User, message)];
      assert sessions == before[currentSessionId := messages];
      completionRequest := Some(Cleanup(messages));
      var outcome := ComposeReply(messages, message, currentSessionId, completion, image);
      if outcome.assistantTurn.Some? {
        Push(currentSessionId, Turn(Assistant, outcome.assistantTurn.value));
        assert sessions == before[currentSessionId := messages + [Turn(Assistant, outcome.assistantTurn.value)]];
      } else {
        assert messages + AssistantTurns(outcome) == messages;
      }
      assert sessions == before[currentSessionId := messages + AssistantTurns(outcome)];
      response, imageRequest := outcome.response, outcome.imageRequest;
    }
  }
}
