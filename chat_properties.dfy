/**
  What one chat turn promises, stated over `Respond`, the function the
  handler is proved against.
 */
module ChatProperties {
  import opened Js
  import opened History
  import opened Intent
  import opened Enhancer
  import opened Chat

  /** The history after a turn on `history` for `message`. */
  function After(history: seq<Turn>, message: string, sessionId: string, completion: Completion, image: ImageCall)
    : seq<Turn>
  {
    var messages := history + [Turn(User, message)];
    messages + AssistantTurns(Respond(messages, message, sessionId, completion, image))
  }

  // ---------------------------------------------------------------------------
  // The stored history

  /** A turn keeps the history it started from and appends the user's turn
      and then, unless the completion failed, exactly one assistant turn
      whose content is the reply. */
  lemma TurnAppendsUserThenAssistant(history: seq<Turn>, message: string, sessionId: string,
                                     completion: Completion, image: ImageCall)
    ensures var h := After(history, message, sessionId, completion, image);
            var o := Respond(history + [Turn(User, message)], message, sessionId, completion, image);
            && |h| == |history| + (if completion.CompletionFailed? then 1 else 2)
            && h[..|history|] == history
            && h[|history|] == Turn(User, message)
            && (completion.CompletionFailed? <==> o.response.status == 500)
            && (completion.Completed? ==> h[|history| + 1] == Turn(Assistant, o.response.body.reply))
  {
    var h := After(history, message, sessionId, completion, image);
    assert h[..|history|] == history;
  }

  /** The payload sent to the completion service is at most ten turns long,
      starts with the history's first turn (the system turn) and ends with
      the user's new turn. */
  lemma CompletionRequestShape(history: seq<Turn>, message: string)
    requires history != []
    ensures var r := Cleanup(history + [Turn(User, message)]);
            && 0 < |r| <= 10 && r[0] == history[0] && r[|r| - 1] == Turn(User, message)
  {
    CleanupKeepsEnds(history + [Turn(User, message)]);
  }

  // ---------------------------------------------------------------------------
  // The branches

  /** The plain chat turn: without the sentinel, and unless the message reads
      as a modification of an earlier image, the completion's text (or "No
      response") is the reply and the stored turn, and no image service is
      called, however that service would have answered. */
  lemma PlainReply(messages: seq<Turn>, message: string, sessionId: string,
                   content: Option<string>, image: ImageCall)
    requires !StartsWith(OrElse(content, NoResponse), Sentinel)
    requires !(IsLikelyImageModification(message) && LastImagePrompt(messages).Some?)
    ensures var text := OrElse(content, NoResponse);
            Respond(messages, message, sessionId, Completed(content), image)
              == Outcome(Some(text), TextResponse(text, sessionId), None)
  {
    var last := LastImagePrompt(messages);
    assert last.Some? ==> Truthy(last);
  }

  /** A completion with no content, or empty content, is replied to with
      "No response" unless the heuristic branch makes an image. */
  lemma EmptyCompletionRepliesNoResponse(messages: seq<Turn>, message: string, sessionId: string,
                                         content: Option<string>, image: ImageCall)
    requires !Truthy(content)
    requires !(IsLikelyImageModification(message) && LastImagePrompt(messages).Some?)
    ensures Respond(messages, message, sessionId, Completed(content), image)
         == Outcome(Some(NoResponse), TextResponse(NoResponse, sessionId), None)
  {
    assert !StartsWith(NoResponse, Sentinel);
  }

  /** The image service is called exactly when the completion, or "No
      response" in its place, starts with the sentinel, or when the message
      reads as a modification and an earlier image prompt exists. */
  lemma ImageCallIff(messages: seq<Turn>, message: string, sessionId: string, content: Option<string>, image: ImageCall)
    ensures var o := Respond(messages, message, sessionId, Completed(content), image);
            var viaSentinel := StartsWith(OrElse(content, NoResponse), Sentinel);
            var viaHeuristic := IsLikelyImageModification(message) && LastImagePrompt(messages).Some?;
            o.imageRequest.Some? <==> viaSentinel || viaHeuristic
  {
    var last := LastImagePrompt(messages);
    assert last.Some? ==> Truthy(last);
  }

  /** The prompt sent to the image service. After the sentinel it is the rest
      of the completion, trimmed; but when the message reads as a modification
      and an earlier prompt exists, it is that prompt enhanced by the message,
      and the completion's own prompt is dropped. The heuristic branch sends
      the same enhanced prompt. */
  lemma ImagePrompt(messages: seq<Turn>, message: string, sessionId: string, content: Option<string>, image: ImageCall)
    requires Respond(messages, message, sessionId, Completed(content), image).imageRequest.Some?
    ensures var last := LastImagePrompt(messages);
            var text := OrElse(content, NoResponse);
            var p := Respond(messages, message, sessionId, Completed(content), image).imageRequest.value;
            && (IsLikelyImageModification(message) && last.Some? ==> p == EnhancedPrompt(last, message, message))
            && (!(IsLikelyImageModification(message) && last.Some?) ==>
                  StartsWith(text, Sentinel) && p == Trim(text[|Sentinel|..]))
  {
    var last := LastImagePrompt(messages);
    assert last.Some? ==> Truthy(last);
  }

  /** After the sentinel, a failed image call (not ok, or thrown) is answered
      with the apology, which is also the assistant turn; the status stays 200. */
  lemma SentinelImageFailureApologizes(messages: seq<Turn>, message: string, sessionId: string,
                                       text: string, image: ImageCall)
    requires StartsWith(text, Sentinel) && !image.ImageOk?
    ensures var o := Respond(messages, message, sessionId, Completed(Some(text)), image);
            && o.assistantTurn == Some(Apology) && o.response == TextResponse(Apology, sessionId)
            && o.imageRequest.Some?
  {
  }

  /** Without the sentinel, a failed image call of the heuristic branch is
      silent: the completion's text is the assistant turn and the reply. */
  lemma HeuristicImageFailureFallsThrough(messages: seq<Turn>, message: string, sessionId: string,
                                          content: Option<string>, image: ImageCall)
    requires !StartsWith(OrElse(content, NoResponse), Sentinel) && !image.ImageOk?
    ensures var o := Respond(messages, message, sessionId, Completed(content), image);
            && o.assistantTurn == Some(OrElse(content, NoResponse))
            && o.response == TextResponse(OrElse(content, NoResponse), sessionId)
  {
  }

  // ---------------------------------------------------------------------------
  // Image turns are found again by the next scan

  /** A non-empty image prompt does not start with a line terminator: the
      trimmed prompt starts with a non-space, and an enhanced prompt starts
      with the earlier prompt, which has no line terminator. */
  lemma ImagePromptStart(messages: seq<Turn>, message: string, sessionId: string,
                         completion: Completion, image: ImageCall)
    requires Respond(messages, message, sessionId, completion, image).imageRequest.Some?
    ensures var p := Respond(messages, message, sessionId, completion, image).imageRequest.value;
            p != [] ==> !IsLineTerminator(p[0])
  {
    var text := OrElse(completion.content, NoResponse);
    var last := LastImagePrompt(messages);
    if IsLikelyImageModification(message) && Truthy(last) {
      var p := EnhancedPrompt(last, message, message);
      assert p[0] == last.value[0];
    }
  }

  /** The reply of a successful image turn for prompt `p` is found by the
      backward scan: the prompt up to its first line terminator. */
  lemma {:induction false} ImageReplyRecovered(messages: seq<Turn>, p: string)
    requires p != [] && !IsLineTerminator(p[0])
    ensures LastImagePrompt(messages + [Turn(Assistant, ImageMarker + p)]) == Some(p[..LineEnd(p, 0)])
  {
    CaptureOfImageReply(p);
    IncludesGuardImplied(ImageMarker + p);
    LastImagePromptAppend(messages, Turn(Assistant, ImageMarker + p));
  }

  /** Round trip: after a turn that attached an image for prompt `p`, the
      history yields `p` (up to its first line terminator) as the last image
      prompt; an empty `p`, as from "GENERATE_IMAGE:   ", is skipped and the
      earlier prompt stays the last one. */
  lemma ImageTurnRoundTrip(history: seq<Turn>, message: string, sessionId: string,
                           completion: Completion, image: ImageCall)
    requires var o := Respond(history + [Turn(User, message)], message, sessionId, completion, image);
             o.response.body.ReplyBody? && o.response.body.image.Some?
    ensures var o := Respond(history + [Turn(User, message)], message, sessionId, completion, image);
            var p := o.imageRequest.value;
            LastImagePrompt(After(history, message, sessionId, completion, image))
              == if p == [] then LastImagePrompt(history) else Some(p[..LineEnd(p, 0)])
  {
    var messages := history + [Turn(User, message)];
    var o := Respond(messages, message, sessionId, completion, image);
    var p := o.imageRequest.value;
    assert After(history, message, sessionId, completion, image) == messages + [Turn(Assistant, ImageMarker + p)];
    LastImagePromptSkipsNonAssistant(history, Turn(User, message));
    if p == [] {
      assert ImageMarker + p == ImageMarker;
      EmptyImageReplySkipped(messages);
    } else {
      ImagePromptStart(messages, message, sessionId, completion, image);
      ImageReplyRecovered(messages, p);
    }
  }

  // ---------------------------------------------------------------------------
  // Scenario

  /** A fresh request ("draw a sunset") whose completion is the sentinel, a
      space and a prompt, with a working image service: the reply announces
      the prompt, the image comes back as a PNG data URI, and the session id
      is returned for the next call. */
  lemma FreshImageRequestScenario(history: seq<Turn>, message: string, sessionId: string, p: string, base64: string)
    requires !IsLikelyImageModification(message)
    requires p != [] && !IsWhiteSpace(p[0]) && !IsWhiteSpace(p[|p| - 1])
    ensures Respond(history + [Turn(User, message)], message, sessionId, Completed(Some(Sentinel + (" " + p))), ImageOk(base64))
         == Outcome(Some(ImageMarker + p),
                    Response(200, ReplyBody(ImageMarker + p, sessionId, Some(DataUriPrefix + base64), Some(p))),
                    Some(p))
  {
    var rest := " " + p;
    var text := Sentinel + rest;
    assert text[..|Sentinel|] == Sentinel && text[|Sentinel|..] == rest;
    TrimAfterSpace(p);
    assert Trim(text[|Sentinel|..]) == p;
    assert StartsWith(OrElse(Some(text), NoResponse), Sentinel);
  }
}
