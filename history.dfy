/**
  Chat turns and the three operations that read a session's history:
  trimming it for the completion request (`cleanupConversation`), recognising
  a stored image reply (the `match` against "I've generated an image for
  you: (.+)") and scanning backwards for the newest one
  (`getLastImagePrompt`).
 */
module History {
  import opened Js

  datatype Role = System | User | Assistant

  /** One `{role, content}` entry of a session's `messages` array. */
  datatype Turn = Turn(role: Role, content: string)

  /** The instruction every new session is seeded with. */
  const SystemPrompt: string :=
    "You are a helpful AI assistant that can both chat and generate "
    + "images. When a user asks you to create, generate, draw, make, "
    + "or show an image/picture/photo, respond with 'GENERATE_IMAGE:' "
    + "followed by a detailed prompt for the image. For example: "
    + "'GENERATE_IMAGE: a beautiful sunset over mountains, digital art "
    + "style'. When a user asks to modify, enhance, or change a "
    + "previously generated image (like 'make it more colorful', 'add "
    + "more details', 'change the style', etc.), also respond with "
    + "'GENERATE_IMAGE:' followed by an enhanced version of the "
    + "previous image prompt that incorporates their requested "
    + "changes. For all other requests, respond normally as a helpful "
    + "assistant. Keep responses concise and friendly."

  const SystemTurn: Turn := Turn(System, SystemPrompt)

  // ---------------------------------------------------------------------------
  // cleanupConversation

  /** The turns sent to the completion service: a history longer than ten
      turns is cut to its first turn followed by its nine newest turns, in
      order; a shorter one is sent as it is. */
  function Cleanup(messages: seq<Turn>): (r: seq<Turn>)
    ensures |messages| <= 10 ==> r == messages
    ensures |messages| > 10 ==> |r| == 10 && r[0] == messages[0]
    ensures |messages| > 10 ==> forall i :: 1 <= i < 10 ==> r[i] == messages[|messages| - 10 + i]
  {
    if |messages| > 10 then [messages[0]] + Slice(messages, -9) else messages
  }

  // ---------------------------------------------------------------------------
  // The stored image reply and its regular expression

  /** The text an image reply starts with; also the literal part of the
      regular expression that recovers the prompt from it. */
  const ImageMarker: string := "I've generated an image for you: "

  /** The cheaper `includes` test run before the regular expression: the
      marker without its trailing space. */
  const IncludesMarker: string := "I've generated an image for you:"

  /** The regular expression matches at index `i`: the marker, then at least
      one character that is not a line terminator. */
  predicate MarkerMatchAt(s: string, i: nat) {
    OccursAt(s, ImageMarker, i) && i + |ImageMarker| < |s| && !IsLineTerminator(s[i + |ImageMarker|])
  }

  /** The leftmost index at or after `i` where the regular expression matches. */
  function FindMarker(s: string, i: nat): (r: Option<nat>)
    requires i <= |s|
    ensures r.Some? ==> i <= r.value < |s| && MarkerMatchAt(s, r.value)
    ensures r.Some? ==> forall k :: i <= k < r.value ==> !MarkerMatchAt(s, k)
    ensures r.None? ==> forall k :: i <= k <= |s| ==> !MarkerMatchAt(s, k)
    decreases |s| - i
  {
    if MarkerMatchAt(s, i) then Some(i)
    else if i == |s| then None
    else FindMarker(s, i + 1)
  }

  /** Where the greedy `.+` starting at `j` stops: the first line terminator at
      or after `j`, or the end of `s`. */
  function LineEnd(s: string, j: nat): (e: nat)
    requires j <= |s|
    ensures j <= e <= |s|
    ensures e < |s| ==> IsLineTerminator(s[e])
    ensures forall k :: j <= k < e ==> !IsLineTerminator(s[k])
    decreases |s| - j
  {
    if j == |s| || IsLineTerminator(s[j]) then j else LineEnd(s, j + 1)
  }

  /** Group 1 of `s.match(/I've generated an image for you: (.+)/)`, or `None`
      when there is no match: it is never empty and never spans a line. */
  function MarkerCapture(s: string): (r: Option<string>)
    ensures r.Some? ==> r.value != []
    ensures r.Some? ==> forall k :: 0 <= k < |r.value| ==> !IsLineTerminator(r.value[k])
  {
    match FindMarker(s, 0)
    case None => None
    case Some(i) =>
      var from := i + |ImageMarker|;
      Some(s[from..LineEnd(s, from)])
  }

  /** What one step of the backward scan finds in a turn: a capture from an
      assistant turn that passes the `includes` guard, and nothing otherwise. */
  function ScanHit(t: Turn): Option<string> {
    if t.role == Assistant && Includes(t.content, IncludesMarker) then MarkerCapture(t.content) else None
  }

  // ---------------------------------------------------------------------------
  // getLastImagePrompt

  /** The prompt of the newest image reply in `messages`, if any; the scan goes
      from the newest turn to the oldest and stops at the first hit. */
  function LastImagePrompt(messages: seq<Turn>): (r: Option<string>)
    ensures r.Some? ==> r.value != []
    ensures r.Some? ==> forall k :: 0 <= k < |r.value| ==> !IsLineTerminator(r.value[k])
  {
    if messages == [] then None
    else
      var hit := ScanHit(messages[|messages| - 1]);
      if hit.Some? then hit else LastImagePrompt(messages[..|messages| - 1])
  }

  /** `getLastImagePrompt`: the backward index loop with its early return. */
  method GetLastImagePrompt(messages: seq<Turn>) returns (r: Option<string>)
    ensures r == LastImagePrompt(messages)
  {
    var i := |messages| - 1;
    assert messages[..i + 1] == messages;
    while i >= 0
      invariant -1 <= i < |messages|
      invariant LastImagePrompt(messages) == LastImagePrompt(messages[..i + 1])
    {
      var message := messages[i];
      assert messages[..i + 1][..i] == messages[..i];
      if message.role == Assistant && Includes(message.content, IncludesMarker) {
        var capture := MarkerCapture(message.content);
        if capture.Some? {
          return capture;
        }
      }
      i := i - 1;
    }
    return None;
  }

  // ---------------------------------------------------------------------------
  // Properties

  /** What the completion service is sent keeps the session's first turn and
      its newest turn, and never holds more than ten turns. */
  lemma CleanupKeepsEnds(messages: seq<Turn>)
    requires messages != []
    ensures 0 < |Cleanup(messages)| <= 10
    ensures Cleanup(messages)[0] == messages[0]
    ensures Cleanup(messages)[|Cleanup(messages)| - 1] == messages[|messages| - 1]
  {
  }

  /** The backward scan finds nothing exactly when no turn is a hit. */
  lemma {:induction false} LastImagePromptNoneIff(messages: seq<Turn>)
    ensures LastImagePrompt(messages).None? <==> forall k :: 0 <= k < |messages| ==> ScanHit(messages[k]).None?
  {
    if messages != [] {
      var n := |messages| - 1;
      var rest := messages[..n];
      LastImagePromptNoneIff(rest);
      assert forall k :: 0 <= k < n ==> rest[k] == messages[k];
    }
  }

  /** Turn `k` is a hit and no newer turn is. */
  predicate IsNewestHit(messages: seq<Turn>, k: int) {
    0 <= k < |messages| && ScanHit(messages[k]).Some?
    && forall j :: k < j < |messages| ==> ScanHit(messages[j]).None?
  }

  /** A newest hit stays the newest when a turn without a hit is appended. */
  lemma NewestHitExtends(messages: seq<Turn>, k: int)
    requires messages != [] && ScanHit(messages[|messages| - 1]).None?
    requires IsNewestHit(messages[..|messages| - 1], k)
    ensures IsNewestHit(messages, k)
  {
    var n := |messages| - 1;
    forall j | k < j < |messages| ensures ScanHit(messages[j]).None? {
      if j < n { assert messages[..n][j] == messages[j]; }
    }
  }

  /** The backward scan returns the hit of the newest turn that has one. */
  lemma {:induction false} LastImagePromptIsNewestHit(messages: seq<Turn>)
    requires LastImagePrompt(messages).Some?
    ensures exists k :: IsNewestHit(messages, k) && ScanHit(messages[k]) == LastImagePrompt(messages)
  {
    var n := |messages| - 1;
    if ScanHit(messages[n]).Some? {
      assert IsNewestHit(messages, n);
    } else {
      var rest := messages[..n];
      LastImagePromptIsNewestHit(rest);
      var k :| IsNewestHit(rest, k) && ScanHit(rest[k]) == LastImagePrompt(rest);
      NewestHitExtends(messages, k);
      assert rest[k] == messages[k];
    }
  }

  /** Appending a turn: the new turn's hit wins, otherwise the old answer stands. */
  lemma LastImagePromptAppend(messages: seq<Turn>, t: Turn)
    ensures LastImagePrompt(messages + [t]) == if ScanHit(t).Some? then ScanHit(t) else LastImagePrompt(messages)
  {
    assert (messages + [t])[..|messages|] == messages;
  }

  /** User and system turns are never hits, so appending one changes nothing. */
  lemma LastImagePromptSkipsNonAssistant(messages: seq<Turn>, t: Turn)
    requires t.role != Assistant
    ensures LastImagePrompt(messages + [t]) == LastImagePrompt(messages)
  {
    LastImagePromptAppend(messages, t);
  }

  /** Whenever the regular expression matches, the `includes` guard in front of
      it passes too: the guard never hides a match. */
  lemma IncludesGuardImplied(s: string)
    requires MarkerCapture(s).Some?
    ensures Includes(s, IncludesMarker)
  {
    var i := FindMarker(s, 0).value;
    assert s[i..i + |ImageMarker|][..|IncludesMarker|] == IncludesMarker;
    assert s[i..i + |IncludesMarker|] == s[i..i + |ImageMarker|][..|IncludesMarker|];
    assert OccursAt(s, IncludesMarker, i);
  }

  /** The capture of a stored image reply `ImageMarker + p` is `p` up to its
      first line terminator, provided `p` does not start with one. */
  lemma CaptureOfImageReply(p: string)
    requires p != [] && !IsLineTerminator(p[0])
    ensures MarkerCapture(ImageMarker + p) == Some(p[..LineEnd(p, 0)])
  {
    var s := ImageMarker + p;
    assert s[0..|ImageMarker|] == ImageMarker;
    assert MarkerMatchAt(s, 0);
    assert FindMarker(s, 0) == Some(0);
    var m := |ImageMarker|;
    assert s[m..] == p;
    forall k | 0 <= k <= |p| ensures (k < |p| ==> s[m + k] == p[k])
    {
    }
    LineEndShift(s, p, m, 0);
    assert s[m..LineEnd(s, m)] == p[..LineEnd(p, 0)];
  }

  /** `LineEnd` is unaffected by a prefix in front of the scanned text. */
  lemma {:induction false} LineEndShift(s: string, p: string, m: nat, j: nat)
    requires m + |p| == |s| && s[m..] == p && j <= |p|
    ensures LineEnd(s, m + j) == m + LineEnd(p, j)
    decreases |p| - j
  {
    if j < |p| {
      assert s[m + j] == p[j];
      if !IsLineTerminator(p[j]) {
        LineEndShift(s, p, m, j + 1);
      }
    }
  }

  /** Round trip: after an image reply with a non-empty single-line prompt `p`
      is appended, the backward scan recovers exactly `p`. */
  lemma ImageReplyRoundTrip(messages: seq<Turn>, p: string)
    requires p != []
    requires forall k :: 0 <= k < |p| ==> !IsLineTerminator(p[k])
    ensures LastImagePrompt(messages + [Turn(Assistant, ImageMarker + p)]) == Some(p)
  {
    CaptureOfImageReply(p);
    assert p[..LineEnd(p, 0)] == p;
    IncludesGuardImplied(ImageMarker + p);
    LastImagePromptAppend(messages, Turn(Assistant, ImageMarker + p));
  }

  /** An image reply with an empty prompt (the marker alone) is not a match,
      so the scan skips it. */
  lemma EmptyImageReplySkipped(messages: seq<Turn>)
    ensures MarkerCapture(ImageMarker) == None
    ensures LastImagePrompt(messages + [Turn(Assistant, ImageMarker)]) == LastImagePrompt(messages)
  {
    forall k | 0 <= k <= |ImageMarker| ensures !MarkerMatchAt(ImageMarker, k) {
    }
    LastImagePromptAppend(messages, Turn(Assistant, ImageMarker));
  }

  /** The worked example: a history of a system turn (whatever its text), a
      request and one image reply yields that reply's prompt. */
  lemma LastImagePromptExample(instruction: string)
    ensures LastImagePrompt([Turn(System, instruction), Turn(User, "draw a cat"),
                             Turn(Assistant, ImageMarker + "a cat, watercolor style")])
            == Some("a cat, watercolor style")
  {
    var p := "a cat, watercolor style";
    assert forall k :: 0 <= k < |p| ==> !IsLineTerminator(p[k]) by {
      forall k | 0 <= k < |p| ensures !IsLineTerminator(p[k]) {
      }
    }
    ImageReplyRoundTrip([Turn(System, instruction), Turn(User, "draw a cat")], p);
  }
}
