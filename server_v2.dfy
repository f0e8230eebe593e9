/** The interactive voice agent of `server-v2.js`: one `VoiceAgentSession` per user
    id, holding the conversation history; the ten-message context window handed to
    the agent; the parser that pulls the answer out of the agent's output; and the
    `/api/chat` and `/api/clear` handlers over the `sessions` map.

    The agent subprocess, its two-minute timer and the clock are outside the model:
    the agent's output, the time stamps and `Date.now()` arrive as parameters, and
    the close and timeout of a run are separate events. */
module AgentSessions {
  import opened Text
  import VoiceRequests

  // ---------------------------------------------------------------------------
  // Messages and the context window

  /** One entry of a session's history; user messages carry a time stamp, the
      agent's answers do not. */
  datatype Message = Message(role: string, content: string, timestamp: Option<string>)

  /** How many of the newest messages the agent is shown. */
  const ContextSize := 10

  /** `messages.slice(-10)`: the newest ten messages, or all of them when fewer. */
  function Window(ms: seq<Message>): (w: seq<Message>)
    ensures |w| == if |ms| < ContextSize then |ms| else ContextSize
    ensures w == ms[|ms| - |w|..]
  {
    if |ms| <= ContextSize then ms else ms[|ms| - ContextSize..]
  }

  /** A message as the agent reads it. */
  function Render(m: Message): string {
    m.role + ": " + m.content
  }

  function RenderAll(ms: seq<Message>): (r: seq<string>)
    ensures |r| == |ms| && forall k | 0 <= k < |ms| :: r[k] == Render(ms[k])
  {
    seq(|ms|, k requires 0 <= k < |ms| => Render(ms[k]))
  }

  /** Line `k` of the rendering opens with message `k`'s role and holds its content. */
  lemma RenderAllShows(ms: seq<Message>, k: nat)
    requires k < |ms|
    ensures StartsWith(RenderAll(ms)[k], ms[k].role + ": ")
    ensures Contains(RenderAll(ms)[k], ms[k].content)
  {
    var head := ms[k].role + ": ";
    assert RenderAll(ms)[k] == head + ms[k].content + "";
    ContainsMiddle(head, ms[k].content, "");
    assert RenderAll(ms)[k][..|head|] == head;
  }

  /** `getContext()`: the window, one "role: content" line per message. */
  function ContextOf(ms: seq<Message>): string {
    Join(RenderAll(Window(ms)), "\n")
  }

  /** Appending a message slides the window: it drops the oldest message once ten
      are shown, and the new one comes last. */
  lemma WindowSlides(ms: seq<Message>, m: Message)
    ensures Window(ms + [m]) == (if |ms| < ContextSize then ms else Window(ms)[1..]) + [m]
  {
    var w := Window(ms + [m]);
    if |ms| >= ContextSize {
      assert w == (ms + [m])[|ms| + 1 - ContextSize..];
      assert Window(ms)[1..] == ms[|ms| + 1 - ContextSize..];
    }
  }

  /** Every message among the newest ten appears in the context. */
  lemma ContextShowsWindow(ms: seq<Message>, k: nat)
    requires |ms| - ContextSize <= k < |ms|
    ensures Contains(ContextOf(ms), Render(ms[k]))
  {
    var w := Window(ms);
    var i := k - (|ms| - |w|);
    assert w[i] == ms[k];
    assert OccursAt(Render(ms[k]), Render(ms[k]), 0);
    PartInJoin(RenderAll(w), "\n", i, Render(ms[k]));
  }

  /** An empty history gives an empty context. */
  lemma EmptyContext()
    ensures ContextOf([]) == ""
  {
    assert RenderAll(Window([])) == [];
  }

  // ---------------------------------------------------------------------------
  // extractResponse

  const StatsPrefix := "Stats:"
  const ProcessedReply := "I processed your request."

  /** Whether the loop keeps `line` once it is inside the response. */
  predicate Kept(line: string) {
    !Contains(line, VoiceRequests.FindingsMarker) && Trim(line) != "" && !StartsWith(line, StatsPrefix)
  }

  /** The lines the loop pushes, reading `lines` from the front with the flag
      `inResponse`: a line mentioning the findings switches the flag on and is
      skipped; afterwards every non-blank line not starting with "Stats:" is kept. */
  function ResponseLines(lines: seq<string>, inResponse: bool): seq<string>
    decreases |lines|
  {
    if lines == [] then []
    else if Contains(lines[0], VoiceRequests.FindingsMarker) then ResponseLines(lines[1..], true)
    else (if inResponse && Kept(lines[0]) then [lines[0]] else []) + ResponseLines(lines[1..], inResponse)
  }

  /** Whether some line before `k` mentions the findings. */
  predicate MarkedBefore(lines: seq<string>, k: nat)
    requires k <= |lines|
  {
    exists j | 0 <= j < k :: Contains(lines[j], VoiceRequests.FindingsMarker)
  }

  /** Every kept line is a line of the output, is not blank, does not mention the
      findings and does not start with "Stats:". */
  lemma {:induction false} ResponseLinesSound(lines: seq<string>, inResponse: bool, x: string)
    ensures x in ResponseLines(lines, inResponse) ==> x in lines && Kept(x)
    decreases |lines|
  {
    if lines != [] {
      ResponseLinesSound(lines[1..], inResponse, x);
      ResponseLinesSound(lines[1..], true, x);
    }
  }

  /** Every line after a findings line that is not blank, mentions no findings and
      does not start with "Stats:" is kept. */
  lemma {:induction false} ResponseLinesComplete(lines: seq<string>, inResponse: bool, k: nat)
    requires k < |lines| && Kept(lines[k])
    requires inResponse || MarkedBefore(lines, k)
    ensures lines[k] in ResponseLines(lines, inResponse)
    decreases |lines|
  {
    if k == 0 {
      assert !MarkedBefore(lines, 0);
    } else {
      var b := inResponse || Contains(lines[0], VoiceRequests.FindingsMarker);
      if !b {
        var j :| 0 <= j < k && Contains(lines[j], VoiceRequests.FindingsMarker);
        assert lines[1..][j - 1] == lines[j];
        assert MarkedBefore(lines[1..], k - 1);
      }
      assert lines[1..][k - 1] == lines[k];
      ResponseLinesComplete(lines[1..], b, k - 1);
    }
  }

  /** Without a findings line nothing is kept. */
  lemma {:induction false} NoMarkerNoLines(lines: seq<string>)
    requires forall j | 0 <= j < |lines| :: !Contains(lines[j], VoiceRequests.FindingsMarker)
    ensures ResponseLines(lines, false) == []
    decreases |lines|
  {
    if lines != [] {
      NoMarkerNoLines(lines[1..]);
    }
  }

  /** The kept lines, joined with line breaks and trimmed. */
  function KeptText(output: string): (r: string)
    ensures IsTrimmed(r)
  {
    var joined := Join(ResponseLines(Split(output, '\n'), false), "\n");
    TrimIsTrimmed(joined);
    Trim(joined)
  }

  /** `a || b` on strings. */
  function OrElse(a: string, b: string): (r: string)
    ensures r != "" <==> a != "" || b != ""
    ensures r == a || r == b
  {
    if a != "" then a else b
  }

  /** The output, trimmed. */
  function TrimmedOutput(output: string): (r: string)
    ensures IsTrimmed(r)
  {
    TrimIsTrimmed(output);
    Trim(output)
  }

  /** The answer: the kept lines, else the trimmed output, else a stock sentence;
      never empty, and always trimmed. */
  function ExtractedResponse(output: string): (r: string)
    ensures r != ""
    ensures IsTrimmed(r)
  {
    ProcessedReplyTrimmed();
    OrElse(KeptText(output), OrElse(TrimmedOutput(output), ProcessedReply))
  }

  lemma ProcessedReplyTrimmed()
    ensures ProcessedReply != "" && IsTrimmed(ProcessedReply)
  {
    assert ProcessedReply[0] == 'I' && ProcessedReply[|ProcessedReply| - 1] == '.';
  }

  /** An output that never mentions the findings is answered by itself, trimmed. */
  lemma WithoutFindings(output: string)
    requires !Contains(output, VoiceRequests.FindingsMarker)
    ensures ExtractedResponse(output) == if Trim(output) != "" then Trim(output) else ProcessedReply
  {
    assert TrimmedOutput(output) == Trim(output);
    var lines := Split(output, '\n');
    JoinSplit(output, '\n');
    forall j | 0 <= j < |lines| ensures !Contains(lines[j], VoiceRequests.FindingsMarker) {
      PartInJoin(lines, ['\n'], j, VoiceRequests.FindingsMarker);
    }
    NoMarkerNoLines(lines);
    assert Join([], "\n") == "";
  }

  // ---------------------------------------------------------------------------
  // A session

  /** The reply when a run outlasts its two minutes. */
  const StillWorkingReply := "I'm still working on that. It might take a bit longer."

  class Session {
    const userId: string
    const sessionId: string
    var messages: seq<Message>
    var isProcessing: bool

    /** `new VoiceAgentSession(userId)` at time `now`: no history, not processing. */
    constructor (userId: string, now: nat)
      ensures this.userId == userId && sessionId == "voice_" + userId + "_" + NatToString(now)
      ensures messages == [] && !isProcessing
    {
      this.userId := userId;
      sessionId := "voice_" + userId + "_" + NatToString(now);
      messages := [];
      isProcessing := false;
    }

    function GetContext(): string
      reads this
    {
      ContextOf(messages)
    }

    /** `addMessage(role, content)`: appended at the end; nothing is dropped. */
    method AddMessage(role: string, content: string, timestamp: string)
      modifies this
      ensures messages == old(messages) + [Message(role, content, Some(timestamp))]
      ensures isProcessing == old(isProcessing)
    {
      messages := messages + [Message(role, content, Some(timestamp))];
    }

    /** The start of `sendToAgent`: the session is busy. */
    method StartRun()
      modifies this
      ensures isProcessing && messages == old(messages)
    {
      isProcessing := true;
    }

    /** The agent closed with `output`: the session is free again and the answer is
        appended to the history, even when the request already timed out. */
    method OnClose(output: string) returns (response: string)
      modifies this
      ensures response == ExtractedResponse(output) && !isProcessing
      ensures messages == old(messages) + [Message("assistant", response, None)]
    {
      isProcessing := false;
      response := ExtractResponse(output);
      messages := messages + [Message("assistant", response, None)];
    }

    /** The two-minute timer fired: a run still in progress is abandoned with a stock
        reply; otherwise nothing happens. */
    method OnTimeout() returns (reply: Option<string>)
      modifies this
      ensures reply == (if old(isProcessing) then Some(StillWorkingReply) else None)
      ensures !isProcessing && messages == old(messages)
    {
      if isProcessing {
        isProcessing := false;
        reply := Some(StillWorkingReply);
      } else {
        reply := None;
      }
    }

    /** One turn of `/api/chat` on this session: the user's message is added and the
        agent runs. When it closes first, its answer is added and returned; when the
        two-minute timer fires first (`timedOut`), the stock reply is returned, and
        the killed agent's close still adds the answer drawn from its output. */
    method Turn(message: string, timestamp: string, output: string, timedOut: bool) returns (text: string)
      modifies this
      ensures text == (if timedOut then StillWorkingReply else ExtractedResponse(output)) && !isProcessing
      ensures messages == old(messages)
        + [Message("user", message, Some(timestamp))] + [Message("assistant", ExtractedResponse(output), None)]
    {
      ghost var before := messages;
      ghost var asked := Message("user", message, Some(timestamp));
      ghost var answered := Message("assistant", ExtractedResponse(output), None);
      AddMessage("user", message, timestamp);
      StartRun();
      assert messages == before + [asked] && isProcessing;
      var reply: Option<string> := None;
      if timedOut {
        reply := OnTimeout();
      }
      assert messages == before + [asked];
      var response := OnClose(output);
      text := if reply.Some? then reply.value else response;
      assert messages == before + [asked] + [answered];
    }

    /** `extractResponse(output)`, the loop over the output's lines. */
    method ExtractResponse(output: string) returns (r: string)
      ensures r == ExtractedResponse(output)
    {
      var lines := Split(output, '\n');
      var responseLines: seq<string> := [];
      var inResponse := false;
      var i := 0;
      while i < |lines|
        invariant 0 <= i <= |lines|
        invariant responseLines + ResponseLines(lines[i..], inResponse) == ResponseLines(lines, false)
      {
        var line := lines[i];
        assert lines[i..][1..] == lines[i + 1..];
        if Contains(line, VoiceRequests.FindingsMarker) {
          inResponse := true;
        } else if inResponse && Trim(line) != "" && !StartsWith(line, StatsPrefix) {
          responseLines := responseLines + [line];
        }
        i := i + 1;
      }
      assert responseLines == ResponseLines(lines, false);
      var joined := Trim(Join(responseLines, "\n"));
      assert joined == KeptText(output);
      var trimmed := Trim(output);
      assert trimmed == TrimmedOutput(output);
      if joined != "" {
        r := joined;
      } else if trimmed != "" {
        r := trimmed;
      } else {
        r := ProcessedReply;
      }
    }
  }

  // ---------------------------------------------------------------------------
  // The sessions map and the handlers

  const NotHeardReply := "I didn't hear that. Can you repeat?"

  /** The user a request without a `userId` is filed under. */
  const DefaultUser := "kris"

  /** `userId` after the destructuring default: only a missing id becomes the default. */
  function UserOf(userId: Option<string>): string {
    if userId.Some? then userId.value else DefaultUser
  }

  class Registry {
    var sessions: map<string, Session>

    /** Each session sits under its own user id, so no session serves two users. */
    ghost predicate Valid()
      reads this
    {
      forall u | u in sessions :: sessions[u].userId == u
    }

    /** `new Map()`. */
    constructor ()
      ensures Valid() && sessions == map[]
    {
      sessions := map[];
    }

    /** `sessions.has(userId)` / `sessions.set(userId, new VoiceAgentSession(userId))`
        / `sessions.get(userId)`: the existing session when there is one, else a
        fresh, empty one that is stored under the user id. */
    method GetOrCreate(userId: string, now: nat) returns (s: Session)
      requires Valid()
      modifies this
      ensures Valid() && s.userId == userId && userId in sessions && sessions[userId] == s
      ensures userId in old(sessions) ==> sessions == old(sessions) && s == old(sessions)[userId]
      ensures userId !in old(sessions) ==>
        fresh(s) && sessions == old(sessions)[userId := s] && s.messages == [] && !s.isProcessing
    {
      if userId !in sessions {
        var created := new Session(userId, now);
        sessions := sessions[userId := created];
      }
      s := sessions[userId];
    }

    /** `POST /api/clear/:userId`: the user's session is forgotten, whether or not
        there was one (so clearing twice is clearing once); the other users keep
        theirs, and the user's next message starts a fresh session. */
    method Clear(userId: string)
      requires Valid()
      modifies this
      ensures Valid() && sessions == old(sessions) - {userId}
    {
      sessions := sessions - {userId};
    }

    /** The user's session, as a frame. */
    function SessionOf(userId: string): (r: set<Session>)
      reads this
      ensures userId in sessions <==> r != {}
    {
      if userId in sessions then {sessions[userId]} else {}
    }

    /** `GET /api/history/:userId`: the session's messages, or none. */
    function History(userId: string): (r: seq<Message>)
      reads this, sessions.Values
      ensures userId !in sessions ==> r == []
    {
      if userId in sessions then sessions[userId].messages else []
    }

    /** `POST /api/chat` with the agent's output given: an empty message is answered
        at once and touches no session; any other message is passed to `Converse`
        under its user, `kris` when the request names none. */
    method Chat(message: string, userId: Option<string>, now: nat, timestamp: string, output: string,
                timedOut: bool)
      returns (text: string)
      requires Valid()
      modifies this, SessionOf(UserOf(userId))
      ensures Valid()
      ensures message == "" ==> text == NotHeardReply && sessions == old(sessions)
      ensures message == "" ==> forall u | u in sessions :: sessions[u].messages == old(sessions[u].messages)
      ensures message != "" ==>
        var user := UserOf(userId);
        && text == (if timedOut then StillWorkingReply else ExtractedResponse(output))
        && user in sessions && sessions == old(sessions)[user := sessions[user]]
        && sessions[user].messages ==
          (if user in old(sessions) then old(sessions[user].messages) else [])
          + [Message("user", message, Some(timestamp))] + [Message("assistant", ExtractedResponse(output), None)]
        && forall u | u in old(sessions) && u != user :: sessions[u].messages == old(sessions[u].messages)
    {
      if message == "" {
        return NotHeardReply;
      }
      text := Converse(message, UserOf(userId), now, timestamp, output, timedOut);
    }

    /** A message lands in the user's session, created if need be, followed by the
        agent's answer; the reply is that answer, or the stock reply when the run
        outlasts its timer. Every other user's session is left as it was. */
    method Converse(message: string, userId: string, now: nat, timestamp: string, output: string,
                    timedOut: bool)
      returns (text: string)
      requires Valid()
      modifies this, SessionOf(userId)
      ensures Valid() && userId in sessions
      ensures text == (if timedOut then StillWorkingReply else ExtractedResponse(output))
      ensures sessions[userId].messages ==
        (if userId in old(sessions) then old(sessions[userId].messages) else [])
        + [Message("user", message, Some(timestamp))] + [Message("assistant", ExtractedResponse(output), None)]
      ensures sessions == old(sessions)[userId := sessions[userId]]
      ensures forall u | u in old(sessions) && u != userId :: sessions[u].messages == old(sessions[u].messages)
    {
      ghost var before := sessions;
      ghost var history := if userId in sessions then sessions[userId].messages else [];
      var session := GetOrCreate(userId, now);
      assert session.messages == history && sessions == before[userId := session];
      text := session.Turn(message, timestamp, output, timedOut);
      assert sessions == before[userId := session];
      forall u | u in before && u != userId
        ensures sessions[u].messages == old(sessions[u].messages)
      {
        assert sessions[u] == before[u] && before[u].userId == u != session.userId;
      }
    }
  }
}
