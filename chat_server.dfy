/** The chat backend of server.js: the client-configuration lookup with its
    `demo` fallback, the configuration endpoint, and the `/api/chat` turn,
    which keeps a per-session history in a process-wide map, sends the
    client's system prompt followed by that history to the completion API,
    and keeps the last 20 entries after a successful reply.

    The completion API is an oracle from the prompt list to a `Completion`;
    the API key and the clock (`Date.now()`) are parameters. */
module ChatServer {
  import opened JsValues
  import opened Strings
  import opened ClientsJson

  /** Entries a history keeps after a successful turn. */
  const HistoryLimit: nat := 20

  /** Client whose record serves every unknown client id. */
  const DemoClient := "demo"

  const MissingKeyDetails := "OPENAI_API_KEY no configurada"

  datatype Role = System | User | Assistant

  datatype ChatMessage = ChatMessage(role: Role, content: string)

  /** The JSON body of a chat request. */
  datatype ChatRequest = ChatRequest(message: JsValue, clientId: JsValue, sessionId: JsValue)

  /** What the completion API call yields: a reply, a non-success HTTP
      status, or a failure of the call or of reading its answer. */
  datatype Completion = Replied(content: string) | Rejected(status: nat) | Broken(details: string)

  /** The HTTP answer of the chat endpoint. */
  datatype ChatReply =
    | MessageRequired                                  // 400
    | ClientNotFound                                   // 404
    | Failed(details: string)                          // 500
    | Answered(botResponse: string, sessionId: string) // 200

  /** The HTTP answer of the configuration endpoint. */
  datatype ConfigReply = ConfigJson(config: ClientConfig) | ConfigNotFound

  /** The outcome of one chat turn: the new conversation map, the answer, and
      the prompt list sent to the completion API (`None` when no call was made). */
  datatype Turn = Turn(conversations: map<string, seq<ChatMessage>>, reply: ChatReply, sent: Option<seq<ChatMessage>>)

  /** `clients[clientId] || clients.demo`, or nothing when the file cannot be read or parsed. */
  function GetClientConfig(file: ClientsFile, clientId: JsValue): (r: Option<ClientConfig>)
    ensures r.None? <==> file.Unreadable? || (!HasRecord(file, Interp(clientId)) && !HasRecord(file, DemoClient))
    ensures HasRecord(file, Interp(clientId)) ==> r == file.entries[Interp(clientId)]
    ensures !HasRecord(file, Interp(clientId)) && HasRecord(file, DemoClient) ==> r == file.entries[DemoClient]
  {
    match file
    case Unreadable => None
    case Parsed(entries) =>
      var key := Interp(clientId);
      if key in entries && entries[key].Some? then entries[key]
      else if DemoClient in entries then entries[DemoClient]
      else None
  }

  /** `GET /api/config/:clientId`: the whole record, its system prompt included, or 404. */
  function ConfigEndpoint(file: ClientsFile, clientId: string): (r: ConfigReply)
    ensures r.ConfigNotFound? <==> GetClientConfig(file, Str(clientId)).None?
    ensures r.ConfigJson? ==> Some(r.config) == GetClientConfig(file, Str(clientId))
    ensures r.ConfigJson? && HasRecord(file, clientId) ==> r.config.systemPrompt == file.entries[clientId].value.systemPrompt
  {
    match GetClientConfig(file, Str(clientId))
    case Some(config) => ConfigJson(config)
    case None => ConfigNotFound
  }

  /** `sessionId || `${clientId}-${Date.now()}``. */
  function SessionIdFor(sessionId: JsValue, clientId: JsValue, now: nat): (id: string)
    ensures Truthy(sessionId) ==> id == sessionId.s
    ensures !Truthy(sessionId) ==> id == Interp(clientId) + "-" + NatToString(now)
    ensures id != ""
  {
    if Truthy(sessionId) then sessionId.s else Interp(clientId) + "-" + NatToString(now)
  }

  /** Two ids minted for one client are equal exactly when they were minted
      at the same millisecond: a second session opened by the same client in
      the same millisecond shares the first one's history. */
  lemma MintedIdsCollide(clientId: JsValue, now1: nat, now2: nat)
    ensures SessionIdFor(Undefined, clientId, now1) == SessionIdFor(Undefined, clientId, now2) <==> now1 == now2
  {
    var prefix := Interp(clientId) + "-";
    var a, b := prefix + NatToString(now1), prefix + NatToString(now2);
    if a == b {
      assert a[|prefix|..] == NatToString(now1);
      assert b[|prefix|..] == NatToString(now2);
      NatToStringRoundTrip(now1);
      NatToStringRoundTrip(now2);
    }
  }

  /** The history stored under `id` before a turn adds to it. */
  function Prior(conversations: map<string, seq<ChatMessage>>, id: string): seq<ChatMessage> {
    if id in conversations then conversations[id] else []
  }

  /** `history.splice(0, history.length - n)` when the history is longer than `n`. */
  function KeepLast(h: seq<ChatMessage>, n: nat): (r: seq<ChatMessage>)
    ensures |r| == if |h| > n then n else |h|
    ensures r == h[|h| - |r|..]
  {
    if |h| > n then h[|h| - n..] else h
  }

  function UpstreamErrorDetails(status: nat): string {
    "OpenAI API error: " + NatToString(status)
  }

  /** A history the handler can produce: no system entries, and every
      assistant entry but a first one follows a user entry. */
  ghost predicate WellFormed(h: seq<ChatMessage>) {
    && (forall i :: 0 <= i < |h| ==> h[i].role != System)
    && (forall i, j :: 0 <= i && j == i + 1 && j < |h| && h[j].role == Assistant ==> h[i].role == User)
  }

  ghost predicate AllWellFormed(conversations: map<string, seq<ChatMessage>>) {
    forall id :: id in conversations ==> WellFormed(conversations[id])
  }

  /** The part of a turn after the guards: store the question under `id`,
      send the system prompt and the history, and record the answer. */
  function Exchange(convs: map<string, seq<ChatMessage>>, id: string, systemPrompt: string, message: string,
                    complete: seq<ChatMessage> -> Completion): Turn
  {
    var history := Prior(convs, id) + [ChatMessage(User, message)];
    var prompt := [ChatMessage(System, systemPrompt)] + history;
    match complete(prompt)
    case Replied(text) =>
      Turn(convs[id := KeepLast(history + [ChatMessage(Assistant, text)], HistoryLimit)], Answered(text, id), Some(prompt))
    case Rejected(status) => Turn(convs[id := history], Failed(UpstreamErrorDetails(status)), Some(prompt))
    case Broken(details) => Turn(convs[id := history], Failed(details), Some(prompt))
  }

  /** One `/api/chat` turn. */
  function ChatTurn(
    convs: map<string, seq<ChatMessage>>, body: ChatRequest, file: ClientsFile,
    apiKey: JsValue, now: nat, complete: seq<ChatMessage> -> Completion): Turn
  {
    if !Truthy(body.message) then Turn(convs, MessageRequired, None)
    else match GetClientConfig(file, body.clientId)
      case None => Turn(convs, ClientNotFound, None)
      case Some(config) =>
        if !Truthy(apiKey) then Turn(convs, Failed(MissingKeyDetails), None)
        else Exchange(convs, SessionIdFor(body.sessionId, body.clientId, now), config.systemPrompt, body.message.s, complete)
  }

  /** The guards of a turn, in the handler's order: a falsy message (400),
      then an unknown client (404), then a missing API key (500) are refused
      without touching the conversation map and without a completion call;
      a turn that passes them is an exchange under the chosen session id. */
  lemma ChatTurnGuards(
    convs: map<string, seq<ChatMessage>>, body: ChatRequest, file: ClientsFile,
    apiKey: JsValue, now: nat, complete: seq<ChatMessage> -> Completion)
    ensures var t := ChatTurn(convs, body, file, apiKey, now, complete);
      && (!Truthy(body.message) ==> t == Turn(convs, MessageRequired, None))
      && (Truthy(body.message) && GetClientConfig(file, body.clientId).None? ==> t == Turn(convs, ClientNotFound, None))
      && (Truthy(body.message) && GetClientConfig(file, body.clientId).Some? && !Truthy(apiKey) ==>
            t == Turn(convs, Failed(MissingKeyDetails), None))
      && (Truthy(body.message) && GetClientConfig(file, body.clientId).Some? && Truthy(apiKey) ==>
            t == Exchange(convs, SessionIdFor(body.sessionId, body.clientId, now),
                          GetClientConfig(file, body.clientId).value.systemPrompt, body.message.s, complete))
  {
  }

  /** An answered turn passed all three guards and was an exchange. */
  lemma AnsweredTurn(
    convs: map<string, seq<ChatMessage>>, body: ChatRequest, file: ClientsFile,
    apiKey: JsValue, now: nat, complete: seq<ChatMessage> -> Completion)
    requires ChatTurn(convs, body, file, apiKey, now, complete).reply.Answered?
    ensures Truthy(body.message) && GetClientConfig(file, body.clientId).Some? && Truthy(apiKey)
    ensures ChatTurn(convs, body, file, apiKey, now, complete)
      == Exchange(convs, SessionIdFor(body.sessionId, body.clientId, now),
                  GetClientConfig(file, body.clientId).value.systemPrompt, body.message.s, complete)
  {
  }

  /** A turn that passes the three guards is an exchange. */
  lemma PassingTurn(
    convs: map<string, seq<ChatMessage>>, body: ChatRequest, file: ClientsFile,
    apiKey: JsValue, now: nat, complete: seq<ChatMessage> -> Completion)
    requires Truthy(body.message) && GetClientConfig(file, body.clientId).Some? && Truthy(apiKey)
    ensures ChatTurn(convs, body, file, apiKey, now, complete)
      == Exchange(convs, SessionIdFor(body.sessionId, body.clientId, now),
                  GetClientConfig(file, body.clientId).value.systemPrompt, body.message.s, complete)
  {
  }

  /** The prompt list of an exchange is the system prompt, then the whole
      stored history in order, then the new question; exactly one call is made. */
  lemma ExchangePrompt(convs: map<string, seq<ChatMessage>>, id: string, systemPrompt: string, message: string,
                       complete: seq<ChatMessage> -> Completion)
    ensures var t := Exchange(convs, id, systemPrompt, message, complete);
      && t.sent == Some([ChatMessage(System, systemPrompt)] + Prior(convs, id) + [ChatMessage(User, message)])
      && |t.sent.value| == |Prior(convs, id)| + 2
      && t.sent.value[0] == ChatMessage(System, systemPrompt)
      && t.sent.value[1..] == Prior(convs, id) + [ChatMessage(User, message)]
      && t.sent.value[|t.sent.value| - 1] == ChatMessage(User, message)
  {
    var sys, q := ChatMessage(System, systemPrompt), ChatMessage(User, message);
    assert [sys] + (Prior(convs, id) + [q]) == [sys] + Prior(convs, id) + [q];
  }

  /** After an answered exchange the session's history ends with the question
      and the answer, holds at most 20 entries, and is a suffix of the old
      history plus both new entries (all of it when that fits); the session
      id is echoed and no other session changes. */
  lemma ExchangeAnswered(convs: map<string, seq<ChatMessage>>, id: string, systemPrompt: string, message: string,
                         complete: seq<ChatMessage> -> Completion)
    requires Exchange(convs, id, systemPrompt, message, complete).reply.Answered?
    ensures var t := Exchange(convs, id, systemPrompt, message, complete);
      var text := t.reply.botResponse;
      var full := Prior(convs, id) + [ChatMessage(User, message), ChatMessage(Assistant, text)];
      && complete(t.sent.value) == Replied(text)
      && t.reply.sessionId == id
      && id in t.conversations
      && t.conversations == convs[id := t.conversations[id]]
      && var h := t.conversations[id];
         && 2 <= |h| <= HistoryLimit
         && h[|h| - 2] == ChatMessage(User, message)
         && h[|h| - 1] == ChatMessage(Assistant, text)
         && |h| <= |full| && h == full[|full| - |h|..]
         && (|full| <= HistoryLimit ==> h == full)
  {
    var t := Exchange(convs, id, systemPrompt, message, complete);
    var full := Prior(convs, id) + [ChatMessage(User, message), ChatMessage(Assistant, t.reply.botResponse)];
    assert Prior(convs, id) + [ChatMessage(User, message)] + [ChatMessage(Assistant, t.reply.botResponse)] == full;
  }

  /** When the completion call fails, the question stays in the history with
      no answer after it and nothing is trimmed, so a history can grow past
      20 entries through failed turns; the error details name the cause. */
  lemma ExchangeFailed(convs: map<string, seq<ChatMessage>>, id: string, systemPrompt: string, message: string,
                       complete: seq<ChatMessage> -> Completion)
    requires !Exchange(convs, id, systemPrompt, message, complete).reply.Answered?
    ensures var t := Exchange(convs, id, systemPrompt, message, complete);
      && t.conversations == convs[id := Prior(convs, id) + [ChatMessage(User, message)]]
      && |t.conversations[id]| == |Prior(convs, id)| + 1
      && (complete(t.sent.value).Rejected? ==> t.reply == Failed(UpstreamErrorDetails(complete(t.sent.value).status)))
      && (complete(t.sent.value).Broken? ==> t.reply == Failed(complete(t.sent.value).details))
  {
  }

  lemma {:induction false} WellFormedSuffix(h: seq<ChatMessage>, d: nat)
    requires WellFormed(h) && d <= |h|
    ensures WellFormed(h[d..])
  {
    var s := h[d..];
    forall i, j | 0 <= i && j == i + 1 && j < |s| && s[j].role == Assistant
      ensures s[i].role == User
    {
      assert s[i] == h[d + i] && s[j] == h[d + j];
    }
  }

  lemma WellFormedAsk(h: seq<ChatMessage>, message: string)
    requires WellFormed(h)
    ensures WellFormed(h + [ChatMessage(User, message)])
  {
    var h' := h + [ChatMessage(User, message)];
    assert forall i :: 0 <= i < |h| ==> h'[i] == h[i];
  }

  lemma WellFormedAnswer(h: seq<ChatMessage>, text: string)
    requires WellFormed(h) && |h| > 0 && h[|h| - 1].role == User
    ensures WellFormed(h + [ChatMessage(Assistant, text)])
  {
    var h' := h + [ChatMessage(Assistant, text)];
    assert forall i :: 0 <= i < |h| ==> h'[i] == h[i];
  }

  lemma AllWellFormedUpdate(convs: map<string, seq<ChatMessage>>, id: string, h: seq<ChatMessage>)
    requires AllWellFormed(convs) && WellFormed(h)
    ensures AllWellFormed(convs[id := h])
  {
  }

  lemma ExchangeKeepsWellFormed(convs: map<string, seq<ChatMessage>>, id: string, systemPrompt: string, message: string,
                                complete: seq<ChatMessage> -> Completion)
    requires AllWellFormed(convs)
    ensures AllWellFormed(Exchange(convs, id, systemPrompt, message, complete).conversations)
  {
    var asked := Prior(convs, id) + [ChatMessage(User, message)];
    var prompt := [ChatMessage(System, systemPrompt)] + asked;
    assert WellFormed(Prior(convs, id));
    WellFormedAsk(Prior(convs, id), message);
    match complete(prompt)
    case Replied(text) =>
      var full := asked + [ChatMessage(Assistant, text)];
      WellFormedAnswer(asked, text);
      var kept := KeepLast(full, HistoryLimit);
      WellFormedSuffix(full, |full| - |kept|);
      AllWellFormedUpdate(convs, id, kept);
    case Rejected(_) =>
      AllWellFormedUpdate(convs, id, asked);
    case Broken(_) =>
      AllWellFormedUpdate(convs, id, asked);
  }

  /** Every turn keeps every stored history well formed: a reply is never
      stored without the question it answers just before it, except where
      trimming cut that question off. */
  lemma ChatTurnKeepsWellFormed(
    convs: map<string, seq<ChatMessage>>, body: ChatRequest, file: ClientsFile,
    apiKey: JsValue, now: nat, complete: seq<ChatMessage> -> Completion)
    requires AllWellFormed(convs)
    ensures AllWellFormed(ChatTurn(convs, body, file, apiKey, now, complete).conversations)
  {
    if Truthy(body.message) && GetClientConfig(file, body.clientId).Some? && Truthy(apiKey) {
      ExchangeKeepsWellFormed(convs, SessionIdFor(body.sessionId, body.clientId, now),
        GetClientConfig(file, body.clientId).value.systemPrompt, body.message.s, complete);
    }
  }

  /** An exchange on a session whose history ends with a question and its
      answer sends that question and answer just before the new question. */
  lemma ExchangeContinues(convs: map<string, seq<ChatMessage>>, id: string, systemPrompt: string,
                          first: string, answer: string, second: string, complete: seq<ChatMessage> -> Completion)
    requires id in convs && |convs[id]| >= 2
    requires convs[id][|convs[id]| - 2] == ChatMessage(User, first)
    requires convs[id][|convs[id]| - 1] == ChatMessage(Assistant, answer)
    ensures Exchange(convs, id, systemPrompt, second, complete).sent
      == Some([ChatMessage(System, systemPrompt)] + convs[id] + [ChatMessage(User, second)])
    ensures var p := Exchange(convs, id, systemPrompt, second, complete).sent.value;
      && |p| >= 4
      && p[|p| - 3] == ChatMessage(User, first)
      && p[|p| - 2] == ChatMessage(Assistant, answer)
  {
    ExchangePrompt(convs, id, systemPrompt, second, complete);
    Framed(ChatMessage(System, systemPrompt), convs[id], ChatMessage(User, second));
  }

  lemma Framed(a: ChatMessage, h: seq<ChatMessage>, b: ChatMessage)
    requires |h| >= 2
    ensures |[a] + h + [b]| == |h| + 2
    ensures ([a] + h + [b])[|h| - 1] == h[|h| - 2] && ([a] + h + [b])[|h|] == h[|h| - 1]
  {
  }

  /** Reusing the session id a successful turn returned continues that
      conversation: the next prompt holds the client's system prompt, the
      stored history (ending with the previous question and answer), and the
      new question. */
  lemma SessionContinues(
    convs: map<string, seq<ChatMessage>>, first: ChatRequest, second: ChatRequest, file: ClientsFile,
    apiKey: JsValue, now1: nat, now2: nat, complete: seq<ChatMessage> -> Completion)
    requires ChatTurn(convs, first, file, apiKey, now1, complete).reply.Answered?
    requires second.sessionId == Str(ChatTurn(convs, first, file, apiKey, now1, complete).reply.sessionId)
    requires second.clientId == first.clientId && Truthy(second.message)
    ensures
      var t1 := ChatTurn(convs, first, file, apiKey, now1, complete);
      var p := ChatTurn(t1.conversations, second, file, apiKey, now2, complete).sent;
      && p == Some([ChatMessage(System, GetClientConfig(file, first.clientId).value.systemPrompt)]
                   + t1.conversations[t1.reply.sessionId] + [ChatMessage(User, second.message.s)])
      && |p.value| >= 4
      && p.value[|p.value| - 3] == ChatMessage(User, first.message.s)
      && p.value[|p.value| - 2] == ChatMessage(Assistant, t1.reply.botResponse)
  {
    AnsweredTurn(convs, first, file, apiKey, now1, complete);
    var id := SessionIdFor(first.sessionId, first.clientId, now1);
    var sp := GetClientConfig(file, first.clientId).value.systemPrompt;
    var t1 := Exchange(convs, id, sp, first.message.s, complete);
    ExchangeAnswered(convs, id, sp, first.message.s, complete);
    PassingTurn(t1.conversations, second, file, apiKey, now2, complete);
    ExchangeTwice(convs, id, sp, first.message.s, second.message.s, complete);
  }

  /** Two exchanges in a row on one session: the second prompt ends with the
      first question, its answer and the second question. */
  lemma ExchangeTwice(convs: map<string, seq<ChatMessage>>, id: string, systemPrompt: string,
                      first: string, second: string, complete: seq<ChatMessage> -> Completion)
    requires Exchange(convs, id, systemPrompt, first, complete).reply.Answered?
    ensures var t1 := Exchange(convs, id, systemPrompt, first, complete);
      var p := Exchange(t1.conversations, id, systemPrompt, second, complete).sent;
      && id in t1.conversations
      && p == Some([ChatMessage(System, systemPrompt)] + t1.conversations[id] + [ChatMessage(User, second)])
      && |p.value| >= 4
      && p.value[|p.value| - 3] == ChatMessage(User, first)
      && p.value[|p.value| - 2] == ChatMessage(Assistant, t1.reply.botResponse)
  {
    var t1 := Exchange(convs, id, systemPrompt, first, complete);
    ExchangeAnswered(convs, id, systemPrompt, first, complete);
    ExchangeContinues(t1.conversations, id, systemPrompt, first, t1.reply.botResponse, second, complete);
  }

  lemma FourEntries(a: ChatMessage, b: ChatMessage, c: ChatMessage, d: ChatMessage)
    ensures [a] + [b, c] + [d] == [a, b, c, d]
  {
  }

  /** The example of a fresh session: after one answered turn, the second
      turn's prompt list has exactly four entries: system prompt, first
      question, first answer, second question. */
  lemma FreshSessionSecondPrompt(
    convs: map<string, seq<ChatMessage>>, first: ChatRequest, second: ChatRequest, file: ClientsFile,
    apiKey: JsValue, now1: nat, now2: nat, complete: seq<ChatMessage> -> Completion)
    requires !Truthy(first.sessionId)
    requires SessionIdFor(first.sessionId, first.clientId, now1) !in convs
    requires ChatTurn(convs, first, file, apiKey, now1, complete).reply.Answered?
    requires second.sessionId == Str(ChatTurn(convs, first, file, apiKey, now1, complete).reply.sessionId)
    requires second.clientId == first.clientId && Truthy(second.message)
    ensures
      var t1 := ChatTurn(convs, first, file, apiKey, now1, complete);
      var t2 := ChatTurn(t1.conversations, second, file, apiKey, now2, complete);
      t2.sent == Some([
        ChatMessage(System, GetClientConfig(file, first.clientId).value.systemPrompt),
        ChatMessage(User, first.message.s),
        ChatMessage(Assistant, t1.reply.botResponse),
        ChatMessage(User, second.message.s)])
  {
    ChatTurnGuards(convs, first, file, apiKey, now1, complete);
    var t1 := ChatTurn(convs, first, file, apiKey, now1, complete);
    var id := SessionIdFor(first.sessionId, first.clientId, now1);
    var sp := GetClientConfig(file, first.clientId).value.systemPrompt;
    assert t1 == Exchange(convs, id, sp, first.message.s, complete);
    ExchangeAnswered(convs, id, sp, first.message.s, complete);
    assert Prior(convs, id) == [];
    var u1, a1 := ChatMessage(User, first.message.s), ChatMessage(Assistant, t1.reply.botResponse);
    assert t1.conversations[id] == [u1, a1];
    SessionContinues(convs, first, second, file, apiKey, now1, now2, complete);
    var sys, u2 := ChatMessage(System, sp), ChatMessage(User, second.message.s);
    var p := ChatTurn(t1.conversations, second, file, apiKey, now2, complete).sent;
    assert p == Some([sys] + [u1, a1] + [u2]);
    FourEntries(sys, u1, a1, u2);
  }

  /** The process-wide conversation store of server.js (`const conversations = new Map()`). */
  class ChatService {
    var conversations: map<string, seq<ChatMessage>>

    ghost predicate Valid()
      reads this
    {
      AllWellFormed(conversations)
    }

    constructor ()
      ensures Valid() && conversations == map[]
    {
      conversations := map[];
    }

    /** `POST /api/chat`, step by step as the handler runs it. */
    method HandleChat(body: ChatRequest, file: ClientsFile, apiKey: JsValue, now: nat,
                      complete: seq<ChatMessage> -> Completion) returns (reply: ChatReply)
      requires Valid()
      modifies this
      ensures Valid()
      ensures reply == ChatTurn(old(conversations), body, file, apiKey, now, complete).reply
      ensures conversations == ChatTurn(old(conversations), body, file, apiKey, now, complete).conversations
    {
      ghost var before := conversations;
      ghost var expected := ChatTurn(before, body, file, apiKey, now, complete);
      ChatTurnGuards(before, body, file, apiKey, now, complete);
      if !Truthy(body.message) {
        reply := MessageRequired;
      } else {
        var config := GetClientConfig(file, body.clientId);
        if config.None? {
          reply := ClientNotFound;
        } else if !Truthy(apiKey) {
          reply := Failed(MissingKeyDetails);
        } else {
          var id := SessionIdFor(body.sessionId, body.clientId, now);
          assert expected == Exchange(before, id, config.value.systemPrompt, body.message.s, complete);
          if id !in conversations {
            conversations := conversations[id := []];
          }
          var history := conversations[id];
          history := history + [ChatMessage(User, body.message.s)];
          conversations := conversations[id := history];
          assert history == Prior(before, id) + [ChatMessage(User, body.message.s)];
          assert conversations == before[id := history];
          var messages := [ChatMessage(System, config.value.systemPrompt)] + history;
          var outcome := complete(messages);
          match outcome {
            case Rejected(status) =>
              reply := Failed(UpstreamErrorDetails(status));
            case Broken(details) =>
              reply := Failed(details);
            case Replied(text) =>
              history := history + [ChatMessage(Assistant, text)];
              if |history| > HistoryLimit {
                history := history[|history| - HistoryLimit..];
              }
              conversations := conversations[id := history];
              reply := Answered(text, id);
          }
        }
      }
      assert reply == expected.reply && conversations == expected.conversations;
      ChatTurnKeepsWellFormed(before, body, file, apiKey, now, complete);
    }
  }
}
