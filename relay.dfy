/** The chat relay: the process-wide conversation store, the response resolver
    (`generateResponse` in server.js) and the request guard of `POST /api/chat`. */
module Relay {
  import opened Text
  import opened History
  import opened Fallback

  datatype Option<T> = None | Some(value: T)

  /** What the external generation call yields: the generated text, or any
      failure (network error, error status, unexpected response shape). */
  datatype ApiResult = Success(text: string) | Failure

  /** The configuration value that counts as "no key configured". */
  const PlaceholderKey := "your_gemini_api_key_here"

  const Apology := "I apologize, but I'm experiencing some technical difficulties. Please try again in a moment."

  const ValidationError := "Message and conversationId are required"

  /** The persona instructions put in front of every prompt (only their opening sentence). */
  const PersonaPrompt := "You are RexBot, a friendly and efficient AI receptionist assistant."

  /** The live path is taken only for a key that is set, non-empty and not the placeholder. */
  function HasCredential(key: Option<string>): (r: bool)
    ensures !r <==> key == None || key == Some("") || key == Some(PlaceholderKey)
  {
    match key
    case None => false
    case Some(k) => k != "" && k != PlaceholderKey
  }

  function RoleName(r: Role): string {
    match r
    case User => "user"
    case Assistant => "assistant"
  }

  /** One transcript line: the role name, a colon and a space, then the content. */
  function RenderTurn(t: Turn): (line: string)
    ensures var head := RoleName(t.role) + ": ";
      |line| == |head| + |t.content| && line[..|head|] == head && line[|head|..] == t.content
  {
    RoleName(t.role) + ": " + t.content
  }

  function RenderLines(h: seq<Turn>): (lines: seq<string>)
    ensures |lines| == |h|
    ensures forall i :: 0 <= i < |h| ==> lines[i] == RenderTurn(h[i])
  {
    if h == [] then [] else RenderLines(h[..|h| - 1]) + [RenderTurn(h[|h| - 1])]
  }

  /** The history rendered one turn per line, in order: empty for an empty
      history, starting with the oldest turn's line and ending with the newest's. */
  function RenderHistory(h: seq<Turn>): (text: string)
    ensures h == [] ==> text == ""
    ensures h != [] ==> var first := RenderTurn(h[0]);
              |first| <= |text| && text[..|first|] == first
    ensures h != [] ==> var last := RenderTurn(h[|h| - 1]);
              |last| <= |text| && text[|text| - |last|..] == last
  {
    Join(RenderLines(h), "\n")
  }

  /** Rendering a longer history adds exactly one line for the new turn at the end. */
  lemma RenderHistorySnoc(h: seq<Turn>, t: Turn)
    requires h != []
    ensures RenderHistory(h + [t]) == RenderHistory(h) + "\n" + RenderTurn(t)
  {
    assert RenderLines(h + [t]) == RenderLines(h) + [RenderTurn(t)];
    JoinSnoc(RenderLines(h), RenderTurn(t), "\n");
  }

  const PromptHead := PersonaPrompt + "\n\nConversation history:\n"

  function PromptTail(message: string): string { "\n\nUser: " + message }

  /** The single text part sent to the generation service. */
  function RenderPrompt(h: seq<Turn>, message: string): (p: string)
    ensures |p| == |PromptHead| + |RenderHistory(h)| + |PromptTail(message)|
    ensures p[..|PromptHead|] == PromptHead
    ensures p[|PromptHead|..|p| - |PromptTail(message)|] == RenderHistory(h)
    ensures p[|p| - |PromptTail(message)|..] == PromptTail(message)
  {
    PromptHead + RenderHistory(h) + PromptTail(message)
  }

  /** The reply the resolver returns for `message` against history `h`. */
  function ResolvedReply(h: seq<Turn>, message: string, key: Option<string>, pick: nat,
                         api: string -> ApiResult): (reply: string)
    requires pick < |GreetingPool|
    ensures !HasCredential(key) ==> reply == FallbackReply(message, pick)
    ensures HasCredential(key) && api(RenderPrompt(h, message)).Failure? ==> reply == Apology
    ensures HasCredential(key) && api(RenderPrompt(h, message)).Success? ==>
              reply == api(RenderPrompt(h, message)).text
  {
    if !HasCredential(key) then FallbackReply(message, pick)
    else match api(RenderPrompt(h, message))
      case Success(text) => text
      case Failure => Apology
  }

  /** Whether the resolver records the exchange: always on the fallback path,
      and on the live path only when the call succeeded. */
  predicate Records(h: seq<Turn>, message: string, key: Option<string>, api: string -> ApiResult)
    ensures !HasCredential(key) ==> Records(h, message, key, api)
    ensures !Records(h, message, key, api) <==> HasCredential(key) && api(RenderPrompt(h, message)).Failure?
  {
    !HasCredential(key) || api(RenderPrompt(h, message)).Success?
  }

  /** The request body fields; `None` is an absent or null field. */
  datatype ChatRequest = ChatRequest(message: Option<string>, conversationId: Option<string>)

  datatype ChatResponse =
    | BadRequest(error: string)
    | Ok(response: string, conversationId: string)

  /** A field passes the guard when it is present and not the empty string. */
  predicate Present(f: Option<string>)
    ensures !Present(f) <==> f == None || f == Some("")
  {
    f.Some? && f.value != ""
  }

  /** The in-memory store: conversation id to history. */
  class ConversationStore {
    var conversations: map<string, seq<Turn>>

    /** Every stored history has even length and at most ten turns. */
    ghost predicate Valid()
      reads this
    {
      forall id :: id in conversations ==> Bounded(conversations[id])
    }

    constructor ()
      ensures conversations == map[] && Valid()
    {
      conversations := map[];
    }

    /** The stored history, or the empty history for an unknown id. */
    function Get(id: string): (h: seq<Turn>)
      reads this
      ensures id !in conversations ==> h == []
      ensures id in conversations ==> h == conversations[id]
      ensures Valid() ==> Bounded(h)
    {
      if id in conversations then conversations[id] else []
    }

    /** Push the exchange onto the history for `id`, evict once, store it back. */
    method Append(id: string, e: Exchange)
      requires Valid()
      modifies this
      ensures conversations == old(conversations)[id := Appended(old(Get(id)), e)]
      ensures forall other :: other != id ==> Get(other) == old(Get(other))
      ensures Get(id)[|Get(id)| - 2..] == TurnsOf(e)
      ensures Valid()
    {
      var conversation := Get(id);
      ghost var before := conversation;
      conversation := conversation + [Turn(User, e.message), Turn(Assistant, e.reply)];
      if |conversation| > MaxTurns {
        conversation := conversation[2..];
      }
      assert conversation == Appended(before, e) && Bounded(conversation);
      conversations := conversations[id := conversation];
    }

    /** `generateResponse`: compute the reply and record the exchange. `sent` is the
        prompt passed to the generation service, `None` when no call was made. */
    method Resolve(message: string, id: string, key: Option<string>, pick: nat, api: string -> ApiResult)
      returns (reply: string, sent: Option<string>)
      requires Valid()
      requires pick < |GreetingPool|
      modifies this
      ensures sent == if HasCredential(key) then Some(RenderPrompt(old(Get(id)), message)) else None
      ensures reply == ResolvedReply(old(Get(id)), message, key, pick, api)
      ensures Records(old(Get(id)), message, key, api) ==>
                conversations == old(conversations)[id := Appended(old(Get(id)), Exchange(message, reply))]
      ensures !Records(old(Get(id)), message, key, api) ==> conversations == old(conversations)
      ensures forall other :: other != id ==> Get(other) == old(Get(other))
      ensures Valid() && Bounded(Get(id))
    {
      var conversation := Get(id);
      if !HasCredential(key) {
        reply := FallbackReply(message, pick);
        sent := None;
        Append(id, Exchange(message, reply));
        return;
      }
      var prompt := RenderPrompt(conversation, message);
      sent := Some(prompt);
      var outcome := api(prompt);
      match outcome {
        case Success(text) =>
          reply := text;
          Append(id, Exchange(message, reply));
        case Failure =>
          reply := Apology;
      }
    }

    /** `POST /api/chat`: reject a request without both fields, else resolve it. */
    method HandleChat(req: ChatRequest, key: Option<string>, pick: nat, api: string -> ApiResult)
      returns (resp: ChatResponse, sent: Option<string>)
      requires Valid()
      requires pick < |GreetingPool|
      modifies this
      ensures !(Present(req.message) && Present(req.conversationId)) ==>
                resp == BadRequest(ValidationError) && sent == None && conversations == old(conversations)
      ensures Present(req.message) && Present(req.conversationId) ==>
                var message, id := req.message.value, req.conversationId.value;
                var reply := ResolvedReply(old(Get(id)), message, key, pick, api);
                && resp == Ok(reply, id)
                && sent == (if HasCredential(key) then Some(RenderPrompt(old(Get(id)), message)) else None)
                && conversations == if Records(old(Get(id)), message, key, api)
                                    then old(conversations)[id := Appended(old(Get(id)), Exchange(message, reply))]
                                    else old(conversations)
      ensures Valid()
    {
      if !Present(req.message) || !Present(req.conversationId) {
        return BadRequest(ValidationError), None;
      }
      var reply;
      reply, sent := Resolve(req.message.value, req.conversationId.value, key, pick, api);
      resp := Ok(reply, req.conversationId.value);
    }
  }

  /** A fresh store in demo mode after one request that asks for a meeting. */
  method OpenConversation(first: string) returns (store: ConversationStore)
    requires first != "" && Contains(first, "meeting")
    ensures fresh(store) && store.Valid()
    ensures store.conversations == map["c1" := [Turn(User, first), Turn(Assistant, SchedulingReply)]]
  {
    LowerAsciiFixesLower("meeting");
    SchedulingWins(first, "meeting", 0);
    store := new ConversationStore();
    var reply, sent := store.HandleChat(ChatRequest(Some(first), Some("c1")), None, 0, (prompt: string) => Failure);
  }

  /** A fresh store in demo mode: a request that asks for a meeting, then "hello".
      The history holds both exchanges, oldest first. */
  method FollowUpScenario(first: string) returns (h: seq<Turn>)
    requires first != "" && Contains(first, "meeting")
    ensures h == [Turn(User, first), Turn(Assistant, SchedulingReply),
                  Turn(User, "hello"), Turn(Assistant, GreetingPool[0])]
  {
    var store := OpenConversation(first);
    var t1 := store.Get("c1");
    HelloGetsGreeting(0);
    var reply, sent := store.HandleChat(ChatRequest(Some("hello"), Some("c1")), None, 0, (prompt: string) => Failure);
    assert store.Get("c1") == Appended(t1, Exchange("hello", GreetingPool[0]));
    h := store.Get("c1");
  }
}
