/**
 * The chat screen (src/components/MainContent.jsx): `handleSendMessage`,
 * which guards a send, opens a chat when none is active, stores the user's
 * message, builds the completion request, and stores the reply or the
 * error; and the `currentModel` and `isGptOss` lookups.
 *
 * Firestore writes are recorded, in order, in the `writes` field;
 * `createNewChat` returns the id passed as `newChatId`, and
 * `getGroqCompletion` is the function `complete`, whose failure carries the
 * thrown error's message.
 */
module MainContent {
  import opened Wrappers
  import opened Text

  /** An entry of the model list. */
  datatype ModelInfo = ModelInfo(id: int, name: string, contextWindow: nat)

  /** A stored chat message; `reasoning` is absent unless the model returned one. */
  datatype Message = Message(role: string, content: string, reasoning: Option<string>)

  /** A message as sent to the completion API: only its role and content. */
  datatype ApiMessage = ApiMessage(role: string, content: string)

  /** `{ type: 'browser_search' }`. */
  datatype Tool = Tool(kind: string)

  /** The request object; an absent field is `None`. */
  datatype Payload = Payload(model: string, messages: seq<ApiMessage>, toolChoice: Option<string>,
                             tools: Option<seq<Tool>>, reasoningEffort: Option<string>)

  /** `completion.choices[0]?.message`, when there is one. */
  datatype Reply = Reply(content: Option<string>, reasoning: Option<string>)

  /** A Firestore call the send makes. */
  datatype Write =
    | CreateChat(uid: string)
    | SetTitle(chatId: string, title: string)
    | AddMessage(chatId: string, message: Message)

  const NoKeyAlert: string := "Please set your Groq API key in the settings first."
  const NoReply: string := "Sorry, I could not generate a response."
  const ErrorPrefix: string := "An error occurred: "
  const CompoundModel: string := "compound-beta"
  const GptOssTag: string := "gpt-oss"
  const BrowserSearch: Tool := Tool("browser_search")

  /** A value JavaScript treats as true: present and not the empty string. */
  predicate Filled(s: Option<string>) {
    s.Some? && s.value != ""
  }

  // ----- the model lookups -----

  /** `models.find(m => m.name === name)`. */
  function FindModel(models: seq<ModelInfo>, name: string): Option<ModelInfo>
    decreases |models|
  {
    if models == [] then None
    else if models[0].name == name then Some(models[0])
    else FindModel(models[1..], name)
  }

  /** `currentModel`: the selected model, else the first (none for an empty list). */
  function CurrentModel(models: seq<ModelInfo>, selected: string): Option<ModelInfo> {
    if FindModel(models, selected).Some? then FindModel(models, selected)
    else if models == [] then None
    else Some(models[0])
  }

  /** `isGptOss`. */
  predicate IsGptOss(selected: string) {
    Contains(selected, GptOssTag)
  }

  /** The first model with the name is found; with none the search fails. */
  lemma {:induction false} FindModelMeaning(models: seq<ModelInfo>, name: string)
    ensures FindModel(models, name).Some? <==> exists i :: 0 <= i < |models| && models[i].name == name
    ensures FindModel(models, name).Some? ==>
      exists i :: 0 <= i < |models| && FindModel(models, name) == Some(models[i]) && models[i].name == name &&
                  forall j :: 0 <= j < i ==> models[j].name != name
    decreases |models|
  {
    if models != [] && models[0].name != name {
      FindModelMeaning(models[1..], name);
      if FindModel(models, name).Some? {
        var i :| 0 <= i < |models[1..]| && FindModel(models[1..], name) == Some(models[1..][i]) &&
                 models[1..][i].name == name && forall j :: 0 <= j < i ==> models[1..][j].name != name;
        assert forall j :: 1 <= j < i + 1 ==> models[j].name == models[1..][j - 1].name;
      }
      assert forall i :: 1 <= i < |models| ==> models[i] == models[1..][i - 1];
    } else if models != [] {
      assert FindModel(models, name) == Some(models[0]);
    }
  }

  /** The current model is a model of the list: the selected one when listed, else the first. */
  lemma CurrentModelMeaning(models: seq<ModelInfo>, selected: string)
    ensures CurrentModel(models, selected).Some? <==> models != []
    ensures (exists i :: 0 <= i < |models| && models[i].name == selected) ==>
              CurrentModel(models, selected).Some? && CurrentModel(models, selected).value.name == selected
    ensures (forall i :: 0 <= i < |models| ==> models[i].name != selected) && models != [] ==>
              CurrentModel(models, selected) == Some(models[0])
  {
    FindModelMeaning(models, selected);
  }

  /** `isGptOss` holds exactly when `gpt-oss` occurs in the selected name. */
  lemma GptOssMeaning(selected: string)
    ensures IsGptOss(selected) <==> exists i: nat :: MatchesAt(selected, GptOssTag, i, false)
  {
    IndexOfMeaning(selected, GptOssTag, 0, false);
  }

  // ----- the pieces of a send -----

  /** `content.split(' ').slice(0, 4).join(' ')`: the title of a new chat. */
  function Title(content: string): string {
    var words := Split(content, ' ');
    Join(words[..if |words| < 4 then |words| else 4], " ")
  }

  /** `[...messages, userMessage].map(({ role, content }) => ({ role, content }))`. */
  function RequestMessages(history: seq<Message>): seq<ApiMessage> {
    seq(|history|, i requires 0 <= i < |history| => ApiMessage(history[i].role, history[i].content))
  }

  /** The request, each field given by the conditions under which it is set. */
  function PayloadFor(selected: string, messages: seq<ApiMessage>, webSearch: bool, reasoning: bool): Payload {
    var oss := IsGptOss(selected);
    Payload(if webSearch && !oss then CompoundModel else selected,
            messages,
            if webSearch && oss then Some("required") else None,
            if webSearch && oss then Some([BrowserSearch]) else None,
            if reasoning && oss then Some("high") else if webSearch && oss then Some("low") else None)
  }

  /** The payload built by successive assignments, as the handler does. */
  method BuildPayload(selected: string, messages: seq<ApiMessage>, webSearch: bool, reasoning: bool)
    returns (p: Payload)
    ensures p == PayloadFor(selected, messages, webSearch, reasoning)
  {
    var oss := IsGptOss(selected);
    p := Payload(selected, messages, None, None, None);
    if webSearch {
      if oss {
        p := p.(toolChoice := Some("required"));
        p := p.(tools := Some([BrowserSearch]));
        if !reasoning {
          p := p.(reasoningEffort := Some("low"));
        }
      } else {
        p := p.(model := CompoundModel);
      }
    }
    if reasoning && oss {
      p := p.(reasoningEffort := Some("high"));
    }
  }

  /** The assistant message stored for the outcome of the completion call. */
  function AssistantMessage(reply: Result<Option<Reply>>): Message {
    match reply
    case Failure(message) => Message("assistant", ErrorPrefix + message, None)
    case Success(choice) =>
      Message("assistant",
              if choice.Some? && Filled(choice.value.content) then choice.value.content.value else NoReply,
              if choice.Some? && Filled(choice.value.reasoning) then choice.value.reasoning else None)
  }

  /** The chat a send goes to: the active one, or the one it creates. */
  function ChatIdFor(active: Option<string>, newChatId: string): string {
    if Filled(active) then active.value else newChatId
  }

  /** The Firestore calls of a send that passed the guards, in order. */
  function SendWrites(uid: string, active: Option<string>, newChatId: string, content: string,
                      reply: Result<Option<Reply>>): seq<Write>
  {
    var chatId := ChatIdFor(active, newChatId);
    var opening := if Filled(active) then [] else [CreateChat(uid), SetTitle(newChatId, Title(content))];
    opening + [AddMessage(chatId, Message("user", content, None)), AddMessage(chatId, AssistantMessage(reply))]
  }

  /** The text sent: the argument when one is given, else the input box. */
  function ContentOf(messageContent: Option<string>, input: string): string {
    if messageContent.Some? then messageContent.value else input
  }

  /** The first guard: no user, a blank message, or a send in flight; the send is silently dropped. */
  predicate Ignored(user: Option<string>, content: string, isLoading: bool) {
    user.None? || Trim(content) == [] || isLoading
  }

  /** The state of the chat screen that a send changes. */
  class ChatScreen {
    var messages: seq<Message>
    var input: string
    var isLoading: bool
    var activeChatId: Option<string>
    var writes: seq<Write>

    constructor (activeChatId: Option<string>)
      ensures this.messages == [] && input == "" && !isLoading && this.activeChatId == activeChatId && writes == []
    {
      this.messages := [];
      this.input := "";
      this.isLoading := false;
      this.activeChatId := activeChatId;
      this.writes := [];
    }

    /** `handleSendMessage`; returns the alert shown, if any, and the request sent, if any. */
    method HandleSendMessage(messageContent: Option<string>, user: Option<string>, apiKey: Option<string>,
                             selected: string, webSearch: bool, reasoning: bool, newChatId: string,
                             complete: (string, Payload) -> Result<Option<Reply>>)
      returns (alert: Option<string>, request: Option<Payload>)
      modifies this
      ensures Ignored(user, ContentOf(messageContent, old(input)), old(isLoading)) ==>
        alert.None? && request.None? && unchanged(this)
      ensures !Ignored(user, ContentOf(messageContent, old(input)), old(isLoading)) && !Filled(apiKey) ==>
        alert == Some(NoKeyAlert) && request.None? && unchanged(this)
      ensures !Ignored(user, ContentOf(messageContent, old(input)), old(isLoading)) && Filled(apiKey) ==>
        var content := ContentOf(messageContent, old(input));
        var userMessage := Message("user", content, None);
        alert.None? && input == "" && !isLoading &&
        activeChatId == Some(ChatIdFor(old(activeChatId), newChatId)) &&
        messages == (if Filled(old(activeChatId)) then old(messages) else [userMessage]) &&
        request == Some(PayloadFor(selected, RequestMessages(old(messages) + [userMessage]), webSearch, reasoning)) &&
        writes == old(writes) + SendWrites(user.value, old(activeChatId), newChatId, content,
                                           complete(apiKey.value, request.value))
    {
      var content := ContentOf(messageContent, input);
      if user.None? || Trim(content) == [] || isLoading {
        return None, None;
      }
      if !Filled(apiKey) {
        return Some(NoKeyAlert), None;
      }
      isLoading := true;
      input := "";
      var userMessage := Message("user", content, None);
      // the handler reads the `messages` of the render it belongs to
      var history := messages;
      var opening: seq<Write> := [];
      if !Filled(activeChatId) {
        messages := [userMessage];
        opening := [CreateChat(user.value), SetTitle(newChatId, Title(content))];
        activeChatId := Some(newChatId);
      }
      var chatId := activeChatId.value;
      writes := writes + opening + [AddMessage(chatId, userMessage)];
      var p := BuildPayload(selected, RequestMessages(history + [userMessage]), webSearch, reasoning);
      var reply := complete(apiKey.value, p);
      var stored := [AddMessage(chatId, userMessage), AddMessage(chatId, AssistantMessage(reply))];
      assert SendWrites(user.value, old(activeChatId), newChatId, content, reply) == opening + stored;
      writes := writes + [AddMessage(chatId, AssistantMessage(reply))];
      assert writes == old(writes) + (opening + stored);
      isLoading := false;
      alert, request := None, Some(p);
    }
  }

  // ----- properties -----

  /**
   * Web search on a gpt-oss model requires the browser tool; on any other
   * model it switches to `compound-beta` with no tools. The effort is high
   * exactly with reasoning on a gpt-oss model, low exactly with web search
   * and no reasoning on one, and absent otherwise.
   */
  lemma PayloadRules(selected: string, messages: seq<ApiMessage>, webSearch: bool, reasoning: bool)
    ensures var p := PayloadFor(selected, messages, webSearch, reasoning);
      p.messages == messages &&
      (p.tools.Some? <==> webSearch && IsGptOss(selected)) &&
      (p.tools.Some? ==> p.tools.value == [BrowserSearch] && p.toolChoice == Some("required")) &&
      (p.toolChoice.Some? <==> p.tools.Some?) &&
      (p.model != selected ==> p.model == CompoundModel && webSearch && !IsGptOss(selected)) &&
      (webSearch && !IsGptOss(selected) ==> p.model == CompoundModel) &&
      (p.reasoningEffort == Some("high") <==> reasoning && IsGptOss(selected)) &&
      (p.reasoningEffort == Some("low") <==> webSearch && IsGptOss(selected) && !reasoning) &&
      (p.reasoningEffort.None? <==> !IsGptOss(selected) || (!reasoning && !webSearch))
  {
  }

  /** The request carries every earlier message and then the new one, stripped to role and content. */
  lemma RequestKeepsHistory(history: seq<Message>, content: string)
    ensures var r := RequestMessages(history + [Message("user", content, None)]);
      |r| == |history| + 1 && r[|history|] == ApiMessage("user", content) &&
      forall i :: 0 <= i < |history| ==> r[i].role == history[i].role && r[i].content == history[i].content
  {
  }

  /**
   * The stored reply is never empty: the model's text, else the apology, or
   * the error text on a failure; its reasoning is kept exactly when the
   * model returned some.
   */
  lemma ReplyStored(reply: Result<Option<Reply>>)
    ensures var m := AssistantMessage(reply);
      m.role == "assistant" && m.content != "" &&
      (m.reasoning.Some? <==> reply.Success? && reply.value.Some? && Filled(reply.value.value.reasoning)) &&
      (m.reasoning.Some? ==> m.reasoning == reply.value.value.reasoning) &&
      (reply.Failure? ==> m.content == ErrorPrefix + reply.error) &&
      (reply.Success? && (reply.value.None? || !Filled(reply.value.value.content)) ==> m.content == NoReply)
  {
  }

  /**
   * A send stores the user's message and then the reply in the same chat; a
   * new chat is created and titled first.
   */
  lemma SendOrder(uid: string, active: Option<string>, newChatId: string, content: string, reply: Result<Option<Reply>>)
    ensures var w := SendWrites(uid, active, newChatId, content, reply);
      var chatId := ChatIdFor(active, newChatId);
      |w| >= 2 && w[|w| - 2] == AddMessage(chatId, Message("user", content, None)) &&
      w[|w| - 1] == AddMessage(chatId, AssistantMessage(reply)) &&
      (Filled(active) <==> |w| == 2) &&
      (!Filled(active) ==> w[0] == CreateChat(uid) && w[1] == SetTitle(newChatId, Title(content)) && chatId == newChatId)
  {
  }

  // ----- the title -----

  /** The title's words are the first four words of the message. */
  lemma TitleWords(content: string)
    ensures var words := Split(content, ' ');
      Split(Title(content), ' ') == words[..if |words| < 4 then |words| else 4]
  {
    var words := Split(content, ' ');
    var first := words[..if |words| < 4 then |words| else 4];
    assert forall k :: 0 <= k < |first| ==> first[k] == words[k];
    assert " " == [' '];
    SplitJoin(first, ' ');
  }

  /** The title is the beginning of the message, and the whole of it when it has at most four words. */
  lemma TitlePrefix(content: string)
    ensures |Title(content)| <= |content| && content[..|Title(content)|] == Title(content)
    ensures |Split(content, ' ')| <= 4 ==> Title(content) == content
  {
    var words := Split(content, ' ');
    var k := if |words| < 4 then |words| else 4;
    assert " " == [' '];
    JoinPrefix(content, ' ', k);
    if |words| <= 4 {
      assert words[..k] == words;
      JoinSplit(content, ' ');
    }
  }

  /** The first `k` pieces of a split, joined again, are the beginning of the text. */
  lemma {:induction false} JoinPrefix(s: string, sep: char, k: nat)
    requires 1 <= k <= |Split(s, sep)|
    ensures var j := Join(Split(s, sep)[..k], [sep]); |j| <= |s| && s[..|j|] == j
    decreases |s|
  {
    var parts := Split(s, sep);
    var first := FirstIndex(s, sep);
    if first.None? {
      assert parts == [s];
      assert parts[..k] == [s];
    } else {
      var i := first.value;
      var rest := Split(s[i + 1..], sep);
      assert parts == [s[..i]] + rest;
      if k == 1 {
        assert parts[..k] == [s[..i]];
      } else {
        JoinPrefix(s[i + 1..], sep, k - 1);
        JoinCons(s[..i], rest, k, [sep], parts);
        PrefixStep(s, i, Join(rest[..k - 1], [sep]), Join(parts[..k], [sep]));
      }
    }
  }

  lemma PrefixStep(s: string, i: nat, tail: string, j: string)
    requires i < |s| && |tail| <= |s| - i - 1 && s[i + 1..][..|tail|] == tail
    requires j == s[..i] + [s[i]] + tail
    ensures |j| <= |s| && s[..|j|] == j
  {
    assert s[..i + 1 + |tail|] == s[..i] + [s[i]] + s[i + 1..][..|tail|];
  }

  lemma JoinCons(a: string, rest: seq<string>, k: nat, sep: string, parts: seq<string>)
    requires 2 <= k <= |rest| + 1 && parts == [a] + rest
    ensures Join(parts[..k], sep) == a + sep + Join(rest[..k - 1], sep)
  {
    assert parts[..k] == [a] + rest[..k - 1];
    assert parts[..k][1..] == rest[..k - 1];
  }
}
