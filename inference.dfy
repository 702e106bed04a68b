/**
 * The chat-completion call the server makes for every council member. The
 * HTTP client that performs it is not part of this model: a call is a
 * `Provider`, a function from the request to either the reply's
 * `choices[0].message.content` or the message of the error the call throws.
 */
module Inference {
  import opened Wrappers

  /** One chat message, `{ role, content }`. */
  datatype Message = Message(role: string, content: string)

  /**
   * The body handed to the client: `model`, `messages`, `max_tokens`, and the
   * optional `temperature` and `reasoning_effort` only the Judge sets.
   */
  datatype ChatRequest = ChatRequest(
    model: string,
    messages: seq<Message>,
    maxTokens: nat,
    temperature: Option<real>,
    reasoningEffort: Option<string>)

  /** What awaiting the call yields: the reply's content, or a thrown error's message. */
  datatype CallResult = Reply(content: string) | Failed(message: string)

  type Provider = ChatRequest -> CallResult

  /** A request carrying a single user message. */
  function UserRequest(model: string, content: string, maxTokens: nat): (r: ChatRequest)
    ensures r.messages == [Message("user", content)] && r.temperature.None? && r.reasoningEffort.None?
  {
    ChatRequest(model, [Message("user", content)], maxTokens, None, None)
  }
}
