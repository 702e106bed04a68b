/**
 * The council hook (src/hooks/useCouncilSession.jsx): reading the API key
 * from the stored settings, the guards `askCouncil` runs before it opens a
 * session, and the two flags the council screens derive from the store.
 *
 * The stored settings text is a parameter (`None` when nothing is stored);
 * `JSON.parse` is an opaque function that may fail, and yields `None` for
 * JSON `null` or a value that is not an object. A toast is returned as its
 * text rather than shown.
 */
module CouncilSession {
  import opened Wrappers
  import opened Text
  import opened Council
  import opened CouncilStore

  /** The parsed settings object; an absent, `null` or non-string `apiKey` is `None`. */
  datatype Settings = Settings(apiKey: Option<string>)

  const NoKeyToast: string := "Please set your Groq API key in Settings first."
  const NoTopicToast: string := "Please enter a topic for the Council to discuss."

  /** `getApiKey`: the stored key when there is one, else `null`. */
  function GetApiKey(stored: Option<string>, parse: string -> Result<Option<Settings>>): (r: Option<string>)
    ensures r.Some? ==> r.value != ""
  {
    if stored.None? then None
    else match parse(stored.value)
      case Failure(_) => None
      case Success(settings) =>
        if settings.Some? && settings.value.apiKey.Some? && settings.value.apiKey.value != "" then settings.value.apiKey
        else None
  }

  /** What `askCouncil` does with a prompt, given the key it read. */
  datatype Ask = RefuseNoKey | RefuseNoTopic | Convene(apiKey: string)

  /** The guards of `askCouncil`, the key checked first. */
  function AskDecision(apiKey: Option<string>, prompt: string): Ask {
    if apiKey.None? then RefuseNoKey
    else if Trim(prompt) == [] then RefuseNoTopic
    else Convene(apiKey.value)
  }

  /**
   * `askCouncil(prompt)`: a toast and nothing else when there is no key or
   * no topic, otherwise a session with the untrimmed prompt.
   * `startCouncilSession` catches every error itself, so the `catch` that
   * would toast and reset is never reached.
   */
  method AskCouncil(store: Store, prompt: string, stored: Option<string>,
                    parse: string -> Result<Option<Settings>>, now: int,
                    fetch: (string, string) -> Fetched, decode: string -> Result<Update>)
    returns (toast: Option<string>)
    modifies store
    ensures AskDecision(GetApiKey(stored, parse), prompt) == RefuseNoKey ==>
      toast == Some(NoKeyToast) && store.State() == old(store.State())
    ensures AskDecision(GetApiKey(stored, parse), prompt) == RefuseNoTopic ==>
      toast == Some(NoTopicToast) && store.State() == old(store.State())
    ensures AskDecision(GetApiKey(stored, parse), prompt).Convene? ==>
      var key := AskDecision(GetApiKey(stored, parse), prompt).apiKey;
      toast == None && store.State() == AfterSession(old(store.State()), prompt, key, now, fetch, decode)
  {
    var apiKey := GetApiKey(stored, parse);
    if apiKey.None? {
      return Some(NoKeyToast);
    }
    if Trim(prompt) == [] {
      return Some(NoTopicToast);
    }
    store.StartCouncilSession(prompt, apiKey.value, now, fetch, decode);
    toast := None;
  }

  /** `isProcessing`. */
  predicate IsProcessing(phase: string) {
    phase in [Selecting, "processing", Synthesizing]
  }

  /** `canAskCouncil`. */
  predicate CanAskCouncil(s: StoreState, apiKey: Option<string>) {
    !s.isCouncilActive && apiKey.Some?
  }

  /** The key is `null` when nothing is stored, the text does not parse, or it holds no non-empty `apiKey`. */
  lemma KeyMissing(stored: Option<string>, parse: string -> Result<Option<Settings>>)
    ensures GetApiKey(stored, parse).None? <==>
      stored.None? || parse(stored.value).Failure? || parse(stored.value).value.None? ||
      parse(stored.value).value.value.apiKey.None? || parse(stored.value).value.value.apiKey.value == ""
    ensures GetApiKey(stored, parse).Some? ==> GetApiKey(stored, parse) == parse(stored.value).value.value.apiKey
  {
  }

  /**
   * A session starts exactly when there is a key and the prompt is not all
   * white space; with no key the answer is the key toast whatever the prompt.
   */
  lemma ConvenesOnlyWithKeyAndTopic(apiKey: Option<string>, prompt: string)
    ensures AskDecision(apiKey, prompt).Convene? <==> apiKey.Some? && !Blank(prompt)
    ensures apiKey.None? ==> AskDecision(apiKey, prompt) == RefuseNoKey
    ensures apiKey.Some? && Blank(prompt) ==> AskDecision(apiKey, prompt) == RefuseNoTopic
  {
    TrimEmptyIffBlank(prompt);
  }

  /**
   * Once a session starts the screens show it processing and no second one
   * can be asked for; once the stream has ended it is processing no more.
   */
  lemma SessionFlags(s: StoreState, prompt: string, now: int, apiKey: Option<string>, e: Event)
    requires Terminal(e)
    ensures IsProcessing(Started(s, prompt, now).sessionPhase)
    ensures !CanAskCouncil(Started(s, prompt, now), apiKey)
    ensures !IsProcessing(Reduce(s, Known(e)).sessionPhase)
  {
    TerminalUpdate(s, e);
  }

  /** After a reset another session can be asked for exactly when a key is set. */
  lemma ResetAllowsAsking(s: StoreState, apiKey: Option<string>)
    ensures CanAskCouncil(s.(isCouncilActive := false, sessionPhase := Idle), apiKey) <==> apiKey.Some?
    ensures !IsProcessing(Idle)
  {
  }
}
