/**
 * The council endpoint (api/council.js): request validation, then a stream
 * of `data: <json>` frames reporting a fixed sequence of stages — selection,
 * the Researcher, the Analyst and the Philosopher one after another, each
 * fed the earlier replies, and last the Judge's verdict — ended by exactly
 * one terminal event and one close.
 *
 * The model provider is an oracle object whose replies are a function of the
 * request; JSON serialisation is an opaque function from an event to its
 * text. The one-second pauses between stages only delay the stream and are
 * not modelled.
 */
module Council {
  import opened Wrappers
  import opened Text
  import opened Inference
  import opened ModelSelector
  import opened Synthesizer

  /**
   * The request as the handler sees it: its method and its parsed body.
   * The body is `None` when parsing fails or the JSON is `null`. Destructuring
   * `null` throws, so both reach the `catch` that answers "Invalid request body".
   */
  datatype Request = Request(httpMethod: string, body: Option<Body>)

  /** The body's two fields; an absent, `null` or non-string field is `None`. */
  datatype Body = Body(prompt: Option<string>, apiKey: Option<string>)

  /** A string field is truthy when present and not empty. */
  predicate Truthy(v: Option<string>) {
    v.Some? && v.value != ""
  }

  /** The `{ type, data }` objects sent to the client. */
  datatype Event =
    | Phase(phase: string, message: string)
    | MembersSelected(members: seq<Member>)
    | MemberStatus(memberId: string, status: string)
    | SynthesisComplete(synthesis: string)
    | Error(message: string)

  /** The two events after which the stream ends. */
  predicate Terminal(e: Event) {
    e.SynthesisComplete? || e.Error?
  }

  /** `JSON.stringify({ type, data })`, which this model does not look into. */
  type Json = Event -> string

  const DataPrefix: string := "data: "
  const FrameEnd: string := "\n\n"

  /** `sendUpdate`'s frame: the prefix, the event's JSON, and a blank line. */
  function Frame(json: Json, e: Event): string {
    DataPrefix + json(e) + FrameEnd
  }

  /** The frames of a sequence of events, one each, in order. */
  function Frames(json: Json, events: seq<Event>): (r: seq<string>)
    ensures |r| == |events|
  {
    if events == [] then [] else [Frame(json, events[0])] + Frames(json, events[1..])
  }

  /** Framing distributes over concatenation. */
  lemma {:induction false} FramesAppend(json: Json, a: seq<Event>, b: seq<Event>)
    ensures Frames(json, a + b) == Frames(json, a) + Frames(json, b)
  {
    if a == [] {
      assert a + b == b;
    } else {
      assert (a + b)[1..] == a[1..] + b;
      FramesAppend(json, a[1..], b);
    }
  }

  const MethodNotAllowed: string := "Method not allowed"
  const MissingFields: string := "Missing prompt or apiKey"
  const InvalidBody: string := "Invalid request body"
  const Selecting: string := "selecting"
  const SelectingMessage: string := "Convening the Council..."
  const Synthesizing: string := "synthesizing"
  const SynthesizingMessage: string := "The Judge is delivering the final verdict..."
  const Complete: string := "complete"
  const Judging: string := "judging"
  /** The TypeError thrown by reading `.id` of the `undefined` that `find` returns for a missing role. */
  const MissingRoleMessage: string := "Cannot read properties of undefined (reading 'id')"

  /** The status a member of the first three stages is given while it works. */
  function Working(stage: nat): string
    requires stage < 3
  {
    if stage == 0 then "researching" else if stage == 1 then "analyzing" else "pondering"
  }

  /** The prompt of each of the first three stages, built from the evidence gathered so far. */
  const ResearchAsk: string := "Perform a web search to gather raw data, facts, and diverse sources about: "
  const ResearchEnd: string := ". Synthesize the top 5-7 key points into a bulleted list."
  const AnalysisAsk: string := "Based on this research data:\n\n"
  const AnalysisMid: string := "\n\nProvide a concise, practical analysis of the original topic: "
  const AnalysisEnd: string := ". Identify the main arguments and implications."
  const PhilosophyAsk: string := "Here is research and an analysis on "
  const PhilosophyResearch: string := ":\n\nResearch:\n"
  const PhilosophyAnalysis: string := "\n\nAnalysis:\n"
  const PhilosophyEnd: string := "\n\nNow, provide a contrarian or alternative perspective. Discuss the long-term consequences, ethical considerations, or hidden assumptions."

  function StagePrompt(stage: nat, e: Evidence): string
    requires stage < 3
  {
    if stage == 0 then ResearchAsk + Quoted(e.prompt) + ResearchEnd
    else if stage == 1 then AnalysisAsk + e.research + AnalysisMid + Quoted(e.prompt) + AnalysisEnd
    else PhilosophyAsk + Quoted(e.prompt) + PhilosophyResearch + e.research + PhilosophyAnalysis + e.analysis + PhilosophyEnd
  }

  /** The slot a stage's reply is stored in: `research`, `analysis`, `philosophy`. */
  function Fill(e: Evidence, stage: nat, reply: string): (r: Evidence)
    requires stage < 3
    ensures r.prompt == e.prompt
  {
    if stage == 0 then e.(research := reply)
    else if stage == 1 then e.(analysis := reply)
    else e.(philosophy := reply)
  }

  /** A stage's request: the member's model and budget, one user message. */
  function StageRequest(m: Member, stage: nat, e: Evidence): ChatRequest
    requires stage < 3
  {
    UserRequest(m.id, StagePrompt(stage, e), m.allocatedTokens)
  }

  /**
   * What a stretch of the `try` block does: the events it sends, the requests
   * it makes, and the evidence it leaves or the message of what it throws.
   */
  datatype Run<T> = Run(events: seq<Event>, requests: seq<ChatRequest>, outcome: Result<T>)

  /** One of the first three stages. */
  function Stage(members: seq<Member>, answer: Provider, e: Evidence, stage: nat): Run<Evidence>
    requires stage < 3
  {
    match FindRole(members, Roles[stage])
    case None => Run([], [], Failure(MissingRoleMessage))
    case Some(m) =>
      var req := StageRequest(m, stage, e);
      match answer(req)
      case Failed(msg) => Run([MemberStatus(m.id, Working(stage))], [req], Failure(msg))
      case Reply(c) =>
        Run([MemberStatus(m.id, Working(stage)), MemberStatus(m.id, Complete)], [req], Success(Fill(e, stage, c)))
  }

  /** The Judge's stage: its status, the synthesizing phase, then `createFinalVerdict`. */
  function Verdict(members: seq<Member>, answer: Provider, e: Evidence): Run<string> {
    match FindRole(members, Judge)
    case None => Run([], [], Failure(MissingRoleMessage))
    case Some(m) =>
      var head := [MemberStatus(m.id, Judging), Phase(Synthesizing, SynthesizingMessage)];
      match CreateFinalVerdict(e, m, answer)
      case Success(report) => Run(head + [SynthesisComplete(report)], [JudgeRequest(e, m)], Success(report))
      case Failure(msg) => Run(head, [JudgeRequest(e, m)], Failure(msg))
  }

  /** The stages from `stage` on, stopping at the first that throws. */
  function FromStage(members: seq<Member>, answer: Provider, e: Evidence, stage: nat): Run<string>
    requires stage <= 3
    decreases 3 - stage
  {
    if stage == 3 then Verdict(members, answer, e)
    else
      var s := Stage(members, answer, e, stage);
      match s.outcome
      case Failure(msg) => Run(s.events, s.requests, Failure(msg))
      case Success(next) =>
        var rest := FromStage(members, answer, next, stage + 1);
        Run(s.events + rest.events, s.requests + rest.requests, rest.outcome)
  }

  /** The two events sent before the first stage: the selecting phase, then the selected members. */
  function Opening(members: seq<Member>): seq<Event> {
    [Phase(Selecting, SelectingMessage), MembersSelected(members)]
  }

  /** The whole `try` block: the opening, then the four stages. */
  function Proceedings(prompt: string, table: seq<(string, Member)>, answer: Provider): Run<string> {
    var members := SelectOptimalModels(table);
    var rest := FromStage(members, answer, Evidence(prompt, "", "", ""), 0);
    Run(Opening(members) + rest.events, rest.requests, rest.outcome)
  }

  /** Everything the stream carries: the `try` block's events, then an `error` event if it threw. */
  function SessionEvents(prompt: string, table: seq<(string, Member)>, answer: Provider): seq<Event> {
    var run := Proceedings(prompt, table, answer);
    match run.outcome
    case Success(_) => run.events
    case Failure(msg) => run.events + [Error(msg)]
  }

  /** What the handler returns: a JSON error with its status, or the event stream. */
  datatype Response = Refused(status: nat, error: string) | EventStream(frames: seq<string>)

  /** The handler's answer to a request, for a provider that answers each key as `service` says. */
  function Respond(req: Request, table: seq<(string, Member)>, service: string -> Provider, json: Json): (r: Response)
    ensures r.Refused? <==>
      req.httpMethod != "POST" || req.body.None? || !Truthy(req.body.value.prompt) || !Truthy(req.body.value.apiKey)
    ensures r.Refused? ==> (r.status == 405 <==> req.httpMethod != "POST") && (r.status == 405 || r.status == 400)
    ensures r.Refused? && req.httpMethod == "POST" ==> (r.error == InvalidBody <==> req.body.None?)
    ensures r.Refused? && req.httpMethod != "POST" ==> r.error == MethodNotAllowed
    ensures r.Refused? && req.httpMethod == "POST" && req.body.Some? ==> r.error == MissingFields
  {
    if req.httpMethod != "POST" then Refused(405, MethodNotAllowed)
    else if req.body.None? then Refused(400, InvalidBody)
    else if !Truthy(req.body.value.prompt) || !Truthy(req.body.value.apiKey) then Refused(400, MissingFields)
    else
      var key := req.body.value.apiKey.value;
      EventStream(Frames(json, SessionEvents(req.body.value.prompt.value, table, service(key))))
  }

  /** The requests the handler makes: none for a refused request. */
  function RequestsMade(req: Request, table: seq<(string, Member)>, service: string -> Provider): seq<ChatRequest> {
    if req.httpMethod != "POST" || req.body.None? || !Truthy(req.body.value.prompt) || !Truthy(req.body.value.apiKey) then []
    else Proceedings(req.body.value.prompt.value, table, service(req.body.value.apiKey.value)).requests
  }

  /**
   * The stream's controller: the frames enqueued so far and whether it is
   * closed; `sent` records, for the proofs, the events those frames encode.
   */
  class StreamController {
    var frames: seq<string>
    var closed: bool
    ghost var sent: seq<Event>

    constructor()
      ensures frames == [] && !closed && sent == []
    {
      frames := [];
      closed := false;
      sent := [];
    }

    method Enqueue(frame: string)
      requires !closed
      modifies this
      ensures frames == old(frames) + [frame] && !closed && sent == old(sent)
    {
      frames := frames + [frame];
    }

    method Close()
      requires !closed
      modifies this
      ensures closed && frames == old(frames) && sent == old(sent)
    {
      closed := true;
    }
  }

  /** The controller's frames are those of the events sent through it. */
  ghost predicate Framed(c: StreamController, json: Json)
    reads c
  {
    c.frames == Frames(json, c.sent)
  }

  /** The provider's client: every request it is given, and the reply the service makes to it. */
  class GroqClient {
    const apiKey: string
    const answer: Provider
    var requests: seq<ChatRequest>

    constructor(apiKey: string, answer: Provider)
      ensures this.apiKey == apiKey && this.answer == answer && requests == []
    {
      this.apiKey := apiKey;
      this.answer := answer;
      requests := [];
    }

    method Chat(req: ChatRequest) returns (r: CallResult)
      modifies this
      ensures requests == old(requests) + [req] && r == answer(req)
    {
      requests := requests + [req];
      r := answer(req);
    }
  }

  /** `sendUpdate(type, data)`: one frame for the event. */
  method SendUpdate(c: StreamController, json: Json, e: Event)
    requires !c.closed && Framed(c, json)
    modifies c
    ensures !c.closed && Framed(c, json) && c.sent == old(c.sent) + [e]
    ensures c.frames == old(c.frames) + [Frame(json, e)]
  {
    FramesAppend(json, c.sent, [e]);
    c.Enqueue(Frame(json, e));
    c.sent := c.sent + [e];
  }

  /** One of the first three stages, as the handler runs it. */
  method Consult(members: seq<Member>, stage: nat, evidence: Evidence, client: GroqClient, json: Json, c: StreamController)
    returns (next: Result<Evidence>)
    requires stage < 3 && !c.closed && Framed(c, json)
    modifies c, client
    ensures !c.closed && Framed(c, json) && next == Stage(members, client.answer, evidence, stage).outcome
    ensures c.sent == old(c.sent) + Stage(members, client.answer, evidence, stage).events
    ensures client.requests == old(client.requests) + Stage(members, client.answer, evidence, stage).requests
  {
    var member := FindRole(members, Roles[stage]);
    if member.None? {
      return Failure(MissingRoleMessage);
    }
    var m := member.value;
    ghost var sent := c.sent;
    SendUpdate(c, json, MemberStatus(m.id, Working(stage)));
    var response := client.Chat(StageRequest(m, stage, evidence));
    if response.Failed? {
      StageFailed(members, client.answer, evidence, stage, m, response.message);
      return Failure(response.message);
    }
    next := Success(Fill(evidence, stage, response.content));
    SendUpdate(c, json, MemberStatus(m.id, Complete));
    StageReplied(members, client.answer, evidence, stage, m, response.content);
    assert c.sent == sent + [MemberStatus(m.id, Working(stage)), MemberStatus(m.id, Complete)];
  }

  lemma StageFailed(members: seq<Member>, answer: Provider, e: Evidence, stage: nat, m: Member, msg: string)
    requires stage < 3 && FindRole(members, Roles[stage]) == Some(m) && answer(StageRequest(m, stage, e)) == Failed(msg)
    ensures Stage(members, answer, e, stage) ==
      Run([MemberStatus(m.id, Working(stage))], [StageRequest(m, stage, e)], Failure(msg))
  {
  }

  lemma StageReplied(members: seq<Member>, answer: Provider, e: Evidence, stage: nat, m: Member, content: string)
    requires stage < 3 && FindRole(members, Roles[stage]) == Some(m) && answer(StageRequest(m, stage, e)) == Reply(content)
    ensures Stage(members, answer, e, stage) ==
      Run([MemberStatus(m.id, Working(stage)), MemberStatus(m.id, Complete)], [StageRequest(m, stage, e)],
        Success(Fill(e, stage, content)))
  {
  }

  /** The Judge's stage, with `createFinalVerdict`'s one call. */
  method Adjudicate(members: seq<Member>, evidence: Evidence, client: GroqClient, json: Json, c: StreamController)
    returns (outcome: Result<string>)
    requires !c.closed && Framed(c, json)
    modifies c, client
    ensures !c.closed && Framed(c, json) && outcome == Verdict(members, client.answer, evidence).outcome
    ensures c.sent == old(c.sent) + Verdict(members, client.answer, evidence).events
    ensures client.requests == old(client.requests) + Verdict(members, client.answer, evidence).requests
  {
    var member := FindRole(members, Judge);
    if member.None? {
      return Failure(MissingRoleMessage);
    }
    var judge := member.value;
    SendUpdate(c, json, MemberStatus(judge.id, Judging));
    SendUpdate(c, json, Phase(Synthesizing, SynthesizingMessage));
    var response := client.Chat(JudgeRequest(evidence, judge));
    if response.Failed? {
      return Failure(response.message);
    }
    outcome := Success(FinalReport(evidence, response.content));
    SendUpdate(c, json, SynthesisComplete(outcome.value));
  }

  /** The `try` block of the stream's `start`. */
  method Deliberate(prompt: string, table: seq<(string, Member)>, client: GroqClient, json: Json, c: StreamController)
    returns (outcome: Result<string>)
    requires !c.closed && Framed(c, json)
    modifies c, client
    ensures !c.closed && Framed(c, json) && outcome == Proceedings(prompt, table, client.answer).outcome
    ensures c.sent == old(c.sent) + Proceedings(prompt, table, client.answer).events
    ensures client.requests == old(client.requests) + Proceedings(prompt, table, client.answer).requests
  {
    ghost var sent0 := c.sent;
    var evidence := Evidence(prompt, "", "", "");
    SendUpdate(c, json, Phase(Selecting, SelectingMessage));
    var members := SelectOptimalModels(table);
    SendUpdate(c, json, MembersSelected(members));
    ghost var opening := Opening(members);
    assert c.sent == sent0 + opening;
    outcome := Convene(members, 0, evidence, client, json, c);
    ghost var rest := FromStage(members, client.answer, evidence, 0);
    ProceedingsRun(prompt, table, client.answer);
    Assoc(sent0, opening, rest.events);
  }

  /**
   * The stages from `stage` on: the member of that stage's role is consulted
   * and, if its call returned, the next stage follows; the Judge comes last.
   */
  method Convene(members: seq<Member>, stage: nat, evidence: Evidence, client: GroqClient, json: Json, c: StreamController)
    returns (outcome: Result<string>)
    requires stage <= 3 && !c.closed && Framed(c, json)
    modifies c, client
    ensures !c.closed && Framed(c, json) && outcome == FromStage(members, client.answer, evidence, stage).outcome
    ensures c.sent == old(c.sent) + FromStage(members, client.answer, evidence, stage).events
    ensures client.requests == old(client.requests) + FromStage(members, client.answer, evidence, stage).requests
    decreases 3 - stage
  {
    if stage == 3 {
      outcome := Adjudicate(members, evidence, client, json, c);
      return;
    }
    ghost var sent0, requests0 := c.sent, client.requests;
    var next := Consult(members, stage, evidence, client, json, c);
    if next.Failure? {
      StopsAt(members, client.answer, evidence, stage);
      return Failure(next.error);
    }
    ghost var s := Stage(members, client.answer, evidence, stage);
    ghost var sent1, requests1 := c.sent, client.requests;
    GoesOn(members, client.answer, evidence, stage);
    outcome := Convene(members, stage + 1, next.value, client, json, c);
    ghost var rest := FromStage(members, client.answer, next.value, stage + 1);
    Assoc(sent0, s.events, rest.events);
    Assoc(requests0, s.requests, rest.requests);
  }

  /** `Proceedings` in terms of the stages' run. */
  lemma ProceedingsRun(prompt: string, table: seq<(string, Member)>, answer: Provider)
    ensures var rest := FromStage(SelectOptimalModels(table), answer, Evidence(prompt, "", "", ""), 0);
      Proceedings(prompt, table, answer) ==
      Run(Opening(SelectOptimalModels(table)) + rest.events, rest.requests, rest.outcome)
  {
  }

  /** A request that passes validation is answered with the session's frames. */
  lemma Streams(req: Request, table: seq<(string, Member)>, service: string -> Provider, json: Json)
    requires req.httpMethod == "POST" && req.body.Some? && Truthy(req.body.value.prompt) && Truthy(req.body.value.apiKey)
    ensures var prompt, key := req.body.value.prompt.value, req.body.value.apiKey.value;
      Respond(req, table, service, json) == EventStream(Frames(json, SessionEvents(prompt, table, service(key)))) &&
      RequestsMade(req, table, service) == Proceedings(prompt, table, service(key)).requests
  {
  }


  /**
   * The stream's `start`: the `try` block, an `error` event carrying the
   * message of whatever it threw, and in every case one close at the end.
   */
  method Start(prompt: string, table: seq<(string, Member)>, client: GroqClient, json: Json, c: StreamController)
    requires !c.closed && Framed(c, json)
    modifies c, client
    ensures c.closed && Framed(c, json) && c.sent == old(c.sent) + SessionEvents(prompt, table, client.answer)
    ensures client.requests == old(client.requests) + Proceedings(prompt, table, client.answer).requests
  {
    ghost var sent0 := c.sent;
    ghost var run := Proceedings(prompt, table, client.answer);
    var outcome := Deliberate(prompt, table, client, json, c);
    if outcome.Failure? {
      SendUpdate(c, json, Error(outcome.error));
      Assoc(sent0, run.events, [Error(outcome.error)]);
    }
    c.Close();
  }

  /**
   * `handler`: 405 for anything but POST, 400 for a body that does not parse
   * or lacks a prompt or a key, and otherwise the event stream of a session
   * run with a client for the request's key. The requests the client was
   * given are returned beside the response.
   */
  method Handler(req: Request, table: seq<(string, Member)>, service: string -> Provider, json: Json)
    returns (response: Response, requests: seq<ChatRequest>)
    ensures response == Respond(req, table, service, json) && requests == RequestsMade(req, table, service)
  {
    if req.httpMethod != "POST" {
      return Refused(405, MethodNotAllowed), [];
    }
    if req.body.None? {
      return Refused(400, InvalidBody), [];
    }
    var body := req.body.value;
    if !Truthy(body.prompt) || !Truthy(body.apiKey) {
      return Refused(400, MissingFields), [];
    }
    var prompt, key := body.prompt.value, body.apiKey.value;
    var client := new GroqClient(key, service(key));
    var c := new StreamController();
    Start(prompt, table, client, json, c);
    assert c.sent == SessionEvents(prompt, table, service(key));
    assert client.requests == Proceedings(prompt, table, service(key)).requests;
    Streams(req, table, service, json);
    response, requests := EventStream(c.frames), client.requests;
  }

  /** A stage that throws ends the run with its own events and requests. */
  lemma StopsAt(members: seq<Member>, answer: Provider, e: Evidence, stage: nat)
    requires stage < 3 && Stage(members, answer, e, stage).outcome.Failure?
    ensures var s := Stage(members, answer, e, stage);
      FromStage(members, answer, e, stage) == Run(s.events, s.requests, Failure(s.outcome.error))
  {
  }

  /** A stage that returns is followed by the rest of the run. */
  lemma GoesOn(members: seq<Member>, answer: Provider, e: Evidence, stage: nat)
    requires stage < 3 && Stage(members, answer, e, stage).outcome.Success?
    ensures var s := Stage(members, answer, e, stage);
      var rest := FromStage(members, answer, s.outcome.value, stage + 1);
      FromStage(members, answer, e, stage) == Run(s.events + rest.events, s.requests + rest.requests, rest.outcome)
  {
  }
}
