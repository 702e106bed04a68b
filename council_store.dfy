/**
 * The client's council store (src/stores/councilStore.js): the session state
 * the council screens read, the reducer that folds each streamed update into
 * it, the action that opens a session and dispatches the `data:` lines of the
 * response in order, and the two small UI actions.
 *
 * `fetch` is a function from the request's prompt and key to what the
 * response delivers (a failure, or its `ok` flag and its chunks, each
 * decoded to text); `Date.now()` is a parameter; `JSON.parse` is an opaque
 * decoder that may fail with a message.
 */
module CouncilStore {
  import opened Wrappers
  import opened Text
  import Inference
  import opened ModelSelector
  import opened Council
  import opened CouncilProperties

  /** `currentSession`: when it started and what was asked. */
  datatype Session = Session(id: int, prompt: string)

  /** A snapshot of the store's eight fields. */
  datatype StoreState = StoreState(
    isCouncilActive: bool,
    sessionPhase: string,
    phaseMessage: string,
    currentSession: Option<Session>,
    activeMembers: seq<Member>,
    memberStatuses: map<string, string>,
    synthesisResult: string,
    showIndividualResponses: bool)

  /** A parsed `{ type, data }` object: one the reducer knows, or any other `type`. */
  datatype Update = Known(event: Event) | Unknown(kind: string)

  /** What `fetch` leads to: a thrown error, or the response's `ok && body` and the text of its chunks. */
  datatype Fetched = FetchFailed(message: string) | Received(ok: bool, chunks: seq<string>)

  const Idle: string := "idle"
  const Pending: string := "pending"
  const Discussing: string := "The Council is Discussing..."
  const Delivered: string := "The Council has Delivered Its Results."
  const ErrorPhase: string := "error"
  const ErrorMessage: string := "An error occurred."
  const StartFailed: string := "Failed to start council session."

  /** The store as created. */
  const Initial: StoreState := StoreState(false, Idle, "", None, [], map[], "", true)

  /** `members.reduce(...)`: one `pending` status per member id, the later of two equal ids winning (with the same value). */
  function PendingFor(members: seq<Member>): (r: map<string, string>)
    decreases |members|
  {
    if members == [] then map[]
    else PendingFor(members[..|members| - 1])[members[|members| - 1].id := Pending]
  }

  /** `handleCouncilUpdate`: the patch each update merges into the state. */
  function Reduce(s: StoreState, u: Update): StoreState {
    match u
    case Unknown(_) => s
    case Known(e) =>
      match e
      case Phase(phase, message) => s.(sessionPhase := phase, phaseMessage := message)
      case MembersSelected(members) => s.(activeMembers := members, memberStatuses := PendingFor(members))
      case MemberStatus(id, status) => s.(memberStatuses := s.memberStatuses[id := status])
      case SynthesisComplete(synthesis) =>
        s.(sessionPhase := Complete, phaseMessage := Delivered, synthesisResult := synthesis)
      case Error(message) => Failed(s, message)
  }

  /** The `catch` of `startCouncilSession`, and the reducer's `error` case. */
  function Failed(s: StoreState, message: string): StoreState {
    s.(sessionPhase := ErrorPhase, phaseMessage := ErrorMessage, synthesisResult := message)
  }

  /** The first `set` of `startCouncilSession`. */
  function Started(s: StoreState, prompt: string, now: int): StoreState {
    StoreState(true, Selecting, Discussing, Some(Session(now, prompt)), [], map[], "", true)
  }

  /** The lines of a chunk that start with `data: `, in order. */
  function DataLines(lines: seq<string>): (r: seq<string>)
    ensures forall k :: 0 <= k < |r| ==> StartsWith(r[k], DataPrefix)
  {
    if lines == [] then []
    else if StartsWith(lines[0], DataPrefix) then [lines[0]] + DataLines(lines[1..])
    else DataLines(lines[1..])
  }

  /** What `JSON.parse` is given for each data line: the text from its seventh character on. */
  function Payloads(lines: seq<string>): (r: seq<string>)
    ensures |r| == |DataLines(lines)|
  {
    var data := DataLines(lines);
    seq(|data|, k requires 0 <= k < |data| => data[k][|DataPrefix|..])
  }

  /** The payloads of every chunk, chunk after chunk. */
  function AllPayloads(chunks: seq<string>): seq<string> {
    if chunks == [] then [] else Payloads(Split(chunks[0], '\n')) + AllPayloads(chunks[1..])
  }

  /** Parsing and dispatching payloads in order; the first that fails to parse ends the session in error. */
  function Replay(s: StoreState, payloads: seq<string>, decode: string -> Result<Update>): StoreState
    decreases |payloads|
  {
    if payloads == [] then s
    else match decode(payloads[0])
      case Failure(message) => Failed(s, message)
      case Success(u) => Replay(Reduce(s, u), payloads[1..], decode)
  }

  /** The state a whole `startCouncilSession` leaves behind. */
  function AfterSession(s: StoreState, prompt: string, apiKey: string, now: int,
                        fetch: (string, string) -> Fetched, decode: string -> Result<Update>): StoreState
  {
    var start := Started(s, prompt, now);
    match fetch(prompt, apiKey)
    case FetchFailed(message) => Failed(start, message)
    case Received(ok, chunks) =>
      if !ok then Failed(start, StartFailed) else Replay(start, AllPayloads(chunks), decode)
  }

  /** The store object: its fields and the actions that `set` them. */
  class Store {
    var isCouncilActive: bool
    var sessionPhase: string
    var phaseMessage: string
    var currentSession: Option<Session>
    var activeMembers: seq<Member>
    var memberStatuses: map<string, string>
    var synthesisResult: string
    var showIndividualResponses: bool

    function State(): StoreState
      reads this
    {
      StoreState(isCouncilActive, sessionPhase, phaseMessage, currentSession, activeMembers,
        memberStatuses, synthesisResult, showIndividualResponses)
    }

    constructor()
      ensures State() == Initial
    {
      isCouncilActive := false;
      sessionPhase := Idle;
      phaseMessage := "";
      currentSession := None;
      activeMembers := [];
      memberStatuses := map[];
      synthesisResult := "";
      showIndividualResponses := true;
    }

    /** `handleCouncilUpdate(update)`. */
    method HandleCouncilUpdate(u: Update)
      modifies this
      ensures State() == Reduce(old(State()), u)
    {
      match u
      case Unknown(_) =>
      case Known(e) =>
        match e
        case Phase(phase, message) =>
          sessionPhase, phaseMessage := phase, message;
        case MembersSelected(members) =>
          activeMembers, memberStatuses := members, PendingFor(members);
        case MemberStatus(id, status) =>
          memberStatuses := memberStatuses[id := status];
        case SynthesisComplete(synthesis) =>
          sessionPhase, phaseMessage, synthesisResult := Complete, Delivered, synthesis;
        case Error(message) =>
          Fail(message);
    }

    method Fail(message: string)
      modifies this
      ensures State() == Failed(old(State()), message)
    {
      sessionPhase, phaseMessage, synthesisResult := ErrorPhase, ErrorMessage, message;
    }

    /**
     * `startCouncilSession(prompt, apiKey)`: reset, post the prompt and key,
     * then dispatch the data lines of each chunk as it arrives.
     */
    method StartCouncilSession(prompt: string, apiKey: string, now: int,
                               fetch: (string, string) -> Fetched, decode: string -> Result<Update>)
      modifies this
      ensures State() == AfterSession(old(State()), prompt, apiKey, now, fetch, decode)
    {
      isCouncilActive, sessionPhase, phaseMessage := true, Selecting, Discussing;
      currentSession, synthesisResult, memberStatuses := Some(Session(now, prompt)), "", map[];
      activeMembers, showIndividualResponses := [], true;
      ghost var start := State();
      var response := fetch(prompt, apiKey);
      if response.FetchFailed? {
        Fail(response.message);
        return;
      }
      if !response.ok {
        Fail(StartFailed);
        return;
      }
      var chunks := response.chunks;
      var k := 0;
      while k < |chunks|
        invariant 0 <= k <= |chunks|
        invariant Replay(State(), AllPayloads(chunks[k..]), decode) == Replay(start, AllPayloads(chunks), decode)
      {
        assert AllPayloads(chunks[k..]) == Payloads(Split(chunks[k], '\n')) + AllPayloads(chunks[k + 1..]);
        var failed := DispatchLines(Split(chunks[k], '\n'), AllPayloads(chunks[k + 1..]), decode);
        if failed {
          return;
        }
        k := k + 1;
      }
    }

    /**
     * The inner `for` over one chunk's data lines: parse each and dispatch
     * it, or stop at the first that does not parse (`failed`), leaving the
     * `catch`'s error state.
     */
    method DispatchLines(lines: seq<string>, ghost rest: seq<string>, decode: string -> Result<Update>)
      returns (failed: bool)
      modifies this
      ensures failed ==> State() == Replay(old(State()), Payloads(lines) + rest, decode)
      ensures !failed ==> Replay(State(), rest, decode) == Replay(old(State()), Payloads(lines) + rest, decode)
    {
      ghost var s0 := State();
      var j := 0;
      while j < |lines|
        invariant 0 <= j <= |lines|
        invariant Replay(State(), Payloads(lines[j..]) + rest, decode) == Replay(s0, Payloads(lines) + rest, decode)
      {
        var line := lines[j];
        assert lines[j..][1..] == lines[j + 1..];
        if StartsWith(line, DataPrefix) {
          TakeLine(State(), lines[j..], rest, decode);
          var parsed := decode(line[|DataPrefix|..]);
          if parsed.Failure? {
            Fail(parsed.error);
            return true;
          }
          HandleCouncilUpdate(parsed.value);
        } else {
          PayloadsStep(lines[j..]);
        }
        j := j + 1;
      }
      assert lines[j..] == [] && Payloads(lines[j..]) + rest == rest;
      return false;
    }

    /** `resetCouncil`. */
    method ResetCouncil()
      modifies this
      ensures State() == old(State()).(isCouncilActive := false, sessionPhase := Idle)
    {
      isCouncilActive, sessionPhase := false, Idle;
    }

    /** `toggleIndividualResponses`. */
    method ToggleIndividualResponses()
      modifies this
      ensures State() == Toggled(old(State()))
    {
      showIndividualResponses := !showIndividualResponses;
    }
  }

  function Toggled(s: StoreState): StoreState {
    s.(showIndividualResponses := !s.showIndividualResponses)
  }

  /** Unfolding `Payloads` by one line. */
  lemma PayloadsStep(lines: seq<string>)
    requires lines != []
    ensures StartsWith(lines[0], DataPrefix) ==> Payloads(lines) == [lines[0][|DataPrefix|..]] + Payloads(lines[1..])
    ensures !StartsWith(lines[0], DataPrefix) ==> Payloads(lines) == Payloads(lines[1..])
  {
  }

  /** Dispatching a data line: parse its payload, then fail or reduce and go on. */
  lemma TakeLine(s: StoreState, lines: seq<string>, rest: seq<string>, decode: string -> Result<Update>)
    requires lines != [] && StartsWith(lines[0], DataPrefix)
    ensures decode(lines[0][|DataPrefix|..]).Failure? ==>
      Replay(s, Payloads(lines) + rest, decode) == Failed(s, decode(lines[0][|DataPrefix|..]).error)
    ensures decode(lines[0][|DataPrefix|..]).Success? ==>
      Replay(s, Payloads(lines) + rest, decode) ==
        Replay(Reduce(s, decode(lines[0][|DataPrefix|..]).value), Payloads(lines[1..]) + rest, decode)
  {
    PayloadsStep(lines);
    var p := lines[0][|DataPrefix|..];
    assert ([p] + Payloads(lines[1..]) + rest)[1..] == Payloads(lines[1..]) + rest;
  }

  /** The `pending` map holds exactly the members' ids, each `pending`. */
  lemma {:induction false} PendingForMeaning(members: seq<Member>)
    ensures forall id :: id in PendingFor(members) <==> exists m :: m in members && m.id == id
    ensures forall id :: id in PendingFor(members) ==> PendingFor(members)[id] == Pending
    decreases |members|
  {
    if members != [] {
      var init, last := members[..|members| - 1], members[|members| - 1];
      PendingForMeaning(init);
      assert members == init + [last];
      forall id | exists m :: m in members && m.id == id
        ensures id in PendingFor(members)
      {
        var m :| m in members && m.id == id;
        if m != last {
          assert m in init;
        }
      }
    }
  }

  /** A `phase` update sets the phase and its message and nothing else. */
  lemma PhaseUpdate(s: StoreState, phase: string, message: string)
    ensures var r := Reduce(s, Known(Phase(phase, message)));
      r.sessionPhase == phase && r.phaseMessage == message &&
      r.(sessionPhase := s.sessionPhase, phaseMessage := s.phaseMessage) == s
  {
  }

  /**
   * `members_selected` replaces the members and resets the statuses to one
   * `pending` entry per member id; the phase, message and result stay.
   */
  lemma MembersSelectedUpdate(s: StoreState, members: seq<Member>)
    ensures var r := Reduce(s, Known(MembersSelected(members)));
      r.activeMembers == members &&
      (forall id :: id in r.memberStatuses <==> exists m :: m in members && m.id == id) &&
      (forall id :: id in r.memberStatuses ==> r.memberStatuses[id] == Pending) &&
      r.(activeMembers := s.activeMembers, memberStatuses := s.memberStatuses) == s
  {
    PendingForMeaning(members);
  }

  /** `member_status` sets that member's status; every other member's entry, present or absent, is kept. */
  lemma MemberStatusUpdate(s: StoreState, id: string, status: string)
    ensures var r := Reduce(s, Known(MemberStatus(id, status)));
      id in r.memberStatuses && r.memberStatuses[id] == status &&
      (forall other :: other != id ==> (other in r.memberStatuses <==> other in s.memberStatuses)) &&
      (forall other :: other != id && other in s.memberStatuses ==> r.memberStatuses[other] == s.memberStatuses[other]) &&
      r.(memberStatuses := s.memberStatuses) == s
  {
  }

  /**
   * The two terminal updates: `synthesis_complete` ends in phase `complete`
   * with the report as the result, `error` in phase `error` with the message;
   * the members, their statuses and the session are kept.
   */
  lemma TerminalUpdate(s: StoreState, e: Event)
    requires Terminal(e)
    ensures var r := Reduce(s, Known(e));
      (e.SynthesisComplete? ==> r.sessionPhase == Complete && r.phaseMessage == Delivered && r.synthesisResult == e.synthesis) &&
      (e.Error? ==> r.sessionPhase == ErrorPhase && r.phaseMessage == ErrorMessage && r.synthesisResult == e.message) &&
      r.(sessionPhase := s.sessionPhase, phaseMessage := s.phaseMessage, synthesisResult := s.synthesisResult) == s
  {
  }

  /** An update of any other type changes nothing. */
  lemma UnknownUpdate(s: StoreState, kind: string)
    ensures Reduce(s, Unknown(kind)) == s
  {
  }

  /** A session starts active in phase `selecting` with nothing left of the previous one, the details shown. */
  lemma StartResets(s: StoreState, prompt: string, now: int)
    ensures var r := Started(s, prompt, now);
      r.isCouncilActive && r.sessionPhase == Selecting && r.activeMembers == [] && r.memberStatuses == map[] &&
      r.synthesisResult == "" && r.showIndividualResponses && r.currentSession == Some(Session(now, prompt))
  {
  }

  /** A failed `fetch` or a response that is not ok ends the session in the error phase with the error's text. */
  lemma StartFailure(s: StoreState, prompt: string, apiKey: string, now: int,
                     fetch: (string, string) -> Fetched, decode: string -> Result<Update>)
    requires fetch(prompt, apiKey).FetchFailed? || !fetch(prompt, apiKey).ok
    ensures var r := AfterSession(s, prompt, apiKey, now, fetch, decode);
      r.isCouncilActive && r.sessionPhase == ErrorPhase && r.phaseMessage == ErrorMessage &&
      r.synthesisResult == (if fetch(prompt, apiKey).FetchFailed? then fetch(prompt, apiKey).message else StartFailed)
  {
  }

  /** Toggling the details twice restores the flag. */
  lemma ToggleTwice(s: StoreState)
    ensures Toggled(Toggled(s)) == s && Toggled(s).showIndividualResponses != s.showIndividualResponses
  {
  }

  /** The events folded into a state through the reducer, in order. */
  function Apply(s: StoreState, events: seq<Event>): StoreState
    decreases |events|
  {
    if events == [] then s else Apply(Reduce(s, Known(events[0])), events[1..])
  }

  lemma {:induction false} ApplyAppend(s: StoreState, a: seq<Event>, b: seq<Event>)
    ensures Apply(s, a + b) == Apply(Apply(s, a), b)
    decreases |a|
  {
    if a == [] {
      assert a + b == b;
    } else {
      assert (a + b)[1..] == a[1..] + b;
      ApplyAppend(Reduce(s, Known(a[0])), a[1..], b);
    }
  }

  /** A stream whose last event is terminal leaves the phase and result that event sets. */
  lemma LastEventDecides(s: StoreState, events: seq<Event>)
    requires |events| > 0 && Terminal(events[|events| - 1])
    ensures var r := Apply(s, events); var last := events[|events| - 1];
      (last.SynthesisComplete? ==> r.sessionPhase == Complete && r.synthesisResult == last.synthesis) &&
      (last.Error? ==> r.sessionPhase == ErrorPhase && r.synthesisResult == last.message)
  {
    var init, last := events[..|events| - 1], events[|events| - 1];
    assert events == init + [last];
    ApplyAppend(s, init, [last]);
    assert Apply(Apply(s, init), [last]) == Reduce(Apply(s, init), Known(last));
  }

  /** The JSON text of each event, in order. */
  function Jsons(json: Json, events: seq<Event>): (r: seq<string>)
    ensures |r| == |events|
  {
    seq(|events|, k requires 0 <= k < |events| => json(events[k]))
  }

  /** A frame's two lines: the data line gives its payload, the empty line nothing. */
  lemma FrameLines(line: string, rest: string)
    requires '\n' !in line && StartsWith(line, DataPrefix)
    ensures Payloads(Split(line + "\n" + ("\n" + rest), '\n')) == [line[|DataPrefix|..]] + Payloads(Split(rest, '\n'))
  {
    SplitAfter(line, '\n', "\n" + rest);
    assert "\n" + rest == [] + "\n" + rest;
    SplitAfter([], '\n', rest);
    var lines := [line] + ([[]] + Split(rest, '\n'));
    PayloadsStep(lines);
    assert lines[1..] == [[]] + Split(rest, '\n');
    PayloadsStep(lines[1..]);
    assert lines[1..][1..] == Split(rest, '\n');
  }

  /** One event's frame ahead of the rest, as text. */
  lemma ConcatFrames(json: Json, events: seq<Event>)
    requires events != []
    ensures Concat(Frames(json, events)) ==
      DataPrefix + json(events[0]) + "\n" + ("\n" + Concat(Frames(json, events[1..])))
  {
    assert Frames(json, events)[1..] == Frames(json, events[1..]);
  }

  /**
   * A chunk holding whole frames: splitting it into lines and keeping the
   * `data: ` lines gives back each event's JSON, in order, as long as no
   * JSON text holds a raw line feed (`JSON.stringify` escapes them).
   */
  lemma {:induction false} FramePayloads(json: Json, events: seq<Event>)
    requires forall k :: 0 <= k < |events| ==> '\n' !in json(events[k])
    ensures Payloads(Split(Concat(Frames(json, events)), '\n')) == Jsons(json, events)
    decreases |events|
  {
    if events == [] {
      assert Split(Concat(Frames(json, events)), '\n') == [""];
      PayloadsStep([""]);
    } else {
      var j := json(events[0]);
      ConcatFrames(json, events);
      DataLine(j);
      FrameLines(DataPrefix + j, Concat(Frames(json, events[1..])));
      FramePayloads(json, events[1..]);
      JsonsCons(json, events);
    }
  }

  lemma DataLine(j: string)
    requires '\n' !in j
    ensures '\n' !in DataPrefix + j && StartsWith(DataPrefix + j, DataPrefix) && (DataPrefix + j)[|DataPrefix|..] == j
  {
    assert forall c :: c in DataPrefix + j ==> c in DataPrefix || c in j;
  }

  lemma JsonsCons(json: Json, events: seq<Event>)
    requires events != []
    ensures Jsons(json, events) == [json(events[0])] + Jsons(json, events[1..])
  {
  }

  /** The events of consecutive chunks, run together. */
  function Flatten(groups: seq<seq<Event>>): seq<Event> {
    if groups == [] then [] else groups[0] + Flatten(groups[1..])
  }

  lemma JsonsAppend(json: Json, a: seq<Event>, b: seq<Event>)
    ensures Jsons(json, a + b) == Jsons(json, a) + Jsons(json, b)
  {
  }

  /**
   * Chunks that each carry whole frames give, chunk after chunk, the JSON
   * of every event in stream order, however the frames are grouped.
   */
  lemma {:induction false} ChunkPayloads(json: Json, groups: seq<seq<Event>>, chunks: seq<string>)
    requires |chunks| == |groups|
    requires forall k :: 0 <= k < |chunks| ==> chunks[k] == Concat(Frames(json, groups[k]))
    requires forall e: Event :: '\n' !in json(e)
    ensures AllPayloads(chunks) == Jsons(json, Flatten(groups))
    decreases |chunks|
  {
    if chunks != [] {
      FramePayloads(json, groups[0]);
      ChunkPayloads(json, groups[1..], chunks[1..]);
      JsonsAppend(json, groups[0], Flatten(groups[1..]));
    }
  }

  /** Dispatching the JSON of events that parse back to themselves folds the events in order. */
  lemma {:induction false} ReplayEvents(s: StoreState, json: Json, decode: string -> Result<Update>, events: seq<Event>)
    requires forall e: Event :: decode(json(e)) == Success(Known(e))
    ensures Replay(s, Jsons(json, events), decode) == Apply(s, events)
    decreases |events|
  {
    if events != [] {
      JsonsCons(json, events);
      assert Jsons(json, events)[1..] == Jsons(json, events[1..]);
      ReplayEvents(Reduce(s, Known(events[0])), json, decode, events[1..]);
    }
  }

  /**
   * A session whose response streams `events` in whole frames, grouped into
   * chunks in any way, ends in the state folding those events into the reset
   * store gives; with the handler's stream as `events`, `SessionOutcome`
   * says what that state holds.
   */
  lemma StreamedSession(s: StoreState, prompt: string, apiKey: string, now: int,
                        fetch: (string, string) -> Fetched, decode: string -> Result<Update>,
                        json: Json, events: seq<Event>, groups: seq<seq<Event>>, chunks: seq<string>)
    requires fetch(prompt, apiKey) == Received(true, chunks)
    requires |chunks| == |groups| && forall k :: 0 <= k < |chunks| ==> chunks[k] == Concat(Frames(json, groups[k]))
    requires Flatten(groups) == events
    requires forall e: Event :: '\n' !in json(e) && decode(json(e)) == Success(Known(e))
    ensures AfterSession(s, prompt, apiKey, now, fetch, decode) == Apply(Started(s, prompt, now), events)
  {
    ChunkPayloads(json, groups, chunks);
    ReplayEvents(Started(s, prompt, now), json, decode, events);
  }

  /**
   * Folding a session's events leaves the store active, in phase `complete`
   * holding the report when the council delivered one, and in phase `error`
   * holding the thrown message when it did not.
   */
  lemma SessionOutcome(s: StoreState, prompt: string, table: seq<(string, Member)>, answer: Inference.Provider)
    ensures var r := Apply(s, SessionEvents(prompt, table, answer));
      var outcome := Proceedings(prompt, table, answer).outcome;
      r.isCouncilActive == s.isCouncilActive &&
      (outcome.Success? ==> r.sessionPhase == Complete && r.synthesisResult == outcome.value) &&
      (outcome.Failure? ==> r.sessionPhase == ErrorPhase && r.synthesisResult == outcome.error)
  {
    var events := SessionEvents(prompt, table, answer);
    var outcome := Proceedings(prompt, table, answer).outcome;
    SessionEndsOnce(prompt, table, answer);
    EndsAsOutcome(s, events, outcome);
  }

  /** A fold over events that end with the event reporting `outcome` leaves that outcome in the store. */
  lemma EndsAsOutcome(s: StoreState, events: seq<Event>, outcome: Result<string>)
    requires |events| > 0
    requires events[|events| - 1] == (if outcome.Success? then SynthesisComplete(outcome.value) else Error(outcome.error))
    ensures var r := Apply(s, events);
      r.isCouncilActive == s.isCouncilActive &&
      (outcome.Success? ==> r.sessionPhase == Complete && r.synthesisResult == outcome.value) &&
      (outcome.Failure? ==> r.sessionPhase == ErrorPhase && r.synthesisResult == outcome.error)
  {
    LastEventDecides(s, events);
    StaysActive(s, events);
  }

  /** No update clears `isCouncilActive`. */
  lemma {:induction false} StaysActive(s: StoreState, events: seq<Event>)
    ensures Apply(s, events).isCouncilActive == s.isCouncilActive
    decreases |events|
  {
    if events != [] {
      StaysActive(Reduce(s, Known(events[0])), events[1..]);
    }
  }
}
