# MillenAI AI Council, modelled in Dafny

MillenAI is a chat client for Groq-hosted language models. Its "AI Council"
mode sends one question through four models in turn. The Researcher gathers
facts, the Analyst interprets them, the Philosopher argues the other side,
and the Judge writes a verdict. The verdict is assembled into one markdown
report. The server streams the session to the browser as server-sent events.
A client store replays those events, and the council screen splits the
finished report back into its parts.

This project models that pipeline end to end: the HTTP handler and its event
stream, the model registry, the judge's prompt and report, the client store
and hook, and the council screen and synthesis card. It also models the chat
client around it:

- the welcome screen's greeting and ask box;
- the onboarding tour;
- a chat-history row;
- the message renderer's reasoning parser;
- the inline-style pass over rendered markdown;
- the document text extractor;
- the attachment box;
- the send-message flow of the main chat screen.

Each source file becomes one Dafny module:

| module | file |
|---|---|
| `Council` | `millen-ai/api/council.js` |
| `ModelSelector` | `millen-ai/api/helpers/modelSelector.js` |
| `Synthesizer` | `millen-ai/api/helpers/synthesizer.js` |
| `CouncilStore` | `millen-ai/src/stores/councilStore.js` |
| `CouncilSession` | `millen-ai/src/hooks/useCouncilSession.jsx` |
| `CouncilInterface` | `millen-ai/src/components/council/CouncilInterface.jsx` |
| `CouncilSynthesis` | `millen-ai/src/components/council/CouncilSynthesis.jsx` |
| `WelcomeScreen` | `millen-ai/src/components/WelcomeScreen.jsx` |
| `Onboarding` | `millen-ai/src/components/OnboardingModal.jsx` |
| `ChatHistoryItem` | `millen-ai/src/components/ChatHistoryItem.jsx` |
| `ChatMessage` | `millen-ai/src/components/ChatMessage.jsx` |
| `RehypeInlineStyles` | `millen-ai/src/lib/rehype-inline-styles.js` |
| `DocumentProcessor` | `millen-ai/src/lib/documentProcessor.js` |
| `ChatInput` | `millen-ai/src/components/ChatInput.jsx` |
| `MainContent` | `millen-ai/src/components/MainContent.jsx` |

`Council` also holds the server-side types: the `Event` stream vocabulary
shared with the client, and the request and response shapes. Three further
modules hold shared definitions:

- `Inference` is the chat-completion request shape and the provider as a function from request to reply or failure.
- `Text` holds string helpers with JavaScript's semantics: `trim`, `indexOf`, `split`, `join`, `toLowerCase` on ASCII, and number formatting.
- `Wrappers` holds `Option` and `Result`.

Where a source file changes state step by step, it becomes a class with
`modifies` clauses:

- the stream controller and the Groq client of the handler;
- the zustand store;
- the onboarding tour;
- the history row;
- the attachment box;
- the chat screen;
- the ask box.

Each such method is proved equal to a pure specification function of its old
state, and the properties are proved about those functions. The model is
parametric in everything the code cannot see:

- the model provider is a function `Provider` from request to reply;
- JSON serialisation is a function `Json` from event to string;
- the PDF, spreadsheet and OCR libraries are functions from file to pages or sheets;
- the clock, the random greeting pick and the user's display name are parameters.

## Model

| member | source | states |
|---|---|---|
| `Council.Respond` | millen-ai/api/council.js:15-101 | The request is refused exactly when it is not a POST, its body is unreadable, or the prompt or key is falsy. A non-POST is 405 and the rest are 400, with "Invalid request body" exactly when the body cannot be parsed or parses to JSON `null`, whose destructuring throws into the same `catch`. The error text is "Method not allowed" for a non-POST and "Missing prompt or apiKey" for a parsed body with a falsy field. |
| `Council.Handler` | millen-ai/api/council.js:15-101 | The imperative handler returns the response `Respond` describes and makes exactly the provider calls `RequestsMade` describes. |
| `Council.Streams` | millen-ai/api/council.js:27-98 | An accepted request answers with an event stream whose frames are the session's events, and makes the calls of the proceedings for the caller's key. |
| `Council.Frames` | millen-ai/api/council.js:30-32 | One frame per event. |
| `Council.FramesAppend` | millen-ai/api/council.js:30-32 | Framing distributes over concatenation of event sequences. |
| `Council.SendUpdate` | millen-ai/api/council.js:30-32 | `sendUpdate` enqueues exactly the `data: <json>\n\n` frame of the event and records the event, leaving the stream open. |
| `Council.StreamController.Enqueue` | millen-ai/api/council.js:31 | Appends one frame to an open stream. |
| `Council.StreamController.Close` | millen-ai/api/council.js:90-92 | Closes the stream without changing its frames. |
| `Council.GroqClient.Chat` | millen-ai/api/council.js:47-51 | Each chat call is logged, and its result is the provider's answer to that request. |
| `Council.Consult` | millen-ai/api/council.js:44-78 | One member stage sends the events, makes the single call and yields the evidence (or the failure) that the specification function `Stage` gives. |
| `Council.StageFailed` | millen-ai/api/council.js:45-52 | A failed call after the "working" status ends the stage with that failure, and "complete" is not sent. |
| `Council.StageReplied` | millen-ai/api/council.js:45-53 | A reply fills the stage's evidence slot and is followed by the member's "complete" status. |
| `Council.Fill` | millen-ai/api/council.js:52 | Filling a stage's slot never changes the user's prompt in the evidence. |
| `Council.Adjudicate` | millen-ai/api/council.js:80-85 | The judge stage sends "judging" and the synthesizing phase, calls the judge, then sends the report, as `Verdict` says. |
| `Council.Convene` | millen-ai/api/council.js:44-85 | Running the stages from `stage` on sends the events and makes the calls of `FromStage`, stopping at the first failure. |
| `Council.Deliberate` | millen-ai/api/council.js:35-85 | The try block as a whole: the opening phase and member list, then every stage, as `Proceedings` says. |
| `Council.ProceedingsRun` | millen-ai/api/council.js:40-85 | The proceedings are the opening events followed by the run of the stages from the first one. |
| `Council.Start` | millen-ai/api/council.js:29-93 | The stream's `start` sends exactly `SessionEvents`: the proceedings plus an `error` event when they failed. It always closes the stream. |
| `Council.StopsAt` | millen-ai/api/council.js:87-89 | A failing stage ends the run: its events and calls are the last ones. |
| `Council.GoesOn` | millen-ai/api/council.js:44-85 | A succeeding stage is followed by the run from the next stage on its filled evidence. |
| `Inference.UserRequest` | millen-ai/api/council.js:47-51 | A member's request is one user message with no temperature or reasoning effort. |
| `CouncilProperties.NoTerminalAppend` | millen-ai/api/council.js:40-85 | Two runs of non-terminal events make a non-terminal run. |
| `CouncilProperties.StageSendsNoTerminal` | millen-ai/api/council.js:44-78 | A member stage never sends `synthesis_complete` or `error`. |
| `CouncilProperties.VerdictEnds` | millen-ai/api/council.js:80-85 | The judge stage sends `synthesis_complete` last exactly when it succeeds, and nothing terminal before. |
| `CouncilProperties.EndsAfter` | millen-ai/api/council.js:80-85 | Non-terminal events followed by `synthesis_complete` only on success end well. |
| `CouncilProperties.FromStageEnds` | millen-ai/api/council.js:44-85 | The run from any stage ends well: only its last event may be terminal, and that is `synthesis_complete` exactly on success. |
| `CouncilProperties.EndsAfterStage` | millen-ai/api/council.js:44-78 | Prefixing non-terminal events keeps a run ending well. |
| `CouncilProperties.SessionEndsOnce` | millen-ai/api/council.js:34-92 | Every stream carries exactly one terminal event, as its last event: `synthesis_complete` with the report on success, `error` with the message on failure. |
| `CouncilProperties.SessionSplit` | millen-ai/api/council.js:40-85 | The proceedings split into a non-terminal opening without member statuses and the run of the stages. |
| `CouncilProperties.OpeningPlain` | millen-ai/api/council.js:40-42 | The opening events are neither terminal nor member statuses. |
| `CouncilProperties.EndsOnce` | millen-ai/api/council.js:87-89 | Appending the error event to a failed run leaves exactly one terminal event, at the end. |
| `CouncilProperties.StageOneCall` | millen-ai/api/council.js:45-51 | A member stage makes at most one call. It makes none when the role is missing, and otherwise it calls that member and succeeds exactly on a reply. |
| `CouncilProperties.VerdictOneCall` | millen-ai/api/council.js:81-84 | The judge stage makes at most one call, to the judge, and succeeds exactly on a reply. |
| `CouncilProperties.LastCall` | millen-ai/api/council.js:81-85 | The judge's call is the last of the run. |
| `CouncilProperties.CallFails` | millen-ai/api/council.js:87-89 | A failed call is the last call made. |
| `CouncilProperties.CallReplied` | millen-ai/api/council.js:44-85 | A replied call keeps the run stopping at its first failure. |
| `CouncilProperties.FollowsCons` | millen-ai/api/council.js:44-85 | Calls in role order stay in role order when a call of an earlier stage is put in front. |
| `CouncilProperties.RepliedCons` | millen-ai/api/council.js:44-85 | A replied call in front does not change whether all calls were replied. |
| `CouncilProperties.FromStageCalls` | millen-ai/api/council.js:44-85 | From any stage, calls go to the members in role order, one per stage. Every call but the last was answered, and the run fails exactly when the last call failed. |
| `CouncilProperties.FromStageByRoles` | millen-ai/api/council.js:45 | The run depends on the member list only through which member holds each role. |
| `CouncilProperties.FindRoleOfPermutation` | millen-ai/api/council.js:45 | With unique roles, reordering the members does not change whom `find` returns. |
| `CouncilProperties.SelectionOrderIrrelevant` | millen-ai/api/helpers/modelSelector.js:40-44 | With unique roles, sorting the registry does not change the run. |
| `CouncilProperties.NoCompleteFor` | millen-ai/api/council.js:53 | "complete" is sent only for a member that holds one of the remaining stages' roles. |
| `CouncilProperties.CompleteOnlyForStageMember` | millen-ai/api/council.js:53 | A stage sends "complete" only for the member that holds its role. |
| `CouncilProperties.NotInAppend` | millen-ai/api/council.js:44-85 | An event absent from both parts is absent from their concatenation. |
| `CouncilProperties.RolesOfMembers` | millen-ai/api/helpers/modelSelector.js:4-37 | In the shipped registry each role is found at its index, and the ids are distinct. |
| `CouncilProperties.JudgeNeverComplete` | millen-ai/api/council.js:80-85 | The judge is never reported "complete": the client sees it "judging" until the report or the error arrives. |
| `CouncilProperties.JudgeNeverCompleteInStages` | millen-ai/api/council.js:44-78 | No member stage reports the judge complete. |
| `CouncilProperties.NotInSession` | millen-ai/api/council.js:40-89 | A member status absent from the stages is absent from the whole stream. |
| `CouncilProperties.SessionCalls` | millen-ai/api/council.js:44-85 | A session calls the members in role order, stops at the first failed call, and fails exactly when the last call failed. |
| `CouncilProperties.Replied` | millen-ai/api/council.js:45-54 | A replied stage unfolds into its two statuses and its call, followed by the rest of the run. |
| `CouncilProperties.JudgeReplied` | millen-ai/api/council.js:80-85 | A replying judge gives "judging", the synthesizing phase and the final report. |
| `CouncilProperties.FullRun` | millen-ai/api/council.js:44-85 | When all four calls reply, the stages send the ten events in order and make the four calls in role order. Each prompt carries the earlier replies, and the outcome is the report. |
| `CouncilProperties.Chain` | millen-ai/api/council.js:44-85 | Three chained stage runs concatenate their events and calls. |
| `CouncilProperties.RegistryRoles` | millen-ai/api/helpers/modelSelector.js:4-37 | The shipped registry has a member for every role, so the handler's `find` never comes back empty. |
| `CouncilProperties.TableSession` | millen-ai/api/council.js:34-85 | With the shipped registry and four replies, the stream is exactly the eleven events, and the calls go to compound-beta, llama-3.1-8b-instant, llama-3.3-70b-versatile and openai/gpt-oss-120b. |
| `CouncilProperties.TwoSlots` | millen-ai/api/council.js:61 | Two interpolated values sit at the offsets their template fixes. |
| `CouncilProperties.ThreeSlots` | millen-ai/api/council.js:73 | Three interpolated values sit at the offsets their template fixes. |
| `CouncilProperties.ResearchPromptCarries` | millen-ai/api/council.js:49 | The research prompt quotes the user's prompt. |
| `CouncilProperties.AnalysisPromptCarries` | millen-ai/api/council.js:61 | The analysis prompt carries the research, then the quoted prompt. |
| `CouncilProperties.PhilosophyPromptCarries` | millen-ai/api/council.js:73 | The philosophy prompt carries the quoted prompt, the research and the analysis, in that order. |
| `CouncilProperties.PromptReadsEarlierSlots` | millen-ai/api/council.js:49-73 | A stage's prompt depends only on the prompt and the earlier stages' replies. |
| `CouncilProperties.FrameAt` | millen-ai/api/council.js:30-32 | Frame `i` is the frame of event `i`. |
| `CouncilProperties.StreamFrames` | millen-ai/api/council.js:27-98 | Every frame of the response is `data: ` + the event's JSON + a blank line, one per session event. |
| `CouncilProperties.RefusalMakesNoCalls` | millen-ai/api/council.js:16-25 | A refused request calls no model. So does an accepted one without a researcher. Otherwise the first call is the research call on the user's prompt. |
| `ModelSelector.Values` | millen-ai/api/helpers/modelSelector.js:41 | `Object.values` keeps the registry's entries in order. |
| `ModelSelector.Insert` | millen-ai/api/helpers/modelSelector.js:42 | Inserting into a sorted list keeps it sorted and adds exactly that member. |
| `ModelSelector.SortedCons` | millen-ai/api/helpers/modelSelector.js:42 | A member no later than the head of a sorted list extends it sorted. |
| `ModelSelector.SortByPriority` | millen-ai/api/helpers/modelSelector.js:42 | The sort's result is sorted by priority and is a permutation of its input. |
| `ModelSelector.SortKeepsSorted` | millen-ai/api/helpers/modelSelector.js:42 | A list already sorted is left unchanged. |
| `ModelSelector.SelectOptimalModels` | millen-ai/api/helpers/modelSelector.js:40-44 | The council is the registry's members, sorted by priority, none added or lost. |
| `ModelSelector.FindRole` | millen-ai/api/council.js:45 | `find` returns a member holding the role, and comes back empty exactly when no member holds it. |
| `ModelSelector.FindRoleFirst` | millen-ai/api/council.js:45 | The member `find` returns is the first holding the role: no member before it holds the role. |
| `ModelSelector.SelectionOfTable` | millen-ai/api/helpers/modelSelector.js:4-44 | The shipped registry selects the four members in role order, with priorities 0 to 3. |
| `ModelSelector.MembersInRoleOrder` | millen-ai/api/helpers/modelSelector.js:4-37 | Member `i` has role `i` and priority `i`. |
| `ModelSelector.TableValues` | millen-ai/api/helpers/modelSelector.js:4-37 | The registry's values are the four members, already sorted. |
| `ModelSelector.TableWellFormed` | millen-ai/api/helpers/modelSelector.js:4-37 | Every key is its member's id and every token budget is positive. Roles, priorities and keys are pairwise distinct. |
| `Synthesizer.CreateFinalVerdict` | millen-ai/api/helpers/synthesizer.js:3-62 | The verdict succeeds exactly when the judge replies. It is then the final report around the reply, and otherwise it carries the call's error message. |
| `Synthesizer.JudgeRequestShape` | millen-ai/api/helpers/synthesizer.js:29-35 | The judge call uses the judge's id and token budget, one user message with the prompt, temperature 0.5 and reasoning effort "medium". |
| `Synthesizer.JudgePromptCarriesEvidence` | millen-ai/api/helpers/synthesizer.js:4-27 | The judge's prompt carries, in order, the quoted request, the three headed evidence blocks and the verdict heading. |
| `Synthesizer.InOrder` | millen-ai/api/helpers/synthesizer.js:4-27 | Non-empty pieces of a concatenation occur at increasing offsets. |
| `CouncilInterface.FencedAtUnique` | millen-ai/src/components/council/CouncilInterface.jsx:75-76 | The marker regex matches in at most one place: the first START and the first END after it. |
| `CouncilInterface.CaptureMeaning` | millen-ai/src/components/council/CouncilInterface.jsx:75-78 | A role's content is found exactly when the regex matches with a capture that is not blank. It is then the trimmed text between the markers. |
| `CouncilInterface.NoStartCase` | millen-ai/src/components/council/CouncilInterface.jsx:75-77 | Without a START marker (in any letter case) nothing matches and nothing is pushed. |
| `CouncilInterface.NoEndCase` | millen-ai/src/components/council/CouncilInterface.jsx:75-77 | Without an END marker after the first START marker, nothing matches and nothing is pushed. |
| `CouncilInterface.FoundCase` | millen-ai/src/components/council/CouncilInterface.jsx:75-78 | With both markers, the only match spans the first START to the first END after it, and the content is its trimmed inside. |
| `CouncilInterface.NoStartNoMatch` | millen-ai/src/components/council/CouncilInterface.jsx:75-76 | No START occurrence means no match. |
| `CouncilInterface.NoEndNoMatch` | millen-ai/src/components/council/CouncilInterface.jsx:75-76 | No END after the first START means no match. |
| `CouncilInterface.FoundIsOnlyMatch` | millen-ai/src/components/council/CouncilInterface.jsx:75-76 | The first START and the first END after it form the match, and no other pair does. |
| `CouncilInterface.FirstMatchUnique` | millen-ai/src/components/council/CouncilInterface.jsx:75-76 | The first occurrence of a marker is unique. |
| `CouncilInterface.Analyses` | millen-ai/src/components/council/CouncilInterface.jsx:71-82 | At most one entry per role. Every entry is a searched role with its section's content, and every role whose section is found has an entry. |
| `CouncilInterface.ParseIndividualAnalyses` | millen-ai/src/components/council/CouncilInterface.jsx:71-82 | The loop over the three roles returns `Analyses` of the text. |
| `CouncilInterface.ParsedInRoleOrder` | millen-ai/src/components/council/CouncilInterface.jsx:72-80 | The entries come in the order Researcher, Analyst, Philosopher, each present exactly when its section is found. |
| `CouncilInterface.ThreeRoles` | millen-ai/src/components/council/CouncilInterface.jsx:74-80 | Three roles give their three optional entries, in order. |
| `CouncilInterface.AnalysesStep` | millen-ai/src/components/council/CouncilInterface.jsx:74-80 | One more role appends its entry, if found. |
| `CouncilInterface.MarkerShape` | millen-ai/src/components/council/CouncilInterface.jsx:75 | A marker line starts `--- [` with the role at offset 5. It holds no line feed when its parts hold none, and its only `[` is at offset 4. |
| `CouncilInterface.MarkerDistinct` | millen-ai/src/components/council/CouncilInterface.jsx:75 | Markers of roles that differ at their fifth letter never occur inside one another. |
| `CouncilInterface.FencedLacks` | millen-ai/api/helpers/synthesizer.js:48-58 | A fenced block lacks any dash-led one-line pattern that its markers and contents lack. |
| `CouncilInterface.HeadLacks` | millen-ai/api/helpers/synthesizer.js:38-47 | The report's head lacks a marker that the prompt and the verdict lack. |
| `CouncilInterface.CaptureOfFence` | millen-ai/src/components/council/CouncilInterface.jsx:75-78 | A block between indented marker lines yields its trimmed inside. |
| `CouncilInterface.FencedSection` | millen-ai/src/components/council/CouncilInterface.jsx:75-78 | The section of a role fenced in the report is its contribution, trimmed. |
| `CouncilInterface.ReportSections` | millen-ai/src/components/council/CouncilInterface.jsx:71-82 | In a report of three fenced blocks, each role's section is its own block's trimmed content. |
| `CouncilInterface.AnalysisRolesPlain` | millen-ai/src/components/council/CouncilInterface.jsx:72 | The three role names differ at their fifth letter, in any case. |
| `CouncilInterface.MarkerFreeLacks` | millen-ai/src/components/council/CouncilInterface.jsx:75 | Marker-free text lacks all six marker lines. |
| `CouncilInterface.HeadLacksStarts` | millen-ai/api/helpers/synthesizer.js:38-47 | With a marker-free prompt and verdict, the head lacks the three START markers. |
| `CouncilInterface.ParseReportRoundTrip` | millen-ai/src/components/council/CouncilInterface.jsx:71-83 | Parsing the judge's report gives back each member's contribution, trimmed, in role order. Blank contributions are dropped. This holds when no part contains a marker line. |
| `CouncilInterface.ReportRoundTrip` | millen-ai/api/helpers/synthesizer.js:38-61 | The same round trip, for a text equal to the final report. |
| `CouncilInterface.Progress` | millen-ai/src/components/council/CouncilInterface.jsx:66-67 | The ring is at most full. It is empty exactly for an unlisted phase and full exactly in "complete" or "error". |
| `CouncilInterface.ScreenOf` | millen-ai/src/components/council/CouncilInterface.jsx:69-149 | Nothing in "idle". Member cards and the ring while working. Otherwise the report and its parsed sections, with the error panel exactly in "error". |
| `CouncilInterface.WorkingNeverFull` | millen-ai/src/components/council/CouncilInterface.jsx:66-67 | While working, the ring is never full, and it is at least 10 for a listed phase. |
| `CouncilInterface.ProgressFollowsSession` | millen-ai/src/components/council/CouncilInterface.jsx:66-67 | The ring grows through idle, selecting, synthesizing and complete, and "error" fills it like "complete". |
| `CouncilSynthesis.LineEnd` | millen-ai/src/components/council/CouncilSynthesis.jsx:10 | The lazy `.+?` stops within the text. |
| `CouncilSynthesis.LineEndMeaning` | millen-ai/src/components/council/CouncilSynthesis.jsx:10 | The capture ends on one line, at a line feed or the end of the text. |
| `CouncilSynthesis.LineEndRuns` | millen-ai/src/components/council/CouncilSynthesis.jsx:10 | The capture runs to the first line feed when no other terminator comes first. |
| `CouncilSynthesis.BacktrackMeaning` | millen-ai/src/components/council/CouncilSynthesis.jsx:10 | Giving back white space from `\s*` yields a capture that is a valid match. |
| `CouncilSynthesis.TitleMatchMeaning` | millen-ai/src/components/council/CouncilSynthesis.jsx:10 | A match is a `**Regarding**:` label followed by white space and a one-line, non-empty capture that ends at a line feed or the end. |
| `CouncilSynthesis.LineEndReaches` | millen-ai/src/components/council/CouncilSynthesis.jsx:10 | A line-terminator-free run up to a line feed or the end is where the lazy `.+?` stops. |
| `CouncilSynthesis.CaptureFound` | millen-ai/src/components/council/CouncilSynthesis.jsx:10 | Giving back white space finds a capture whenever one starts at or before the point backtracking begins. |
| `CouncilSynthesis.AfterLabelFound` | millen-ai/src/components/council/CouncilSynthesis.jsx:10 | Whenever the text after a label holds a capture, the `\s*(.+?)(?=\n|$)` tail matches. |
| `CouncilSynthesis.BlankWithin` | millen-ai/src/components/council/CouncilSynthesis.jsx:10 | A blank prefix lies inside the white space that greedy `\s*` takes. |
| `CouncilSynthesis.MatchableShift` | millen-ai/src/components/council/CouncilSynthesis.jsx:10 | Dropping the first character moves every candidate match position down by one. |
| `CouncilSynthesis.TitleMatchLeftmost` | millen-ai/src/components/council/CouncilSynthesis.jsx:10 | The match is the leftmost one: the capture after the first label whose line holds a capture. |
| `CouncilSynthesis.NoMatchableNoMatch` | millen-ai/src/components/council/CouncilSynthesis.jsx:10 | With no such label, the expression does not match. |
| `CouncilSynthesis.LabelLineMatchable` | millen-ai/src/components/council/CouncilSynthesis.jsx:10 | A label followed by white space and a one-line capture is a position where the expression can match. |
| `CouncilSynthesis.TitleMatchComplete` | millen-ai/src/components/council/CouncilSynthesis.jsx:10 | A text holding such a label line always matches, so the title is not the fallback. |
| `CouncilSynthesis.LeastMatchable` | millen-ai/src/components/council/CouncilSynthesis.jsx:10 | Among the matchable positions there is a least one, where the left-to-right scan stops. |
| `CouncilSynthesis.NoLabelNoMatch` | millen-ai/src/components/council/CouncilSynthesis.jsx:10 | Without the label (in any case) there is no match. |
| `CouncilSynthesis.TitleIsOneLine` | millen-ai/src/components/council/CouncilSynthesis.jsx:10-11 | The title never spans lines. |
| `CouncilSynthesis.TitleFallback` | millen-ai/src/components/council/CouncilSynthesis.jsx:11 | Without the label the title is "Analysis". |
| `CouncilSynthesis.SkipPrefix` | millen-ai/src/components/council/CouncilSynthesis.jsx:10 | A star-free prefix cannot hold the match. |
| `CouncilSynthesis.LabelThenPrompt` | millen-ai/src/components/council/CouncilSynthesis.jsx:10 | A label, a space and a one-line prompt capture the prompt without its leading white space. |
| `CouncilSynthesis.ReportBegins` | millen-ai/api/helpers/synthesizer.js:38-40 | The final report begins with its heading and the `**Regarding**: <prompt>` line. |
| `CouncilSynthesis.TitleRoundTrip` | millen-ai/src/components/council/CouncilSynthesis.jsx:10-11 | The card's title for a final report is the user's one-line prompt, trimmed. |
| `CouncilSynthesis.TitleAfterOpening` | millen-ai/src/components/council/CouncilSynthesis.jsx:10-11 | Any text that opens like the report gets the prompt, trimmed, as its title. |
| `CouncilSynthesis.DetailsButton` | millen-ai/src/components/council/CouncilSynthesis.jsx:25-29 | The details button exists exactly when there are parsed sections, and it reads "Hide Details" exactly when they are shown. |
| `CouncilStore.DataLines` | millen-ai/src/stores/councilStore.js:49 | Every line kept starts with `data: `. |
| `CouncilStore.Payloads` | millen-ai/src/stores/councilStore.js:49-51 | One payload per `data: ` line. |
| `CouncilStore.Store.constructor` | millen-ai/src/stores/councilStore.js:8-17 | The store starts idle and inactive, with no session, no members, no statuses, no result, and details shown. |
| `CouncilStore.Store.HandleCouncilUpdate` | millen-ai/src/stores/councilStore.js:60-84 | The new state is the old one reduced by the update. |
| `CouncilStore.Store.Fail` | millen-ai/src/stores/councilStore.js:55-57 | The catch sets the error phase, its message and the error's text, and nothing else. |
| `CouncilStore.Store.StartCouncilSession` | millen-ai/src/stores/councilStore.js:20-58 | The action resets the session, fetches, and replays every chunk's `data: ` lines. It fails on a refused response or an undecodable line, and the end state is `AfterSession`. |
| `CouncilStore.Store.DispatchLines` | millen-ai/src/stores/councilStore.js:49-53 | The inner loop dispatches one chunk's payloads. It either stops on the first undecodable one, in the state a replay would fail in, or leaves the replay of what follows unchanged. |
| `CouncilStore.Store.ResetCouncil` | millen-ai/src/stores/councilStore.js:86 | Resetting only deactivates the council and sets the phase to idle. |
| `CouncilStore.Store.ToggleIndividualResponses` | millen-ai/src/stores/councilStore.js:87 | The toggle flips only the details flag. |
| `CouncilStore.PayloadsStep` | millen-ai/src/stores/councilStore.js:49-51 | A `data: ` line contributes its text after the prefix, and any other line contributes nothing. |
| `CouncilStore.TakeLine` | millen-ai/src/stores/councilStore.js:50-57 | An undecodable payload fails the session with its parse error, and a decoded one is reduced before the rest. |
| `CouncilStore.PendingForMeaning` | millen-ai/src/stores/councilStore.js:67 | The status map has exactly the selected members' ids, each "pending". |
| `CouncilStore.PhaseUpdate` | millen-ai/src/stores/councilStore.js:64-65 | A `phase` update sets the phase and its message and nothing else. |
| `CouncilStore.MembersSelectedUpdate` | millen-ai/src/stores/councilStore.js:66-67 | `members_selected` sets the members and a fresh pending status for each, and nothing else. |
| `CouncilStore.MemberStatusUpdate` | millen-ai/src/stores/councilStore.js:68-71 | `member_status` sets that member's status and leaves every other status, and the rest of the state, as it was. |
| `CouncilStore.TerminalUpdate` | millen-ai/src/stores/councilStore.js:72-79 | `synthesis_complete` and `error` set the phase, its message and the result text, and nothing else. |
| `CouncilStore.UnknownUpdate` | millen-ai/src/stores/councilStore.js:80-81 | An unknown update type changes nothing. |
| `CouncilStore.StartResets` | millen-ai/src/stores/councilStore.js:21-30 | Starting activates the council in "selecting" with no members, no statuses and no result, details shown and the session stamped with the time and prompt. |
| `CouncilStore.StartFailure` | millen-ai/src/stores/councilStore.js:39-41 | A failed fetch or a non-ok response leaves the council active in the error phase. The result is the thrown message, or "Failed to start council session.". |
| `CouncilStore.ToggleTwice` | millen-ai/src/stores/councilStore.js:87 | Toggling twice restores the state, and one toggle flips the flag. |
| `CouncilStore.ApplyAppend` | millen-ai/src/stores/councilStore.js:60-84 | Applying events in two parts is applying them all. |
| `CouncilStore.LastEventDecides` | millen-ai/src/stores/councilStore.js:72-79 | When the last event is terminal, it decides the final phase and result. |
| `CouncilStore.Jsons` | millen-ai/src/stores/councilStore.js:51 | One JSON text per event. |
| `CouncilStore.FrameLines` | millen-ai/src/stores/councilStore.js:49 | A frame's line followed by its blank line yields exactly its payload. |
| `CouncilStore.ConcatFrames` | millen-ai/api/council.js:30-32 | Consecutive frames are `data: ` + JSON + a blank line each. |
| `CouncilStore.FramePayloads` | millen-ai/src/stores/councilStore.js:48-51 | Splitting the server's frames on line feeds and keeping the `data: ` lines gives back the events' JSON, in order, when no JSON holds a line feed. |
| `CouncilStore.JsonsCons` | millen-ai/src/stores/councilStore.js:51 | The JSON texts of a non-empty sequence start with its first event's. |
| `CouncilStore.JsonsAppend` | millen-ai/src/stores/councilStore.js:51 | The JSON texts of two parts concatenate. |
| `CouncilStore.ChunkPayloads` | millen-ai/src/stores/councilStore.js:45-54 | Chunks that each carry whole frames, grouped in any way, yield all the events' JSON in order. |
| `CouncilStore.ReplayEvents` | millen-ai/src/stores/councilStore.js:50-53 | Replaying the JSON of events that decode to themselves is applying the events. |
| `CouncilStore.StreamedSession` | millen-ai/src/stores/councilStore.js:20-58 | A session whose response streams whole frames of some events ends as those events applied to the freshly started state. |
| `CouncilStore.SessionOutcome` | millen-ai/src/stores/councilStore.js:60-84 | Applying the server's session events leaves the council's activity unchanged. The store ends "complete" with the report when the proceedings succeed, and "error" with the message otherwise. Composed with `StreamedSession`, this is the client's end state for a whole council run. |
| `CouncilStore.EndsAsOutcome` | millen-ai/src/stores/councilStore.js:72-79 | Events ending in the outcome's terminal event end the store in that outcome. |
| `CouncilStore.StaysActive` | millen-ai/src/stores/councilStore.js:60-84 | No update changes whether the council is active. |
| `CouncilSession.GetApiKey` | millen-ai/src/hooks/useCouncilSession.jsx:8-15 | A key returned is never empty. |
| `CouncilSession.KeyMissing` | millen-ai/src/hooks/useCouncilSession.jsx:8-15 | There is no key exactly when the settings are absent, unparsable, null, or lack a non-empty key. Otherwise it is the stored key. |
| `CouncilSession.AskCouncil` | millen-ai/src/hooks/useCouncilSession.jsx:17-34 | Without a key, or with a blank topic, it shows the matching toast and leaves the store unchanged. Otherwise it starts a session with the untrimmed prompt. |
| `CouncilSession.ConvenesOnlyWithKeyAndTopic` | millen-ai/src/hooks/useCouncilSession.jsx:19-26 | A session starts exactly with a key and a non-blank topic, and the key is checked first. |
| `CouncilSession.SessionFlags` | millen-ai/src/hooks/useCouncilSession.jsx:36-37 | A started session is processing and cannot be asked again, and a terminal event ends the processing. |
| `CouncilSession.ResetAllowsAsking` | millen-ai/src/hooks/useCouncilSession.jsx:36-37 | After a reset, asking is allowed exactly when a key is stored. |
| `DocumentProcessor.ExtractTextFromPdf` | millen-ai/src/lib/documentProcessor.js:12-22 | The loop appends each page's items, joined by spaces, and a blank line, in page order. The result is that text trimmed. |
| `DocumentProcessor.ExtractTextFromExcel` | millen-ai/src/lib/documentProcessor.js:30-40 | The loop appends each sheet's `--- SHEET: name ---` line, its CSV and a blank line, in workbook order. The result is that text trimmed. |
| `DocumentProcessor.ProcessFile` | millen-ai/src/lib/documentProcessor.js:75-112 | It succeeds exactly when the extractor for the file's kind succeeds, with the name, the kind and the trimmed content. Any extractor error becomes the single "Could not process" error naming the file. |
| `DocumentProcessor.PdfPagesJoined` | millen-ai/src/lib/documentProcessor.js:15-21 | The PDF text is each page's items joined by spaces, the pages separated by blank lines, trimmed. |
| `DocumentProcessor.ExcelSheetsJoined` | millen-ai/src/lib/documentProcessor.js:33-39 | The workbook text is each sheet's header line and CSV text, the sheets separated by blank lines, trimmed. |
| `DocumentProcessor.ExcelStartsWithFirstSheet` | millen-ai/src/lib/documentProcessor.js:33-39 | A workbook's text starts with `--- SHEET: <first sheet name> ---`, whatever its sheets hold. |
| `DocumentProcessor.ExtensionAfterLastDot` | millen-ai/src/lib/documentProcessor.js:116 | The extension is the piece after the last dot, lower-cased. |
| `DocumentProcessor.ExtensionWithoutDot` | millen-ai/src/lib/documentProcessor.js:116 | A name without a dot is its own extension, lower-cased. |
| `DocumentProcessor.MimeCaseIgnored` | millen-ai/src/lib/documentProcessor.js:115 | The MIME type's letter case never changes the kind. |
| `DocumentProcessor.ImageFirst` | millen-ai/src/lib/documentProcessor.js:118 | Any `image/` type is an image, whatever the name says. |
| `DocumentProcessor.PdfOnlyByMime` | millen-ai/src/lib/documentProcessor.js:119 | A file is a PDF exactly when its MIME type is `application/pdf`. |
| `DocumentProcessor.PdfNameWithoutMime` | millen-ai/src/lib/documentProcessor.js:114-127 | A `.pdf` name without a MIME type is unsupported: PDF is recognised only by type. |
| `DocumentProcessor.UnsupportedContent` | millen-ai/src/lib/documentProcessor.js:100-102 | An unsupported file resolves to the not-supported message naming it, which trimming leaves unchanged. |
| `DocumentProcessor.KeptMeaning` | millen-ai/src/lib/documentProcessor.js:50 | A CSV row keeps exactly its entries whose key and value are both non-empty. |
| `DocumentProcessor.CsvLines` | millen-ai/src/lib/documentProcessor.js:47-54 | The CSV text has one line per row, each that row's `key: value` list, when no field holds a line feed. |
| `DocumentProcessor.RowLacks` | millen-ai/src/lib/documentProcessor.js:49-52 | A row's line holds no line feed when its fields hold none. |
| `ChatMessage.DigitsFrom` | millen-ai/src/components/ChatMessage.jsx:34 | `\d+` takes the longest run of digits at the position. |
| `ChatMessage.ParseStep` | millen-ai/src/components/ChatMessage.jsx:18-40 | A piece becomes a search step exactly when it starts with `URL:`. |
| `ChatMessage.CapturesConcat` | millen-ai/src/components/ChatMessage.jsx:15-16 | The pieces from the first `URL:` on join back into the text. |
| `ChatMessage.SplitRoundTrip` | millen-ai/src/components/ChatMessage.jsx:15-16 | The split loses nothing: its pieces join back into the trace. |
| `ChatMessage.NoMatchInPrefix` | millen-ai/src/components/ChatMessage.jsx:15 | A prefix holds no `URL:` that the whole text lacks there. |
| `ChatMessage.MatchStarts` | millen-ai/src/components/ChatMessage.jsx:15 | A match position begins a suffix that starts with `URL:`. |
| `ChatMessage.NoSelfOverlap` | millen-ai/src/components/ChatMessage.jsx:15 | `URL:` cannot recur within its own first four letters. |
| `ChatMessage.CapturesShape` | millen-ai/src/components/ChatMessage.jsx:15-16 | Every piece after the first `URL:` is empty or one `URL:` with no other inside it. |
| `ChatMessage.SplitShape` | millen-ai/src/components/ChatMessage.jsx:15-16 | The first piece holds no `URL:`, and every later piece is empty or exactly one `URL:` section. |
| `ChatMessage.KeepMeaning` | millen-ai/src/components/ChatMessage.jsx:16 | The filter keeps exactly the pieces that are not blank. |
| `ChatMessage.KeepOne` | millen-ai/src/components/ChatMessage.jsx:16 | A single piece is kept exactly when it is not blank. |
| `ChatMessage.KeepAppend` | millen-ai/src/components/ChatMessage.jsx:16 | The filter splits over any concatenation. With `KeepOne` this fixes the result piece by piece, so the kept pieces stay in input order and keep their number. |
| `ChatMessage.LacksNotStarts` | millen-ai/src/components/ChatMessage.jsx:19 | A piece without `URL:` does not start with it. |
| `ChatMessage.StartIsMatch` | millen-ai/src/components/ChatMessage.jsx:19 | Starting with `URL:` is a match at offset 0. |
| `ChatMessage.KeptCaptures` | millen-ai/src/components/ChatMessage.jsx:16-19 | The kept pieces from the first `URL:` on all start with `URL:`. |
| `ChatMessage.OnlyFirstIsText` | millen-ai/src/components/ChatMessage.jsx:12-40 | Only the first step can be a text step. It is one exactly when the text before the first `URL:` is not blank, and it then holds that text unchanged. |
| `ChatMessage.KeptFirst` | millen-ai/src/components/ChatMessage.jsx:16-19 | The first kept piece is text exactly when the text before the first `URL:` is not blank. |
| `ChatMessage.StepIdsDistinct` | millen-ai/src/components/ChatMessage.jsx:36-39 | Step ids are pairwise distinct, so the React keys never clash. |
| `ChatMessage.UrlIsOneLine` | millen-ai/src/components/ChatMessage.jsx:26-30 | A search step's address never holds a line feed. |
| `ChatMessage.SearchWithMarker` | millen-ai/src/components/ChatMessage.jsx:22-27 | With the "Search Results" marker, the address is the line before it and the results are the cleaned text after it. |
| `ChatMessage.SearchWithoutMarker` | millen-ai/src/components/ChatMessage.jsx:28-32 | Without the marker, the address is the first line and the results are the cleaned remaining lines. |
| `ChatMessage.LineRefBecomesBreak` | millen-ai/src/components/ChatMessage.jsx:34 | `L<digits>: ` becomes a line feed. |
| `ChatMessage.CitationBecomesBracket` | millen-ai/src/components/ChatMessage.jsx:34 | `【<digits> - ` becomes `【`. |
| `ChatMessage.DigitsAt` | millen-ai/src/components/ChatMessage.jsx:34 | A digit run followed by a non-digit is taken whole. |
| `ChatMessage.DaggersGone` | millen-ai/src/components/ChatMessage.jsx:34 | No `†` survives its replacement, and text without one is unchanged. |
| `ChatMessage.CitationsAddNothing` | millen-ai/src/components/ChatMessage.jsx:34 | The citation replacement introduces no character other than `【`. |
| `ChatMessage.InSuffixNot` | millen-ai/src/components/ChatMessage.jsx:34 | A character absent from a text is absent from its suffixes. |
| `ChatMessage.CleanupDropsDaggers` | millen-ai/src/components/ChatMessage.jsx:34 | Cleaned search results never hold `†`. |
| `RehypeInlineStyles.VisitStep` | millen-ai/src/lib/rehype-inline-styles.js:15-80 | One visit keeps the node's kind, tag and number of children. It writes an element's `style` over any preset from its parent `pre`, and visits each child with the preset its parent wrote. |
| `RehypeInlineStyles.VisitStyles` | millen-ai/src/lib/rehype-inline-styles.js:15-80 | After the walk, every element's `style` is the string of its own tag's final style, whatever preset its parent wrote. |
| `RehypeInlineStyles.VisitKeepsRest` | millen-ai/src/lib/rehype-inline-styles.js:15-80 | The walk, as written or corrected, changes nothing but `style` properties: shape, tags, texts and other properties stay. |
| `RehypeInlineStyles.StyleDropped` | millen-ai/src/lib/rehype-inline-styles.js:70-79 | Writing `style` (after a preset or not) touches no other property. |
| `RehypeInlineStyles.StyleTwice` | millen-ai/src/lib/rehype-inline-styles.js:70-79 | Writing the same style again, after any preset, changes nothing. |
| `RehypeInlineStyles.VisitIdempotent` | millen-ai/src/lib/rehype-inline-styles.js:15-80 | Visiting a visited tree again changes nothing, for either walk. |
| `RehypeInlineStyles.InlineStylesTwice` | millen-ai/src/lib/rehype-inline-styles.js:13-82 | The plugin is idempotent. Its output is fully styled and differs from its input only in `style` properties. |
| `RehypeInlineStyles.PresetOverwritten` | millen-ai/src/lib/rehype-inline-styles.js:67-79 | As written, the leading `code` of a `pre` ends with the `code` style and its grey `#f0f0f0` background, not the transparent preset. |
| `RehypeInlineStyles.CodeStyleNotPreset` | millen-ai/src/lib/rehype-inline-styles.js:50-79 | The serialised `code` style differs from the preset. |
| `RehypeInlineStyles.CodeStyleStart` | millen-ai/src/lib/rehype-inline-styles.js:15-79 | The serialised `code` style starts with `font-family`. |
| `RehypeInlineStyles.CodeIsGrey` | millen-ai/src/lib/rehype-inline-styles.js:50-58 | The `code` style's background is `#f0f0f0`. |
| `RehypeInlineStyles.FixedKeepsPreset` | millen-ai/src/lib/rehype-inline-styles.js:67-72 | With the preset kept, the leading `code` of a `pre` is transparent, as the comment at line 67 intends. |
| `RehypeInlineStyles.FixedStyles` | millen-ai/src/lib/rehype-inline-styles.js:15-80 | With the preset kept, every element carries its own tag's style, except a `pre`'s leading `code`, which carries the preset. |
| `RehypeInlineStyles.InlineStylesFixedTwice` | millen-ai/src/lib/rehype-inline-styles.js:13-82 | The corrected plugin is idempotent and changes only `style` properties. |
| `RehypeInlineStyles.LookupAppend` | millen-ai/src/lib/rehype-inline-styles.js:76 | Looking a key up in two joined declaration lists finds the first list's entry first. |
| `RehypeInlineStyles.OverriddenLookup` | millen-ai/src/lib/rehype-inline-styles.js:76 | A spread keeps a base key in place, with the override's value when the override has one. |
| `RehypeInlineStyles.AddedLookup` | millen-ai/src/lib/rehype-inline-styles.js:76 | Keys new to the spread come from the override only. |
| `RehypeInlineStyles.SpreadLookup` | millen-ai/src/lib/rehype-inline-styles.js:76 | `{ ...base, ...specific }` reads the specific value when there is one, and otherwise the base value. |
| `RehypeInlineStyles.SpreadNothing` | millen-ai/src/lib/rehype-inline-styles.js:76 | Spreading an empty object changes nothing. |
| `RehypeInlineStyles.TagStyle` | millen-ai/src/lib/rehype-inline-styles.js:16-76 | A tag's own declarations win over the base style. An unlisted tag gets the base style alone. |
| `RehypeInlineStyles.TagExamples` | millen-ai/src/lib/rehype-inline-styles.js:16-66 | Links are `#0969da`, code and pre are monospace, and paragraphs keep the base colour `#000000`. |
| `RehypeInlineStyles.KebabLower` | millen-ai/src/lib/rehype-inline-styles.js:8 | The CSS property names hold no capitals. |
| `RehypeInlineStyles.KebabRoundTrip` | millen-ai/src/lib/rehype-inline-styles.js:8 | For keys without a dash, converting to kebab case loses nothing: converting back gives the key. |
| `RehypeInlineStyles.StyleStringSplits` | millen-ai/src/lib/rehype-inline-styles.js:6-10 | The style string splits on `;` into exactly the rendered declarations, in order, when no key or value holds `;`. |
| `RehypeInlineStyles.KebabKeeps` | millen-ai/src/lib/rehype-inline-styles.js:8 | The conversion introduces no character except `-` and lower-case letters. |
| `MainContent.FindModelMeaning` | millen-ai/src/components/MainContent.jsx:27 | `find` returns a model exactly when one has the name, and then the first such model. |
| `MainContent.CurrentModelMeaning` | millen-ai/src/components/MainContent.jsx:27 | The current model is the selected one when it is listed. Otherwise it is the first model, and there is none only for an empty list. |
| `MainContent.GptOssMeaning` | millen-ai/src/components/MainContent.jsx:28 | A model counts as GPT-OSS exactly when its name contains `gpt-oss`. |
| `MainContent.BuildPayload` | millen-ai/src/components/MainContent.jsx:79-95 | The payload built by successive assignments is `PayloadFor` of the model and the modes. |
| `MainContent.PayloadRules` | millen-ai/src/components/MainContent.jsx:79-95 | The messages are passed unchanged. Tools and `tool_choice: "required"` are set exactly for web search on GPT-OSS. The model is swapped for compound-beta exactly for web search on other models. Effort is "high" exactly for reasoning on GPT-OSS, "low" for web search without reasoning on GPT-OSS, and otherwise absent. |
| `MainContent.RequestKeepsHistory` | millen-ai/src/components/MainContent.jsx:77 | The request carries every earlier message's role and content, in order, then the new user message, and drops reasoning. |
| `MainContent.ReplyStored` | millen-ai/src/components/MainContent.jsx:97-114 | The stored reply is an assistant message with content that is never empty. It carries reasoning exactly when the reply had some. A failed call stores "An error occurred: " with the message, and an empty reply stores the apology. |
| `MainContent.SendOrder` | millen-ai/src/components/MainContent.jsx:62-114 | A send ends by writing the user message, then the reply, to the chat. Only a send without an active chat first creates the chat and sets its title, and it then writes to the new chat. |
| `MainContent.TitleWords` | millen-ai/src/components/MainContent.jsx:69 | A new chat's title is the message's first four space-separated words. |
| `MainContent.TitlePrefix` | millen-ai/src/components/MainContent.jsx:69 | The title is a prefix of the message, and the whole message when it has at most four words. |
| `MainContent.JoinPrefix` | millen-ai/src/components/MainContent.jsx:69 | Re-joining the first pieces of a split gives a prefix of the text. |
| `MainContent.ChatScreen.constructor` | millen-ai/src/components/MainContent.jsx:20-22 | The screen starts with no messages, an empty box and nothing loading. |
| `MainContent.ChatScreen.HandleSendMessage` | millen-ai/src/components/MainContent.jsx:50-118 | Without a user, with a blank message or while loading, nothing happens. Without a key, the alert is shown and nothing else. Otherwise: the box is cleared and loading is off again; the chat is the active one or the new one; a new chat shows just the user message; the request is the payload over the history plus the message; and the writes are `SendWrites`. |
| `ChatInput.NewAttachment` | millen-ai/src/components/ChatInput.jsx:26-35 | A new entry is parsing, with no data and the file it came from. It has a preview address exactly for an image. |
| `ChatInput.NewAttachments` | millen-ai/src/components/ChatInput.jsx:26-35 | One new parsing entry per selected file, in order, each built from its own file and its own `Date.now()` reading. |
| `ChatInput.SameNameIds` | millen-ai/src/components/ChatInput.jsx:29 | Two files with the same name get the same id exactly when their clock readings are equal. |
| `ChatInput.IntToStringInjective` | millen-ai/src/components/ChatInput.jsx:29 | Different clock readings render as different texts in the id's template literal. |
| `ChatInput.Outcomes` | millen-ai/src/components/ChatInput.jsx:39-50 | One processing outcome per file. |
| `ChatInput.Settled` | millen-ai/src/components/ChatInput.jsx:42-48 | A settled entry keeps its id, file and preview, and its status matches its data. |
| `ChatInput.Attachments.constructor` | millen-ai/src/components/ChatInput.jsx:10 | The box starts with no attachments. |
| `ChatInput.Attachments.HandleFileChange` | millen-ai/src/components/ChatInput.jsx:22-53 | The new entries, one clock reading per file, are appended, then each file's outcome is applied in turn to the entries with its id. Every status stays consistent with its data. |
| `ChatInput.Attachments.SettleOne` | millen-ai/src/components/ChatInput.jsx:41-48 | One outcome marks the entries with that id ready with the document, or errored with the file's name and the error. |
| `ChatInput.Attachments.RemoveAttachment` | millen-ai/src/components/ChatInput.jsx:55-63 | Removing drops every entry with the id. |
| `ChatInput.Attachments.OnSendMessage` | millen-ai/src/components/ChatInput.jsx:65-74 | While loading, or with a blank text and nothing ready, nothing is sent and nothing changes. Otherwise the text and the ready documents, with their previews, are sent in order and the box is emptied. |
| `ChatInput.Attachments.HandleKeyDown` | millen-ai/src/components/ChatInput.jsx:119-124 | Only Enter without Shift, with enter-to-send on, sends, and then exactly as the send button does. |
| `ChatInput.NewValid` | millen-ai/src/components/ChatInput.jsx:37 | Appending new entries keeps every status consistent. |
| `ChatInput.SettleIdValid` | millen-ai/src/components/ChatInput.jsx:42-48 | Settling keeps every status consistent. |
| `ChatInput.SettleIdMeaning` | millen-ai/src/components/ChatInput.jsx:42-48 | Settling changes only the entries with that id: to ready with the document, or to errored with the file's name and the message. |
| `ChatInput.SettleAllMeaning` | millen-ai/src/components/ChatInput.jsx:37-50 | With distinct ids, the earlier entries stay, each settled new entry holds its own file's outcome, and the rest are still parsing. |
| `ChatInput.WithoutMeaning` | millen-ai/src/components/ChatInput.jsx:61 | Removal keeps exactly the entries with another id. |
| `ChatInput.WithoutOne` | millen-ai/src/components/ChatInput.jsx:61 | A single entry stays exactly when its id differs from the removed one. |
| `ChatInput.WithoutAppend` | millen-ai/src/components/ChatInput.jsx:55-63 | Removal splits over any concatenation. With `WithoutOne` this fixes the result entry by entry, so the remaining entries keep their order and number. |
| `ChatInput.WithoutAbsent` | millen-ai/src/components/ChatInput.jsx:61 | Removing an absent id changes nothing. |
| `ChatInput.WithoutValid` | millen-ai/src/components/ChatInput.jsx:61 | Removal keeps every status consistent. |
| `ChatInput.ReadyOfMeaning` | millen-ai/src/components/ChatInput.jsx:66-68 | What is sent is exactly the ready entries' documents with their previews. It is empty exactly when no entry is ready. |
| `WelcomeScreen.Greetings` | millen-ai/src/components/WelcomeScreen.jsx:16-21 | Each period has four templates. |
| `WelcomeScreen.Styled` | millen-ai/src/components/WelcomeScreen.jsx:42-49 | One glyph per character. |
| `WelcomeScreen.TextOf` | millen-ai/src/components/WelcomeScreen.jsx:38-52 | One character per glyph. |
| `WelcomeScreen.PushChars` | millen-ai/src/components/WelcomeScreen.jsx:42 | The `forEach` push appends the string's characters, in order, each with the class. |
| `WelcomeScreen.PushNamed` | millen-ai/src/components/WelcomeScreen.jsx:41-46 | The named branch pushes the part before the placeholder, then the name highlighted, then the part after, which may be empty. |
| `WelcomeScreen.BuildGreeting` | millen-ai/src/components/WelcomeScreen.jsx:38-52 | The glyphs built for a template and a first name are `Greeting`: the named branch when there is a non-empty name and a placeholder, and the generic text otherwise. |
| `WelcomeScreen.GetWelcomeMessage` | millen-ai/src/components/WelcomeScreen.jsx:23-53 | The message for an hour, a template index and a display name is `WelcomeMessage`. |
| `WelcomeScreen.PeriodChanges` | millen-ai/src/components/WelcomeScreen.jsx:27-30 | From one hour to the next, the period stays or moves to the next period. It changes exactly at 5, 12, 18 and 22, and midnight and 23:00 are both night. |
| `WelcomeScreen.FirstNameMeaning` | millen-ai/src/components/WelcomeScreen.jsx:33 | The first name is the display name's prefix up to its first space, and holds no space. |
| `WelcomeScreen.LeadingSpaceIsAnonymous` | millen-ai/src/components/WelcomeScreen.jsx:33-50 | A display name that starts with a space gives an empty first name, so the generic greeting is shown. |
| `WelcomeScreen.PatternBraces` | millen-ai/src/components/WelcomeScreen.jsx:48 | The three patterns of the generic branch have their only braces where the placeholder is. |
| `WelcomeScreen.BracesInMiddle` | millen-ai/src/components/WelcomeScreen.jsx:41 | Braces in a brace-free frame around a middle lie in the middle. |
| `WelcomeScreen.MatchPins` | millen-ai/src/components/WelcomeScreen.jsx:41-48 | A placeholder pattern can match only at the template's placeholder. |
| `WelcomeScreen.NoMatchWithoutBrace` | millen-ai/src/components/WelcomeScreen.jsx:40-48 | A brace pattern is not found in brace-free text. |
| `WelcomeScreen.FoundAt` | millen-ai/src/components/WelcomeScreen.jsx:40-41 | The placeholder is found at its place and not after it. |
| `WelcomeScreen.TextOfStyled` | millen-ai/src/components/WelcomeScreen.jsx:42-49 | The glyphs of a string spell it. |
| `WelcomeScreen.TextOfAppend` | millen-ai/src/components/WelcomeScreen.jsx:38-52 | Glyph sequences spell their concatenation. |
| `WelcomeScreen.NamedGreeting` | millen-ai/src/components/WelcomeScreen.jsx:40-46 | A template with one placeholder reads as the placeholder replaced by the name. Exactly the name's characters are highlighted. |
| `WelcomeScreen.GenericOfBraceFree` | millen-ai/src/components/WelcomeScreen.jsx:48 | A template without a placeholder is shown as written. |
| `WelcomeScreen.GenericDropsCommaClause` | millen-ai/src/components/WelcomeScreen.jsx:48 | `, {{name}}` is dropped from the generic greeting. |
| `WelcomeScreen.GenericDropsSpacedName` | millen-ai/src/components/WelcomeScreen.jsx:48 | A ` {{name}}` without a comma before it is dropped. |
| `WelcomeScreen.GenericAddressesYou` | millen-ai/src/components/WelcomeScreen.jsx:48 | A bare placeholder becomes "you". |
| `WelcomeScreen.TemplateShape` | millen-ai/src/components/WelcomeScreen.jsx:16-21 | Every shipped template is brace-free or has one `, {{name}}` between brace-free parts. |
| `WelcomeScreen.ShapedGreeting` | millen-ai/src/components/WelcomeScreen.jsx:40-50 | A greeting from such a template shows no brace, when the name has none. |
| `WelcomeScreen.NoPlaceholderShown` | millen-ai/src/components/WelcomeScreen.jsx:23-53 | The welcome message never shows `{{name}}` or any brace, at any hour, for any template and any brace-free display name. |
| `WelcomeScreen.AskBox.constructor` | millen-ai/src/components/WelcomeScreen.jsx:120-124 | The box starts with the input and no effects. |
| `WelcomeScreen.AskBox.HandleAsk` | millen-ai/src/components/WelcomeScreen.jsx:126-137 | `handleAsk` adds the one effect `AskEffects` gives. It clears the input exactly when it asks the council. |
| `WelcomeScreen.AskBox.HandlePromptClick` | millen-ai/src/components/WelcomeScreen.jsx:139-145 | A suggestion click sends the prompt when signed in and otherwise signs in. It leaves the input alone. |
| `WelcomeScreen.AskRouting` | millen-ai/src/components/WelcomeScreen.jsx:126-137 | Chat mode sends the input to the chat. Council mode asks the council with it when signed in, and otherwise asks to sign in. |
| `WelcomeScreen.PromptRouting` | millen-ai/src/components/WelcomeScreen.jsx:139-145 | A suggestion never asks the council. It is sent exactly when signed in. |
| `Onboarding.Steps` | millen-ai/src/components/OnboardingModal.jsx:6-37 | The tour has six steps. |
| `Onboarding.Tour.constructor` | millen-ai/src/components/OnboardingModal.jsx:40-41 | The tour starts on the first step, moving forward. |
| `Onboarding.Tour.NextStep` | millen-ai/src/components/OnboardingModal.jsx:62-65 | `nextStep` sets the direction forward and moves on one step, except on the last. |
| `Onboarding.Tour.PrevStep` | millen-ai/src/components/OnboardingModal.jsx:67-70 | `prevStep` sets the direction backward and moves back one step, except on the first. |
| `Onboarding.Tour.Forward` | millen-ai/src/components/OnboardingModal.jsx:141-146 | On the last step the forward button asks to close and moves nothing. Elsewhere it moves one step forward. |
| `Onboarding.MovesStayInRange` | millen-ai/src/components/OnboardingModal.jsx:62-70 | Both moves keep the step among the six. |
| `Onboarding.NextPrevRoundTrip` | millen-ai/src/components/OnboardingModal.jsx:62-70 | Forward then back returns to any step but the last, and back then forward returns to any step but the first. |
| `Onboarding.NextNReaches` | millen-ai/src/components/OnboardingModal.jsx:62-65 | `n` forward presses move `n` steps, stopping at the last. |
| `Onboarding.WalkThrough` | millen-ai/src/components/OnboardingModal.jsx:62-65 | Five presses walk the whole tour, and further presses stay on the last step. |
| `Onboarding.ButtonsMatchMoves` | millen-ai/src/components/OnboardingModal.jsx:123-146 | Back is disabled exactly where going back would not move. "Get Started" replaces the arrow exactly where going forward would not move. |
| `Onboarding.OneActiveDot` | millen-ai/src/components/OnboardingModal.jsx:128-138 | Exactly one progress dot is active: the current step's. |
| `Onboarding.LabelNumber` | millen-ai/src/components/OnboardingModal.jsx:103 | The caption reads "Step ", the step's number counted from one, then " of 6". |
| `Onboarding.LabelInjective` | millen-ai/src/components/OnboardingModal.jsx:103 | Different steps have different captions, and the first reads "Step 1 of 6". |
| `Onboarding.MediaNumbered` | millen-ai/src/components/OnboardingModal.jsx:6-37 | Step `k`'s video is `/onboarding/(k+1).mp4`. |
| `ChatHistoryItem.Display` | millen-ai/src/components/ChatHistoryItem.jsx:52 | The caption is never empty: the chat's title, or "New Chat". |
| `ChatHistoryItem.Row.constructor` | millen-ai/src/components/ChatHistoryItem.jsx:5-6 | A row starts not editing, with the chat's title in the box. |
| `ChatHistoryItem.Row.Click` | millen-ai/src/components/ChatHistoryItem.jsx:35 | A click opens the chat unless the row is being edited. |
| `ChatHistoryItem.Row.StartEditing` | millen-ai/src/components/ChatHistoryItem.jsx:62 | The pencil's own handler starts editing and changes nothing else. The click also bubbles to the row's `onClick`, which opens the chat; that is listed under "## Left out". |
| `ChatHistoryItem.Row.Type` | millen-ai/src/components/ChatHistoryItem.jsx:45 | Typing replaces the box's text. |
| `ChatHistoryItem.Row.Delete` | millen-ai/src/components/ChatHistoryItem.jsx:63 | The trash asks to delete this chat. |
| `ChatHistoryItem.Row.HandleRename` | millen-ai/src/components/ChatHistoryItem.jsx:17-22 | `handleRename` sends the rename `RenameCall` gives, if any, and always ends editing. |
| `ChatHistoryItem.Row.HandleKeyDown` | millen-ai/src/components/ChatHistoryItem.jsx:24-31 | Enter renames. Escape restores the title and ends editing without renaming. Other keys change nothing. |
| `ChatHistoryItem.RenameCallMeaning` | millen-ai/src/components/ChatHistoryItem.jsx:17-22 | A rename is sent exactly when the text is not blank and differs from the title. It carries the chat's id and a non-empty text with no white space at either end. |
| `ChatHistoryItem.RenameIsStable` | millen-ai/src/components/ChatHistoryItem.jsx:17-22 | The sent title is already trimmed, so confirming it again sends nothing. |
| `ChatHistoryItem.NoRenameWithoutEdit` | millen-ai/src/components/ChatHistoryItem.jsx:17-31 | An unchanged or blank text is never sent, so Escape followed by a blur renames nothing. |
| `ChatHistoryItem.PaddedTitleResent` | millen-ai/src/components/ChatHistoryItem.jsx:17-22 | White space added around an unchanged title still sends a rename, to the same title. |
| `WelcomeScreen.MatchChar` | millen-ai/src/components/WelcomeScreen.jsx:41-48 | A character where a brace pattern matches is a brace. |
| `WelcomeScreen.NoMatchFrom` | millen-ai/src/components/WelcomeScreen.jsx:41-48 | A brace pattern is not found from a point after which the text is brace-free. |
| `WelcomeScreen.GenericOfBraceFreeRest` | millen-ai/src/components/WelcomeScreen.jsx:48 | The second and third replacements leave a brace-free text unchanged. |
| `WelcomeScreen.MorningShape` | millen-ai/src/components/WelcomeScreen.jsx:17 | Each morning template is brace-free or one comma clause between brace-free parts. |
| `WelcomeScreen.AfternoonShape` | millen-ai/src/components/WelcomeScreen.jsx:18 | The same holds for each afternoon template. |
| `WelcomeScreen.EveningShape` | millen-ai/src/components/WelcomeScreen.jsx:19 | The same holds for each evening template. |
| `WelcomeScreen.NightShape` | millen-ai/src/components/WelcomeScreen.jsx:20 | The same holds for each night template. |
| `Text.TrimStartMeaning` | millen-ai/src/components/ChatHistoryItem.jsx:18-19 | The start-trimmed string is the suffix left after a blank prefix, and it does not start with white space. |
| `Text.TrimEndMeaning` | millen-ai/src/components/ChatHistoryItem.jsx:18-19 | The end-trimmed string is the prefix left before a blank suffix, and it does not end with white space. |
| `Text.TrimEnds` | millen-ai/src/components/ChatHistoryItem.jsx:19 | A trimmed string neither starts nor ends with white space. |
| `Text.TrimIsSlice` | millen-ai/src/components/council/CouncilInterface.jsx:78 | `trim()` returns a slice with only white space cut from either side. |
| `Text.TrimPadded` | millen-ai/src/components/council/CouncilSynthesis.jsx:11 | White space added at either end does not change the trimmed string. |
| `Text.TrimEmptyIffBlank` | millen-ai/src/components/ChatInput.jsx:70 | A string trims to empty exactly when it is all white space. |
| `Text.TrimOfTrimmed` | millen-ai/src/components/ChatHistoryItem.jsx:19 | Trimming a trimmed string changes nothing. |
| `Text.ToLower` | millen-ai/src/lib/documentProcessor.js:115-116 | `toLowerCase` maps each character to its lower-case form and keeps the length. |
| `Text.IndexOfMeaning` | millen-ai/src/components/ChatMessage.jsx:22 | `indexOf` returns the first position, from the start point on, where the pattern matches. It returns none when there is no match. |
| `Text.IndexOfFinds` | millen-ai/src/components/ChatMessage.jsx:22 | A match with no earlier match is the one `indexOf` returns. |
| `Text.ReplaceFirst` | millen-ai/src/components/WelcomeScreen.jsx:48 | A string `replace` changes only the first occurrence, in place. Without one it changes nothing. |
| `Text.FirstIndex` | millen-ai/src/components/WelcomeScreen.jsx:33 | The first position of a character, or none when the character is absent. |
| `Text.Split` | millen-ai/src/stores/councilStore.js:49 | `split` gives at least one part, and no part holds the separator. |
| `Text.SplitJoin` | millen-ai/src/components/MainContent.jsx:69 | Splitting a join of separator-free parts gives the parts back. |
| `Text.JoinSplit` | millen-ai/src/components/MainContent.jsx:69 | Joining the parts of a split gives the string back. |
| `Text.SplitHead` | millen-ai/src/components/WelcomeScreen.jsx:33 | The first part of a split is everything before the first separator. |
| `Text.SplitLast` | millen-ai/src/lib/documentProcessor.js:116 | The last part of a split is everything after the last separator. |
| `Text.ConcatTerminated` | millen-ai/src/lib/documentProcessor.js:19 | Parts each followed by a terminator make the parts joined by it, plus one more terminator. |
| `Text.TrimKeepsHead` | millen-ai/src/lib/documentProcessor.js:39 | Trimming keeps a head that neither starts nor ends with white space. |
| `Text.NatToString` | millen-ai/src/components/OnboardingModal.jsx:103 | A number's decimal form is a non-empty string of digits. |
| `Text.NatToStringInjective` | millen-ai/src/components/OnboardingModal.jsx:103 | Different numbers have different decimal forms. |

## Left out

- Network I/O and response headers are not modelled. The provider, `fetch` and the response reader are functions of their input. A request body is given already parsed. It is `None` when it is not JSON or is JSON `null`: destructuring `null` throws, and the `catch` answers "Invalid request body". Any other JSON value is a `Body` whose fields are the object's string-valued `prompt` and `apiKey`, so a number, a string or an array has neither field.
- The one-second pauses between council stages are not modelled. They only delay the stream.
- Stream chunk boundaries that cut a `data:` frame in two, and a reader that fails mid-stream, are not modelled. The store is proved correct for any grouping of whole frames into chunks (`CouncilStore.ChunkPayloads`).
- `console.log` and `console.error` calls are left out because they have no observable effect on state.
- JSON serialisation and `JSON.parse` are opaque functions. The model proves nothing about the text of a frame beyond its `data: ` framing and its order.
- `CouncilSession.AskCouncil` has no error path for its `catch`, because `startCouncilSession` catches every error itself and never throws.
- `DocumentProcessor.ProcessFile` has no `default` case, because `getFileType` only returns the seven listed kinds.
- The Tesseract worker's lazy start, its reuse across files and `cleanup` are not modelled. The OCR result is part of `Source`.
- `Council.Respond`: a body field is a string or nothing. A truthy non-string `prompt` or `apiKey`, such as the number 5, passes the check at council.js:22 and is used. The model treats it as absent and refuses the request with 400.
- `CouncilSession.GetApiKey`: a stored `apiKey` that is a truthy non-string is returned by `settings?.apiKey || null`. The model reads it as no key and shows the key toast.
- `WelcomeScreen.PushChars`: a string is a sequence of Unicode scalar values. JavaScript's `split('')` cuts it into UTF-16 code units, so a first name holding a character outside the Basic Multilingual Plane, such as an emoji, gets two glyphs, each a lone surrogate, where the model draws one. The `indexOf` and `substring` offsets elsewhere are unaffected, since they use the same units throughout.
- `ModelSelector.Values`: lists the entries in insertion order. `Object.values` puts integer-like keys first, in ascending order. The shipped keys are model ids, none integer-like, so the two orders agree for the shipped registry only.
- `Text.ToLower`: lower-cases ASCII letters only. JavaScript's `toLowerCase` also maps other scripts. The file extensions and MIME types compared here are ASCII.
- Firestore writes in the chat screen are a log that always succeeds. The model does not capture a write that throws before the `try`, which would leave `isLoading` set.
- The model registry is a parameter of the handler, so a table without a role is covered. The shipped table is proved to have all four.
- `CouncilStore.StreamedSession`: states the replay over any event list. `CouncilStore.SessionOutcome` applies it to the handler's events, so the two lemmas compose rather than forming one statement.
- The rehype tree is a value. The walk's update in place, and the sharing of property objects between nodes, are not modelled.
- The chat input does not model `URL.revokeObjectURL`, or user actions that interleave with the asynchronous processing of a selection. The outcomes are applied in turn, as the loop awaits them.
- `ChatInput.SettleAllMeaning`: requires distinct ids. Two files with the same name in one selection share the id `name-Date.now()` when the clock gives both the same reading (`ChatInput.SameNameIds`), and the lemma does not describe that case. The model keeps the shared id as written.
- The chat screen's message subscription, scrolling, token counting and other effects are not modelled. A thrown value that is not an `Error` is treated like an `Error` carrying its message, not shown as "An unknown error occurred.".
- The onboarding steps' descriptions, the welcome screen's suggestion prompt table, and all animations are display copy and styling, and are not modelled. The step titles and media paths are modelled (`Onboarding.Steps`).
- The clock, the random greeting pick, `Date.now()` and the signed-in user's display name are parameters. The attachment box takes one `Date.now()` reading per selected file, as its `map` callback reads the clock once per file.
- A history row's local title does not follow later changes to the chat's title prop. Pencil and trash clicks also bubble up to the row's `onClick`. Neither is modelled.
- The markdown renderers of the message and council views are not modelled: code blocks, tables, links, and the `new URL(step.url).hostname` source label. The same holds for the council report's export button, which only raises an alert.

## Findings

| source | as written | input that shows it | evidently intended | confidence | as-written member | corrected member |
|---|---|---|---|---|---|---|
| millen-ai/src/lib/rehype-inline-styles.js:67-79 | The `pre` case writes a transparent style into its leading `code` child. The preorder walk reaches that child next and overwrites it at line 79 with the `code` style. | `<pre><code>x</code></pre>`: the inner code ends with `background-color: #f0f0f0` and `padding: .2em .4em` | The inner code keeps `background-color: transparent; padding: 0; border-radius: 0;`, as the comment at line 67 says | high; not executed | `RehypeInlineStyles.PresetOverwritten` | `RehypeInlineStyles.FixedKeepsPreset` |
