/**
 * The Judge's stage (api/helpers/synthesizer.js): the prompt that hands the
 * Judge the evidence gathered by the other three members, the one call made
 * with it, and the markdown report that wraps the Judge's answer together with
 * the three contributions fenced by START/END markers.
 *
 * Both texts are template literals; they are written here as their fixed
 * parts and their slots, with the source's six-space indentation, its blank
 * lines and its leading line feed kept.
 */
module Synthesizer {
  import opened Wrappers
  import opened Text
  import opened Inference
  import opened ModelSelector

  /** The evidence object the pipeline fills in: the prompt and the three members' replies. */
  datatype Evidence = Evidence(prompt: string, research: string, analysis: string, philosophy: string)

  /** The indentation of every template line after the first. */
  const Indent: string := "      "

  const Rule: string := "---"
  const JudgeIntro: string := "You are The Judge. You have been presented with evidence from a council of AI experts regarding the user's request: "
  const EvidenceIntro: string := "Here is the evidence you must consider:"
  const ResearchHeading: string := "### 1. The Researcher's Findings (Raw Data)"
  const AnalysisHeading: string := "### 2. The Analyst's Interpretation (Practical View)"
  const PhilosophyHeading: string := "### 3. The Philosopher's Perspective (Alternative/Ethical View)"
  const Instructions: string := "Based on all the evidence presented, structure your response *exactly* as follows, using the headings provided:"
  const VerdictHeading: string := "## \U{2696}\U{FE0F} Final Verdict"
  const VerdictPlaceholder: string := "**[Your single, definitive, bolded sentence answering the user's request]**"
  const ReasoningHeading: string := "## \U{1F3DB}\U{FE0F} The Council's Reasoning"
  const ReasoningPlaceholder: string := "[Your explanation of HOW you arrived at the verdict, referencing the specific findings from The Researcher, The Analyst, and The Philosopher to support your conclusion.]"

  /** The Judge's prompt up to the quoted user request. */
  const PromptOpening: string := "\n" + Indent + JudgeIntro

  /** From the closing quote to the first heading's line. */
  const EvidenceOpening: string := "\n\n" + Indent + EvidenceIntro + "\n\n" + Indent + Rule + "\n" + Indent

  /** The rule between one contribution and the next heading. */
  const Separator: string := Indent + Rule + "\n" + Indent

  /** From the last rule to the verdict heading's line. */
  const ClosingOpening: string := Indent + Rule + "\n\n" + Indent + Instructions + "\n\n" + Indent

  /** The rest of the answer format after the verdict heading. */
  const ClosingRest: string :=
    Indent + VerdictPlaceholder + "\n\n" + Indent + ReasoningHeading + "\n" + Indent + ReasoningPlaceholder + "\n    "

  /** A heading line and, on the next line, the contribution filed under it. */
  function Block(heading: string, text: string): string {
    heading + "\n" + Indent + text + "\n"
  }

  function Quoted(text: string): string {
    "\"" + text + "\""
  }

  const VerdictLine: string := VerdictHeading + "\n"

  /** `synthesisPrompt`. */
  function JudgePrompt(e: Evidence): string {
    PromptOpening + Quoted(e.prompt) + EvidenceOpening
    + Block(ResearchHeading, e.research) + Separator
    + Block(AnalysisHeading, e.analysis) + Separator
    + Block(PhilosophyHeading, e.philosophy) + ClosingOpening
    + VerdictLine + ClosingRest
  }

  /** The single request made to the Judge's model. */
  function JudgeRequest(e: Evidence, judge: Member): ChatRequest {
    ChatRequest(judge.id, [Message("user", JudgePrompt(e))], judge.allocatedTokens, Some(0.5), Some("medium"))
  }

  /** The marker lines that fence a member's contribution in the report. */
  function Marker(role: string, kind: string): string {
    "--- [" + role + " " + kind + "] ---"
  }

  const Start: string := "START"
  const End: string := "END"

  const DecreeHeading: string := "# \U{1F3DB}\U{FE0F} AI Council Final Decree"
  const Regarding: string := "**Regarding**: "
  const AnalysesHeading: string := "## \U{1F52C} Individual Analyses"

  /** Two pieces of a template joined by a line feed: `a`'s last line, then `b`'s first. */
  function Nl(a: string, b: string): string {
    a + "\n" + b
  }

  /**
   * The report up to the appendix, line by line: an empty first line, the
   * heading, the prompt after `**Regarding**: `, a blank line, the Judge's
   * answer, a blank line, the rule, an indented blank line, the appendix
   * heading and another indented blank line.
   */
  function ReportHead(prompt: string, verdict: string): string {
    Nl(Nl(Nl(Nl(Nl(Nl(Nl(Nl(Nl("", Indent + DecreeHeading), Indent + Regarding + prompt), ""),
      Indent + verdict), ""), Indent + Rule), Indent), Indent + AnalysesHeading), Indent)
  }

  /** One contribution on its own line between its role's START and END marker lines. */
  function Fenced(role: string, text: string): string {
    Nl(Nl(Indent + Marker(role, Start), Indent + text), Indent + Marker(role, End))
  }

  /**
   * `finalReport`: the Judge's answer wrapped with the prompt and the fenced
   * contributions, blank lines between them, and a last line of four spaces.
   */
  function FinalReport(e: Evidence, verdict: string): string {
    Nl(Nl(Nl(Nl(Nl(Nl(ReportHead(e.prompt, verdict), Fenced(Researcher, e.research)), ""),
      Fenced(Analyst, e.analysis)), ""), Fenced(Philosopher, e.philosophy)), "    ")
  }

  /**
   * `createFinalVerdict`: one call with the Judge's parameters; its content
   * becomes the report, an error thrown by the call propagates unchanged.
   */
  function CreateFinalVerdict(e: Evidence, judge: Member, provider: Provider): (r: Result<string>)
    ensures provider(JudgeRequest(e, judge)).Reply? <==> r.Success?
    ensures r.Success? ==> r.value == FinalReport(e, provider(JudgeRequest(e, judge)).content)
    ensures r.Failure? ==> r.error == provider(JudgeRequest(e, judge)).message
  {
    match provider(JudgeRequest(e, judge))
    case Reply(content) => Success(FinalReport(e, content))
    case Failed(message) => Failure(message)
  }

  /**
   * The Judge's request is a single user message carrying the prompt, sized by
   * the Judge's own budget, at temperature 0.5 and medium reasoning effort.
   */
  lemma JudgeRequestShape(e: Evidence, judge: Member)
    ensures var r := JudgeRequest(e, judge);
      r.model == judge.id && r.maxTokens == judge.allocatedTokens &&
      |r.messages| == 1 && r.messages[0].role == "user" && r.messages[0].content == JudgePrompt(e) &&
      r.temperature == Some(0.5) && r.reasoningEffort == Some("medium")
  {
  }

  /**
   * The Judge sees the quoted request, then each contribution on the line
   * right under its own numbered heading, in the order Researcher, Analyst,
   * Philosopher, and after them the heading of the verdict it must give.
   */
  lemma JudgePromptCarriesEvidence(e: Evidence)
    ensures exists i0, i1, i2, i3, i4 ::
      OccursAt(JudgePrompt(e), Quoted(e.prompt), i0) &&
      OccursAt(JudgePrompt(e), Block(ResearchHeading, e.research), i1) &&
      OccursAt(JudgePrompt(e), Block(AnalysisHeading, e.analysis), i2) &&
      OccursAt(JudgePrompt(e), Block(PhilosophyHeading, e.philosophy), i3) &&
      OccursAt(JudgePrompt(e), VerdictLine, i4) &&
      i0 < i1 < i2 < i3 < i4
  {
    var p := JudgePrompt(e);
    var i0, i1, i2, i3, i4 := InOrder(p, PromptOpening, Quoted(e.prompt), EvidenceOpening,
      Block(ResearchHeading, e.research), Separator, Block(AnalysisHeading, e.analysis),
      Block(PhilosophyHeading, e.philosophy), ClosingOpening, VerdictLine, ClosingRest);
    assert OccursAt(p, Quoted(e.prompt), i0) && OccursAt(p, Block(ResearchHeading, e.research), i1) &&
      OccursAt(p, Block(AnalysisHeading, e.analysis), i2) && OccursAt(p, Block(PhilosophyHeading, e.philosophy), i3) &&
      OccursAt(p, VerdictLine, i4) && i0 < i1 < i2 < i3 < i4;
  }

  /** Where the five slotted parts of a text shaped like the Judge's prompt start, in increasing order. */
  lemma InOrder(p: string, o: string, t0: string, eo: string, t1: string, sep: string, t2: string, t3: string,
                co: string, t4: string, cr: string)
    returns (i0: nat, i1: nat, i2: nat, i3: nat, i4: nat)
    requires t0 != [] && t1 != [] && t2 != [] && t3 != []
    requires p == o + t0 + eo + t1 + sep + t2 + sep + t3 + co + t4 + cr
    ensures OccursAt(p, t0, i0) && OccursAt(p, t1, i1) && OccursAt(p, t2, i2) &&
      OccursAt(p, t3, i3) && OccursAt(p, t4, i4) && i0 < i1 < i2 < i3 < i4
  {
    var a1 := o + t0 + eo;
    var a2 := a1 + t1 + sep;
    var a3 := a2 + t2 + sep;
    var a4 := a3 + t3 + co;
    OccursBetween(o, t0, eo + t1 + sep + t2 + sep + t3 + co + t4 + cr);
    OccursBetween(a1, t1, sep + t2 + sep + t3 + co + t4 + cr);
    OccursBetween(a2, t2, sep + t3 + co + t4 + cr);
    OccursBetween(a3, t3, co + t4 + cr);
    OccursBetween(a4, t4, cr);
    i0, i1, i2, i3, i4 := |o|, |a1|, |a2|, |a3|, |a4|;
  }
}
