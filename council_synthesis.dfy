/**
 * The verdict panel (src/components/council/CouncilSynthesis.jsx): the title
 * it reads back from the report's `**Regarding**:` line, and the button that
 * shows or hides the individual analyses.
 *
 * The title is the first match of `\*\*Regarding\*\*:\s*(.+?)(?=\n|$)` with
 * the `i` flag, trimmed, or `Analysis` when nothing matches. The expression
 * is modelled by what it does: scan for the label, take the white space
 * after it greedily, and give back white space one character at a time
 * until a capture of at least one character, free of line terminators,
 * reaches a line feed or the end of the text.
 */
module CouncilSynthesis {
  import opened Wrappers
  import opened Text
  import opened ModelSelector
  import opened Synthesizer
  import opened CouncilInterface

  const Label: string := "**Regarding**:"
  const Fallback: string := "Analysis"
  const HideLabel: string := "Hide Details"
  const ShowLabel: string := "Show Details"

  /** No character of `c` is a line terminator (what `.` accepts). */
  predicate OneLine(c: string) {
    forall k :: 0 <= k < |c| ==> !IsLineTerminator(c[k])
  }

  /**
   * Where the lazy `.+?` that has taken `u[..k]` stops: the first index at or
   * after `k` holding a line feed or the end of `u`, if no other line
   * terminator comes first.
   */
  function LineEnd(u: string, k: nat): (r: Option<nat>)
    requires k <= |u|
    ensures r.Some? ==> k <= r.value <= |u|
    decreases |u| - k
  {
    if k == |u| then Some(k)
    else if u[k] == '\n' then Some(k)
    else if IsLineTerminator(u[k]) then None
    else LineEnd(u, k + 1)
  }

  /** The capture tried at `j`, then at `j - 1` and so on down to `0`: `\s*` giving back characters. */
  function Backtrack(u: string, j: nat): (r: Option<string>)
    requires j <= |u|
    decreases j
  {
    if j < |u| && !IsLineTerminator(u[j]) && LineEnd(u, j + 1).Some? then Some(u[j..LineEnd(u, j + 1).value])
    else if j == 0 then None
    else Backtrack(u, j - 1)
  }

  /** What follows a label: all of its leading white space, then the capture. */
  function AfterLabel(u: string): Option<string> {
    Backtrack(u, |u| - |TrimStart(u)|)
  }

  /** The capture of the leftmost match in `t`. */
  function TitleMatch(t: string): Option<string>
    decreases |t|
  {
    if |t| == 0 then None
    else if MatchesAt(t, Label, 0, true) && AfterLabel(t[|Label|..]).Some? then AfterLabel(t[|Label|..])
    else TitleMatch(t[1..])
  }

  /** `title`: the trimmed capture, or `Analysis` without a match. */
  function Title(synthesis: string): string {
    match TitleMatch(synthesis)
    case Some(c) => Trim(c)
    case None => Fallback
  }

  /**
   * A label at `i` and a capture `c` at `j`: only white space between them,
   * `c` on one line, not empty, and followed by a line feed or the end.
   */
  predicate LabelLine(t: string, i: nat, j: nat, c: string) {
    MatchesAt(t, Label, i, true) && i + |Label| <= j && j + |c| <= |t| &&
    Blank(t[i + |Label|..j]) && t[j..j + |c|] == c && c != [] && OneLine(c) &&
    (j + |c| == |t| || t[j + |c|] == '\n')
  }

  /** A stop found by `LineEnd` closes a run free of line terminators with a line feed or the end. */
  lemma {:induction false} LineEndMeaning(u: string, k: nat)
    requires k <= |u| && LineEnd(u, k).Some?
    ensures var e := LineEnd(u, k).value; OneLine(u[k..e]) && (e == |u| || u[e] == '\n')
    decreases |u| - k
  {
    if k < |u| && u[k] != '\n' {
      var e := LineEnd(u, k).value;
      LineEndMeaning(u, k + 1);
      assert forall x :: k + 1 <= x < e ==> u[k + 1..e][x - k - 1] == u[x];
      assert forall x :: k <= x < e ==> u[k..e][x - k] == u[x];
    }
  }

  /** A run free of line terminators up to a line feed at `e` ends there. */
  lemma {:induction false} LineEndRuns(u: string, k: nat, e: nat)
    requires k <= e < |u| && u[e] == '\n'
    requires forall x :: k <= x < e ==> !IsLineTerminator(u[x])
    ensures LineEnd(u, k) == Some(e)
    decreases e - k
  {
    if k < e {
      LineEndRuns(u, k + 1, e);
    }
  }

  /**
   * `c` is a capture at `j` in the text `u` after a label: only white space
   * before it, on one line, not empty, and followed by a line feed or the end.
   */
  predicate CaptureAt(u: string, j: nat, c: string) {
    j + |c| <= |u| && Blank(u[..j]) && u[j..j + |c|] == c && c != [] && OneLine(c) &&
    (j + |c| == |u| || u[j + |c|] == '\n')
  }

  /** A capture found by backtracking from `j0`, past white space only, has `CaptureAt`'s shape. */
  lemma {:induction false} BacktrackMeaning(u: string, j0: nat) returns (j: nat)
    requires j0 <= |u| && Blank(u[..j0]) && Backtrack(u, j0).Some?
    ensures j <= j0 && CaptureAt(u, j, Backtrack(u, j0).value)
    decreases j0
  {
    var c := Backtrack(u, j0).value;
    if j0 < |u| && !IsLineTerminator(u[j0]) && LineEnd(u, j0 + 1).Some? {
      var e := LineEnd(u, j0 + 1).value;
      LineEndMeaning(u, j0 + 1);
      assert c == u[j0..e];
      assert forall x :: j0 + 1 <= x < e ==> u[j0 + 1..e][x - j0 - 1] == u[x];
      assert OneLine(c) by {
        forall k | 0 <= k < |c| ensures !IsLineTerminator(c[k]) {
          assert c[k] == u[j0 + k];
        }
      }
      assert u[j0..j0 + |c|] == c;
      j := j0;
    } else {
      assert u[..j0 - 1] == u[..j0][..j0 - 1];
      j := BacktrackMeaning(u, j0 - 1);
    }
  }

  /** A capture in the text after a label at the front of `t` is a capture in `t`. */
  lemma LiftCapture(t: string, u: string, j: nat, c: string)
    requires MatchesAt(t, Label, 0, true) && u == t[|Label|..] && CaptureAt(u, j, c)
    ensures LabelLine(t, 0, |Label| + j, c)
  {
    assert t[|Label|..|Label| + j] == u[..j];
    assert t[|Label| + j..|Label| + j + |c|] == u[j..j + |c|];
  }

  /** The match found after a label at the front of `t`, with positions in `t`. */
  lemma HeadMatch(t: string, u: string, c: string)
    requires MatchesAt(t, Label, 0, true) && u == t[|Label|..] && AfterLabel(u) == Some(c)
    ensures exists i: nat, j: nat :: LabelLine(t, i, j, c)
  {
    TrimStartMeaning(u);
    var j := BacktrackMeaning(u, |u| - |TrimStart(u)|);
    LiftCapture(t, u, j, c);
  }

  /** A match found one character further on is a match in `t`, one position later. */
  lemma ShiftMatch(t: string, c: string)
    requires |t| > 0 && exists i: nat, j: nat :: LabelLine(t[1..], i, j, c)
    ensures exists i: nat, j: nat :: LabelLine(t, i, j, c)
  {
    var i: nat, j: nat :| LabelLine(t[1..], i, j, c);
    var s := t[1..];
    forall k | 0 <= k < |Label| ensures SameChar(t[i + 1 + k], Label[k], true) {
      assert s[i + k] == t[i + 1 + k];
    }
    assert t[i + 1 + |Label|..j + 1] == s[i + |Label|..j];
    assert t[j + 1..j + 1 + |c|] == s[j..j + |c|];
    assert LabelLine(t, i + 1, j + 1, c);
  }

  /**
   * Whatever the title expression captures sits after a label, past white
   * space only, on one line, and runs up to a line feed or the end.
   */
  lemma {:induction false} TitleMatchMeaning(t: string)
    requires TitleMatch(t).Some?
    ensures exists i: nat, j: nat :: LabelLine(t, i, j, TitleMatch(t).value)
    decreases |t|
  {
    if MatchesAt(t, Label, 0, true) && AfterLabel(t[|Label|..]).Some? {
      HeadMatch(t, t[|Label|..], TitleMatch(t).value);
    } else {
      TitleMatchMeaning(t[1..]);
      ShiftMatch(t, TitleMatch(t).value);
    }
  }

  /** A run free of line terminators up to a line feed or the end stops `LineEnd` there. */
  lemma {:induction false} LineEndReaches(u: string, k: nat, e: nat)
    requires k <= e <= |u| && (e == |u| || u[e] == '\n')
    requires forall x :: k <= x < e ==> !IsLineTerminator(u[x])
    ensures LineEnd(u, k) == Some(e)
    decreases e - k
  {
    if k < e {
      LineEndReaches(u, k + 1, e);
    }
  }

  /** Backtracking from `j0` finds a capture when one starts at or before `j0`. */
  lemma {:induction false} CaptureFound(u: string, j0: nat, j: nat, c: string)
    requires j <= j0 <= |u| && CaptureAt(u, j, c)
    ensures Backtrack(u, j0).Some?
    decreases j0
  {
    if j0 == j {
      forall x | j + 1 <= x < j + |c| ensures !IsLineTerminator(u[x]) {
        assert u[x] == c[x - j];
      }
      assert u[j] == c[0];
      LineEndReaches(u, j + 1, j + |c|);
    } else if !(j0 < |u| && !IsLineTerminator(u[j0]) && LineEnd(u, j0 + 1).Some?) {
      CaptureFound(u, j0 - 1, j, c);
    }
  }

  /** A capture after a label is found: it starts within the label's leading white space. */
  lemma AfterLabelFound(u: string, j: nat, c: string)
    requires CaptureAt(u, j, c)
    ensures AfterLabel(u).Some?
  {
    BlankWithin(u, j);
    CaptureFound(u, |u| - |TrimStart(u)|, j, c);
  }

  /** A blank prefix lies within the white space `TrimStart` drops. */
  lemma {:induction false} BlankWithin(u: string, j: nat)
    requires j <= |u|
    ensures Blank(u[..j]) ==> j <= |u| - |TrimStart(u)|
    decreases |u|
  {
    if |u| > 0 && IsSpace(u[0]) {
      if j > 0 {
        BlankWithin(u[1..], j - 1);
        assert u[1..][..j - 1] == u[1..j];
        assert forall x :: 1 <= x < j ==> u[1..j][x - 1] == u[..j][x];
      }
    } else if j > 0 {
      assert u[..j][0] == u[0];
    }
  }

  /** A label at `i` whose line holds a capture. */
  predicate Matchable(t: string, i: nat) {
    MatchesAt(t, Label, i, true) && AfterLabel(t[i + |Label|..]).Some?
  }

  /** Positions move down by one in `t[1..]`. */
  lemma MatchableShift(t: string, i: nat)
    requires |t| > 0
    ensures Matchable(t[1..], i) <==> Matchable(t, i + 1)
  {
    if i + 1 + |Label| <= |t| {
      assert t[1..][i + |Label|..] == t[i + 1 + |Label|..];
      forall k | 0 <= k < |Label|
        ensures SameChar(t[1..][i + k], Label[k], true) <==> SameChar(t[i + 1 + k], Label[k], true)
      {
        assert t[1..][i + k] == t[i + 1 + k];
      }
    }
  }

  /**
   * The title expression's match is the leftmost one: the capture after the
   * first label whose line holds a capture.
   */
  lemma {:induction false} TitleMatchLeftmost(t: string, i: nat)
    requires Matchable(t, i) && forall k: nat :: k < i ==> !Matchable(t, k)
    ensures TitleMatch(t) == AfterLabel(t[i + |Label|..])
    decreases i
  {
    if i > 0 {
      assert !Matchable(t, 0);
      MatchableShift(t, i - 1);
      forall k: nat | k < i - 1 ensures !Matchable(t[1..], k) {
        MatchableShift(t, k);
      }
      TitleMatchLeftmost(t[1..], i - 1);
      assert t[1..][i - 1 + |Label|..] == t[i + |Label|..];
    }
  }

  /** With no label line holding a capture, the expression does not match. */
  lemma {:induction false} NoMatchableNoMatch(t: string)
    requires forall k: nat :: !Matchable(t, k)
    ensures TitleMatch(t) == None
    decreases |t|
  {
    if |t| > 0 {
      assert !Matchable(t, 0);
      forall k: nat ensures !Matchable(t[1..], k) {
        MatchableShift(t, k);
      }
      NoMatchableNoMatch(t[1..]);
    }
  }

  /** Every label line holding a capture makes its label matchable. */
  lemma LabelLineMatchable(t: string, i: nat, j: nat, c: string)
    requires LabelLine(t, i, j, c)
    ensures Matchable(t, i)
  {
    var u := t[i + |Label|..];
    var ju := j - i - |Label|;
    assert u[..ju] == t[i + |Label|..j];
    assert u[ju..ju + |c|] == t[j..j + |c|];
    assert ju + |c| < |u| ==> u[ju + |c|] == t[j + |c|];
    AfterLabelFound(u, ju, c);
  }

  /** A label line holding a capture anywhere in the text means the expression matches. */
  lemma TitleMatchComplete(t: string, i: nat, j: nat, c: string)
    requires LabelLine(t, i, j, c)
    ensures TitleMatch(t).Some?
  {
    LabelLineMatchable(t, i, j, c);
    var first: nat :| Matchable(t, first) && forall k: nat :: k < first ==> !Matchable(t, k) by {
      LeastMatchable(t, i);
    }
    TitleMatchLeftmost(t, first);
  }

  /** Some matchable position is the least one. */
  lemma {:induction false} LeastMatchable(t: string, i: nat)
    requires Matchable(t, i)
    ensures exists m: nat :: Matchable(t, m) && forall k: nat :: k < m ==> !Matchable(t, k)
    decreases i
  {
    if exists k: nat :: k < i && Matchable(t, k) {
      var k: nat :| k < i && Matchable(t, k);
      LeastMatchable(t, k);
    }
  }

  /** A text without the label gets the fallback title. */
  lemma {:induction false} NoLabelNoMatch(t: string)
    requires Lacks(t, Label, true)
    ensures TitleMatch(t) == None
    decreases |t|
  {
    if |t| > 0 {
      assert !MatchesAt(t, Label, 0, true);
      assert Lacks(t[1..], Label, true) by {
        forall i | 0 <= i <= |t[1..]| ensures !MatchesAt(t[1..], Label, i, true) {
          assert !MatchesAt(t, Label, i + 1, true);
        }
      }
      NoLabelNoMatch(t[1..]);
    }
  }

  /** The heading's title is one line: the capture never crosses a line, and the fallback is a word. */
  lemma TitleIsOneLine(synthesis: string)
    ensures OneLine(Title(synthesis))
  {
    if TitleMatch(synthesis).Some? {
      var c := TitleMatch(synthesis).value;
      TitleMatchMeaning(synthesis);
      var i, j :| LabelLine(synthesis, i, j, c);
      var m := TrimIsSlice(c);
      forall k | 0 <= k < |Trim(c)| ensures !IsLineTerminator(Trim(c)[k]) {
        assert Trim(c)[k] == c[m + k];
      }
    }
  }

  /** Without the label anywhere in the report, the title is `Analysis`. */
  lemma TitleFallback(synthesis: string)
    requires Lacks(synthesis, Label, true)
    ensures Title(synthesis) == Fallback
  {
    NoLabelNoMatch(synthesis);
  }

  /** A prefix none of whose characters is `*` cannot hold the label: the scan passes over it. */
  lemma {:induction false} SkipPrefix(pre: string, t: string)
    requires forall k :: 0 <= k < |pre| ==> pre[k] != '*'
    ensures TitleMatch(pre + t) == TitleMatch(t)
    decreases |pre|
  {
    if |pre| > 0 {
      if MatchesAt(pre + t, Label, 0, true) {
        assert SameChar((pre + t)[0], Label[0], true);
        SameCharNonLetter((pre + t)[0], '*', true);
        assert false;
      }
      assert (pre + t)[1..] == pre[1..] + t;
      assert TitleMatch(pre + t) == TitleMatch(pre[1..] + t);
      SkipPrefix(pre[1..], t);
    } else {
      assert pre + t == t;
    }
  }

  /** After `**Regarding**: ` comes a prompt on one line: the capture is the prompt without its leading white space. */
  lemma AfterLabelLine(u: string, p: string, rest: string)
    requires u == " " + (p + ("\n" + rest))
    requires OneLine(p) && !Blank(p)
    ensures AfterLabel(u) == Some(TrimStart(p))
  {
    TrimStartMeaning(p);
    LeadingSpace(u, p, rest);
    CaptureLine(u, p, rest, 1 + |p| - |TrimStart(p)|, TrimStart(p));
  }

  /** The white space after the label is the space and the prompt's own leading white space. */
  lemma LeadingSpace(u: string, p: string, rest: string)
    requires u == " " + (p + ("\n" + rest)) && !Blank(p)
    ensures |u| - |TrimStart(u)| == 1 + |p| - |TrimStart(p)|
  {
    TrimStartSkips(" ", p + ("\n" + rest));
    TrimStartKeepsTail(p, "\n" + rest);
  }

  /** From the prompt's first visible character, the capture runs to the line feed after the prompt. */
  lemma CaptureLine(u: string, p: string, rest: string, j: nat, w: string)
    requires u == " " + (p + ("\n" + rest)) && OneLine(p)
    requires 1 <= j <= |p| && w == p[j - 1..] && !IsSpace(w[0])
    ensures Backtrack(u, j) == Some(w)
  {
    assert u[j] == w[0];
    assert u[1 + |p|] == '\n';
    assert forall x :: j + 1 <= x < 1 + |p| ==> u[x] == p[x - 1];
    LineEndRuns(u, j + 1, 1 + |p|);
    assert u[j..1 + |p|] == w;
  }

  /** The label at the front of `t`, then the prompt line: this is the match. */
  lemma LabelThenPrompt(t: string, u: string, p: string, rest: string)
    requires t == Label + u && u == " " + (p + ("\n" + rest))
    requires OneLine(p) && !Blank(p)
    ensures TitleMatch(t) == Some(TrimStart(p))
  {
    assert OccursAt(t, Label, 0) by {
      assert t[..|Label|] == Label;
    }
    OccursMatches(t, Label, 0, true);
    assert t[|Label|..] == u;
    AfterLabelLine(u, p, rest);
  }

  /** A trimmed-at-the-front text is trimmed the same way once more. */
  lemma TrimStartTwice(s: string)
    ensures Trim(TrimStart(s)) == Trim(s)
  {
    TrimStartMeaning(s);
  }

  /** The first lines of every report: a line feed, the heading, then the prompt's line. */
  function ReportOpening(): string {
    "\n" + Indent + DecreeHeading + "\n" + Indent
  }

  /** The opening has no `*`, so no label starts inside it. */
  lemma OpeningStarless()
    ensures forall k :: 0 <= k < |ReportOpening()| ==> ReportOpening()[k] != '*'
  {
  }

  /** `a` is a prefix of `Nl(a, b)`. */
  lemma NlPrefix(a: string, b: string)
    ensures a <= Nl(a, b)
  {
    assert Nl(a, b)[..|a|] == a;
  }

  /** Prefixes compose. */
  lemma PrefixTrans(a: string, b: string, c: string)
    requires a <= b && b <= c
    ensures a <= c
  {
    assert c[..|b|][..|a|] == c[..|a|];
  }

  /** The report's first three lines: a line feed, the heading, and the prompt's line ended by a line feed. */
  function Opening(prompt: string): string {
    Nl(Nl(Nl("", Indent + DecreeHeading), Indent + Regarding + prompt), "")
  }

  /** A text is a prefix of what six more template lines make of it. */
  lemma NlSixPrefix(a: string, x1: string, x2: string, x3: string, x4: string, x5: string, x6: string)
    ensures a <= Nl(Nl(Nl(Nl(Nl(Nl(a, x1), x2), x3), x4), x5), x6)
  {
    var b1 := Nl(a, x1);
    var b2 := Nl(b1, x2);
    var b3 := Nl(b2, x3);
    var b4 := Nl(b3, x4);
    var b5 := Nl(b4, x5);
    NlPrefix(a, x1);
    NlPrefix(b1, x2); PrefixTrans(a, b1, b2);
    NlPrefix(b2, x3); PrefixTrans(a, b2, b3);
    NlPrefix(b3, x4); PrefixTrans(a, b3, b4);
    NlPrefix(b4, x5); PrefixTrans(a, b4, b5);
    NlPrefix(b5, x6); PrefixTrans(a, b5, Nl(b5, x6));
  }

  /** The report starts with its opening lines. */
  lemma ReportBegins(e: Evidence, verdict: string)
    ensures Opening(e.prompt) <= FinalReport(e, verdict)
  {
    NlSixPrefix(Opening(e.prompt), Indent + verdict, "", Indent + Rule, Indent, Indent + AnalysesHeading, Indent);
    NlSixPrefix(ReportHead(e.prompt, verdict), Fenced(Researcher, e.research), "", Fenced(Analyst, e.analysis), "",
      Fenced(Philosopher, e.philosophy), "    ");
    PrefixTrans(Opening(e.prompt), ReportHead(e.prompt, verdict), FinalReport(e, verdict));
  }

  /** The report split around the label: the opening, the label, a space, the prompt, a line feed and the rest. */
  lemma ReportAroundLabel(s: string, prompt: string) returns (rest: string)
    requires Opening(prompt) <= s
    ensures s == ReportOpening() + (Label + (" " + (prompt + ("\n" + rest))))
  {
    var a := Opening(prompt);
    rest := s[|a|..];
    assert s == a + rest;
    assert Regarding == Label + " ";
    assert a == ReportOpening() + (Label + (" " + (prompt + "\n")));
  }

  /**
   * The title read back from a report `finalReport` built is the user's
   * prompt, trimmed, as long as the prompt is one line and not blank.
   */
  lemma TitleRoundTrip(e: Evidence, verdict: string)
    requires OneLine(e.prompt) && !Blank(e.prompt)
    ensures Title(FinalReport(e, verdict)) == Trim(e.prompt)
  {
    ReportBegins(e, verdict);
    TitleAfterOpening(FinalReport(e, verdict), e.prompt);
  }

  /** Any text that starts with the opening lines has the prompt as its title. */
  lemma TitleAfterOpening(s: string, prompt: string)
    requires Opening(prompt) <= s && OneLine(prompt) && !Blank(prompt)
    ensures Title(s) == Trim(prompt)
  {
    var rest := ReportAroundLabel(s, prompt);
    var u := " " + (prompt + ("\n" + rest));
    OpeningStarless();
    SkipPrefix(ReportOpening(), Label + u);
    LabelThenPrompt(Label + u, u, prompt, rest);
    TrimStartTwice(prompt);
  }

  /** The details button: shown only with analyses to show; its label says what a press will do. */
  function DetailsButton(individualAnalyses: seq<Analysis>, showIndividual: bool): (r: Option<string>)
    ensures r.Some? <==> |individualAnalyses| > 0
    ensures r.Some? ==> (r.value == HideLabel <==> showIndividual)
  {
    if |individualAnalyses| > 0 then Some(if showIndividual then HideLabel else ShowLabel) else None
  }
}
