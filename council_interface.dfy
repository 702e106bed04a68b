/**
 * The council screen's reading of the final report
 * (src/components/council/CouncilInterface.jsx): `parseIndividualAnalyses`,
 * which pulls each member's contribution back out of the START/END marker
 * appendix, the `progressMap` lookup and the choice of what the screen shows.
 */
module CouncilInterface {
  import opened Wrappers
  import opened Text
  import opened ModelSelector
  import opened Synthesizer

  /** One `{ role, content }` entry of `individualAnalyses`. */
  datatype Analysis = Analysis(role: string, content: string)

  /** The roles searched for, in the order of the `roles` array. */
  const AnalysisRoles: seq<string> := [Researcher, Analyst, Philosopher]

  /**
   * A lazy-capture regex `<start>\s*([\s\S]*?)\s*<end>` with flag `i` matches
   * with its `start` at `p` and its `end` at `q`: `p` is the first occurrence
   * of `start`, `q` the first occurrence of `end` after it.
   */
  predicate FencedAt(text: string, start: string, end: string, p: nat, q: nat) {
    MatchesAt(text, start, p, true) && NoMatchIn(text, start, 0, p, true) &&
    p + |start| <= q && MatchesAt(text, end, q, true) && NoMatchIn(text, end, p + |start|, q, true)
  }

  /**
   * The trimmed capture of the first match of that regex, or nothing when it
   * does not match or the capture is empty (`match && match[1]`). With white
   * space on both sides of the lazy group, the capture is exactly the trimmed
   * text between the two markers.
   */
  function Capture(text: string, start: string, end: string): Option<string> {
    match IndexOf(text, start, 0, true)
    case None => None
    case Some(p) =>
      match IndexOf(text, end, p + |start|, true)
      case None => None
      case Some(q) =>
        var c := Trim(text[p + |start|..q]);
        if c == [] then None else Some(c)
  }

  /** There is at most one match: the first START and the first END after it. */
  lemma FencedAtUnique(text: string, start: string, end: string, p: nat, q: nat, p': nat, q': nat)
    requires FencedAt(text, start, end, p, q) && FencedAt(text, start, end, p', q')
    ensures p == p' && q == q'
  {
  }

  /** The text between a START marker at `p` and an END marker at `q`. */
  function Inner(text: string, start: string, p: nat, q: nat): string {
    if p + |start| <= q <= |text| then text[p + |start|..q] else []
  }

  /**
   * A capture is present exactly when the regex matches with a non-empty
   * capture, and is then the trimmed text between the markers.
   */
  lemma CaptureMeaning(text: string, start: string, end: string)
    ensures Capture(text, start, end).Some? <==>
              exists p: nat, q: nat :: FencedAt(text, start, end, p, q) && Trim(Inner(text, start, p, q)) != []
    ensures forall p: nat, q: nat :: FencedAt(text, start, end, p, q) ==>
              Capture(text, start, end) == Expected(Inner(text, start, p, q))
  {
    match IndexOf(text, start, 0, true)
    case None =>
      NoStartCase(text, start, end);
    case Some(p) =>
      match IndexOf(text, end, p + |start|, true)
      case None =>
        NoEndCase(text, start, end, p);
      case Some(q) =>
        FoundCase(text, start, end, p, q);
        if Capture(text, start, end).Some? {
          assert FencedAt(text, start, end, p, q) && Trim(Inner(text, start, p, q)) != [];
        }
  }

  lemma NoStartCase(text: string, start: string, end: string)
    requires IndexOf(text, start, 0, true).None?
    ensures Capture(text, start, end).None?
    ensures forall p: nat, q: nat :: !FencedAt(text, start, end, p, q)
  {
    IndexOfMeaning(text, start, 0, true);
    NoStartNoMatch(text, start, end);
  }

  lemma NoEndCase(text: string, start: string, end: string, p: nat)
    requires IndexOf(text, start, 0, true) == Some(p) && IndexOf(text, end, p + |start|, true).None?
    ensures Capture(text, start, end).None?
    ensures forall p: nat, q: nat :: !FencedAt(text, start, end, p, q)
  {
    NoEndMatches(text, start, end, p);
  }

  lemma NoEndMatches(text: string, start: string, end: string, p: nat)
    requires IndexOf(text, start, 0, true) == Some(p) && IndexOf(text, end, p + |start|, true).None?
    ensures forall p: nat, q: nat :: !FencedAt(text, start, end, p, q)
  {
    IndexOfMeaning(text, start, 0, true);
    IndexOfMeaning(text, end, p + |start|, true);
    NoEndNoMatch(text, start, end, p);
  }

  lemma FoundCase(text: string, start: string, end: string, p: nat, q: nat)
    requires IndexOf(text, start, 0, true) == Some(p) && IndexOf(text, end, p + |start|, true) == Some(q)
    ensures Capture(text, start, end) == Expected(Inner(text, start, p, q))
    ensures FencedAt(text, start, end, p, q)
    ensures forall p': nat, q': nat :: FencedAt(text, start, end, p', q') ==> p' == p && q' == q
  {
    FoundCapture(text, start, end, p, q);
    FoundMatches(text, start, end, p, q);
  }

  lemma FoundCapture(text: string, start: string, end: string, p: nat, q: nat)
    requires IndexOf(text, start, 0, true) == Some(p) && IndexOf(text, end, p + |start|, true) == Some(q)
    ensures Capture(text, start, end) == Expected(Inner(text, start, p, q))
  {
  }

  lemma FoundMatches(text: string, start: string, end: string, p: nat, q: nat)
    requires IndexOf(text, start, 0, true) == Some(p) && IndexOf(text, end, p + |start|, true) == Some(q)
    ensures FencedAt(text, start, end, p, q)
    ensures forall p': nat, q': nat :: FencedAt(text, start, end, p', q') ==> p' == p && q' == q
  {
    IndexOfMeaning(text, start, 0, true);
    IndexOfMeaning(text, end, p + |start|, true);
    FoundIsOnlyMatch(text, start, end, p, q);
  }

  lemma NoStartNoMatch(text: string, start: string, end: string)
    requires NoMatchIn(text, start, 0, |text| + 1, true)
    ensures forall p: nat, q: nat :: !FencedAt(text, start, end, p, q)
  {
    forall p: nat, q: nat ensures !FencedAt(text, start, end, p, q) {
      if p < |text| + 1 {
        assert !MatchesAt(text, start, p, true);
      }
    }
  }

  lemma NoEndNoMatch(text: string, start: string, end: string, p: nat)
    requires MatchesAt(text, start, p, true) && NoMatchIn(text, start, 0, p, true)
    requires NoMatchIn(text, end, p + |start|, |text| + 1, true)
    ensures forall p': nat, q: nat :: !FencedAt(text, start, end, p', q)
  {
    forall p': nat, q: nat ensures !FencedAt(text, start, end, p', q) {
      if FencedAt(text, start, end, p', q) {
        FirstMatchUnique(text, start, p, p');
      }
    }
  }

  lemma FoundIsOnlyMatch(text: string, start: string, end: string, p: nat, q: nat)
    requires MatchesAt(text, start, p, true) && NoMatchIn(text, start, 0, p, true)
    requires p + |start| <= q && MatchesAt(text, end, q, true) && NoMatchIn(text, end, p + |start|, q, true)
    ensures FencedAt(text, start, end, p, q)
    ensures forall p': nat, q': nat :: FencedAt(text, start, end, p', q') ==> p' == p && q' == q
  {
    forall p': nat, q': nat | FencedAt(text, start, end, p', q') ensures p' == p && q' == q {
      FencedAtUnique(text, start, end, p, q, p', q');
    }
  }

  /** Two first occurrences from the same index are the same. */
  lemma FirstMatchUnique(text: string, pat: string, p: nat, p': nat)
    requires MatchesAt(text, pat, p, true) && NoMatchIn(text, pat, 0, p, true)
    requires MatchesAt(text, pat, p', true) && NoMatchIn(text, pat, 0, p', true)
    ensures p == p'
  {
  }

  /** `parseIndividualAnalyses`' match for one role, with the role's marker lines. */
  function Section(text: string, role: string): Option<string> {
    Capture(text, Marker(role, Start), Marker(role, End))
  }

  /** The entries `parseIndividualAnalyses` pushes for the first `|roles|` roles. */
  function Analyses(text: string, roles: seq<string>): (r: seq<Analysis>)
    ensures |r| <= |roles|
    ensures forall a :: a in r ==> a.role in roles && Section(text, a.role) == Some(a.content)
    ensures forall role :: role in roles && Section(text, role).Some? ==>
              Analysis(role, Section(text, role).value) in r
    decreases |roles|
  {
    if roles == [] then []
    else
      var init := roles[..|roles| - 1];
      var role := roles[|roles| - 1];
      assert roles == init + [role];
      match Section(text, role)
      case None => Analyses(text, init)
      case Some(c) => Analyses(text, init) + [Analysis(role, c)]
  }

  /** `parseIndividualAnalyses(text)`: one pass over the three roles, pushing each section found. */
  method ParseIndividualAnalyses(text: string) returns (analyses: seq<Analysis>)
    ensures analyses == Analyses(text, AnalysisRoles)
  {
    analyses := [];
    for i := 0 to |AnalysisRoles|
      invariant analyses == Analyses(text, AnalysisRoles[..i])
    {
      var role := AnalysisRoles[i];
      assert AnalysisRoles[..i + 1][..i] == AnalysisRoles[..i];
      match Section(text, role)
      case None =>
      case Some(c) =>
        analyses := analyses + [Analysis(role, c)];
    }
    assert AnalysisRoles[..|AnalysisRoles|] == AnalysisRoles;
  }

  /** The entry pushed for a role whose section was or was not found. */
  function Entry(role: string, section: Option<string>): seq<Analysis> {
    match section
    case None => []
    case Some(c) => [Analysis(role, c)]
  }

  /**
   * The parsed list is the Researcher's entry, then the Analyst's, then the
   * Philosopher's, each present exactly when that role's section is.
   */
  lemma ParsedInRoleOrder(text: string)
    ensures Analyses(text, AnalysisRoles) ==
              Entry(Researcher, Section(text, Researcher)) + Entry(Analyst, Section(text, Analyst))
              + Entry(Philosopher, Section(text, Philosopher))
  {
    ThreeRoles(text, Researcher, Analyst, Philosopher);
  }

  lemma ThreeRoles(text: string, a: string, b: string, c: string)
    ensures Analyses(text, [a, b, c]) ==
              Entry(a, Section(text, a)) + Entry(b, Section(text, b)) + Entry(c, Section(text, c))
  {
    var e1, e2, e3 := Entry(a, Section(text, a)), Entry(b, Section(text, b)), Entry(c, Section(text, c));
    AnalysesStep(text, [], a);
    assert [] + [a] == [a];
    assert Analyses(text, [a]) == e1;
    AnalysesStep(text, [a], b);
    assert [a] + [b] == [a, b];
    assert Analyses(text, [a, b]) == e1 + e2;
    AnalysesStep(text, [a, b], c);
    assert [a, b] + [c] == [a, b, c];
  }

  lemma AnalysesStep(text: string, init: seq<string>, role: string)
    ensures Analyses(text, init + [role]) == Analyses(text, init) + Entry(role, Section(text, role))
  {
    assert (init + [role])[..|init|] == init;
  }

  /** What parsing should recover for a contribution: its trimmed text, or nothing when that is empty. */
  function Expected(x: string): Option<string> {
    if Trim(x) == [] then None else Some(Trim(x))
  }

  /** The six marker lines do not occur in `x`, in any letter case. */
  predicate MarkerFree(x: string) {
    forall role :: role in AnalysisRoles ==>
      Lacks(x, Marker(role, Start), true) && Lacks(x, Marker(role, End), true)
  }

  /** The shape of a marker line: `--- [` at the front and no other `[` when role and kind have none. */
  lemma MarkerShape(role: string, kind: string)
    ensures var m := Marker(role, kind);
      |m| == |role| + |kind| + 11 && m[0] == '-' && m[4] == '[' && m[5..5 + |role|] == role
    ensures '\n' !in role && '\n' !in kind ==> '\n' !in Marker(role, kind)
    ensures '[' !in role && '[' !in kind ==> forall j :: 0 <= j < |Marker(role, kind)| && Marker(role, kind)[j] == '[' ==> j == 4
  {
    var m := Marker(role, kind);
    assert m == "--- [" + role + " " + kind + "] ---";
    forall j | 0 <= j < |m| && j != 4 && '[' !in role && '[' !in kind ensures m[j] != '[' {
      if j < 5 {
      } else if j < 5 + |role| {
        assert m[j] == role[j - 5];
      } else if j == 5 + |role| {
      } else if j < 6 + |role| + |kind| {
        assert m[j] == kind[j - 6 - |role|];
      }
    }
    forall j | 0 <= j < |m| && '\n' !in role && '\n' !in kind ensures m[j] != '\n' {
      if 5 <= j < 5 + |role| {
        assert m[j] == role[j - 5];
      } else if 6 + |role| <= j < 6 + |role| + |kind| {
        assert m[j] == kind[j - 6 - |role|];
      }
    }
  }

  /**
   * One role's marker line never contains another role's, when the roles
   * differ (ignoring case) in their fifth character: the `[` can only line up
   * with the `[` of the other marker, and then the roles clash.
   */
  lemma MarkerDistinct(r1: string, k1: string, r2: string, k2: string)
    requires |r1| > 4 && |r2| > 4 && !SameChar(r2[4], r1[4], true) && '[' !in r2 && '[' !in k2
    ensures Lacks(Marker(r2, k2), Marker(r1, k1), true)
  {
    var s, pat := Marker(r2, k2), Marker(r1, k1);
    MarkerShape(r1, k1);
    MarkerShape(r2, k2);
    forall i: nat | i < |s| + 1 ensures !MatchesAt(s, pat, i, true) {
      if MatchesAt(s, pat, i, true) {
        assert SameChar(s[i + 4], pat[4], true);
        SameCharNonLetter(s[i + 4], pat[4], true);
      }
    }
  }

  /** The indentation cannot start a marker. */
  lemma IndentNoDash(pat: string)
    requires pat != [] && pat[0] == '-'
    ensures forall i :: 0 <= i < |Indent| ==> !SameChar(Indent[i], pat[0], true)
  {
  }

  /** A fenced contribution lacks a marker that its own marker lines and text lack. */
  lemma FencedLacks(role: string, x: string, pat: string)
    requires pat != [] && pat[0] == '-' && '\n' !in pat
    requires Lacks(Marker(role, Start), pat, true) && Lacks(Marker(role, End), pat, true) && Lacks(x, pat, true)
    ensures Lacks(Fenced(role, x), pat, true)
  {
    IndentNoDash(pat);
    LacksWithPrefix(Indent, Marker(role, Start), pat, true);
    LacksWithPrefix(Indent, x, pat, true);
    LacksWithPrefix(Indent, Marker(role, End), pat, true);
    LacksNl(Indent + Marker(role, Start), Indent + x, pat, true);
    LacksNl(Nl(Indent + Marker(role, Start), Indent + x), Indent + Marker(role, End), pat, true);
  }

  /** The empty text lacks every non-empty pattern. */
  lemma LacksEmpty(pat: string)
    requires pat != []
    ensures Lacks("", pat, true)
  {
    assert !MatchesAt("", pat, 0, true);
  }

  /**
   * The report's head lacks a marker that the prompt and the Judge's answer
   * lack: its fixed lines have no `[`, and the slotted ones start with
   * characters that cannot start a marker.
   */
  lemma HeadLacks(prompt: string, verdict: string, pat: string)
    requires |pat| > 4 && pat[0] == '-' && pat[4] == '[' && '\n' !in pat
    requires Lacks(prompt, pat, true) && Lacks(verdict, pat, true)
    ensures Lacks(ReportHead(prompt, verdict), pat, true)
  {
    IndentNoDash(pat);
    assert forall i :: 0 <= i < |Indent + Regarding| ==> !SameChar((Indent + Regarding)[i], pat[0], true);
    LacksEmpty(pat);
    LacksWithout(Indent + DecreeHeading, pat, 4, true);
    LacksWithPrefix(Indent + Regarding, prompt, pat, true);
    LacksWithPrefix(Indent, verdict, pat, true);
    LacksWithout(Indent + Rule, pat, 4, true);
    LacksWithout(Indent, pat, 4, true);
    LacksWithout(Indent + AnalysesHeading, pat, 4, true);
    var l1 := Nl("", Indent + DecreeHeading);
    LacksNl("", Indent + DecreeHeading, pat, true);
    var l2 := Nl(l1, Indent + Regarding + prompt);
    LacksNl(l1, Indent + Regarding + prompt, pat, true);
    var l3 := Nl(l2, "");
    LacksNl(l2, "", pat, true);
    var l4 := Nl(l3, Indent + verdict);
    LacksNl(l3, Indent + verdict, pat, true);
    var l5 := Nl(l4, "");
    LacksNl(l4, "", pat, true);
    var l6 := Nl(l5, Indent + Rule);
    LacksNl(l5, Indent + Rule, pat, true);
    var l7 := Nl(l6, Indent);
    LacksNl(l6, Indent, pat, true);
    var l8 := Nl(l7, Indent + AnalysesHeading);
    LacksNl(l7, Indent + AnalysesHeading, pat, true);
    LacksNl(l8, Indent, pat, true);
  }

  /**
   * A text whose lines, from the start of a line, are `start`, the text `x`
   * and `end`, each behind the indentation `ind`, preceded by lines free of
   * `start`, yields the trimmed `x` as its capture, or nothing when `x` is
   * blank.
   */
  lemma CaptureOfFence(s: string, pre: string, ind: string, start: string, x: string, end: string, post: string)
    requires s == pre + Nl(Nl(ind + start, ind + x), ind + end) + post
    requires pre == [] || pre[|pre| - 1] == '\n'
    requires forall i :: 0 <= i < |ind| ==> ind[i] == ' '
    requires start != [] && start[0] == '-' && '\n' !in start
    requires end != [] && end[0] == '-' && '\n' !in end
    requires Lacks(pre, start, true) && Lacks(x, end, true)
    ensures Capture(s, start, end) == Expected(x)
  {
    var mid := "\n" + ind + x + ("\n" + ind);
    var a := pre + ind + start;
    FenceLayout(s, pre, ind, start, x, end, post, a, mid);
    var p := |pre| + |ind|;
    StartFound(s, pre, ind, start, mid + (end + post), p);
    EndFound(s, a, ind, x, end, post, mid);
    FenceCapture(s, a, mid, end, post, start, p);
    PaddedTrim("\n" + ind, x);
  }

  /** With both markers located around `mid`, the capture is `mid` trimmed. */
  lemma FenceCapture(s: string, a: string, mid: string, end: string, post: string, start: string, p: nat)
    requires s == a + mid + (end + post) && |a| == p + |start|
    requires IndexOf(s, start, 0, true) == Some(p) && IndexOf(s, end, |a|, true) == Some(|a| + |mid|)
    ensures Capture(s, start, end) == Expected(mid)
  {
    SliceBetween(s, a, mid, end + post);
    CaptureFound(s, start, end, p, |a|, |a| + |mid|, mid);
  }

  /** The capture once both markers have been located. */
  lemma CaptureFound(s: string, start: string, end: string, p: nat, from: nat, q: nat, c: string)
    requires IndexOf(s, start, 0, true) == Some(p) && from == p + |start| && from <= q <= |s|
    requires IndexOf(s, end, from, true) == Some(q) && s[from..q] == c
    ensures Capture(s, start, end) == Expected(c)
  {
  }

  /** The middle part of a three-part text, as a slice. */
  lemma SliceBetween(s: string, a: string, m: string, b: string)
    requires s == a + m + b
    ensures s[|a|..|a| + |m|] == m
  {
    OccursBetween(a, m, b);
  }

  /** A text between two copies of a line break and its indentation trims to the text. */
  lemma PaddedTrim(pad: string, x: string)
    requires pad != [] && pad[0] == '\n' && forall i :: 1 <= i < |pad| ==> pad[i] == ' '
    ensures Trim(pad + x + pad) == Trim(x)
  {
    assert Blank(pad);
    TrimPadded(pad, x, pad);
  }

  /** The same fenced text, grouped around the START marker and around the padded contribution. */
  lemma FenceLayout(s: string, pre: string, ind: string, start: string, x: string, end: string, post: string,
                    a: string, mid: string)
    requires s == pre + Nl(Nl(ind + start, ind + x), ind + end) + post
    requires a == pre + ind + start && mid == "\n" + ind + x + ("\n" + ind)
    ensures s == pre + ind + (start + (mid + (end + post))) && s == a + mid + (end + post)
  {
  }

  /** The first `start` is the one right after the indentation that opens a line. */
  lemma StartFound(s: string, pre: string, ind: string, start: string, rest: string, p: nat)
    requires s == pre + ind + (start + rest) && p == |pre| + |ind|
    requires pre == [] || pre[|pre| - 1] == '\n'
    requires forall i :: 0 <= i < |ind| ==> ind[i] == ' '
    requires start != [] && start[0] == '-' && '\n' !in start && Lacks(pre, start, true)
    ensures IndexOf(s, start, 0, true) == Some(p) && |pre + ind + start| == p + |start|
  {
    NoMatchBeforeNl(s, pre, ind, start + rest, start, true);
    StartAfter(s, pre + ind, start, rest, p);
  }

  /** A search from the beginning that finds no `start` before `b` ends lands on the `start` behind `b`. */
  lemma StartAfter(s: string, b: string, start: string, rest: string, p: nat)
    requires s == b + (start + rest) && p == |b| && NoMatchIn(s, start, 0, p, true)
    ensures IndexOf(s, start, 0, true) == Some(p)
  {
    OccursBetween(b, start, rest);
    Assoc(b, start, rest);
    OccursMatches(s, start, p, true);
    IndexOfFinds(s, start, 0, p, true);
  }

  /** After `a`, the first `end` is the one that follows the padded text on its own line. */
  lemma EndFound(s: string, a: string, ind: string, x: string, end: string, post: string, mid: string)
    requires mid == "\n" + ind + x + ("\n" + ind) && s == a + mid + (end + post)
    requires forall i :: 0 <= i < |ind| ==> ind[i] == ' '
    requires end != [] && end[0] == '-' && '\n' !in end && Lacks(x, end, true)
    ensures IndexOf(s, end, |a|, true) == Some(|a| + |mid|)
  {
    var t := mid + (end + post);
    PaddedNoMatch(t, ind, x, end, end + post);
    Assoc(a, mid, end + post);
    EndAfter(s, a, mid, t, end, post);
  }

  /** The search from the end of `a` skips `mid`, which holds no `end`, and lands on the `end` behind it. */
  lemma EndAfter(s: string, a: string, mid: string, t: string, end: string, post: string)
    requires s == a + t && t == mid + (end + post) && NoMatchIn(t, end, 0, |mid|, true)
    ensures IndexOf(s, end, |a|, true) == Some(|a| + |mid|)
  {
    NoMatchShift(s, a, t, end, 0, |mid|, true);
    EndAt(s, a, mid, end, post);
    IndexOfFinds(s, end, |a|, |a| + |mid|, true);
  }

  /** `end` sits right after `a` and `mid`. */
  lemma EndAt(s: string, a: string, mid: string, end: string, post: string)
    requires s == a + (mid + (end + post))
    ensures MatchesAt(s, end, |a| + |mid|, true)
  {
    Assoc(a, mid, end + post);
    OccursBetween(a + mid, end, post);
    Assoc(a + mid, end, post);
    OccursMatches(s, end, |a| + |mid|, true);
  }

  /** No `pat` starts inside a text padded by line breaks and indentation, when the text lacks it. */
  lemma PaddedNoMatch(t: string, ind: string, x: string, pat: string, r: string)
    requires t == "\n" + ind + x + ("\n" + ind) + r
    requires forall i :: 0 <= i < |ind| ==> ind[i] == ' '
    requires pat != [] && pat[0] == '-' && '\n' !in pat && Lacks(x, pat, true)
    ensures NoMatchIn(t, pat, 0, |"\n" + ind + x + ("\n" + ind)|, true)
  {
    var m1 := "\n" + ind + x + "\n";
    LacksWithPrefix(ind, x, pat, true);
    LacksNlAround(ind + x, pat, true);
    Assoc("\n", ind, x);
    LacksNlAround("\n" + ind + x, pat, true);
    PadLayout(t, ind, x, r);
    NoMatchBeforeNl(t, m1, ind, r, pat, true);
  }

  lemma PadLayout(t: string, ind: string, x: string, r: string)
    requires t == "\n" + ind + x + ("\n" + ind) + r
    ensures t == "\n" + ind + x + "\n" + ind + r
  {
  }

  /** A fenced contribution after lines free of its START marker is recovered by its role's search. */
  lemma FencedSection(s: string, pre: string, role: string, x: string, post: string)
    requires s == pre + Fenced(role, x) + post
    requires pre == [] || pre[|pre| - 1] == '\n'
    requires '\n' !in role
    requires Lacks(pre, Marker(role, Start), true) && Lacks(x, Marker(role, End), true)
    ensures Section(s, role) == Expected(x)
  {
    MarkerShape(role, Start);
    MarkerShape(role, End);
    CaptureOfFence(s, pre, Indent, Marker(role, Start), x, Marker(role, End), post);
  }

  /** Roles whose marker lines can be told apart: no line break, no `[`, and a fifth character. */
  predicate PlainRole(role: string) {
    |role| > 4 && '\n' !in role && '[' !in role
  }

  /** A fenced contribution lacks the START marker of a role that differs from its own at the fifth character. */
  lemma FencedLacksOther(role: string, x: string, other: string)
    requires PlainRole(role) && PlainRole(other) && !SameChar(other[4], role[4], true)
    requires Lacks(x, Marker(other, Start), true)
    ensures Lacks(Fenced(role, x), Marker(other, Start), true)
  {
    MarkerShape(other, Start);
    MarkerDistinct(other, Start, role, Start);
    MarkerDistinct(other, Start, role, End);
    FencedLacks(role, x, Marker(other, Start));
  }

  /** The report's layout, grouped around each of the three fenced contributions. */
  lemma ReportLayout(s: string, h: string, fa: string, fb: string, fc: string)
    requires s == Nl(Nl(Nl(Nl(Nl(Nl(h, fa), ""), fb), ""), fc), "    ")
    ensures s == (h + "\n") + fa + ("\n\n" + fb + "\n\n" + fc + "\n    ")
    ensures s == (Nl(Nl(h, fa), "") + "\n") + fb + ("\n\n" + fc + "\n    ")
    ensures s == (Nl(Nl(Nl(Nl(h, fa), ""), fb), "") + "\n") + fc + "\n    "
  {
  }

  /** The first contribution comes back from the report. */
  lemma FirstSection(s: string, h: string, a: string, xa: string, post: string)
    requires s == (h + "\n") + Fenced(a, xa) + post
    requires PlainRole(a) && Lacks(h, Marker(a, Start), true) && Lacks(xa, Marker(a, End), true)
    ensures Section(s, a) == Expected(xa)
  {
    MarkerShape(a, Start);
    LacksNlAround(h, Marker(a, Start), true);
    FencedSection(s, h + "\n", a, xa, post);
  }

  /** The second contribution comes back from the report. */
  lemma SecondSection(s: string, h: string, a: string, xa: string, b: string, xb: string, post: string)
    requires s == (Nl(Nl(h, Fenced(a, xa)), "") + "\n") + Fenced(b, xb) + post
    requires PlainRole(a) && PlainRole(b) && !SameChar(b[4], a[4], true)
    requires Lacks(h, Marker(b, Start), true) && Lacks(xa, Marker(b, Start), true)
    requires Lacks(xb, Marker(b, End), true)
    ensures Section(s, b) == Expected(xb)
  {
    var ms := Marker(b, Start);
    MarkerShape(b, Start);
    FencedLacksOther(a, xa, b);
    LacksNl(h, Fenced(a, xa), ms, true);
    LacksEmpty(ms);
    LacksNl(Nl(h, Fenced(a, xa)), "", ms, true);
    LacksNlAround(Nl(Nl(h, Fenced(a, xa)), ""), ms, true);
    FencedSection(s, Nl(Nl(h, Fenced(a, xa)), "") + "\n", b, xb, post);
  }

  /** The third contribution comes back from the report. */
  lemma ThirdSection(s: string, h: string, a: string, xa: string, b: string, xb: string, c: string, xc: string,
                     post: string)
    requires s == (Nl(Nl(Nl(Nl(h, Fenced(a, xa)), ""), Fenced(b, xb)), "") + "\n") + Fenced(c, xc) + post
    requires PlainRole(a) && PlainRole(b) && PlainRole(c)
    requires !SameChar(c[4], a[4], true) && !SameChar(c[4], b[4], true)
    requires Lacks(h, Marker(c, Start), true) && Lacks(xa, Marker(c, Start), true)
    requires Lacks(xb, Marker(c, Start), true) && Lacks(xc, Marker(c, End), true)
    ensures Section(s, c) == Expected(xc)
  {
    var ms := Marker(c, Start);
    MarkerShape(c, Start);
    ThirdPrefixLacks(h, a, xa, b, xb, c);
    FencedSection(s, Nl(Nl(Nl(Nl(h, Fenced(a, xa)), ""), Fenced(b, xb)), "") + "\n", c, xc, post);
  }

  lemma ThirdPrefixLacks(h: string, a: string, xa: string, b: string, xb: string, c: string)
    requires PlainRole(a) && PlainRole(b) && PlainRole(c)
    requires !SameChar(c[4], a[4], true) && !SameChar(c[4], b[4], true)
    requires Lacks(h, Marker(c, Start), true) && Lacks(xa, Marker(c, Start), true)
    requires Lacks(xb, Marker(c, Start), true)
    ensures Lacks(Nl(Nl(Nl(Nl(h, Fenced(a, xa)), ""), Fenced(b, xb)), "") + "\n", Marker(c, Start), true)
  {
    var ms := Marker(c, Start);
    MarkerShape(c, Start);
    FencedLacksOther(a, xa, c);
    FencedLacksOther(b, xb, c);
    LacksEmpty(ms);
    var l1 := Nl(h, Fenced(a, xa));
    LacksNl(h, Fenced(a, xa), ms, true);
    var l2 := Nl(l1, "");
    LacksNl(l1, "", ms, true);
    var l3 := Nl(l2, Fenced(b, xb));
    LacksNl(l2, Fenced(b, xb), ms, true);
    var l4 := Nl(l3, "");
    LacksNl(l3, "", ms, true);
    LacksNlAround(l4, ms, true);
  }

  /** The three fenced contributions all come back from a report laid out like `finalReport`. */
  lemma ReportSections(s: string, h: string, a: string, xa: string, b: string, xb: string, c: string, xc: string)
    requires s == Nl(Nl(Nl(Nl(Nl(Nl(h, Fenced(a, xa)), ""), Fenced(b, xb)), ""), Fenced(c, xc)), "    ")
    requires PlainRole(a) && PlainRole(b) && PlainRole(c)
    requires !SameChar(b[4], a[4], true) && !SameChar(c[4], a[4], true) && !SameChar(c[4], b[4], true)
    requires Lacks(h, Marker(a, Start), true) && Lacks(h, Marker(b, Start), true) && Lacks(h, Marker(c, Start), true)
    requires Lacks(xa, Marker(a, End), true) && Lacks(xa, Marker(b, Start), true) && Lacks(xa, Marker(c, Start), true)
    requires Lacks(xb, Marker(b, End), true) && Lacks(xb, Marker(c, Start), true)
    requires Lacks(xc, Marker(c, End), true)
    ensures Section(s, a) == Expected(xa) && Section(s, b) == Expected(xb) && Section(s, c) == Expected(xc)
  {
    ReportLayout(s, h, Fenced(a, xa), Fenced(b, xb), Fenced(c, xc));
    FirstSection(s, h, a, xa, "\n\n" + Fenced(b, xb) + "\n\n" + Fenced(c, xc) + "\n    ");
    SecondSection(s, h, a, xa, b, xb, "\n\n" + Fenced(c, xc) + "\n    ");
    ThirdSection(s, h, a, xa, b, xb, c, xc, "\n    ");
  }

  /** The three analysed roles have marker lines that can be told apart. */
  lemma AnalysisRolesPlain()
    ensures PlainRole(Researcher) && PlainRole(Analyst) && PlainRole(Philosopher)
    ensures !SameChar(Analyst[4], Researcher[4], true) && !SameChar(Philosopher[4], Researcher[4], true)
    ensures !SameChar(Philosopher[4], Analyst[4], true)
  {
  }

  /** What `MarkerFree` says about each of the six marker lines. */
  lemma MarkerFreeLacks(x: string)
    requires MarkerFree(x)
    ensures Lacks(x, Marker(Researcher, Start), true) && Lacks(x, Marker(Researcher, End), true)
    ensures Lacks(x, Marker(Analyst, Start), true) && Lacks(x, Marker(Analyst, End), true)
    ensures Lacks(x, Marker(Philosopher, Start), true) && Lacks(x, Marker(Philosopher, End), true)
  {
    assert Researcher in AnalysisRoles && Analyst in AnalysisRoles && Philosopher in AnalysisRoles;
  }

  /** The report's head lacks the START markers of the three analysed roles. */
  lemma HeadLacksStarts(prompt: string, verdict: string)
    requires MarkerFree(prompt) && MarkerFree(verdict)
    ensures Lacks(ReportHead(prompt, verdict), Marker(Researcher, Start), true)
    ensures Lacks(ReportHead(prompt, verdict), Marker(Analyst, Start), true)
    ensures Lacks(ReportHead(prompt, verdict), Marker(Philosopher, Start), true)
  {
    MarkerFreeLacks(prompt);
    MarkerFreeLacks(verdict);
    AnalysisRolesPlain();
    MarkerShape(Researcher, Start);
    MarkerShape(Analyst, Start);
    MarkerShape(Philosopher, Start);
    HeadLacks(prompt, verdict, Marker(Researcher, Start));
    HeadLacks(prompt, verdict, Marker(Analyst, Start));
    HeadLacks(prompt, verdict, Marker(Philosopher, Start));
  }

  /**
   * Parsing a report that `finalReport` built gives back each member's
   * contribution, trimmed, in role order, leaving out the blank ones, as long
   * as no marker line occurs inside the prompt, the answer or a contribution.
   */
  lemma ParseReportRoundTrip(e: Evidence, verdict: string)
    requires MarkerFree(e.prompt) && MarkerFree(verdict)
    requires MarkerFree(e.research) && MarkerFree(e.analysis) && MarkerFree(e.philosophy)
    ensures Analyses(FinalReport(e, verdict), AnalysisRoles) ==
              Entry(Researcher, Expected(e.research)) + Entry(Analyst, Expected(e.analysis))
              + Entry(Philosopher, Expected(e.philosophy))
  {
    ReportRoundTrip(FinalReport(e, verdict), e, verdict);
  }

  lemma ReportRoundTrip(s: string, e: Evidence, verdict: string)
    requires s == FinalReport(e, verdict)
    requires MarkerFree(e.prompt) && MarkerFree(verdict)
    requires MarkerFree(e.research) && MarkerFree(e.analysis) && MarkerFree(e.philosophy)
    ensures Analyses(s, AnalysisRoles) ==
              Entry(Researcher, Expected(e.research)) + Entry(Analyst, Expected(e.analysis))
              + Entry(Philosopher, Expected(e.philosophy))
  {
    HeadLacksStarts(e.prompt, verdict);
    MarkerFreeLacks(e.research);
    MarkerFreeLacks(e.analysis);
    MarkerFreeLacks(e.philosophy);
    AnalysisRolesPlain();
    ReportSections(s, ReportHead(e.prompt, verdict), Researcher, e.research, Analyst, e.analysis,
      Philosopher, e.philosophy);
    ParsedInRoleOrder(s);
  }

  /** `progressMap`: how far the progress ring is filled in each phase. */
  const ProgressMap: map<string, nat> := map[
    "selecting" := 10, "analyzing" := 30, "researching" := 50, "collaborating" := 75,
    "synthesizing" := 90, "complete" := 100, "error" := 100]

  /** `progressMap[sessionPhase] || 0`: every listed value is non-zero, so only unlisted phases give 0. */
  function Progress(phase: string): (r: nat)
    ensures r <= 100
    ensures r == 0 <==> phase !in ProgressMap
    ensures r == 100 <==> phase == "complete" || phase == "error"
  {
    if phase in ProgressMap then ProgressMap[phase] else 0
  }

  /** What the council screen shows. */
  datatype Screen =
    | Hidden
      /** The member cards and the progress ring. */
    | Working(progress: nat)
      /** The verdict, the parsed contributions when they are shown, and the error panel in phase 'error'. */
    | Outcome(report: string, analyses: seq<Analysis>, showAnalyses: bool, errorPanel: Option<string>)

  /** The screen for a phase, the synthesis text and the details flag. */
  function ScreenOf(phase: string, synthesis: string, showIndividual: bool): (r: Screen)
    ensures r.Hidden? <==> phase == "idle"
    ensures r.Working? <==> phase != "idle" && phase != "complete" && phase != "error"
    ensures r.Outcome? ==> r.report == synthesis && r.analyses == Analyses(synthesis, AnalysisRoles)
    ensures r.Outcome? ==> (r.errorPanel.Some? <==> phase == "error")
  {
    if phase == "idle" then Hidden
    else if phase != "complete" && phase != "error" then Working(Progress(phase))
    else Outcome(synthesis, Analyses(synthesis, AnalysisRoles), showIndividual,
                 if phase == "error" then Some(synthesis) else None)
  }

  /** While the council works the ring is never full, and it is full on the outcome screen's two phases. */
  lemma WorkingNeverFull(phase: string, synthesis: string, showIndividual: bool)
    requires ScreenOf(phase, synthesis, showIndividual).Working?
    ensures ScreenOf(phase, synthesis, showIndividual).progress < 100
    ensures phase in ProgressMap ==> 10 <= ScreenOf(phase, synthesis, showIndividual).progress
  {
  }

  /** The phases the server announces fill the ring in the order they arrive. */
  lemma ProgressFollowsSession()
    ensures Progress("idle") < Progress("selecting") < Progress("synthesizing") < Progress("complete")
    ensures Progress("error") == Progress("complete")
  {
  }
}
