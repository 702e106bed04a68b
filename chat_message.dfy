/**
 * The reasoning trace of an assistant message (src/components/ChatMessage.jsx,
 * `parseReasoningString`): the text is cut before every `URL:`, each piece
 * that starts with `URL:` becomes a search step (the address and the cleaned
 * search results) and a piece before the first `URL:` becomes a text step.
 *
 * The regular expression `/(URL:[\s\S]*?)(?=URL:|$)/g` used by `split` is
 * modelled by `SplitOnUrls`: a lazy capture from one `URL:` up to the next
 * `URL:` or the end, which `split` returns together with the empty text
 * between two adjacent matches and after the last one. The three cleanup
 * replacements are written as left-to-right scans, as a global `replace`
 * performs them.
 */
module ChatMessage {
  import opened Wrappers
  import opened Text

  const UrlTag: string := "URL:"
  const ResultsMarker: string := "Search Results"
  const SearchPrefix: string := "search-"
  const TextPrefix: string := "text-"

  /** One step of the trace, as the viewer renders it. */
  datatype Step =
    | SearchStep(url: string, searchResults: string, id: string)
    | TextStep(content: string, id: string)

  /**
   * The pieces `split` yields from the first match onwards, for a text that
   * starts with `URL:`: each capture followed by the empty text that comes
   * after it (before the next match or at the end).
   */
  function Captures(t: string): seq<string>
    decreases |t|
  {
    match IndexOf(t, UrlTag, |UrlTag|, false)
    case None => [t, ""]
    case Some(j) => [t[..j], ""] + Captures(t[j..])
  }

  /** `reasoning.split(regex)`: the text before the first `URL:`, then the captures. */
  function SplitOnUrls(s: string): seq<string> {
    match IndexOf(s, UrlTag, 0, false)
    case None => [s]
    case Some(i) => [s[..i]] + Captures(s[i..])
  }

  /** `.filter(part => part && part.trim() !== '')`. */
  function Keep(parts: seq<string>): seq<string>
    decreases |parts|
  {
    if parts == [] then []
    else if Trim(parts[0]) != [] then [parts[0]] + Keep(parts[1..])
    else Keep(parts[1..])
  }

  predicate IsDigit(c: char) {
    '0' <= c <= '9'
  }

  /** How many digits (`\d`) follow from index `i`. */
  function DigitsFrom(s: string, i: nat): (n: nat)
    requires i <= |s|
    ensures i + n <= |s| && (forall k :: i <= k < i + n ==> IsDigit(s[k]))
    ensures i + n == |s| || !IsDigit(s[i + n])
    decreases |s| - i
  {
    if i < |s| && IsDigit(s[i]) then 1 + DigitsFrom(s, i + 1) else 0
  }

  /** `.replace(/L\d+:\s?/g, '\n')`: a line reference and one white space after it become a line feed. */
  function ReplaceLineRefs(s: string): string
    decreases |s|
  {
    if s == [] then []
    else if s[0] == 'L' && 1 <= |s| && DigitsFrom(s, 1) > 0 && 1 + DigitsFrom(s, 1) < |s| && s[1 + DigitsFrom(s, 1)] == ':' then
      var e := 2 + DigitsFrom(s, 1);
      var e' := if e < |s| && IsSpace(s[e]) then e + 1 else e;
      "\n" + ReplaceLineRefs(s[e'..])
    else [s[0]] + ReplaceLineRefs(s[1..])
  }

  /** `.replace(/†/g, ' - ')`. */
  function ReplaceDaggers(s: string): string
    decreases |s|
  {
    if s == [] then []
    else if s[0] == '†' then " - " + ReplaceDaggers(s[1..])
    else [s[0]] + ReplaceDaggers(s[1..])
  }

  /** A citation `【`, digits, white space, `-`, white space: the match of `/【\d+\s-\s/`, when one starts here. */
  predicate CitationAt(s: string) {
    |s| >= 1 && s[0] == '【' && DigitsFrom(s, 1) > 0 &&
    4 + DigitsFrom(s, 1) <= |s| && IsSpace(s[1 + DigitsFrom(s, 1)]) &&
    s[2 + DigitsFrom(s, 1)] == '-' && IsSpace(s[3 + DigitsFrom(s, 1)])
  }

  /** `.replace(/【\d+\s-\s/g, '【')`: the citation number and its dash are dropped. */
  function ReplaceCitations(s: string): string
    decreases |s|
  {
    if s == [] then []
    else if CitationAt(s) then "【" + ReplaceCitations(s[4 + DigitsFrom(s, 1)..])
    else [s[0]] + ReplaceCitations(s[1..])
  }

  /** The three replacements in order, then `trim`. */
  function Cleanup(s: string): string {
    Trim(ReplaceCitations(ReplaceDaggers(ReplaceLineRefs(s))))
  }

  /** A search step from the trimmed text after `URL:`. */
  function ParseSearch(content: string, index: nat): Step {
    match IndexOf(content, ResultsMarker, 0, false)
    case Some(m) =>
      SearchStep(Split(Trim(content[..m]), '\n')[0],
                 Cleanup(Trim(content[m + |ResultsMarker|..])),
                 SearchPrefix + NatToString(index))
    case None =>
      var lines := Split(content, '\n');
      SearchStep(lines[0], Cleanup(Join(lines[1..], "\n")), SearchPrefix + NatToString(index))
  }

  /** The step of the piece at position `index` of the kept pieces. */
  function ParseStep(part: string, index: nat): (r: Step)
    ensures r.SearchStep? <==> StartsWith(part, UrlTag)
  {
    if StartsWith(part, UrlTag) then ParseSearch(Trim(part[|UrlTag|..]), index)
    else TextStep(part, TextPrefix + NatToString(index))
  }

  /** `parseReasoningString`: no steps for a missing or empty trace. */
  function ParseReasoningString(reasoning: Option<string>): seq<Step> {
    if reasoning.None? || reasoning.value == [] then []
    else
      var parts := Keep(SplitOnUrls(reasoning.value));
      seq(|parts|, i requires 0 <= i < |parts| => ParseStep(parts[i], i))
  }

  // ----- the split -----

  /** The captures run together give the text back. */
  lemma {:induction false} CapturesConcat(t: string)
    ensures Concat(Captures(t)) == t
    decreases |t|
  {
    match IndexOf(t, UrlTag, |UrlTag|, false)
    case None =>
      assert Concat([t, ""]) == t + Concat([""]);
    case Some(j) =>
      CapturesConcat(t[j..]);
      var rest := Captures(t[j..]);
      assert Concat([t[..j], ""] + rest) == t[..j] + Concat([""] + rest);
      assert Concat([""] + rest) == "" + Concat(rest);
      assert t == t[..j] + t[j..];
  }

  /** The pieces of the split run together give the trace back: nothing is lost or reordered. */
  lemma SplitRoundTrip(s: string)
    ensures Concat(SplitOnUrls(s)) == s
  {
    match IndexOf(s, UrlTag, 0, false)
    case None =>
    case Some(i) =>
      CapturesConcat(s[i..]);
      assert Concat([s[..i]] + Captures(s[i..])) == s[..i] + Concat(Captures(s[i..]));
      assert s == s[..i] + s[i..];
  }

  /** A prefix of a text has no match where the text has none. */
  lemma NoMatchInPrefix(s: string, n: nat, lo: nat)
    requires n <= |s| && NoMatchIn(s, UrlTag, lo, n, false)
    ensures NoMatchIn(s[..n], UrlTag, lo, n + 1, false)
  {
    forall i: nat | lo <= i < n + 1 ensures !MatchesAt(s[..n], UrlTag, i, false) {
      MatchInPrefix(s, UrlTag, n, i, false);
    }
  }

  /** A match of `URL:` is where the rest of the text starts with it. */
  lemma MatchStarts(s: string, i: nat)
    requires MatchesAt(s, UrlTag, i, false)
    ensures StartsWith(s[i..], UrlTag)
  {
    assert s[i..][..|UrlTag|] == s[i..i + |UrlTag|];
  }

  /** `URL:` does not overlap itself: a text starting with it has no other occurrence among its first four indices. */
  lemma NoSelfOverlap(t: string)
    requires StartsWith(t, UrlTag)
    ensures NoMatchIn(t, UrlTag, 1, |UrlTag|, false)
  {
    assert t[..|UrlTag|] == UrlTag;
    forall i: nat | 1 <= i < |UrlTag| ensures !MatchesAt(t, UrlTag, i, false) {
      assert t[i] == UrlTag[i] && UrlTag[i] != UrlTag[0];
      assert !SameChar(t[i + 0], UrlTag[0], false);
    }
  }

  /** A capture: starts with `URL:` and holds no other occurrence of it. */
  predicate OneUrl(p: string) {
    StartsWith(p, UrlTag) && NoMatchIn(p, UrlTag, 1, |p| + 1, false)
  }

  /** Every piece of the captures is empty or one `URL:` with what follows it up to the next. */
  lemma {:induction false} CapturesShape(t: string)
    requires StartsWith(t, UrlTag)
    ensures forall k :: 0 <= k < |Captures(t)| ==> Captures(t)[k] == "" || OneUrl(Captures(t)[k])
    decreases |t|
  {
    IndexOfMeaning(t, UrlTag, |UrlTag|, false);
    NoSelfOverlap(t);
    match IndexOf(t, UrlTag, |UrlTag|, false)
    case None =>
      assert NoMatchIn(t, UrlTag, 1, |t| + 1, false);
    case Some(j) =>
      assert NoMatchIn(t, UrlTag, 1, j, false);
      NoMatchInPrefix(t, j, 1);
      assert t[..j][..|UrlTag|] == t[..|UrlTag|];
      MatchStarts(t, j);
      CapturesShape(t[j..]);
  }

  /**
   * The shape of the split: the first piece holds no `URL:`, and every other
   * piece is empty or runs from one `URL:` up to the next (or the end).
   */
  lemma SplitShape(s: string)
    ensures |SplitOnUrls(s)| >= 1 && Lacks(SplitOnUrls(s)[0], UrlTag, false)
    ensures forall k :: 1 <= k < |SplitOnUrls(s)| ==> SplitOnUrls(s)[k] == "" || OneUrl(SplitOnUrls(s)[k])
  {
    IndexOfMeaning(s, UrlTag, 0, false);
    match IndexOf(s, UrlTag, 0, false)
    case None =>
    case Some(i) =>
      NoMatchInPrefix(s, i, 0);
      MatchStarts(s, i);
      CapturesShape(s[i..]);
  }

  // ----- the filter -----

  /** The filter keeps exactly the pieces that are not blank, in their order. */
  lemma {:induction false} KeepMeaning(parts: seq<string>)
    ensures forall p :: p in Keep(parts) <==> p in parts && Trim(p) != []
    decreases |parts|
  {
    if parts != [] {
      KeepMeaning(parts[1..]);
      assert parts == [parts[0]] + parts[1..];
    }
  }

  /** One piece is kept exactly when it is not blank. */
  lemma KeepOne(x: string)
    ensures Keep([x]) == if Trim(x) != [] then [x] else []
  {
    assert [x][1..] == [];
  }

  /**
   * The filter works piece by piece: a piece stays exactly when it is not
   * blank, and the list splits at any point, so the kept pieces stay in input
   * order and keep their number.
   */
  lemma {:induction false} KeepAppend(a: seq<string>, b: seq<string>)
    ensures Keep(a + b) == Keep(a) + Keep(b)
    decreases |a|
  {
    if a == [] {
      assert a + b == b;
    } else {
      assert (a + b)[1..] == a[1..] + b;
      KeepAppend(a[1..], b);
    }
  }

  /** A text free of `URL:` does not start with it. */
  lemma LacksNotStarts(p: string)
    requires Lacks(p, UrlTag, false)
    ensures !StartsWith(p, UrlTag)
  {
    StartIsMatch(p);
  }

  lemma StartIsMatch(p: string)
    ensures StartsWith(p, UrlTag) ==> MatchesAt(p, UrlTag, 0, false)
  {
    if StartsWith(p, UrlTag) {
      assert forall k :: 0 <= k < |UrlTag| ==> p[..|UrlTag|][k] == p[k];
    }
  }

  /** The pieces kept after the first piece of the split all start with `URL:`. */
  lemma KeptCaptures(parts: seq<string>)
    requires forall k :: 0 <= k < |parts| ==> parts[k] == "" || OneUrl(parts[k])
    ensures forall k :: 0 <= k < |Keep(parts)| ==> StartsWith(Keep(parts)[k], UrlTag)
  {
    KeepMeaning(parts);
    forall k | 0 <= k < |Keep(parts)| ensures StartsWith(Keep(parts)[k], UrlTag) {
      var p := Keep(parts)[k];
      assert p in Keep(parts);
      assert p != "";
    }
  }

  // ----- the steps -----

  /**
   * Only the first step can be a text step, and it is one exactly when the
   * text before the first `URL:` is not blank; it then carries that text.
   */
  lemma OnlyFirstIsText(s: string)
    requires s != []
    ensures var steps := ParseReasoningString(Some(s));
      forall i :: 0 < i < |steps| ==> steps[i].SearchStep?
    ensures var steps := ParseReasoningString(Some(s));
      (|steps| > 0 && steps[0].TextStep?) <==> !Blank(SplitOnUrls(s)[0])
    ensures var steps := ParseReasoningString(Some(s));
      |steps| > 0 && steps[0].TextStep? ==> steps[0].content == SplitOnUrls(s)[0]
  {
    var all := SplitOnUrls(s);
    SplitShape(s);
    var tail := all[1..];
    assert forall k :: 0 <= k < |tail| ==> tail[k] == all[k + 1];
    KeptCaptures(tail);
    TrimEmptyIffBlank(all[0]);
    LacksNotStarts(all[0]);
    assert all == [all[0]] + tail;
    KeptFirst(all[0], tail, Keep(all));
  }

  /**
   * Filtering a first piece that does not start with `URL:` followed by
   * pieces whose kept ones all do: only the first kept piece can lack `URL:`,
   * and it is that first piece, kept when it is not blank.
   */
  lemma KeptFirst(first: string, tail: seq<string>, parts: seq<string>)
    requires !StartsWith(first, UrlTag) && parts == Keep([first] + tail)
    requires forall k :: 0 <= k < |Keep(tail)| ==> StartsWith(Keep(tail)[k], UrlTag)
    ensures forall i :: 0 < i < |parts| ==> StartsWith(parts[i], UrlTag)
    ensures (|parts| > 0 && !StartsWith(parts[0], UrlTag)) <==> Trim(first) != []
    ensures |parts| > 0 && !StartsWith(parts[0], UrlTag) ==> parts[0] == first
  {
    assert ([first] + tail)[1..] == tail;
    if Trim(first) != [] {
      assert parts == [first] + Keep(tail);
      forall i | 0 < i < |parts| ensures StartsWith(parts[i], UrlTag) {
        assert parts[i] == Keep(tail)[i - 1];
      }
    }
  }

  /** The steps' ids are all different. */
  lemma StepIdsDistinct(reasoning: Option<string>, i: nat, j: nat)
    requires i < j < |ParseReasoningString(reasoning)|
    ensures ParseReasoningString(reasoning)[i].id != ParseReasoningString(reasoning)[j].id
  {
    var steps := ParseReasoningString(reasoning);
    var a, b := steps[i].id, steps[j].id;
    if a == b {
      var pa := if steps[i].SearchStep? then SearchPrefix else TextPrefix;
      var pb := if steps[j].SearchStep? then SearchPrefix else TextPrefix;
      assert a == pa + NatToString(i) && b == pb + NatToString(j);
      assert a[0] == pa[0] && b[0] == pb[0];
      assert pa == pb;
      assert a[|pa|..] == NatToString(i) && b[|pb|..] == NatToString(j);
      NatToStringInjective(i, j);
    }
  }

  /** A step's address is one line. */
  lemma UrlIsOneLine(reasoning: Option<string>, i: nat)
    requires i < |ParseReasoningString(reasoning)| && ParseReasoningString(reasoning)[i].SearchStep?
    ensures '\n' !in ParseReasoningString(reasoning)[i].url
  {
  }

  // ----- the search step -----

  /** With the marker after the address line, the address is that line and the results what follows the marker. */
  lemma SearchWithMarker(u: string, r: string, index: nat)
    requires '\n' !in u && Trim(u) == u && Lacks(u, ResultsMarker, false)
    ensures ParseSearch(u + "\n" + ResultsMarker + r, index) ==
      SearchStep(u, Cleanup(Trim(r)), SearchPrefix + NatToString(index))
  {
    var c := u + "\n" + ResultsMarker + r;
    MarkerFound(c, u, r);
    TrimPadded("", u, "\n");
    assert "" + u + "\n" == u + "\n";
    assert Split(u, '\n') == [u];
  }

  /** The marker right after the address line is the first one, and cuts the text there. */
  lemma MarkerFound(c: string, u: string, r: string)
    requires c == u + "\n" + ResultsMarker + r
    requires '\n' !in u && Lacks(u, ResultsMarker, false)
    ensures IndexOf(c, ResultsMarker, 0, false) == Some(|u| + 1)
    ensures c[..|u| + 1] == u + "\n" && c[|u| + 1 + |ResultsMarker|..] == r
  {
    var pre := u + "\n";
    assert c == pre + "" + (ResultsMarker + r);
    LacksNlAround(u, ResultsMarker, false);
    NoMatchBeforeNl(c, pre, "", ResultsMarker + r, ResultsMarker, false);
    assert c == pre + ResultsMarker + r;
    OccursBetween(pre, ResultsMarker, r);
    OccursMatches(c, ResultsMarker, |pre|, false);
    IndexOfFinds(c, ResultsMarker, 0, |pre|, false);
    assert c[..|pre|] == pre;
    assert c[|pre| + |ResultsMarker|..] == r;
  }

  /** Without the marker the address is the first line and the results the remaining lines. */
  lemma SearchWithoutMarker(u: string, body: string, index: nat)
    requires '\n' !in u && Lacks(u + "\n" + body, ResultsMarker, false)
    ensures ParseSearch(u + "\n" + body, index) ==
      SearchStep(u, Cleanup(body), SearchPrefix + NatToString(index))
  {
    var c := u + "\n" + body;
    IndexOfMeaning(c, ResultsMarker, 0, false);
    SplitAfter(u, '\n', body);
    assert u + ['\n'] + body == c;
    JoinSplit(body, '\n');
  }

  // ----- the cleanup -----

  /** `L<n>:` and one space become a line break. */
  lemma LineRefBecomesBreak(n: nat, rest: string)
    ensures ReplaceLineRefs("L" + NatToString(n) + ": " + rest) == "\n" + ReplaceLineRefs(rest)
  {
    var d := NatToString(n);
    var s := "L" + d + ": " + rest;
    DigitsAt(s, 1, d);
    assert s[1 + |d|] == ':' && s[2 + |d|] == ' ';
    assert s[3 + |d|..] == rest;
  }

  /** A citation `【<n> - ` keeps only its bracket. */
  lemma CitationBecomesBracket(n: nat, rest: string)
    ensures ReplaceCitations("【" + NatToString(n) + " - " + rest) == "【" + ReplaceCitations(rest)
  {
    var d := NatToString(n);
    var s := "【" + d + " - " + rest;
    DigitsAt(s, 1, d);
    assert s[1 + |d|] == ' ' && s[2 + |d|] == '-' && s[3 + |d|] == ' ';
    assert s[4 + |d|..] == rest;
  }

  /** The digits of a number written at index `i`, followed by a non-digit, are the run `DigitsFrom` counts. */
  lemma {:induction false} DigitsAt(s: string, i: nat, d: string)
    requires i + |d| < |s| && s[i..i + |d|] == d && !IsDigit(s[i + |d|])
    requires forall k :: 0 <= k < |d| ==> IsDigit(d[k])
    ensures DigitsFrom(s, i) == |d|
    decreases |d|
  {
    if |d| > 0 {
      assert s[i] == d[0];
      assert s[i + 1..i + 1 + |d[1..]|] == d[1..];
      DigitsAt(s, i + 1, d[1..]);
    }
  }

  /** No dagger survives the replacements, and text without one is left as it is. */
  lemma {:induction false} DaggersGone(s: string)
    ensures '†' !in ReplaceDaggers(s)
    ensures '†' !in s ==> ReplaceDaggers(s) == s
    decreases |s|
  {
    if s != [] {
      DaggersGone(s[1..]);
      assert '†' !in s ==> '†' !in s[1..];
    }
  }

  /** Dropping citation numbers brings no character that was not there before except the bracket. */
  lemma {:induction false} CitationsAddNothing(s: string, c: char)
    requires c != '【' && c !in s
    ensures c !in ReplaceCitations(s)
    decreases |s|
  {
    if s != [] {
      if CitationAt(s) {
        var m := 4 + DigitsFrom(s, 1);
        InSuffixNot(s, m, c);
        CitationsAddNothing(s[m..], c);
      } else {
        InSuffixNot(s, 1, c);
        CitationsAddNothing(s[1..], c);
      }
    }
  }

  lemma InSuffixNot(s: string, m: nat, c: char)
    requires m <= |s| && c !in s
    ensures c !in s[m..]
  {
    forall k | 0 <= k < |s[m..]| ensures s[m..][k] != c {
      assert s[m..][k] == s[m + k];
    }
  }

  /** The cleaned search results hold no dagger. */
  lemma CleanupDropsDaggers(s: string)
    ensures '†' !in Cleanup(s)
  {
    var d := ReplaceDaggers(ReplaceLineRefs(s));
    DaggersGone(ReplaceLineRefs(s));
    CitationsAddNothing(d, '†');
    var t := ReplaceCitations(d);
    var i := TrimIsSlice(t);
    forall k | 0 <= k < |Trim(t)| ensures Trim(t)[k] != '†' {
      assert Trim(t)[k] == t[i + k];
    }
  }
}
