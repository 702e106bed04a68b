/**
 * The JavaScript string operations the core relies on, on `string` (a sequence
 * of Unicode scalar values): `trim`, `indexOf`/`includes`/`startsWith`,
 * `split`/`join` on one character, `replace` of the first occurrence of a
 * literal, ASCII `toLowerCase`, and the decimal rendering of a number in a
 * template literal.
 */
module Text {
  import opened Wrappers

  /** The characters JavaScript's `trim` removes and its regex class `\s` matches. */
  predicate IsSpace(c: char) {
    c == '\t' || c == '\n' || c == '\U{000B}' || c == '\U{000C}' || c == '\r' || c == ' ' ||
    c == '\U{00A0}' || c == '\U{1680}' || ('\U{2000}' <= c <= '\U{200A}') ||
    c == '\U{2028}' || c == '\U{2029}' || c == '\U{202F}' || c == '\U{205F}' ||
    c == '\U{3000}' || c == '\U{FEFF}'
  }

  /** The characters a regex `.` does not match. */
  predicate IsLineTerminator(c: char) {
    c == '\n' || c == '\r' || c == '\U{2028}' || c == '\U{2029}'
  }

  /** Every character is white space (this includes the empty string). */
  predicate Blank(s: string) {
    forall i :: 0 <= i < |s| ==> IsSpace(s[i])
  }

  /** `s` without its leading white space; what that means is `TrimStartMeaning`. */
  function TrimStart(s: string): (r: string)
    ensures |r| <= |s|
    decreases |s|
  {
    if |s| > 0 && IsSpace(s[0]) then TrimStart(s[1..]) else s
  }

  /** `s` without its trailing white space; what that means is `TrimEndMeaning`. */
  function TrimEnd(s: string): (r: string)
    ensures |r| <= |s|
    decreases |s|
  {
    if |s| > 0 && IsSpace(s[|s| - 1]) then TrimEnd(s[..|s| - 1]) else s
  }

  /** `s.trim()`: `s` without its leading and trailing white space. */
  function Trim(s: string): (r: string)
    ensures |r| <= |s|
  {
    TrimEnd(TrimStart(s))
  }

  /** `TrimStart` drops a blank prefix and stops at the first other character. */
  lemma {:induction false} TrimStartMeaning(s: string)
    ensures var r := TrimStart(s);
      r == s[|s| - |r|..] && Blank(s[..|s| - |r|]) && (r == [] || !IsSpace(r[0]))
    decreases |s|
  {
    if |s| > 0 && IsSpace(s[0]) {
      TrimStartMeaning(s[1..]);
      var r := TrimStart(s);
      assert s[1..][..|s| - 1 - |r|] == s[1..|s| - |r|];
    }
  }

  /** `TrimEnd` drops a blank suffix and stops at the last other character. */
  lemma {:induction false} TrimEndMeaning(s: string)
    ensures var r := TrimEnd(s);
      r == s[..|r|] && Blank(s[|r|..]) && (r == [] || !IsSpace(r[|r| - 1]))
    decreases |s|
  {
    if |s| > 0 && IsSpace(s[|s| - 1]) {
      TrimEndMeaning(s[..|s| - 1]);
      var r := TrimEnd(s);
      forall k | |r| <= k < |s| ensures IsSpace(s[k]) {
        if k < |s| - 1 {
          assert s[..|s| - 1][|r|..][k - |r|] == s[k];
        }
      }
    }
  }

  /** The trimmed text neither starts nor ends with white space. */
  lemma TrimEnds(s: string)
    ensures var r := Trim(s); r == [] || (!IsSpace(r[0]) && !IsSpace(r[|r| - 1]))
  {
    var t := TrimStart(s);
    TrimStartMeaning(s);
    TrimEndMeaning(t);
    var r := TrimEnd(t);
    if r != [] {
      assert r[0] == t[0];
    }
  }

  /** The trimmed text is a slice of the text with only white space around it. */
  lemma TrimIsSlice(s: string) returns (i: nat)
    ensures i + |Trim(s)| <= |s| && Trim(s) == s[i..i + |Trim(s)|]
    ensures Blank(s[..i]) && Blank(s[i + |Trim(s)|..])
  {
    TrimStartMeaning(s);
    i := |s| - |TrimStart(s)|;
    SliceOfTrimEnd(s, i, TrimStart(s));
  }

  lemma SliceOfTrimEnd(s: string, i: nat, t: string)
    requires i <= |s| && t == s[i..]
    ensures i + |TrimEnd(t)| <= |s| && TrimEnd(t) == s[i..i + |TrimEnd(t)|]
    ensures Blank(s[i + |TrimEnd(t)|..])
  {
    TrimEndMeaning(t);
    var r := TrimEnd(t);
    SuffixSlices(s, i, |r|);
    assert Blank(t[|r|..]);
  }

  lemma SuffixSlices<T>(s: seq<T>, i: nat, m: nat)
    requires i + m <= |s|
    ensures s[i..][..m] == s[i..i + m] && s[i..][m..] == s[i + m..]
  {
  }

  lemma {:induction false} TrimStartOfBlank(s: string)
    requires Blank(s)
    ensures TrimStart(s) == []
    decreases |s|
  {
    if |s| > 0 {
      TrimStartOfBlank(s[1..]);
    }
  }

  lemma {:induction false} TrimEndOfBlank(s: string)
    requires Blank(s)
    ensures TrimEnd(s) == []
    decreases |s|
  {
    if |s| > 0 {
      TrimEndOfBlank(s[..|s| - 1]);
    }
  }

  lemma {:induction false} TrimStartSkips(a: string, s: string)
    requires Blank(a)
    ensures TrimStart(a + s) == TrimStart(s)
    decreases |a|
  {
    if |a| > 0 {
      assert (a + s)[1..] == a[1..] + s;
      TrimStartSkips(a[1..], s);
    } else {
      assert a + s == s;
    }
  }

  lemma {:induction false} TrimEndSkips(s: string, b: string)
    requires Blank(b)
    ensures TrimEnd(s + b) == TrimEnd(s)
    decreases |b|
  {
    if |b| > 0 {
      assert (s + b)[..|s + b| - 1] == s + b[..|b| - 1];
      TrimEndSkips(s, b[..|b| - 1]);
    } else {
      assert s + b == s;
    }
  }

  lemma {:induction false} TrimStartKeepsTail(s: string, b: string)
    requires !Blank(s)
    ensures TrimStart(s + b) == TrimStart(s) + b
    decreases |s|
  {
    if IsSpace(s[0]) {
      assert (s + b)[1..] == s[1..] + b;
      TrimStartKeepsTail(s[1..], b);
    }
  }

  /** Trimming ignores white space added around the text. */
  lemma TrimPadded(a: string, s: string, b: string)
    requires Blank(a) && Blank(b)
    ensures Trim(a + s + b) == Trim(s)
  {
    assert a + s + b == a + (s + b);
    TrimStartSkips(a, s + b);
    if Blank(s) {
      assert Blank(s + b);
      TrimStartOfBlank(s + b);
      TrimStartOfBlank(s);
    } else {
      TrimStartKeepsTail(s, b);
      TrimEndSkips(TrimStart(s), b);
    }
  }

  /** The trimmed text is empty exactly when the text is blank. */
  lemma TrimEmptyIffBlank(s: string)
    ensures Trim(s) == [] <==> Blank(s)
  {
    if Blank(s) {
      TrimStartOfBlank(s);
    } else {
      var i :| 0 <= i < |s| && !IsSpace(s[i]);
      TrimStartMeaning(s);
      var t := TrimStart(s);
      assert |s| - |t| <= i;
      assert t[i - (|s| - |t|)] == s[i];
      TrimEndMeaning(t);
    }
  }

  /** Text that neither starts nor ends with white space is its own trim. */
  lemma TrimOfTrimmed(s: string)
    requires s == [] || (!IsSpace(s[0]) && !IsSpace(s[|s| - 1]))
    ensures Trim(s) == s
  {
  }

  /** ASCII upper-casing: the canonical form a case-insensitive regex compares. */
  function Upper(c: char): char {
    if 'a' <= c <= 'z' then (c as int - 32) as char else c
  }

  /** `c.toLowerCase()` for ASCII letters. */
  function Lower(c: char): char {
    if 'A' <= c <= 'Z' then (c as int + 32) as char else c
  }

  function ToLower(s: string): (r: string)
    ensures |r| == |s| && forall i :: 0 <= i < |s| ==> r[i] == Lower(s[i])
  {
    seq(|s|, i requires 0 <= i < |s| => Lower(s[i]))
  }

  predicate SameChar(a: char, b: char, ignoreCase: bool) {
    if ignoreCase then Upper(a) == Upper(b) else a == b
  }

  /** `pat` occurs in `s` at index `i` (case-insensitively when `ignoreCase`). */
  predicate MatchesAt(s: string, pat: string, i: nat, ignoreCase: bool) {
    i + |pat| <= |s| && forall k :: 0 <= k < |pat| ==> SameChar(s[i + k], pat[k], ignoreCase)
  }

  /** No occurrence of `pat` starts at an index in `[lo, hi)`. */
  predicate NoMatchIn(s: string, pat: string, lo: nat, hi: nat, ignoreCase: bool) {
    forall i: nat :: lo <= i < hi ==> !MatchesAt(s, pat, i, ignoreCase)
  }

  /** `pat` does not occur anywhere in `s`. */
  predicate Lacks(s: string, pat: string, ignoreCase: bool) {
    NoMatchIn(s, pat, 0, |s| + 1, ignoreCase)
  }

  /**
   * The first index at or after `from` where `pat` occurs: `s.indexOf(pat, from)`,
   * or a case-insensitive search. What the index means is `IndexOfMeaning`.
   */
  function IndexOf(s: string, pat: string, from: nat, ignoreCase: bool): (r: Option<nat>)
    ensures r.Some? ==> from <= r.value && r.value + |pat| <= |s|
    decreases |s| - from
  {
    if from + |pat| > |s| then None
    else if MatchesAt(s, pat, from, ignoreCase) then Some(from)
    else IndexOf(s, pat, from + 1, ignoreCase)
  }

  /** A found index is an occurrence with none before it; no index means no occurrence at all. */
  lemma {:induction false} IndexOfMeaning(s: string, pat: string, from: nat, ignoreCase: bool)
    ensures var r := IndexOf(s, pat, from, ignoreCase);
      (r.Some? ==> MatchesAt(s, pat, r.value, ignoreCase) && NoMatchIn(s, pat, from, r.value, ignoreCase)) &&
      (r.None? ==> NoMatchIn(s, pat, from, |s| + 1, ignoreCase))
    decreases |s| - from
  {
    if from + |pat| > |s| {
    } else if !MatchesAt(s, pat, from, ignoreCase) {
      IndexOfMeaning(s, pat, from + 1, ignoreCase);
    }
  }

  /** A search that skips a stretch without occurrences lands on the next one. */
  lemma {:induction false} IndexOfFinds(s: string, pat: string, from: nat, at: nat, ignoreCase: bool)
    requires from <= at && MatchesAt(s, pat, at, ignoreCase) && NoMatchIn(s, pat, from, at, ignoreCase)
    ensures IndexOf(s, pat, from, ignoreCase) == Some(at)
    decreases at - from
  {
    if from < at {
      assert !MatchesAt(s, pat, from, ignoreCase);
      IndexOfFinds(s, pat, from + 1, at, ignoreCase);
    }
  }

  /** `s.includes(pat)`. */
  predicate Contains(s: string, pat: string) {
    IndexOf(s, pat, 0, false).Some?
  }

  /** `s.startsWith(p)`. */
  predicate StartsWith(s: string, p: string) {
    |p| <= |s| && s[..|p|] == p
  }

  /** `s.replace(pat, rep)` with a string pattern: only the first occurrence is replaced. */
  function ReplaceFirst(s: string, pat: string, rep: string): (r: string)
    ensures IndexOf(s, pat, 0, false).None? ==> r == s
    ensures IndexOf(s, pat, 0, false).Some? ==>
              |r| == |s| - |pat| + |rep| &&
              var i := IndexOf(s, pat, 0, false).value;
              r[..i] == s[..i] && r[i..i + |rep|] == rep && r[i + |rep|..] == s[i + |pat|..]
  {
    match IndexOf(s, pat, 0, false)
    case None => s
    case Some(i) => s[..i] + rep + s[i + |pat|..]
  }

  /** The index of the first `c` in `s`. */
  function FirstIndex(s: string, c: char): (r: Option<nat>)
    ensures r.Some? ==> r.value < |s| && s[r.value] == c && c !in s[..r.value]
    ensures r.None? ==> c !in s
    decreases |s|
  {
    if |s| == 0 then None
    else if s[0] == c then Some(0)
    else match FirstIndex(s[1..], c)
      case None => None
      case Some(i) => assert s[..i + 1] == [s[0]] + s[1..][..i]; Some(i + 1)
  }

  /** `s.split(sep)` for a one-character separator. */
  function Split(s: string, sep: char): (parts: seq<string>)
    ensures |parts| >= 1
    ensures forall k :: 0 <= k < |parts| ==> sep !in parts[k]
    decreases |s|
  {
    match FirstIndex(s, sep)
    case None => [s]
    case Some(i) => [s[..i]] + Split(s[i + 1..], sep)
  }

  /** `parts.join(sep)`. */
  function Join(parts: seq<string>, sep: string): string
    decreases |parts|
  {
    if |parts| == 0 then []
    else if |parts| == 1 then parts[0]
    else parts[0] + sep + Join(parts[1..], sep)
  }

  /** The parts run together, as repeated `+=` builds them. */
  function Concat(parts: seq<string>): string
    decreases |parts|
  {
    if parts == [] then [] else parts[0] + Concat(parts[1..])
  }

  /** Appending one more part at the end. */
  lemma {:induction false} ConcatSnoc(parts: seq<string>, x: string)
    ensures Concat(parts + [x]) == Concat(parts) + x
    decreases |parts|
  {
    if parts == [] {
      assert parts + [x] == [x];
    } else {
      assert (parts + [x])[1..] == parts[1..] + [x];
      ConcatSnoc(parts[1..], x);
    }
  }

  /** Splitting after a first piece free of the separator. */
  lemma SplitAfter(x: string, sep: char, rest: string)
    requires sep !in x
    ensures Split(x + [sep] + rest, sep) == [x] + Split(rest, sep)
  {
    var s := x + [sep] + rest;
    var i := FirstIndex(s, sep).value;
    assert s[|x|] == sep;
    assert forall k :: 0 <= k < |x| ==> s[k] == x[k];
    InPrefix(s, i, |x|);
    assert i == |x|;
    assert s[..i] == x && s[i + 1..] == rest;
  }

  lemma InPrefix<T>(s: seq<T>, i: nat, k: nat)
    ensures k < i <= |s| ==> s[k] in s[..i]
  {
    if k < i <= |s| {
      assert s[..i][k] == s[k];
    }
  }

  /** The last piece of a split is everything after the last separator (all of `s` when there is none). */
  lemma {:induction false} SplitLast(s: string, sep: char) returns (i: int)
    ensures -1 <= i < |s| && (i >= 0 ==> s[i] == sep) && sep !in s[i + 1..]
    ensures Split(s, sep)[|Split(s, sep)| - 1] == s[i + 1..]
    decreases |s|
  {
    var first := FirstIndex(s, sep);
    if first.None? {
      i := -1;
      assert s[i + 1..] == s;
    } else {
      var j := first.value;
      var i' := SplitLast(s[j + 1..], sep);
      i := j + 1 + i';
      LastOfCons(s[..j], Split(s[j + 1..], sep), Split(s, sep));
      SuffixOfSuffix(s, j + 1, i' + 1);
      assert i' >= 0 ==> s[i] == s[j + 1..][i'];
    }
  }

  lemma LastOfCons<T>(a: T, p: seq<T>, q: seq<T>)
    requires |p| >= 1 && q == [a] + p
    ensures q[|q| - 1] == p[|p| - 1]
  {
  }

  lemma SuffixOfSuffix<T>(s: seq<T>, m: nat, n: nat)
    requires m <= |s| && n <= |s| - m
    ensures s[m..][n..] == s[m + n..]
  {
  }

  lemma InSuffix<T>(s: seq<T>, i: nat, k: nat)
    ensures i <= k < |s| ==> s[k] in s[i..]
  {
    if i <= k < |s| {
      assert s[i..][k - i] == s[k];
    }
  }

  /** Pieces free of a character, joined by a separator free of it, are free of it. */
  lemma {:induction false} JoinLacks(parts: seq<string>, sep: string, c: char)
    requires c !in sep && forall k :: 0 <= k < |parts| ==> c !in parts[k]
    ensures c !in Join(parts, sep)
    decreases |parts|
  {
    if |parts| > 1 {
      JoinLacks(parts[1..], sep, c);
      var rest := Join(parts[1..], sep);
      assert forall x :: x in parts[0] + sep + rest ==> x in parts[0] || x in sep || x in rest;
    }
  }

  /** Joining pieces free of the separator and splitting again gives the pieces back. */
  lemma {:induction false} SplitJoin(parts: seq<string>, sep: char)
    requires |parts| >= 1 && forall k :: 0 <= k < |parts| ==> sep !in parts[k]
    ensures Split(Join(parts, [sep]), sep) == parts
    decreases |parts|
  {
    if |parts| > 1 {
      SplitAfter(parts[0], sep, Join(parts[1..], [sep]));
      SplitJoin(parts[1..], sep);
    }
  }

  /** Splitting on a character and joining with it gives the text back. */
  lemma {:induction false} JoinSplit(s: string, sep: char)
    ensures Join(Split(s, sep), [sep]) == s
    decreases |s|
  {
    match FirstIndex(s, sep)
    case None =>
    case Some(i) =>
      var rest := Split(s[i + 1..], sep);
      JoinSplit(s[i + 1..], sep);
      assert s == s[..i] + [sep] + s[i + 1..];
  }

  /** The first piece of `s.split(sep)` is the text before the first separator. */
  lemma SplitHead(s: string, sep: char)
    ensures Split(s, sep)[0] == match FirstIndex(s, sep) case None => s case Some(i) => s[..i]
  {
  }

  /** The decimal digits of `n`, as a template literal renders an integer. */
  function NatToString(n: nat): (r: string)
    ensures |r| >= 1 && forall k :: 0 <= k < |r| ==> '0' <= r[k] <= '9'
    decreases n
  {
    if n < 10 then [Digit(n)] else NatToString(n / 10) + [Digit(n % 10)]
  }

  function Digit(d: nat): (c: char)
    requires d < 10
    ensures '0' <= c <= '9'
  {
    ('0' as int + d) as char
  }

  /** Different numbers render differently. */
  lemma {:induction false} NatToStringInjective(m: nat, n: nat)
    requires NatToString(m) == NatToString(n)
    ensures m == n
    decreases m
  {
    var a, b := NatToString(m), NatToString(n);
    if m < 10 && n < 10 {
      assert a[0] == b[0];
    } else if m >= 10 && n >= 10 {
      assert a[|a| - 1] == b[|b| - 1];
      assert a[..|a| - 1] == NatToString(m / 10);
      assert b[..|b| - 1] == NatToString(n / 10);
      NatToStringInjective(m / 10, n / 10);
    }
  }

  /** `t` occurs verbatim in `s` at index `i`. */
  predicate OccursAt(s: string, t: string, i: int) {
    0 <= i && i + |t| <= |s| && s[i..i + |t|] == t
  }

  /** Where `line` occurs verbatim at `o`, a match inside `line` at `t` is a match in `s` at `o + t`, and back. */
  lemma MatchShift(s: string, line: string, o: nat, pat: string, t: nat, ignoreCase: bool)
    requires OccursAt(s, line, o) && t + |pat| <= |line|
    ensures MatchesAt(s, pat, o + t, ignoreCase) <==> MatchesAt(line, pat, t, ignoreCase)
  {
    forall i | t <= i < t + |pat| ensures s[o + i] == line[i] {
      assert s[o..o + |line|][i] == s[o + i];
    }
  }

  lemma NewlineOnlyMatchesItself(c: char, ignoreCase: bool)
    requires SameChar('\n', c, ignoreCase)
    ensures c == '\n'
  {
  }

  /** A match cannot run over a line feed when the pattern has none. */
  lemma NewlineBreaksMatch(s: string, pat: string, i: nat, nl: nat, ignoreCase: bool)
    requires i <= nl < i + |pat| && nl < |s| && s[nl] == '\n' && '\n' !in pat
    ensures !MatchesAt(s, pat, i, ignoreCase)
  {
    if MatchesAt(s, pat, i, ignoreCase) {
      var j := nl - i;
      assert SameChar(s[i + j], pat[j], ignoreCase);
      NewlineOnlyMatchesItself(pat[j], ignoreCase);
    }
  }

  /** A pattern cannot occur where no character equals its first one. */
  lemma LacksFirstChar(s: string, pat: string, ignoreCase: bool)
    requires pat != [] && forall i :: 0 <= i < |s| ==> !SameChar(s[i], pat[0], ignoreCase)
    ensures Lacks(s, pat, ignoreCase)
  {
    forall i: nat | i < |s| + 1 ensures !MatchesAt(s, pat, i, ignoreCase) {
      if i < |s| {
        assert !SameChar(s[i], pat[0], ignoreCase);
      }
    }
  }

  /** Case folding leaves characters other than ASCII letters alone. */
  lemma SameCharNonLetter(c: char, d: char, ignoreCase: bool)
    requires !('a' <= d <= 'z') && !('A' <= d <= 'Z') && SameChar(c, d, ignoreCase)
    ensures c == d
  {
  }

  /** A text free of `pat` stays free of it behind a prefix none of whose characters starts `pat`. */
  lemma LacksWithPrefix(p: string, x: string, pat: string, ignoreCase: bool)
    requires pat != [] && Lacks(x, pat, ignoreCase)
    requires forall i :: 0 <= i < |p| ==> !SameChar(p[i], pat[0], ignoreCase)
    ensures Lacks(p + x, pat, ignoreCase)
  {
    var s := p + x;
    forall i: nat | i < |s| + 1 ensures !MatchesAt(s, pat, i, ignoreCase) {
      if i < |p| {
        assert s[i] == p[i];
      } else if MatchesAt(s, pat, i, ignoreCase) {
        assert OccursAt(s, x, |p|);
        MatchShift(s, x, |p|, pat, i - |p|, ignoreCase);
      }
    }
  }

  /** A text free of a prefix of `pat` is free of `pat`. */
  lemma LacksLonger(x: string, pre: string, pat: string, ignoreCase: bool)
    requires |pre| <= |pat| && pat[..|pre|] == pre && Lacks(x, pre, ignoreCase)
    ensures Lacks(x, pat, ignoreCase)
  {
    forall i: nat | i < |x| + 1 ensures !MatchesAt(x, pat, i, ignoreCase) {
      assert !MatchesAt(x, pre, i, ignoreCase);
      assert forall k :: 0 <= k < |pre| ==> pre[k] == pat[k];
    }
  }

  /** Whatever occurs inside an occurrence occurs at the corresponding index. */
  lemma OccursInside(s: string, a: string, t: string, b: string, i: int)
    requires OccursAt(s, a + t + b, i)
    ensures OccursAt(s, t, i + |a|)
  {
    var w := a + t + b;
    assert w[|a|..|a| + |t|] == t;
    forall k | 0 <= k < |t| ensures s[i + |a| + k] == t[k] {
      assert s[i..i + |w|][|a| + k] == w[|a| + k];
    }
    assert s[i + |a|..i + |a| + |t|] == t;
  }

  /** Two occurrences side by side are an occurrence of the concatenation. */
  lemma OccursConcat(s: string, a: string, b: string, i: int)
    requires OccursAt(s, a, i) && OccursAt(s, b, i + |a|)
    ensures OccursAt(s, a + b, i)
  {
    assert s[i..i + |a + b|] == s[i..i + |a|] + s[i + |a|..i + |a| + |b|];
  }

  /** Two texts free of a pattern without line feeds stay free of it when joined by a line feed. */
  lemma LacksNl(a: string, b: string, pat: string, ignoreCase: bool)
    requires Lacks(a, pat, ignoreCase) && Lacks(b, pat, ignoreCase) && '\n' !in pat
    ensures Lacks(a + "\n" + b, pat, ignoreCase)
  {
    var s := a + "\n" + b;
    forall i: nat | i < |s| + 1 ensures !MatchesAt(s, pat, i, ignoreCase) {
      if i + |pat| <= |a| {
        assert OccursAt(s, a, 0);
        MatchShift(s, a, 0, pat, i, ignoreCase);
      } else if i <= |a| {
        if |a| < i + |pat| && |a| < |s| {
          NewlineBreaksMatch(s, pat, i, |a|, ignoreCase);
        }
      } else {
        assert OccursAt(s, b, |a| + 1);
        if i + |pat| <= |s| {
          MatchShift(s, b, |a| + 1, pat, i - |a| - 1, ignoreCase);
        }
      }
    }
  }

  /** A text lacks any pattern one of whose non-letter characters it does not contain. */
  lemma LacksWithout(s: string, pat: string, j: nat, ignoreCase: bool)
    requires j < |pat| && !('a' <= pat[j] <= 'z') && !('A' <= pat[j] <= 'Z') && pat[j] !in s
    ensures Lacks(s, pat, ignoreCase)
  {
    forall i: nat | i < |s| + 1 ensures !MatchesAt(s, pat, i, ignoreCase) {
      if MatchesAt(s, pat, i, ignoreCase) {
        assert SameChar(s[i + j], pat[j], ignoreCase);
        SameCharNonLetter(s[i + j], pat[j], ignoreCase);
      }
    }
  }

  /**
   * Nothing matches before the end of `pre + sp` when `pre` ends a line and
   * lacks the pattern and no character of `sp` can start it.
   */
  lemma NoMatchBeforeNl(s: string, pre: string, sp: string, rest: string, pat: string, ignoreCase: bool)
    requires s == pre + sp + rest
    requires pre == [] || pre[|pre| - 1] == '\n'
    requires Lacks(pre, pat, ignoreCase) && pat != [] && '\n' !in pat
    requires forall i :: 0 <= i < |sp| ==> !SameChar(sp[i], pat[0], ignoreCase)
    ensures NoMatchIn(s, pat, 0, |pre| + |sp|, ignoreCase)
  {
    forall i: nat | i < |pre| + |sp| ensures !MatchesAt(s, pat, i, ignoreCase) {
      if i >= |pre| {
        assert s[i] == sp[i - |pre|];
      } else if i + |pat| <= |pre| {
        assert OccursAt(s, pre, 0);
        MatchShift(s, pre, 0, pat, i, ignoreCase);
      } else {
        NewlineBreaksMatch(s, pat, i, |pre| - 1, ignoreCase);
      }
    }
  }

  /** Matches inside the second part of a concatenation are matches in that part. */
  lemma NoMatchShift(s: string, a: string, b: string, pat: string, lo: nat, hi: nat, ignoreCase: bool)
    requires s == a + b && NoMatchIn(b, pat, lo, hi, ignoreCase)
    ensures NoMatchIn(s, pat, |a| + lo, |a| + hi, ignoreCase)
  {
    forall i: nat | |a| + lo <= i < |a| + hi ensures !MatchesAt(s, pat, i, ignoreCase) {
      assert OccursAt(s, b, |a|);
      if i + |pat| <= |s| {
        MatchShift(s, b, |a|, pat, i - |a|, ignoreCase);
      }
    }
  }

  /** The middle of a concatenation occurs right after the first part. */
  lemma OccursBetween(a: string, t: string, b: string)
    ensures OccursAt(a + t + b, t, |a|)
  {
    assert (a + t + b)[|a|..|a| + |t|] == t;
  }

  /** A verbatim occurrence is a match, case-sensitive or not. */
  lemma OccursMatches(s: string, t: string, i: nat, ignoreCase: bool)
    requires OccursAt(s, t, i)
    ensures MatchesAt(s, t, i, ignoreCase)
  {
    forall k | 0 <= k < |t| ensures s[i + k] == t[k] {
      assert s[i..i + |t|][k] == s[i + k];
    }
  }

  /** Concatenation is associative. */
  lemma Assoc<T>(a: seq<T>, b: seq<T>, c: seq<T>)
    ensures a + (b + c) == a + b + c
  {
  }

  /** A line feed cannot start a pattern without line feeds, nor end one. */
  lemma LacksNlAround(x: string, pat: string, ignoreCase: bool)
    requires Lacks(x, pat, ignoreCase) && pat != [] && '\n' !in pat
    ensures Lacks("\n" + x, pat, ignoreCase) && Lacks(x + "\n", pat, ignoreCase)
  {
    assert !MatchesAt("", pat, 0, ignoreCase);
    LacksNl("", x, pat, ignoreCase);
    assert "" + "\n" + x == "\n" + x;
    LacksNl(x, "", pat, ignoreCase);
    assert x + "\n" + "" == x + "\n";
  }

  /** Each part followed by a terminator, all concatenated, is the parts joined by it plus one more. */
  lemma {:induction false} ConcatTerminated(parts: seq<string>, sep: string)
    requires |parts| >= 1
    ensures Concat(seq(|parts|, i requires 0 <= i < |parts| => parts[i] + sep)) == Join(parts, sep) + sep
    decreases |parts|
  {
    var blocks := seq(|parts|, i requires 0 <= i < |parts| => parts[i] + sep);
    if |parts| > 1 {
      var rest := parts[1..];
      assert blocks[1..] == seq(|rest|, i requires 0 <= i < |rest| => rest[i] + sep);
      ConcatTerminated(rest, sep);
      Assoc(parts[0], sep, Join(rest, sep) + sep);
    } else {
      assert blocks[1..] == [];
    }
  }

  /** Trimming keeps a head that neither starts nor ends with white space. */
  lemma TrimKeepsHead(h: string, rest: string)
    requires |h| >= 1 && !IsSpace(h[0]) && !IsSpace(h[|h| - 1])
    ensures |Trim(h + rest)| >= |h| && Trim(h + rest)[..|h|] == h
  {
    var s := h + rest;
    assert TrimStart(s) == s;
    TrimEndMeaning(s);
    var r := TrimEnd(s);
    forall j | |r| <= j < |s|
      ensures IsSpace(s[j])
    {
      assert s[|r|..][j - |r|] == s[j];
    }
    assert s[|h| - 1] == h[|h| - 1];
    assert r[..|h|] == s[..|r|][..|h|];
  }

  /** A join starts with its first part. */
  lemma JoinHead(parts: seq<string>, sep: string)
    requires |parts| >= 1 && |parts[0]| >= 1
    ensures |Join(parts, sep)| >= 1 && Join(parts, sep)[0] == parts[0][0]
  {
  }

  /** A match inside a prefix is a match in the whole text. */
  lemma MatchInPrefix(s: string, pat: string, n: nat, i: nat, ignoreCase: bool)
    requires n <= |s|
    ensures MatchesAt(s[..n], pat, i, ignoreCase) ==> MatchesAt(s, pat, i, ignoreCase)
  {
    if i + |pat| <= n {
      forall j | i <= j < i + |pat| ensures s[..n][j] == s[j] {
      }
    }
  }
}
