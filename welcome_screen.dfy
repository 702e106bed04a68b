// The welcome screen: the greeting shown above the prompt box, built one
// character at a time so the user's first name can be styled apart from the
// rest, and the two handlers that route a question or a suggested prompt.
//
// The clock and the random template pick are parameters: `hour` is what
// `getHours()` returns and `index` is the floored random pick.

module WelcomeScreen {
  import opened Wrappers
  import opened Text

  datatype Period = Morning | Afternoon | Evening | Night

  /** The part of the day an hour of the local clock falls in. */
  function PeriodOf(hour: int): Period {
    if 5 <= hour < 12 then Morning
    else if 12 <= hour < 18 then Afternoon
    else if 18 <= hour < 22 then Evening
    else Night
  }

  /** The period that follows `p` through the day. */
  function NextPeriod(p: Period): Period {
    match p
    case Morning => Afternoon
    case Afternoon => Evening
    case Evening => Night
    case Night => Morning
  }

  /** A template addressing the user in a comma clause: `lead + ", {{name}}" + tail`. */
  function Named(lead: string, tail: string): string {
    lead + ", {{name}}" + tail
  }

  /** The greeting templates of each period. */
  function Greetings(p: Period): (r: seq<string>)
    ensures |r| == 4
  {
    match p
    case Morning => [Named("Good morning", "."), Named("Rise and shine", "!"),
                     Named("What's on the agenda today", "?"), Named("Ready to build the future", "?")]
    case Afternoon => [Named("Good afternoon", "."), Named("Hope you're having a productive day", "."),
                       Named("How can I help this afternoon", "?"), Named("Let's bring your ideas to life", ".")]
    case Evening => [Named("Good evening", "."), Named("Winding down or gearing up", "?"),
                     "What's on your mind this evening?", Named("Time for some creative exploration", "?")]
    case Night => ["Hello, night owl.", Named("Burning the midnight oil", "?"),
                   "Late night session? I'm ready.", Named("Inspiration strikes late, doesn't it", "?")]
  }

  const Placeholder := "{{name}}"
  const StaticClass := "text-white"
  const DynamicClass := "text-transparent bg-clip-text bg-gradient-to-r from-emerald-400 to-cyan-400 font-semibold"

  /** One rendered character and the class it is drawn with. */
  datatype Glyph = Glyph(ch: char, className: string)

  /** The first word of the display name: the text before its first space. */
  function FirstName(displayName: Option<string>): Option<string> {
    match displayName
    case None => None
    case Some(d) => Some(Split(d, ' ')[0])
  }

  /** `template.split('{{name}}')[0]`: the text before the first placeholder. */
  function Before(t: string): string
    requires Contains(t, Placeholder)
  {
    t[..IndexOf(t, Placeholder, 0, false).value]
  }

  /** `template.split('{{name}}')[1]`: the text between the first placeholder and the next one, or the end. */
  function After(t: string): string
    requires Contains(t, Placeholder)
  {
    var s := IndexOf(t, Placeholder, 0, false).value + |Placeholder|;
    match IndexOf(t, Placeholder, s, false)
    case None => t[s..]
    case Some(j) => t[s..j]
  }

  /** The template with the name clause dropped, for a visitor without a name. */
  function Generic(t: string): string {
    ReplaceFirst(ReplaceFirst(ReplaceFirst(t, ", {{name}}", ""), " {{name}}", ""), Placeholder, "you")
  }

  /** Every character of `s`, drawn with `cls`. */
  function Styled(s: string, cls: string): (r: seq<Glyph>)
    ensures |r| == |s|
  {
    seq(|s|, i requires 0 <= i < |s| => Glyph(s[i], cls))
  }

  /** The characters a greeting shows, without their classes. */
  function TextOf(gs: seq<Glyph>): (r: string)
    ensures |r| == |gs|
  {
    seq(|gs|, i requires 0 <= i < |gs| => gs[i].ch)
  }

  /** The characters of a template greeting someone (or no one) by first name. */
  function Greeting(t: string, firstName: Option<string>): seq<Glyph> {
    if firstName.Some? && firstName.value != "" && Contains(t, Placeholder) then
      Styled(Before(t), StaticClass) + Styled(firstName.value, DynamicClass) + Styled(After(t), StaticClass)
    else
      Styled(Generic(t), StaticClass)
  }

  /** The welcome message for the hour, the picked template and the user's display name. */
  function WelcomeMessage(hour: int, index: nat, displayName: Option<string>): seq<Glyph>
    requires index < |Greetings(PeriodOf(hour))|
  {
    Greeting(Greetings(PeriodOf(hour))[index], FirstName(displayName))
  }

  /** `s.split('').forEach(char => characterArray.push({ char, className }))`. */
  method PushChars(characterArray: seq<Glyph>, s: string, cls: string) returns (r: seq<Glyph>)
    ensures r == characterArray + Styled(s, cls)
  {
    r := characterArray;
    for j := 0 to |s|
      invariant r == characterArray + Styled(s[..j], cls)
    {
      r := r + [Glyph(s[j], cls)];
      assert Styled(s[..j + 1], cls) == Styled(s[..j], cls) + [Glyph(s[j], cls)];
    }
    assert s[..|s|] == s;
  }

  /** The pushes for a greeting with a name: the text before it, the name highlighted, then the text after it. */
  method PushNamed(before: string, name: string, after: string) returns (characterArray: seq<Glyph>)
    ensures characterArray == Styled(before, StaticClass) + Styled(name, DynamicClass) + Styled(after, StaticClass)
  {
    characterArray := PushChars([], before, StaticClass);
    characterArray := PushChars(characterArray, name, DynamicClass);
    if after != "" {
      characterArray := PushChars(characterArray, after, StaticClass);
    } else {
      assert Styled(after, StaticClass) == [];
    }
  }

  /** The character loops of `getWelcomeMessage`, for the picked template and first name. */
  method BuildGreeting(template: string, firstName: Option<string>) returns (characterArray: seq<Glyph>)
    ensures characterArray == Greeting(template, firstName)
  {
    if firstName.Some? && firstName.value != "" && Contains(template, Placeholder) {
      characterArray := PushNamed(Before(template), firstName.value, After(template));
    } else {
      characterArray := PushChars([], Generic(template), StaticClass);
    }
  }

  /** `getWelcomeMessage`: buckets the hour, picks the template and pushes its characters. */
  method GetWelcomeMessage(hour: int, index: nat, displayName: Option<string>) returns (characterArray: seq<Glyph>)
    requires index < |Greetings(PeriodOf(hour))|
    ensures characterArray == WelcomeMessage(hour, index, displayName)
  {
    var period;
    if hour >= 5 && hour < 12 {
      period := Morning;
    } else if hour >= 12 && hour < 18 {
      period := Afternoon;
    } else if hour >= 18 && hour < 22 {
      period := Evening;
    } else {
      period := Night;
    }
    characterArray := BuildGreeting(Greetings(period)[index], FirstName(displayName));
  }

  // ---------------------------------------------------------------------------
  // The hour buckets
  // ---------------------------------------------------------------------------

  /**
   * Through the day the period only ever moves on to the next one, and it
   * changes exactly at 5, 12, 18 and 22 o'clock; midnight continues the night.
   */
  lemma PeriodChanges(hour: int)
    requires 0 < hour < 24
    ensures PeriodOf(hour) == PeriodOf(hour - 1) || PeriodOf(hour) == NextPeriod(PeriodOf(hour - 1))
    ensures PeriodOf(hour) != PeriodOf(hour - 1) <==> hour == 5 || hour == 12 || hour == 18 || hour == 22
    ensures PeriodOf(0) == PeriodOf(23) == Night
  {
  }

  // ---------------------------------------------------------------------------
  // The first name
  // ---------------------------------------------------------------------------

  /** The first name is a space-free prefix of the display name that ends at a space or at the end. */
  lemma FirstNameMeaning(d: string)
    ensures var f := FirstName(Some(d)).value;
      ' ' !in f && |f| <= |d| && d[..|f|] == f && (|f| == |d| || d[|f|] == ' ')
  {
    SplitHead(d, ' ');
  }

  /** A display name that starts with a space has an empty first name, so the greeting is the generic one. */
  lemma LeadingSpaceIsAnonymous(t: string, d: string)
    requires |d| > 0 && d[0] == ' '
    ensures Greeting(t, FirstName(Some(d))) == Styled(Generic(t), StaticClass)
  {
    FirstNameMeaning(d);
  }

  // ---------------------------------------------------------------------------
  // Where braces can match
  // ---------------------------------------------------------------------------

  predicate NoBrace(s: string) {
    '{' !in s
  }

  /** `m` holds two braces, at `c` and `c + 1`, and no other. */
  predicate BracesAt(m: string, c: nat) {
    c + 1 < |m| && m[c] == '{' && m[c + 1] == '{' &&
    forall j :: 0 <= j < |m| && j != c && j != c + 1 ==> m[j] != '{'
  }

  /** Where the three patterns of the greeting code have their braces. */
  lemma PatternBraces()
    ensures BracesAt(Placeholder, 0) && BracesAt(" {{name}}", 1) && BracesAt(", {{name}}", 2)
  {
  }

  /** A match puts the pattern's characters in place. */
  lemma MatchChar(s: string, pat: string, i: nat, k: nat)
    ensures MatchesAt(s, pat, i, false) && k < |pat| ==> s[i + k] == pat[k]
  {
  }

  /** In `a + m + b` with brace-free ends, every brace lies inside `m`. */
  lemma BracesInMiddle(a: string, m: string, b: string, j: int)
    requires NoBrace(a) && NoBrace(b)
    ensures 0 <= j < |a + m + b| && (a + m + b)[j] == '{' ==> |a| <= j < |a| + |m| && m[j - |a|] == '{'
  {
    var t := a + m + b;
    if 0 <= j < |a| {
      assert t[j] == a[j];
    } else if |a| + |m| <= j < |t| {
      assert t[j] == b[j - |a| - |m|];
    }
  }

  /** A two-brace pattern can match `a + m + b` only where its braces cover those of `m`. */
  lemma MatchPins(a: string, m: string, b: string, c: nat, pat: string, k: nat, i: nat)
    requires NoBrace(a) && NoBrace(b) && BracesAt(m, c) && BracesAt(pat, k)
    ensures MatchesAt(a + m + b, pat, i, false) ==> i + k == |a| + c
  {
    var t := a + m + b;
    if MatchesAt(t, pat, i, false) {
      MatchChar(t, pat, i, k);
      MatchChar(t, pat, i, k + 1);
      BracesInMiddle(a, m, b, i + k);
      BracesInMiddle(a, m, b, i + k + 1);
    }
  }

  /** A pattern holding a brace never matches from `from` on in a text with no brace from there. */
  lemma NoMatchWithoutBrace(s: string, pat: string, k: nat, from: nat)
    requires k < |pat| && pat[k] == '{'
    requires forall j :: from <= j < |s| ==> s[j] != '{'
    ensures IndexOf(s, pat, from, false) == None
  {
    IndexOfMeaning(s, pat, from, false);
  }

  /** A search finds nothing when no index from `from` on matches. */
  lemma NoMatchFrom(s: string, pat: string, from: nat)
    requires forall i: nat :: from <= i && i + |pat| <= |s| ==> !MatchesAt(s, pat, i, false)
    ensures IndexOf(s, pat, from, false) == None
  {
    IndexOfMeaning(s, pat, from, false);
  }

  /** Between brace-free ends, a two-brace pattern is found where it stands, and not again. */
  lemma FoundAt(a: string, m: string, b: string, c: nat)
    requires NoBrace(a) && NoBrace(b) && BracesAt(m, c)
    ensures IndexOf(a + m + b, m, 0, false) == Some(|a|)
    ensures IndexOf(a + m + b, m, |a| + |m|, false) == None
  {
    var t := a + m + b;
    assert forall k :: 0 <= k < |m| ==> t[|a| + k] == m[k];
    forall i: nat | i < |a| ensures !MatchesAt(t, m, i, false) {
      MatchPins(a, m, b, c, m, c, i);
    }
    IndexOfFinds(t, m, 0, |a|, false);
    forall j | |a| + |m| <= j < |t| ensures t[j] != '{' {
      BracesInMiddle(a, m, b, j);
    }
    NoMatchWithoutBrace(t, m, c, |a| + |m|);
  }

  // ---------------------------------------------------------------------------
  // The greeting with a name
  // ---------------------------------------------------------------------------

  lemma TextOfStyled(s: string, cls: string)
    ensures TextOf(Styled(s, cls)) == s
  {
  }

  lemma TextOfAppend(x: seq<Glyph>, y: seq<Glyph>)
    ensures TextOf(x + y) == TextOf(x) + TextOf(y)
  {
  }

  /**
   * With a non-empty first name and a template holding one placeholder, the
   * greeting reads as the template with the placeholder replaced by the name,
   * and exactly the name's characters are drawn with the highlight class.
   */
  lemma NamedGreeting(a: string, b: string, name: string)
    requires NoBrace(a) && NoBrace(b) && name != ""
    ensures var g := Greeting(a + Placeholder + b, Some(name));
      TextOf(g) == ReplaceFirst(a + Placeholder + b, Placeholder, name) == a + name + b &&
      forall i :: 0 <= i < |g| ==> (g[i].className == DynamicClass <==> |a| <= i < |a| + |name|)
  {
    var t := a + Placeholder + b;
    PatternBraces();
    FoundAt(a, Placeholder, b, 0);
    assert Contains(t, Placeholder);
    assert t[..|a|] == a;
    assert t[|a| + |Placeholder|..] == b;
    assert Before(t) == a;
    assert After(t) == b;
    var x, y, z := Styled(a, StaticClass), Styled(name, DynamicClass), Styled(b, StaticClass);
    TextOfAppend(x + y, z);
    TextOfAppend(x, y);
    TextOfStyled(a, StaticClass);
    TextOfStyled(name, DynamicClass);
    TextOfStyled(b, StaticClass);
  }

  // ---------------------------------------------------------------------------
  // The greeting without a name
  // ---------------------------------------------------------------------------

  /** A brace-free text is left alone by the generic rewrite. */
  lemma GenericOfBraceFree(s: string)
    requires NoBrace(s)
    ensures Generic(s) == s
  {
    NoMatchWithoutBrace(s, ", {{name}}", 2, 0);
    GenericOfBraceFreeRest(s);
  }

  /** The two later rewrites leave a brace-free text alone. */
  lemma GenericOfBraceFreeRest(s: string)
    requires NoBrace(s)
    ensures ReplaceFirst(ReplaceFirst(s, " {{name}}", ""), Placeholder, "you") == s
  {
    NoMatchWithoutBrace(s, " {{name}}", 1, 0);
    NoMatchWithoutBrace(s, Placeholder, 0, 0);
  }

  /** The usual shape: a comma clause naming the user is dropped whole. */
  lemma GenericDropsCommaClause(a: string, b: string)
    requires NoBrace(a) && NoBrace(b)
    ensures Generic(a + ", {{name}}" + b) == a + b
  {
    var m := ", {{name}}";
    var t := a + m + b;
    PatternBraces();
    FoundAt(a, m, b, 2);
    assert t[..|a|] == a && t[|a| + |m|..] == b;
    GenericOfBraceFreeRest(a + b);
  }

  /** A name after a bare space goes together with that space. */
  lemma GenericDropsSpacedName(a: string, b: string)
    requires NoBrace(a) && NoBrace(b)
    requires a == [] || a[|a| - 1] != ','
    ensures Generic(a + " {{name}}" + b) == a + b
  {
    var m, comma := " {{name}}", ", {{name}}";
    var t := a + m + b;
    PatternBraces();
    assert a != [] ==> t[|a| - 1] == a[|a| - 1];
    forall i: nat | i + |comma| <= |t| ensures !MatchesAt(t, comma, i, false) {
      MatchPins(a, m, b, 1, comma, 2, i);
      MatchChar(t, comma, i, 0);
    }
    NoMatchFrom(t, comma, 0);
    FoundAt(a, m, b, 1);
    assert t[..|a|] == a && t[|a| + |m|..] == b;
    NoMatchWithoutBrace(a + b, Placeholder, 0, 0);
  }

  /** A placeholder with neither a comma clause nor a space before it becomes "you". */
  lemma GenericAddressesYou(a: string, b: string)
    requires NoBrace(a) && NoBrace(b)
    requires a == [] || a[|a| - 1] != ' '
    ensures Generic(a + Placeholder + b) == a + "you" + b
  {
    var comma, spaced := ", {{name}}", " {{name}}";
    var t := a + Placeholder + b;
    PatternBraces();
    assert a != [] ==> t[|a| - 1] == a[|a| - 1];
    forall i: nat | i + |comma| <= |t| ensures !MatchesAt(t, comma, i, false) {
      MatchPins(a, Placeholder, b, 0, comma, 2, i);
      MatchChar(t, comma, i, 1);
    }
    NoMatchFrom(t, comma, 0);
    forall i: nat | i + |spaced| <= |t| ensures !MatchesAt(t, spaced, i, false) {
      MatchPins(a, Placeholder, b, 0, spaced, 1, i);
      MatchChar(t, spaced, i, 0);
    }
    NoMatchFrom(t, spaced, 0);
    FoundAt(a, Placeholder, b, 0);
    assert t[..|a|] == a && t[|a| + |Placeholder|..] == b;
  }

  // ---------------------------------------------------------------------------
  // The shipped templates
  // ---------------------------------------------------------------------------

  /** `t` is brace-free (and `a` is all of it), or one comma clause naming the user between brace-free `a` and `b`. */
  predicate Shaped(t: string, a: string, b: string) {
    (NoBrace(t) && a == t && b == []) || (t == Named(a, b) && NoBrace(a) && NoBrace(b))
  }

  lemma MorningShape(index: nat) returns (a: string, b: string)
    requires index < 4
    ensures Shaped(Greetings(Morning)[index], a, b)
  {
    a := ["Good morning", "Rise and shine", "What's on the agenda today", "Ready to build the future"][index];
    b := [".", "!", "?", "?"][index];
  }

  lemma AfternoonShape(index: nat) returns (a: string, b: string)
    requires index < 4
    ensures Shaped(Greetings(Afternoon)[index], a, b)
  {
    a := ["Good afternoon", "Hope you're having a productive day", "How can I help this afternoon",
          "Let's bring your ideas to life"][index];
    b := [".", ".", "?", "."][index];
  }

  lemma EveningShape(index: nat) returns (a: string, b: string)
    requires index < 4
    ensures Shaped(Greetings(Evening)[index], a, b)
  {
    a := ["Good evening", "Winding down or gearing up", "What's on your mind this evening?",
          "Time for some creative exploration"][index];
    b := [".", "?", "", "?"][index];
  }

  lemma NightShape(index: nat) returns (a: string, b: string)
    requires index < 4
    ensures Shaped(Greetings(Night)[index], a, b)
  {
    a := ["Hello, night owl.", "Burning the midnight oil", "Late night session? I'm ready.",
          "Inspiration strikes late, doesn't it"][index];
    b := ["", "?", "", "?"][index];
  }

  /** Every shipped template is brace-free, or one comma clause naming the user between brace-free text. */
  lemma TemplateShape(p: Period, index: nat) returns (a: string, b: string)
    requires index < 4
    ensures Shaped(Greetings(p)[index], a, b)
  {
    match p
    case Morning => a, b := MorningShape(index);
    case Afternoon => a, b := AfternoonShape(index);
    case Evening => a, b := EveningShape(index);
    case Night => a, b := NightShape(index);
  }

  /**
   * A template of either shipped shape greets without showing a brace, given
   * a brace-free display name: with no first name the name clause is dropped,
   * with one the first name stands in the placeholder's place.
   */
  lemma ShapedGreeting(t: string, a: string, b: string, displayName: Option<string>)
    requires Shaped(t, a, b)
    requires displayName.Some? ==> NoBrace(displayName.value)
    ensures NoBrace(TextOf(Greeting(t, FirstName(displayName))))
  {
    var first := FirstName(displayName);
    if first.Some? {
      FirstNameMeaning(displayName.value);
      assert first.value == displayName.value[..|first.value|];
    }
    if NoBrace(t) {
      NoMatchWithoutBrace(t, Placeholder, 0, 0);
      GenericOfBraceFree(t);
      TextOfStyled(t, StaticClass);
    } else if first.Some? && first.value != "" {
      assert t == (a + ", ") + Placeholder + b;
      NamedGreeting(a + ", ", b, first.value);
    } else {
      GenericDropsCommaClause(a, b);
      TextOfStyled(a + b, StaticClass);
    }
  }

  /**
   * No welcome message ever shows a placeholder: for every hour, every
   * template pick and every display name without braces, the greeting's text
   * has no brace in it.
   */
  lemma NoPlaceholderShown(hour: int, index: nat, displayName: Option<string>)
    requires index < 4
    requires displayName.Some? ==> NoBrace(displayName.value)
    ensures NoBrace(TextOf(WelcomeMessage(hour, index, displayName)))
  {
    var a, b := TemplateShape(PeriodOf(hour), index);
    ShapedGreeting(Greetings(PeriodOf(hour))[index], a, b, displayName);
  }

  // ---------------------------------------------------------------------------
  // Asking from the welcome screen
  // ---------------------------------------------------------------------------

  const ChatMode := "chat"

  /** What the welcome screen asks of the rest of the app. */
  datatype Effect = SendChat(text: string) | AskCouncil(question: string) | SignIn

  /** The effects of the ask button in a mode, signed in or not, with the current input. */
  function AskEffects(mode: string, signedIn: bool, input: string): seq<Effect> {
    if mode == ChatMode then [SendChat(input)]
    else if signedIn then [AskCouncil(input)]
    else [SignIn]
  }

  /** The effects of clicking a suggested prompt. */
  function PromptEffects(signedIn: bool, prompt: string): seq<Effect> {
    if signedIn then [SendChat(prompt)] else [SignIn]
  }

  /** The input box and the effects the screen has issued so far. */
  class AskBox {
    var input: string
    var effects: seq<Effect>

    constructor(input: string)
      ensures this.input == input && effects == []
    {
      this.input := input;
      effects := [];
    }

    /** `handleAsk`: chat mode sends the input; council mode asks the council and clears the box, or asks to sign in. */
    method HandleAsk(mode: string, signedIn: bool)
      modifies this
      ensures effects == old(effects) + AskEffects(mode, signedIn, old(input))
      ensures input == if mode != ChatMode && signedIn then "" else old(input)
    {
      if mode == ChatMode {
        effects := effects + [SendChat(input)];
      } else {
        if signedIn {
          effects := effects + [AskCouncil(input)];
          input := "";
        } else {
          effects := effects + [SignIn];
        }
      }
    }

    /** `handlePromptClick`: a suggestion is sent as a chat message when signed in, otherwise sign-in starts. */
    method HandlePromptClick(signedIn: bool, prompt: string)
      modifies this
      ensures effects == old(effects) + PromptEffects(signedIn, prompt)
      ensures input == old(input)
    {
      if signedIn {
        effects := effects + [SendChat(prompt)];
      } else {
        effects := effects + [SignIn];
      }
    }
  }

  /**
   * Every ask has exactly one effect. The council is consulted only when
   * signed in and never in chat mode; sign-in is requested only in council
   * mode; the question asked is always the current input.
   */
  lemma AskRouting(mode: string, signedIn: bool, input: string)
    ensures var e := AskEffects(mode, signedIn, input);
      |e| == 1 &&
      (e[0].AskCouncil? <==> mode != ChatMode && signedIn) &&
      (e[0].SignIn? <==> mode != ChatMode && !signedIn) &&
      (e[0].SendChat? <==> mode == ChatMode) &&
      (!e[0].SignIn? ==> (e[0].SendChat? && e[0].text == input) || (e[0].AskCouncil? && e[0].question == input))
  {
  }

  /** A suggested prompt never reaches the council, and is sent verbatim exactly when signed in. */
  lemma PromptRouting(signedIn: bool, prompt: string)
    ensures var e := PromptEffects(signedIn, prompt);
      |e| == 1 && !e[0].AskCouncil? && (e[0] == SendChat(prompt) <==> signedIn)
  {
  }
}
