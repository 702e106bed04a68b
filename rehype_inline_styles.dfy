/**
 * The rehype plugin that inlines styles into rendered HTML
 * (src/lib/rehype-inline-styles.js): every element gets a `style` property
 * built from a base style overridden by its tag's own, and a `code` element
 * that is the first child of a `pre` is first given a transparent style.
 * That preset does not survive: the walk reaches the `code` element next and
 * overwrites it with the `code` style (`PresetOverwritten`).
 * `InlineStylesFixed` is the walk that keeps it, as intended.
 *
 * A style object is a sequence of declarations in insertion order, as
 * `Object.entries` lists it. The tree is a value: `unist-util-visit`'s walk
 * over the `element` nodes is a preorder recursion that rebuilds the tree
 * with each element's properties updated.
 */
module RehypeInlineStyles {
  import opened Wrappers
  import opened Text

  /** One `key: value` entry of a style object; keys are camel-case. */
  datatype Decl = Decl(key: string, value: string)

  /** The value of the entry with key `k`, as property access reads it. */
  function Lookup(decls: seq<Decl>, k: string): Option<string>
    decreases |decls|
  {
    if decls == [] then None
    else if decls[0].key == k then Some(decls[0].value)
    else Lookup(decls[1..], k)
  }

  // ----- serialising a style object -----

  /** One character of a key: an ASCII capital becomes `-` and its lower case. */
  function KebabChar(c: char): string {
    if 'A' <= c <= 'Z' then ['-', Lower(c)] else [c]
  }

  /** `key.replace(/([A-Z])/g, g => '-' + g[0].toLowerCase())`. */
  function Kebab(key: string): string
    decreases |key|
  {
    if key == [] then [] else KebabChar(key[0]) + Kebab(key[1..])
  }

  /** The camel-case a kebab-case key came from: `-` and a small letter become the capital. */
  function Camel(s: string): string
    decreases |s|
  {
    if s == [] then []
    else if |s| >= 2 && s[0] == '-' && 'a' <= s[1] <= 'z' then [Upper(s[1])] + Camel(s[2..])
    else [s[0]] + Camel(s[1..])
  }

  /** One entry as CSS. */
  function Render(d: Decl): string {
    Kebab(d.key) + ": " + d.value
  }

  /** `styleObjectToString`: the entries as CSS, joined by `;`. */
  function StyleObjectToString(decls: seq<Decl>): string {
    Join(seq(|decls|, i requires 0 <= i < |decls| => Render(decls[i])), ";")
  }

  // ----- the styles -----

  const BaseFont: string :=
    "-apple-system, BlinkMacSystemFont, \"Segoe UI\", Roboto, Helvetica, Arial, sans-serif, \"Apple Color Emoji\", \"Segoe UI Emoji\""

  /** The style every element starts from. */
  const BaseStyle: seq<Decl> := [
    Decl("fontFamily", BaseFont),
    Decl("color", "#000000"),
    Decl("backgroundColor", "#ffffff"),
    Decl("margin", "0")
  ]

  /** The tags with a style of their own. */
  const StyledTags: set<string> := {"p", "li", "h1", "h2", "h3", "a", "blockquote", "code", "pre"}

  /** The `switch` on the tag name: the tag's own entries (none for other tags). */
  function SpecificStyle(tag: string): seq<Decl> {
    if tag == "p" || tag == "li" then [Decl("marginBottom", "16px")]
    else if tag == "h1" then [Decl("fontSize", "2em"), Decl("fontWeight", "bold"), Decl("margin", "0.67em 0")]
    else if tag == "h2" then [Decl("fontSize", "1.5em"), Decl("fontWeight", "bold"), Decl("margin", "0.83em 0")]
    else if tag == "h3" then [Decl("fontSize", "1.17em"), Decl("fontWeight", "bold"), Decl("margin", "1em 0")]
    else if tag == "a" then [Decl("color", "#0969da"), Decl("textDecoration", "underline")]
    else if tag == "blockquote" then
      [Decl("padding", "0 1em"), Decl("color", "#57606a"), Decl("borderLeft", ".25em solid #d0d7de"), Decl("margin", "0 0 16px")]
    else if tag == "code" then
      [Decl("fontFamily", "monospace"), Decl("backgroundColor", "#f0f0f0"), Decl("padding", ".2em .4em"),
       Decl("borderRadius", "6px"), Decl("fontSize", "85%")]
    else if tag == "pre" then
      [Decl("fontFamily", "monospace"), Decl("backgroundColor", "#f0f0f0"), Decl("padding", "16px"),
       Decl("overflow", "auto"), Decl("borderRadius", "6px")]
    else []
  }

  /** The base entries, each taking the overriding value when there is one. */
  function Overridden(base: seq<Decl>, over: seq<Decl>): seq<Decl>
    decreases |base|
  {
    if base == [] then []
    else
      var v := if Lookup(over, base[0].key).Some? then Lookup(over, base[0].key).value else base[0].value;
      [Decl(base[0].key, v)] + Overridden(base[1..], over)
  }

  /** The overriding entries whose keys the base does not have, in their order. */
  function Added(over: seq<Decl>, base: seq<Decl>): seq<Decl>
    decreases |over|
  {
    if over == [] then []
    else if Lookup(base, over[0].key).Some? then Added(over[1..], base)
    else [over[0]] + Added(over[1..], base)
  }

  /** `{ ...base, ...over }`: existing keys keep their place, new keys go at the end. */
  function Spread(base: seq<Decl>, over: seq<Decl>): seq<Decl> {
    Overridden(base, over) + Added(over, base)
  }

  /** `finalStyle` for an element with this tag. */
  function FinalStyle(tag: string): seq<Decl> {
    Spread(BaseStyle, SpecificStyle(tag))
  }

  /** The style a `pre` gives its leading `code` child before that child is visited. */
  const PreCodeStyle: string := "background-color: transparent;" + " padding: 0; border-radius: 0;"

  const StyleProp: string := "style"

  // ----- the tree and the walk -----

  /**
   * An HTML syntax tree node: an element with its tag, properties and
   * children, or any other node (root, text, comment) that the walk only
   * passes through.
   */
  datatype Node =
    | Element(tagName: string, properties: map<string, string>, children: seq<Node>)
    | Other(kind: string, value: string, children: seq<Node>)

  /** `child && child.tagName === 'code'` for a `pre`'s first child. */
  predicate PresetsChild(n: Node) {
    n.Element? && n.tagName == "pre" && |n.children| > 0 &&
    n.children[0].Element? && n.children[0].tagName == "code"
  }

  /** What node `n` writes into its child `i` before the walk reaches that child. */
  function ChildPreset(n: Node, i: nat): Option<string> {
    if i == 0 && PresetsChild(n) then Some(PreCodeStyle) else None
  }

  /** `child.properties.style = …` when there is a preset. */
  function WithPreset(props: map<string, string>, preset: Option<string>): map<string, string> {
    if preset.Some? then props[StyleProp := preset.value] else props
  }

  /**
   * The `style` an element ends with. As written (`presetWins` false) the
   * element's own visit overwrites whatever its parent preset; with
   * `presetWins` a preset survives, as the comment over the preset intends.
   */
  function OwnStyle(tag: string, preset: Option<string>, presetWins: bool): string {
    if presetWins && preset.Some? then preset.value else StyleObjectToString(FinalStyle(tag))
  }

  /**
   * The visit of node `n` and, in preorder, of everything below it. `preset`
   * is the style the parent `pre` wrote into this node just before.
   */
  function Visit(n: Node, preset: Option<string>, presetWins: bool): (r: Node)
    decreases n
  {
    match n
    case Element(tag, props, cs) =>
      Element(tag, WithPreset(props, preset)[StyleProp := OwnStyle(tag, preset, presetWins)],
              seq(|cs|, i requires 0 <= i < |cs| => Visit(cs[i], ChildPreset(n, i), presetWins)))
    case Other(kind, v, cs) =>
      Other(kind, v, seq(|cs|, i requires 0 <= i < |cs| => Visit(cs[i], ChildPreset(n, i), presetWins)))
  }

  /** One step of the walk: the node's own update, its children visited in turn. */
  lemma VisitStep(n: Node, preset: Option<string>, presetWins: bool)
    ensures var r := Visit(n, preset, presetWins);
      r.Element? == n.Element? && |r.children| == |n.children| &&
      (r.Element? ==> r.tagName == n.tagName) &&
      (r.Element? ==> r.properties == WithPreset(n.properties, preset)[StyleProp := OwnStyle(n.tagName, preset, presetWins)]) &&
      (r.Other? ==> r.kind == n.kind && r.value == n.value) &&
      forall i :: 0 <= i < |n.children| ==> r.children[i] == Visit(n.children[i], ChildPreset(n, i), presetWins)
  {
  }

  /** `rehypeInlineStyles()(tree)`, as written. */
  function InlineStyles(tree: Node): Node {
    Visit(tree, None, false)
  }

  /** The plugin with the `pre` preset kept, as intended. */
  function InlineStylesFixed(tree: Node): Node {
    Visit(tree, None, true)
  }

  /** Every element in the tree carries the style of its own tag. */
  predicate Styled(n: Node)
    decreases n
  {
    (n.Element? ==> StyleProp in n.properties &&
                    n.properties[StyleProp] == StyleObjectToString(FinalStyle(n.tagName))) &&
    forall i :: 0 <= i < |n.children| ==> Styled(n.children[i])
  }

  /**
   * Every element in the tree carries the style of its own tag, except the
   * leading `code` of a `pre`, which carries the transparent preset.
   */
  predicate StyledFixed(n: Node, preset: Option<string>)
    decreases n
  {
    (n.Element? ==> StyleProp in n.properties && n.properties[StyleProp] == OwnStyle(n.tagName, preset, true)) &&
    forall i :: 0 <= i < |n.children| ==> StyledFixed(n.children[i], ChildPreset(n, i))
  }

  /** The tree with every `style` property dropped: what the walk must leave alone. */
  function Unstyled(n: Node): Node
    decreases n
  {
    match n
    case Element(tag, props, cs) =>
      Element(tag, props - {StyleProp}, seq(|cs|, i requires 0 <= i < |cs| => Unstyled(cs[i])))
    case Other(kind, v, cs) =>
      Other(kind, v, seq(|cs|, i requires 0 <= i < |cs| => Unstyled(cs[i])))
  }

  // ----- the walk's properties -----

  /** As written, after the walk every element's style is the one its tag gives, whatever a parent preset. */
  lemma {:induction false} VisitStyles(n: Node, preset: Option<string>)
    ensures Styled(Visit(n, preset, false))
    decreases n
  {
    var r := Visit(n, preset, false);
    VisitStep(n, preset, false);
    forall i | 0 <= i < |r.children| ensures Styled(r.children[i]) {
      VisitStyles(n.children[i], ChildPreset(n, i));
    }
  }

  /** With the preset kept, every element is styled by its tag except a `pre`'s leading `code`. */
  lemma {:induction false} FixedStyles(n: Node, preset: Option<string>)
    ensures StyledFixed(Visit(n, preset, true), preset)
    decreases n
  {
    var r := Visit(n, preset, true);
    VisitStep(n, preset, true);
    PresetsKept(n, preset, true);
    forall i | 0 <= i < |r.children| ensures StyledFixed(r.children[i], ChildPreset(r, i)) {
      FixedStyles(n.children[i], ChildPreset(n, i));
    }
  }

  /** The walk changes nothing but `style` properties: the tree's shape, texts and other properties stay. */
  lemma {:induction false} VisitKeepsRest(n: Node, preset: Option<string>, presetWins: bool)
    ensures Unstyled(Visit(n, preset, presetWins)) == Unstyled(n)
    decreases n
  {
    var r := Visit(n, preset, presetWins);
    VisitStep(n, preset, presetWins);
    var a, b := Unstyled(r), Unstyled(n);
    forall i | 0 <= i < |n.children| ensures a.children[i] == b.children[i] {
      VisitKeepsRest(n.children[i], ChildPreset(n, i), presetWins);
    }
    assert a.children == b.children;
    if n.Element? {
      StyleDropped(n.properties, preset, OwnStyle(n.tagName, preset, presetWins));
    }
  }

  lemma StyleDropped(props: map<string, string>, preset: Option<string>, style: string)
    ensures WithPreset(props, preset)[StyleProp := style] - {StyleProp} == props - {StyleProp}
  {
  }

  lemma StyleTwice(props: map<string, string>, preset: Option<string>, style: string)
    ensures WithPreset(props[StyleProp := style], preset)[StyleProp := style] == props[StyleProp := style]
  {
  }

  /**
   * Running the walk on its own output changes nothing, as long as a kept
   * preset is the same both times.
   */
  lemma {:induction false} VisitIdempotent(n: Node, p: Option<string>, q: Option<string>, presetWins: bool)
    requires presetWins ==> p == q
    ensures Visit(Visit(n, p, presetWins), q, presetWins) == Visit(n, p, presetWins)
    decreases n
  {
    var r := Visit(n, p, presetWins);
    VisitStep(n, p, presetWins);
    VisitStep(r, q, presetWins);
    var rr := Visit(r, q, presetWins);
    PresetsKept(n, p, presetWins);
    forall i | 0 <= i < |n.children| ensures rr.children[i] == r.children[i] {
      VisitIdempotent(n.children[i], ChildPreset(n, i), ChildPreset(r, i), presetWins);
    }
    assert rr.children == r.children;
    if n.Element? {
      StyleTwice(WithPreset(n.properties, p), q, OwnStyle(n.tagName, p, presetWins));
    }
  }

  /** A visited node presets the same children as before. */
  lemma PresetsKept(n: Node, p: Option<string>, presetWins: bool)
    ensures forall i: nat :: ChildPreset(Visit(n, p, presetWins), i) == ChildPreset(n, i)
  {
    VisitStep(n, p, presetWins);
    if |n.children| > 0 {
      VisitStep(n.children[0], ChildPreset(n, 0), presetWins);
    }
    assert PresetsChild(Visit(n, p, presetWins)) == PresetsChild(n);
  }

  /** The plugin applied twice gives the same tree as applied once. */
  lemma InlineStylesTwice(tree: Node)
    ensures InlineStyles(InlineStyles(tree)) == InlineStyles(tree)
    ensures Styled(InlineStyles(tree)) && Unstyled(InlineStyles(tree)) == Unstyled(tree)
  {
    VisitIdempotent(tree, None, None, false);
    VisitStyles(tree, None);
    VisitKeepsRest(tree, None, false);
  }

  /** The corrected plugin is idempotent too, and also changes nothing but styles. */
  lemma InlineStylesFixedTwice(tree: Node)
    ensures InlineStylesFixed(InlineStylesFixed(tree)) == InlineStylesFixed(tree)
    ensures StyledFixed(InlineStylesFixed(tree), None) && Unstyled(InlineStylesFixed(tree)) == Unstyled(tree)
  {
    VisitIdempotent(tree, None, None, true);
    FixedStyles(tree, None);
    VisitKeepsRest(tree, None, true);
  }

  // ----- the lost preset -----

  /**
   * As written, the leading `code` of a `pre` ends with the grey `code` style:
   * the transparent preset is overwritten when the walk reaches the child.
   */
  lemma PresetOverwritten(n: Node)
    requires PresetsChild(n)
    ensures var r := InlineStyles(n);
      |r.children| >= 1 && r.children[0].Element? && StyleProp in r.children[0].properties &&
      r.children[0].properties[StyleProp] == StyleObjectToString(FinalStyle("code")) &&
      r.children[0].properties[StyleProp] != PreCodeStyle
    ensures Lookup(FinalStyle("code"), "backgroundColor") == Some("#f0f0f0")
  {
    VisitStep(n, None, false);
    VisitStep(n.children[0], Some(PreCodeStyle), false);
    CodeStyleNotPreset();
    CodeIsGrey();
  }

  /** The `code` style is not the preset. */
  lemma CodeStyleNotPreset()
    ensures StyleObjectToString(FinalStyle("code")) != PreCodeStyle
  {
    CodeStyleStart();
    PresetStart();
    FirstCharsDiffer(StyleObjectToString(FinalStyle("code")), PreCodeStyle);
  }

  lemma PresetStart()
    ensures |PreCodeStyle| >= 1 && PreCodeStyle[0] == 'b'
  {
  }

  lemma FirstCharsDiffer(a: string, b: string)
    requires |a| >= 1 && |b| >= 1 && a[0] != b[0]
    ensures a != b
  {
  }

  /** The `code` style has the grey background the preset was meant to clear. */
  lemma CodeIsGrey()
    ensures Lookup(FinalStyle("code"), "backgroundColor") == Some("#f0f0f0")
  {
    TagStyle("code", "backgroundColor");
  }

  /** The serialised `code` style starts with `font-family`, not `background-color`. */
  lemma CodeStyleStart()
    ensures |StyleObjectToString(FinalStyle("code"))| >= 1 && StyleObjectToString(FinalStyle("code"))[0] == 'f'
  {
    CodeStyleHead();
    StyleStringHead(FinalStyle("code"));
  }

  /** The `code` style keeps the base style's first entry, the font family, in first place. */
  lemma CodeStyleHead()
    ensures |FinalStyle("code")| >= 1 && FinalStyle("code")[0].key == "fontFamily"
  {
    assert Overridden(BaseStyle, SpecificStyle("code"))[0].key == BaseStyle[0].key;
  }

  /** A style string starts with its first key's first character, when that is no capital. */
  lemma StyleStringHead(decls: seq<Decl>)
    requires |decls| >= 1 && |decls[0].key| >= 1 && !('A' <= decls[0].key[0] <= 'Z')
    ensures |StyleObjectToString(decls)| >= 1 && StyleObjectToString(decls)[0] == decls[0].key[0]
  {
    var parts := seq(|decls|, i requires 0 <= i < |decls| => Render(decls[i]));
    var key := decls[0].key;
    assert Kebab(key) == [key[0]] + Kebab(key[1..]);
    assert parts[0] == Kebab(key) + ": " + decls[0].value;
    JoinHead(parts, ";");
  }

  /** With the preset kept, the leading `code` of a `pre` is transparent, as the comment over it intends. */
  lemma FixedKeepsPreset(n: Node)
    requires PresetsChild(n)
    ensures var r := InlineStylesFixed(n);
      |r.children| >= 1 && r.children[0].Element? && StyleProp in r.children[0].properties &&
      r.children[0].properties[StyleProp] == PreCodeStyle
  {
    VisitStep(n, None, true);
    VisitStep(n.children[0], Some(PreCodeStyle), true);
  }

  // ----- the spread -----

  lemma {:induction false} LookupAppend(x: seq<Decl>, y: seq<Decl>, k: string)
    ensures Lookup(x + y, k) == if Lookup(x, k).Some? then Lookup(x, k) else Lookup(y, k)
    decreases |x|
  {
    if x != [] {
      assert (x + y)[1..] == x[1..] + y;
      LookupAppend(x[1..], y, k);
    } else {
      assert x + y == y;
    }
  }

  lemma {:induction false} OverriddenLookup(base: seq<Decl>, over: seq<Decl>, k: string)
    ensures Lookup(Overridden(base, over), k) ==
      if Lookup(base, k).None? then None
      else if Lookup(over, k).Some? then Lookup(over, k) else Lookup(base, k)
    decreases |base|
  {
    if base != [] {
      OverriddenLookup(base[1..], over, k);
    }
  }

  lemma {:induction false} AddedLookup(over: seq<Decl>, base: seq<Decl>, k: string)
    ensures Lookup(Added(over, base), k) == if Lookup(base, k).Some? then None else Lookup(over, k)
    decreases |over|
  {
    if over != [] {
      AddedLookup(over[1..], base, k);
    }
  }

  /** After the spread a key reads the overriding value when there is one and the base value otherwise. */
  lemma SpreadLookup(base: seq<Decl>, over: seq<Decl>, k: string)
    ensures Lookup(Spread(base, over), k) == if Lookup(over, k).Some? then Lookup(over, k) else Lookup(base, k)
  {
    LookupAppend(Overridden(base, over), Added(over, base), k);
    OverriddenLookup(base, over, k);
    AddedLookup(over, base, k);
  }

  /** Spreading nothing over a style gives that style. */
  lemma {:induction false} SpreadNothing(base: seq<Decl>)
    ensures Spread(base, []) == base
    decreases |base|
  {
    if base != [] {
      SpreadNothing(base[1..]);
      assert Overridden(base[1..], []) == base[1..];
    }
  }

  /**
   * A tag's own entries win over the base, every other base entry is kept,
   * and a tag without its own style gets exactly the base style.
   */
  lemma TagStyle(tag: string, k: string)
    ensures Lookup(SpecificStyle(tag), k).Some? ==> Lookup(FinalStyle(tag), k) == Lookup(SpecificStyle(tag), k)
    ensures Lookup(SpecificStyle(tag), k).None? ==> Lookup(FinalStyle(tag), k) == Lookup(BaseStyle, k)
    ensures tag !in StyledTags ==> FinalStyle(tag) == BaseStyle
  {
    SpreadLookup(BaseStyle, SpecificStyle(tag), k);
    if tag !in StyledTags {
      SpreadNothing(BaseStyle);
    }
  }

  /** Links are blue, code and preformatted blocks monospaced, and paragraphs keep the base colours. */
  lemma TagExamples()
    ensures Lookup(FinalStyle("a"), "color") == Some("#0969da")
    ensures Lookup(FinalStyle("code"), "fontFamily") == Some("monospace")
    ensures Lookup(FinalStyle("pre"), "fontFamily") == Some("monospace")
    ensures Lookup(FinalStyle("p"), "color") == Some("#000000")
  {
    TagStyle("a", "color");
    TagStyle("code", "fontFamily");
    TagStyle("pre", "fontFamily");
    TagStyle("p", "color");
  }

  // ----- the serialiser's partners -----

  /** A kebab-case key has no capitals. */
  lemma {:induction false} KebabLower(key: string)
    ensures forall i :: 0 <= i < |Kebab(key)| ==> !('A' <= Kebab(key)[i] <= 'Z')
    decreases |key|
  {
    if key != [] {
      KebabLower(key[1..]);
      var h, t := KebabChar(key[0]), Kebab(key[1..]);
      assert forall i :: 0 <= i < |h| ==> !('A' <= h[i] <= 'Z');
      assert forall i :: |h| <= i < |h + t| ==> (h + t)[i] == t[i - |h|];
    }
  }

  /** A camel-case key without dashes comes back from its kebab-case form. */
  lemma {:induction false} KebabRoundTrip(key: string)
    requires '-' !in key
    ensures Camel(Kebab(key)) == key
    decreases |key|
  {
    if key != [] {
      var c := key[0];
      assert '-' !in key[1..] by {
        forall i | 0 <= i < |key[1..]| ensures key[1..][i] != '-' {
          assert key[1..][i] == key[i + 1];
        }
      }
      KebabRoundTrip(key[1..]);
      var t := Kebab(key[1..]);
      if 'A' <= c <= 'Z' {
        assert Kebab(key) == ['-', Lower(c)] + t;
        assert (['-', Lower(c)] + t)[2..] == t;
      } else {
        assert Kebab(key) == [c] + t;
        assert ([c] + t)[1..] == t;
      }
      assert key == [c] + key[1..];
    }
  }

  /** The serialised style splits on `;` back into its entries when no key or value holds a `;`. */
  lemma StyleStringSplits(decls: seq<Decl>)
    requires |decls| >= 1
    requires forall i :: 0 <= i < |decls| ==> ';' !in decls[i].key && ';' !in decls[i].value
    ensures Split(StyleObjectToString(decls), ';') == seq(|decls|, i requires 0 <= i < |decls| => Render(decls[i]))
  {
    var parts := seq(|decls|, i requires 0 <= i < |decls| => Render(decls[i]));
    forall k | 0 <= k < |parts| ensures ';' !in parts[k] {
      KebabKeeps(decls[k].key, ';');
      var a, b := Kebab(decls[k].key), ": " + decls[k].value;
      assert parts[k] == a + b;
      assert forall x :: x in a + b ==> x in a || x in b;
    }
    SplitJoin(parts, ';');
  }

  /** Kebab-casing brings in no character but `-` and small letters. */
  lemma {:induction false} KebabKeeps(key: string, c: char)
    requires c !in key && c != '-' && !('a' <= c <= 'z')
    ensures c !in Kebab(key)
    decreases |key|
  {
    if key != [] {
      assert c !in key[1..] by {
        forall i | 0 <= i < |key[1..]| ensures key[1..][i] != c {
          assert key[1..][i] == key[i + 1];
        }
      }
      KebabKeeps(key[1..], c);
      var h, t := KebabChar(key[0]), Kebab(key[1..]);
      assert c !in h;
      assert forall x :: x in h + t ==> x in h || x in t;
    }
  }
}
