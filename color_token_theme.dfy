/**
 * The editor theme for token colours (src/Components/colorTokenTheme.js): each
 * token type is looked up, through the highlight tag it stands for, in the
 * highlight style, and gets a CSS rule when the style found gives a colour.
 * Tags and styles are opaque values compared by identity.
 */
module ColorTheme {
  import opened Wrappers

  /** A highlight tag, by identity; the token mapping uses the named ones. */
  datatype Tag =
    | Comment | Name | PropertyName | FunctionVariableName | Keyword | Modifier | Number
    | Operator | StringTag | TypeName | SpecialVariableName | Literal | Url | OtherTag(id: nat)

  /** The `tag` of a style entry: one tag or an array of them. */
  datatype TagSelector = One(tag: Tag) | Many(tags: seq<Tag>)

  /** One entry of `highlightStyle.specs`; a missing or empty colour is falsy. */
  datatype TagStyle = TagStyle(selector: TagSelector, color: Option<string>)

  /** `style.tag === tag || (Array.isArray(style.tag) && style.tag.includes(tag))`. */
  predicate Matches(style: TagStyle, tag: Tag) {
    match style.selector
    case One(t) => t == tag
    case Many(ts) => tag in ts
  }

  /** `findHighlightTag`: the first entry, in order, that matches, or nothing. */
  function FindHighlightTag(specs: seq<TagStyle>, tag: Tag): (r: Option<nat>)
    ensures r.Some? ==> r.value < |specs| && Matches(specs[r.value], tag)
    ensures r.Some? ==> forall j :: 0 <= j < r.value ==> !Matches(specs[j], tag)
    ensures r.None? ==> forall j :: 0 <= j < |specs| ==> !Matches(specs[j], tag)
    decreases |specs|
  {
    if |specs| == 0 then None
    else if Matches(specs[0], tag) then Some(0)
    else match FindHighlightTag(specs[1..], tag)
      case None => None
      case Some(i) => Some(i + 1)
  }

  /** The style found for `tag`, as `findHighlightTag` returns it. */
  function StyleFor(specs: seq<TagStyle>, tag: Tag): Option<TagStyle> {
    match FindHighlightTag(specs, tag)
    case None => None
    case Some(i) => Some(specs[i])
  }

  /** The token types and the tags they stand for, in the order of the mapping object. */
  const MAPPING: seq<(string, Tag)> := [
    ("comment", Comment), ("enum", Name), ("enumMember", PropertyName),
    ("function", FunctionVariableName), ("keyword", Keyword), ("modifier", Modifier),
    ("number", Number), ("operator", Operator), ("property", PropertyName),
    ("string", StringTag), ("struct", TypeName), ("type", TypeName),
    ("variable", SpecialVariableName), ("literal", Literal), ("resourceLocation", Url),
    ("vector", TypeName)]

  /** The selector of the rule for a token type. */
  function Selector(key: string): string {
    ".spyglassmc-color-token-" + key
  }

  /** The colour the rule for `tag` gets, if the style found gives one. */
  function ColorFor(specs: seq<TagStyle>, tag: Tag): (r: Option<string>)
    ensures r.Some? <==> (StyleFor(specs, tag).Some? && StyleFor(specs, tag).value.color.Some? && StyleFor(specs, tag).value.color.value != "")
    ensures r.Some? ==> r == StyleFor(specs, tag).value.color
  {
    match StyleFor(specs, tag)
    case None => None
    case Some(style) =>
      if style.color.None? || style.color.value == "" then None else style.color
  }

  /** The rules for the first `n` entries of `mapping`. */
  function Rules(specs: seq<TagStyle>, mapping: seq<(string, Tag)>): (r: map<string, string>)
    ensures forall k :: k in r ==> r[k] != ""
    decreases |mapping|
  {
    if |mapping| == 0 then map[]
    else
      var (key, tag) := mapping[|mapping| - 1];
      var rules := Rules(specs, mapping[..|mapping| - 1]);
      match ColorFor(specs, tag)
      case None => rules
      case Some(c) => rules[Selector(key) := c]
  }

  /** Selectors of different token types differ. */
  lemma SelectorInjective(a: string, b: string)
    ensures Selector(a) == Selector(b) <==> a == b
  {
    if Selector(a) == Selector(b) {
      assert a == Selector(a)[24..];
    }
  }

  /**
   * The rules hold a rule for the token type of entry `i` exactly when the style
   * found for its tag gives a colour, and that rule is `{color: style.color}`.
   */
  lemma {:induction false} RuleOf(specs: seq<TagStyle>, mapping: seq<(string, Tag)>, i: nat)
    requires i < |mapping|
    requires forall j :: 0 <= j < |mapping| && j != i ==> mapping[j].0 != mapping[i].0
    ensures Selector(mapping[i].0) in Rules(specs, mapping) <==> ColorFor(specs, mapping[i].1).Some?
    ensures Selector(mapping[i].0) in Rules(specs, mapping) ==>
      Rules(specs, mapping)[Selector(mapping[i].0)] == ColorFor(specs, mapping[i].1).value
    decreases |mapping|
  {
    var n := |mapping| - 1;
    var key := mapping[i].0;
    SelectorInjective(key, mapping[n].0);
    if i < n {
      var prefix := mapping[..n];
      assert prefix[i] == mapping[i];
      forall j | 0 <= j < |prefix| && j != i ensures prefix[j].0 != prefix[i].0 {
        assert prefix[j] == mapping[j];
      }
      RuleOf(specs, prefix, i);
    } else {
      forall j | 0 <= j < n ensures mapping[..n][j].0 != key {
        assert mapping[..n][j] == mapping[j];
      }
      NoRule(specs, mapping[..n], key);
    }
  }

  /** A token type the mapping does not list gets no rule. */
  lemma {:induction false} NoRule(specs: seq<TagStyle>, mapping: seq<(string, Tag)>, key: string)
    requires forall j :: 0 <= j < |mapping| ==> mapping[j].0 != key
    ensures Selector(key) !in Rules(specs, mapping)
    decreases |mapping|
  {
    if |mapping| > 0 {
      var n := |mapping| - 1;
      SelectorInjective(key, mapping[n].0);
      NoRule(specs, mapping[..n], key);
    }
  }

  /** The loop over the mapping entries that fills the result object. */
  method BuildRules(specs: seq<TagStyle>, mapping: seq<(string, Tag)>) returns (result: map<string, string>)
    ensures result == Rules(specs, mapping)
  {
    result := map[];
    for i := 0 to |mapping|
      invariant result == Rules(specs, mapping[..i])
    {
      var (key, tag) := mapping[i];
      assert mapping[..i + 1][..i] == mapping[..i];
      var style := FindHighlightTag(specs, tag);
      if style.None? || specs[style.value].color.None? || specs[style.value].color.value == "" {
        continue;
      }
      result := result[Selector(key) := specs[style.value].color.value];
    }
    assert mapping[..|mapping|] == mapping;
  }

  /** `getColorTokenTheme(highlightStyle)`: the rules for the token mapping. */
  method GetColorTokenTheme(specs: seq<TagStyle>) returns (result: map<string, string>)
    ensures result == Rules(specs, MAPPING)
  {
    result := BuildRules(specs, MAPPING);
  }

  /** The token types of the mapping are distinct. */
  lemma MappingKeysDistinct()
    ensures forall i, j :: 0 <= i < |MAPPING| && 0 <= j < |MAPPING| && i != j ==> MAPPING[i].0 != MAPPING[j].0
  {
  }

  /**
   * The theme has a rule for a listed token type exactly when the style found for
   * its tag gives a colour, and the rule is that colour; unlisted types get none.
   */
  lemma ThemeRule(specs: seq<TagStyle>, i: nat)
    requires i < |MAPPING|
    ensures Selector(MAPPING[i].0) in Rules(specs, MAPPING) <==> ColorFor(specs, MAPPING[i].1).Some?
    ensures Selector(MAPPING[i].0) in Rules(specs, MAPPING) ==>
      Rules(specs, MAPPING)[Selector(MAPPING[i].0)] == ColorFor(specs, MAPPING[i].1).value
  {
    MappingKeysDistinct();
    RuleOf(specs, MAPPING, i);
  }

  /** Token types outside the mapping get no rule. */
  lemma ThemeUnlisted(specs: seq<TagStyle>, key: string)
    requires forall j :: 0 <= j < |MAPPING| ==> MAPPING[j].0 != key
    ensures Selector(key) !in Rules(specs, MAPPING)
  {
    NoRule(specs, MAPPING, key);
  }

  /** Token types bound to the same tag get the same rule: type, struct and vector. */
  lemma SharedTypeName(specs: seq<TagStyle>)
    ensures var rules := Rules(specs, MAPPING);
      && (Selector("type") in rules <==> Selector("struct") in rules)
      && (Selector("type") in rules <==> Selector("vector") in rules)
      && (Selector("type") in rules ==> rules[Selector("type")] == rules[Selector("struct")] == rules[Selector("vector")])
  {
    assert MAPPING[10] == ("struct", TypeName) && MAPPING[11] == ("type", TypeName) && MAPPING[15] == ("vector", TypeName);
    ThemeRule(specs, 10);
    ThemeRule(specs, 11);
    ThemeRule(specs, 15);
  }

  /** Likewise enumMember and property. */
  lemma SharedPropertyName(specs: seq<TagStyle>)
    ensures var rules := Rules(specs, MAPPING);
      && (Selector("enumMember") in rules <==> Selector("property") in rules)
      && (Selector("property") in rules ==> rules[Selector("enumMember")] == rules[Selector("property")])
  {
    assert MAPPING[2] == ("enumMember", PropertyName) && MAPPING[8] == ("property", PropertyName);
    ThemeRule(specs, 2);
    ThemeRule(specs, 8);
  }
}
