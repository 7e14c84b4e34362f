/**
 * Normalisation of the style theme that `api_design` returns: every
 * required field missing from the provider's object is filled from a fixed
 * defaults table, `overlay` is clamped to four values, and the three font
 * fields are clamped to the fonts the page can load.
 *
 * `WithDefaults`, `FontsClamped` and `NormalStyle` say what the result is;
 * the methods `FillDefaults`, `ClampFonts` and `NormalizeStyle` compute it
 * the way the handler does, one dictionary update at a time.
 */
module StyleTheme {
  import opened Values

  /** The fonts a theme may name (`AVAILABLE_FONTS`, a list). */
  const AvailableFonts: seq<string> := [
    "Syne", "Fira Code", "DM Serif Display", "Familjen Grotesk",
    "Instrument Serif", "Noto Serif JP", "Orbitron", "Unbounded",
    "Zilla Slab", "Courier Prime"
  ]

  const FallbackFont := "Familjen Grotesk"

  const ValidOverlays: set<string> := {"none", "scanlines", "grid", "memphis"}

  const FallbackOverlay := "none"

  const FontFields: seq<string> := ["labelFont", "headlineFont", "bodyFont"]

  /** The keys of `REQUIRED_FIELDS`, in the order the fill loop visits them. */
  const RequiredFields: seq<string> := [
    "name", "bg", "fg", "accent", "cardBg", "cardBorder", "cardBlur",
    "labelFont", "headlineFont", "headlineWeight", "headlineSize",
    "bodyFont", "bodyColor", "indicatorBg", "overlay"
  ]

  /** `REQUIRED_FIELDS`: the value each required field gets when it is missing. */
  const Defaults: map<string, Json> := map[
    "name" := JString("Custom"),
    "bg" := JString("#0a0a0a"),
    "fg" := JString("#f0f0f0"),
    "accent" := JString("#888"),
    "cardBg" := JString("rgba(255,255,255,0.05)"),
    "cardBorder" := JString("1px solid rgba(255,255,255,0.1)"),
    "cardBlur" := JBool(false),
    "labelFont" := JString("Fira Code"),
    "headlineFont" := JString("Syne"),
    "headlineWeight" := JInt(700),
    "headlineSize" := JString("clamp(1.8rem, 5vw, 3rem)"),
    "bodyFont" := JString("Familjen Grotesk"),
    "bodyColor" := JString("#888"),
    "indicatorBg" := JString("rgba(255,255,255,0.1)"),
    "overlay" := JString("none")
  ]

  /** A theme the page can render: every required field, a known overlay, loadable fonts. */
  predicate WellFormedTheme(theme: Object)
  {
    && Defaults.Keys <= theme.Keys
    && InSet(theme["overlay"], ValidOverlays)
    && forall f :: f in FontFields ==> InList(theme[f], AvailableFonts)
  }

  /** The style with every key of `defaults` it lacks added with its default value. */
  function WithDefaults(style: Object, defaults: Object): Object
  {
    map k | k in style.Keys + defaults.Keys :: if k in style then style[k] else defaults[k]
  }

  /** The style with every font field that is missing or not an available font set to the fallback. */
  function FontsClamped(style: Object): Object
  {
    map k | k in style.Keys + (set f | f in FontFields) ::
      if k in FontFields && !(k in style && InList(style[k], AvailableFonts)) then JString(FallbackFont)
      else style[k]
  }

  /** Facts about the defaults table that the proofs below rely on. */
  lemma DefaultsFacts()
    ensures forall k :: k in RequiredFields <==> k in Defaults
    ensures Defaults["overlay"] == JString(FallbackOverlay)
    ensures forall f :: f in FontFields ==> f in Defaults && InList(Defaults[f], AvailableFonts)
  {
  }

  /**
   * The theme the handler returns for a decoded object, or the exception it
   * meets: an `overlay` that is a list or a dict cannot be looked up in the
   * set of overlays, and Python raises `TypeError: unhashable type`.
   */
  function NormalStyle(style: Object): (r: Result<Object>)
    ensures r.Err? <==> "overlay" in style && !Hashable(style["overlay"])
    ensures r.Err? ==> r.fault == Raised("unhashable type: '" + TypeName(style["overlay"]) + "'")
    ensures r.Ok? ==> WellFormedTheme(r.value) && r.value.Keys == style.Keys + Defaults.Keys
  {
    DefaultsFacts();
    var filled := WithDefaults(style, Defaults);
    var overlay := filled["overlay"];
    if !Hashable(overlay) then
      Err(Raised("unhashable type: '" + TypeName(overlay) + "'"))
    else
      var clamped := if InSet(overlay, ValidOverlays) then filled else filled["overlay" := JString(FallbackOverlay)];
      Ok(FontsClamped(clamped))
  }

  /**
   * Normalisation keeps every field it does not clamp, fills every missing
   * one with its default, keeps an overlay or a font that is already
   * allowed and replaces any other by the fallback.
   */
  lemma NormalStyleFields(style: Object)
    requires NormalStyle(style).Ok?
    ensures var theme := NormalStyle(style).value;
      && (forall k :: k in style && k != "overlay" && k !in FontFields ==> theme[k] == style[k])
      && (forall k :: k in Defaults && k !in style ==> theme[k] == Defaults[k])
      && ("overlay" in style ==>
            theme["overlay"] == if InSet(style["overlay"], ValidOverlays) then style["overlay"] else JString(FallbackOverlay))
      && (forall f :: f in FontFields && f in style ==>
            theme[f] == if InList(style[f], AvailableFonts) then style[f] else JString(FallbackFont))
  {
    DefaultsFacts();
  }

  /** `FallbackFont` is itself one of the available fonts. */
  lemma FallbackFontIsAvailable()
    ensures FallbackFont in AvailableFonts
  {
  }

  /** Normalising a normalised theme changes nothing. */
  lemma NormalStyleIdempotent(style: Object)
    requires NormalStyle(style).Ok?
    ensures NormalStyle(NormalStyle(style).value) == NormalStyle(style)
  {
    var theme := NormalStyle(style).value;
    WellFormedThemeIsFixed(theme);
  }

  /** A well-formed theme is its own normalisation. */
  lemma WellFormedThemeIsFixed(theme: Object)
    requires WellFormedTheme(theme)
    ensures NormalStyle(theme) == Ok(theme)
  {
    assert WithDefaults(theme, Defaults) == theme;
    var overlay := theme["overlay"];
    assert Hashable(overlay) && InSet(overlay, ValidOverlays);
    assert FontsClamped(theme) == theme;
  }

  /**
   * The fill loop: `for field, default in REQUIRED_FIELDS.items(): if field
   * not in style: style[field] = default`, where `order` lists the keys of
   * the table `defaults` in iteration order.
   */
  method FillDefaults(style: Object, order: seq<string>, defaults: Object) returns (filled: Object)
    requires forall k :: k in order <==> k in defaults
    ensures filled == WithDefaults(style, defaults)
    ensures defaults.Keys <= filled.Keys
    ensures forall k :: k in style ==> k in filled && filled[k] == style[k]
  {
    filled := style;
    for i := 0 to |order|
      invariant forall k :: k in filled <==> k in style || k in order[..i]
      invariant forall k :: k in filled ==> filled[k] == if k in style then style[k] else defaults[k]
    {
      var field := order[i];
      assert order[..i + 1] == order[..i] + [field];
      if field !in filled {
        filled := filled[field := defaults[field]];
      }
    }
    assert order[..|order|] == order;
  }

  /** The font loop: `if style.get(ff) not in AVAILABLE_FONTS: style[ff] = "Familjen Grotesk"`. */
  method ClampFonts(style: Object) returns (clamped: Object)
    ensures clamped == FontsClamped(style)
  {
    clamped := style;
    for i := 0 to |FontFields|
      invariant forall k :: k in clamped <==> k in style || k in FontFields[..i]
      invariant forall k :: k in clamped ==>
        clamped[k] == if k in FontFields[..i] && !(k in style && InList(style[k], AvailableFonts)) then JString(FallbackFont) else style[k]
    {
      var ff := FontFields[i];
      assert FontFields[..i + 1] == FontFields[..i] + [ff];
      if !(ff in clamped && InList(clamped[ff], AvailableFonts)) {
        clamped := clamped[ff := JString(FallbackFont)];
      }
    }
    assert FontFields[..|FontFields|] == FontFields;
  }

  /** Lines 153-164 of `api_design`: defaults, then the overlay clamp, then the font clamp. */
  method NormalizeStyle(style: Object) returns (r: Result<Object>)
    ensures r == NormalStyle(style)
  {
    DefaultsFacts();
    var filled := FillDefaults(style, RequiredFields, Defaults);
    var overlay := filled["overlay"];
    if !Hashable(overlay) {
      return Err(Raised("unhashable type: '" + TypeName(overlay) + "'"));
    }
    if !InSet(overlay, ValidOverlays) {
      filled := filled["overlay" := JString(FallbackOverlay)];
    }
    var clamped := ClampFonts(filled);
    return Ok(clamped);
  }
}
