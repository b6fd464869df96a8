/** The parameters the preview-image endpoint `GET /api/og` chooses from its
    query string (src/app/api/og/route.tsx): title, subtitle and type with
    their fallbacks, the colour pair for the type, the title's font size and
    the fixed image size. The drawing itself is done by an external renderer. */
module OgImage {
  import opened Wrappers

  const BrandColor: string := "#00A5E0"
  const BrandDark: string := "#0086B8"
  const ImageWidth: int := 1200
  const ImageHeight: int := 630
  const DefaultTitle: string := "Welly"
  const DefaultSubtitle: string := "Discover Wellington"
  const DefaultType: string := "post"

  datatype ColorPair = ColorPair(bg: string, accent: string)

  const TypeColors: map<string, ColorPair> := map[
    "post" := ColorPair("#FAFAFA", BrandColor),
    "event" := ColorPair("#FFF7ED", "#E85D04"),
    "place" := ColorPair("#F0FDF4", "#2D6A4F"),
    "user" := ColorPair("#EFF6FF", "#0077B6")]

  /** `searchParams.get(name) || fallback`: a missing parameter (null) and an
      empty one both give the fallback. */
  function QueryOr(value: Option<string>, fallback: string): (r: string)
    ensures (value.None? || value == Some("")) ==> r == fallback
    ensures value.Some? && value.value != "" ==> r == value.value
    ensures fallback != "" ==> r != ""
  {
    if value.Some? && value.value != "" then value.value else fallback
  }

  /** Two tiers: titles longer than 60 characters are set smaller. */
  function TitleFontSize(title: string): (size: int)
    ensures size == 36 || size == 48
    ensures size == 36 <==> |title| > 60
  {
    if |title| > 60 then 36 else 48
  }

  // ---------------------------------------------------------------------------
  // Property lookup on a JavaScript object literal. `TYPE_COLORS[type]` finds
  // the table's own entries, and also the members every object inherits from
  // Object.prototype; only other names are undefined.

  /** The property names an object literal inherits from Object.prototype. */
  const ObjectPrototypeNames: set<string> := {
    "constructor", "__proto__", "hasOwnProperty", "isPrototypeOf",
    "propertyIsEnumerable", "toString", "toLocaleString", "valueOf",
    "__defineGetter__", "__defineSetter__", "__lookupGetter__", "__lookupSetter__"}

  datatype PropertyValue<V> = Own(value: V) | Inherited(name: string) | Undefined

  /** `record[key]` on an object literal whose own entries are `record`. */
  function GetProperty<V>(record: map<string, V>, key: string): (r: PropertyValue<V>)
    ensures r.Own? <==> key in record
    ensures r.Own? ==> r.value == record[key]
    ensures r.Undefined? <==> key !in record && key !in ObjectPrototypeNames
  {
    if key in record then Own(record[key])
    else if key in ObjectPrototypeNames then Inherited(key)
    else Undefined
  }

  /** The `bg` and `accent` the image is drawn with; None is `undefined`. */
  datatype DrawnColors = DrawnColors(bg: Option<string>, accent: Option<string>)

  /** An own colour pair read as `bg` and `accent`; lets ColorsAsWritten and Colors be compared. */
  function Drawn(c: ColorPair): DrawnColors { DrawnColors(Some(c.bg), Some(c.accent)) }

  /** `TYPE_COLORS[type] ?? TYPE_COLORS.post` as written. `??` replaces only
      undefined, so an inherited member is kept, and reading `bg` and `accent`
      from it gives undefined. */
  function ColorsAsWritten(kind: string): (c: DrawnColors)
    ensures kind in TypeColors ==> c == Drawn(TypeColors[kind])
    ensures kind !in TypeColors && kind !in ObjectPrototypeNames ==> c == Drawn(TypeColors[DefaultType])
    ensures kind !in TypeColors && kind in ObjectPrototypeNames ==> c == DrawnColors(None, None)
  {
    match GetProperty(TypeColors, kind)
    case Own(pair) => Drawn(pair)
    case Inherited(_) => DrawnColors(None, None)
    case Undefined => Drawn(TypeColors[DefaultType])
  }

  /** `?type=constructor` gets no colours at all instead of the post colours. */
  lemma InheritedNameDefeatsFallback()
    ensures ColorsAsWritten("constructor") == DrawnColors(None, None)
    ensures ColorsAsWritten("constructor") != Drawn(TypeColors[DefaultType])
  {
  }

  /** The colour pair for a type: its own entry, otherwise the post pair. It agrees
      with the lookup as written on every type that is not an inherited name. */
  function Colors(kind: string): (c: ColorPair)
    ensures c in TypeColors.Values
    ensures kind in TypeColors ==> c == TypeColors[kind]
    ensures kind !in TypeColors ==> c == TypeColors[DefaultType]
    ensures kind !in ObjectPrototypeNames ==> Drawn(c) == ColorsAsWritten(kind)
  {
    if kind in TypeColors then TypeColors[kind] else TypeColors[DefaultType]
  }

  /** Everything the endpoint chooses before drawing. */
  datatype PreviewParams = PreviewParams(
    title: string,
    subtitle: string,
    kind: string,
    colors: ColorPair,
    titleFontSize: int,
    showSubtitle: bool,
    width: int,
    height: int)

  /** The choices made from the `title`, `subtitle` and `type` query values
      (None when a parameter is missing). A function of the three values only. */
  function SelectPreview(title: Option<string>, subtitle: Option<string>, kind: Option<string>): (p: PreviewParams)
    ensures p.width == 1200 && p.height == 630
    ensures p.title != "" && p.subtitle != "" && p.kind != ""
    ensures p.showSubtitle
    ensures p.titleFontSize == (if |p.title| > 60 then 36 else 48)
    ensures p.colors == Colors(p.kind)
  {
    var t := QueryOr(title, DefaultTitle);
    var s := QueryOr(subtitle, DefaultSubtitle);
    var k := QueryOr(kind, DefaultType);
    PreviewParams(t, s, k, Colors(k), TitleFontSize(t), s != "", ImageWidth, ImageHeight)
  }

  /** Missing or empty parameters fall back to "Welly", "Discover Wellington" and "post". */
  lemma Defaults(title: Option<string>, subtitle: Option<string>, kind: Option<string>)
    ensures var p := SelectPreview(title, subtitle, kind);
      && ((title.None? || title == Some("")) ==> p.title == "Welly")
      && ((subtitle.None? || subtitle == Some("")) ==> p.subtitle == "Discover Wellington")
      && ((kind.None? || kind == Some("")) ==> p.kind == "post" && p.colors == TypeColors["post"])
      && (title.Some? && title.value != "" ==> p.title == title.value)
      && (subtitle.Some? && subtitle.value != "" ==> p.subtitle == subtitle.value)
      && (kind.Some? && kind.value != "" ==> p.kind == kind.value && p.colors == Colors(kind.value))
  {
  }

  /** A type without its own entry is drawn in the post colours; known types in their own. */
  lemma TypeColorsChosen(title: Option<string>, subtitle: Option<string>, kind: string)
    requires kind != ""
    ensures var p := SelectPreview(title, subtitle, Some(kind));
      && (kind in TypeColors ==> p.colors == TypeColors[kind])
      && (kind !in TypeColors ==> p.colors == ColorPair("#FAFAFA", "#00A5E0"))
  {
  }

  /** The font-size threshold: 60 characters still get 48, 61 get 36. */
  lemma FontSizeBoundary(title: string)
    ensures |title| == 60 ==> SelectPreview(Some(title), None, None).titleFontSize == 48
    ensures |title| == 61 ==> SelectPreview(Some(title), None, None).titleFontSize == 36
  {
  }
}
