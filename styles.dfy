/**
 * The palette table `bubbleStyles` of src/QuoteMaking/Styles/index.ts:
 * eight named palettes over the same seven colour keys. Colours are opaque
 * strings here.
 */
module Styles {

  /** The seven colour keys of a palette. */
  datatype ColorKey =
    | BubbleColor | TextColor | QuotedBarColor | QuotedHeaderColor
    | QuotedTextColor | TimeColor | AuthorColor

  /** The key as it is spelled in a palette object and in a request. */
  function KeyName(k: ColorKey): string {
    match k
    case BubbleColor => "bubbleColor"
    case TextColor => "textColor"
    case QuotedBarColor => "quotedBarColor"
    case QuotedHeaderColor => "quotedHeaderColor"
    case QuotedTextColor => "quotedTextColor"
    case TimeColor => "timeColor"
    case AuthorColor => "authorColor"
  }

  /** The names of the seven keys. */
  const ColorKeyNames: set<string> := {
    "bubbleColor", "textColor", "quotedBarColor", "quotedHeaderColor",
    "quotedTextColor", "timeColor", "authorColor"}

  /** Every key has its own name, and the names are exactly `ColorKeyNames`. */
  lemma KeyNamesDistinct(k1: ColorKey, k2: ColorKey)
    ensures KeyName(k1) in ColorKeyNames
    ensures KeyName(k1) == KeyName(k2) ==> k1 == k2
  {
  }

  /** The key spelled `name`, if `name` is one of the seven. */
  function KeyNamed(name: string): (k: ColorKey)
    requires name in ColorKeyNames
    ensures KeyName(k) == name
  {
    if name == "bubbleColor" then BubbleColor
    else if name == "textColor" then TextColor
    else if name == "quotedBarColor" then QuotedBarColor
    else if name == "quotedHeaderColor" then QuotedHeaderColor
    else if name == "quotedTextColor" then QuotedTextColor
    else if name == "timeColor" then TimeColor
    else AuthorColor
  }

  /** A palette: one colour per key. */
  datatype Palette = Palette(
    bubbleColor: string, textColor: string, quotedBarColor: string, quotedHeaderColor: string,
    quotedTextColor: string, timeColor: string, authorColor: string)
  {
    /** `palette[key]`. */
    function Color(k: ColorKey): string {
      match k
      case BubbleColor => bubbleColor
      case TextColor => textColor
      case QuotedBarColor => quotedBarColor
      case QuotedHeaderColor => quotedHeaderColor
      case QuotedTextColor => quotedTextColor
      case TimeColor => timeColor
      case AuthorColor => authorColor
    }
  }

  /** The palette used when no known style is asked for. */
  const FallbackStyle: string := "whatsappDark"

  const BubbleStyles: map<string, Palette> := map[
    "whatsappDark" := Palette("#111317", "#ffffff", "#22c55e", "#22c55e", "#d1d5db", "#9ca3af", "#128c7t"),
    "whatsappLight" := Palette("#ffffff", "#111827", "#22c55e", "#16a34a", "#374151", "#6b7280", "#128c7t"),
    "telegramDark" := Palette("#17212b", "#e5e7eb", "#2a9df4", "#38bdf8", "#cbd5e1", "#94a3b8", "#f9fafb"),
    "telegramLight" := Palette("#ffffff", "#111827", "#2a9df4", "#0284c7", "#374151", "#6b7280", "#1d4ed8"),
    "iMessageDark" := Palette("#0a84ff", "#ffffff", "#60a5fa", "#bfdbfe", "#e0f2fe", "#f1f5f9", "#ffffff"),
    "iMessageLight" := Palette("#e5e5ea", "#000000", "#2563eb", "#1d4ed8", "#374151", "#6b7280", "#111827"),
    "businessDark" := Palette("#1f2937", "#f9fafb", "#facc15", "#fde047", "#e5e7eb", "#d1d5db", "#fbbf24"),
    "businessLight" := Palette("#f9fafb", "#111827", "#f59e0b", "#b45309", "#374151", "#6b7280", "#b45309")
  ]

  /** The fallback palette is in the table. */
  lemma FallbackInTable()
    ensures FallbackStyle in BubbleStyles
    ensures BubbleStyles[FallbackStyle].authorColor == "#128c7t"
  {
  }
}
