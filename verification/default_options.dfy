/** The fixed default table of terminal options and the named font weights.
    The key set of `Defaults` is the set of recognised options. */
module DefaultOptions {
  import opened JsValues

  /** The platform flag that picks the default of `rightClickSelectsWord`;
      platform detection is outside the model, so it is fixed here. */
  const IsMac: bool := false

  const DefaultWordSeparator: string := " ()[]{}',\"`"

  /** References of the two default nested objects (`theme`, `windowOptions`). */
  const DefaultThemeRef: nat := 0
  const DefaultWindowOptionsRef: nat := 1

  const Defaults: map<string, Value> := map[
    "cols" := FromReal(80.0),
    "rows" := FromReal(24.0),
    "cursorBlink" := Bool(false),
    "cursorStyle" := Str("block"),
    "cursorWidth" := FromReal(1.0),
    "customGlyphs" := Bool(true),
    "drawBoldTextInBrightColors" := Bool(true),
    "fastScrollModifier" := Str("alt"),
    "fastScrollSensitivity" := FromReal(5.0),
    "fontFamily" := Str("courier-new, courier, monospace"),
    "fontSize" := FromReal(15.0),
    "fontWeight" := Str("normal"),
    "fontWeightBold" := Str("bold"),
    "lineHeight" := FromReal(1.0),
    "letterSpacing" := FromReal(0.0),
    "linkHandler" := Null,
    "logLevel" := Str("info"),
    "scrollback" := FromReal(1000.0),
    "scrollSensitivity" := FromReal(1.0),
    "screenReaderMode" := Bool(false),
    "smoothScrollDuration" := FromReal(0.0),
    "macOptionIsMeta" := Bool(false),
    "macOptionClickForcesSelection" := Bool(false),
    "minimumContrastRatio" := FromReal(1.0),
    "disableStdin" := Bool(false),
    "allowProposedApi" := Bool(false),
    "allowTransparency" := Bool(false),
    "tabStopWidth" := FromReal(8.0),
    "theme" := Obj(DefaultThemeRef),
    "rightClickSelectsWord" := Bool(IsMac),
    "windowOptions" := Obj(DefaultWindowOptionsRef),
    "windowsMode" := Bool(false),
    "wordSeparator" := Str(DefaultWordSeparator),
    "altClickMovesCursor" := Bool(true),
    "convertEol" := Bool(false),
    "termName" := Str("xterm"),
    "cancelEvents" := Bool(false),
    "overviewRulerWidth" := Undefined
  ]

  /** The named weights accepted for `fontWeight` and `fontWeightBold`. */
  const FontWeightOptions: seq<string> :=
    ["normal", "bold", "100", "200", "300", "400", "500", "600", "700", "800", "900"]

  /** `DEFAULT_OPTIONS[key]`: undefined for a key outside the table. */
  function DefaultOf(key: string): Value
  {
    if key in Defaults then Defaults[key] else Undefined
  }
}
