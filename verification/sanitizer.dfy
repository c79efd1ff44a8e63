/** The per-key sanitize-and-validate rule of the options service, modelled
    as the `switch` statement it is written as: an ordered list of case labels
    (the first label matching the key selects where execution enters), a
    sequence of numbered blocks, and execution that runs from the entry block
    onwards until a block breaks or throws. A block without `break` falls
    through into the next one. */
module Sanitizer {
  import opened Results
  import opened JsValues
  import opened DefaultOptions

  /** Which check a rejected value failed. */
  datatype Reason =
    | NotACursorStyle   // not 'block', 'underline' or 'bar'
    | LessThanOne       // cursorWidth (floored), lineHeight, tabStopWidth
    | LessThanZero      // scrollback
    | NotPositive       // fastScrollSensitivity, scrollSensitivity
    | NotNumeric        // rows, cols, and the sensitivities after fall-through

  /** The errors the service raises. A validation error carries the key and
      the offending value as it stood when the check failed. */
  datatype OptionError =
    | UnknownOption(name: string)
    | InvalidValue(key: string, value: Value, reason: Reason)

  /** The upper bound that `scrollback` is clamped to (2^32 - 1). */
  const ScrollbackLimit: real := 4294967295.0

  /** A `case` label: the key it matches and the block execution enters at. */
  datatype Label = Label(name: string, entry: nat)

  /** The labels in source order. The second 'cursorStyle' label shares the
      block of 'wordSeparator' but is shadowed by the first one. */
  const SwitchLabels: seq<Label> := [
    Label("cursorStyle", 0),
    Label("cursorStyle", 1),
    Label("wordSeparator", 1),
    Label("fontWeight", 2),
    Label("fontWeightBold", 2),
    Label("cursorWidth", 3),
    Label("lineHeight", 4),
    Label("tabStopWidth", 4),
    Label("minimumContrastRatio", 5),
    Label("scrollback", 6),
    Label("fastScrollSensitivity", 7),
    Label("scrollSensitivity", 7),
    Label("rows", 8),
    Label("cols", 8)
  ]

  const BlockCount: nat := 9

  /** How one block of the switch ends. */
  datatype Step = Break(value: Value) | FallThrough(value: Value) | Throw(error: OptionError)

  /** `isCursorStyle`: one of the three style names. */
  predicate IsCursorStyle(v: Value)
  {
    v == Str("block") || v == Str("underline") || v == Str("bar")
  }

  /** `FONT_WEIGHT_OPTIONS.includes(v)`: only strings can match. */
  predicate IsNamedFontWeight(v: Value)
  {
    v.Str? && v.s in FontWeightOptions
  }

  /** `typeof v === 'number' && 1 <= v && v <= 1000`. */
  predicate IsNumericFontWeight(v: Value)
  {
    v.Number? && v.n.Fin? && 1.0 <= v.n.r <= 1000.0
  }

  /** `Math.max(1, Math.min(21, Math.round(v * 10) / 10))`. */
  function ContrastRatio(v: Value): Num
  {
    Max(Fin(1.0), Min(Fin(21.0), Scale(Round(Scale(ToNumber(v), 10.0)), 0.1)))
  }

  /** One block of the switch, run on the current `value`. Only the
      cursorWidth block (3) and the sensitivity block (7) lack a `break`, so
      only they can fall through. */
  function Block(b: nat, key: string, v: Value): (r: Step)
    ensures r.FallThrough? ==> b == 3 || b == 7
  {
    if b == 0 then
      // cursorStyle: a falsy value becomes the default, then must be a style
      var w := if !Truthy(v) then DefaultOf(key) else v;
      if !IsCursorStyle(w) then Throw(InvalidValue(key, w, NotACursorStyle)) else Break(w)
    else if b == 1 then
      // wordSeparator: a falsy value becomes the default
      Break(if !Truthy(v) then DefaultOf(key) else v)
    else if b == 2 then
      // fontWeight, fontWeightBold
      if IsNumericFontWeight(v) then Break(v)
      else Break(if IsNamedFontWeight(v) then v else DefaultOf(key))
    else if b == 3 then
      // cursorWidth: floor, then fall through to the bounds check
      FallThrough(Number(Floor(ToNumber(v))))
    else if b == 4 then
      // lineHeight, tabStopWidth
      if Less(ToNumber(v), 1.0) then Throw(InvalidValue(key, v, LessThanOne)) else Break(v)
    else if b == 5 then
      // minimumContrastRatio
      Break(Number(ContrastRatio(v)))
    else if b == 6 then
      // scrollback: clamp above, then reject negatives
      var c := Min(ToNumber(v), Fin(ScrollbackLimit));
      if Less(c, 0.0) then Throw(InvalidValue(key, Number(c), LessThanZero)) else Break(Number(c))
    else if b == 7 then
      // fastScrollSensitivity, scrollSensitivity: no break after the check
      if LessEq(ToNumber(v), 0.0) then Throw(InvalidValue(key, v, NotPositive)) else FallThrough(v)
    else if b == 8 then
      // rows, cols: falsy values other than the number 0 are rejected
      if !Truthy(v) && !StrictEquals(v, FromReal(0.0)) then Throw(InvalidValue(key, v, NotNumeric))
      else Break(v)
    else
      Break(v)
  }

  /** Executes the switch body from block `b` on; leaving the last block
      ends the switch with the current value. */
  function RunFrom(b: nat, key: string, v: Value): (r: Result<Value, OptionError>)
    ensures r.Failure? ==> r.error.InvalidValue? && r.error.key == key
    decreases BlockCount - b
  {
    if b >= BlockCount then Success(v)
    else match Block(b, key, v)
      case Break(w) => Success(w)
      case Throw(e) => Failure(e)
      case FallThrough(w) => RunFrom(b + 1, key, w)
  }

  /** The position of the first label named `key`, or |labels| if none is:
      a `switch` enters at the first matching case. */
  function LabelIndex(labels: seq<Label>, key: string): (i: nat)
    ensures i <= |labels|
    ensures i < |labels| ==> labels[i].name == key
    ensures forall j | 0 <= j < i :: labels[j].name != key
  {
    if labels == [] then 0
    else if labels[0].name == key then 0
    else 1 + LabelIndex(labels[1..], key)
  }

  /** The block a key enters the switch at, if any label matches it. */
  function EntryBlock(key: string): Option<nat>
  {
    var i := LabelIndex(SwitchLabels, key);
    if i < |SwitchLabels| then Some(SwitchLabels[i].entry) else None
  }

  /** `_sanitizeAndValidateOption(key, value)`: the normalised value, or the
      validation error it throws. Keys without a case are passed through. */
  function Sanitize(key: string, v: Value): (r: Result<Value, OptionError>)
    ensures EntryBlock(key).None? ==> r == Success(v)
    ensures r.Failure? ==> r.error.InvalidValue? && r.error.key == key
  {
    match EntryBlock(key)
    case None => Success(v)
    case Some(b) => RunFrom(b, key, v)
  }
}
