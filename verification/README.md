# xterm.js options service in Dafny

This project models the options service of xterm.js
(`src/common/services/OptionsService.ts`) and proves properties about it:

- the table of default terminal options;
- the per-key sanitize-and-validate rule applied to every value that enters
  the service;
- the constructor, which seeds the options from the defaults and the caller's
  overrides;
- the per-option getter and setter, which reject unknown names, sanitize
  every write and fire a change event only when the stored value changes.

Modules, in dependency order:

- `Results` (`results.dfy`): `Option` and `Result`.
- `JsValues` (`js_values.dfy`): the JavaScript value semantics the sanitizer
  relies on. This covers truthiness, strict equality (`===`), the ToNumber
  coercion applied by `<`, `<=`, `*` and `Math.*`, and `Math.floor`,
  `Math.round`, `Math.min` and `Math.max`. Numbers are exact reals plus NaN.
- `DefaultOptions` (`default_options.dfy`): `DEFAULT_OPTIONS` as a
  `map<string, Value>` whose key set is the set of recognised options, and
  `FONT_WEIGHT_OPTIONS`.
- `Sanitizer` (`sanitizer.dfy`): `_sanitizeAndValidateOption`, written out as
  the `switch` it is. The case labels form an ordered list, and the first
  label naming the key selects the entry block. Blocks are numbered. Running
  from a block continues into the next one unless the block breaks or throws,
  so the two fall-throughs are modelled explicitly: `cursorWidth` into the
  `lineHeight` check, and the sensitivities into the `rows`/`cols` check.
- `SanitizerProperties` (`sanitizer_properties.dfy`): what each option's rule
  does, in that option's own terms. Also idempotence of sanitizing and some
  worked values.
- `OptionsService` (`options_service.dfy`): the service state is a `Store`
  with two parts. `raw` is the single value store behind both `rawOptions`
  and the accessor view. `events` is the ordered log of fired change events.
  The module also defines the constructor (as a function, and as the loop the
  source writes), `Get`, `Set` and the invariant `Valid`.
- `OptionsServiceProperties` (`options_service_properties.dfy`): properties
  that relate several calls.

Some observations follow from the proofs:

- The second `case 'cursorStyle':` label (line 123) can never be reached.
  A `switch` enters at the first matching label, so `cursorStyle` always
  takes the block at lines 115-122 (`ShadowedCursorStyleLabel`).
- The sensitivity check has no `break`, so it falls through into the
  `rows`/`cols` check. This changes the outcome for exactly two inputs,
  `undefined` and `NaN`, which are then rejected as not numeric
  (`SensitivityFallThroughEffect`).
- A write compares with `!==`, and `NaN !== NaN`. So every write of a value
  that sanitizes to NaN fires a change event, even when NaN is already
  stored (`NaNWriteFiresEveryTime`, `RepeatedWrite`).
  `lineHeight` is one option whose rule lets NaN through.

## Model

| member | source | states |
|---|---|---|
| JsValues.StrictEqualsIsEqualityButNaN | src/common/services/OptionsService.ts:98 | `===`, as the setter uses it, holds exactly when the two values are identical and are not NaN |
| JsValues.FalsyValues | src/common/services/OptionsService.ts:162 | `!value` holds exactly for 0, NaN, the empty string, false, null and undefined |
| Sanitizer.Block | src/common/services/OptionsService.ts:114-165 | each case body ends in a break, a throw or a fall-through into the next body, and only the cursorWidth and sensitivity bodies, which lack a `break`, can fall through |
| Sanitizer.LabelIndex | src/common/services/OptionsService.ts:114-166 | the switch enters at the first label carrying the key: that label matches, and no earlier one does |
| Sanitizer.RunFrom | src/common/services/OptionsService.ts:113-168 | every error thrown while running the switch from any block is a validation error naming the key being sanitized |
| Sanitizer.Sanitize | src/common/services/OptionsService.ts:113-168 | a key without a case label is returned unchanged; every error raised names the key |
| SanitizerProperties.EntersAt | src/common/services/OptionsService.ts:114-166 | when p is the first label with the key's name, sanitizing that key is running the switch from that label's block, for every value |
| SanitizerProperties.ShadowedCursorStyleLabel | src/common/services/OptionsService.ts:115-124 | the second 'cursorStyle' label is entered for no key, and every other label is entered for its own name |
| SanitizerProperties.UnlabelledKeysPassThrough | src/common/services/OptionsService.ts:113-168 | an option without a case is stored exactly as given |
| SanitizerProperties.SwitchKeysAreOptions | src/common/services/OptionsService.ts:11-50 | a key enters the switch exactly when some case label carries its name, and every such key is a recognised option |
| SanitizerProperties.CursorStyleRule | src/common/services/OptionsService.ts:115-122 | for cursorStyle, a falsy value gives 'block' and a truthy non-style is rejected; every accepted result is one of 'block', 'underline', 'bar' |
| SanitizerProperties.CursorStylesAreTruthyStrings | src/common/services/OptionsService.ts:171-173 | `isCursorStyle` holds only of truthy strings, so the falsy-to-default replacement before it never discards a style; the cursorStyle default passes it |
| SanitizerProperties.WordSeparatorRule | src/common/services/OptionsService.ts:123-128 | for wordSeparator, a falsy value gives the default separator string and a truthy value is kept |
| SanitizerProperties.FontWeightRule | src/common/services/OptionsService.ts:129-136 | fontWeight and fontWeightBold never raise: the result is the value if it is a valid weight, else 'normal' or 'bold'; the result is always a valid weight |
| SanitizerProperties.FontWeightDefaults | src/common/services/OptionsService.ts:52 | the defaults of fontWeight and fontWeightBold are themselves named weights |
| SanitizerProperties.CursorWidthRule | src/common/services/OptionsService.ts:137-145 | for cursorWidth, NaN passes unchanged, a floor below 1 is rejected with the floored value, otherwise the result is the floor; every accepted number is an integer of at least 1 |
| SanitizerProperties.AtLeastOneRule | src/common/services/OptionsService.ts:140-145 | lineHeight and tabStopWidth reject exactly the values whose coerced number is below 1 and keep every other value as given |
| SanitizerProperties.ContrastRatioOfFinite | src/common/services/OptionsService.ts:147 | for a finite input the ratio lies in [1, 21] with one decimal; it is 1 for inputs up to 1, 21 for inputs from 21, and within 0.05 of the input in between |
| SanitizerProperties.ContrastRatioRule | src/common/services/OptionsService.ts:146-148 | minimumContrastRatio never raises; NaN stays NaN and every number lands in [1, 21] as above |
| SanitizerProperties.ScrollbackRule | src/common/services/OptionsService.ts:149-154 | scrollback rejects negatives with their coerced number, keeps numbers in range, clamps larger ones to 4294967295, and lets NaN through |
| SanitizerProperties.SensitivityRule | src/common/services/OptionsService.ts:155-165 | the two sensitivities reject numbers at most 0 as not positive, then, through the fall-through, falsy survivors as not numeric; anything else is kept |
| SanitizerProperties.SensitivityFallThroughEffect | src/common/services/OptionsService.ts:155-165 | compared with the sensitivity check alone, the fall-through changes the outcome exactly for undefined and NaN |
| SanitizerProperties.DimensionRule | src/common/services/OptionsService.ts:160-165 | rows and cols keep every truthy value and the number 0, and reject every other falsy value as not numeric |
| SanitizerProperties.RunFromIdempotent | src/common/services/OptionsService.ts:113-168 | running the switch from any block on a value it has already produced returns that value again |
| SanitizerProperties.FloorIdempotent | src/common/services/OptionsService.ts:137-145 | re-sanitizing a cursorWidth result gives it back |
| SanitizerProperties.ContrastRatioIdempotent | src/common/services/OptionsService.ts:147 | the contrast-ratio formula applied to its own result gives that result back |
| SanitizerProperties.ContrastRatioIsNearestTenth | src/common/services/OptionsService.ts:147 | for an input in [1, 21], the stored ratio is the tenth nearest the input, halves rounding up |
| SanitizerProperties.ContrastRatioNearHalfExamples | src/common/services/OptionsService.ts:147 | 1.15 is stored as 1.2, and the exact value of the binary64 double nearest 1.15, which lies just below it, as 1.1 |
| SanitizerProperties.ScrollbackIdempotent | src/common/services/OptionsService.ts:149-154 | re-sanitizing a scrollback result gives it back |
| SanitizerProperties.SanitizeIdempotent | src/common/services/OptionsService.ts:113-168 | for every key, sanitizing an accepted result again accepts it unchanged, so a stored value survives being written back |
| SanitizerProperties.ScrollbackExamples | src/common/services/OptionsService.ts:149-154 | 5e9 is clamped to 4294967295, and -1 is rejected as less than 0 |
| SanitizerProperties.ContrastRatioExamples | src/common/services/OptionsService.ts:146-148 | 25 becomes 21 and 0 becomes 1 |
| SanitizerProperties.CursorWidthFloorsExample | src/common/services/OptionsService.ts:137-145 | a cursorWidth of 2.9 is stored as 2 |
| SanitizerProperties.CursorWidthRejectsExample | src/common/services/OptionsService.ts:137-145 | a cursorWidth of 0.9 is rejected, and the error reports the floored 0 |
| SanitizerProperties.WordSeparatorExample | src/common/services/OptionsService.ts:123-128 | an empty word separator is replaced by the default separators |
| SanitizerProperties.ColsZeroExample | src/common/services/OptionsService.ts:160-165 | cols = 0 is accepted |
| SanitizerProperties.ColsUndefinedExample | src/common/services/OptionsService.ts:160-165 | cols = undefined is rejected as not numeric |
| OptionsService.Construct | src/common/services/OptionsService.ts:63-81 | construction never fails and fires nothing. An option without an override gets its default; one with an override gets the sanitized override, or the default if sanitizing throws. The result satisfies the service invariant |
| OptionsService.ConstructByOverrides | src/common/services/OptionsService.ts:63-75 | the loop over the overrides (copy the defaults, skip unknown keys, catch sanitize errors) builds the same store as Construct |
| OptionsService.InitialValuesAreSanitized | src/common/services/OptionsService.ts:66-75 | every value construction settles on is already sanitized |
| OptionsService.DefaultIsSanitized | src/common/services/OptionsService.ts:11-50 | every entry of the default table passes its own option's rule unchanged |
| OptionsService.SwitchDefaultsAreSanitized | src/common/services/OptionsService.ts:11-50 | the defaults of the thirteen labelled options pass their rules unchanged |
| OptionsService.Get | src/common/services/OptionsService.ts:84-89 | reading fails exactly for a name outside the default table, with that name; a successful read returns the value stored under that name, which is always a sanitized one |
| OptionsService.Set | src/common/services/OptionsService.ts:91-101 | an unknown name or a value its rule rejects throws, and the state is unchanged. Otherwise the sanitized value is stored under that name only. A change event naming the key is appended exactly when the old value is not strictly equal to the new one. The invariant is preserved |
| OptionsService.CommitKeepsValid | src/common/services/OptionsService.ts:98-100 | storing a sanitized value under a known key and logging its event keeps the service invariant |
| OptionsServiceProperties.ConstructWithoutOverrides | src/common/services/OptionsService.ts:65 | without overrides the store is exactly the default table and no event has fired |
| OptionsServiceProperties.ConstructIgnoresUnknownKeys | src/common/services/OptionsService.ts:66-67 | adding an override for a name that is not an option changes nothing about the constructed service |
| OptionsServiceProperties.GetAfterConstructWithoutOverrides | src/common/services/OptionsService.ts:65-89 | reading any option of a service constructed without overrides returns its default; any other name is an unknown option |
| OptionsServiceProperties.SetThenGet | src/common/services/OptionsService.ts:84-101 | after a write that does not throw, reading the option returns the sanitized written value |
| OptionsServiceProperties.RepeatedWrite | src/common/services/OptionsService.ts:91-101 | unless the value sanitizes to NaN, writing it a second time changes nothing and the two writes fire at most one event; with NaN the second write fires again |
| OptionsServiceProperties.NaNWriteFiresEveryTime | src/common/services/OptionsService.ts:98-101 | for an option whose rule accepts NaN, every write of NaN appends a change event, even when NaN is already stored |
| OptionsServiceProperties.LineHeightAcceptsNaN | src/common/services/OptionsService.ts:140-145 | lineHeight is such an option: NaN passes its bound check |

## Left out

- Event subscribers and delivery are not modelled. `EventEmitter` and `onOptionChange` become an ordered log of fired keys in the state.
- `console.error` in the constructor is not modelled. The error it logs is dropped, and the default is kept.
- `isMac` is platform detection, which is outside the model. It is fixed to `false`, so the default of `rightClickSelectsWord` is `false`.
- The accessor view is not modelled separately. `options` is built with `Object.defineProperty` and bound getters and setters (lines 104-110), and `Get` and `Set` model those accessors directly. Through `options`, a name outside the table has no accessor at all: reading it gives `undefined`, and assigning it adds a plain property with no error and no event. That plain-property behaviour is not modelled. The getter and setter closures are locals of the private `_setupOptions` (lines 84 and 91) and are bound only to names of `rawOptions`, all of which are in the default table, so the "No option with key" throw at lines 85-86 and 92-93 cannot be reached through the service. `Get` and `Set` model the closures' own check, which is why they can return `UnknownOption`.
- Numbers are exact reals plus NaN. IEEE-754 rounding, the infinities and negative zero are left out. Where binary64 rounding matters the model can differ from JavaScript. The binary64 value nearest 1.15 is 1.1499999999999999111…. Given that value, the model stores 1.1 (`ContrastRatioNearHalfExamples`). JavaScript's `1.15 * 10` is a tie that rounds to exactly 11.5, so `Math.round` gives 12 and JavaScript stores 1.2.
- ContrastRatioRule: "halves round up" and the window (x - 0.05, x + 0.05] hold in exact arithmetic only. With binary64 inputs, a value just below a half, such as the double nearest 1.15, can round up, so the window can be missed by one unit in the last place.
- `ToNumber` on strings handles only optionally signed decimal literals with surrounding white space. Exponents, hexadecimal, binary (`0b…`) and octal (`0o…`) literals, `Infinity` and some Unicode space characters give NaN here, while JavaScript reads them as numbers. Arrays, and objects with a custom `valueOf` or `toString`, also coerce to NaN.
- BigInt and Symbol values are outside the model: `Value` has no such kinds. For them the source throws TypeErrors that do not name the key, and these are not modelled: `Math.floor` on a BigInt cursorWidth (line 138), `1n * 10` for minimumContrastRatio (line 147), `Math.min` on a BigInt scrollback (line 150), `value < 1` on a Symbol lineHeight (line 142), and the template literal on a Symbol cursorStyle (line 120). Nor is a BigInt such as `5n` being accepted by the lineHeight check. So "every error names the key" holds only for the modelled kinds of value.
- `theme`, `windowOptions` and function-valued options such as `linkHandler` are opaque references. Their inner structure is not modelled.
- `key in defaultOptions` in the source is also true for names inherited from `Object.prototype`, such as `toString`. The model treats only the table's own keys as options.
- Types declared in `common/services/Services` and `common/Types` (`ITerminalOptions`, `FontWeight`, `CursorStyle`) are not part of this model. TypeScript types do not restrict runtime values, so any value of the modelled kinds is accepted as input.
