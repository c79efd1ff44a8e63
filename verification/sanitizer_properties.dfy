/** What each class of option the sanitizer knows about accepts, rewrites
    and rejects, stated independently of the switch's block structure, plus
    the facts about the switch itself: which label wins, which keys have no
    rule, and that sanitizing is idempotent. */
module SanitizerProperties {
  import opened Results
  import opened JsValues
  import opened DefaultOptions
  import opened Sanitizer

  // None of the lemmas below is proved by induction. Those marked
  // `{:induction false}` take a `Value` or a `string`, and for such a
  // parameter Dafny would otherwise add an induction hypothesis on its own;
  // the attribute keeps it from doing so, so each proof rests on the case
  // split written in its body.

  /** The keys that have a case label. */
  const SwitchKeys: set<string> := set i | 0 <= i < |SwitchLabels| :: SwitchLabels[i].name

  // ---------------------------------------------------------------------------
  // The switch

  /** A key enters the switch at the first label carrying its name. */
  lemma EntersAt(key: string, p: nat)
    requires p < |SwitchLabels| && SwitchLabels[p].name == key
    requires forall j | 0 <= j < p :: SwitchLabels[j].name != key
    ensures EntryBlock(key) == Some(SwitchLabels[p].entry)
    ensures forall v :: Sanitize(key, v) == RunFrom(SwitchLabels[p].entry, key, v)
  {
    assert LabelIndex(SwitchLabels, key) == p;
  }

  /** Only the first of the two 'cursorStyle' labels can ever be entered:
      a label is reachable exactly when no earlier label has its name. */
  lemma {:induction false} ShadowedCursorStyleLabel()
    ensures SwitchLabels[1].name == SwitchLabels[0].name
    ensures forall key :: LabelIndex(SwitchLabels, key) != 1
    ensures forall i | 0 <= i < |SwitchLabels| && i != 1 :: LabelIndex(SwitchLabels, SwitchLabels[i].name) == i
  {
    forall i | 0 <= i < |SwitchLabels| && i != 1
      ensures LabelIndex(SwitchLabels, SwitchLabels[i].name) == i
    {
      EntersAt(SwitchLabels[i].name, i);
    }
  }

  /** A key without a case label is returned unmodified. */
  lemma {:induction false} UnlabelledKeysPassThrough(key: string, v: Value)
    ensures key !in SwitchKeys ==> Sanitize(key, v) == Success(v)
  {
    SwitchKeysAreOptions();
  }

  /** The labelled keys are exactly the keys that enter the switch, and each
      of them is an option. */
  lemma {:induction false} SwitchKeysAreOptions()
    ensures forall key :: EntryBlock(key).Some? <==> key in SwitchKeys
    ensures SwitchKeys <= Defaults.Keys
  {
    forall key
      ensures EntryBlock(key).Some? <==> key in SwitchKeys
    {
      if key in SwitchKeys {
        var i :| 0 <= i < |SwitchLabels| && SwitchLabels[i].name == key;
        assert LabelIndex(SwitchLabels, key) <= i;
      }
    }
    forall key | key in SwitchKeys
      ensures key in Defaults
    {
      var i :| 0 <= i < |SwitchLabels| && SwitchLabels[i].name == key;
      assert i in {0, 1, 2, 3, 4, 5, 6, 7, 8, 9, 10, 11, 12, 13};
    }
  }

  // ---------------------------------------------------------------------------
  // What running the switch from each block does, for any key

  lemma {:induction false} CursorStyleBlock(key: string, v: Value)
    ensures var w := if Truthy(v) then v else DefaultOf(key);
            RunFrom(0, key, v) ==
              if IsCursorStyle(w) then Success(w) else Failure(InvalidValue(key, w, NotACursorStyle))
  {
  }

  lemma {:induction false} DefaultWhenFalsyBlock(key: string, v: Value)
    ensures RunFrom(1, key, v) == Success(if Truthy(v) then v else DefaultOf(key))
  {
  }

  lemma {:induction false} FontWeightBlock(key: string, v: Value)
    ensures RunFrom(2, key, v) ==
              Success(if IsNumericFontWeight(v) || IsNamedFontWeight(v) then v else DefaultOf(key))
  {
  }

  lemma {:induction false} AtLeastOneBlock(key: string, v: Value)
    ensures RunFrom(4, key, v) ==
              if Less(ToNumber(v), 1.0) then Failure(InvalidValue(key, v, LessThanOne)) else Success(v)
  {
  }

  lemma {:induction false} FloorThenAtLeastOneBlock(key: string, v: Value)
    ensures var f := Number(Floor(ToNumber(v)));
            RunFrom(3, key, v) ==
              if Less(ToNumber(f), 1.0) then Failure(InvalidValue(key, f, LessThanOne)) else Success(f)
  {
    var f := Number(Floor(ToNumber(v)));
    assert RunFrom(3, key, v) == RunFrom(4, key, f);
    AtLeastOneBlock(key, f);
  }

  lemma {:induction false} ContrastRatioBlock(key: string, v: Value)
    ensures RunFrom(5, key, v) == Success(Number(ContrastRatio(v)))
  {
  }

  lemma {:induction false} ScrollbackBlock(key: string, v: Value)
    ensures var c := Min(ToNumber(v), Fin(ScrollbackLimit));
            RunFrom(6, key, v) ==
              if Less(c, 0.0) then Failure(InvalidValue(key, Number(c), LessThanZero)) else Success(Number(c))
  {
  }

  lemma {:induction false} NumericBlock(key: string, v: Value)
    ensures RunFrom(8, key, v) ==
              if !Truthy(v) && !StrictEquals(v, FromReal(0.0)) then Failure(InvalidValue(key, v, NotNumeric))
              else Success(v)
  {
  }

  lemma {:induction false} PositiveThenNumericBlock(key: string, v: Value)
    ensures RunFrom(7, key, v) ==
              if LessEq(ToNumber(v), 0.0) then Failure(InvalidValue(key, v, NotPositive))
              else RunFrom(8, key, v)
  {
  }

  // ---------------------------------------------------------------------------
  // One lemma per class of option, in the option's own terms

  /** cursorStyle: a falsy value becomes 'block'; otherwise the value must be
      one of the three styles and is kept, or an error is raised. */
  lemma {:induction false} CursorStyleRule(v: Value)
    ensures !Truthy(v) ==> Sanitize("cursorStyle", v) == Success(Str("block"))
    ensures Truthy(v) && IsCursorStyle(v) ==> Sanitize("cursorStyle", v) == Success(v)
    ensures Truthy(v) && !IsCursorStyle(v) ==>
              Sanitize("cursorStyle", v) == Failure(InvalidValue("cursorStyle", v, NotACursorStyle))
    ensures Sanitize("cursorStyle", v).Success? ==>
              Sanitize("cursorStyle", v).value in {Str("block"), Str("underline"), Str("bar")}
  {
    EntersAt("cursorStyle", 0);
    assert DefaultOf("cursorStyle") == Str("block");
    CursorStyleBlock("cursorStyle", v);
  }

  /** Every cursor style is a truthy string, so the replacement of falsy
      values by the default never discards a style, and that default is
      itself a style, so a falsy value never fails the check. */
  lemma CursorStylesAreTruthyStrings(v: Value)
    ensures IsCursorStyle(v) ==> v.Str? && Truthy(v)
    ensures IsCursorStyle(DefaultOf("cursorStyle"))
  {
    assert DefaultOf("cursorStyle") == Str("block");
  }

  /** wordSeparator: a falsy value becomes the default separators; anything
      else is kept as it is. The rule never raises. */
  lemma {:induction false} WordSeparatorRule(v: Value)
    ensures !Truthy(v) ==> Sanitize("wordSeparator", v) == Success(Str(DefaultWordSeparator))
    ensures Truthy(v) ==> Sanitize("wordSeparator", v) == Success(v)
  {
    EntersAt("wordSeparator", 2);
    assert DefaultOf("wordSeparator") == Str(DefaultWordSeparator);
    DefaultWhenFalsyBlock("wordSeparator", v);
  }

  /** fontWeight and fontWeightBold never raise: a number in [1, 1000] or a
      named weight is kept, anything else becomes the key's default, so the
      result is always a valid weight. */
  lemma {:induction false} FontWeightRule(key: string, v: Value)
    requires key == "fontWeight" || key == "fontWeightBold"
    ensures var d := if key == "fontWeight" then Str("normal") else Str("bold");
            Sanitize(key, v) == Success(if IsNumericFontWeight(v) || IsNamedFontWeight(v) then v else d)
    ensures var r := Sanitize(key, v);
            r.Success? && (IsNumericFontWeight(r.value) || IsNamedFontWeight(r.value))
  {
    FontWeightDefaults();
    if key == "fontWeight" {
      EntersAt(key, 3);
    } else {
      EntersAt(key, 4);
    }
    FontWeightBlock(key, v);
  }

  lemma FontWeightDefaults()
    ensures DefaultOf("fontWeight") == Str("normal") && IsNamedFontWeight(Str("normal"))
    ensures DefaultOf("fontWeightBold") == Str("bold") && IsNamedFontWeight(Str("bold"))
  {
    assert FontWeightOptions[0] == "normal" && FontWeightOptions[1] == "bold";
  }

  /** cursorWidth is floored before the bound check: a coerced value whose
      floor is below 1 is rejected (reporting the floored value), otherwise the
      floor is the result; NaN passes the check unchanged. */
  lemma {:induction false} CursorWidthRule(v: Value)
    ensures ToNumber(v).NaN? ==> Sanitize("cursorWidth", v) == Success(Number(NaN))
    ensures ToNumber(v).Fin? && ToNumber(v).r.Floor < 1 ==>
              Sanitize("cursorWidth", v)
              == Failure(InvalidValue("cursorWidth", FromReal(ToNumber(v).r.Floor as real), LessThanOne))
    ensures ToNumber(v).Fin? && ToNumber(v).r.Floor >= 1 ==>
              Sanitize("cursorWidth", v) == Success(FromReal(ToNumber(v).r.Floor as real))
    ensures Sanitize("cursorWidth", v).Success? ==>
              var w := Sanitize("cursorWidth", v).value;
              w == Number(NaN) || (w.Number? && w.n.Fin? && w.n.r >= 1.0 && w.n.r.Floor as real == w.n.r)
  {
    EntersAt("cursorWidth", 5);
    FloorThenAtLeastOneBlock("cursorWidth", v);
  }

  /** lineHeight and tabStopWidth: rejected when the coerced value is below
      1, otherwise kept as given (not coerced). */
  lemma {:induction false} AtLeastOneRule(key: string, v: Value)
    requires key == "lineHeight" || key == "tabStopWidth"
    ensures Less(ToNumber(v), 1.0) ==> Sanitize(key, v) == Failure(InvalidValue(key, v, LessThanOne))
    ensures !Less(ToNumber(v), 1.0) ==> Sanitize(key, v) == Success(v)
  {
    if key == "lineHeight" {
      EntersAt(key, 6);
    } else {
      EntersAt(key, 7);
    }
    AtLeastOneBlock(key, v);
  }

  /** What the minimum contrast ratio `c` made of a finite input `x` is: a
      value in [1, 21] with one decimal, 1 for inputs up to 1, 21 for inputs
      from 21, and otherwise the input rounded to one decimal, halves up. */
  predicate IsContrastRatioOf(x: real, c: real)
  {
    && 1.0 <= c <= 21.0
    && (c * 10.0).Floor as real == c * 10.0
    && (x <= 1.0 ==> c == 1.0)
    && (x >= 21.0 ==> c == 21.0)
    && (1.0 <= x <= 21.0 ==> x - 0.05 < c <= x + 0.05)
  }

  lemma {:induction false} ContrastRatioOfFinite(x: real)
    ensures ContrastRatio(FromReal(x)).Fin?
    ensures IsContrastRatioOf(x, ContrastRatio(FromReal(x)).r)
  {
    var m := (x * 10.0 + 0.5).Floor;
    assert Round(Scale(Fin(x), 10.0)) == Fin(m as real);
    var t := m as real * 0.1;
    assert t * 10.0 == m as real;
    var c := ContrastRatio(FromReal(x)).r;
    assert c == 1.0 || c == 21.0 || c == t;
  }

  /** minimumContrastRatio never raises: NaN stays NaN, every number lands in
      [1, 21] with one decimal, close to the input when it was in range. */
  lemma {:induction false} ContrastRatioRule(v: Value)
    ensures Sanitize("minimumContrastRatio", v).Success?
    ensures ToNumber(v).NaN? ==> Sanitize("minimumContrastRatio", v).value == Number(NaN)
    ensures ToNumber(v).Fin? ==>
              var w := Sanitize("minimumContrastRatio", v).value;
              w.Number? && w.n.Fin? && IsContrastRatioOf(ToNumber(v).r, w.n.r)
  {
    EntersAt("minimumContrastRatio", 8);
    ContrastRatioBlock("minimumContrastRatio", v);
    if ToNumber(v).Fin? {
      var x := ToNumber(v).r;
      assert ContrastRatio(v) == ContrastRatio(FromReal(x));
      ContrastRatioOfFinite(x);
    }
  }

  /** scrollback: coerced, rejected when negative (reporting the number),
      clamped above at 2^32 - 1, and NaN passes through. */
  lemma {:induction false} ScrollbackRule(v: Value)
    ensures ToNumber(v).NaN? ==> Sanitize("scrollback", v) == Success(Number(NaN))
    ensures ToNumber(v).Fin? && ToNumber(v).r < 0.0 ==>
              Sanitize("scrollback", v) == Failure(InvalidValue("scrollback", Number(ToNumber(v)), LessThanZero))
    ensures ToNumber(v).Fin? && 0.0 <= ToNumber(v).r <= ScrollbackLimit ==>
              Sanitize("scrollback", v) == Success(Number(ToNumber(v)))
    ensures ToNumber(v).Fin? && ToNumber(v).r > ScrollbackLimit ==>
              Sanitize("scrollback", v) == Success(FromReal(ScrollbackLimit))
  {
    EntersAt("scrollback", 9);
    ScrollbackBlock("scrollback", v);
  }

  /** fastScrollSensitivity and scrollSensitivity: rejected when the coerced
      value is at most 0; because the check falls through into the rows/cols
      check, a falsy value that survives it is rejected as not numeric. */
  lemma {:induction false} SensitivityRule(key: string, v: Value)
    requires key == "fastScrollSensitivity" || key == "scrollSensitivity"
    ensures Sanitize(key, v) ==
              if LessEq(ToNumber(v), 0.0) then Failure(InvalidValue(key, v, NotPositive))
              else if !Truthy(v) then Failure(InvalidValue(key, v, NotNumeric))
              else Success(v)
  {
    if key == "fastScrollSensitivity" {
      EntersAt("fastScrollSensitivity", 10);
    } else {
      EntersAt("scrollSensitivity", 11);
    }
    PositiveThenNumericBlock(key, v);
    NumericBlock(key, v);
    StrictEqualsIsEqualityButNaN(v, FromReal(0.0));
  }

  /** The fall-through from the sensitivity check into the rows/cols check
      changes the outcome for exactly two values, undefined and NaN, which the
      sensitivity check alone would accept. */
  lemma {:induction false} SensitivityFallThroughEffect(key: string, v: Value)
    requires key == "fastScrollSensitivity" || key == "scrollSensitivity"
    ensures var alone :=
              if LessEq(ToNumber(v), 0.0) then Failure(InvalidValue(key, v, NotPositive)) else Success(v);
            Sanitize(key, v) != alone <==> v == Undefined || v == Number(NaN)
  {
    SensitivityRule(key, v);
    FalsyValues(v);
    assert StringToNumber("") == Fin(0.0);
  }

  /** rows and cols: any truthy value and the number 0 are kept unchanged;
      every other falsy value is rejected as not numeric. */
  lemma {:induction false} DimensionRule(key: string, v: Value)
    requires key == "rows" || key == "cols"
    ensures Sanitize(key, v) ==
              if Truthy(v) || v == FromReal(0.0) then Success(v)
              else Failure(InvalidValue(key, v, NotNumeric))
  {
    if key == "rows" {
      EntersAt("rows", 12);
    } else {
      EntersAt("cols", 13);
    }
    NumericBlock(key, v);
    StrictEqualsIsEqualityButNaN(v, FromReal(0.0));
  }

  // ---------------------------------------------------------------------------
  // Idempotence

  lemma {:induction false} RunFromIdempotent(b: nat, key: string, v: Value)
    ensures RunFrom(b, key, v).Success? ==>
              RunFrom(b, key, RunFrom(b, key, v).value) == RunFrom(b, key, v)
  {
    var r := RunFrom(b, key, v);
    if r.Success? {
      var w := r.value;
      if b == 0 {
        CursorStyleBlock(key, v);
        CursorStyleBlock(key, w);
      } else if b == 1 {
        DefaultWhenFalsyBlock(key, v);
        DefaultWhenFalsyBlock(key, w);
      } else if b == 2 {
        FontWeightBlock(key, v);
        FontWeightBlock(key, w);
      } else if b == 3 {
        FloorIdempotent(key, v);
      } else if b == 4 {
        AtLeastOneBlock(key, v);
        AtLeastOneBlock(key, w);
      } else if b == 5 {
        ContrastRatioBlock(key, v);
        ContrastRatioBlock(key, w);
        ContrastRatioIdempotent(v);
      } else if b == 6 {
        ScrollbackIdempotent(key, v);
      } else if b == 7 {
        PositiveThenNumericBlock(key, v);
        NumericBlock(key, v);
        PositiveThenNumericBlock(key, w);
        NumericBlock(key, w);
      } else if b == 8 {
        NumericBlock(key, v);
        NumericBlock(key, w);
      }
    }
  }

  lemma {:induction false} FloorIdempotent(key: string, v: Value)
    ensures RunFrom(3, key, v).Success? ==>
              RunFrom(3, key, RunFrom(3, key, v).value) == RunFrom(3, key, v)
  {
    FloorThenAtLeastOneBlock(key, v);
    if RunFrom(3, key, v).Success? {
      var w := RunFrom(3, key, v).value;
      assert w == Number(Floor(ToNumber(v)));
      assert Floor(ToNumber(w)) == ToNumber(w);
      FloorThenAtLeastOneBlock(key, w);
    }
  }

  lemma {:induction false} ContrastRatioIdempotent(v: Value)
    ensures ContrastRatio(Number(ContrastRatio(v))) == ContrastRatio(v)
  {
    if ToNumber(v).Fin? {
      var x := ToNumber(v).r;
      assert ContrastRatio(v) == ContrastRatio(FromReal(x));
      ContrastRatioOfFinite(x);
      var c := ContrastRatio(FromReal(x)).r;
      ContrastRatioOfFinite(c);
      var d := ContrastRatio(FromReal(c)).r;
      OneDecimalUnique(c, d);
    }
  }

  /** Two numbers with one decimal that lie within half a step of each other
      are equal. */
  lemma OneDecimalUnique(c: real, d: real)
    requires (c * 10.0).Floor as real == c * 10.0
    requires (d * 10.0).Floor as real == d * 10.0
    requires c - 0.05 < d <= c + 0.05
    ensures d == c
  {
    var m, n := (c * 10.0).Floor, (d * 10.0).Floor;
    assert m as real - 0.5 < n as real <= m as real + 0.5;
    assert n == m;
  }

  lemma {:induction false} ScrollbackIdempotent(key: string, v: Value)
    ensures RunFrom(6, key, v).Success? ==>
              RunFrom(6, key, RunFrom(6, key, v).value) == RunFrom(6, key, v)
  {
    ScrollbackBlock(key, v);
    if RunFrom(6, key, v).Success? {
      ScrollbackBlock(key, RunFrom(6, key, v).value);
    }
  }

  /** Sanitizing an already sanitized value returns it unchanged, for every key. */
  lemma {:induction false} SanitizeIdempotent(key: string, v: Value)
    ensures Sanitize(key, v).Success? ==> Sanitize(key, Sanitize(key, v).value) == Sanitize(key, v)
  {
    match EntryBlock(key)
    case None =>
    case Some(b) => RunFromIdempotent(b, key, v);
  }

  // ---------------------------------------------------------------------------
  // Worked values

  lemma ScrollbackExamples()
    ensures Sanitize("scrollback", FromReal(5000000000.0)) == Success(FromReal(4294967295.0))
    ensures Sanitize("scrollback", FromReal(-1.0)) ==
              Failure(InvalidValue("scrollback", FromReal(-1.0), LessThanZero))
  {
    ScrollbackRule(FromReal(5000000000.0));
    ScrollbackRule(FromReal(-1.0));
  }

  lemma ContrastRatioExamples()
    ensures Sanitize("minimumContrastRatio", FromReal(25.0)) == Success(FromReal(21.0))
    ensures Sanitize("minimumContrastRatio", FromReal(0.0)) == Success(FromReal(1.0))
  {
    ContrastRatioRule(FromReal(25.0));
    ContrastRatioRule(FromReal(0.0));
  }

  /** A ratio meeting the reference definition for an in-range input is the
      tenth nearest that input, halves rounding up. */
  lemma {:induction false} ContrastRatioIsNearestTenth(x: real, c: real, m: int)
    requires IsContrastRatioOf(x, c) && 1.0 <= x <= 21.0
    requires m as real - 0.5 <= x * 10.0 < m as real + 0.5
    ensures c * 10.0 == m as real
  {
    var n := (c * 10.0).Floor;
    assert n as real == c * 10.0;
    assert m - 1 < n < m + 1;
  }

  /** 1.15 itself rounds up to 1.2, but the binary64 value nearest it,
      12947848928690175 / 11258999068426240, lies just below 1.15 and so
      rounds down to 1.1 in exact arithmetic. */
  lemma ContrastRatioNearHalfExamples()
    ensures Sanitize("minimumContrastRatio", FromReal(1.15)) == Success(FromReal(1.2))
    ensures Sanitize("minimumContrastRatio", FromReal(12947848928690175.0 / 11258999068426240.0))
              == Success(FromReal(1.1))
  {
    ContrastRatioRule(FromReal(1.15));
    var w := Sanitize("minimumContrastRatio", FromReal(1.15)).value;
    ContrastRatioIsNearestTenth(1.15, w.n.r, 12);
    var d := 12947848928690175.0 / 11258999068426240.0;
    ContrastRatioRule(FromReal(d));
    var u := Sanitize("minimumContrastRatio", FromReal(d)).value;
    ContrastRatioIsNearestTenth(d, u.n.r, 11);
  }

  lemma CursorWidthFloorsExample()
    ensures Sanitize("cursorWidth", FromReal(2.9)) == Success(FromReal(2.0))
  {
    assert ToNumber(FromReal(2.9)).r.Floor == 2;
    CursorWidthRule(FromReal(2.9));
  }

  lemma CursorWidthRejectsExample()
    ensures Sanitize("cursorWidth", FromReal(0.9)) ==
              Failure(InvalidValue("cursorWidth", FromReal(0.0), LessThanOne))
  {
    assert ToNumber(FromReal(0.9)).r.Floor == 0;
    CursorWidthRule(FromReal(0.9));
  }

  lemma WordSeparatorExample()
    ensures Sanitize("wordSeparator", Str("")) == Success(Str(DefaultWordSeparator))
  {
    WordSeparatorRule(Str(""));
  }

  lemma ColsZeroExample()
    ensures Sanitize("cols", FromReal(0.0)) == Success(FromReal(0.0))
  {
    DimensionRule("cols", FromReal(0.0));
  }

  lemma ColsUndefinedExample()
    ensures Sanitize("cols", Undefined) == Failure(InvalidValue("cols", Undefined, NotNumeric))
  {
    assert !Truthy(Undefined) && Undefined != FromReal(0.0);
    DimensionRule("cols", Undefined);
  }
}
