/** The options service: the raw option values seeded from the default table
    and the caller's overrides, read and written through per-key accessors
    that reject unknown names, re-sanitize every write, and fire a change
    event carrying the key only when the stored value actually changes.
    Event subscribers are outside the model: the fired events are kept as an
    ordered log in the state. */
module OptionsService {
  import opened Results
  import opened JsValues
  import opened DefaultOptions
  import opened Sanitizer
  import SanitizerProperties

  /** The service's state: `raw` is the single store every accessor reads and
      writes; `events` lists the keys of the change events fired so far. */
  datatype Store = Store(raw: map<string, Value>, events: seq<string>)

  /** The outcome of a write: the state afterwards and the error it threw, if
      any. A throwing write leaves the state as it was. */
  datatype WriteResult = WriteResult(after: Store, thrown: Option<OptionError>)

  /** The service's invariant: exactly the default table's keys are stored,
      every stored value is already sanitized (sanitizing it again keeps it),
      and every fired event names an option. */
  predicate Valid(s: Store)
  {
    && s.raw.Keys == Defaults.Keys
    && (forall k | k in s.raw :: Sanitize(k, s.raw[k]) == Success(s.raw[k]))
    && (forall i | 0 <= i < |s.events| :: s.events[i] in Defaults)
  }

  /** The value construction settles on for one option: the sanitized
      override when there is one that sanitizes, else the default. */
  function InitialValue(key: string, overrides: map<string, Value>): Value
    requires key in Defaults
  {
    if key in overrides then Sanitize(key, overrides[key]).GetOr(Defaults[key]) else Defaults[key]
  }

  /** The constructor. It never fails: an override for an unknown key is
      ignored and one that does not sanitize is dropped in favour of the
      default. No event is fired. */
  function Construct(overrides: map<string, Value>): (s: Store)
    ensures Valid(s)
    ensures s.events == []
    ensures forall k | k in Defaults && k !in overrides :: s.raw[k] == Defaults[k]
    ensures forall k | k in Defaults && k in overrides ::
              s.raw[k] == (if Sanitize(k, overrides[k]).Success? then Sanitize(k, overrides[k]).value
                           else Defaults[k])
  {
    InitialValuesAreSanitized(overrides);
    Store(map k | k in Defaults :: InitialValue(k, overrides), [])
  }

  /** The constructor as the source writes it: start from a copy of the
      defaults and visit the overrides one key at a time, keeping the default
      when the key is unknown or its value does not sanitize. */
  method ConstructByOverrides(overrides: map<string, Value>) returns (s: Store)
    ensures s == Construct(overrides)
  {
    ghost var target := map k | k in Defaults :: InitialValue(k, overrides);
    var raw := Defaults;
    var pending := overrides.Keys;
    AgreesInitially(Defaults, target, pending);
    while pending != {}
      invariant pending <= overrides.Keys
      invariant AgreesOutside(raw, Defaults, target, pending)
      decreases pending
    {
      var key :| key in pending;
      if key in Defaults {
        InitialValueOfOverride(key, overrides);
        match Sanitize(key, overrides[key])
        case Success(value) =>
          AgreesAfterUpdate(raw, Defaults, target, pending, key, value);
          raw := raw[key := value];
        case Failure(_) =>
          // the error is logged and the default kept
          AgreesAfterSkip(raw, Defaults, target, pending, key);
      } else {
        AgreesAfterSkip(raw, Defaults, target, pending, key);
      }
      pending := pending - {key};
    }
    AgreesEverywhere(raw, Defaults, target);
    s := Store(raw, []);
    assert s == Construct(overrides);
  }

  /** The loop invariant of `ConstructByOverrides`, over a table `d` and a
      target `t` with the same keys: every key still pending holds its entry
      in `d`, every other key its entry in `t`. */
  predicate AgreesOutside(raw: map<string, Value>, d: map<string, Value>, t: map<string, Value>, pending: set<string>)
  {
    && raw.Keys == d.Keys
    && t.Keys == d.Keys
    && forall k | k in d :: raw[k] == (if k in pending then d[k] else t[k])
  }

  /** Before any key is visited: `t` differs from `d` only at pending keys. */
  lemma AgreesInitially(d: map<string, Value>, t: map<string, Value>, pending: set<string>)
    requires t.Keys == d.Keys
    requires forall k | k in d && k !in pending :: t[k] == d[k]
    ensures AgreesOutside(d, d, t, pending)
  {
  }

  /** Storing a pending key's target entry keeps the invariant. */
  lemma AgreesAfterUpdate(raw: map<string, Value>, d: map<string, Value>, t: map<string, Value>,
                          pending: set<string>, key: string, value: Value)
    requires AgreesOutside(raw, d, t, pending)
    requires key in pending && key in d && value == t[key]
    ensures AgreesOutside(raw[key := value], d, t, pending - {key})
  {
  }

  /** Leaving a pending key alone keeps the invariant when its entry in `d`
      is already its target (or it is not a key of `d` at all). */
  lemma AgreesAfterSkip(raw: map<string, Value>, d: map<string, Value>, t: map<string, Value>,
                        pending: set<string>, key: string)
    requires AgreesOutside(raw, d, t, pending)
    requires key in pending && (key in d ==> d[key] == t[key])
    ensures AgreesOutside(raw, d, t, pending - {key})
  {
  }

  /** An override that sanitizes settles to its sanitized value, one that
      does not to the default. */
  lemma InitialValueOfOverride(key: string, overrides: map<string, Value>)
    requires key in Defaults && key in overrides
    ensures var r := Sanitize(key, overrides[key]);
            InitialValue(key, overrides) == if r.Success? then r.value else Defaults[key]
  {
  }

  /** With nothing pending, the store is the target. */
  lemma AgreesEverywhere(raw: map<string, Value>, d: map<string, Value>, t: map<string, Value>)
    requires AgreesOutside(raw, d, t, {})
    ensures raw == t
  {
  }

  /** The getter: the stored value of a known option, which is always a
      sanitized one; an unknown name is an error. */
  function Get(s: Store, name: string): (r: Result<Value, OptionError>)
    requires Valid(s)
    ensures r.Failure? <==> name !in Defaults
    ensures r.Failure? ==> r.error == UnknownOption(name)
    ensures r.Success? ==> r.value == s.raw[name]
    ensures r.Success? ==> Sanitize(name, r.value) == Success(r.value)
  {
    if name !in Defaults then Failure(UnknownOption(name)) else Success(s.raw[name])
  }

  /** The setter. An unknown name or a value that does not sanitize throws
      and changes nothing. Otherwise the sanitized value is stored; if it is
      strictly equal to the stored one nothing happens, else exactly that key
      changes and one event carrying it is appended. */
  function Set(s: Store, name: string, v: Value): (w: WriteResult)
    requires Valid(s)
    ensures Valid(w.after)
    ensures name !in Defaults ==> w == WriteResult(s, Some(UnknownOption(name)))
    ensures name in Defaults && Sanitize(name, v).Failure? ==>
              w == WriteResult(s, Some(Sanitize(name, v).error))
    ensures w.thrown.None? <==> name in Defaults && Sanitize(name, v).Success?
    ensures w.thrown.Some? ==> w.after == s
    ensures w.thrown.None? ==>
              && name in Defaults
              && Sanitize(name, v).Success?
              && w.after.raw == s.raw[name := Sanitize(name, v).value]
    ensures w.thrown.None? && StrictEquals(s.raw[name], Sanitize(name, v).value) ==> w.after == s
    ensures w.thrown.None? && !StrictEquals(s.raw[name], Sanitize(name, v).value) ==>
              w.after.events == s.events + [name]
  {
    if name !in Defaults then
      WriteResult(s, Some(UnknownOption(name)))
    else
      match Sanitize(name, v)
      case Failure(e) => WriteResult(s, Some(e))
      case Success(value) =>
        if StrictEquals(s.raw[name], value) then
          StrictEqualsIsEqualityButNaN(s.raw[name], value);
          assert s.raw[name := value] == s.raw;
          WriteResult(s, None)
        else
          SanitizerProperties.SanitizeIdempotent(name, v);
          CommitKeepsValid(s, name, value);
          WriteResult(Store(s.raw[name := value], s.events + [name]), None)
  }

  lemma CommitKeepsValid(s: Store, name: string, value: Value)
    requires Valid(s) && name in Defaults && Sanitize(name, value) == Success(value)
    ensures Valid(Store(s.raw[name := value], s.events + [name]))
  {
    CommitKeepsKeys(s.raw, name, value);
    CommitKeepsSanitized(s.raw, name, value);
    CommitKeepsEventsKnown(s.events, name);
  }

  lemma CommitKeepsKeys(raw: map<string, Value>, name: string, value: Value)
    requires raw.Keys == Defaults.Keys && name in Defaults
    ensures raw[name := value].Keys == Defaults.Keys
  {
  }

  lemma CommitKeepsSanitized(raw: map<string, Value>, name: string, value: Value)
    requires forall k | k in raw :: Sanitize(k, raw[k]) == Success(raw[k])
    requires Sanitize(name, value) == Success(value)
    ensures var raw' := raw[name := value];
            forall k | k in raw' :: Sanitize(k, raw'[k]) == Success(raw'[k])
  {
  }

  lemma CommitKeepsEventsKnown(events: seq<string>, name: string)
    requires forall i | 0 <= i < |events| :: events[i] in Defaults
    requires name in Defaults
    ensures var events' := events + [name];
            forall i | 0 <= i < |events'| :: events'[i] in Defaults
  {
  }

  lemma InitialValuesAreSanitized(overrides: map<string, Value>)
    ensures forall k | k in Defaults ::
              Sanitize(k, InitialValue(k, overrides)) == Success(InitialValue(k, overrides))
  {
    forall k | k in Defaults
      ensures Sanitize(k, InitialValue(k, overrides)) == Success(InitialValue(k, overrides))
    {
      DefaultIsSanitized(k);
      if k in overrides {
        SanitizerProperties.SanitizeIdempotent(k, overrides[k]);
      }
    }
  }

  /** Every default is already sanitized, so the default table is itself a
      valid raw store. */
  lemma DefaultIsSanitized(k: string)
    requires k in Defaults
    ensures Sanitize(k, Defaults[k]) == Success(Defaults[k])
  {
    SanitizerProperties.UnlabelledKeysPassThrough(k, Defaults[k]);
    if k in SanitizerProperties.SwitchKeys {
      SwitchDefaultsAreSanitized(k);
    }
  }

  lemma SwitchDefaultsAreSanitized(k: string)
    requires k in SanitizerProperties.SwitchKeys
    ensures k in Defaults && Sanitize(k, Defaults[k]) == Success(Defaults[k])
  {
    if k in {"cursorStyle", "wordSeparator", "fontWeight", "fontWeightBold", "cursorWidth", "lineHeight"} {
      TextAndWidthDefaultsAreSanitized(k);
    } else {
      NumericDefaultsAreSanitized(k);
    }
  }

  lemma TextAndWidthDefaultsAreSanitized(k: string)
    requires k in {"cursorStyle", "wordSeparator", "fontWeight", "fontWeightBold", "cursorWidth", "lineHeight"}
    ensures k in Defaults && Sanitize(k, Defaults[k]) == Success(Defaults[k])
  {
    if k == "cursorStyle" {
      CursorStyleDefaultIsSanitized(k);
    } else if k == "wordSeparator" {
      WordSeparatorDefaultIsSanitized(k);
    } else if k == "fontWeight" {
      FontWeightDefaultIsSanitized(k);
    } else if k == "fontWeightBold" {
      FontWeightBoldDefaultIsSanitized(k);
    } else if k == "cursorWidth" {
      CursorWidthDefaultIsSanitized(k);
    } else {
      LineHeightDefaultIsSanitized(k);
    }
  }

  lemma NumericDefaultsAreSanitized(k: string)
    requires k in {"tabStopWidth", "minimumContrastRatio", "scrollback", "fastScrollSensitivity",
                   "scrollSensitivity", "rows", "cols"}
    ensures k in Defaults && Sanitize(k, Defaults[k]) == Success(Defaults[k])
  {
    if k == "tabStopWidth" {
      TabStopWidthDefaultIsSanitized(k);
    } else if k == "minimumContrastRatio" {
      MinimumContrastRatioDefaultIsSanitized(k);
    } else if k == "scrollback" {
      ScrollbackDefaultIsSanitized(k);
    } else if k == "fastScrollSensitivity" {
      FastScrollSensitivityDefaultIsSanitized(k);
    } else if k == "scrollSensitivity" {
      ScrollSensitivityDefaultIsSanitized(k);
    } else if k == "rows" {
      RowsDefaultIsSanitized(k);
    } else {
      ColsDefaultIsSanitized(k);
    }
  }

  lemma CursorStyleDefaultIsSanitized(k: string)
    requires k == "cursorStyle"
    ensures k in Defaults && Sanitize(k, Defaults[k]) == Success(Defaults[k])
  {
    assert Defaults[k] == Str("block");
    SanitizerProperties.CursorStyleRule(Str("block"));
  }

  lemma WordSeparatorDefaultIsSanitized(k: string)
    requires k == "wordSeparator"
    ensures k in Defaults && Sanitize(k, Defaults[k]) == Success(Defaults[k])
  {
    assert Defaults[k] == Str(DefaultWordSeparator);
    SanitizerProperties.WordSeparatorRule(Str(DefaultWordSeparator));
  }

  lemma FontWeightDefaultIsSanitized(k: string)
    requires k == "fontWeight"
    ensures k in Defaults && Sanitize(k, Defaults[k]) == Success(Defaults[k])
  {
    assert Defaults[k] == Str("normal");
    SanitizerProperties.FontWeightRule(k, Str("normal"));
  }

  lemma FontWeightBoldDefaultIsSanitized(k: string)
    requires k == "fontWeightBold"
    ensures k in Defaults && Sanitize(k, Defaults[k]) == Success(Defaults[k])
  {
    assert Defaults[k] == Str("bold");
    SanitizerProperties.FontWeightRule(k, Str("bold"));
  }

  lemma CursorWidthDefaultIsSanitized(k: string)
    requires k == "cursorWidth"
    ensures k in Defaults && Sanitize(k, Defaults[k]) == Success(Defaults[k])
  {
    assert Defaults[k] == FromReal(1.0);
    assert ToNumber(FromReal(1.0)).r.Floor == 1;
    SanitizerProperties.CursorWidthRule(FromReal(1.0));
  }

  lemma LineHeightDefaultIsSanitized(k: string)
    requires k == "lineHeight"
    ensures k in Defaults && Sanitize(k, Defaults[k]) == Success(Defaults[k])
  {
    assert Defaults[k] == FromReal(1.0);
    SanitizerProperties.AtLeastOneRule(k, FromReal(1.0));
  }

  lemma TabStopWidthDefaultIsSanitized(k: string)
    requires k == "tabStopWidth"
    ensures k in Defaults && Sanitize(k, Defaults[k]) == Success(Defaults[k])
  {
    assert Defaults[k] == FromReal(8.0);
    SanitizerProperties.AtLeastOneRule(k, FromReal(8.0));
  }

  lemma MinimumContrastRatioDefaultIsSanitized(k: string)
    requires k == "minimumContrastRatio"
    ensures k in Defaults && Sanitize(k, Defaults[k]) == Success(Defaults[k])
  {
    assert Defaults[k] == FromReal(1.0);
    SanitizerProperties.ContrastRatioRule(FromReal(1.0));
  }

  lemma ScrollbackDefaultIsSanitized(k: string)
    requires k == "scrollback"
    ensures k in Defaults && Sanitize(k, Defaults[k]) == Success(Defaults[k])
  {
    assert Defaults[k] == FromReal(1000.0);
    SanitizerProperties.ScrollbackRule(FromReal(1000.0));
  }

  lemma FastScrollSensitivityDefaultIsSanitized(k: string)
    requires k == "fastScrollSensitivity"
    ensures k in Defaults && Sanitize(k, Defaults[k]) == Success(Defaults[k])
  {
    assert Defaults[k] == FromReal(5.0);
    SanitizerProperties.SensitivityRule(k, FromReal(5.0));
  }

  lemma ScrollSensitivityDefaultIsSanitized(k: string)
    requires k == "scrollSensitivity"
    ensures k in Defaults && Sanitize(k, Defaults[k]) == Success(Defaults[k])
  {
    assert Defaults[k] == FromReal(1.0);
    SanitizerProperties.SensitivityRule(k, FromReal(1.0));
  }

  lemma RowsDefaultIsSanitized(k: string)
    requires k == "rows"
    ensures k in Defaults && Sanitize(k, Defaults[k]) == Success(Defaults[k])
  {
    assert Defaults[k] == FromReal(24.0);
    SanitizerProperties.DimensionRule(k, FromReal(24.0));
  }

  lemma ColsDefaultIsSanitized(k: string)
    requires k == "cols"
    ensures k in Defaults && Sanitize(k, Defaults[k]) == Success(Defaults[k])
  {
    assert Defaults[k] == FromReal(80.0);
    SanitizerProperties.DimensionRule(k, FromReal(80.0));
  }
}
