/** Properties of the options service that relate several calls:
    construction from no or irrelevant overrides, reading back a write, and
    what a repeated write fires. */
module OptionsServiceProperties {
  import opened Results
  import opened JsValues
  import opened DefaultOptions
  import opened Sanitizer
  import opened OptionsService
  import SanitizerProperties

  // As in `SanitizerProperties`, `{:induction false}` below only stops Dafny
  // from adding an induction hypothesis on a `Store`, `string` or `Value`
  // parameter; none of these lemmas is inductive.

  /** A service constructed without overrides holds exactly the defaults. */
  lemma ConstructWithoutOverrides()
    ensures Construct(map[]) == Store(Defaults, [])
  {
    var none: map<string, Value> := map[];
    var s := Construct(none);
    forall k | k in Defaults
      ensures s.raw[k] == Defaults[k]
    {
      assert k !in none;
    }
    assert s.raw == Defaults;
  }

  /** An override whose key is not an option has no effect on construction. */
  lemma {:induction false} ConstructIgnoresUnknownKeys(overrides: map<string, Value>, name: string, v: Value)
    requires name !in Defaults
    ensures Construct(overrides[name := v]) == Construct(overrides)
  {
    var o := overrides[name := v];
    forall k | k in Defaults
      ensures InitialValue(k, o) == InitialValue(k, overrides)
    {
      assert k != name;
    }
    assert (map k | k in Defaults :: InitialValue(k, o)) == (map k | k in Defaults :: InitialValue(k, overrides));
  }

  /** A freshly constructed service without overrides reads back every
      option's default. */
  lemma GetAfterConstructWithoutOverrides(name: string)
    ensures name in Defaults ==> Get(Construct(map[]), name) == Success(Defaults[name])
    ensures name !in Defaults ==> Get(Construct(map[]), name) == Failure(UnknownOption(name))
  {
    ConstructWithoutOverrides();
  }

  /** A successful write is what the next read returns. */
  lemma {:induction false} SetThenGet(s: Store, name: string, v: Value)
    requires Valid(s)
    ensures Set(s, name, v).thrown.None? ==> Get(Set(s, name, v).after, name) == Sanitize(name, v)
  {
  }

  /** Repeating a write is a no-op with the same outcome, so the pair fires
      at most one event, unless the sanitized value is NaN: NaN is never
      strictly equal to the stored NaN, so every such write fires again. */
  lemma {:induction false} RepeatedWrite(s: Store, name: string, v: Value)
    requires Valid(s)
    ensures Sanitize(name, v) != Success(Number(NaN)) ==>
              Set(Set(s, name, v).after, name, v) == Set(s, name, v)
    ensures Sanitize(name, v) != Success(Number(NaN)) ==>
              |Set(Set(s, name, v).after, name, v).after.events| <= |s.events| + 1
    ensures name in Defaults && Sanitize(name, v) == Success(Number(NaN)) ==>
              Set(Set(s, name, v).after, name, v).after.events == Set(s, name, v).after.events + [name]
  {
    var w1 := Set(s, name, v);
    if w1.thrown.None? {
      var r := Sanitize(name, v).value;
      assert w1.after.raw[name] == r;
      StrictEqualsIsEqualityButNaN(r, r);
    }
  }

  /** For an option whose rule lets NaN through, every write of NaN fires
      an event, even when NaN is what is already stored. */
  lemma {:induction false} NaNWriteFiresEveryTime(s: Store, name: string)
    requires Valid(s)
    requires name in Defaults && Sanitize(name, Number(NaN)) == Success(Number(NaN))
    ensures Set(s, name, Number(NaN)).after.events == s.events + [name]
  {
    StrictEqualsIsEqualityButNaN(s.raw[name], Number(NaN));
  }

  /** lineHeight is such an option: its check `value < 1` is false for NaN. */
  lemma LineHeightAcceptsNaN()
    ensures "lineHeight" in Defaults && Sanitize("lineHeight", Number(NaN)) == Success(Number(NaN))
  {
    SanitizerProperties.AtLeastOneRule("lineHeight", Number(NaN));
  }
}
