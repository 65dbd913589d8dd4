/**
 * Validating data descriptors (validator-descriptor/validator.py): an
 * attribute whose assignments are checked by an integer-range or a
 * string-length validator, and stored in the instance only when the check
 * passes.
 */
module Validators {
  import opened Wrappers
  import opened Values

  /** The `ValueError`s the validators raise, one per message; each names the property. */
  datatype Error =
    | NotAnInteger(propName: string)
    | LessThanMin(propName: string, minValue: int)
    | GreaterThanMax(propName: string, maxValue: int)
    | NotAString(propName: string)
    | TooShort(propName: string, minLength: int)
    | TooLong(propName: string, maxLength: int)

  /** The kinds of validator and their optional bounds `_min` and `_max`. */
  datatype Validator =
    | BaseValidator(min: Option<int>, max: Option<int>)
    | IntegerValidator(min: Option<int>, max: Option<int>)
    | StringValidator(min: Option<int>, max: Option<int>)

  /** `StringValidator(min_, max_)`: the minimum becomes `max(min_ or 0, 0)`. */
  function NewStringValidator(min: Option<int>, max: Option<int>): (v: Validator)
    ensures v.StringValidator? && v.max == max
    ensures v.min.Some? && v.min.value >= 0
    ensures min.Some? && min.value >= 0 ==> v.min == min
    ensures min.None? || min.value <= 0 ==> v.min == Some(0)
  {
    var m := if min.Some? then min.value else 0;
    StringValidator(Some(if m > 0 then m else 0), max)
  }

  /** `validate(value)`: `BaseValidator` accepts everything, the subclasses check type then bounds. */
  function Validate(v: Validator, propName: string, value: Value): (r: Outcome<Error>)
    ensures v.BaseValidator? ==> r.Pass?
    ensures v.IntegerValidator? ==>
      (r.Pass? <==> value.IsIntegral()
                    && (v.min.None? || value.AsInt() >= v.min.value)
                    && (v.max.None? || value.AsInt() <= v.max.value))
    ensures v.StringValidator? ==>
      (r.Pass? <==> value.StrValue?
                    && (v.min.None? || |value.s| >= v.min.value)
                    && (v.max.None? || |value.s| <= v.max.value))
    ensures r.Fail? ==> r.error.propName == propName
    ensures r.Fail? && v.IntegerValidator? && !value.IsIntegral() ==> r.error == NotAnInteger(propName)
    ensures r.Fail? && v.StringValidator? && !value.StrValue? ==> r.error == NotAString(propName)
    ensures v.IntegerValidator? && value.IsIntegral() && v.min.Some? && value.AsInt() < v.min.value ==>
      r == Fail(LessThanMin(propName, v.min.value))
    ensures v.IntegerValidator? && value.IsIntegral() && (v.min.None? || value.AsInt() >= v.min.value)
            && v.max.Some? && value.AsInt() > v.max.value ==>
      r == Fail(GreaterThanMax(propName, v.max.value))
    ensures v.StringValidator? && value.StrValue? && v.min.Some? && |value.s| < v.min.value ==>
      r == Fail(TooShort(propName, v.min.value))
    ensures v.StringValidator? && value.StrValue? && (v.min.None? || |value.s| >= v.min.value)
            && v.max.Some? && |value.s| > v.max.value ==>
      r == Fail(TooLong(propName, v.max.value))
  {
    match v
    case BaseValidator(_, _) => Pass
    case IntegerValidator(min, max) =>
      if !value.IsIntegral() then Fail(NotAnInteger(propName))
      else if min.Some? && value.AsInt() < min.value then Fail(LessThanMin(propName, min.value))
      else if max.Some? && value.AsInt() > max.value then Fail(GreaterThanMax(propName, max.value))
      else Pass
    case StringValidator(min, max) =>
      if !value.StrValue? then Fail(NotAString(propName))
      else if min.Some? && |value.s| < min.value then Fail(TooShort(propName, min.value))
      else if max.Some? && |value.s| > max.value then Fail(TooLong(propName, max.value))
      else Pass
  }

  /**
   * Clamping the minimum changes nothing a string can observe: a string
   * validator built from any bounds accepts exactly the strings the
   * unclamped bounds allow.
   */
  lemma ClampInvisible(min: Option<int>, max: Option<int>, propName: string, value: Value)
    ensures Validate(NewStringValidator(min, max), propName, value).Pass?
        <==> Validate(StringValidator(min, max), propName, value).Pass?
  {
  }

  /** test_validator.py's bound normalisation: `(-10, 100)` becomes `(0, 100)`, `(None, None)` becomes `(0, None)`. */
  lemma StringValidatorExamples()
    ensures NewStringValidator(Some(-10), Some(100)) == StringValidator(Some(0), Some(100))
    ensures NewStringValidator(None, None) == StringValidator(Some(0), None)
    ensures NewStringValidator(Some(0), None) == StringValidator(Some(0), None)
    ensures NewStringValidator(Some(5), Some(10)) == StringValidator(Some(5), Some(10))
  {
  }

  /**
   * test_validator.py's rejected ages for bounds [-10, 10]: values below or
   * above the range, and 10.5, 1+0j, "abc" and (1, 2), which are not
   * integers. `True` is an integer and passes.
   */
  lemma IntegerValidatorExamples(propName: string)
    ensures Validate(IntegerValidator(Some(-10), Some(10)), propName, IntValue(-11)) == Fail(LessThanMin(propName, -10))
    ensures Validate(IntegerValidator(Some(-10), Some(10)), propName, IntValue(11)) == Fail(GreaterThanMax(propName, 10))
    ensures Validate(IntegerValidator(Some(-10), Some(10)), propName, FloatValue(10.5)) == Fail(NotAnInteger(propName))
    ensures Validate(IntegerValidator(Some(-10), Some(10)), propName, ComplexValue(1.0, 0.0)) == Fail(NotAnInteger(propName))
    ensures Validate(IntegerValidator(Some(-10), Some(10)), propName, StrValue("abc")) == Fail(NotAnInteger(propName))
    ensures Validate(IntegerValidator(Some(-10), Some(10)), propName, OtherValue("tuple")) == Fail(NotAnInteger(propName))
    ensures Validate(IntegerValidator(Some(-10), Some(10)), propName, BoolValue(true)).Pass?
    ensures Validate(IntegerValidator(None, None), propName, IntValue(-100)).Pass?
  {
  }

  // -----------------------------------------------------------------------
  // Descriptors and the instances they live in
  // -----------------------------------------------------------------------

  /** A validator bound to the attribute name `__set_name__` gives it. */
  datatype Descriptor = Descriptor(propName: string, validator: Validator)

  /** Attribute names are what `__set_name__` records: distinct within one class. */
  predicate DistinctNames(fields: seq<Descriptor>)
  {
    forall i, j :: 0 <= i < j < |fields| ==> fields[i].propName != fields[j].propName
  }

  /** An instance of a class whose attributes `fields` are validating descriptors. */
  class Instance {
    /** The descriptors of the instance's class. */
    const fields: seq<Descriptor>
    /** The instance's `__dict__`. */
    var dict: map<string, Value>

    /** Every value stored under a descriptor's name passed that descriptor's validator. */
    predicate Valid()
      reads this
    {
      && DistinctNames(fields)
      && forall i :: 0 <= i < |fields| && fields[i].propName in dict ==>
           Validate(fields[i].validator, fields[i].propName, dict[fields[i].propName]).Pass?
    }

    constructor (fields: seq<Descriptor>)
      requires DistinctNames(fields)
      ensures Valid() && this.fields == fields && dict == map[]
    {
      this.fields := fields;
      dict := map[];
    }

    /** `__get__(instance, owner)`: the stored value, or `None` before the first assignment. */
    function Get(d: Descriptor): (r: Value)
      reads this
      requires Valid() && d in fields
      ensures d.propName !in dict ==> r == NoneValue
      ensures d.propName in dict ==> r == dict[d.propName]
      ensures r == NoneValue || Validate(d.validator, d.propName, r).Pass?
    {
      if d.propName in dict then
        var i :| 0 <= i < |fields| && fields[i] == d;
        dict[d.propName]
      else
        NoneValue
    }

    /** `__set__(instance, value)`: validate first, then store; a rejected value changes nothing. */
    method Set(d: Descriptor, value: Value) returns (r: Outcome<Error>)
      requires Valid() && d in fields
      modifies this
      ensures Valid()
      ensures r == Validate(d.validator, d.propName, value)
      ensures dict == if r.Pass? then old(dict)[d.propName := value] else old(dict)
    {
      r := Validate(d.validator, d.propName, value);
      if r.Fail? {
        return;
      }
      dict := dict[d.propName := value];
      forall i | 0 <= i < |fields| && fields[i].propName in dict
        ensures Validate(fields[i].validator, fields[i].propName, dict[fields[i].propName]).Pass?
      {
        if fields[i].propName == d.propName {
          var k :| 0 <= k < |fields| && fields[k] == d;
          assert i == k;
        }
      }
    }
  }

  /**
   * test_validator.py's `age` attribute with bounds [5, 10]: 7 is stored and
   * read back, 11 is refused and 7 stays.
   */
  method AgeScenario()
  {
    var age := Descriptor("age", IntegerValidator(Some(5), Some(10)));
    var obj := new Instance([age]);
    assert obj.Get(age) == NoneValue;
    var ok := obj.Set(age, IntValue(7));
    assert ok.Pass? && obj.Get(age) == IntValue(7);
    var refused := obj.Set(age, IntValue(11));
    assert refused == Fail(GreaterThanMax("age", 10)) && obj.Get(age) == IntValue(7);
  }
}
