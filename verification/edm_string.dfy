/**
 * The OData primitive type `Edm.String` (sap.ui.model.odata.type.String):
 * a constraint policy for nullability and maximal length layered on the
 * generic string type `sap.ui.model.type.String`.
 *
 * The generic type's parser and validator are not part of this model;
 * every operation that delegates to them takes them as a parameter.
 */
module EdmStringType {
  import opened JsValues
  import opened Wrappers

  /** The exceptions the type may throw; the generic type throws them too.
      The text of a TypeError depends on the JavaScript engine and is not
      kept; `Thrown` is a value thrown by user code the type calls into. */
  datatype Error =
    | FormatException(message: string)
    | ParseException(message: string)
    | ValidateException(message: string)
    | TypeError
    | Thrown(value: JsValue)

  /** What `"..." + v` throws when it throws: the value a user-defined
      conversion method throws, and otherwise a TypeError. */
  function ConcatError(v: JsValue): (e: Error)
    requires ConcatThrows(v)
    ensures v.Sym? ==> e == TypeError
    ensures v.Obj? && v.conversion.EngineTypeError? ==> e == TypeError
    ensures v.Obj? && v.conversion.Throws? ==> e == Thrown(v.conversion.thrown)
  {
    if v.Obj? && v.conversion.Throws? then Thrown(v.conversion.thrown) else TypeError
  }

  /** The stored constraint object `oConstraints`: each field is either
      absent or holds the value that was assigned to it. */
  datatype Constraints = Constraints(maxLength: Option<Number>, nullable: Option<bool>)

  /** The object `{}` that every call of `setConstraints` starts from. */
  const NoConstraints := Constraints(None, None)

  /** A diagnostic written to the log by `setConstraints`, carrying the
      offending value. */
  datatype Warning = IllegalMaxLength(value: JsValue) | IllegalNullable(value: JsValue)

  /** The message of the exception thrown when `null` is not nullable. */
  const IllegalNullMessage := "Illegal sap.ui.model.odata.type.String value: null"

  /** The generic string type's parser: it runs with `this` bound to the
      Edm.String instance, so it is given the stored constraints, then the
      value and the source type; it returns the parsed value or throws. */
  type BaseParser = (Constraints, JsValue, string) -> Result<JsValue, Error>

  /** The generic string type's validator, given the stored constraints for
      the same reason. */
  type BaseValidator = (Constraints, JsValue) -> Outcome<Error>

  /** Constraints as `setConstraints` leaves them: a stored `maxLength` is a
      number greater than 0, and `nullable` is stored only as `false`. */
  ghost predicate IsNormal(c: Constraints)
  {
    (c.maxLength.Some? ==> IsPositiveNumber(Num(c.maxLength.value)))
    && c.nullable != Some(true)
  }

  /** What `setConstraints` reads as the field `key` of its argument: the
      property when the argument is truthy, and `undefined` (nothing) when
      it is not. */
  function Property(arg: JsValue, key: string): JsValue
  {
    if Truthy(arg) then Get(arg, key) else Undefined
  }

  /** Whether `setConstraints(arg)` throws while building a warning
      message, and so stops before it ends, and what it throws: the error
      of the first message that cannot be built. */
  function SetConstraintsOutcome(arg: JsValue): (r: Outcome<Error>)
    ensures r.Fail? <==> ConcatThrows(Property(arg, "maxLength")) || ConcatThrows(Property(arg, "nullable"))
    ensures ConcatThrows(Property(arg, "maxLength")) ==> r == Fail(ConcatError(Property(arg, "maxLength")))
    ensures !ConcatThrows(Property(arg, "maxLength")) && ConcatThrows(Property(arg, "nullable"))
        ==> r == Fail(ConcatError(Property(arg, "nullable")))
    ensures !Truthy(arg) ==> r == Pass
  {
    var maxLength := Property(arg, "maxLength");
    var nullable := Property(arg, "nullable");
    if ConcatThrows(maxLength) then Fail(ConcatError(maxLength))
    else if ConcatThrows(nullable) then Fail(ConcatError(nullable))
    else Pass
  }

  /** The constraints `setConstraints(arg)` leaves stored, whether it ends
      normally or throws: `nullable` is never looked at once the `maxLength`
      warning has thrown. */
  function Normalize(arg: JsValue): (r: Constraints)
    ensures IsNormal(r)
    ensures r.maxLength.Some? <==> IsPositiveNumber(Property(arg, "maxLength"))
    ensures r.maxLength.Some? ==> Property(arg, "maxLength") == Num(r.maxLength.value)
    ensures r.nullable == Some(false)
        <==> Property(arg, "nullable") == Bool(false) && !ConcatThrows(Property(arg, "maxLength"))
    ensures !Truthy(arg) ==> r == NoConstraints
  {
    var maxLength := Property(arg, "maxLength");
    var nullable := Property(arg, "nullable");
    Constraints(
      if IsPositiveNumber(maxLength) then Some(maxLength.num) else None,
      if nullable == Bool(false) && !ConcatThrows(maxLength) then Some(false) else None)
  }

  /** The warnings `setConstraints(arg)` logs, in the order it logs them:
      one for a defined `maxLength` that is not a positive number, then one
      for a defined `nullable` that is not a boolean; a warning whose
      message cannot be built is not logged, and ends the call. */
  function WarningsFor(arg: JsValue): (r: seq<Warning>)
    ensures |r| <= 2
    ensures IllegalMaxLength(Property(arg, "maxLength")) in r
        <==> Property(arg, "maxLength") != Undefined && !IsPositiveNumber(Property(arg, "maxLength"))
             && !ConcatThrows(Property(arg, "maxLength"))
    ensures IllegalNullable(Property(arg, "nullable")) in r
        <==> Property(arg, "nullable") != Undefined && !Property(arg, "nullable").Bool?
             && !ConcatThrows(Property(arg, "nullable")) && !ConcatThrows(Property(arg, "maxLength"))
    ensures forall w :: w in r ==>
        w == IllegalMaxLength(Property(arg, "maxLength")) || w == IllegalNullable(Property(arg, "nullable"))
    ensures forall w :: w in r ==> !ConcatThrows(w.value)
    ensures |r| == 2 ==> r[0].IllegalMaxLength? && r[1].IllegalNullable?
    ensures !Truthy(arg) ==> r == []
  {
    var maxLength := Property(arg, "maxLength");
    var nullable := Property(arg, "nullable");
    if ConcatThrows(maxLength) then []
    else
      (if maxLength != Undefined && !IsPositiveNumber(maxLength) then [IllegalMaxLength(maxLength)] else [])
      + (if nullable != Undefined && !nullable.Bool? && !ConcatThrows(nullable) then [IllegalNullable(nullable)] else [])
  }

  /** The plain JavaScript object that holds stored constraints, with a
      property for each present field; the inverse of `Normalize` on
      normal constraints. */
  function ToObject(c: Constraints): (r: JsValue)
    ensures r.Obj? && Truthy(r) && !ConcatThrows(r)
  {
    var withMaxLength := if c.maxLength.Some? then map["maxLength" := Num(c.maxLength.value)] else map[];
    Obj(if c.nullable.Some? then withMaxLength["nullable" := Bool(c.nullable.value)] else withMaxLength, Converts)
  }

  /** An instance of the type, with its stored constraints and the ghost
      record of the warnings it has logged. */
  class EdmString {
    var constraints: Constraints
    ghost var warnings: seq<Warning>

    /** The invariant every operation that stores constraints keeps. */
    ghost predicate Valid()
      reads this
    {
      IsNormal(constraints)
    }

    /** The bare instance, before the super constructor sets its
        constraints. */
    constructor ()
      ensures Valid()
      ensures constraints == NoConstraints && warnings == []
    {
      constraints := NoConstraints;
      warnings := [];
    }

    /** `new EdmString(oFormatOptions, oConstraints)`: the super constructor
        sets the constraints, and an exception thrown there escapes `new`.
        Format options are none so far. */
    static method Create(arg: JsValue) returns (r: Result<EdmString, Error>)
      ensures r.Failure? <==> SetConstraintsOutcome(arg).Fail?
      ensures r.Failure? ==> r.error == SetConstraintsOutcome(arg).error
      ensures r.Success? ==> fresh(r.value) && r.value.Valid()
      ensures r.Success? ==> r.value.constraints == Normalize(arg) && r.value.warnings == WarningsFor(arg)
    {
      var t := new EdmString();
      var outcome := t.SetConstraints(arg);
      if outcome.Fail? {
        return Failure(outcome.error);
      }
      return Success(t);
    }

    /** Replace the stored constraints by the well-formed fields of `arg`,
        logging a warning for each malformed one; a warning message that
        cannot be built throws, leaving what was stored so far. */
    method SetConstraints(arg: JsValue) returns (outcome: Outcome<Error>)
      modifies this
      ensures Valid()
      ensures outcome == SetConstraintsOutcome(arg)
      ensures constraints == Normalize(arg)
      ensures warnings == old(warnings) + WarningsFor(arg)
    {
      constraints := Constraints(None, None);
      if Truthy(arg) {
        var maxLength := Get(arg, "maxLength");
        if IsPositiveNumber(maxLength) {
          constraints := constraints.(maxLength := Some(maxLength.num));
        } else if maxLength != Undefined {
          if ConcatThrows(maxLength) {
            return Fail(ConcatError(maxLength));
          }
          warnings := warnings + [IllegalMaxLength(maxLength)];
        }

        var nullable := Get(arg, "nullable");
        if nullable == Bool(false) {
          constraints := constraints.(nullable := Some(false));
        } else if nullable != Undefined && !nullable.Bool? {
          if ConcatThrows(nullable) {
            return Fail(ConcatError(nullable));
          }
          warnings := warnings + [IllegalNullable(nullable)];
        }
      }
      return Pass;
    }

    /** Parse `value`, expected to be of type `sourceType`, to a string;
        `""` becomes `null` whatever the source type. */
    function ParseValue(value: JsValue, sourceType: string, baseParse: BaseParser): (r: Result<JsValue, Error>)
      reads this
      ensures value == Str("") ==> r == Success(Null)
      ensures value != Str("") ==> r == baseParse(constraints, value, sourceType)
    {
      if value == Str("") then Success(Null) else baseParse(constraints, value, sourceType)
    }

    /** Validate `value` in model representation against the stored
        constraints: `null` is rejected exactly when it is not nullable,
        every other value is left to the generic validator. */
    function ValidateValue(value: JsValue, baseValidate: BaseValidator): (r: Outcome<Error>)
      reads this
      ensures value == Null ==> (r.Fail? <==> constraints.nullable == Some(false))
      ensures value == Null && r.Fail? ==> r.error.ValidateException?
      ensures value != Null ==> r == baseValidate(constraints, value)
    {
      if value == Null then
        if constraints.nullable == Some(false) then Fail(ValidateException(IllegalNullMessage)) else Pass
      else
        baseValidate(constraints, value)
    }
  }
}
