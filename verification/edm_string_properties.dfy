/**
 * Properties of the Edm.String constraint policy that relate several
 * operations or several calls.
 */
module EdmStringProperties {
  import opened JsValues
  import opened Wrappers
  import opened EdmStringType

  /** Validating `null` after `setConstraints(arg)` fails exactly when
      `arg.nullable === false` and the call got as far as reading it. */
  lemma NullRejectedIffNullableFalse(t: EdmString, arg: JsValue, baseValidate: BaseValidator)
    requires t.constraints == Normalize(arg)
    ensures t.ValidateValue(Null, baseValidate).Fail?
        <==> Property(arg, "nullable") == Bool(false) && !ConcatThrows(Property(arg, "maxLength"))
    ensures t.ValidateValue(Null, baseValidate).Fail?
        ==> t.ValidateValue(Null, baseValidate) == Fail(ValidateException(IllegalNullMessage))
  {
  }

  /** `nullable` defaults to true: when it is absent, `true` or not a
      boolean, `null` validates, whatever the generic validator says. */
  lemma NullableDefaultsToTrue(t: EdmString, arg: JsValue, baseValidate: BaseValidator)
    requires t.constraints == Normalize(arg)
    requires Property(arg, "nullable") != Bool(false)
    ensures t.ValidateValue(Null, baseValidate) == Pass
  {
  }

  /** A `maxLength` whose warning cannot be built throws, with the error
      its conversion raises, before `nullable` is read: nothing is stored,
      nothing is logged, and `null` stays acceptable even when `nullable`
      is `false`. */
  lemma ThrowingMaxLengthSkipsNullable(t: EdmString, arg: JsValue, baseValidate: BaseValidator)
    requires ConcatThrows(Property(arg, "maxLength"))
    requires t.constraints == Normalize(arg)
    ensures SetConstraintsOutcome(arg) == Fail(ConcatError(Property(arg, "maxLength")))
    ensures Normalize(arg) == NoConstraints && WarningsFor(arg) == []
    ensures t.ValidateValue(Null, baseValidate) == Pass
  {
  }

  /** An exception thrown by a user-defined conversion method of the
      offending `maxLength`, such as a `toString` that throws a RangeError,
      propagates out of `setConstraints` unchanged, not as a TypeError. */
  lemma ForeignConversionErrorPropagates(arg: JsValue, props: map<string, JsValue>, thrown: JsValue)
    requires Property(arg, "maxLength") == Obj(props, Throws(thrown))
    ensures SetConstraintsOutcome(arg) == Fail(Thrown(thrown))
    ensures SetConstraintsOutcome(arg) != Fail(TypeError)
  {
  }

  /** `""` parses to `null` without consulting the generic parser: two
      parsers give the same result for it, and neither can make it fail. */
  lemma EmptyParsesWithoutBase(t: EdmString, sourceType: string, p1: BaseParser, p2: BaseParser)
    ensures t.ParseValue(Str(""), sourceType, p1) == t.ParseValue(Str(""), sourceType, p2)
    ensures t.ParseValue(Str(""), sourceType, p1).Success?
  {
  }

  /** Stored constraints written back as an object are taken over unchanged
      and without a warning: `ToObject` is a right inverse of `Normalize`
      on normal constraints. */
  lemma RoundTrip(c: Constraints)
    requires IsNormal(c)
    ensures SetConstraintsOutcome(ToObject(c)) == Pass
    ensures Normalize(ToObject(c)) == c
    ensures WarningsFor(ToObject(c)) == []
  {
  }

  /** Re-applying `setConstraints` to its own output changes nothing and
      logs nothing. */
  lemma NormalizeIdempotent(arg: JsValue)
    ensures SetConstraintsOutcome(ToObject(Normalize(arg))) == Pass
    ensures Normalize(ToObject(Normalize(arg))) == Normalize(arg)
    ensures WarningsFor(ToObject(Normalize(arg))) == []
  {
    RoundTrip(Normalize(arg));
  }

  /** The constraints stored after calling `setConstraints` with each of
      `args` in turn, starting from `c`. */
  function Replay(c: Constraints, args: seq<JsValue>): Constraints
    decreases |args|
  {
    if args == [] then c else Replay(Normalize(args[0]), args[1..])
  }

  /** The warnings logged by calling `setConstraints` with each of `args`
      in turn. */
  function Logged(args: seq<JsValue>): seq<Warning>
    decreases |args|
  {
    if args == [] then [] else WarningsFor(args[0]) + Logged(args[1..])
  }

  /** `setConstraints` replaces the previous constraints entirely: after a
      series of calls only the last argument matters. */
  lemma {:induction false} ReplayLastWins(c: Constraints, args: seq<JsValue>)
    requires |args| > 0
    ensures Replay(c, args) == Normalize(args[|args| - 1])
    decreases |args|
  {
    if |args| > 1 {
      ReplayLastWins(Normalize(args[0]), args[1..]);
    }
  }

  /** Every logged warning carries a defined, printable value that was
      read, as the field its kind names, from one of the arguments; each
      call logs at most two. */
  lemma {:induction false} LoggedWarningsAreDefined(args: seq<JsValue>)
    ensures |Logged(args)| <= 2 * |args|
    ensures forall w :: w in Logged(args) ==> w.value != Undefined && !ConcatThrows(w.value)
    ensures forall w :: w in Logged(args) && w.IllegalMaxLength? ==>
        exists i :: 0 <= i < |args| && w.value == Property(args[i], "maxLength")
    ensures forall w :: w in Logged(args) && w.IllegalNullable? ==>
        exists i :: 0 <= i < |args| && w.value == Property(args[i], "nullable")
    decreases |args|
  {
    if args != [] {
      LoggedWarningsAreDefined(args[1..]);
      forall w | w in Logged(args)
        ensures w.IllegalMaxLength? ==> exists i :: 0 <= i < |args| && w.value == Property(args[i], "maxLength")
        ensures w.IllegalNullable? ==> exists i :: 0 <= i < |args| && w.value == Property(args[i], "nullable")
      {
        if w in WarningsFor(args[0]) {
          assert w.IllegalMaxLength? ==> w.value == Property(args[0], "maxLength");
        } else {
          assert w in Logged(args[1..]);
          if w.IllegalMaxLength? {
            var j :| 0 <= j < |args[1..]| && w.value == Property(args[1..][j], "maxLength");
            assert args[1..][j] == args[j + 1];
          } else {
            var j :| 0 <= j < |args[1..]| && w.value == Property(args[1..][j], "nullable");
            assert args[1..][j] == args[j + 1];
          }
        }
      }
    }
  }
}
