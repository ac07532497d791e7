# Edm.String constraint policy

A model of the OData primitive type `Edm.String` of the UI5 data-binding layer
(`sap.ui.model.odata.type.String`), the type of the Abstract Type System of
OData Version 2.0. The type sits on top of the generic string type
`sap.ui.model.type.String` and adds a small policy of its own:

- `setConstraints` cleans a loosely typed constraint object into
  `{maxLength?, nullable?}`: `maxLength` is kept only when it is a number
  greater than 0, `nullable` only when it is `false`; a defined but malformed
  field is dropped and a warning is logged. Building the warning message
  converts the offending value to a string. That throws a TypeError for a
  Symbol or for an object that has no conversion to a primitive. For an
  object whose own `valueOf` or `toString` throws, it throws whatever that
  method throws. The call then stops with what it has stored so far (`{}`,
  or `{maxLength}` when only `nullable` is at fault), and the exception
  escapes `new` as well.
- `validateValue` rejects `null` with a `ValidateException` exactly when the
  stored `nullable` is `false`, and hands every other value to the generic
  validator.
- `parseValue` maps `""` to `null` and hands every other value to the
  generic parser.

JavaScript values are the datatype `JsValues.JsValue`; numbers are exact
(`Finite(real)`, `NaN` and the two infinities), so `typeof v === "number" &&
v > 0` and truthiness are decided without floating point. The stored
constraint object is the field `constraints` of the class
`EdmStringType.EdmString`; the warning log is its ghost field `warnings`.
The generic type's parser and validator are not part of this model: the
operations that delegate to them take them as function parameters
(`BaseParser`, `BaseValidator`), and both are given the stored constraints
because they run with `this` bound to the instance. `ToObject` writes stored
constraints back as a plain JavaScript object; it stands for no operation of
the type and serves the round-trip lemmas.

The doc comment of `setConstraints` calls `maxLength` an int, but the code
(String.js:113) keeps any number greater than 0, fractions and `Infinity`
included; the model follows the code.

Files: `js_values.dfy` (JavaScript values), `wrappers.dfy` (`Option`,
`Result`, `Outcome`), `edm_string.dfy` (the type), `edm_string_properties.dfy`
(properties relating several operations or calls).

## Model

| member | source | states |
|---|---|---|
| `EdmStringType.SetConstraintsOutcome` | src/sap.ui.core/src/sap/ui/model/odata/type/String.js:112-127 | `setConstraints` throws iff the `maxLength` or the `nullable` it reads cannot be converted to a string; it throws what the `maxLength` conversion throws when that one fails, and otherwise what the `nullable` conversion throws; it never throws for a falsy argument |
| `EdmStringType.ConcatError` | src/sap.ui.core/src/sap/ui/model/odata/type/String.js:116 | building a warning message from a Symbol, or from an object the engine cannot convert, throws a TypeError; a user-defined conversion method's own exception propagates unchanged |
| `EdmStringType.Normalize` | src/sap.ui.core/src/sap/ui/model/odata/type/String.js:107-129 | the stored constraints are normal; `maxLength` is stored iff the argument's `maxLength` is a number greater than 0, and then with that value; `nullable: false` is stored iff the argument's `nullable === false` and the `maxLength` warning did not throw first; a falsy argument gives `{}` |
| `EdmStringType.WarningsFor` | src/sap.ui.core/src/sap/ui/model/odata/type/String.js:112-127 | a `maxLength` warning is logged iff `maxLength` is defined, not a positive number and convertible to a string; a `nullable` warning iff `nullable` is defined, not a boolean and convertible, and the `maxLength` warning did not throw; every logged value converts; at most two warnings, `maxLength` first; nothing for a falsy argument |
| `EdmStringType.EdmString.SetConstraints` | src/sap.ui.core/src/sap/ui/model/odata/type/String.js:107-129 | returns `SetConstraintsOutcome(arg)`; the new constraints are `Normalize(arg)`, independent of the old ones, on both the normal and the throwing path; the log grows by exactly `WarningsFor(arg)`; the constraints stay normal |
| `EdmStringType.EdmString.Create` | src/sap.ui.core/src/sap/ui/model/odata/type/String.js:34-37 | `new` fails exactly when setting the constraints throws, and with that same exception; otherwise a fresh instance holds `Normalize(arg)` and has logged `WarningsFor(arg)` |
| `EdmStringType.EdmString.ParseValue` | src/sap.ui.core/src/sap/ui/model/odata/type/String.js:59-74 | `""` parses to `null` for every source type; every other value gets the generic parser's result, exceptions included |
| `EdmStringType.EdmString.ValidateValue` | src/sap.ui.core/src/sap/ui/model/odata/type/String.js:76-93 | `null` fails iff the stored `nullable` is `false`, and then with a `ValidateException`; every other value (including `undefined`) gets the generic validator's outcome, the `null` branch playing no part |
| `EdmStringProperties.NullRejectedIffNullableFalse` | src/sap.ui.core/src/sap/ui/model/odata/type/String.js:86-89 | after `setConstraints(arg)`, validating `null` throws iff `arg.nullable === false` and the call reached it, and the exception is a `ValidateException` |
| `EdmStringProperties.NullableDefaultsToTrue` | src/sap.ui.core/src/sap/ui/model/odata/type/String.js:102-104 | when `nullable` is absent, `true` or malformed, `null` validates whatever the generic validator would say |
| `EdmStringProperties.ThrowingMaxLengthSkipsNullable` | src/sap.ui.core/src/sap/ui/model/odata/type/String.js:115-121 | a `maxLength` whose warning cannot be built makes the call throw that conversion's error with `{}` stored and nothing logged, so `null` stays acceptable even for `nullable: false` |
| `EdmStringProperties.ForeignConversionErrorPropagates` | src/sap.ui.core/src/sap/ui/model/odata/type/String.js:116 | a `maxLength` whose `toString` (or `valueOf`) throws its own exception makes `setConstraints` throw that exception, not a TypeError |
| `EdmStringProperties.EmptyParsesWithoutBase` | src/sap.ui.core/src/sap/ui/model/odata/type/String.js:73 | parsing `""` succeeds and gives the same result under any two generic parsers, for any source type |
| `EdmStringProperties.RoundTrip` | src/sap.ui.core/src/sap/ui/model/odata/type/String.js:110-127 | normal constraints written out as an object are stored back unchanged, without a warning and without throwing |
| `EdmStringProperties.NormalizeIdempotent` | src/sap.ui.core/src/sap/ui/model/odata/type/String.js:110-127 | re-applying `setConstraints` to its own output does not throw, changes nothing and logs nothing |
| `EdmStringProperties.ReplayLastWins` | src/sap.ui.core/src/sap/ui/model/odata/type/String.js:110-111 | after any non-empty series of `setConstraints` calls, whatever the starting constraints, the stored constraints are those of the last argument alone |
| `EdmStringProperties.LoggedWarningsAreDefined` | src/sap.ui.core/src/sap/ui/model/odata/type/String.js:115-126 | over a series of calls, at most two warnings per call are logged; each carries a defined, convertible value, and a `maxLength` (`nullable`) warning carries the `maxLength` (`nullable`) read from one of the arguments |

## Left out

- `formatValue` (String.js:57) is an alias of the generic string type's formatter, whose code is not part of this model; it adds no behaviour of its own.
- The generic type `sap.ui.model.type.String` (its parser, validator and the actual `maxLength` enforcement) is not part of this model; it enters only as the parameters `BaseParser` and `BaseValidator`, which see the stored constraints. Format options, which it may also read, are not modelled.
- Class machinery (`SimpleType.extend`, `sName`) and the exact text of log messages are not modelled; a warning records only which field was malformed and its value.
- The logging call itself is I/O; the model records each warning in the ghost sequence `warnings`.
- Property reads are modelled as reads of a map: getters with side effects, and a getter for `nullable` that answers differently on its repeated reads, are not captured. Negative zero is not distinguished from zero.
- The Issue Manager of `sap.ui.support` is a separate component and is not modelled.
- EdmStringType.EdmString.Create: the warning log is kept per instance, so a warning logged by a `new` that then throws is not recorded anywhere; the log itself is global in the source.
- The engine-specific text of a TypeError is not kept.
- EdmStringType.SetConstraintsOutcome: a conversion method is modelled only by how it ends. One with side effects is not captured. An example is a `toString` that rewrites `arg.nullable` before line 120 reads it.
- EdmStringType.Normalize: the stored constraints are computed from the argument as it was before the call, so they miss side effects of conversion methods run while the call builds a warning.
- EdmStringType.EdmString.Create: a constraint value whose conversion method has side effects is captured only through the error it throws, if any.
