# BaseEntity property binding, modelled in Dafny

This is a model of the typed property-binding layer of the Laravel-Repository package's
`BaseEntity`. At construction, an entity takes a snapshot of its model's property bag:
the `string → mixed` array that `toArray()` returns. Subclasses then read that snapshot
through a family of accessors:

- `bind` gives the stored value, with `isset` semantics.
- The "nullable" accessors give the value when it has the right kind and null otherwise.
  There is one for string, int, bool, array, enum and nested entity.
- The "required" accessors wrap a nullable accessor. When its result is null they throw
  a `RuntimeException` with the message `"{key} is required."`.

The model has three files:

- `wrappers.dfy` has `Option` and `Result`. `Option` is PHP's `T|null`, and `Result` is
  "returned or thrown".
- `php_values.dfy` (module `PhpValues`) has PHP values as a datatype. It also has the
  PHP built-ins the accessors depend on: `is_numeric`, `intval`, `boolval`, and `strval`
  of an int. These are written out for a 64-bit build: `int` is `Int64`, integer strings
  saturate and out-of-range floats wrap modulo 2^64.
- `base_entity.dfy` (module `Entities`) has the class `BaseEntity`. Its `properties` is a
  `const` that the constructor sets from `toArray()`. Every accessor is a function that
  only reads that `const`, so no accessor can change the snapshot. The Dafny type system
  enforces this.

The model follows the code where the code differs from the names and documentation:

- `isEmpty()` returns true when the entity HAS properties. The body is
  `!empty($this->properties)`.
- `bindNullableBool` first replaces any value whose `intval` is 0 or 1 with that value's
  `boolval`. So an absent key or a stored null gives `false`, not null, and `bindBool`
  never throws for a missing key. The same step makes 0.5, `"abc"`, a non-empty array
  and any object give `true`. Only a number or a string whose `intval` is neither 0 nor
  1 gives null.

## Model

| member | source | states |
|---|---|---|
| `Entities.BaseEntity.constructor` | src/BaseEntity.php:30-35 | the property snapshot is the model's `toArray()` |
| `Entities.BaseEntity.IsEmpty` | src/BaseEntity.php:49-52 | true exactly when some key is present (the inverted name is kept) |
| `Entities.BaseEntity.IssetProperty` | src/BaseEntity.php:64-67 | a key counts as set only if it is present |
| `Entities.BaseEntity.Bind` | src/BaseEntity.php:75-78 | a present key gives its stored value (a stored null stays null); an absent key gives null |
| `Entities.IssetIffBindNotNull` | src/BaseEntity.php:64-78 | a key is set exactly when `bind` does not give null |
| `Entities.BaseEntity.RequiredException` | src/BaseEntity.php:320-323 | a `RuntimeException` whose message is the key followed by " is required." |
| `Entities.RequiredMessageNamesKey` | src/BaseEntity.php:320-323 | different keys give different exception messages |
| `Entities.BaseEntity.Required` | src/BaseEntity.php:101-105 | throws exactly when the nullable result is null, and then throws the required exception; otherwise returns the same value |
| `Entities.BaseEntity.BindNullableString` | src/BaseEntity.php:86-91 | a stored string unchanged; null for every other kind (int, bool and others) and for an absent key |
| `Entities.BaseEntity.BindString` | src/BaseEntity.php:99-106 | succeeds exactly when a string is stored; its value is `bindNullableString`'s; otherwise throws "{key} is required." |
| `Entities.BaseEntity.BindNullableInt` | src/BaseEntity.php:114-119 | non-null exactly for a numeric value; a stored int unchanged; a float truncated toward zero |
| `PhpValues.IsNumeric` | src/BaseEntity.php:118 | `is_numeric`: only an int, a float or a string can be numeric; every int and float is |
| `PhpValues.IsNumericString` | src/BaseEntity.php:118 | `is_numeric` of a string: white space, an optional sign, digits, white space; a numeric string contains a digit |
| `PhpValues.StringToInt` | src/BaseEntity.php:118 | `intval` of a string: 0 when no digits follow the white space and sign; negative only after a leading minus sign |
| `PhpValues.IntVal` | src/BaseEntity.php:118 | `intval`: null, false and `[]` give 0; true and a non-empty array give 1; an int is unchanged; a float is truncated and wrapped modulo 2^64; a string gives its leading integer, saturated; any object gives 1 |
| `PhpValues.BoolVal` | src/BaseEntity.php:174-176 | `boolval` is false exactly for null, false, 0, 0.0, "", "0" and `[]` |
| `PhpValues.TruncateTowardZero` | src/BaseEntity.php:118 | `intval` of a float: the integer part, bounded by the float on the side of zero |
| `PhpValues.FloatIntValTruncates` | src/BaseEntity.php:118 | `intval` of an in-range float lies within one unit of it, on the side of zero |
| `PhpValues.DecimalStringRoundTrip` | src/BaseEntity.php:118 | `strval` of an int is numeric, and `intval` of it gives back the int |
| `Entities.BindNullableIntOfDecimalString` | src/BaseEntity.php:114-119 | a stored decimal string of an int binds as that int |
| `PhpValues.DigitsThenTextNotNumeric` | src/BaseEntity.php:118 | digits followed by a character other than a digit, white space, '.', 'e' or 'E' ("12abc") are not numeric, though `intval` reads the digits |
| `Entities.BindNullableIntOfDigitsThenText` | src/BaseEntity.php:114-119 | such a stored string binds as null |
| `Entities.BaseEntity.BindInt` | src/BaseEntity.php:127-134 | succeeds exactly for a stored numeric value; its value is `bindNullableInt`'s; otherwise throws "{key} is required." |
| `Entities.BaseEntity.BindNullableBool` | src/BaseEntity.php:170-177 | absent or null gives false; a bool is unchanged; int 1 gives true, 0 gives false, other ints give null; null exactly when `intval` of the stored value is neither 0 nor 1; otherwise `boolval` of the value |
| `PhpValues.FalsyValuesHaveIntValZero` | src/BaseEntity.php:174 | every value whose `boolval` is false has `intval` 0 |
| `Entities.BindNullableBoolOfFalsy` | src/BaseEntity.php:170-177 | every falsy stored value binds as false |
| `Entities.BindNullableBoolOfStrings` | src/BaseEntity.php:170-177 | "" and "0" give false, "1" gives true, "2" gives null; text that starts, after white space and a sign, with neither a digit nor '.' gives true |
| `Entities.BindNullableBoolOfFloat` | src/BaseEntity.php:170-177 | a float in [0, 2) gives whether it is non-zero, so 0.5 gives true |
| `Entities.BaseEntity.BindBool` | src/BaseEntity.php:185-192 | fails exactly when `intval` of a stored value is neither 0 nor 1; its value is `bindNullableBool`'s; otherwise throws "{key} is required." |
| `Entities.BindBoolOfMissingKey` | src/BaseEntity.php:170-192 | an absent or null key gives false, and the required accessor does not throw |
| `Entities.BindBoolFailsOnlyForNumbersAndStrings` | src/BaseEntity.php:185-192 | the required bool accessor throws only for a stored int, float or string |
| `Entities.BaseEntity.BindNullableArray` | src/BaseEntity.php:200-205 | a stored array unchanged; null for every other kind |
| `Entities.BaseEntity.BindArray` | src/BaseEntity.php:213-220 | succeeds exactly when an array is stored; its value is `bindNullableArray`'s; otherwise throws "{key} is required." |
| `Entities.BaseEntity.BindNullableEnum` | src/BaseEntity.php:262-267 | a stored enum case unchanged; null for every other kind |
| `Entities.BaseEntity.BindEnum` | src/BaseEntity.php:275-282 | succeeds exactly when an enum case is stored; its value is `bindNullableEnum`'s; otherwise throws "{key} is required." |
| `Entities.BaseEntity.BindNullableEntity` | src/BaseEntity.php:291-296 | non-null exactly for a stored model; then an entity of the requested class whose snapshot is that model's `toArray()` |
| `Entities.BaseEntity.BindEntity` | src/BaseEntity.php:305-312 | succeeds exactly when a model is stored; its value is `bindNullableEntity`'s; otherwise throws "{key} is required." |
| `Entities.NestedEntityMatchesConstructor` | src/BaseEntity.php:291-296 | the nested entity's snapshot equals that of an entity constructed directly from the stored model |
| `Entities.AccessorsReadOnlyTheirKey` | src/BaseEntity.php:75-312 | every accessor depends only on the value stored under its own key |

## Left out

- `bindNullableFloat` and `bindFloat` are not modelled. They convert with `floatval`,
  and the model has no IEEE floating point. A float appears only as an exact rational
  `num / den`, where the int and bool accessors meet it. NaN and infinities are not
  represented.
- `bindNullableTimestamp` and `bindTimestamp` are not modelled. They depend on Carbon's
  date parsing, which is not part of this model.
- The abstract `bindProperties()` hook that the constructor calls is not modelled. Only
  subclasses implement it, and none is part of this model. The same applies to the
  nested entity: `bindNullableEntity` yields the class name and the snapshot the new
  entity takes, not an object of that dynamically named class.
- `BaseRepository` and the interfaces under `src/Interface/` are not modelled. The first
  forwards calls to the framework's query builder, and the interfaces have no behaviour.
  `toArray()` is taken as given: any PHP value may appear in the bag.
- `PhpValues.IsNumericString` and `PhpValues.StringToInt` do not model PHP's decimal-point
  and exponent forms (`"1.5"`, `"1e3"`). The model treats such strings as non-numeric,
  and `intval` reads only their leading integer.
- `intval` of an object is modelled as 1, PHP 8's result after its "could not be
  converted" warning. The warning itself is not modelled. Under an error handler that
  turns warnings into exceptions (Laravel installs one), `bindNullableBool` throws an
  `ErrorException` for a stored object instead. The statement above that any object
  gives `true` holds only without such a handler.
- `Entities.BaseEntity.BindEntity` succeeds exactly when a model is stored. In PHP,
  `new $entityType($bind)` (src/BaseEntity.php:295) also runs the nested class's
  constructor and its `bindProperties` hook, which can throw. So `bindEntity` can throw
  even when a model is stored. The same holds for `BindNullableEntity`, whose PHP
  counterpart can throw too.
- PHP's conversion of integer-like string array keys to int keys does not affect the
  lookups here, so it is not modelled.
- `Entities.BaseEntity.IssetProperty` states in its own contract only that a set key is
  present. Its full `isset` meaning, "present and not null", is stated together with
  `Bind` in `Entities.IssetIffBindNotNull`.
