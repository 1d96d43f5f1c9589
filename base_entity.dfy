/** The typed property-binding layer of an entity: a snapshot of a model's
    property bag, taken once at construction, and the accessors that look a key
    up and filter or coerce the stored value by kind. Each "nullable" accessor
    answers `None` where PHP returns null; each "required" accessor wraps its
    nullable counterpart and fails with the "required" exception instead. */
module Entities {
  import opened Wrappers
  import opened PhpValues

  /** A thrown PHP exception. */
  datatype Throwable = RuntimeException(message: string)

  /** The entity `new $entityType($model)` builds from a nested model: an entity
      of class `entityType` whose property snapshot is the model's `toArray()`. */
  datatype NestedEntity = NestedEntity(entityType: string, properties: map<string, Value>)

  class BaseEntity {
    /** The model's properties. A `const`: the constructor writes it once and
        every accessor only reads it. */
    const properties: map<string, Value>

    constructor (model: Model)
      ensures properties == ToArray(model)
    {
      properties := ToArray(model);
    }

    /** Despite its name, true when the entity HAS properties. */
    function IsEmpty(): (r: bool)
      ensures r <==> exists key :: key in properties
    {
      properties != map[]
    }

    /** `isset($this->properties[$key])`: present and not null. */
    predicate IssetProperty(key: string)
      ensures IssetProperty(key) ==> key in properties
    {
      key in properties && !properties[key].VNull?
    }

    /** The stored value, or null for an absent key. */
    function Bind(key: string): (r: Value)
      ensures key in properties ==> r == properties[key]
      ensures key !in properties ==> r == VNull
    {
      if IssetProperty(key) then properties[key] else VNull
    }

    /** The exception every required accessor throws: "{key} is required.". */
    function RequiredException(key: string): (r: Throwable)
      ensures |r.message| == |key| + 13
      ensures r.message[..|key|] == key && r.message[|key|..] == " is required."
    {
      RuntimeException(key + " is required.")
    }

    /** The shape shared by every required accessor: the nullable result, or the
        required exception when that result is null. */
    function Required<T>(bind: Option<T>, key: string): (r: Result<T, Throwable>)
      ensures r.Failure? <==> bind.None?
      ensures r.Success? ==> bind == Some(r.value)
      ensures r.Failure? ==> r.error == RequiredException(key)
    {
      if bind.None? then Failure(RequiredException(key)) else Success(bind.value)
    }

    /*----------------------------------------*
     * String
     *----------------------------------------*/

    function BindNullableString(key: string): (r: Option<string>)
      ensures r.Some? <==> key in properties && properties[key].VString?
      ensures r.Some? ==> properties[key] == VString(r.value)
    {
      var bind := Bind(key);
      if bind.VString? then Some(bind.s) else None
    }

    function BindString(key: string): (r: Result<string, Throwable>)
      ensures r.Success? <==> key in properties && properties[key].VString?
      ensures r.Success? ==> BindNullableString(key) == Some(r.value)
      ensures r.Failure? ==> BindNullableString(key) == None && r.error == RequiredException(key)
    {
      Required(BindNullableString(key), key)
    }

    /*----------------------------------------*
     * Int
     *----------------------------------------*/

    function BindNullableInt(key: string): (r: Option<Int64>)
      ensures r.Some? <==> key in properties && IsNumeric(properties[key])
      ensures key in properties && properties[key].VInt? ==> r == Some(properties[key].i)
      ensures key in properties && properties[key].VFloat? ==>
        r == Some(Wrap(TruncateTowardZero(properties[key].num, properties[key].den)))
    {
      var bind := Bind(key);
      if IsNumeric(bind) then Some(IntVal(bind)) else None
    }

    function BindInt(key: string): (r: Result<Int64, Throwable>)
      ensures r.Success? <==> key in properties && IsNumeric(properties[key])
      ensures r.Success? ==> BindNullableInt(key) == Some(r.value)
      ensures r.Failure? ==> BindNullableInt(key) == None && r.error == RequiredException(key)
    {
      Required(BindNullableInt(key), key)
    }

    /*----------------------------------------*
     * Bool
     *----------------------------------------*/

    /** A value whose `intval` is 0 or 1 is first replaced by its `boolval`;
        the result is that bool, or null for anything that is still not a bool. */
    function BindNullableBool(key: string): (r: Option<bool>)
      ensures key !in properties || properties[key].VNull? ==> r == Some(false)
      ensures key in properties && properties[key].VBool? ==> r == Some(properties[key].b)
      ensures key in properties && properties[key].VInt? ==>
        r == (if properties[key].i == 1 then Some(true)
              else if properties[key].i == 0 then Some(false)
              else None)
      ensures r.None? <==>
        key in properties && IntVal(properties[key]) != 0 && IntVal(properties[key]) != 1
      ensures r.Some? ==> r.value == BoolVal(Bind(key))
    {
      var bind := Bind(key);
      var bind := if IntVal(bind) == 1 || IntVal(bind) == 0 then VBool(BoolVal(bind)) else bind;
      if bind.VBool? then Some(bind.b) else None
    }

    function BindBool(key: string): (r: Result<bool, Throwable>)
      ensures r.Failure? <==>
        key in properties && IntVal(properties[key]) != 0 && IntVal(properties[key]) != 1
      ensures r.Success? ==> BindNullableBool(key) == Some(r.value)
      ensures r.Failure? ==> BindNullableBool(key) == None && r.error == RequiredException(key)
    {
      Required(BindNullableBool(key), key)
    }

    /*----------------------------------------*
     * Array
     *----------------------------------------*/

    function BindNullableArray(key: string): (r: Option<seq<(ArrayKey, Value)>>)
      ensures r.Some? <==> key in properties && properties[key].VArray?
      ensures r.Some? ==> properties[key] == VArray(r.value)
    {
      var bind := Bind(key);
      if bind.VArray? then Some(bind.entries) else None
    }

    function BindArray(key: string): (r: Result<seq<(ArrayKey, Value)>, Throwable>)
      ensures r.Success? <==> key in properties && properties[key].VArray?
      ensures r.Success? ==> BindNullableArray(key) == Some(r.value)
      ensures r.Failure? ==> BindNullableArray(key) == None && r.error == RequiredException(key)
    {
      Required(BindNullableArray(key), key)
    }

    /*----------------------------------------*
     * Enum
     *----------------------------------------*/

    function BindNullableEnum(key: string): (r: Option<UnitEnum>)
      ensures r.Some? <==> key in properties && properties[key].VEnum?
      ensures r.Some? ==> properties[key] == VEnum(r.value)
    {
      var bind := Bind(key);
      if bind.VEnum? then Some(bind.e) else None
    }

    function BindEnum(key: string): (r: Result<UnitEnum, Throwable>)
      ensures r.Success? <==> key in properties && properties[key].VEnum?
      ensures r.Success? ==> BindNullableEnum(key) == Some(r.value)
      ensures r.Failure? ==> BindNullableEnum(key) == None && r.error == RequiredException(key)
    {
      Required(BindNullableEnum(key), key)
    }

    /*----------------------------------------*
     * Entity
     *----------------------------------------*/

    /** A stored model becomes an entity of class `entityType` built from it. */
    function BindNullableEntity(key: string, entityType: string): (r: Option<NestedEntity>)
      ensures r.Some? <==> key in properties && properties[key].VModel?
      ensures r.Some? ==> r.value.entityType == entityType
      ensures r.Some? ==> r.value.properties == ToArray(properties[key].m)
    {
      var bind := Bind(key);
      if bind.VModel? then Some(NestedEntity(entityType, ToArray(bind.m))) else None
    }

    function BindEntity(key: string, entityType: string): (r: Result<NestedEntity, Throwable>)
      ensures r.Success? <==> key in properties && properties[key].VModel?
      ensures r.Success? ==> BindNullableEntity(key, entityType) == Some(r.value)
      ensures r.Failure? ==>
        BindNullableEntity(key, entityType) == None && r.error == RequiredException(key)
    {
      Required(BindNullableEntity(key, entityType), key)
    }
  }

  /*----------------------------------------*
   * Properties
   *----------------------------------------*/

  /** `isset` and `bind` agree: a key is set exactly when `bind` does not give null. */
  lemma IssetIffBindNotNull(e: BaseEntity, key: string)
    ensures e.IssetProperty(key) <==> e.Bind(key) != VNull
  {
  }

  /** The exception message names its key: different keys give different messages. */
  lemma RequiredMessageNamesKey(e: BaseEntity, k1: string, k2: string)
    requires e.RequiredException(k1).message == e.RequiredException(k2).message
    ensures k1 == k2
  {
  }

  /** A stored decimal string of an `int` binds as that `int`. */
  lemma BindNullableIntOfDecimalString(e: BaseEntity, key: string, n: Int64)
    requires key in e.properties && e.properties[key] == VString(DecimalString(n))
    ensures e.BindNullableInt(key) == Some(n)
  {
    DecimalStringRoundTrip(n);
  }

  /** A stored string whose leading digits are followed by anything but white
      space, a decimal point or an exponent is not numeric and never binds as an
      `int`: "12abc" gives null. */
  lemma BindNullableIntOfDigitsThenText(e: BaseEntity, key: string, ds: string, c: char, rest: string)
    requires ds != [] && AllDigits(ds) && !IsDigit(c) && !IsWhitespace(c)
    requires c != '.' && c != 'e' && c != 'E'
    requires key in e.properties && e.properties[key] == VString(ds + [c] + rest)
    ensures e.BindNullableInt(key) == None
  {
    DigitsThenTextNotNumeric(ds, c, rest);
  }

  /** Absent and null keys bind as `false`, so the required bool accessor never
      throws for a missing key. */
  lemma BindBoolOfMissingKey(e: BaseEntity, key: string)
    requires !e.IssetProperty(key)
    ensures e.BindNullableBool(key) == Some(false)
    ensures e.BindBool(key) == Success(false)
  {
  }

  /** The required bool accessor throws only for a number or a string; null,
      bools, arrays, enum cases, models and other objects always bind. */
  lemma BindBoolFailsOnlyForNumbersAndStrings(e: BaseEntity, key: string)
    requires e.BindBool(key).Failure?
    ensures key in e.properties
    ensures e.properties[key].VInt? || e.properties[key].VFloat? || e.properties[key].VString?
  {
  }

  /** Strings bind as bools through `intval`: "", "0" give false, "1" gives true,
      text that starts (after white space and a sign) with neither a digit nor a
      decimal point gives true, and "2" gives null. */
  lemma BindNullableBoolOfStrings(e: BaseEntity, key: string, s: string)
    requires key in e.properties && e.properties[key] == VString(s)
    ensures s == "" || s == "0" ==> e.BindNullableBool(key) == Some(false)
    ensures s == "1" ==> e.BindNullableBool(key) == Some(true)
    ensures s == "2" ==> e.BindNullableBool(key) == None
    ensures (s != "" && DigitRun(StripSign(SkipWhitespace(s))) == 0 &&
             (StripSign(SkipWhitespace(s)) == [] || StripSign(SkipWhitespace(s))[0] != '.'))
      ==> e.BindNullableBool(key) == Some(true)
  {
    var v := e.properties[key];
    if s == "0" || s == "1" || s == "2" {
      DigitsReadBack(s);
      assert IntVal(v) == DigitsValue(s);
    } else if s == "" {
      assert IntVal(v) == 0;
    } else if DigitRun(StripSign(SkipWhitespace(s))) == 0 {
      assert IntVal(v) == 0 && BoolVal(v);
    }
  }

  /** A float binds as a bool when it truncates to 0 or 1, and then by whether it
      is non-zero: 0.5 binds as `true`, 0.0 as `false`, 2.5 as null. */
  lemma BindNullableBoolOfFloat(e: BaseEntity, key: string, num: int, den: Pos)
    requires key in e.properties && e.properties[key] == VFloat(num, den)
    requires 0 <= num < 2 * den
    ensures e.BindNullableBool(key) == Some(num != 0)
  {
    var t := TruncateTowardZero(num, den);
    assert t == 0 || t == 1;
  }

  /** Every falsy stored value binds as `false` under the bool accessor. */
  lemma BindNullableBoolOfFalsy(e: BaseEntity, key: string)
    requires key in e.properties && !BoolVal(e.properties[key])
    ensures e.BindNullableBool(key) == Some(false)
  {
    FalsyValuesHaveIntValZero(e.properties[key]);
  }

  /** Every accessor reads only the value stored under its own key: two
      entities that agree on `key` agree on every accessor for `key`. */
  lemma AccessorsReadOnlyTheirKey(e1: BaseEntity, e2: BaseEntity, key: string, entityType: string)
    requires key in e1.properties <==> key in e2.properties
    requires key in e1.properties ==> e1.properties[key] == e2.properties[key]
    ensures e1.Bind(key) == e2.Bind(key)
    ensures e1.BindString(key) == e2.BindString(key)
    ensures e1.BindInt(key) == e2.BindInt(key)
    ensures e1.BindBool(key) == e2.BindBool(key)
    ensures e1.BindArray(key) == e2.BindArray(key)
    ensures e1.BindEnum(key) == e2.BindEnum(key)
    ensures e1.BindEntity(key, entityType) == e2.BindEntity(key, entityType)
  {
  }

  /** A nested entity is a snapshot of the nested model, as an entity built
      directly from that model would be. */
  method NestedEntityMatchesConstructor(e: BaseEntity, key: string, entityType: string)
      returns (nested: BaseEntity)
    requires key in e.properties && e.properties[key].VModel?
    ensures e.BindEntity(key, entityType).Success?
    ensures nested.properties == e.BindEntity(key, entityType).value.properties
  {
    nested := new BaseEntity(e.properties[key].m);
  }
}
