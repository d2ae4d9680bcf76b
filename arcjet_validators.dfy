/**
 * The option validators of the rule library: the combinators that build a
 * validator from a list of allowed `typeof` results, from a list of allowed
 * string values, or from a validator of array elements, and the validator of
 * a whole options record built from `{key, required, validate}` entries.
 *
 * A validator call either completes normally or throws; validators throw
 * `Error` objects whose message says what was wrong.
 */
module Validators {
  import opened JsValue

  /** How a call completes: normally with a result, or by throwing a value. */
  datatype Completion = Normal(result: Value) | Throw(error: Value)

  /** The closures that the three combinators return. */
  datatype Validator =
    | TypeValidator(types: seq<string>)    // createTypeValidator(...types)
    | ValueValidator(values: seq<string>)  // createValueValidator(...values)
    | ArrayValidator(element: Validator)   // createArrayValidator(validate)

  /** One `{key, required, validate}` entry of `createValidator`. */
  datatype Validation = Validation(key: string, required: bool, validate: Validator)

  function Quoted(key: string): string {
    "`" + key + "`"
  }

  function TypeMessage(key: string, types: seq<string>): string {
    if |types| == 1 then "invalid type for " + Quoted(key) + " - expected " + types[0]
    else "invalid type for " + Quoted(key) + " - expected one of " + Join(types, ", ")
  }

  function QuoteEach(values: seq<string>): (r: seq<string>)
    ensures |r| == |values|
    ensures forall i :: 0 <= i < |values| ==> r[i] == "'" + values[i] + "'"
  {
    seq(|values|, i requires 0 <= i < |values| => "'" + values[i] + "'")
  }

  function ValueMessage(key: string, values: seq<string>): string {
    "invalid value for " + Quoted(key) + " - expected one of " + Join(QuoteEach(values), ", ")
  }

  function ArrayMessage(key: string): string {
    "invalid type for " + Quoted(key) + " - expected an array"
  }

  /** The key under which an array element is validated: `${key}[${idx}]`. */
  function ElementKey(key: string, idx: nat): string {
    key + "[" + NatToString(idx) + "]"
  }

  /**
   * The closure of `createTypeValidator(...types)`.
   */
  function CheckType(types: seq<string>, key: string, value: Value): Completion {
    if TypeOf(value) !in types then Throw(NewError(TypeMessage(key, types)))
    else Normal(Bool(false))
  }

  /**
   * The type validator throws exactly when the value's `typeof` is not among
   * the types, naming the single type or listing them all, and returns false
   * otherwise.
   */
  lemma TypeValidatorMeaning(types: seq<string>, key: string, value: Value)
    ensures Validate(TypeValidator(types), key, value).Throw? <==> TypeOf(value) !in types
    ensures Validate(TypeValidator(types), key, value).Normal? ==>
      Validate(TypeValidator(types), key, value).result == Bool(false)
    ensures Validate(TypeValidator(types), key, value).Throw? && |types| == 1 ==>
      ErrorMessage(Validate(TypeValidator(types), key, value).error) ==
        "invalid type for " + Quoted(key) + " - expected " + types[0]
    ensures Validate(TypeValidator(types), key, value).Throw? && |types| != 1 ==>
      ErrorMessage(Validate(TypeValidator(types), key, value).error) ==
        "invalid type for " + Quoted(key) + " - expected one of " + Join(types, ", ")
  {
  }

  /**
   * The closure of `createValueValidator(...values)`.
   */
  function CheckValue(values: seq<string>, key: string, value: Value): Completion {
    if value.Str? && value.s in values then Normal(Undefined)
    else Throw(NewError(ValueMessage(key, values)))
  }

  /**
   * The value validator accepts exactly the strings listed, returning
   * undefined, and throws for every other value, whatever its type.
   */
  lemma ValueValidatorMeaning(values: seq<string>, key: string, value: Value)
    ensures Validate(ValueValidator(values), key, value).Normal? <==> value.Str? && value.s in values
    ensures Validate(ValueValidator(values), key, value).Normal? ==>
      Validate(ValueValidator(values), key, value).result == Undefined
    ensures Validate(ValueValidator(values), key, value).Throw? ==>
      ErrorMessage(Validate(ValueValidator(values), key, value).error) == ValueMessage(key, values)
  {
  }

  /**
   * A loop over calls that stops at the first call that throws: the first
   * throw among `calls[from..]`, or a normal completion with undefined.
   */
  function FirstThrow(calls: seq<Completion>, from: nat): Completion
    requires from <= |calls|
    decreases |calls| - from
  {
    if from == |calls| then Normal(Undefined)
    else if calls[from].Throw? then calls[from]
    else FirstThrow(calls, from + 1)
  }

  /**
   * Such a loop completes normally, with undefined, exactly when no call
   * throws, and otherwise throws what the first throwing call threw.
   */
  lemma {:induction false} FirstThrowMeaning(calls: seq<Completion>, from: nat)
    requires from <= |calls|
    ensures FirstThrow(calls, from).Normal? ==> FirstThrow(calls, from).result == Undefined
    ensures FirstThrow(calls, from).Normal? <==> forall i :: from <= i < |calls| ==> calls[i].Normal?
    ensures FirstThrow(calls, from).Throw? ==>
      exists i :: from <= i < |calls| && FirstThrow(calls, from) == calls[i] &&
        forall j :: from <= j < i ==> calls[j].Normal?
    decreases |calls| - from
  {
    if from < |calls| && calls[from].Normal? {
      FirstThrowMeaning(calls, from + 1);
      if FirstThrow(calls, from).Throw? {
        var i :| from + 1 <= i < |calls| && FirstThrow(calls, from + 1) == calls[i] &&
          forall j :: from + 1 <= j < i ==> calls[j].Normal?;
        assert from <= i < |calls|;
      }
    }
  }

  /** What a validator does with `(key, value)`. */
  function Validate(v: Validator, key: string, value: Value): Completion
    decreases v, 0
  {
    match v
    case TypeValidator(types) => CheckType(types, key, value)
    case ValueValidator(values) => CheckValue(values, key, value)
    case ArrayValidator(element) =>
      if value.Arr? then FirstThrow(ElementCalls(element, key, value.items), 0)
      else Throw(NewError(ArrayMessage(key)))
  }

  /** The calls of the element validator, one per element. */
  function ElementCalls(element: Validator, key: string, items: seq<Value>): (calls: seq<Completion>)
    ensures |calls| == |items|
    decreases element, 1
  {
    seq(|items|, i requires 0 <= i < |items| => Validate(element, ElementKey(key, i), items[i]))
  }

  /**
   * `createArrayValidator(validate)` rejects every value that is not an
   * array, and rejects an array exactly when one of its elements fails
   * under the key `key[idx]`, throwing the first such element's error.
   */
  lemma ArrayValidatorMeaning(element: Validator, key: string, value: Value)
    ensures !value.Arr? ==>
      Validate(ArrayValidator(element), key, value) == Throw(NewError(ArrayMessage(key)))
    ensures value.Arr? ==>
      (Validate(ArrayValidator(element), key, value).Normal? <==>
       forall i :: 0 <= i < |value.items| ==> Validate(element, ElementKey(key, i), value.items[i]).Normal?)
    ensures value.Arr? && Validate(ArrayValidator(element), key, value).Throw? ==>
      exists i :: 0 <= i < |value.items| &&
        Validate(ArrayValidator(element), key, value) == Validate(element, ElementKey(key, i), value.items[i]) &&
        forall j :: 0 <= j < i ==> Validate(element, ElementKey(key, j), value.items[j]).Normal?
  {
    if value.Arr? {
      var calls := ElementCalls(element, key, value.items);
      FirstThrowMeaning(calls, 0);
      assert forall i :: 0 <= i < |calls| ==> calls[i] == Validate(element, ElementKey(key, i), value.items[i]);
    }
  }

  /** The closure of a validator, which loops over the elements of an array. */
  method RunValidator(v: Validator, key: string, value: Value) returns (c: Completion)
    ensures c == Validate(v, key, value)
    decreases v
  {
    match v
    case TypeValidator(types) =>
      c := CheckType(types, key, value);
    case ValueValidator(values) =>
      c := CheckValue(values, key, value);
    case ArrayValidator(element) =>
      if !value.Arr? {
        c := Throw(NewError(ArrayMessage(key)));
        return;
      }
      var items := value.items;
      ghost var calls := ElementCalls(element, key, items);
      var idx := 0;
      while idx < |items|
        invariant 0 <= idx <= |items|
        invariant FirstThrow(calls, idx) == FirstThrow(calls, 0)
      {
        var r := RunValidator(element, ElementKey(key, idx), items[idx]);
        if r.Throw? {
          c := r;
          return;
        }
        idx := idx + 1;
      }
      c := Normal(Undefined);
  }

  function OptionsError(rule: string, detail: string): string {
    Quoted(rule) + " options error: " + detail
  }

  /** One iteration of the loop of `createValidator`. */
  function CheckEntry(rule: string, entry: Validation, options: map<string, Value>): Completion {
    if entry.required && entry.key !in options then
      Throw(NewError(OptionsError(rule, Quoted(entry.key) + " is required")))
    else
      var value := Get(options, entry.key);
      if !Defined(value) then Normal(Undefined)
      else
        match Validate(entry.validate, entry.key, value)
        case Throw(err) => Throw(NewError(OptionsError(rule, ErrorMessage(err))))
        case Normal(_) => Normal(Undefined)
  }

  /**
   * An entry's check: a missing required key is an error naming the rule
   * and the key; an undefined value is never handed to the validator; an
   * error the validator throws is thrown again with its message prefixed by
   * the rule name.
   */
  lemma EntryMeaning(rule: string, entry: Validation, options: map<string, Value>)
    ensures CheckEntry(rule, entry, options).Normal? ==> CheckEntry(rule, entry, options).result == Undefined
    ensures entry.required && entry.key !in options ==>
      ErrorMessage(CheckEntry(rule, entry, options).error) ==
        Quoted(rule) + " options error: " + Quoted(entry.key) + " is required"
    ensures !(entry.required && entry.key !in options) && !Defined(Get(options, entry.key)) ==>
      CheckEntry(rule, entry, options) == Normal(Undefined)
    ensures !(entry.required && entry.key !in options) && Defined(Get(options, entry.key)) ==>
      match Validate(entry.validate, entry.key, Get(options, entry.key))
      case Normal(_) => CheckEntry(rule, entry, options) == Normal(Undefined)
      case Throw(err) =>
        CheckEntry(rule, entry, options).Throw? &&
        ErrorMessage(CheckEntry(rule, entry, options).error) == Quoted(rule) + " options error: " + ErrorMessage(err)
  {
  }

  /** The checks of the entries, one per entry. */
  function EntryCalls(rule: string, validations: seq<Validation>, options: map<string, Value>): (calls: seq<Completion>)
    ensures |calls| == |validations|
    ensures forall i :: 0 <= i < |validations| ==> calls[i] == CheckEntry(rule, validations[i], options)
  {
    seq(|validations|, i requires 0 <= i < |validations| => CheckEntry(rule, validations[i], options))
  }

  /** The closure that `createValidator({rule, validations})` returns. */
  function ValidateOptions(rule: string, validations: seq<Validation>, options: map<string, Value>): Completion {
    FirstThrow(EntryCalls(rule, validations, options), 0)
  }

  /**
   * The options validator accepts a record, returning undefined, exactly
   * when every entry passes, and otherwise throws the error of the first
   * entry that fails.
   */
  lemma OptionsFirstFailure(rule: string, validations: seq<Validation>, options: map<string, Value>)
    ensures ValidateOptions(rule, validations, options).Normal? ==>
      ValidateOptions(rule, validations, options).result == Undefined
    ensures ValidateOptions(rule, validations, options).Normal? <==>
      forall i :: 0 <= i < |validations| ==> CheckEntry(rule, validations[i], options).Normal?
    ensures ValidateOptions(rule, validations, options).Throw? ==>
      exists i :: 0 <= i < |validations| &&
        ValidateOptions(rule, validations, options) == CheckEntry(rule, validations[i], options) &&
        forall j :: 0 <= j < i ==> CheckEntry(rule, validations[j], options).Normal?
  {
    FirstThrowMeaning(EntryCalls(rule, validations, options), 0);
  }

  /**
   * What an accepted options record satisfies: every required key is
   * present, and every defined value passes its entry's validator.
   */
  lemma AcceptedOptions(rule: string, validations: seq<Validation>, options: map<string, Value>, i: nat)
    requires ValidateOptions(rule, validations, options).Normal?
    requires i < |validations|
    ensures validations[i].required ==> validations[i].key in options
    ensures Defined(Get(options, validations[i].key)) ==>
      Validate(validations[i].validate, validations[i].key, Get(options, validations[i].key)).Normal?
  {
    OptionsFirstFailure(rule, validations, options);
    assert CheckEntry(rule, validations[i], options).Normal?;
  }

  /**
   * Both directions: an options record is accepted exactly when every
   * required key is present and every defined value passes its entry's
   * validator.
   */
  lemma OptionsAcceptedExactly(rule: string, validations: seq<Validation>, options: map<string, Value>)
    ensures ValidateOptions(rule, validations, options).Normal? <==>
      forall i :: 0 <= i < |validations| ==>
        (validations[i].required ==> validations[i].key in options) &&
        (Defined(Get(options, validations[i].key)) ==>
          Validate(validations[i].validate, validations[i].key, Get(options, validations[i].key)).Normal?)
  {
    OptionsFirstFailure(rule, validations, options);
    forall i | 0 <= i < |validations|
      ensures CheckEntry(rule, validations[i], options).Normal? <==>
        (validations[i].required ==> validations[i].key in options) &&
        (Defined(Get(options, validations[i].key)) ==>
          Validate(validations[i].validate, validations[i].key, Get(options, validations[i].key)).Normal?)
    {
      EntryMeaning(rule, validations[i], options);
    }
  }

  /**
   * Validators are never called on undefined values: when no required key
   * is missing and every listed value is undefined, the record is accepted
   * whatever the validators are.
   */
  lemma UndefinedNeverValidated(rule: string, validations: seq<Validation>, options: map<string, Value>)
    requires forall i :: 0 <= i < |validations| ==> !validations[i].required || validations[i].key in options
    requires forall i :: 0 <= i < |validations| ==> !Defined(Get(options, validations[i].key))
    ensures ValidateOptions(rule, validations, options) == Normal(Undefined)
  {
    OptionsFirstFailure(rule, validations, options);
  }

  /** The closure of `createValidator`, which loops over its entries. */
  method RunOptionsValidator(rule: string, validations: seq<Validation>, options: map<string, Value>) returns (c: Completion)
    ensures c == ValidateOptions(rule, validations, options)
  {
    ghost var calls := EntryCalls(rule, validations, options);
    var idx := 0;
    while idx < |validations|
      invariant 0 <= idx <= |validations|
      invariant FirstThrow(calls, idx) == FirstThrow(calls, 0)
    {
      var entry := validations[idx];
      if entry.required && entry.key !in options {
        c := Throw(NewError(OptionsError(rule, Quoted(entry.key) + " is required")));
        return;
      }
      var value := Get(options, entry.key);
      if Defined(value) {
        var r := RunValidator(entry.validate, entry.key, value);
        if r.Throw? {
          c := Throw(NewError(OptionsError(rule, ErrorMessage(r.error))));
          return;
        }
      }
      idx := idx + 1;
    }
    c := Normal(Undefined);
  }

  // The validators the library builds once and shares between rules.

  const ValidateString := TypeValidator(["string"])
  const ValidateNumber := TypeValidator(["number"])
  const ValidateBoolean := TypeValidator(["boolean"])
  const ValidateFunction := TypeValidator(["function"])
  const ValidateStringOrNumber := TypeValidator(["string", "number"])
  const ValidateStringArray := ArrayValidator(ValidateString)
  const ModeNames := ["LIVE", "DRY_RUN"]
  const ValidateMode := ValueValidator(ModeNames)
  const EmailTypeNames := ["DISPOSABLE", "FREE", "NO_MX_RECORDS", "NO_GRAVATAR", "INVALID"]
  const ValidateEmailTypes := ArrayValidator(ValueValidator(EmailTypeNames))

  const TokenBucketValidations := [
    Validation("mode", false, ValidateMode),
    Validation("characteristics", false, ValidateStringArray),
    Validation("refillRate", true, ValidateNumber),
    Validation("interval", true, ValidateStringOrNumber),
    Validation("capacity", true, ValidateNumber)
  ]

  const FixedWindowValidations := [
    Validation("mode", false, ValidateMode),
    Validation("characteristics", false, ValidateStringArray),
    Validation("max", true, ValidateNumber),
    Validation("window", true, ValidateStringOrNumber)
  ]

  const SlidingWindowValidations := [
    Validation("mode", false, ValidateMode),
    Validation("characteristics", false, ValidateStringArray),
    Validation("max", true, ValidateNumber),
    Validation("interval", true, ValidateStringOrNumber)
  ]

  const SensitiveInfoValidations := [
    Validation("mode", false, ValidateMode),
    Validation("allow", false, ValidateStringArray),
    Validation("deny", false, ValidateStringArray),
    Validation("contextWindowSize", false, ValidateNumber),
    Validation("detect", false, ValidateFunction)
  ]

  const EmailValidations := [
    Validation("mode", false, ValidateMode),
    Validation("block", false, ValidateEmailTypes),
    Validation("allow", false, ValidateEmailTypes),
    Validation("deny", false, ValidateEmailTypes),
    Validation("requireTopLevelDomain", false, ValidateBoolean),
    Validation("allowDomainLiteral", false, ValidateBoolean)
  ]

  const BotValidations := [
    Validation("mode", false, ValidateMode),
    Validation("allow", false, ValidateStringArray),
    Validation("deny", false, ValidateStringArray)
  ]

  const ShieldValidations := [
    Validation("mode", false, ValidateMode)
  ]

  const FilterValidations := [
    Validation("allow", false, ValidateStringArray),
    Validation("deny", false, ValidateStringArray),
    Validation("mode", false, ValidateMode)
  ]

  /**
   * An options record accepted by a validator with a `mode` entry holds no
   * mode, "LIVE" or "DRY_RUN", and nothing else.
   */
  lemma AcceptedMode(rule: string, validations: seq<Validation>, options: map<string, Value>, i: nat)
    requires ValidateOptions(rule, validations, options).Normal?
    requires i < |validations| && validations[i] == Validation("mode", false, ValidateMode)
    ensures Get(options, "mode") in {Undefined, Str("LIVE"), Str("DRY_RUN")}
  {
    AcceptedOptions(rule, validations, options, i);
  }

  /**
   * The `mode` entry passes exactly when the record holds no mode, "LIVE" or
   * "DRY_RUN".
   */
  lemma ModeEntryExactly(rule: string, options: map<string, Value>)
    ensures CheckEntry(rule, Validation("mode", false, ValidateMode), options).Normal? <==>
      Get(options, "mode") in {Undefined, Str("LIVE"), Str("DRY_RUN")}
  {
    EntryMeaning(rule, Validation("mode", false, ValidateMode), options);
    ValueValidatorMeaning(ModeNames, "mode", Get(options, "mode"));
  }

  /**
   * An options record accepted by a validator holds, under a key validated
   * as an array, either nothing or an array, and under a key validated as an
   * array of strings, an array whose elements are all strings.
   */
  lemma AcceptedArray(rule: string, validations: seq<Validation>, options: map<string, Value>, i: nat, element: Validator)
    requires ValidateOptions(rule, validations, options).Normal?
    requires i < |validations| && validations[i].validate == ArrayValidator(element)
    ensures Get(options, validations[i].key).Undefined? || Get(options, validations[i].key).Arr?
    ensures element == ValidateString && Get(options, validations[i].key).Arr? ==>
      forall j :: 0 <= j < |Get(options, validations[i].key).items| ==> Get(options, validations[i].key).items[j].Str?
  {
    AcceptedOptions(rule, validations, options, i);
    var key, v := validations[i].key, Get(options, validations[i].key);
    if element == ValidateString && v.Arr? {
      ArrayValidatorMeaning(element, key, v);
      forall j | 0 <= j < |v.items| ensures v.items[j].Str? {
        TypeValidatorMeaning(["string"], ElementKey(key, j), v.items[j]);
      }
    }
  }

  /**
   * An entry validated as an array of strings passes exactly when its key is
   * present or not required, and the value is undefined or an array of
   * strings.
   */
  lemma StringArrayEntryExactly(rule: string, key: string, required: bool, options: map<string, Value>)
    ensures CheckEntry(rule, Validation(key, required, ValidateStringArray), options).Normal? <==>
      (required ==> key in options) &&
      (Get(options, key).Undefined? ||
       (Get(options, key).Arr? && forall j :: 0 <= j < |Get(options, key).items| ==> Get(options, key).items[j].Str?))
  {
    var v := Get(options, key);
    EntryMeaning(rule, Validation(key, required, ValidateStringArray), options);
    ArrayValidatorMeaning(ValidateString, key, v);
    if v.Arr? {
      forall j | 0 <= j < |v.items|
        ensures Validate(ValidateString, ElementKey(key, j), v.items[j]).Normal? <==> v.items[j].Str?
      {
        TypeValidatorMeaning(["string"], ElementKey(key, j), v.items[j]);
      }
    }
  }

  /**
   * An options record accepted by a validator holds, under a key validated
   * as a boolean, either nothing or a boolean.
   */
  lemma AcceptedBoolean(rule: string, validations: seq<Validation>, options: map<string, Value>, i: nat)
    requires ValidateOptions(rule, validations, options).Normal?
    requires i < |validations| && validations[i].validate == ValidateBoolean
    ensures Get(options, validations[i].key).Undefined? || Get(options, validations[i].key).Bool?
  {
    AcceptedOptions(rule, validations, options, i);
  }

  /**
   * An entry validated as a boolean passes exactly when its key is present
   * or not required, and the value is undefined or a boolean.
   */
  lemma BooleanEntryExactly(rule: string, key: string, required: bool, options: map<string, Value>)
    ensures CheckEntry(rule, Validation(key, required, ValidateBoolean), options).Normal? <==>
      (required ==> key in options) && (Get(options, key).Undefined? || Get(options, key).Bool?)
  {
    EntryMeaning(rule, Validation(key, required, ValidateBoolean), options);
    TypeValidatorMeaning(["boolean"], key, Get(options, key));
  }
}
