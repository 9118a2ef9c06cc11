/**
 * Observed values as the runtime reads them from JSON, and what that means
 * for conditions that were type checked: a comparison fails with a type
 * mismatch exactly when the JSON of an observed field has another type than
 * the compiler gave the field.
 */
module Observations {
  import opened Wrappers
  import opened Domain
  import opened Numerals
  import opened Evaluator

  const MIN_INTEGER: int := -0x8000_0000_0000_0000
  const MAX_INTEGER: int := 0x7fff_ffff_ffff_ffff

  /** The text of a number, printed with a fraction or an exponent. */
  type PrintedNumber = text: string | DecimalValue(text).Some? witness "0"

  /** A JSON number that was written without fraction and exponent is kept whole, also beyond the signed range. */
  datatype Number = Whole(number: int) | Fractional(text: PrintedNumber)
  {
    predicate FitsInteger() {
      Whole? && MIN_INTEGER <= number <= MAX_INTEGER
    }

    function Text(): string {
      match this
      case Whole(number) => if number < 0 then "-" + DecimalText(-number) else DecimalText(number)
      case Fractional(text) => text
    }
  }

  datatype JsonValue =
    | JsonNull
    | JsonBoolean(flag: bool)
    | JsonNumber(number: Number)
    | JsonString(text: string)
    | JsonArray
    | JsonObject

  /** Lists and objects have no value. */
  function ValueOf(json: JsonValue): Option<Value> {
    match json
    case JsonNull => Some(Null)
    case JsonBoolean(flag) => Some(Boolean(flag))
    case JsonNumber(number) =>
      Some(if number.FitsInteger() then Integer(number.number) else Decimal(number.Text()))
    case JsonString(text) => Some(Text(text))
    case JsonArray | JsonObject => None
  }

  type Observed = map<Field, JsonValue>

  function SnapshotOf(observed: Observed): map<Field, Value> {
    map field | field in observed && ValueOf(observed[field]).Some? :: ValueOf(observed[field]).value
  }

  // ----- decimals that come from JSON are numbers ---------------------------------------

  lemma NoDotNorMark(digits: string)
    requires AllDigits(digits)
    ensures DotAt(digits) == |digits| && MarkAt(digits) == |digits|
  {
    assert forall i :: 0 <= i < |digits| ==> IsDigit(digits[i]);
  }

  /** Printed whole numbers read back as themselves. */
  lemma WholeReadsBack(number: int)
    ensures DecimalValue(Whole(number).Text()) == Some(number as real)
  {
    if number < 0 {
      SignedDigitsReadBack(-number, "-" + DecimalText(-number));
    } else {
      SignedDigitsReadBack(number, DecimalText(number));
    }
  }

  lemma SignedDigitsReadBack(magnitude: nat, text: string)
    requires text == DecimalText(magnitude) || text == "-" + DecimalText(magnitude)
    ensures DecimalValue(text)
            == Some(if text == DecimalText(magnitude) then magnitude as real else -(magnitude as real))
  {
    var digits := DecimalText(magnitude);
    NoDotNorMark(digits);
    DecimalTextReadsBack(magnitude);
    DigitsAreMantissa(digits);
    assert IsDigit(digits[0]);
    assert Unsigned(text) == digits && digits[..|digits|] == digits;
  }

  lemma DigitsAreMantissa(digits: string)
    requires AllDigits(digits) && digits != [] && DotAt(digits) == |digits|
    ensures MantissaValue(digits) == Some(DigitsValue(digits) as real)
  {
    assert digits[..|digits|] == digits && digits + [] == digits;
  }

  lemma JsonDecimalsAreNumbers(json: JsonValue)
    ensures ValueOf(json).Some? ==> Numeric(ValueOf(json).value)
  {
    if json.JsonNumber? && json.number.Whole? {
      WholeReadsBack(json.number.number);
    }
  }

  /** Every decimal of the reading is a number, as it is in every reading of JSON. */
  ghost predicate NumericReading(reading: Reading) {
    forall field :: field in reading.snapshot ==> Numeric(reading.snapshot[field])
  }

  lemma SnapshotsAreNumeric(observed: Observed, reading: Reading)
    requires reading.snapshot == SnapshotOf(observed)
    ensures NumericReading(reading)
  {
    forall field | field in reading.snapshot
      ensures Numeric(reading.snapshot[field])
    {
      JsonDecimalsAreNumbers(observed[field]);
    }
  }

  // ----- when typed comparisons fail ------------------------------------------------------

  lemma ComparedIffSameType(left: Value, operator: Comparison, right: Value)
    requires Numeric(left) && Numeric(right)
    ensures CompareValues(left, operator, right) == Err(TypeMismatch) <==> left.Type() != right.Type()
    ensures CompareValues(left, operator, right).Ok? <==> left.Type() == right.Type()
  {
  }

  lemma OperandIsNumeric(registry: Registry, definitions: map<string, VariableDefinition>,
                         expression: AuthoredExpression, variables: Variables, reading: Reading)
    requires TypedVariables(definitions, variables) && NumericReading(reading)
    requires CheckExpression(registry, definitions, expression).findings == 0
    ensures var operand := EvaluateExpression(ResolveExpression(registry, expression), variables, reading);
            operand.Ok? ==> Numeric(operand.value)
  {
    if expression.Literal? && expression.value.Decimal? {
      CanonicalDecimalIsNumber(expression.value.digits);
    }
  }

  /** A checked comparison ends in a type mismatch exactly when both operands have values, of different types. */
  lemma MismatchesIffTypesDiffer(registry: Registry, definitions: map<string, VariableDefinition>,
                                 condition: AuthoredCondition, depth: nat, maximumDepth: nat, variables: Variables,
                                 reading: Reading)
    requires condition.Compare?
    requires CheckCondition(registry, definitions, condition, depth, maximumDepth) == Check(true, 0)
    requires TypedVariables(definitions, variables) && NumericReading(reading)
    ensures var left := EvaluateExpression(ResolveExpression(registry, condition.left), variables, reading);
            var right := EvaluateExpression(ResolveExpression(registry, condition.right), variables, reading);
            EvaluateCondition(registry, ResolveCondition(registry, condition), variables, reading)
            == Err(TypeMismatch)
            <==> left.Ok? && right.Ok? && left.value.Type() != right.value.Type()
  {
    OperandIsNumeric(registry, definitions, condition.left, variables, reading);
    OperandIsNumeric(registry, definitions, condition.right, variables, reading);
    var left := EvaluateExpression(ResolveExpression(registry, condition.left), variables, reading);
    var right := EvaluateExpression(ResolveExpression(registry, condition.right), variables, reading);
    if left.Ok? && right.Ok? {
      ComparedIffSameType(left.value, condition.operator, right.value);
    }
  }

  /** The JSON has a value, and one of another type. */
  predicate Misfits(json: JsonValue, valueType: ValueType) {
    match json
    case JsonNull => valueType != NullType
    case JsonBoolean(_) => valueType != BooleanType
    case JsonNumber(number) => valueType != if number.FitsInteger() then IntegerType else DecimalType
    case JsonString(_) => valueType != TextType
    case JsonArray | JsonObject => false
  }

  lemma MisfitsIffOtherType(json: JsonValue, valueType: ValueType)
    ensures Misfits(json, valueType) <==> ValueOf(json).Some? && ValueOf(json).value.Type() != valueType
    ensures !Misfits(json, valueType) && ValueOf(json).Some? ==> TypedValue(ValueOf(json).value, valueType)
  {
    if ValueOf(json).Some? {
      JsonDecimalsAreNumbers(json);
      TypeOfJson(json);
    }
  }

  lemma TypeOfJson(json: JsonValue)
    requires ValueOf(json).Some?
    ensures var valueType := ValueOf(json).value.Type();
            match json
            case JsonNull => valueType == NullType
            case JsonBoolean(_) => valueType == BooleanType
            case JsonNumber(number) => valueType == if number.FitsInteger() then IntegerType else DecimalType
            case JsonString(_) => valueType == TextType
            case _ => false
  {
  }

  /** The hypothesis of type soundness, as a condition on the observed JSON. */
  lemma TypedReadingIffNothingMisfits(registry: Registry, observed: Observed, reading: Reading)
    requires reading.snapshot == SnapshotOf(observed)
    ensures TypedReading(registry, reading) <==>
              && (forall zone :: zone in registry.zones ==> zone in reading.local)
              && (forall field :: field in observed ==>
                    var valueType := FieldType(field.target.capability, field.name);
                    valueType.Some? ==> !Misfits(observed[field], valueType.value))
  {
    forall field | field in observed && FieldType(field.target.capability, field.name).Some?
      ensures var valueType := FieldType(field.target.capability, field.name).value;
              Misfits(observed[field], valueType) <==>
                field in reading.snapshot && !TypedValue(reading.snapshot[field], valueType)
    {
      MisfitsIffOtherType(observed[field], FieldType(field.target.capability, field.name).value);
    }
  }

  /** An observed field compared with a literal or a variable, on either side. */
  function ObservedComparison(target: TargetReference, field: string, operator: Comparison,
                              other: AuthoredExpression, observedFirst: bool): AuthoredCondition
  {
    var observation := Expression<TargetReference>.Observation(target, field);
    if observedFirst then Compare(observation, operator, other) else Compare(other, operator, observation)
  }

  /**
   * Where the code is not type sound: a checked comparison of an observed
   * field fails with a type mismatch exactly when the field was observed with
   * JSON of another type and the other operand has a value.
   */
  lemma ObservedComparisonMismatchesIffMisfit(registry: Registry, definitions: map<string, VariableDefinition>,
      target: TargetReference, field: string, operator: Comparison, other: AuthoredExpression, observedFirst: bool,
      depth: nat, maximumDepth: nat, variables: Variables, observed: Observed, reading: Reading)
    requires WellResolved(registry) && TypedVariables(definitions, variables)
    requires reading.snapshot == SnapshotOf(observed)
    requires !other.Observation?
    requires CheckCondition(registry, definitions, ObservedComparison(target, field, operator, other, observedFirst),
                            depth, maximumDepth) == Check(true, 0)
    ensures target in registry.resolved && registry.resolved[target] != [] && FieldType(target.capability, field).Some?
    ensures var condition := ObservedComparison(target, field, operator, other, observedFirst);
            var key := Field(registry.resolved[target][0], field);
            EvaluateCondition(registry, ResolveCondition(registry, condition), variables, reading) == Err(TypeMismatch)
            <==> && (other.Variable? ==> other.name in variables)
                 && key in observed
                 && Misfits(observed[key], FieldType(target.capability, field).value)
  {
    var condition := ObservedComparison(target, field, operator, other, observedFirst);
    SnapshotsAreNumeric(observed, reading);
    MismatchesIffTypesDiffer(registry, definitions, condition, depth, maximumDepth, variables, reading);
    var key := Field(registry.resolved[target][0], field);
    if key in observed {
      MisfitsIffOtherType(observed[key], FieldType(target.capability, field).value);
    }
  }

  /**
   * For a field typed as decimal the misfits are everything with a value but
   * numbers that do not fit a signed 64-bit integer: an integral percentage,
   * wattage or voltage reaches the comparison as an integer and fails it.
   */
  lemma DecimalFieldMismatchesIffNotFractional(registry: Registry, definitions: map<string, VariableDefinition>,
      target: TargetReference, field: string, operator: Comparison, other: AuthoredExpression, observedFirst: bool,
      depth: nat, maximumDepth: nat, variables: Variables, observed: Observed, reading: Reading)
    requires WellResolved(registry) && TypedVariables(definitions, variables)
    requires reading.snapshot == SnapshotOf(observed)
    requires !other.Observation? && FieldType(target.capability, field) == Some(DecimalType)
    requires CheckCondition(registry, definitions, ObservedComparison(target, field, operator, other, observedFirst),
                            depth, maximumDepth) == Check(true, 0)
    requires target in registry.resolved && registry.resolved[target] != []
    requires Field(registry.resolved[target][0], field) in observed
    ensures var condition := ObservedComparison(target, field, operator, other, observedFirst);
            var json := observed[Field(registry.resolved[target][0], field)];
            EvaluateCondition(registry, ResolveCondition(registry, condition), variables, reading) == Err(TypeMismatch)
            <==> && (other.Variable? ==> other.name in variables)
                 && !json.JsonArray? && !json.JsonObject?
                 && !(json.JsonNumber? && !json.number.FitsInteger())
  {
    ObservedComparisonMismatchesIffMisfit(registry, definitions, target, field, operator, other, observedFirst, depth,
                                          maximumDepth, variables, observed, reading);
  }

  /** Every integral percentage fails a comparison with a percentage that compiles without findings. */
  lemma IntegralPercentIsMistyped(registry: Registry, target: TargetReference, percent: nat, observed: Observed,
                                  reading: Reading)
    requires target.capability == "level.v1" && percent <= 100
    requires WellResolved(registry) && target in registry.resolved && |registry.resolved[target]| == 1
    requires Field(registry.resolved[target][0], "percent") in observed
    requires observed[Field(registry.resolved[target][0], "percent")] == JsonNumber(Whole(percent))
    requires reading.snapshot == SnapshotOf(observed)
    ensures var condition := ObservedComparison(target, "percent", GreaterThan, Literal(Decimal("40")), true);
            && CheckCondition(registry, map[], condition, 1, 16) == Check(true, 0)
            && EvaluateCondition(registry, ResolveCondition(registry, condition), map[], reading)
               == Err(TypeMismatch)
  {
    var other := Expression<TargetReference>.Literal(Decimal("40"));
    assert DotAt("40") == 2;
    assert CanonicalDecimal("40");
    DecimalFieldMismatchesIffNotFractional(registry, map[], target, "percent", GreaterThan, other, true, 1, 16, map[],
                                           observed, reading);
  }
}
