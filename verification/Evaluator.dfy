/**
 * Expression and condition evaluation shared by both hosts, the compile-time
 * checks that go with it, and the proof that checked conditions never fail
 * with a type or time-window error.
 */
module Evaluator {
  import opened Wrappers
  import opened Domain
  import opened Numerals

  /** A missing value is a missing variable, or a missing observation or target of one. */
  datatype EvaluationError = MissingVariable | MissingObservation | TypeMismatch | InvalidTimeWindow

  const MAX_TIMER_MILLIS: nat := 365 * 24 * 60 * 60 * 1000

  // ----- decimals ---------------------------------------------------------

  /** Position of the first dot, or the length of the text. */
  function DotAt(text: string): (position: nat)
    ensures position <= |text|
    ensures position < |text| ==> text[position] == '.'
    ensures forall i :: 0 <= i < position ==> text[i] != '.'
  {
    if text == [] || text[0] == '.' then 0 else 1 + DotAt(text[1..])
  }

  function Unsigned(text: string): string {
    if text != [] && text[0] == '-' then text[1..] else text
  }

  /** Plain base-ten text without exponent, leading or trailing zeros. */
  predicate CanonicalDecimal(text: string) {
    var unsigned := Unsigned(text);
    var dot := DotAt(unsigned);
    var integer := unsigned[..dot];
    && integer != []
    && AllDigits(integer)
    && !(|integer| > 1 && integer[0] == '0')
    && if dot == |unsigned| then text != "-0"
       else
         var fraction := unsigned[dot + 1..];
         fraction != [] && AllDigits(fraction) && fraction[|fraction| - 1] != '0'
  }

  /** The value divided by ten so many times. */
  function Lowered(value: real, places: nat): real {
    if places == 0 then value else Lowered(value, places - 1) / 10.0
  }

  /** The value multiplied by ten so many times. */
  function Raised(value: real, places: nat): real {
    if places == 0 then value else Raised(value, places - 1) * 10.0
  }

  /** Position of the exponent mark, or the length of the text. */
  function MarkAt(text: string): (position: nat)
    ensures position <= |text|
    ensures position < |text| ==> text[position] in {'e', 'E'}
    ensures forall i :: 0 <= i < position ==> text[i] !in {'e', 'E'}
  {
    if text == [] || text[0] in {'e', 'E'} then 0 else 1 + MarkAt(text[1..])
  }

  /** Value of digits with at most one dot among them. */
  function MantissaValue(text: string): Option<real> {
    var dot := DotAt(text);
    var integer := text[..dot];
    var fraction := if dot == |text| then [] else text[dot + 1..];
    if !AllDigits(integer) || !AllDigits(fraction) || |integer| + |fraction| == 0 then None
    else Some(Lowered(DigitsValue(integer + fraction) as real, |fraction|))
  }

  /** The mantissa moved by a signed exponent. */
  function Moved(mantissa: real, exponent: string): Option<real> {
    var unsigned := Unsigned(exponent);
    if unsigned == [] || !AllDigits(unsigned) then None
    else
      Some(if unsigned == exponent then Raised(mantissa, DigitsValue(unsigned))
           else Lowered(mantissa, DigitsValue(unsigned)))
  }

  /** Value of an unsigned mantissa, with or without exponent behind it. */
  function Magnitude(unsigned: string): Option<real> {
    var mark := MarkAt(unsigned);
    if mark == |unsigned| then MantissaValue(unsigned)
    else
      match MantissaValue(unsigned[..mark])
      case None => None
      case Some(mantissa) => Moved(mantissa, unsigned[mark + 1..])
  }

  /** Numeric value of decimal text; none when the text is not a number. */
  function DecimalValue(text: string): Option<real> {
    var unsigned := Unsigned(text);
    match Magnitude(unsigned)
    case None => None
    case Some(magnitude) => Some(if unsigned == text then magnitude else -magnitude)
  }

  // ----- evaluation -------------------------------------------------------

  datatype Ordering = Less | Same | Greater

  function CompareInt(left: int, right: int): Ordering {
    if left < right then Less else if left == right then Same else Greater
  }

  function CompareReal(left: real, right: real): Ordering {
    if left < right then Less else if left == right then Same else Greater
  }

  function CompareText(left: string, right: string): Ordering {
    if left == [] || right == [] then CompareInt(|left|, |right|)
    else if left[0] != right[0] then CompareInt(left[0] as int, right[0] as int)
    else CompareText(left[1..], right[1..])
  }

  function CompareNumbers(left: Option<real>, right: Option<real>): Option<Ordering> {
    if left.Some? && right.Some? then Some(CompareReal(left.value, right.value)) else None
  }

  function OrderValues(left: Value, right: Value): Option<Ordering> {
    match (left, right)
    case (Null, Null) => Some(Same)
    case (Boolean(a), Boolean(b)) => Some(if a == b then Same else if b then Less else Greater)
    case (Integer(a), Integer(b)) => Some(CompareInt(a, b))
    case (Decimal(a), Decimal(b)) => CompareNumbers(DecimalValue(a), DecimalValue(b))
    case (Text(a), Text(b)) => Some(CompareText(a, b))
    case (Timestamp(a), Timestamp(b)) => Some(CompareInt(a, b))
    case (DurationMillis(a), DurationMillis(b)) => Some(CompareInt(a, b))
    case _ => None
  }

  predicate Selects(operator: Comparison, ordering: Ordering) {
    match operator
    case Equal => ordering == Same
    case NotEqual => ordering != Same
    case LessThan => ordering == Less
    case LessThanOrEqual => ordering != Greater
    case GreaterThan => ordering == Greater
    case GreaterThanOrEqual => ordering != Less
  }

  function CompareValues(left: Value, operator: Comparison, right: Value): Result<bool, EvaluationError> {
    match OrderValues(left, right)
    case Some(ordering) => Ok(Selects(operator, ordering))
    case None => Err(TypeMismatch)
  }

  function EvaluateExpression(expression: ResolvedExpression, variables: Variables, reading: Reading)
    : Result<Value, EvaluationError>
  {
    match expression
    case Literal(value) => Ok(value)
    case Variable(name) => if name in variables then Ok(variables[name]) else Err(MissingVariable)
    case Observation(targets, field) =>
      if targets == [] || Field(targets[0], field) !in reading.snapshot then Err(MissingObservation)
      else Ok(reading.snapshot[Field(targets[0], field)])
  }

  /** A start after the end describes a window across midnight. */
  predicate InsideWindow(local: nat, start: nat, end: nat) {
    if start <= end then start <= local < end else start <= local || local < end
  }

  function EvaluateWindow(registry: Registry, reading: Reading, zone: string, start: string, end: string)
    : Result<bool, EvaluationError>
  {
    if zone !in registry.zones || start !in registry.clockTexts || end !in registry.clockTexts
       || zone !in reading.local
    then Err(InvalidTimeWindow)
    else Ok(InsideWindow(reading.local[zone], registry.clockTexts[start], registry.clockTexts[end]))
  }

  function EvaluateCondition(registry: Registry, condition: ResolvedCondition, variables: Variables,
                             reading: Reading): Result<bool, EvaluationError>
    decreases condition
  {
    match condition
    case Constant(holds) => Ok(holds)
    case Compare(left, operator, right) =>
      (match EvaluateExpression(left, variables, reading)
       case Err(error) => Err(error)
       case Ok(leftValue) =>
         match EvaluateExpression(right, variables, reading)
         case Err(error) => Err(error)
         case Ok(rightValue) => CompareValues(leftValue, operator, rightValue))
    case All(conditions) => EvaluateUntil(registry, conditions, variables, reading, false)
    case Any(conditions) => EvaluateUntil(registry, conditions, variables, reading, true)
    case Not(inner) =>
      (match EvaluateCondition(registry, inner, variables, reading)
       case Err(error) => Err(error)
       case Ok(holds) => Ok(!holds))
    case TimeWindow(zone, start, end) => EvaluateWindow(registry, reading, zone, start, end)
    case StateDuration(inner, durationMs) =>
      (match EvaluateCondition(registry, inner, variables, reading)
       case Err(error) => Err(error)
       case Ok(holds) => Ok(holds && (inner, durationMs) in reading.matured))
  }

  /** Evaluates in order and stops at the first condition that equals `stop`. */
  function EvaluateUntil(registry: Registry, conditions: seq<ResolvedCondition>, variables: Variables,
                         reading: Reading, stop: bool): Result<bool, EvaluationError>
    decreases conditions
  {
    if conditions == [] then Ok(!stop)
    else
      match EvaluateCondition(registry, conditions[0], variables, reading)
      case Err(error) => Err(error)
      case Ok(holds) =>
        if holds == stop then Ok(stop)
        else EvaluateUntil(registry, conditions[1..], variables, reading, stop)
  }

  // ----- laws of comparison and of conditions -----------------------------------

  function Flip(ordering: Ordering): Ordering {
    match ordering
    case Less => Greater
    case Same => Same
    case Greater => Less
  }

  lemma {:induction false} TextOrderFlips(left: string, right: string)
    ensures CompareText(right, left) == Flip(CompareText(left, right))
    ensures CompareText(left, right) == Same <==> left == right
    decreases |left|
  {
    if left != [] && right != [] && left[0] == right[0] {
      TextOrderFlips(left[1..], right[1..]);
      assert left == [left[0]] + left[1..] && right == [right[0]] + right[1..];
    }
  }

  lemma {:induction false} TextOrderTransitive(a: string, b: string, c: string)
    requires CompareText(a, b) == Less && CompareText(b, c) == Less
    ensures CompareText(a, c) == Less
    decreases |a|
  {
    if a != [] && b != [] && c != [] && a[0] == b[0] == c[0] {
      TextOrderTransitive(a[1..], b[1..], c[1..]);
    }
  }

  /** Where values can be compared at all, the six operators come from one total order. */
  lemma ValuesTotallyOrdered(a: Value, b: Value, c: Value)
    ensures OrderValues(b, a) == match OrderValues(a, b) case None => None case Some(ordering) => Some(Flip(ordering))
    ensures OrderValues(a, b) == Some(Less) && OrderValues(b, c) == Some(Less) ==> OrderValues(a, c) == Some(Less)
    ensures OrderValues(a, b) == Some(Same) && OrderValues(b, c).Some? ==> OrderValues(a, c) == OrderValues(b, c)
  {
    if a.Text? && b.Text? && c.Text? {
      TextsTotallyOrdered(a.text, b.text, c.text);
    } else if a.Text? && b.Text? {
      TextOrderFlips(a.text, b.text);
    } else if a.Decimal? && b.Decimal? {
      NumbersTotallyOrdered(DecimalValue(a.digits), DecimalValue(b.digits),
                            if c.Decimal? then DecimalValue(c.digits) else None);
    }
  }

  lemma NumbersTotallyOrdered(a: Option<real>, b: Option<real>, c: Option<real>)
    ensures CompareNumbers(b, a)
            == match CompareNumbers(a, b) case None => None case Some(ordering) => Some(Flip(ordering))
    ensures CompareNumbers(a, b) == Some(Less) && CompareNumbers(b, c) == Some(Less) ==>
              CompareNumbers(a, c) == Some(Less)
    ensures CompareNumbers(a, b) == Some(Same) && CompareNumbers(b, c).Some? ==>
              CompareNumbers(a, c) == CompareNumbers(b, c)
  {
  }

  lemma TextsTotallyOrdered(a: string, b: string, c: string)
    ensures CompareText(b, a) == Flip(CompareText(a, b))
    ensures CompareText(a, b) == Less && CompareText(b, c) == Less ==> CompareText(a, c) == Less
    ensures CompareText(a, b) == Same ==> CompareText(a, c) == CompareText(b, c)
  {
    TextOrderFlips(a, b);
    if CompareText(a, b) == Less && CompareText(b, c) == Less {
      TextOrderTransitive(a, b, c);
    }
  }

  /** A window and the one with its ends exchanged divide the day; equal ends leave no moment. */
  lemma ExchangedWindowsDivideDay(local: nat, start: nat, end: nat)
    ensures start != end ==> (InsideWindow(local, start, end) <==> !InsideWindow(local, end, start))
    ensures !InsideWindow(local, start, start)
  {
  }

  function Negations(conditions: seq<ResolvedCondition>): (negated: seq<ResolvedCondition>)
    ensures |negated| == |conditions|
  {
    if conditions == [] then [] else [Not(conditions[0])] + Negations(conditions[1..])
  }

  /** Both list conditions stop at the first decisive or failing member, so negation exchanges them, errors included. */
  lemma NegationExchangesAllAndAny(registry: Registry, conditions: seq<ResolvedCondition>, variables: Variables,
                                   reading: Reading)
    ensures EvaluateCondition(registry, Not(All(conditions)), variables, reading)
            == EvaluateCondition(registry, Any(Negations(conditions)), variables, reading)
    ensures EvaluateCondition(registry, Not(Any(conditions)), variables, reading)
            == EvaluateCondition(registry, All(Negations(conditions)), variables, reading)
  {
    NegationExchangesStops(registry, conditions, variables, reading, false);
    NegationExchangesStops(registry, conditions, variables, reading, true);
  }

  lemma {:induction false} NegationExchangesStops(registry: Registry, conditions: seq<ResolvedCondition>,
                                                  variables: Variables, reading: Reading, stop: bool)
    ensures EvaluateUntil(registry, Negations(conditions), variables, reading, !stop)
            == match EvaluateUntil(registry, conditions, variables, reading, stop)
               case Err(error) => Err(error)
               case Ok(holds) => Ok(!holds)
    decreases conditions
  {
    if conditions != [] {
      var negated := Negations(conditions);
      assert negated[0] == Not(conditions[0]) && negated[1..] == Negations(conditions[1..]);
      NegationExchangesStops(registry, conditions[1..], variables, reading, stop);
    }
  }

  // ----- resolution and compile-time checks --------------------------------

  function Resolve(registry: Registry, target: TargetReference): seq<Target> {
    if target in registry.resolved then registry.resolved[target] else []
  }

  function ResolveExpression(registry: Registry, expression: AuthoredExpression): ResolvedExpression {
    match expression
    case Literal(value) => Literal(value)
    case Variable(name) => Variable(name)
    case Observation(target, field) => Observation(Resolve(registry, target), field)
  }

  function ResolveCondition(registry: Registry, condition: AuthoredCondition): ResolvedCondition
    decreases condition
  {
    match condition
    case Constant(holds) => Constant(holds)
    case Compare(left, operator, right) =>
      Compare(ResolveExpression(registry, left), operator, ResolveExpression(registry, right))
    case All(conditions) => All(ResolveConditions(registry, conditions))
    case Any(conditions) => Any(ResolveConditions(registry, conditions))
    case Not(inner) => Not(ResolveCondition(registry, inner))
    case TimeWindow(zone, start, end) => TimeWindow(zone, start, end)
    case StateDuration(inner, durationMs) => StateDuration(ResolveCondition(registry, inner), durationMs)
  }

  function ResolveConditions(registry: Registry, conditions: seq<AuthoredCondition>): (r: seq<ResolvedCondition>)
    ensures |r| == |conditions|
    decreases conditions
  {
    if conditions == [] then []
    else [ResolveCondition(registry, conditions[0])] + ResolveConditions(registry, conditions[1..])
  }

  /** Type of a capability field, as the compiler understands the schemas. */
  function FieldType(capability: string, field: string): Option<ValueType> {
    if (capability, field) in {("on_off.v1", "on"), ("availability.v1", "online")} then Some(BooleanType)
    else if (capability, field) in
      {("level.v1", "percent"), ("position.v1", "percent"), ("power.v1", "watts"), ("power.v1", "volts"),
       ("power.v1", "amperes"), ("energy.v1", "watt_hours")} then Some(DecimalType)
    else if (capability, field) in {("position.v1", "motion"), ("diagnostics.v1", "firmware_version")}
    then Some(TextType)
    else None
  }

  predicate ValidTimer(durationMs: nat) {
    0 < durationMs <= MAX_TIMER_MILLIS
  }

  predicate ValidValue(value: Value) {
    match value
    case Decimal(digits) => CanonicalDecimal(digits)
    case DurationMillis(millis) => ValidTimer(millis)
    case _ => true
  }

  /** `compiled` tells whether the compiler produced something; `findings` what it complained about. */
  datatype Check = Check(compiled: bool, findings: nat)

  datatype TypeCheck = TypeCheck(valueType: Option<ValueType>, findings: nat)

  function Finding(complaint: bool): nat {
    if complaint then 1 else 0
  }

  function CheckExpression(registry: Registry, definitions: map<string, VariableDefinition>,
                           expression: AuthoredExpression): TypeCheck
  {
    match expression
    case Literal(value) => TypeCheck(Some(value.Type()), Finding(!ValidValue(value)))
    case Variable(name) =>
      if name in definitions then TypeCheck(Some(definitions[name].valueType), 0) else TypeCheck(None, 1)
    case Observation(target, field) =>
      var valueType := FieldType(target.capability, field);
      if valueType.None? || target !in registry.resolved then
        TypeCheck(None, Finding(valueType.None?) + Finding(target !in registry.resolved))
      else if |registry.resolved[target]| == 1 then TypeCheck(valueType, 0)
      else TypeCheck(None, 1)
  }

  function CheckCondition(registry: Registry, definitions: map<string, VariableDefinition>,
                          condition: AuthoredCondition, depth: nat, maximumDepth: nat): Check
    decreases condition
  {
    if depth > maximumDepth then Check(false, 1)
    else
      match condition
      case Constant(_) => Check(true, 0)
      case Compare(left, operator, right) =>
        var l := CheckExpression(registry, definitions, left);
        var r := CheckExpression(registry, definitions, right);
        if l.valueType.None? || r.valueType.None? then Check(false, l.findings + r.findings)
        else
          var unordered := operator !in {Equal, NotEqual} && l.valueType.value in {NullType, BooleanType};
          Check(true, l.findings + r.findings + Finding(l.valueType != r.valueType) + Finding(unordered))
      case All(conditions) =>
        var each := CheckConditions(registry, definitions, conditions, depth + 1, maximumDepth);
        Check(each.compiled, each.findings + Finding(conditions == []))
      case Any(conditions) =>
        var each := CheckConditions(registry, definitions, conditions, depth + 1, maximumDepth);
        Check(each.compiled, each.findings + Finding(conditions == []))
      case Not(inner) => CheckCondition(registry, definitions, inner, depth + 1, maximumDepth)
      case TimeWindow(zone, start, end) =>
        Check(true, Finding(zone !in registry.zones || start !in registry.clockTexts
                            || end !in registry.clockTexts))
      case StateDuration(inner, durationMs) =>
        var within := CheckCondition(registry, definitions, inner, depth + 1, maximumDepth);
        Check(within.compiled, within.findings + Finding(!ValidTimer(durationMs)))
  }

  /** Checks every condition even after one failed to compile. */
  function CheckConditions(registry: Registry, definitions: map<string, VariableDefinition>,
                           conditions: seq<AuthoredCondition>, depth: nat, maximumDepth: nat): Check
    decreases conditions
  {
    if conditions == [] then Check(true, 0)
    else
      var first := CheckCondition(registry, definitions, conditions[0], depth, maximumDepth);
      var rest := CheckConditions(registry, definitions, conditions[1..], depth, maximumDepth);
      Check(first.compiled && rest.compiled, first.findings + rest.findings)
  }

  /** Nothing is dropped silently: a condition without a compiled form has a finding. */
  lemma {:induction false} UncompiledConditionHasFinding(registry: Registry,
      definitions: map<string, VariableDefinition>, condition: AuthoredCondition, depth: nat, maximumDepth: nat)
    ensures !CheckCondition(registry, definitions, condition, depth, maximumDepth).compiled ==>
              CheckCondition(registry, definitions, condition, depth, maximumDepth).findings > 0
    decreases condition
  {
    match condition
    case All(conditions) =>
      UncompiledConditionsHaveFinding(registry, definitions, conditions, depth + 1, maximumDepth);
    case Any(conditions) =>
      UncompiledConditionsHaveFinding(registry, definitions, conditions, depth + 1, maximumDepth);
    case Not(inner) =>
      UncompiledConditionHasFinding(registry, definitions, inner, depth + 1, maximumDepth);
    case StateDuration(inner, _) =>
      UncompiledConditionHasFinding(registry, definitions, inner, depth + 1, maximumDepth);
    case _ =>
  }

  lemma {:induction false} UncompiledConditionsHaveFinding(registry: Registry,
      definitions: map<string, VariableDefinition>, conditions: seq<AuthoredCondition>, depth: nat,
      maximumDepth: nat)
    ensures !CheckConditions(registry, definitions, conditions, depth, maximumDepth).compiled ==>
              CheckConditions(registry, definitions, conditions, depth, maximumDepth).findings > 0
    decreases conditions
  {
    if conditions != [] {
      UncompiledConditionHasFinding(registry, definitions, conditions[0], depth, maximumDepth);
      UncompiledConditionsHaveFinding(registry, definitions, conditions[1..], depth, maximumDepth);
    }
  }

  // ----- type soundness -----------------------------------------------------

  /** Variables hold values of their declared types; decimals are numbers. */
  ghost predicate TypedVariables(definitions: map<string, VariableDefinition>, variables: Variables) {
    forall name :: name in variables ==>
      name in definitions && TypedValue(variables[name], definitions[name].valueType)
  }

  ghost predicate TypedValue(value: Value, valueType: ValueType) {
    value.Type() == valueType && Numeric(value)
  }

  /** A decimal is the text of a number. */
  ghost predicate Numeric(value: Value) {
    value.Decimal? ==> DecimalValue(value.digits).Some?
  }

  /** Observations have the type the compiler gave their field. */
  ghost predicate TypedReading(registry: Registry, reading: Reading) {
    && (forall field :: field in reading.snapshot ==>
          var valueType := FieldType(field.target.capability, field.name);
          valueType.Some? ==> TypedValue(reading.snapshot[field], valueType.value))
    && (forall zone :: zone in registry.zones ==> zone in reading.local)
  }

  /** Target resolution keeps the capability that was asked for. */
  ghost predicate WellResolved(registry: Registry) {
    forall target :: target in registry.resolved ==>
      && registry.resolved[target] != []
      && forall i :: 0 <= i < |registry.resolved[target]| ==>
           registry.resolved[target][i].capability == target.capability
  }

  lemma CanonicalDecimalIsNumber(text: string)
    requires CanonicalDecimal(text)
    ensures DecimalValue(text).Some?
  {
    var unsigned := Unsigned(text);
    var dot, mark := DotAt(unsigned), MarkAt(unsigned);
    assert AllDigits(unsigned[..dot]);
    forall i | 0 <= i < |unsigned|
      ensures unsigned[i] !in {'e', 'E'}
    {
      if i < dot {
        assert IsDigit(unsigned[..dot][i]);
      } else if i > dot {
        assert IsDigit(unsigned[dot + 1..][i - dot - 1]);
      }
    }
    assert unsigned[..mark] == unsigned;
  }

  /** Some value was unavailable, and no variable while every declared one has a value. */
  predicate MissingOnly(definitions: map<string, VariableDefinition>, variables: Variables, error: EvaluationError) {
    error == MissingObservation || (error == MissingVariable && !(definitions.Keys <= variables.Keys))
  }

  /** The evaluation produced a boolean, or some value was unavailable. */
  predicate MissingAtWorst(definitions: map<string, VariableDefinition>, variables: Variables,
                           result: Result<bool, EvaluationError>)
  {
    result.Ok? || MissingOnly(definitions, variables, result.error)
  }

  /** The evaluation produced a value of the type, or some value was unavailable. */
  ghost predicate YieldsAtWorst(definitions: map<string, VariableDefinition>, variables: Variables,
                                valueType: ValueType, result: Result<Value, EvaluationError>)
  {
    match result
    case Ok(value) => TypedValue(value, valueType)
    case Err(error) => MissingOnly(definitions, variables, error)
  }

  lemma ExpressionSound(registry: Registry, definitions: map<string, VariableDefinition>,
                        expression: AuthoredExpression, variables: Variables, reading: Reading)
    requires WellResolved(registry) && TypedVariables(definitions, variables) && TypedReading(registry, reading)
    requires CheckExpression(registry, definitions, expression).valueType.Some?
    requires CheckExpression(registry, definitions, expression).findings == 0
    ensures var valueType := CheckExpression(registry, definitions, expression).valueType.value;
            YieldsAtWorst(definitions, variables, valueType,
                          EvaluateExpression(ResolveExpression(registry, expression), variables, reading))
  {
    match expression
    case Literal(value) =>
      if value.Decimal? {
        CanonicalDecimalIsNumber(value.digits);
      }
    case Variable(_) =>
    case Observation(target, field) =>
      assert registry.resolved[target][0].capability == target.capability;
  }

  lemma SameTypeIsOrdered(left: Value, right: Value, valueType: ValueType)
    requires TypedValue(left, valueType) && TypedValue(right, valueType)
    ensures OrderValues(left, right).Some?
  {
  }

  lemma ComparisonSound(registry: Registry, definitions: map<string, VariableDefinition>,
                        condition: AuthoredCondition, depth: nat, maximumDepth: nat, variables: Variables,
                        reading: Reading)
    requires WellResolved(registry) && TypedVariables(definitions, variables) && TypedReading(registry, reading)
    requires condition.Compare?
    requires CheckCondition(registry, definitions, condition, depth, maximumDepth) == Check(true, 0)
    ensures MissingAtWorst(definitions, variables,
                           EvaluateCondition(registry, ResolveCondition(registry, condition), variables, reading))
  {
    ExpressionSound(registry, definitions, condition.left, variables, reading);
    ExpressionSound(registry, definitions, condition.right, variables, reading);
    var left := EvaluateExpression(ResolveExpression(registry, condition.left), variables, reading);
    var right := EvaluateExpression(ResolveExpression(registry, condition.right), variables, reading);
    if left.Ok? && right.Ok? {
      SameTypeIsOrdered(left.value, right.value, left.value.Type());
    }
  }

  /**
   * A condition that was checked without findings evaluates to a boolean on
   * every typed input, or fails only because a value is missing; while every
   * declared variable has a value, only an observation can be.
   */
  lemma {:induction false} ConditionSound(registry: Registry, definitions: map<string, VariableDefinition>,
      condition: AuthoredCondition, depth: nat, maximumDepth: nat, variables: Variables, reading: Reading)
    requires WellResolved(registry) && TypedVariables(definitions, variables) && TypedReading(registry, reading)
    requires CheckCondition(registry, definitions, condition, depth, maximumDepth).findings == 0
    ensures MissingAtWorst(definitions, variables,
                           EvaluateCondition(registry, ResolveCondition(registry, condition), variables, reading))
    decreases condition
  {
    UncompiledConditionHasFinding(registry, definitions, condition, depth, maximumDepth);
    match condition
    case Constant(_) =>
    case Compare(_, _, _) =>
      ComparisonSound(registry, definitions, condition, depth, maximumDepth, variables, reading);
    case All(conditions) =>
      ConditionsSound(registry, definitions, conditions, depth + 1, maximumDepth, variables, reading, false);
    case Any(conditions) =>
      ConditionsSound(registry, definitions, conditions, depth + 1, maximumDepth, variables, reading, true);
    case Not(inner) =>
      ConditionSound(registry, definitions, inner, depth + 1, maximumDepth, variables, reading);
    case TimeWindow(_, _, _) =>
    case StateDuration(inner, _) =>
      ConditionSound(registry, definitions, inner, depth + 1, maximumDepth, variables, reading);
  }

  lemma {:induction false} ConditionsSound(registry: Registry, definitions: map<string, VariableDefinition>,
      conditions: seq<AuthoredCondition>, depth: nat, maximumDepth: nat, variables: Variables, reading: Reading,
      stop: bool)
    requires WellResolved(registry) && TypedVariables(definitions, variables) && TypedReading(registry, reading)
    requires CheckConditions(registry, definitions, conditions, depth, maximumDepth).findings == 0
    ensures MissingAtWorst(definitions, variables,
                           EvaluateUntil(registry, ResolveConditions(registry, conditions), variables, reading, stop))
    decreases conditions
  {
    if conditions != [] {
      ConditionSound(registry, definitions, conditions[0], depth, maximumDepth, variables, reading);
      ConditionsSound(registry, definitions, conditions[1..], depth, maximumDepth, variables, reading, stop);
    }
  }
}
