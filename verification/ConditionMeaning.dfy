/**
 * What conditions mean, said of their evaluation as a whole: the operators on
 * values of each type, the list conditions, windows, intervals and observed
 * fields.
 */
module ConditionMeaning {
  import opened Wrappers
  import opened Domain
  import opened Numerals
  import opened Evaluator
  import opened Observations

  // ----- comparisons ----------------------------------------------------------------------

  /** The first text is a proper prefix, or smaller at the first difference. */
  ghost predicate TextPrecedes(a: string, b: string) {
    || (|a| < |b| && a == b[..|a|])
    || exists k :: 0 <= k < |a| && k < |b| && a[..k] == b[..k] && a[k] < b[k]
  }

  lemma {:induction false} TextComparesAs(a: string, b: string)
    ensures CompareText(a, b) == Less <==> TextPrecedes(a, b)
    decreases |a|
  {
    if a != [] && b != [] {
      assert a == [a[0]] + a[1..] && b == [b[0]] + b[1..];
      TextComparesAs(a[1..], b[1..]);
      if a[0] == b[0] {
        TailPrecedes(a, b);
      } else if a[0] < b[0] {
        assert a[..0] == b[..0];
      }
    }
  }

  /** Equal first characters do not matter. */
  lemma TailPrecedes(a: string, b: string)
    requires a != [] && b != [] && a[0] == b[0]
    ensures TextPrecedes(a, b) <==> TextPrecedes(a[1..], b[1..])
  {
    if |a| < |b| {
      assert b[1..][..|a| - 1] == b[..|a|][1..];
      assert a == b[..|a|] <==> a[1..] == b[..|a|][1..] by {
        assert a == [a[0]] + a[1..] && b[..|a|] == [b[0]] + b[..|a|][1..];
      }
    }
    if k :| 0 < k < |a| && k < |b| && a[..k] == b[..k] && a[k] < b[k] {
      assert a[1..][..k - 1] == a[..k][1..] && b[1..][..k - 1] == b[..k][1..];
      assert a[1..][k - 1] < b[1..][k - 1];
    }
    if k :| 0 <= k < |a| - 1 && k < |b| - 1 && a[1..][..k] == b[1..][..k] && a[1..][k] < b[1..][k] {
      assert a[..k + 1] == [a[0]] + a[1..][..k] && b[..k + 1] == [b[0]] + b[1..][..k];
      assert a[k + 1] < b[k + 1];
    }
  }

  /** The order of each type; decimals are ordered as numbers, and false comes before true. */
  ghost predicate Precedes(a: Value, b: Value)
    requires a.Type() == b.Type() && Numeric(a) && Numeric(b)
  {
    match a
    case Null => false
    case Boolean(flag) => !flag && b.flag
    case Integer(number) => number < b.number
    case Decimal(digits) => SmallerNumber(digits, b.digits)
    case Text(text) => TextPrecedes(text, b.text)
    case Timestamp(at) => at < b.at
    case DurationMillis(millis) => millis < b.millis
  }

  ghost predicate Equals(a: Value, b: Value)
    requires a.Type() == b.Type() && Numeric(a) && Numeric(b)
  {
    if a.Decimal? then SameNumber(a.digits, b.digits) else a == b
  }

  predicate SameNumber(a: string, b: string) {
    DecimalValue(a) == DecimalValue(b)
  }

  predicate SmallerNumber(a: string, b: string)
    requires DecimalValue(a).Some? && DecimalValue(b).Some?
  {
    DecimalValue(a).value < DecimalValue(b).value
  }

  /** What each operator says of two values of one type. */
  ghost predicate Says(a: Value, operator: Comparison, b: Value)
    requires a.Type() == b.Type() && Numeric(a) && Numeric(b)
  {
    match operator
    case Equal => Equals(a, b)
    case NotEqual => !Equals(a, b)
    case LessThan => Precedes(a, b)
    case LessThanOrEqual => Precedes(a, b) || Equals(a, b)
    case GreaterThan => Precedes(b, a)
    case GreaterThanOrEqual => Precedes(b, a) || Equals(a, b)
  }

  /** The order of two values of one type says which comes first. */
  ghost predicate Ordered(a: Value, b: Value)
    requires a.Type() == b.Type() && Numeric(a) && Numeric(b)
  {
    && OrderValues(a, b).Some?
    && (OrderValues(a, b) == Some(Less) <==> Precedes(a, b))
    && (OrderValues(a, b) == Some(Same) <==> Equals(a, b))
    && (OrderValues(a, b) == Some(Greater) <==> Precedes(b, a))
  }

  lemma OrderMeans(a: Value, b: Value)
    requires a.Type() == b.Type() && Numeric(a) && Numeric(b)
    ensures Ordered(a, b)
  {
    if a.Text? {
      TextsAreOrdered(a.text, b.text);
    } else if a.Decimal? {
      DecimalsAreOrdered(a.digits, b.digits);
    } else {
      ScalarsAreOrdered(a, b);
    }
  }

  lemma ScalarsAreOrdered(a: Value, b: Value)
    requires a.Type() == b.Type() && !a.Text? && !a.Decimal?
    ensures Ordered(a, b)
  {
  }

  lemma DecimalsAreOrdered(a: string, b: string)
    requires DecimalValue(a).Some? && DecimalValue(b).Some?
    ensures Ordered(Decimal(a), Decimal(b))
  {
    NumbersAreOrdered(DecimalValue(a), DecimalValue(b));
  }

  lemma NumbersAreOrdered(x: Option<real>, y: Option<real>)
    requires x.Some? && y.Some?
    ensures CompareNumbers(x, y).Some?
    ensures CompareNumbers(x, y) == Some(Less) <==> x.value < y.value
    ensures CompareNumbers(x, y) == Some(Same) <==> x == y
    ensures CompareNumbers(x, y) == Some(Greater) <==> y.value < x.value
  {
  }

  lemma TextsAreOrdered(a: string, b: string)
    ensures Ordered(Text(a), Text(b))
  {
    TextComparesAs(a, b);
    TextComparesAs(b, a);
    TextOrderFlips(a, b);
  }

  /** A comparison of two values of one type holds exactly as its operator says. */
  lemma OperatorsMean(registry: Registry, left: ResolvedExpression, operator: Comparison, right: ResolvedExpression,
                      variables: Variables, reading: Reading, a: Value, b: Value)
    requires EvaluateExpression(left, variables, reading) == Ok(a)
    requires EvaluateExpression(right, variables, reading) == Ok(b)
    requires a.Type() == b.Type() && Numeric(a) && Numeric(b)
    ensures EvaluateCondition(registry, Compare(left, operator, right), variables, reading) == Ok(Says(a, operator, b))
  {
    OrderMeans(a, b);
    assert CompareValues(a, operator, b) == Ok(Says(a, operator, b));
  }

  // ----- lists, negation, windows and intervals ---------------------------------------------

  /** The members before `i` all hold, or all fail. */
  ghost predicate AllBefore(registry: Registry, conditions: seq<ResolvedCondition>, variables: Variables,
                            reading: Reading, i: nat, holds: bool)
    requires i <= |conditions|
  {
    forall j :: 0 <= j < i ==> EvaluateCondition(registry, conditions[j], variables, reading) == Ok(holds)
  }

  /** Member `i` decides a list that goes on while its members are `going`. */
  ghost predicate Decides(registry: Registry, conditions: seq<ResolvedCondition>, variables: Variables,
                          reading: Reading, i: nat, going: bool, result: Result<bool, EvaluationError>)
  {
    && i < |conditions| && AllBefore(registry, conditions, variables, reading, i, going)
    && EvaluateCondition(registry, conditions[i], variables, reading) == result && result != Ok(going)
  }

  lemma {:induction false} FirstDecides(registry: Registry, conditions: seq<ResolvedCondition>, variables: Variables,
                                        reading: Reading, going: bool) returns (i: nat)
    ensures i <= |conditions| && AllBefore(registry, conditions, variables, reading, i, going)
    ensures var result := EvaluateUntil(registry, conditions, variables, reading, !going);
            if i == |conditions| then result == Ok(going)
            else Decides(registry, conditions, variables, reading, i, going, result)
    decreases conditions
  {
    if conditions == [] {
      i := 0;
    } else if EvaluateCondition(registry, conditions[0], variables, reading) != Ok(going) {
      i := 0;
    } else {
      var rest := FirstDecides(registry, conditions[1..], variables, reading, going);
      i := rest + 1;
      forall j | 0 <= j < i
        ensures EvaluateCondition(registry, conditions[j], variables, reading) == Ok(going)
      {
        assert j > 0 ==> conditions[j] == conditions[1..][j - 1];
      }
      assert i < |conditions| ==> conditions[i] == conditions[1..][rest];
    }
  }

  /**
   * All holds exactly if every member does, and otherwise ends as its first
   * member that does not; Any fails exactly if every member does, and
   * otherwise ends as its first member that does not.
   */
  lemma ListsMean(registry: Registry, conditions: seq<ResolvedCondition>, variables: Variables, reading: Reading,
                  result: Result<bool, EvaluationError>)
    ensures EvaluateCondition(registry, All(conditions), variables, reading) == Ok(true)
            <==> AllBefore(registry, conditions, variables, reading, |conditions|, true)
    ensures result != Ok(true) ==>
              (EvaluateCondition(registry, All(conditions), variables, reading) == result
               <==> exists i: nat :: Decides(registry, conditions, variables, reading, i, true, result))
    ensures EvaluateCondition(registry, Any(conditions), variables, reading) == Ok(false)
            <==> AllBefore(registry, conditions, variables, reading, |conditions|, false)
    ensures result != Ok(false) ==>
              (EvaluateCondition(registry, Any(conditions), variables, reading) == result
               <==> exists i: nat :: Decides(registry, conditions, variables, reading, i, false, result))
  {
    ListMeans(registry, conditions, variables, reading, true, result);
    ListMeans(registry, conditions, variables, reading, false, result);
  }

  lemma ListMeans(registry: Registry, conditions: seq<ResolvedCondition>, variables: Variables, reading: Reading,
                  going: bool, result: Result<bool, EvaluationError>)
    ensures EvaluateUntil(registry, conditions, variables, reading, !going) == Ok(going)
            <==> AllBefore(registry, conditions, variables, reading, |conditions|, going)
    ensures result != Ok(going) ==>
              (EvaluateUntil(registry, conditions, variables, reading, !going) == result
               <==> exists i: nat :: Decides(registry, conditions, variables, reading, i, going, result))
  {
    var first := FirstDecides(registry, conditions, variables, reading, going);
    forall i: nat, other | Decides(registry, conditions, variables, reading, i, going, other)
      ensures i == first
    {
    }
  }

  /** Negation turns the answer around, and an interval needs its condition and its maturity. */
  lemma NegationAndIntervalMean(registry: Registry, inner: ResolvedCondition, durationMs: nat, variables: Variables,
                                reading: Reading, holds: bool)
    ensures EvaluateCondition(registry, Not(inner), variables, reading) == Ok(holds)
            <==> EvaluateCondition(registry, inner, variables, reading) == Ok(!holds)
    ensures EvaluateCondition(registry, StateDuration(inner, durationMs), variables, reading) == Ok(true)
            <==> EvaluateCondition(registry, inner, variables, reading) == Ok(true)
                 && (inner, durationMs) in reading.matured
    ensures EvaluateCondition(registry, StateDuration(inner, durationMs), variables, reading).Err?
            <==> EvaluateCondition(registry, inner, variables, reading).Err?
  {
  }

  /**
   * A time window holds exactly while the clock, running forward from its
   * start, has not reached its end.
   */
  lemma WindowMeans(registry: Registry, zone: string, start: string, end: string, variables: Variables,
                    reading: Reading, day: nat)
    requires zone in registry.zones && zone in reading.local
    requires start in registry.clockTexts && end in registry.clockTexts
    requires reading.local[zone] < day && registry.clockTexts[start] < day && registry.clockTexts[end] < day
    ensures var passed := (reading.local[zone] - registry.clockTexts[start] + day) % day;
            var length := (registry.clockTexts[end] - registry.clockTexts[start] + day) % day;
            EvaluateCondition(registry, TimeWindow(zone, start, end), variables, reading) == Ok(passed < length)
  {
    Wraps(reading.local[zone], registry.clockTexts[start], day);
    Wraps(registry.clockTexts[end], registry.clockTexts[start], day);
  }

  lemma Wraps(later: nat, earlier: nat, day: nat)
    requires later < day && earlier < day
    ensures (later - earlier + day) % day == if later < earlier then later - earlier + day else later - earlier
  {
    if later >= earlier {
      assert (later - earlier + day) % day == (later - earlier) % day;
    }
  }

  // ----- numbers ----------------------------------------------------------------------------

  lemma {:induction false} DigitsJoin(first: string, second: string)
    requires AllDigits(first) && AllDigits(second)
    ensures AllDigits(first + second)
    ensures DigitsValue(first + second) as real
            == Raised(DigitsValue(first) as real, |second|) + DigitsValue(second) as real
    decreases |second|
  {
    if second == [] {
      assert first + second == first;
    } else {
      var last := |second| - 1;
      assert (first + second)[..|first + second| - 1] == first + second[..last];
      DigitsJoin(first, second[..last]);
    }
  }

  /** Raising is undone by lowering, which distributes over sums. */
  lemma {:induction false} LoweredSum(first: real, second: real, places: nat)
    ensures Lowered(Raised(first, places) + second, places) == first + Lowered(second, places)
  {
    LoweredAdds(Raised(first, places), second, places);
    LoweredRaised(first, places);
  }

  lemma {:induction false} LoweredAdds(first: real, second: real, places: nat)
    ensures Lowered(first + second, places) == Lowered(first, places) + Lowered(second, places)
  {
    if places > 0 {
      LoweredAdds(first, second, places - 1);
    }
  }

  lemma {:induction false} LoweredTimesTen(value: real, places: nat)
    ensures Lowered(value * 10.0, places) == Lowered(value, places) * 10.0
  {
    if places > 0 {
      LoweredTimesTen(value, places - 1);
    }
  }

  lemma {:induction false} LoweredRaised(value: real, places: nat)
    ensures Lowered(Raised(value, places), places) == value
  {
    if places > 0 {
      LoweredRaised(value, places - 1);
      LoweredTimesTen(Raised(value, places - 1), places - 1);
    }
  }

  lemma DotFound(whole: string, fraction: string)
    requires AllDigits(whole)
    ensures var text := whole + "." + fraction;
            DotAt(text) == |whole| && text[..|whole|] == whole && text[|whole| + 1..] == fraction
  {
    var text := whole + "." + fraction;
    assert text[|whole|] == '.';
    assert forall i :: 0 <= i < |whole| ==> text[i] == whole[i] && IsDigit(whole[i]);
  }

  lemma MantissaIs(text: string, whole: string, fraction: string, value: real)
    requires AllDigits(whole) && AllDigits(fraction) && AllDigits(whole + fraction) && whole != []
    requires DotAt(text) == |whole| < |text| && text[..|whole|] == whole && text[|whole| + 1..] == fraction
    requires Lowered(DigitsValue(whole + fraction) as real, |fraction|) == value
    ensures MantissaValue(text) == Some(value)
  {
  }

  /** Digits with a dot are their whole part and their fraction. */
  lemma MantissaReads(whole: string, fraction: string, text: string, value: real)
    requires AllDigits(whole) && AllDigits(fraction) && whole != [] && text == whole + "." + fraction
    requires value == DigitsValue(whole) as real + Lowered(DigitsValue(fraction) as real, |fraction|)
    ensures MantissaValue(text) == Some(value)
  {
    DotFound(whole, fraction);
    FractionJoins(whole, fraction, value);
    MantissaIs(text, whole, fraction, value);
  }

  lemma FractionJoins(whole: string, fraction: string, value: real)
    requires AllDigits(whole) && AllDigits(fraction)
    requires value == DigitsValue(whole) as real + Lowered(DigitsValue(fraction) as real, |fraction|)
    ensures AllDigits(whole + fraction) && Lowered(DigitsValue(whole + fraction) as real, |fraction|) == value
  {
    DigitsJoin(whole, fraction);
    LoweredSum(DigitsValue(whole) as real, DigitsValue(fraction) as real, |fraction|);
  }

  lemma UnmarkedMagnitude(text: string)
    requires MarkAt(text) == |text|
    ensures Magnitude(text) == MantissaValue(text)
  {
  }

  lemma UnsignedReads(text: string, value: real)
    requires Unsigned(text) == text && Magnitude(text) == Some(value)
    ensures DecimalValue(text) == Some(value)
  {
  }

  lemma SignedReads(text: string, unsigned: string, value: real)
    requires Unsigned(text) == unsigned && unsigned != text && Magnitude(unsigned) == Some(value)
    ensures DecimalValue(text) == Some(-value)
  {
  }

  /** Text without exponent has the value of its mantissa, negated behind a minus sign. */
  lemma PlainReads(mantissa: string, value: real)
    requires mantissa != [] && mantissa[0] != '-' && MarkAt(mantissa) == |mantissa|
    requires MantissaValue(mantissa) == Some(value)
    ensures DecimalValue(mantissa) == Some(value) && DecimalValue("-" + mantissa) == Some(-value)
  {
    UnmarkedMagnitude(mantissa);
    UnsignedReads(mantissa, value);
    assert ("-" + mantissa)[1..] == mantissa;
    SignedReads("-" + mantissa, mantissa, value);
  }

  /** Decimal text means its whole part plus its fraction, negated behind a minus sign. */
  lemma DecimalReads(whole: nat, fraction: string, text: string, value: real)
    requires AllDigits(fraction) && text == DecimalText(whole) + "." + fraction
    requires value == whole as real + Lowered(DigitsValue(fraction) as real, |fraction|)
    ensures DecimalValue(text) == Some(value) && DecimalValue("-" + text) == Some(-value)
  {
    var digits := DecimalText(whole);
    DecimalTextReadsBack(whole);
    MantissaReads(digits, fraction, text, value);
    NoMark(digits, fraction);
    assert IsDigit(digits[0]) && text[0] == digits[0];
    PlainReads(text, value);
  }

  lemma NoMark(whole: string, fraction: string)
    requires AllDigits(whole) && AllDigits(fraction)
    ensures MarkAt(whole + "." + fraction) == |whole + "." + fraction|
  {
    var text := whole + "." + fraction;
    forall i | 0 <= i < |text|
      ensures text[i] !in {'e', 'E'}
    {
      assert text[i] == if i < |whole| then whole[i] else if i == |whole| then '.' else fraction[i - |whole| - 1];
      assert i < |whole| ==> IsDigit(whole[i]);
      assert i > |whole| ==> IsDigit(fraction[i - |whole| - 1]);
    }
  }

  /** An exponent multiplies by its power of ten, or divides by it behind a minus sign. */
  lemma ExponentReads(mantissa: string, exponent: nat, negative: bool)
    requires mantissa != [] && mantissa[0] != '-' && MarkAt(mantissa) == |mantissa| && MantissaValue(mantissa).Some?
    ensures var value := MantissaValue(mantissa).value;
            DecimalValue(mantissa + ("e" + ((if negative then "-" else "") + DecimalText(exponent))))
            == Some(if negative then Lowered(value, exponent) else Raised(value, exponent))
  {
    var signed := (if negative then "-" else "") + DecimalText(exponent);
    SignedExponent(exponent, negative);
    MarkFound(mantissa, "e" + signed);
    Divides(mantissa, signed);
    MarkedReads(mantissa + ("e" + signed), mantissa, signed);
    MovedBySigned(MantissaValue(mantissa).value, signed, DecimalText(exponent), exponent, negative);
  }

  lemma SignedExponent(exponent: nat, negative: bool)
    ensures var signed, digits := (if negative then "-" else "") + DecimalText(exponent), DecimalText(exponent);
            && Unsigned(signed) == digits && (signed == digits <==> !negative)
            && digits != [] && AllDigits(digits) && DigitsValue(digits) == exponent
  {
    DecimalTextReadsBack(exponent);
    assert IsDigit(DecimalText(exponent)[0]);
  }

  lemma MovedBySigned(value: real, signed: string, digits: string, exponent: nat, negative: bool)
    requires Unsigned(signed) == digits && (signed == digits <==> !negative)
    requires digits != [] && AllDigits(digits) && DigitsValue(digits) == exponent
    ensures Moved(value, signed) == Some(if negative then Lowered(value, exponent) else Raised(value, exponent))
  {
  }

  lemma Divides(mantissa: string, exponent: string)
    requires mantissa != []
    ensures var text := mantissa + ("e" + exponent);
            text[0] == mantissa[0] && text[..|mantissa|] == mantissa && text[|mantissa| + 1..] == exponent
  {
  }

  lemma MarkedReads(text: string, mantissa: string, exponent: string)
    requires text != [] && text[0] != '-' && MarkAt(text) == |mantissa| < |text|
    requires text[..|mantissa|] == mantissa && text[|mantissa| + 1..] == exponent && MantissaValue(mantissa).Some?
    ensures DecimalValue(text) == Moved(MantissaValue(mantissa).value, exponent)
  {
  }

  lemma MarkFound(mantissa: string, rest: string)
    requires MarkAt(mantissa) == |mantissa| && rest != [] && rest[0] == 'e'
    ensures MarkAt(mantissa + rest) == |mantissa|
  {
    var text := mantissa + rest;
    assert text[|mantissa|] == 'e';
    assert forall i :: 0 <= i < |mantissa| ==> text[i] == mantissa[i];
  }

  // ----- observed fields ---------------------------------------------------------------------

  /** The JSON says exactly this value. */
  ghost predicate JsonSays(json: JsonValue, value: Value) {
    match value
    case Null => json == JsonNull
    case Boolean(flag) => json == JsonBoolean(flag)
    case Integer(number) => json == JsonNumber(Whole(number)) && MIN_INTEGER <= number <= MAX_INTEGER
    case Decimal(digits) => json.JsonNumber? && !json.number.FitsInteger() && SaysNumber(json.number, digits)
    case Text(text) => json == JsonString(text)
    case _ => false
  }

  predicate SaysNumber(number: Number, digits: string) {
    DecimalValue(digits) == if number.Whole? then Some(number.number as real) else DecimalValue(number.text)
  }

  lemma JsonEquals(json: JsonValue, value: Value)
    requires ValueOf(json).Some? && Numeric(value)
    ensures CompareValues(ValueOf(json).value, Equal, value) == Ok(true) <==> JsonSays(json, value)
  {
    var read := ValueOf(json).value;
    JsonDecimalsAreNumbers(json);
    ComparedIffSameType(read, Equal, value);
    if read.Type() == value.Type() {
      OrderMeans(read, value);
      JsonSaysEqual(json, value);
    }
  }

  lemma JsonSaysEqual(json: JsonValue, value: Value)
    requires ValueOf(json).Some? && ValueOf(json).value.Type() == value.Type()
    requires Numeric(value) && Numeric(ValueOf(json).value)
    ensures Equals(ValueOf(json).value, value) <==> JsonSays(json, value)
  {
    if json.JsonNumber? {
      NumberSaysEqual(json.number, value);
    }
  }

  lemma NumberSaysEqual(number: Number, value: Value)
    requires ValueOf(JsonNumber(number)).value.Type() == value.Type()
    requires Numeric(value) && Numeric(ValueOf(JsonNumber(number)).value)
    ensures Equals(ValueOf(JsonNumber(number)).value, value) <==> JsonSays(JsonNumber(number), value)
  {
    if !number.FitsInteger() {
      NumberReads(number, value.digits);
    }
  }

  /** The number that a decimal read from JSON stands for. */
  lemma NumberReads(number: Number, digits: string)
    requires !number.FitsInteger()
    ensures SameNumber(number.Text(), digits) <==> SaysNumber(number, digits)
  {
    if number.Whole? {
      WholeReadsBack(number.number);
    }
  }

  /** Comparing the field of the first target with a literal holds exactly if the observed JSON says that literal. */
  lemma ObservedFieldMeans(registry: Registry, targets: seq<Target>, field: string, value: Value, variables: Variables,
                           observed: Observed, reading: Reading)
    requires reading.snapshot == SnapshotOf(observed) && Numeric(value)
    ensures EvaluateCondition(registry, Compare(Observation(targets, field), Equal, Literal(value)), variables, reading)
            == Ok(true)
            <==> && targets != [] && Field(targets[0], field) in observed
                 && JsonSays(observed[Field(targets[0], field)], value)
  {
    if targets != [] && Field(targets[0], field) in observed {
      var json := observed[Field(targets[0], field)];
      if ValueOf(json).Some? {
        JsonEquals(json, value);
      }
    }
  }
}
