/** The text that the Go benchmarks print, read back line by line: the name of a result line, its
    measurements, and the counter that numbers the repetitions of each identity. */
module BenchmarkText {
  import opened Wrappers
  import opened Grouping

  /** What a benchmark case is known by. */
  datatype Identity = Identity(algorithm: string, operation: string, parameter: string, parameterValue: int)

  datatype Scenario = AesAscon | JsonCbor | CpabeRsa | FullSchema | Unknown(name: string)

  datatype Failure = KeyError | ValueError | IndexError | StopIteration | StatisticsError | AttributeError

  // ---- splitting and numerals --------------------------------------------------------------

  /** Python's split at every separator. */
  function Split(s: string, separator: char): (parts: seq<string>)
    ensures parts != []
    ensures forall i :: 0 <= i < |parts| ==> separator !in parts[i]
  {
    if s == "" then [""]
    else
      var rest := Split(s[1..], separator);
      if s[0] == separator then [""] + rest else [[s[0]] + rest[0]] + rest[1..]
  }

  function Join(parts: seq<string>, separator: char): string
    requires parts != []
  {
    if |parts| == 1 then parts[0] else parts[0] + [separator] + Join(parts[1..], separator)
  }

  /** Splitting loses nothing. */
  lemma {:induction false} JoinSplit(s: string, separator: char)
    ensures Join(Split(s, separator), separator) == s
  {
    if s != "" {
      JoinSplit(s[1..], separator);
      var rest := Split(s[1..], separator);
      if s[0] == separator {
        assert ([""] + rest)[1..] == rest;
      } else {
        assert ([[s[0]] + rest[0]] + rest[1..])[1..] == rest[1..];
        assert s == [s[0]] + s[1..];
      }
    }
  }

  lemma {:induction false} SplitNone(s: string, separator: char)
    requires separator !in s
    ensures Split(s, separator) == [s]
  {
    if s != "" {
      SplitNone(s[1..], separator);
      assert [s[0]] + s[1..] == s;
    }
  }

  lemma {:induction false} SplitFirst(part: string, separator: char, rest: string)
    requires separator !in part
    ensures Split(part + [separator] + rest, separator) == [part] + Split(rest, separator)
  {
    var whole := part + [separator] + rest;
    if part == "" {
      assert whole[1..] == rest;
    } else {
      SplitFirst(part[1..], separator, rest);
      assert whole[1..] == part[1..] + [separator] + rest;
      assert [part[0]] + part[1..] == part;
    }
  }

  /** Splitting finds exactly the parts that were joined. */
  lemma {:induction false} SplitJoin(parts: seq<string>, separator: char)
    requires parts != [] && forall i :: 0 <= i < |parts| ==> separator !in parts[i]
    ensures Split(Join(parts, separator), separator) == parts
  {
    if |parts| == 1 {
      SplitNone(parts[0], separator);
    } else {
      SplitJoin(parts[1..], separator);
      SplitFirst(parts[0], separator, Join(parts[1..], separator));
      assert [parts[0]] + parts[1..] == parts;
    }
  }

  predicate IsDigit(c: char) { '0' <= c <= '9' }

  function Numeral(n: nat): (s: string)
    ensures s != "" && forall i :: 0 <= i < |s| ==> IsDigit(s[i])
  {
    var digit := [(('0' as int) + n % 10) as char];
    if n < 10 then digit else Numeral(n / 10) + digit
  }

  function Value(digits: string): nat
    requires forall i :: 0 <= i < |digits| ==> IsDigit(digits[i])
  {
    if digits == "" then 0
    else
      var last := digits[|digits| - 1];
      assert IsDigit(last);
      Value(digits[..|digits| - 1]) * 10 + (last as int - '0' as int)
  }

  predicate IsNumber(s: string) {
    s != "" && forall i :: 0 <= i < |s| ==> IsDigit(s[i])
  }

  /** Python's int() on ASCII digits with an optional plus sign. */
  function ParseInt(s: string): Option<nat> {
    var digits := if s != "" && s[0] == '+' then s[1..] else s;
    if IsNumber(digits) then Some(Value(digits)) else None
  }

  lemma {:induction false} ValueOfNumeral(n: nat)
    ensures Value(Numeral(n)) == n
  {
    if n >= 10 {
      ValueOfNumeral(n / 10);
      var s := Numeral(n);
      assert s[..|s| - 1] == Numeral(n / 10);
    }
  }

  // ---- the name of a result line -----------------------------------------------------------

  datatype CaseName = CaseName(operation: string, algorithm: string, parameterValue: nat)

  function CasePrefix(scenario: Scenario): Option<string> {
    match scenario
    case AesAscon => Some("BenchmarkAESASCON")
    case JsonCbor => Some("BenchmarkMessage")
    case CpabeRsa => Some("BenchmarkCPABERSA")
    case FullSchema => Some("BenchmarkFullSchema")
    case Unknown(_) => None
  }

  function RemoveUnit(s: string): string {
    if s != "" && s[|s| - 1] == 'B' then s[..|s| - 1] else s
  }

  function ParseName(name: string): Result<CaseName, Failure> {
    var parts := Split(name, '/');
    if |parts| != 3 then Err(ValueError)
    else
      match ParseInt(RemoveUnit(Split(parts[2], '-')[0]))
      case None => Err(ValueError)
      case Some(value) => Ok(CaseName(parts[0], parts[1], value))
  }

  function WithUnit(value: nat, unit: bool): string {
    if unit then Numeral(value) + ['B'] else Numeral(value)
  }

  function WithProcessors(shown: string, processors: Option<nat>): string {
    match processors
    case None => shown
    case Some(n) => shown + ['-'] + Numeral(n)
  }

  /** The name the benchmark runner prints: an optional unit after the value and, with more than one
      processor, the processor count. */
  function PrintName(c: CaseName, unit: bool, processors: Option<nat>): string {
    Join([c.operation, c.algorithm, WithProcessors(WithUnit(c.parameterValue, unit), processors)], '/')
  }

  lemma ParseShown(value: nat, unit: bool)
    ensures ParseInt(RemoveUnit(WithUnit(value, unit))) == Some(value)
    ensures '-' !in WithUnit(value, unit) && '/' !in WithUnit(value, unit)
  {
    var numeral := Numeral(value);
    assert IsDigit(numeral[|numeral| - 1]) && IsDigit(numeral[0]);
    assert forall i :: 0 <= i < |numeral| ==> IsDigit(numeral[i]);
    assert RemoveUnit(WithUnit(value, unit)) == numeral;
    ValueOfNumeral(value);
  }

  lemma BeforeProcessors(shown: string, processors: Option<nat>)
    requires '-' !in shown && '/' !in shown
    ensures '/' !in WithProcessors(shown, processors) && Split(WithProcessors(shown, processors), '-')[0] == shown
  {
    match processors {
      case None => SplitNone(shown, '-');
      case Some(n) =>
        assert forall i :: 0 <= i < |Numeral(n)| ==> IsDigit(Numeral(n)[i]);
        SplitFirst(shown, '-', Numeral(n));
    }
  }

  /** Reading a printed name gives its parts back, whatever the unit and the processor count. */
  lemma NameRoundTrip(c: CaseName, unit: bool, processors: Option<nat>)
    requires '/' !in c.operation && '/' !in c.algorithm
    ensures ParseName(PrintName(c, unit, processors)) == Ok(c)
  {
    var shown := WithUnit(c.parameterValue, unit);
    ParseShown(c.parameterValue, unit);
    BeforeProcessors(shown, processors);
    SplitJoin([c.operation, c.algorithm, WithProcessors(shown, processors)], '/');
  }

  // ---- which names are accepted ------------------------------------------------------------

  /** A number as int() takes it, with an optional unit behind it. */
  ghost predicate ShowsNumber(shown: string, value: nat) {
    exists sign, digits, unit :: ShownAs(shown, sign, digits, unit) && Value(digits) == value
  }

  ghost predicate ShownAs(shown: string, sign: string, digits: string, unit: string) {
    && shown == sign + digits + unit && (sign == "" || sign == "+") && (unit == "" || unit == "B")
    && IsNumber(digits)
  }

  lemma WithoutUnit(bare: string, unit: string)
    requires bare != "" && bare[|bare| - 1] != 'B' && (unit == "" || unit == "B")
    ensures RemoveUnit(bare + unit) == bare
  {
    if unit == "" {
      assert bare + unit == bare;
    } else {
      assert (bare + unit)[..|bare + unit| - 1] == bare;
    }
  }

  lemma SignedParses(sign: string, digits: string)
    requires (sign == "" || sign == "+") && IsNumber(digits)
    ensures ParseInt(sign + digits) == Some(Value(digits))
  {
    assert IsDigit(digits[0]);
    if sign == "" {
      assert sign + digits == digits;
    } else {
      assert (sign + digits)[1..] == digits;
    }
  }

  lemma ShownParses(shown: string, sign: string, digits: string, unit: string)
    requires ShownAs(shown, sign, digits, unit)
    ensures ParseInt(RemoveUnit(shown)) == Some(Value(digits))
  {
    assert IsDigit(digits[|digits| - 1]);
    assert (sign + digits)[|sign + digits| - 1] == digits[|digits| - 1];
    WithoutUnit(sign + digits, unit);
    SignedParses(sign, digits);
    hide ParseInt, RemoveUnit;
  }

  lemma UnitOff(shown: string) returns (unit: string)
    ensures shown == RemoveUnit(shown) + unit && (unit == "" || unit == "B")
  {
    unit := if shown != "" && shown[|shown| - 1] == 'B' then "B" else "";
    assert shown == RemoveUnit(shown) + unit;
  }

  lemma SignOff(bare: string) returns (sign: string, digits: string)
    requires ParseInt(bare).Some?
    ensures bare == sign + digits && (sign == "" || sign == "+") && IsNumber(digits)
  {
    hide Value, IsNumber;
    if bare != "" && bare[0] == '+' {
      sign, digits := "+", bare[1..];
    } else {
      sign, digits := "", bare;
    }
  }

  lemma ParsedIsShown(shown: string) returns (sign: string, digits: string, unit: string)
    requires ParseInt(RemoveUnit(shown)).Some?
    ensures ShownAs(shown, sign, digits, unit)
  {
    unit := UnitOff(shown);
    hide RemoveUnit;
    sign, digits := SignOff(RemoveUnit(shown));
  }

  lemma ShownIsParsed(shown: string, value: nat)
    ensures ParseInt(RemoveUnit(shown)) == Some(value) <==> ShowsNumber(shown, value)
  {
    hide ParseInt, RemoveUnit;
    if ParseInt(RemoveUnit(shown)).Some? {
      var sign, digits, unit := ParsedIsShown(shown);
      ShownParses(shown, sign, digits, unit);
    }
    if ShowsNumber(shown, value) {
      var sign, digits, unit :| ShownAs(shown, sign, digits, unit) && Value(digits) == value;
      ShownParses(shown, sign, digits, unit);
    }
  }

  /** A name is three parts with slashes between them, the third a shown number that anything may follow after a
      dash. */
  ghost predicate Names(name: string, c: CaseName, shown: string, tail: string) {
    && name == c.operation + "/" + c.algorithm + "/" + (shown + tail)
    && '/' !in c.operation && '/' !in c.algorithm && '/' !in shown + tail
    && '-' !in shown && (tail == "" || tail[0] == '-') && ShowsNumber(shown, c.parameterValue)
  }

  lemma ThreeParts(a: string, b: string, d: string)
    ensures Join([a, b, d], '/') == a + "/" + b + "/" + d
  {
    assert [a, b, d][1..] == [b, d] && [b, d][1..] == [d];
    assert Join([b, d], '/') == b + ['/'] + d;
  }

  lemma BeforeDash(third: string) returns (shown: string, tail: string)
    ensures shown == Split(third, '-')[0] && third == shown + tail
    ensures '-' !in shown && (tail == "" || tail[0] == '-')
  {
    var parts := Split(third, '-');
    JoinSplit(third, '-');
    shown := parts[0];
    tail := if |parts| == 1 then "" else ['-'] + Join(parts[1..], '-');
  }

  lemma DashFirst(shown: string, tail: string)
    requires '-' !in shown && (tail == "" || tail[0] == '-')
    ensures Split(shown + tail, '-')[0] == shown
  {
    if tail == "" {
      assert shown + tail == shown;
      SplitNone(shown, '-');
    } else {
      assert shown + tail == shown + ['-'] + tail[1..];
      SplitFirst(shown, '-', tail[1..]);
    }
  }

  /** Exactly these names are accepted, with their parts; every other one ends the reading. */
  lemma NameExactly(name: string, c: CaseName)
    ensures ParseName(name) == Ok(c) <==> exists shown, tail :: Names(name, c, shown, tail)
    ensures ParseName(name).Err? ==> ParseName(name).error == ValueError
  {
    hide Split, Join, ParseInt, RemoveUnit, ShowsNumber;
    if ParseName(name) == Ok(c) {
      var parts := Split(name, '/');
      JoinSplit(name, '/');
      assert parts == [parts[0], parts[1], parts[2]];
      ThreeParts(parts[0], parts[1], parts[2]);
      var shown, tail := BeforeDash(parts[2]);
      ShownIsParsed(shown, c.parameterValue);
      assert Names(name, c, shown, tail);
    }
    if shown, tail :| Names(name, c, shown, tail) {
      ThreeParts(c.operation, c.algorithm, shown + tail);
      SplitJoin([c.operation, c.algorithm, shown + tail], '/');
      DashFirst(shown, tail);
      ShownIsParsed(shown, c.parameterValue);
    }
  }
}
