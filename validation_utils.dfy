/**
 * Typed access to loosely-typed YAML data and the checks on command line
 * flags (scripts/validation_utils.py).
 */
module ValidationUtils {
  import opened Wrappers
  import opened YamlValue
  import opened Text
  import PyInt

  /**
   * How `float(x)` turns a str or an int into a float (given as its repr).
   * Python's float parsing and int-to-float rounding are not part of this
   * model; `fromStr` answers `None` where `float(s)` raises ValueError, and
   * `fromInt` answers `None` where `float(i)` raises OverflowError (an int
   * beyond the range of a double).
   */
  datatype FloatConstructor = FloatConstructor(fromStr: string -> Option<string>, fromInt: int -> Option<string>)

  /**
   * The `field_type` argument: one of the Python types the scripts pass.
   * Python calls the type itself to convert, so the `float` type carries
   * the conversions it performs.
   */
  datatype FieldType = StrField | IntField | FloatField(float: FloatConstructor) | BoolField | ListField | DictField

  function TypeName(t: FieldType): PyType {
    match t
    case StrField => StrType
    case IntField => IntType
    case FloatField(_) => FloatType
    case BoolField => BoolType
    case ListField => ListType
    case DictField => DictType
  }

  /** `field_name`: a mapping key or a list index. */
  datatype FieldName = Name(name: string) | Index(index: int)

  datatype FieldError =
    | Disallowed(field: FieldName, expected: PyType, found: PyType)     // ValueError: pair not allowlisted
    | Unconvertible(field: FieldName, expected: PyType, found: PyType)  // ValueError raised by the conversion
    | Overflowed(field: FieldName, expected: PyType, found: PyType)     // OverflowError of `float(int)`, not caught
    | NotSubscriptable(container: PyType, field: FieldName)             // TypeError from `container[field_name]`

  /** `field_type()`: the value a missing field defaults to. */
  function Zero(t: FieldType): (v: Value)
    ensures TypeOf(v) == TypeName(t)
  {
    match t
    case StrField => Str("")
    case IntField => Int(0)
    case FloatField(_) => Float("0.0")
    case BoolField => Bool(false)
    case ListField => List([])
    case DictField => Map(map[])
  }

  /** `isinstance(value, field_type)`: `bool` is a subclass of `int`. */
  predicate IsInstance(v: Value, t: FieldType) {
    TypeOf(v) == TypeName(t) || (v.Bool? && t.IntField?)
  }

  /** The allowlist of conversions, tested on the exact `type(value)`. */
  predicate Allowlisted(from: PyType, to: PyType) {
    || (from == FloatType && to == StrType)
    || (from == IntType && to == StrType)
    || (from == StrType && to == FloatType)
    || (from == StrType && to == IntType)
    || (from == IntType && to == FloatType)
  }

  /**
   * `field_type(value)` for a value that passed the checks: an instance
   * comes back equal to itself (`int(True)` is 1), an allowlisted value is
   * converted.
   */
  function Construct(v: Value, field: FieldName, t: FieldType): Result<Value, FieldError>
    requires IsInstance(v, t) || Allowlisted(TypeOf(v), TypeName(t))
  {
    match t
    case StrField =>
      (match v
       case Int(i) => Ok(Str(PyInt.IntToDecimal(i)))
       case Float(repr) => Ok(Str(repr))
       case _ => Ok(v))
    case IntField =>
      (match v
       case Bool(b) => Ok(Int(if b then 1 else 0))
       case Str(s) =>
         (match PyInt.ParseInt(s)
          case Some(i) => Ok(Int(i))
          case None => Err(Unconvertible(field, IntType, StrType)))
       case _ => Ok(v))
    case FloatField(float) =>
      (match v
       case Str(s) =>
         (match float.fromStr(s)
          case Some(repr) => Ok(Float(repr))
          case None => Err(Unconvertible(field, FloatType, StrType)))
       case Int(i) =>
         (match float.fromInt(i)
          case Some(repr) => Ok(Float(repr))
          case None => Err(Overflowed(field, FloatType, IntType)))
       case _ => Ok(v))
    case _ => Ok(v)
  }

  /**
   * The part common to both copies of `get_field_value`, after the value
   * has been fetched: type check against the allowlist, then convert.
   */
  function Coerce(v: Value, field: FieldName, t: FieldType): (r: Result<Value, FieldError>)
    ensures r.Ok? ==> TypeOf(r.value) == TypeName(t)
    ensures r.Err? ==> !r.error.NotSubscriptable? && r.error.field == field
    ensures r.Err? ==> r.error.expected == TypeName(t) && r.error.found == TypeOf(v)
    ensures r.Err? && r.error.Unconvertible? ==> v.Str? && (t.IntField? || t.FloatField?)
    ensures r.Err? && r.error.Overflowed? ==> v.Int? && t.FloatField?
  {
    if !IsInstance(v, t) && !Allowlisted(TypeOf(v), TypeName(t)) then
      Err(Disallowed(field, TypeName(t), TypeOf(v)))
    else
      Construct(v, field, t)
  }

  /**
   * `container[field_name]`: `Ok(None)` where Python raises IndexError or
   * KeyError, `Err` where it raises TypeError. Negative list indices count
   * from the end.
   */
  function Subscript(container: Value, field: FieldName): (r: Result<Option<Value>, FieldError>)
    ensures r.Ok? <==> container.Map? || (field.Index? && (container.List? || container.Str?))
  {
    match (container, field)
    case (Map(m), Name(n)) => Ok(if Str(n) in m then Some(m[Str(n)]) else None)
    case (Map(m), Index(i)) => Ok(if Int(i) in m then Some(m[Int(i)]) else None)
    case (List(items), Index(i)) =>
      Ok(if -|items| <= i < |items| then Some(items[if i < 0 then |items| + i else i]) else None)
    case (Str(s), Index(i)) =>
      Ok(if -|s| <= i < |s| then Some(Str([s[if i < 0 then |s| + i else i]])) else None)
    case _ => Err(NotSubscriptable(TypeOf(container), field))
  }

  /** `get_field_value`: a missing field or an explicit null gives the zero value. */
  function GetFieldValue(container: Value, field: FieldName, t: FieldType): (r: Result<Value, FieldError>)
    ensures r.Ok? ==> TypeOf(r.value) == TypeName(t)
  {
    var fetched :- Subscript(container, field);
    match fetched
    case None => Ok(Zero(t))
    case Some(Null) => Ok(Zero(t))
    case Some(v) => Coerce(v, field, t)
  }

  // ---------------------------------------------------------------------
  // Properties of the accessor

  lemma MissingOrNullIsZero(container: Value, field: FieldName, t: FieldType)
    requires Subscript(container, field) == Ok(None) || Subscript(container, field) == Ok(Some(Null))
    ensures GetFieldValue(container, field, t) == Ok(Zero(t))
  {
  }

  /** The defaults are the empty string, zero, the empty list and the empty dict. */
  lemma ZeroValues(float: FloatConstructor)
    ensures Zero(StrField) == Str("") && Zero(IntField) == Int(0)
    ensures Zero(ListField) == List([]) && Zero(DictField) == Map(map[])
    ensures Zero(FloatField(float)) == Float("0.0") && Zero(BoolField) == Bool(false)
  {
  }

  /** A value already of the requested type is returned unchanged. */
  lemma InstanceUnchanged(v: Value, field: FieldName, t: FieldType)
    requires TypeOf(v) == TypeName(t)
    ensures Coerce(v, field, t) == Ok(v)
  {
  }

  /**
   * The acceptance table: a value is rejected as disallowed exactly when its
   * exact type differs from the target and the pair is none of float->str,
   * int->str, str->float, str->int, int->float, except that a bool passes as
   * an int.
   */
  lemma DisallowedTable(v: Value, field: FieldName, t: FieldType)
    ensures Coerce(v, field, t) == Err(Disallowed(field, TypeName(t), TypeOf(v))) <==>
      && TypeOf(v) != TypeName(t)
      && !(v.Bool? && t.IntField?)
      && !(v.Float? && t.StrField?)
      && !(v.Int? && (t.StrField? || t.FloatField?))
      && !(v.Str? && (t.FloatField? || t.IntField?))
  {
  }

  /** Lists, dicts and nulls are never converted, and nothing converts to a list, a dict or a bool. */
  lemma ContainersNeverConvert(v: Value, field: FieldName, t: FieldType)
    requires TypeOf(v) != TypeName(t)
    requires v.List? || v.Map? || v.Null? || t.ListField? || t.DictField? || t.BoolField?
    ensures Coerce(v, field, t) == Err(Disallowed(field, TypeName(t), TypeOf(v)))
  {
  }

  /** An int requested as a str becomes its decimal rendering. */
  lemma IntToStr(i: int, field: FieldName)
    ensures Coerce(Int(i), field, StrField) == Ok(Str(PyInt.IntToDecimal(i)))
  {
    assert Allowlisted(IntType, StrType);
  }

  /** The decimal rendering of an int, requested as an int, gives the int back. */
  lemma DecimalToInt(i: int, field: FieldName)
    ensures Coerce(Str(PyInt.IntToDecimal(i)), field, IntField) == Ok(Int(i))
  {
    var s := PyInt.IntToDecimal(i);
    StrToInt(s, field);
    PyInt.ParseIntOfDecimal(i);
  }

  /** A str requested as an int is parsed, and a str that is no number is a ValueError. */
  lemma StrToInt(s: string, field: FieldName)
    ensures Coerce(Str(s), field, IntField) ==
      match PyInt.ParseInt(s)
      case Some(i) => Ok(Int(i))
      case None => Err(Unconvertible(field, IntType, StrType))
  {
    assert Allowlisted(StrType, IntType);
    assert Coerce(Str(s), field, IntField) == Construct(Str(s), field, IntField);
  }

  /**
   * `float(i)` of an int beyond the range of a double raises OverflowError,
   * which the `except ValueError` clause does not catch: reading such an
   * int as a float is an error, never a default.
   */
  lemma IntToFloatOverflow(m: map<Value, Value>, name: string, float: FloatConstructor)
    requires Str(name) in m && m[Str(name)].Int? && float.fromInt(m[Str(name)].i).None?
    ensures GetFieldValue(Map(m), Name(name), FloatField(float)) == Err(Overflowed(Name(name), FloatType, IntType))
  {
  }

  /** `'\x1c5'` read as an int is refused: `int()` does not skip the separator. */
  lemma SeparatorBeforeDigitsRejected(field: FieldName)
    ensures Coerce(Str([0x1c as char, '5']), field, IntField) == Err(Unconvertible(field, IntType, StrType))
  {
    PyInt.SeparatorNotStripped();
    StrToInt([0x1c as char, '5'], field);
  }

  lemma StrToIntRejectsWord(field: FieldName)
    ensures Coerce(Str("not_an_int"), field, IntField) == Err(Unconvertible(field, IntType, StrType))
  {
    PyInt.ParseIntRejectsWord();
    StrToInt("not_an_int", field);
  }

  /**
   * A bool requested as an int passes the `isinstance` test and becomes 0 or
   * 1; requested as a str or a float it fails the exact-type allowlist.
   */
  lemma BoolCoercions(b: bool, field: FieldName, float: FloatConstructor)
    ensures Coerce(Bool(b), field, IntField) == Ok(Int(if b then 1 else 0))
    ensures Coerce(Bool(b), field, StrField) == Err(Disallowed(field, StrType, BoolType))
    ensures Coerce(Bool(b), field, FloatField(float)) == Err(Disallowed(field, FloatType, BoolType))
  {
  }

  /** The accepted cases of the accessor's tests. */
  lemma GetFieldValueValidExamples()
    ensures GetFieldValue(Map(map[Str("present") := Int(1)]), Name("present"), IntField) == Ok(Int(1))
    ensures GetFieldValue(Map(map[]), Name("missing"), StrField) == Ok(Str(""))
    ensures GetFieldValue(Map(map[Str("None_to_int") := Null]), Name("None_to_int"), IntField) == Ok(Int(0))
  {
  }

  /** The conversions of the accessor's tests: int 1 to str '1'. */
  lemma IntToStrExample()
    ensures GetFieldValue(Map(map[Str("int_to_str") := Int(1)]), Name("int_to_str"), StrField) == Ok(Str("1"))
  {
    assert PyInt.IntToDecimal(1) == "1";
    IntToStr(1, Name("int_to_str"));
  }

  /** The conversions of the accessor's tests: str '1' to int 1. */
  lemma StrToIntExample()
    ensures GetFieldValue(Map(map[Str("str_to_int") := Str("1")]), Name("str_to_int"), IntField) == Ok(Int(1))
  {
    var raw := Map(map[Str("str_to_int") := Str("1")]);
    assert Subscript(raw, Name("str_to_int")) == Ok(Some(Str("1")));
    assert PyInt.IntToDecimal(1) == "1";
    DecimalToInt(1, Name("str_to_int"));
  }

  /** The rejected cases of the accessor's tests: containers of the wrong kind. */
  lemma GetFieldValueInvalidExamples()
    ensures GetFieldValue(Map(map[Str("x") := List([Int(1)])]), Name("x"), DictField).Err?
    ensures GetFieldValue(Map(map[Str("x") := List([Int(1)])]), Name("x"), StrField).Err?
    ensures GetFieldValue(Map(map[Str("x") := Map(map[Int(1) := Int(2)])]), Name("x"), ListField).Err?
  {
  }

  /** The rejected cases of the accessor's tests: a str is not a list. */
  lemma StrToListExample()
    ensures GetFieldValue(Map(map[Str("x") := Str("abc")]), Name("x"), ListField).Err?
  {
  }

  /** The rejected cases of the accessor's tests: a str that is no int. */
  lemma NotAnIntExample()
    ensures GetFieldValue(Map(map[Str("x") := Str("not_an_int")]), Name("x"), IntField).Err?
  {
    var raw := Map(map[Str("x") := Str("not_an_int")]);
    assert Subscript(raw, Name("x")) == Ok(Some(Str("not_an_int")));
    StrToIntRejectsWord(Name("x"));
  }

  // ---------------------------------------------------------------------
  // Command line flags

  datatype ArgumentTypeError = ArgumentTypeError(value: string)

  /**
   * `validate_arg_regex`: `matches(s)` stands for `re.match(flag_regex, s)`
   * finding a match at the start of `s`.
   */
  function ValidateArgRegex(flagValue: string, matches: string -> bool): (r: Result<string, ArgumentTypeError>)
    ensures r.Ok? <==> matches(flagValue)
    ensures r.Ok? ==> r.value == flagValue
    ensures r.Err? ==> r.error.value == flagValue
  {
    if matches(flagValue) then Ok(flagValue) else Err(ArgumentTypeError(flagValue))
  }

  predicate IsUpper(c: char) {
    'A' <= c <= 'Z'
  }

  /** `[A-Z_][A-Z0-9_]*`. */
  predicate IsVariableName(s: string) {
    && |s| > 0
    && (IsUpper(s[0]) || s[0] == '_')
    && forall k :: 0 <= k < |s| ==> IsUpper(s[k]) || PyInt.IsDigit(s[k]) || s[k] == '_'
  }

  /**
   * `re.match(KEY_VALUE_REGEX, entry)` and its two groups. The key runs up
   * to the first '='; `.` does not match a newline, and `$` also matches
   * just before a newline that ends the entry, which the value then loses.
   */
  function MatchKeyValue(entry: string): (r: Option<(string, string)>)
    ensures r.Some? ==>
      var (key, value) := r.value;
      && IsVariableName(key)
      && '\n' !in value
      && (entry == key + "=" + value || entry == key + "=" + value + "\n")
  {
    if '=' !in entry then None
    else
      var i := IndexOf(entry, '=');
      var key := entry[..i];
      var rest := entry[i + 1..];
      assert entry == key + "=" + rest;
      if !IsVariableName(key) then None
      else if '\n' !in rest then Some((key, rest))
      else if rest[|rest| - 1] == '\n' && '\n' !in rest[..|rest| - 1] then
        assert rest == rest[..|rest| - 1] + "\n";
        Some((key, rest[..|rest| - 1]))
      else None
  }

  /** Every `KEY=VALUE` text with a valid key and a one-line value matches, with those groups. */
  lemma MatchKeyValueOfPair(key: string, value: string)
    requires IsVariableName(key) && '\n' !in value
    ensures MatchKeyValue(key + "=" + value) == Some((key, value))
    ensures MatchKeyValue(key + "=" + value + "\n") == Some((key, value))
  {
    assert '=' !in key;
    var entry := key + "=" + value;
    assert entry[|key|] == '=';
    assert entry[..|key|] == key;
    assert IndexOf(entry, '=') == |key|;
    assert entry[|key| + 1..] == value;
    var line := entry + "\n";
    assert line == key + "=" + (value + "\n");
    assert line[|key|] == '=';
    assert line[..|key|] == key;
    assert IndexOf(line, '=') == |key|;
    var rest := line[|key| + 1..];
    assert rest == value + "\n";
    assert rest[..|rest| - 1] == value;
  }

  /** `dict(pairs)`: a later pair for the same key replaces an earlier one. */
  function DictOf(pairs: seq<(string, string)>): map<string, string> {
    if |pairs| == 0 then map[]
    else DictOf(pairs[..|pairs| - 1])[pairs[|pairs| - 1].0 := pairs[|pairs| - 1].1]
  }

  /** The keys of `dict(pairs)` are the keys the pairs mention. */
  lemma {:induction false} DictOfKeys(pairs: seq<(string, string)>)
    ensures forall k :: k in DictOf(pairs) <==> exists i :: 0 <= i < |pairs| && pairs[i].0 == k
  {
    if |pairs| > 0 {
      var init := pairs[..|pairs| - 1];
      DictOfKeys(init);
      forall k | exists i :: 0 <= i < |pairs| && pairs[i].0 == k
        ensures k in DictOf(pairs)
      {
        var i :| 0 <= i < |pairs| && pairs[i].0 == k;
        if i < |pairs| - 1 {
          assert init[i].0 == k;
        }
      }
      forall k | k in DictOf(pairs)
        ensures exists i :: 0 <= i < |pairs| && pairs[i].0 == k
      {
        if k != pairs[|pairs| - 1].0 {
          assert k in DictOf(init);
          var i :| 0 <= i < |init| && init[i].0 == k;
          assert pairs[i].0 == k;
        }
      }
    }
  }

  /** A key maps to the value of the last pair that mentions it. */
  lemma {:induction false} DictOfLastWins(pairs: seq<(string, string)>, i: nat)
    requires i < |pairs|
    requires forall j :: i < j < |pairs| ==> pairs[j].0 != pairs[i].0
    ensures pairs[i].0 in DictOf(pairs) && DictOf(pairs)[pairs[i].0] == pairs[i].1
  {
    if i < |pairs| - 1 {
      var init := pairs[..|pairs| - 1];
      DictOfLastWins(init, i);
    }
  }

  /**
   * `validate_arg_dict`: parse `KEY=VALUE,KEY=VALUE` into a dict. The empty
   * flag is the empty dict; one entry that does not match rejects the whole
   * flag.
   */
  method ValidateArgDict(flagValue: string) returns (r: Result<map<string, string>, ArgumentTypeError>)
    ensures flagValue == "" ==> r == Ok(map[])
    ensures flagValue != "" ==>
      (r.Ok? <==> forall e :: e in Split(flagValue, ',') ==> MatchKeyValue(e).Some?)
    ensures r.Err? ==> r.error == ArgumentTypeError(flagValue)
    ensures r.Ok? && flagValue != "" ==>
      var entries := Split(flagValue, ',');
      exists pairs: seq<(string, string)> ::
        && |pairs| == |entries|
        && (forall k :: 0 <= k < |entries| ==> MatchKeyValue(entries[k]) == Some(pairs[k]))
        && r.value == DictOf(pairs)
  {
    if flagValue == "" {
      return Ok(map[]);
    }
    var entries := Split(flagValue, ',');
    var matched := MatchEntries(entries);
    if matched.None? {
      var k :| 0 <= k < |entries| && MatchKeyValue(entries[k]).None?;
      NotAllMatch(entries, k);
      return Err(ArgumentTypeError(flagValue));
    }
    var pairs := matched.value;
    AllMatch(entries, pairs);
    r := Ok(DictOf(pairs));
    assert
      && |pairs| == |entries|
      && (forall k :: 0 <= k < |entries| ==> MatchKeyValue(entries[k]) == Some(pairs[k]))
      && r.value == DictOf(pairs);
  }

  /**
   * The loop of `validate_arg_dict` over the entries: the groups of each
   * entry in order, or `None` from the first entry that does not match.
   */
  method MatchEntries(entries: seq<string>) returns (r: Option<seq<(string, string)>>)
    ensures r.None? <==> exists k :: 0 <= k < |entries| && MatchKeyValue(entries[k]).None?
    ensures r.Some? ==>
      && |r.value| == |entries|
      && forall k :: 0 <= k < |entries| ==> MatchKeyValue(entries[k]) == Some(r.value[k])
  {
    var pairs: seq<(string, string)> := [];
    var i := 0;
    while i < |entries|
      invariant 0 <= i <= |entries|
      invariant |pairs| == i
      invariant forall k :: 0 <= k < i ==> MatchKeyValue(entries[k]) == Some(pairs[k])
    {
      var m := MatchKeyValue(entries[i]);
      if m.None? {
        return None;
      }
      pairs := pairs + [m.value];
      i := i + 1;
    }
    return Some(pairs);
  }

  lemma NotAllMatch(entries: seq<string>, i: nat)
    requires i < |entries| && MatchKeyValue(entries[i]).None?
    ensures !forall e :: e in entries ==> MatchKeyValue(e).Some?
  {
    assert entries[i] in entries;
  }

  lemma AllMatch(entries: seq<string>, pairs: seq<(string, string)>)
    requires |pairs| == |entries|
    requires forall k :: 0 <= k < |entries| ==> MatchKeyValue(entries[k]) == Some(pairs[k])
    ensures forall e :: e in entries ==> MatchKeyValue(e).Some?
  {
    forall e | e in entries
      ensures MatchKeyValue(e).Some?
    {
      var k :| 0 <= k < |entries| && entries[k] == e;
      assert MatchKeyValue(entries[k]) == Some(pairs[k]);
    }
  }

  /** A repeated key keeps its last value: `_A=1,_A=2` gives `{'_A': '2'}`. */
  lemma RepeatedKeyExample()
    ensures MatchKeyValue("_A=1") == Some(("_A", "1")) && MatchKeyValue("_A=2") == Some(("_A", "2"))
    ensures DictOf([("_A", "1"), ("_A", "2")]) == map["_A" := "2"]
  {
    VariableNameA();
    assert "_A" + "=" + "1" == "_A=1" && "_A" + "=" + "2" == "_A=2";
    MatchKeyValueOfPair("_A", "1");
    MatchKeyValueOfPair("_A", "2");
  }

  lemma SplitExample()
    ensures Split("_A=1,_A=2", ',') == ["_A=1", "_A=2"]
  {
    assert Join(["_A=1", "_A=2"], [',']) == "_A=1,_A=2";
    assert ',' !in "_A=1" && ',' !in "_A=2";
    SplitJoin(["_A=1", "_A=2"], ',');
  }

  lemma VariableNameA()
    ensures IsVariableName("_A")
  {
    assert "_A"[0] == '_' && "_A"[1] == 'A';
  }

  /** Extra '=' signs belong to the value, and the value may be empty. */
  lemma ValueExamples()
    ensures MatchKeyValue("_A=x=y=z") == Some(("_A", "x=y=z"))
    ensures MatchKeyValue("_A=") == Some(("_A", ""))
  {
    VariableNameA();
    assert "_A" + "=" + "x=y=z" == "_A=x=y=z";
    assert '\n' !in "x=y=z";
    MatchKeyValueOfPair("_A", "x=y=z");
    assert "_A" + "=" + "" == "_A=";
    MatchKeyValueOfPair("_A", "");
  }

  /** An entry without '=' does not match: the empty entries of `,_A` and `_A,`, and `_A` itself. */
  lemma NoKeyExamples()
    ensures MatchKeyValue("") == None && MatchKeyValue("_A") == None
  {
  }

  lemma BadKeyExample1()
    ensures MatchKeyValue("_Aa=1") == None
  {
    assert IndexOf("_Aa=1", '=') == 3;
    assert "_Aa=1"[..3] == "_Aa";
    assert "_Aa"[2] == 'a';
  }

  lemma BadKeyExample2()
    ensures MatchKeyValue("_aA=1") == None
  {
    assert IndexOf("_aA=1", '=') == 3;
    assert "_aA=1"[..3] == "_aA";
    assert "_aA"[1] == 'a';
  }

  lemma BadKeyExample3()
    ensures MatchKeyValue("0A=1") == None
  {
    assert IndexOf("0A=1", '=') == 2;
    assert "0A=1"[..2] == "0A";
  }
}
