/** The interpreter's variable (interpreter/variable.py): a name, a Java type
    name and a value that `set_value` replaces in place. */
module Variables {
  import opened Wrappers
  import opened Util

  class Variable {
    const name: Option<string>
    const dtype: string
    var value: PyVal

    /** A variable holding an already parsed value. */
    constructor (parsed: PyVal, dtype: string, name: Option<string>)
      ensures this.name == name && this.dtype == dtype && value == parsed
    {
      this.name, this.dtype, value := name, dtype, parsed;
    }

    /** `Variable(value, datatype, name=None)`: the value goes through
        `parse_value` as the code writes it, so the text of a float raises
        UnboundLocalError and no variable is made. */
    static method New(value: PyVal, dtype: string, name: Option<string>) returns (r: Result<Variable>)
      ensures ParseValueAsWritten(value).Err? ==> r == Err(ParseValueAsWritten(value).error)
      ensures ParseValueAsWritten(value).Ok? ==>
                r.Ok? && fresh(r.value) && r.value.name == name && r.value.dtype == dtype
                && r.value.value == ParseValueAsWritten(value).value
    {
      var parsed :- ParseValueAsWritten(value);
      var v := new Variable(parsed, dtype, name);
      r := Ok(v);
    }

    /** The same construction with `parse_value` as its documentation
        describes it: it never raises, and float text becomes the float. */
    static method NewDocumented(value: PyVal, dtype: string, name: Option<string>) returns (v: Variable)
      ensures fresh(v) && v.name == name && v.dtype == dtype && v.value == ParseValue(value).value
    {
      var parsed := ParseValue(value).value;
      v := new Variable(parsed, dtype, name);
    }

    function GetName(): Option<string> { name }

    function GetDatatype(): string { dtype }

    function GetValue(): PyVal
      reads this
    {
      value
    }

    /** `set_value`: the value is replaced; name and type are constants and
        stay. */
    method SetValue(v: PyVal)
      modifies this
      ensures GetValue() == v
    {
      value := v;
    }

    /** `str(variable)`: `__str__` returns the value itself, or the text
        "Variable not initialized" when it is None; a value that is not a
        string makes `str()` raise. */
    function Str(): (r: Result<string>)
      reads this
      ensures r.Ok? <==> value.NoneVal? || value.StrVal?
      ensures value.StrVal? ==> r == Ok(value.s)
      ensures value.NoneVal? ==> r == Ok("Variable not initialized")
    {
      match value
      case NoneVal => Ok("Variable not initialized")
      case StrVal(s) => Ok(s)
      case _ => Err(StrNotString)
    }
  }

  /** A variable declared without a value, as the assignment code creates
      them, starts as None; one created from the text of an integer holds the
      integer. */
  method NewVariableExamples(dtype: string, name: string, n: int)
    returns (unset: Variable, num: Variable)
    ensures fresh(unset) && unset.value == NoneVal && unset.name == Some(name) && unset.dtype == dtype
    ensures fresh(num) && num.value == IntVal(n) && num.name == Some(name)
  {
    var u := Variable.New(NoneVal, dtype, Some(name));
    unset := u.value;
    ParseValueRoundTrip(n);
    var m := Variable.New(StrVal(DecimalText(n)), dtype, Some(name));
    num := m.value;
  }

  /** `Variable("4.0", "double")` raises UnboundLocalError, where the
      documented `parse_value` would give a variable holding 4.0. */
  method FloatTextVariable(dtype: string) returns (r: Result<Variable>, documented: Variable)
    ensures r == Err(UnboundLocalError)
    ensures documented.value == FloatVal(4.0)
  {
    ParseFloatExample();
    r := Variable.New(StrVal("4.0"), dtype, None);
    documented := Variable.NewDocumented(StrVal("4.0"), dtype, None);
  }
}
