/**
 * Default values of generated parameters: the coercion an argument's default
 * receives (lines 160-168 of MakeCommand), the suggestion `getDefault` offers for
 * an option (lines 201-210), and the option flow's reading of the answer `null`
 * (lines 265-273).
 */
module Defaults {
  import opened Optional
  import opened Php

  /**
   * The default an argument receives for the answer to "Enter default value": none
   * for a falsy answer, otherwise the answer cast to the argument's type when that
   * type is exactly `int` or `bool`, and the raw text for every other type.
   */
  function ArgumentDefault(fieldType: string, answer: string): (d: Option<Value>)
    ensures d.Some? <==> Truthy(answer)
    ensures d.Some? && fieldType == "int" ==> d.value == VInt(IntCast(answer))
    ensures d.Some? && fieldType == "bool" ==> d.value == VBool(true)
    ensures d.Some? && fieldType != "int" && fieldType != "bool" ==> d.value == VStr(answer)
  {
    if !Truthy(answer) then None
    else if fieldType == "int" then Some(VInt(IntCast(answer)))
    else if fieldType == "bool" then Some(VBool(ValueTruthy(VStr(answer))))
    else Some(VStr(answer))
  }

  /** An `int` argument keeps any non-zero number typed in decimal. */
  lemma IntArgumentDefault(n: int)
    requires n != 0
    ensures ArgumentDefault("int", IntToDecimal(n)) == Some(VInt(n))
  {
    IntCastRoundTrip(n);
    assert IntCast("0") == 0;
  }

  /**
   * `getDefault`: the default offered for an option of the given type. A string
   * value comes back single-quoted, a boolean as the word `true` or `false`, an
   * integer unchanged, and every other type (`?bool` included) as the word `null`.
   */
  function GetDefault(fieldType: string, default: Value): (r: Value)
    ensures fieldType == "string" ==>
      && r.VStr? && |r.s| >= 2 && r.s[0] == '\'' && r.s[|r.s| - 1] == '\''
      && r.s[1..|r.s| - 1] == ToPhpString(default)
    ensures fieldType == "bool" ==> r == (if ValueTruthy(default) then VStr("true") else VStr("false"))
    ensures fieldType == "int" ==> r == default
    ensures fieldType !in {"string", "bool", "int"} ==> r == VStr("null")
  {
    match fieldType
    case "string" => VStr("'" + ToPhpString(default) + "'")
    case "bool" => if ValueTruthy(default) then VStr("true") else VStr("false")
    case "?bool" => VStr("null")
    case "int" => default
    case _ => VStr("null")
  }

  /**
   * The default an option receives: the answer, or the offered default when the
   * answer is blank; the text `null` then becomes a real null.
   */
  function OptionDefault(offered: Value, answer: string): (d: Value)
    ensures d != VStr("null")
    ensures d == VNull <==> answer == "null" || (answer == "" && offered in {VNull, VStr("null")})
    ensures answer != "" && answer != "null" ==> d == VStr(answer)
    ensures answer == "" && offered != VStr("null") ==> d == offered
  {
    var given := if answer == "" then offered else VStr(answer);
    if given == VStr("null") then VNull else given
  }

  /**
   * `getDefault` is called without a value, so a blank answer leaves a string
   * option defaulting to the text `''`, a boolean one to `false`, and every other
   * type to a real null.
   */
  lemma BlankOptionDefault(fieldType: string)
    ensures fieldType == "string" ==> OptionDefault(GetDefault(fieldType, VNull), "") == VStr("''")
    ensures fieldType == "bool" ==> OptionDefault(GetDefault(fieldType, VNull), "") == VStr("false")
    ensures fieldType != "string" && fieldType != "bool" ==> OptionDefault(GetDefault(fieldType, VNull), "") == VNull
  {
  }
}
