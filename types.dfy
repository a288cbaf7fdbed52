/**
 * The whitelist of parameter types and the re-asking loop that accepts only a
 * member of it (`getTypes` and `askType` of MakeCommand).
 */
module Types {

  /** The four plain types, as Nette's `Type` constants spell them. */
  const BaseTypes: seq<string> := ["string", "int", "bool", "array"]

  /** The question's default answer: a blank reply means `string`. */
  const DefaultType: string := "string"

  /** `getTypes()`: the base types followed by their nullable (`?`-prefixed) forms. */
  function GetTypes(): (types: seq<string>)
    ensures types == ["string", "int", "bool", "array", "?string", "?int", "?bool", "?array"]
  {
    var nullable := seq(|BaseTypes|, i requires 0 <= i < |BaseTypes| => "?" + BaseTypes[i]);
    assert nullable == ["?string", "?int", "?bool", "?array"] by {
      assert nullable[0] == "?string" && nullable[1] == "?int";
      assert nullable[2] == "?bool" && nullable[3] == "?array";
    }
    BaseTypes + nullable
  }

  /** A type is allowed exactly when it is a base type or a base type prefixed with `?`. */
  lemma AllowedTypes(t: string)
    ensures t in GetTypes() <==> t in BaseTypes || (|t| > 1 && t[0] == '?' && t[1..] in BaseTypes)
  {
    var types := GetTypes();
    if t in types {
      var k :| 0 <= k < |types| && types[k] == t;
      if k >= |BaseTypes| {
        assert t == "?" + BaseTypes[k - |BaseTypes|];
        assert t[1..] == BaseTypes[k - |BaseTypes|];
      }
    }
    if |t| > 1 && t[0] == '?' && t[1..] in BaseTypes {
      var k :| 0 <= k < |BaseTypes| && BaseTypes[k] == t[1..];
      assert t == "?" + BaseTypes[k];
      assert types[|BaseTypes| + k] == t;
    }
  }

  /** Why an answer to the type question was refused. */
  datatype TypeRejection =
    | HelpRequested          // the bare `?`: the allowed types are listed and the question asked again
    | InvalidType(token: string)  // anything else outside the list: listed, reported, asked again

  datatype TypeCheck = Accepted(fieldType: string) | Rejected(reason: TypeRejection)

  /** What the question returns for a reply: the reply itself, or the default for a blank one. */
  function EffectiveAnswer(answer: string): (t: string)
    ensures answer != "" ==> t == answer
  {
    if answer == "" then DefaultType else answer
  }

  /** The check one pass of the `askType` loop applies to one reply. */
  function ValidateType(answer: string): (r: TypeCheck)
    ensures r.Accepted? <==> EffectiveAnswer(answer) in GetTypes()
    ensures r.Accepted? ==> r.fieldType == EffectiveAnswer(answer)
    ensures r == Rejected(HelpRequested) <==> answer == "?"
    ensures r.Rejected? && answer != "?" ==> r.reason == InvalidType(answer)
  {
    var t := EffectiveAnswer(answer);
    if t == "?" then Rejected(HelpRequested)
    else if t !in GetTypes() then Rejected(InvalidType(t))
    else Accepted(t)
  }

  /**
   * The type `askType` settles on for a list of replies: the first accepted one.
   * Once the replies run out the operator is taken to press return, which the
   * question's default turns into `string`.
   */
  function TypeFromAnswers(answers: seq<string>): (t: string)
    ensures t in GetTypes()
  {
    if answers == [] then DefaultType
    else match ValidateType(answers[0])
      case Accepted(t) => t
      case Rejected(_) => TypeFromAnswers(answers[1..])
  }

  /**
   * `askType`: asks until the reply is in the whitelist. Returns the type and, in
   * order, why each earlier reply was refused.
   */
  method AskType(answers: seq<string>) returns (fieldType: string, rejections: seq<TypeRejection>)
    ensures fieldType in GetTypes() && fieldType != "?"
    ensures fieldType == TypeFromAnswers(answers)
    ensures |rejections| <= |answers|
    ensures forall k | 0 <= k < |rejections| :: ValidateType(answers[k]) == Rejected(rejections[k])
    ensures |rejections| < |answers| ==> ValidateType(answers[|rejections|]) == Accepted(fieldType)
  {
    var current: string := "";
    var settled := false;
    var i := 0;
    rejections := [];
    while !settled
      invariant 0 <= i <= |answers| && |rejections| == i
      invariant forall k | 0 <= k < i :: ValidateType(answers[k]) == Rejected(rejections[k])
      invariant !settled ==> TypeFromAnswers(answers[i..]) == TypeFromAnswers(answers)
      invariant settled ==> current == TypeFromAnswers(answers) && current in GetTypes()
      invariant settled && i < |answers| ==> ValidateType(answers[i]) == Accepted(current)
      decreases |answers| - i, if settled then 0 else 1
    {
      // a reply past the end of the list is a blank one
      var answer := if i < |answers| then answers[i] else "";
      match ValidateType(answer) {
        case Accepted(t) =>
          current, settled := t, true;
        case Rejected(why) =>
          assert answers[i..][1..] == answers[i + 1..];
          rejections := rejections + [why];
          i := i + 1;
      }
    }
    fieldType := current;
  }
}
