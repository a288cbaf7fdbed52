/**
 * The `survos:make:command` generator itself: the `__invoke` method object it
 * fills in, the two per-parameter prompts, and the driver that names the class,
 * runs the argument loop and then the option loop, and finishes the body.
 */
module MakeCommand {
  import opened Optional
  import opened Php
  import opened Types
  import opened Defaults
  import opened ClassNames
  import opened Parameters

  /** The generated `__invoke` method, as the code generator's method object holds it. */
  class InvokeMethod {
    var params: seq<Param>
    var body: string
    const returnType: string

    /** `addMethod('__invoke')` followed by `setReturnType('int')`. */
    constructor ()
      ensures params == [] && body == "" && returnType == "int"
    {
      params := [];
      body := "";
      returnType := "int";
    }

    /** `addParameter`: the name validators ensure the name is new. */
    method AddParameter(p: Param)
      requires !HasParameter(params, p.name)
      modifies this
      ensures params == old(params) + [p] && body == old(body)
      ensures UniqueNames(old(params)) ==> UniqueNames(params)
    {
      params := params + [p];
    }

    /** `setBody`: replaces the whole body. */
    method SetBody(code: string)
      modifies this
      ensures body == code && params == old(params)
    {
      body := code;
    }
  }

  /**
   * `askForNextArgument`: asks for a name; a blank (or `0`) reply adds nothing.
   * Otherwise asks for the description, the type and the default, and adds the
   * argument with the default cast to `int` or `bool` when the type is exactly that.
   */
  method AskForNextArgument(m: InvokeMethod, a: ParamAnswers) returns (argument: Option<string>)
    modifies m
    ensures m.body == old(m.body)
    ensures var name := AskedName(old(m.params), a.nameAttempts);
      if Truthy(name) then argument == Some(name) && m.params == old(m.params) + [NewArgument(name, a)]
      else argument == None && m.params == old(m.params)
  {
    var fieldName := AskedName(m.params, a.nameAttempts);
    if !Truthy(fieldName) {
      return None;
    }
    var attributeValues: seq<string> := [];
    if Truthy(a.description) {
      attributeValues := attributeValues + [a.description];
    }
    var fieldType, _ := AskType(a.typeAnswers);
    var default: Option<Value> := None;
    if Truthy(a.default) {
      var value := VStr(a.default);
      if fieldType == "int" {
        value := VInt(IntCast(a.default));
      }
      if fieldType == "bool" {
        value := VBool(ValueTruthy(value));
      }
      default := Some(value);
    }
    m.AddParameter(Param(fieldName, Some(fieldType), default, Some(Attribute(ArgumentKind, attributeValues))));
    argument := Some(fieldName);
  }

  /**
   * `askForNextOption`: asks for a name; a blank (or `0`) reply adds nothing.
   * Otherwise asks for the description, the shortcut, the type and the default
   * (offered by `getDefault`), turns the text `null` into a real null, and adds
   * the option.
   */
  method AskForNextOption(m: InvokeMethod, a: ParamAnswers) returns (option: Option<string>)
    modifies m
    ensures m.body == old(m.body)
    ensures var name := AskedName(old(m.params), a.nameAttempts);
      if Truthy(name) then option == Some(name) && m.params == old(m.params) + [NewOption(name, a)]
      else option == None && m.params == old(m.params)
  {
    var fieldName := AskedName(m.params, a.nameAttempts);
    if !Truthy(fieldName) {
      return None;
    }
    var attributeValues: seq<string> := [];
    if Truthy(a.description) {
      attributeValues := attributeValues + [a.description];
    }
    if Truthy(a.shortcut) {
      attributeValues := attributeValues + [a.shortcut];
    }
    assert attributeValues == OptionAttributeValues(a.description, a.shortcut);
    var fieldType, _ := AskType(a.typeAnswers);
    var offered := GetDefault(fieldType, VNull);
    var default := offered;
    if a.default != "" {
      default := VStr(a.default);
    }
    if default == VStr("null") {
      default := VNull;
    }
    assert default == OptionDefault(offered, a.default);
    m.AddParameter(Param(fieldName, Some(fieldType), Some(default), Some(Attribute(OptionKind, attributeValues))));
    option := Some(fieldName);
  }

  /** A promoted constructor parameter. */
  datatype PromotedParam = PromotedParam(
    name: string,
    visibility: string,
    paramType: string,
    default: Value,
    autowire: seq<string>)

  /** The generated constructor: empty, or promoting the autowired project directory. */
  function ConstructorParams(projectDir: bool): seq<PromotedParam> {
    if projectDir then [PromotedParam("projectDir", "private", "string", VNull, ["%kernel.project_dir%/"])]
    else []
  }

  /**
   * The value of a question asked without a default: a blank reply gives null,
   * anything else the reply itself.
   */
  function Reply(reply: string): (r: Option<string>)
    ensures r.None? <==> reply == ""
    ensures r.Some? ==> r.value == reply
  {
    if reply == "" then None else Some(reply)
  }

  /** The string a possibly-null value stands for when text is built from it. */
  function TextOf(v: Option<string>): string {
    match v
    case None => ""
    case Some(s) => s
  }

  /** The class the generator writes out. */
  datatype CommandClass = CommandClass(
    namespace: string,
    className: string,
    commandAttribute: seq<Option<string>>,
    constructorParams: seq<PromotedParam>,
    invokeParams: seq<Param>,
    invokeReturnType: string,
    invokeBody: string)

  /**
   * `__invoke` of the generator. The command name and description come from the
   * options or, when those are blank, from the operator's replies (a blank reply
   * is null, which the class name reads as empty text); each element of
   * `arguments` and `options` answers one round of the corresponding loop.
   */
  method Invoke(
    name: string, nameAnswer: string,
    description: string, descriptionAnswer: string,
    projectDir: bool, ns: string,
    arguments: seq<ParamAnswers>, options: seq<ParamAnswers>,
    bodyAnswer: string)
    returns (generated: CommandClass)
    ensures var commandName := if Truthy(name) then Some(name) else Reply(nameAnswer);
      && generated.className == CommandClassName(TextOf(commandName))
      && generated.commandAttribute == [commandName, if Truthy(description) then Some(description) else Reply(descriptionAnswer)]
    ensures generated.namespace == ns
    ensures generated.constructorParams == ConstructorParams(projectDir)
    ensures generated.invokeParams == Collect(OptionKind, Collect(ArgumentKind, [IoParam], arguments), options)
    ensures WellFormedInvoke(generated.invokeParams) && ArgumentsBeforeOptions(generated.invokeParams)
    ensures generated.invokeReturnType == "int"
    ensures generated.invokeBody == FinalBody(AssembledBody(projectDir, generated.invokeParams[1..]), bodyAnswer)
  {
    var commandName := Some(name);
    if !Truthy(name) {
      commandName := Reply(nameAnswer);
    }
    var commandClass := CommandClassName(TextOf(commandName));
    var commandDescription := Some(description);
    if !Truthy(description) {
      commandDescription := Reply(descriptionAnswer);
    }

    var m := new InvokeMethod();
    m.AddParameter(IoParam);
    assert m.params == [IoParam];
    var prefix := BodyPrefix(projectDir);
    var body := prefix;
    assert Blocks(m.params[1..]) == "";
    body := ArgumentLoop(m, prefix, arguments, body);
    ghost var withArguments := m.params;
    assert withArguments == Collect(ArgumentKind, [IoParam], arguments);
    body := OptionLoop(m, prefix, options, body);
    assert m.params == Collect(OptionKind, withArguments, options);

    if bodyAnswer != "" {
      body := bodyAnswer;
    }
    body := body + SuccessTail;
    m.SetBody(body);

    InvokeParams(arguments, options);
    generated := CommandClass(ns, commandClass, [commandName, commandDescription],
                              ConstructorParams(projectDir), m.params, m.returnType, m.body);
  }

  /**
   * The arguments' loop: ask for arguments until a blank name, appending each
   * one's boilerplate to the body.
   */
  method ArgumentLoop(m: InvokeMethod, prefix: string, arguments: seq<ParamAnswers>, body0: string)
    returns (body: string)
    requires |m.params| >= 1 && m.params[0] == IoParam
    requires body0 == prefix + Blocks(m.params[1..])
    modifies m
    ensures m.params == Collect(ArgumentKind, old(m.params), arguments) && m.body == old(m.body)
    ensures |m.params| >= 1 && m.params[0] == IoParam
    ensures body == prefix + Blocks(m.params[1..])
  {
    body := body0;
    var i := 0;
    while i < |arguments|
      invariant 0 <= i <= |arguments| && |m.params| >= 1 && m.params[0] == IoParam
      invariant Collect(ArgumentKind, m.params, arguments[i..]) == Collect(ArgumentKind, old(m.params), arguments)
      invariant body == prefix + Blocks(m.params[1..])
      invariant m.body == old(m.body)
    {
      ghost var before := m.params;
      var argument := AskForNextArgument(m, arguments[i]);
      if argument.None? {
        LoopStop(ArgumentKind, m.params, arguments, i);
        break;
      }
      LoopStep(ArgumentKind, prefix, before, arguments, i);
      body := body + Boilerplate(argument.value, KindText(ArgumentKind));
      i := i + 1;
    }
    if i == |arguments| {
      LoopStop(ArgumentKind, m.params, arguments, i);
    }
  }

  /**
   * The options' loop: ask for options until a blank name, appending each one's
   * boilerplate to the body.
   */
  method OptionLoop(m: InvokeMethod, prefix: string, options: seq<ParamAnswers>, body0: string)
    returns (body: string)
    requires |m.params| >= 1 && m.params[0] == IoParam
    requires body0 == prefix + Blocks(m.params[1..])
    modifies m
    ensures m.params == Collect(OptionKind, old(m.params), options) && m.body == old(m.body)
    ensures |m.params| >= 1 && m.params[0] == IoParam
    ensures body == prefix + Blocks(m.params[1..])
  {
    body := body0;
    var j := 0;
    while j < |options|
      invariant 0 <= j <= |options| && |m.params| >= 1 && m.params[0] == IoParam
      invariant Collect(OptionKind, m.params, options[j..]) == Collect(OptionKind, old(m.params), options)
      invariant body == prefix + Blocks(m.params[1..])
      invariant m.body == old(m.body)
    {
      ghost var before := m.params;
      var option := AskForNextOption(m, options[j]);
      if option.None? {
        LoopStop(OptionKind, m.params, options, j);
        break;
      }
      LoopStep(OptionKind, prefix, before, options, j);
      body := body + Boilerplate(option.value, KindText(OptionKind));
      j := j + 1;
    }
    if j == |options| {
      LoopStop(OptionKind, m.params, options, j);
    }
  }

  /**
   * One accepted round of a loop: the parameter it adds leaves the rest of the
   * loop's result unchanged, and its block extends the body.
   */
  lemma LoopStep(kind: ParamKind, prefix: string, ps: seq<Param>, answers: seq<ParamAnswers>, i: int)
    requires 0 <= i < |answers| && |ps| >= 1
    requires Truthy(AskedName(ps, answers[i].nameAttempts))
    ensures var name := AskedName(ps, answers[i].nameAttempts);
      var p := NewParam(kind, name, answers[i]);
      && Collect(kind, ps + [p], answers[i + 1..]) == Collect(kind, ps, answers[i..])
      && prefix + Blocks((ps + [p])[1..]) == prefix + Blocks(ps[1..]) + Boilerplate(name, KindText(kind))
  {
    var name := AskedName(ps, answers[i].nameAttempts);
    var p := NewParam(kind, name, answers[i]);
    assert answers[i..][1..] == answers[i + 1..];
    assert (ps + [p])[1..] == ps[1..] + [p];
    BlocksSnoc(ps[1..], p);
    AppendAssociates(prefix, Blocks(ps[1..]), BlockFor(p));
  }

  /** A loop ends, keeping the parameters it has, at a blank name or when the rounds run out. */
  lemma LoopStop(kind: ParamKind, ps: seq<Param>, answers: seq<ParamAnswers>, i: int)
    requires 0 <= i <= |answers|
    requires i == |answers| || !Truthy(AskedName(ps, answers[i].nameAttempts))
    ensures Collect(kind, ps, answers[i..]) == ps
  {
  }

  lemma AppendAssociates(x: string, y: string, z: string)
    ensures x + (y + z) == (x + y) + z
  {
  }
}
