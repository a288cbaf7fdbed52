/**
 * The parameters of the generated `__invoke` method and the text of its body:
 * the name validator, the attribute-value lists, the per-parameter boilerplate,
 * the assembled body, and `Collect`, the reference definition of what one prompt
 * loop adds to the parameter list.
 */
module Parameters {
  import opened Optional
  import opened Php
  import opened Types
  import opened Defaults

  /** Which console attribute a generated parameter carries. */
  datatype ParamKind = ArgumentKind | OptionKind

  /** A `#[Argument(...)]` or `#[Option(...)]` attribute with its positional values. */
  datatype Attribute = Attribute(kind: ParamKind, values: seq<string>)

  /**
   * A parameter of the generated `__invoke`: its name, its type, its default
   * (`None` when no default is set, `Some(VNull)` for an explicit null) and its attribute.
   */
  datatype Param = Param(name: string, paramType: Option<string>, default: Option<Value>, attribute: Option<Attribute>)

  const SymfonyStyleClass: string := "Symfony\\Component\\Console\\Style\\SymfonyStyle"

  /** The fixed first parameter, `SymfonyStyle $io`. */
  const IoParam: Param := Param("io", Some(SymfonyStyleClass), None, None)

  /**
   * What the operator answers for one parameter: the successive replies to the
   * name question, the description, the shortcut (asked for options only), the
   * successive replies to the type question and the default. An empty string
   * stands for a blank reply.
   */
  datatype ParamAnswers = ParamAnswers(
    nameAttempts: seq<string>,
    description: string,
    shortcut: string,
    typeAnswers: seq<string>,
    default: string)

  /** `$method->hasParameter($name)`. */
  predicate HasParameter(ps: seq<Param>, name: string) {
    exists i | 0 <= i < |ps| :: ps[i].name == name
  }

  predicate UniqueNames(ps: seq<Param>) {
    forall i, j | 0 <= i < j < |ps| :: ps[i].name != ps[j].name
  }

  /** The name validator: a truthy name that is already a parameter is refused. */
  predicate NameRefused(ps: seq<Param>, name: string) {
    Truthy(name) && HasParameter(ps, name)
  }

  /**
   * The name the question settles on. Symfony asks again after a refused reply;
   * once the replies run out the operator is taken to press return.
   */
  function AskedName(ps: seq<Param>, attempts: seq<string>): (name: string)
    ensures Truthy(name) ==> !HasParameter(ps, name)
    ensures name != "" ==> exists k | 0 <= k < |attempts| ::
      attempts[k] == name && forall j | 0 <= j < k :: NameRefused(ps, attempts[j])
    ensures forall k | 0 <= k < |attempts| ::
      !NameRefused(ps, attempts[k]) && (forall j | 0 <= j < k :: NameRefused(ps, attempts[j])) ==> name == attempts[k]
    ensures (forall k | 0 <= k < |attempts| :: NameRefused(ps, attempts[k])) ==> name == ""
  {
    if attempts == [] then ""
    else if NameRefused(ps, attempts[0]) then AskedName(ps, attempts[1..])
    else attempts[0]
  }

  /** The attribute values of an argument: the description when it is non-blank. */
  function ArgumentAttributeValues(description: string): (values: seq<string>)
    ensures |values| == if Truthy(description) then 1 else 0
    ensures forall v | v in values :: v == description
  {
    var values: seq<string> := [];
    if Truthy(description) then values + [description] else values
  }

  /**
   * The attribute values of an option: the description, then the shortcut, each
   * only when non-blank; the keys are dropped, so only the position remains.
   */
  function OptionAttributeValues(description: string, shortcut: string): (values: seq<string>)
    ensures |values| == (if Truthy(description) then 1 else 0) + (if Truthy(shortcut) then 1 else 0)
    ensures Truthy(description) ==> values[0] == description
    ensures Truthy(shortcut) ==> values[|values| - 1] == shortcut
    ensures forall v | v in values :: v == description || v == shortcut
  {
    var withDescription := if Truthy(description) then [description] else [];
    if Truthy(shortcut) then withDescription + [shortcut] else withDescription
  }

  /**
   * With its keys gone, an option list cannot tell a lone shortcut from a lone
   * description: both give the same one-element list.
   */
  lemma LoneShortcutTakesFirstPlace(text: string)
    requires Truthy(text)
    ensures OptionAttributeValues("", text) == OptionAttributeValues(text, "") == [text]
  {
  }

  /** An argument's list is an option's list without a shortcut. */
  lemma ArgumentValuesAreOptionValues(description: string)
    ensures ArgumentAttributeValues(description) == OptionAttributeValues(description, "")
  {
  }

  /** `addBodyBoilerplate($name, $kind)`: print the parameter when it is truthy. */
  function Boilerplate(name: string, kind: string): (block: string)
    ensures "if ($" + name + ") {" <= block
    ensures |block| >= 2 && block[|block| - 2..] == "}\n"
  {
    "if ($" + name + ") {\n    $io->writeln(\"" + kind + " " + name + ": $" + name + "\");\n}\n"
  }

  /** Distinct parameter names give distinct blocks. */
  lemma BoilerplateInjective(name1: string, name2: string, kind: string)
    requires Boilerplate(name1, kind) == Boilerplate(name2, kind)
    ensures name1 == name2
  {
    var b1, b2 := Boilerplate(name1, kind), Boilerplate(name2, kind);
    assert |b1| == 37 + |kind| + 3 * |name1|;
    assert |b2| == 37 + |kind| + 3 * |name2|;
    assert b1[5..5 + |name1|] == name1;
    assert b2[5..5 + |name2|] == name2;
  }

  /** The word the boilerplate prints before a parameter's name. */
  function KindText(kind: ParamKind): string {
    match kind
    case ArgumentKind => "Argument"
    case OptionKind => "Option"
  }

  function KindLabel(p: Param): string {
    if p.attribute.Some? then KindText(p.attribute.value.kind) else "Argument"
  }

  function BlockFor(p: Param): string {
    Boilerplate(p.name, KindLabel(p))
  }

  /** The given strings joined in order. */
  function Concat(ss: seq<string>): string {
    if ss == [] then "" else ss[0] + Concat(ss[1..])
  }

  /** One block per parameter, in order. */
  function Rendered(ps: seq<Param>): (blocks: seq<string>)
    ensures |blocks| == |ps|
  {
    seq(|ps|, i requires 0 <= i < |ps| => BlockFor(ps[i]))
  }

  /** The blocks of the given parameters, joined in order. */
  function Blocks(ps: seq<Param>): string {
    Concat(Rendered(ps))
  }

  const ProjectDirLine: string := "$io->writeln(\"The project directory is \" . $this->projectDir);\n\n"

  /** The two statements every generated body ends with. */
  const SuccessTail: string := "$io->success(self::class . \" success.\");\nreturn Command::SUCCESS;"

  function BodyPrefix(projectDir: bool): string {
    if projectDir then ProjectDirLine else ""
  }

  /** The body offered to the operator: the project-directory line, then one block per parameter. */
  function AssembledBody(projectDir: bool, ps: seq<Param>): string {
    BodyPrefix(projectDir) + Blocks(ps)
  }

  lemma {:induction false} ConcatAppend(a: seq<string>, b: seq<string>)
    ensures Concat(a + b) == Concat(a) + Concat(b)
  {
    if a == [] {
      assert a + b == b;
    } else {
      assert (a + b)[1..] == a[1..] + b;
      ConcatAppend(a[1..], b);
    }
  }

  /** String `i` sits in the join right after the strings before it. */
  lemma ConcatAt(ss: seq<string>, i: int)
    requires 0 <= i < |ss|
    ensures |Concat(ss[..i])| + |ss[i]| <= |Concat(ss)|
    ensures Concat(ss)[|Concat(ss[..i])|..|Concat(ss[..i])| + |ss[i]|] == ss[i]
  {
    assert ss == ss[..i] + ([ss[i]] + ss[i + 1..]);
    ConcatAppend(ss[..i], [ss[i]] + ss[i + 1..]);
    assert ([ss[i]] + ss[i + 1..])[1..] == ss[i + 1..];
  }

  /** Appending a parameter appends its block. */
  lemma BlocksSnoc(ps: seq<Param>, p: Param)
    ensures Blocks(ps + [p]) == Blocks(ps) + BlockFor(p)
  {
    var block := BlockFor(p);
    assert Rendered(ps + [p]) == Rendered(ps) + [block];
    ConcatAppend(Rendered(ps), [block]);
    assert [block][1..] == [];
  }

  /**
   * Parameter `i`'s block sits in a body right after whatever precedes the
   * blocks (the project-directory line or nothing) and the blocks of the
   * parameters before it.
   */
  lemma BlockAt(prefix: string, ps: seq<Param>, i: int)
    requires 0 <= i < |ps|
    ensures var offset := |prefix| + |Blocks(ps[..i])|;
      var block := Rendered(ps)[i];
      && offset + |block| <= |prefix + Blocks(ps)|
      && (prefix + Blocks(ps))[offset..offset + |block|] == block
  {
    var before, block := |Blocks(ps[..i])|, Rendered(ps)[i];
    RenderedPrefix(ps, i);
    ConcatAt(Rendered(ps), i);
    SliceAfterPrefix(prefix, Blocks(ps), before, before + |block|);
  }

  lemma SliceAfterPrefix(x: string, y: string, lo: int, hi: int)
    requires 0 <= lo <= hi <= |y|
    ensures (x + y)[|x| + lo..|x| + hi] == y[lo..hi]
  {
  }

  lemma RenderedPrefix(ps: seq<Param>, i: int)
    requires 0 <= i <= |ps|
    ensures Rendered(ps)[..i] == Rendered(ps[..i])
  {
  }

  /**
   * The final body: the operator's edit of the offered body (a blank reply keeps
   * it), followed by the success report and the success return.
   */
  function FinalBody(offered: string, answer: string): (body: string)
    ensures |body| >= |SuccessTail| && body[|body| - |SuccessTail|..] == SuccessTail
    ensures answer == "" ==> body[..|body| - |SuccessTail|] == offered
    ensures answer != "" ==> body[..|body| - |SuccessTail|] == answer
  {
    (if answer == "" then offered else answer) + SuccessTail
  }

  /** The parameter `askForNextArgument` builds for an accepted name. */
  function NewArgument(name: string, a: ParamAnswers): Param {
    var t := TypeFromAnswers(a.typeAnswers);
    Param(name, Some(t), ArgumentDefault(t, a.default),
          Some(Attribute(ArgumentKind, ArgumentAttributeValues(a.description))))
  }

  /** The parameter `askForNextOption` builds for an accepted name. */
  function NewOption(name: string, a: ParamAnswers): Param {
    var t := TypeFromAnswers(a.typeAnswers);
    Param(name, Some(t), Some(OptionDefault(GetDefault(t, VNull), a.default)),
          Some(Attribute(OptionKind, OptionAttributeValues(a.description, a.shortcut))))
  }

  function NewParam(kind: ParamKind, name: string, a: ParamAnswers): Param {
    match kind
    case ArgumentKind => NewArgument(name, a)
    case OptionKind => NewOption(name, a)
  }

  /**
   * What one prompt loop adds to the parameter list: one parameter per answer
   * set, in order, until a name reply that is blank (or `0`).
   */
  function Collect(kind: ParamKind, ps: seq<Param>, answers: seq<ParamAnswers>): seq<Param>
    decreases |answers|
  {
    if answers == [] then ps
    else
      var name := AskedName(ps, answers[0].nameAttempts);
      if !Truthy(name) then ps
      else Collect(kind, ps + [NewParam(kind, name, answers[0])], answers[1..])
  }

  /** A generated parameter: truthy name, whitelisted type, an attribute. */
  predicate Generated(p: Param) {
    && Truthy(p.name)
    && p.paramType.Some? && p.paramType.value in GetTypes()
    && p.attribute.Some?
  }

  predicate IsOption(p: Param) {
    p.attribute.Some? && p.attribute.value.kind == OptionKind
  }

  /** `io` first, names unique, every later parameter a generated one. */
  predicate WellFormedInvoke(ps: seq<Param>) {
    && |ps| >= 1 && ps[0] == IoParam
    && UniqueNames(ps)
    && forall i | 1 <= i < |ps| :: Generated(ps[i])
  }

  /** After the first option, every parameter is an option. */
  predicate ArgumentsBeforeOptions(ps: seq<Param>) {
    forall i, j | 1 <= i < j < |ps| :: IsOption(ps[i]) ==> IsOption(ps[j])
  }

  /**
   * One loop keeps the parameters it started with in front, appends the
   * parameter of the first answer set right after them when its name is
   * accepted, adds only generated parameters of its own kind, and keeps the
   * list well formed.
   */
  lemma {:induction false} CollectProperties(kind: ParamKind, ps: seq<Param>, answers: seq<ParamAnswers>)
    ensures var r := Collect(kind, ps, answers);
      && ps <= r
      && (answers != [] && Truthy(AskedName(ps, answers[0].nameAttempts)) ==>
            |r| > |ps| && r[|ps|] == NewParam(kind, AskedName(ps, answers[0].nameAttempts), answers[0]))
      && (forall k | |ps| <= k < |r| :: Generated(r[k]) && r[k].attribute.value.kind == kind)
      && (WellFormedInvoke(ps) ==> WellFormedInvoke(r))
    decreases |answers|
  {
    if answers != [] {
      var name := AskedName(ps, answers[0].nameAttempts);
      if Truthy(name) {
        var p := NewParam(kind, name, answers[0]);
        var ps' := ps + [p];
        assert Generated(p);
        assert UniqueNames(ps) ==> UniqueNames(ps') by {
          assert !HasParameter(ps, name);
        }
        CollectProperties(kind, ps', answers[1..]);
      }
    }
  }

  /**
   * The arguments' loop followed by the options' loop yields a well-formed list
   * with `io` first and every argument before every option.
   */
  lemma InvokeParams(arguments: seq<ParamAnswers>, options: seq<ParamAnswers>)
    ensures var r := Collect(OptionKind, Collect(ArgumentKind, [IoParam], arguments), options);
      WellFormedInvoke(r) && ArgumentsBeforeOptions(r)
  {
    var a := Collect(ArgumentKind, [IoParam], arguments);
    var r := Collect(OptionKind, a, options);
    CollectProperties(ArgumentKind, [IoParam], arguments);
    CollectProperties(OptionKind, a, options);
    forall i, j | 1 <= i < j < |r| && IsOption(r[i]) ensures IsOption(r[j]) {
      assert i >= |a|;
    }
  }

  /**
   * One argument `target` (type left at its default) and one option `verbose` of
   * type `bool` with default `false` give `io`, `target`, `verbose` in that order.
   */
  lemma TargetVerboseExample(target: ParamAnswers, verbose: ParamAnswers)
    requires target == ParamAnswers(["target"], "", "", [], "")
    requires verbose == ParamAnswers(["verbose"], "", "", ["bool"], "false")
    ensures Collect(OptionKind, Collect(ArgumentKind, [IoParam], [target]), [verbose]) == [
      IoParam,
      Param("target", Some("string"), None, Some(Attribute(ArgumentKind, []))),
      Param("verbose", Some("bool"), Some(VStr("false")), Some(Attribute(OptionKind, [])))]
  {
    var withTarget := [IoParam] + [NewArgument("target", target)];
    assert AskedName([IoParam], ["target"]) == "target" by {
      assert !HasParameter([IoParam], "target");
    }
    assert Collect(ArgumentKind, [IoParam], [target]) == withTarget by {
      assert [target][1..] == [];
    }
    assert AskedName(withTarget, ["verbose"]) == "verbose" by {
      assert !HasParameter(withTarget, "verbose");
    }
    assert [verbose][1..] == [];
  }
}
