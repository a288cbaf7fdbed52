# survos:make:command in Dafny

This project models the decision logic of `survos:make:command` from the
SurvosCodeBundle (`src/Command/MakeCommand.php`). The command asks the operator
for a command name, a description, a list of arguments and a list of options.
From the answers it builds a PHP console-command class.

- The class name comes from the command name, by title-casing it and removing
  `app:`, `:` and `-`.
- The `#[AsCommand]` attribute holds the name and the description.
- The constructor promotes an autowired project directory, when that was
  requested.
- An `__invoke` method takes `SymfonyStyle $io` first. Then come the arguments,
  then the options, each with its type, default and `#[Argument]` or `#[Option]`
  attribute.
- The method body prints each parameter and ends with a success report.

The model is split the way the source is:

- `php.dfy` holds the PHP value semantics the generator relies on:
  - truthiness of strings and values;
  - the `(int)` cast of a string;
  - what `sprintf('%s')` writes for a value.
- `types.dfy` holds the type whitelist `getTypes`, the check applied to one
  reply, and `askType`'s re-asking loop (a method with a `while` loop).
- `classnames.dfy` holds the class-name derivation and lemmas about its shape,
  including the worked examples `app:do-something` and `app:foo`.
- `defaults.dfy` holds:
  - the coercion of an argument's default;
  - `getDefault`;
  - the option flow's reading of the text `null`.
- `parameters.dfy` holds:
  - the parameter records;
  - the name validator;
  - the attribute-value lists;
  - the body boilerplate and the assembled body;
  - `Collect`, a reference definition of what one prompt loop adds.
- `makecommand.dfy` holds:
  - `InvokeMethod`, the generated method as a mutable object;
  - the two per-parameter prompts;
  - the two `while` loops of `__invoke`, proved against `Collect`;
  - the `Invoke` driver, which returns the generated class.

Console interaction is replaced by its answers, which are passed in as plain
inputs:

- The type question and the name question get a finite list of replies.
- A reply past the end of a list counts as pressing return. For the type
  question that yields the default `string`. For the name question it ends the
  loop.
- A refused reply makes the question ask again, with the next reply.

## Model

| member | source | states |
|---|---|---|
| Php.ToPhpString | src/Command/MakeCommand.php:204 | `sprintf('%s')` writes a string unchanged, and writes null and `false` as the empty string |
| Php.IntCastRoundTrip | src/Command/MakeCommand.php:161-163 | the `(int)` cast of any integer's decimal text gives back that integer |
| Types.GetTypes | src/Command/MakeCommand.php:36-42 | the whitelist is `string, int, bool, array` followed by `?string, ?int, ?bool, ?array`, in that order |
| Types.AllowedTypes | src/Command/MakeCommand.php:36-42 | a type is allowed exactly when it is a base type or `?` followed by a base type |
| Types.ValidateType | src/Command/MakeCommand.php:179-195 | a reply is accepted exactly when its effective value (blank means `string`) is whitelisted; a bare `?` is refused as a help request and nothing else is; any other refused reply is reported as invalid with its own text |
| Types.TypeFromAnswers | src/Command/MakeCommand.php:175-199 | the type settled on for any reply list is always whitelisted |
| Types.AskType | src/Command/MakeCommand.php:175-199 | the loop returns a whitelisted type other than `?`, namely the first accepted reply, after refusing exactly the replies before it (one rejection per refused reply, in order) |
| ClassNames.CommandClassName | src/Command/MakeCommand.php:77-79 | the class name always ends in `Command` |
| ClassNames.ClassNameShape | src/Command/MakeCommand.php:77-79 | for every command name, the class name contains no `:` and no `-`, and is at most seven characters longer than the name |
| ClassNames.PlainNameClassName | src/Command/MakeCommand.php:77-79 | a name without `app:`, `:` or `-` is only title-cased and suffixed |
| ClassNames.WordClassName | src/Command/MakeCommand.php:77-79 | `app:` followed by one word gives the capitalised word plus `Command` |
| ClassNames.HyphenatedClassName | src/Command/MakeCommand.php:77-79 | `app:` followed by two hyphen-joined words gives both words capitalised and joined, plus `Command` |
| ClassNames.DoSomethingExample | src/Command/MakeCommand.php:77-79 | `app:do-something` gives `DoSomethingCommand` |
| ClassNames.FooExample | src/Command/MakeCommand.php:77-79 | `app:foo` gives `FooCommand` |
| ClassNames.TitleFromAt | src/Command/MakeCommand.php:77 | position by position, title-casing upper-cases exactly the characters that start a word |
| ClassNames.RemoveAllChar | src/Command/MakeCommand.php:77-78 | after a one-character pattern is removed, that character no longer occurs |
| Defaults.ArgumentDefault | src/Command/MakeCommand.php:160-168 | an argument gets a default exactly when the reply is truthy; the default is the `(int)` cast for type `int`, `true` for type `bool`, and the text itself for every other type |
| Defaults.IntArgumentDefault | src/Command/MakeCommand.php:160-163 | an `int` argument given any non-zero integer in decimal gets exactly that integer as its default |
| Defaults.GetDefault | src/Command/MakeCommand.php:201-210 | for `string` the value is quoted (the inside is the value's `%s` text); for `bool` it is the text `true` or `false` by truthiness; for `int` it is unchanged; for every other type (`?bool` included) it is the text `null` |
| Defaults.OptionDefault | src/Command/MakeCommand.php:265-273 | an option's default is never the text `null`; it is null exactly when the reply is `null`, or when the reply is blank and the offered default is null or `null`; otherwise it is the reply, or the offered default when the reply is blank |
| Defaults.BlankOptionDefault | src/Command/MakeCommand.php:265-273 | a blank reply leaves a `string` option with the text `''`, a `bool` option with the text `false`, and every other type with null |
| Parameters.AskedName | src/Command/MakeCommand.php:139-148 | the name settled on is exactly the first reply the validator does not refuse (a truthy name already a parameter is refused), and blank when every reply is refused; it is never a refused name |
| Parameters.ArgumentAttributeValues | src/Command/MakeCommand.php:150-153 | an argument's attribute holds the description exactly when it is truthy, and nothing else |
| Parameters.OptionAttributeValues | src/Command/MakeCommand.php:248-254 | an option's attribute holds the truthy ones of description and shortcut, description first and shortcut last, and nothing else |
| Parameters.LoneShortcutTakesFirstPlace | src/Command/MakeCommand.php:277 | once `array_values` drops the keys, a lone shortcut gives the same list as a lone description with the same text |
| Parameters.ArgumentValuesAreOptionValues | src/Command/MakeCommand.php:171 | an argument's list is an option's list without a shortcut |
| Parameters.Boilerplate | src/Command/MakeCommand.php:216-224 | each block starts with `if ($name) {` and ends with `}` and a newline |
| Parameters.BoilerplateInjective | src/Command/MakeCommand.php:216-224 | distinct parameter names give distinct blocks |
| Parameters.BlocksSnoc | src/Command/MakeCommand.php:110 | adding a parameter appends exactly its block to the joined blocks |
| Parameters.BlockAt | src/Command/MakeCommand.php:104-117 | the block of the i-th parameter sits in the body right after the project-directory line (or nothing) and the blocks of the parameters before it |
| Parameters.FinalBody | src/Command/MakeCommand.php:118-121 | the final body always ends with the success report and `return Command::SUCCESS;`; before that tail stands the offered body when the reply is blank, and otherwise the reply |
| Parameters.CollectProperties | src/Command/MakeCommand.php:109-117 | one loop keeps the existing parameters in front and puts the first accepted answer's parameter right after them; it adds only well-formed parameters of its own kind (truthy name, whitelisted type, an attribute), and it preserves the well-formedness of the list |
| Parameters.InvokeParams | src/Command/MakeCommand.php:102-117 | after both loops, `io` comes first, names are unique, every later parameter is well formed, and every argument precedes every option |
| Parameters.TargetVerboseExample | src/Command/MakeCommand.php:109-117 | an argument `target` with the default type and an option `verbose` of type `bool` with default `false` give exactly `io`, then `target: string` with no default, then `verbose: bool` with the text `false` as its default, both with empty attribute lists |
| MakeCommand.InvokeMethod.constructor | src/Command/MakeCommand.php:100-101 | a new `__invoke` has no parameters, an empty body and return type `int` |
| MakeCommand.InvokeMethod.AddParameter | src/Command/MakeCommand.php:155 | a new name is appended at the end, the body is unchanged, and uniqueness of names is kept |
| MakeCommand.InvokeMethod.SetBody | src/Command/MakeCommand.php:122 | the body is replaced and the parameters are kept |
| MakeCommand.AskForNextArgument | src/Command/MakeCommand.php:131-173 | a blank, `0` or refused-then-blank name adds nothing and returns null; otherwise the accepted name is returned and exactly its argument (type, coerced default, description list) is appended |
| MakeCommand.AskForNextOption | src/Command/MakeCommand.php:237-279 | a blank or `0` name adds nothing and returns null; otherwise the accepted name is returned and exactly its option (type, default with `null` read as null, description-then-shortcut list) is appended |
| MakeCommand.ArgumentLoop | src/Command/MakeCommand.php:109-112 | the arguments' loop adds exactly the parameters `Collect` defines and extends the body with their blocks |
| MakeCommand.OptionLoop | src/Command/MakeCommand.php:114-117 | the options' loop adds exactly the parameters `Collect` defines and extends the body with their blocks |
| MakeCommand.Reply | src/Command/MakeCommand.php:74-83 | a question without a default answers null exactly for a blank reply, and otherwise the reply itself |
| MakeCommand.Invoke | src/Command/MakeCommand.php:74-122 | the generated class is named from the option name or else the asked name (a blank reply is null, named as empty text); its attribute holds that name and description, with null for a blank reply; its constructor promotes the project directory only when asked; `__invoke` returns `int`, takes `io`, then the arguments, then the options, with unique names; its body is the operator's edit of the assembled body followed by the success tail |

## Left out

- Writing the file, creating `src/Command` (lines 61-64 and 123-126), and printing the generated code.
- The `class_exists` dependency check (lines 55-58), which is a property of the installation.
- Rendering by the PHP code generator: the `use` list, the namespace text and the printing of defaults and attributes. The model stops at the structure the generator is given.
- The intermediate `addBody` calls inside the loops (lines 111 and 116). They are overwritten by `setBody` on line 122.
- Console prompting itself, meaning the question texts, notes and error messages. The replies are inputs.
- Questions with a `null` default return null on a blank reply. For the command name and description (lines 75 and 82) the model keeps that null (`MakeCommand.Reply`), because the `AsCommand` attribute receives it unchanged. The class name on line 77 reads a null name as the empty string. For the parameter questions the model uses the empty string for null. Those replies only pass through truthiness tests and `=== 'null'`, where the two behave the same.
- AskForNextOption: takes the default reply as given. The validator closure on lines 266-270 returns nothing, and how the console's question helper treats that return value is not part of this model.
- AskForNextOption: the branch on lines 258-260 that notes help for a `?` type is not modelled. `askType` never returns `?`, as the `AskType` contract proves.
- AskForNextArgument: adds the parameter once it is complete, not empty then filled in through its handle (line 155). Nothing observes the parameter in between.
- AskForNextOption: likewise adds the option once it is complete (line 246 adds it before its description, shortcut, type and default are set). Nothing observes it in between.
- MakeCommand.InvokeMethod.AddParameter: requires a new name. The name validators guarantee this on every path. What the code generator does with a repeated name is not part of this model.
- ClassNames.TitleFromAt: title-casing is modelled for ASCII. A word character is a letter, digit or underscore. Unicode case mapping is not modelled.
- ClassNames.CommandClassName: removes every `app:`, as the code on line 77 does, and not only a leading one. A name that does not start with `app:` is still title-cased and suffixed.
- Php.IntCastRoundTrip: the `(int)` cast covers whitespace, sign and leading digits. Exponent forms such as `1e3` and saturation at the 64-bit integer limits are not modelled.
- The type names are the four constants of the code generator's `Type` class. Its own normalisation of type strings is not modelled.
- The `--force` option is declared but never read by the source, so it has no counterpart.
