# MVVM source generators, modelled in Dafny

This project models the analysis-and-emission core of a set of C# Roslyn source generators for MVVM view models.

- **ViewModelGenerator** handles a `[ViewModel]` class. It writes into a partial class:
  - the constructors;
  - the `INotifyPropertyChanged` members, when the class lacks them;
  - a notifying property per `[GenerateProperty]` field;
  - a lazily created `DelegateCommand` per `[GenerateCommand]` method;
  - an `OnPropertyChanged` handler. The handler re-raises dependent properties and commands from the `DependsOn` declarations.
- **CommandGenerator** writes `ICommand` properties for `[GenerateCommand]` methods. It reports `SG001` for methods with more than one parameter.
- **PropertyFromFieldGenerator** writes notifying properties for `[GenerateProperty]` fields.
- **PropertyFromAttributeGenerator** writes notifying properties for class-level `[DefineProperty]` attributes.
- **DependantPropertyGenerator** writes `ListenForPropertyChange` and an `OnPropertyChanged` handler from `[DependsOn]` properties.
- **SourceWriter** is the indented writer all generators use.
- **DelegateCommand** is the command class text every compilation receives.

The compiler's symbols become a plain `ClassModel` value (`symbols.dfy`). The generated text is a tree of `Doc` values. `SourceWriter.Render` replays that tree through a model of the indented writer, and `SourceWriter.Flatten` defines the same lines without the writer.

An exception a generator can throw on its own input is a `Failure`:
- `Substring(0, 1)` on an empty name.
- `SourceText.From` handed the null text a nested class yields.

Each output has a partner:
- **Reference definitions** describe the dependency graphs per trigger (`CommandTargets`, `PropertyTargets`, `Mentions`).
- **Readers** parse emitted handlers, creation expressions and constructor calls back (`ReadHandler`, `ParseCreation`, `ForwardedArguments`).
- **Small-step semantics** describe the generated setter and command getter (`RunSetter`, `RunGetter`).
- **A runtime model** describes `DelegateCommand`.

Lemmas connect each output to its partner.

Modules follow the program's structure:
- `text`: .NET string operations.
- `source_writer`.
- `grouping`: `Dictionary` / `GroupBy`.
- `symbols`.
- `naming`.
- `dependency_graph`.
- `dispatch`: the `OnPropertyChanged` handler.
- `members`: properties, command members and constructors.
- `delegate_command`.
- `commands`.
- `outputs`: the `Execute` loops.
- One module per generator.
- `scenarios`: the repository's sample view model and console test class, stated as lemmas about the model.

Four rules of the code are easy to get wrong, so they are stated here:
- The field-to-property name drops *every* leading underscore, because the code uses `TrimStart('_')`.
- `SG001` does not skip the method. The loop goes on and still writes a non-generic command for it.
- The skip rule also applies to an explicit `PropertyName`: an empty name, or one equal to the field name, is skipped.
- `ViewModelGenerator` neither checks for nested classes nor reports `SG001`.

## Model

| member | source | states |
|---|---|---|
| Text.TrimStart | SourceGeneration.Mvvm/PropertyFromFieldGenerator.cs:154 | the result is a suffix of the input, everything dropped is the trimmed character, and the result does not start with it |
| Text.Split | SourceGeneration.Mvvm/ViewModelGenerator.cs:108 | one more segment than separator occurrences, and no segment contains a separator |
| Text.SplitJoinRoundTrip | SourceGeneration.Mvvm/ViewModelGenerator.cs:108 | joining the segments with the one separator gives the string back, so splitting loses nothing |
| Text.JoinSplitRoundTrip | SourceGeneration.Mvvm/ViewModelGenerator.cs:189-190 | splitting a comma-joined list of separator-free names gives the names back |
| Text.ToUpperChar | SourceGeneration.Mvvm/ViewModelGenerator.cs:221-224 | a lower-case ASCII letter maps to the upper-case letter at the same place in the alphabet (`a` to `A`); every other character is unchanged |
| Text.ToLowerChar | SourceGeneration.Mvvm/CommandGenerator.cs:177 | an upper-case ASCII letter maps to the lower-case letter at the same place in the alphabet (`T` to `t`); every other character is unchanged |
| SourceWriter.SetIndent | SourceGeneration.Mvvm/Helpers/SourceWriter.cs:43-48 | setting the indent keeps the lines; a negative value is stored as 0 |
| SourceWriter.StartThenDispose | SourceGeneration.Mvvm/Helpers/SourceWriter.cs:11-50 | an empty block writes header, `{` and `}` at the caller's indent and restores that indent |
| SourceWriter.StartFunctionHeader | SourceGeneration.Mvvm/Helpers/SourceWriter.cs:17-26 | `StartFunction` writes `prefix returnType name(arguments)` and `{`, then indents by one |
| SourceWriter.DisposeAtZero | SourceGeneration.Mvvm/Helpers/SourceWriter.cs:46-50 | an unmatched close at indent 0 writes `}` at 0 and the indent stays 0 |
| SourceWriter.RenderIsFlatten | SourceGeneration.Mvvm/Helpers/SourceWriter.cs:11-50 | replaying a document through the writer appends exactly its flattened lines and restores the indent |
| SourceWriter.EmitIsFlatten | SourceGeneration.Mvvm/Helpers/SourceWriter.cs:11-50 | the text of a fresh writer is the documents' flattened lines at indent 0 |
| SourceWriter.BraceCount | SourceGeneration.Mvvm/Helpers/SourceWriter.cs:34-50 | the `{` lines and the `}` lines are each one per block, plus the texts that are themselves that brace |
| SourceWriter.Balanced | SourceGeneration.Mvvm/Helpers/SourceWriter.cs:34-50 | documents whose texts hold no lone brace emit balanced braces and end at indent 0 |
| SourceWriter.FlattenIndented | SourceGeneration.Mvvm/Helpers/SourceWriter.cs:38-44 | no line of a block is written left of the indent it starts at |
| Grouping.GroupPairsLookup | SourceGeneration.Mvvm/CommandGenerator.cs:134 | the group of key `k` holds exactly the values paired with `k`, in input order |
| Grouping.GroupPairsKeys | SourceGeneration.Mvvm/CommandGenerator.cs:134 | groups appear once each, in order of each key's first mention |
| Grouping.LookupEmptyIffAbsent | SourceGeneration.Mvvm/ViewModelGenerator.cs:111-114 | a key gets a group exactly when some pair mentions it |
| Grouping.ItemsForMembers | SourceGeneration.Mvvm/DependantPropertyGenerator.cs:55 | a value is in key `k`'s group exactly when some input pair is (`k`, value) |
| Naming.PropertyName | SourceGeneration.Mvvm/PropertyFromFieldGenerator.cs:147-166 | an override wins verbatim; otherwise the result is no longer than the field name |
| Naming.PropertyNameDerived | SourceGeneration.Mvvm/ViewModelGenerator.cs:213-224 | without an override, the name is the first non-underscore character upper-cased, followed by the rest of the field name |
| Naming.PropertyNameEmpty | SourceGeneration.Mvvm/PropertyFromFieldGenerator.cs:154-158 | without an override, the name is empty exactly when the field name is all underscores |
| Naming.DerivedNameHasNoUnderscore | SourceGeneration.Mvvm/PropertyFromFieldGenerator.cs:154-165 | a non-empty derived name never starts with `_` |
| Naming.GeneratesPropertyIff | SourceGeneration.Mvvm/PropertyFromFieldGenerator.cs:114-119 | the skip rule read from the inputs: an override must be non-empty and differ from the field name; a derived name exists and differs exactly when the field starts with `_` or a lower-case letter |
| Naming.CommandName | SourceGeneration.Mvvm/CommandGenerator.cs:234-241 | an override wins verbatim; otherwise the method name followed by `Command` |
| Naming.CanExecuteName | SourceGeneration.Mvvm/CommandGenerator.cs:243-250 | an override wins verbatim; otherwise `Can` followed by the method name |
| Naming.BackingField | SourceGeneration.Mvvm/CommandGenerator.cs:177 | fails exactly on the empty name; otherwise `_`, the first character lower-cased, then the rest |
| Naming.DefaultNamesInjective | SourceGeneration.Mvvm/ViewModelGenerator.cs:298-299 | distinct methods get distinct default command and can-execute names |
| Naming.DefaultCommandHasBackingField | SourceGeneration.Mvvm/ViewModelGenerator.cs:298-302 | a default command name never makes the backing-field derivation throw |
| Naming.BackingFieldRoundTrip | SourceGeneration.Mvvm/PropertyFromAttributeGenerator.cs:104-105 | reading a derived backing field as a field name gives the property name back exactly when that name starts with neither `_` nor a lower-case letter |
| DependencyGraph.CommandTriggers | SourceGeneration.Mvvm/ViewModelGenerator.cs:102-119 | a present `DependsOn` yields one trigger more than its `,`/`;` count |
| DependencyGraph.CommandEdgesItems | SourceGeneration.Mvvm/ViewModelGenerator.cs:98-122 | the command loop's contributions under `k` are each command once per mention of `k`, in method order; keys first appear in the order the triggers are mentioned |
| DependencyGraph.PropertyEdgesItems | SourceGeneration.Mvvm/ViewModelGenerator.cs:129-149 | the property loop's contributions under `k` are each property once per non-null mention of `k`, in property order |
| DependencyGraph.DependenciesSpec | SourceGeneration.Mvvm/ViewModelGenerator.cs:95-149 | the graph under each trigger is the command targets followed by the property targets; keys appear once each, in first-mention order |
| DependencyGraph.AddUnder | SourceGeneration.Mvvm/ViewModelGenerator.cs:109-117 | the inner command loop appends the target under every key, in order |
| DependencyGraph.AddEntries | SourceGeneration.Mvvm/ViewModelGenerator.cs:133-148 | the inner property loop skips null entries and appends the target under every other entry |
| DependencyGraph.AddCommands | SourceGeneration.Mvvm/ViewModelGenerator.cs:98-122 | the imperative command loop builds the grouping of the command edges |
| DependencyGraph.AddProperties | SourceGeneration.Mvvm/ViewModelGenerator.cs:129-149 | the imperative property loop extends the grouping with the property edges |
| DependencyGraph.BuildDependencies | SourceGeneration.Mvvm/ViewModelGenerator.cs:95-149 | the dictionary built has distinct keys in first-mention order, and under each key the command targets, then the property targets |
| DependencyGraph.DependantEdgesItems | SourceGeneration.Mvvm/DependantPropertyGenerator.cs:68-89 | the dependant loop's contributions under `k` are each property once per non-null mention, in property order |
| DependencyGraph.DependantGraphSpec | SourceGeneration.Mvvm/DependantPropertyGenerator.cs:66-89 | the dependant dictionary: keys in first-mention order; under each key the listing properties, once per listing |
| DependencyGraph.DependantAgreesWithViewModel | SourceGeneration.Mvvm/DependantPropertyGenerator.cs:66-89 | for a class without commands, both generators build the same dependents under every trigger |
| Dispatch.Statements | SourceGeneration.Mvvm/ViewModelGenerator.cs:345-360 | one statement per dependent, in list order |
| Dispatch.Cases | SourceGeneration.Mvvm/ViewModelGenerator.cs:341-363 | one case per graph key, in key order |
| Dispatch.HandlerRoundTrip | SourceGeneration.Mvvm/ViewModelGenerator.cs:335-366 | an emitted handler reads back as its graph whenever the statement form can be parsed back |
| Dispatch.ParseTargetStatement | SourceGeneration.Mvvm/ViewModelGenerator.cs:347-359 | a command reads back from `.RaiseCanExecuteChanged();`, a property from `RaisePropertyChanged(nameof(…));` |
| Dispatch.ParseInvokeStatement | SourceGeneration.Mvvm/DependantPropertyGenerator.cs:123 | the `PropertyChanged?.Invoke(…nameof(P)…)` statement reads back as `P` |
| Dispatch.ViewModelHandlerRoundTrip | SourceGeneration.Mvvm/ViewModelGenerator.cs:335-366 | `ViewModelGenerator`'s handler loses nothing: it reads back as the dependency graph |
| Dispatch.DependantHandlerRoundTrip | SourceGeneration.Mvvm/DependantPropertyGenerator.cs:113-129 | `DependantPropertyGenerator`'s handler reads back as its graph |
| Dispatch.CaseLines | SourceGeneration.Mvvm/ViewModelGenerator.cs:343-362 | a case is its label and `{` at the case indent, the statements and `break;` one deeper, then `}` |
| Members.SetterEffect | SourceGeneration.Mvvm/PropertyFromFieldGenerator.cs:126-135 | running the setter body stores the value and saves the old one; it raises `PropertyChanged` for the property, then calls the hook with old and new values; a missing backing field is rejected |
| Members.PropertyBlocks | SourceGeneration.Mvvm/PropertyFromAttributeGenerator.cs:108-124 | the only block among a property's members is the property itself |
| Members.PropertyForFieldSpec | SourceGeneration.Mvvm/PropertyFromFieldGenerator.cs:104-145 | a field is written exactly when the skip rule keeps it. It gets a property of the field's type and the chosen name, a setter with the four statements in order, and the hook declaration |
| Members.SetterText | SourceGeneration.Mvvm/PropertyFromFieldGenerator.cs:128-134 | the guarded setter writes: save the old value, store the new one, notify by name, call `On{P}Changed(tmp, field)` |
| Members.PropertiesLength | SourceGeneration.Mvvm/ViewModelGenerator.cs:85-88 | four members per kept field and none per skipped field |
| Members.PropertiesSpec | SourceGeneration.Mvvm/PropertyFromFieldGenerator.cs:94-97 | the property blocks written are exactly one per kept field, in field order |
| Members.ArgumentsParse | SourceGeneration.Mvvm/CommandGenerator.cs:210-220 | the argument list reads back as the action, plus the predicate exactly when it is bound |
| Members.CreateCommandParses | SourceGeneration.Mvvm/CommandGenerator.cs:210-220 | the plain creation expression reads back as a non-generic command with the action and, when bound, the predicate |
| Members.CreateGenericCommandParses | SourceGeneration.Mvvm/CommandGenerator.cs:222-232 | the generic creation expression reads back with its type argument, the action and, when bound, the predicate |
| Members.LazyGetterOnce | SourceGeneration.Mvvm/CommandGenerator.cs:183-199 | the getter creates the command only when the field is null; otherwise it returns the stored one unchanged |
| Members.LazyGetterIdempotent | SourceGeneration.Mvvm/CommandGenerator.cs:183-199 | a second get returns the same command and changes nothing |
| Members.ForwardingConstructorSpec | SourceGeneration.Mvvm/ViewModelGenerator.cs:175-199 | a forwarding constructor is one block, ending in the subscription, that forwards the method's parameter names in order |
| Members.ForwardingConstructorsSpec | SourceGeneration.Mvvm/ViewModelGenerator.cs:173-200 | one constructor block per `Constructor` method, in order, each forwarding that method's parameters |
| Members.ConstructorsSpec | SourceGeneration.Mvvm/ViewModelGenerator.cs:156-202 | at least one constructor; exactly one parameterless constructor when there are no `Constructor` methods. Every constructor ends by subscribing `OnPropertyChanged` |
| DelegateCommand.CreateObserved | SourceGeneration.Mvvm/Helpers/Generation.cs:59-86 | a new command's `Execute` runs the action, `CanExecute` is true without a predicate and the predicate's answer with one, and raising notifies nobody |
| DelegateCommand.SubscribeObserved | SourceGeneration.Mvvm/Helpers/Generation.cs:71-91 | after subscribing, the next raise notifies the earlier handlers and then the new one, and `CanExecute` and `Execute` answer as before |
| DelegateCommand.WithoutPredicateAlwaysExecutable | SourceGeneration.Mvvm/Helpers/Generation.cs:65-86 | the one-argument constructor chains with a null predicate; the command can then always execute, and executing runs the action |
| DelegateCommand.PredicateDecides | SourceGeneration.Mvvm/Helpers/Generation.cs:73-81 | with a predicate bound, `CanExecute` is the predicate's answer |
| DelegateCommand.CreateOfObserved | SourceGeneration.Mvvm/Helpers/Generation.cs:99-126 | a new generic command passes the parameter to the action and, when bound, to the predicate; without a predicate it can always execute; raising notifies nobody |
| DelegateCommand.WithoutPredicateAlwaysExecutableOf | SourceGeneration.Mvvm/Helpers/Generation.cs:105-126 | a generic command without predicate can always execute and passes the parameter to the action |
| DelegateCommand.GenericAgrees | SourceGeneration.Mvvm/Helpers/Generation.cs:113-121 | the generic command decides like the plain one when its predicate ignores the parameter |
| DelegateCommand.RaiseNotifiesSubscribers | SourceGeneration.Mvvm/Helpers/Generation.cs:88-91 | raising notifies every handler once, in subscription order, and keeps action and predicate |
| DelegateCommand.RaiseIsObservationallyInert | SourceGeneration.Mvvm/Helpers/Generation.cs:88-91 | raising changes no later `CanExecute` or `Execute` result, and raising twice notifies the same handlers |
| Commands.CommandMembers | SourceGeneration.Mvvm/ViewModelGenerator.cs:296-332 | a written command has exactly three members |
| Commands.CommandMembersSpec | SourceGeneration.Mvvm/ViewModelGenerator.cs:296-332 | fails exactly on an empty command name. Otherwise: the field named from the command name, the property whose getter creates into the field when it is null and returns it, and a blank line |
| Commands.CreationSpec | SourceGeneration.Mvvm/ViewModelGenerator.cs:300-323 | the creation expression is generic exactly when the method has one parameter, of that parameter's type. It binds the method, and binds the predicate exactly when the class has a member of that name |
| Commands.GeneratedCanExecute | SourceGeneration.Mvvm/ViewModelGenerator.cs:300-325 | end to end, a generated command can always execute when the class has no member named like its predicate, and otherwise answers with that predicate |
| Outputs.GenerateAllSpec | SourceGeneration.Mvvm/ViewModelGenerator.cs:40-48 | the run fails exactly when some item fails; otherwise one file per item, named `{Name}.g.cs`, in input order |
| Outputs.GenerateAllReportingFails | SourceGeneration.Mvvm/CommandGenerator.cs:134-138 | the reporting run fails exactly when some item fails |
| Outputs.GenerateAllReportingFiles | SourceGeneration.Mvvm/CommandGenerator.cs:134-138 | a successful reporting run has one file per item, in order, and reports every item's diagnostics in item order |
| ViewModelGenerator.CommandsForFails | SourceGeneration.Mvvm/ViewModelGenerator.cs:98-122 | the command members fail exactly when some command name is empty; otherwise three members per command method |
| ViewModelGenerator.ClassMembersLayout | SourceGeneration.Mvvm/ViewModelGenerator.cs:63-88 | the class body starts with the constructors. The event, `RaisePropertyChanged` and a blank line follow exactly when the class lacks `INotifyPropertyChanged`. Then come four documents per kept field (the property block, a blank line, the hook, a blank line) and the command members |
| ViewModelGenerator.ClassMembersTail | SourceGeneration.Mvvm/ViewModelGenerator.cs:79-122 | after the constructors and notification members come the properties, and the command members close the list |
| ViewModelGenerator.ClassBodyHandler | SourceGeneration.Mvvm/ViewModelGenerator.cs:95-151 | the class body ends with the handler, which reads back as the class's dependency graph |
| ViewModelGenerator.GenerateClassFails | SourceGeneration.Mvvm/ViewModelGenerator.cs:296-302 | a class's file fails exactly when some `[GenerateCommand]` method has an empty command name |
| ViewModelGenerator.CommandsForMembers | SourceGeneration.Mvvm/ViewModelGenerator.cs:98-122 | when the command members succeed, chunk `i` is exactly command method `i`'s field, lazy property and blank line, declared with `DelegateCommand<T>` for a one-parameter method and `DelegateCommand` otherwise |
| ViewModelGenerator.GenerateClassSpec | SourceGeneration.Mvvm/ViewModelGenerator.cs:51-154 | a generated file is the class file around the command members, and chunk `i` of them is what `GenerateCommand` writes for command method `i` |
| Commands.DeclaredTypeMatchesCreation | SourceGeneration.Mvvm/ViewModelGenerator.cs:302-309 | the declared field and property type is `DelegateCommand<T>` exactly when the created command is generic over `T`, which is exactly when the method has one parameter; otherwise it is `DelegateCommand` |
| ViewModelGenerator.ClassFileLayout | SourceGeneration.Mvvm/ViewModelGenerator.cs:53-66 | the six usings, a blank line, and the namespace block holding the class block around the class body |
| ViewModelGenerator.ExecuteSpec | SourceGeneration.Mvvm/ViewModelGenerator.cs:30-49 | one file per `[ViewModel]` class, named after it, in order; the run fails exactly when some class fails |
| CommandGenerator.ReachedAll | SourceGeneration.Mvvm/CommandGenerator.cs:158-203 | the loop reaches every method exactly when no method before the last has an empty command name |
| CommandGenerator.GenerateCommandsFails | SourceGeneration.Mvvm/CommandGenerator.cs:158-203 | one class's loop fails exactly when some command name is empty |
| CommandGenerator.GenerateCommandsDiagnostics | SourceGeneration.Mvvm/CommandGenerator.cs:160-170 | `SG001` is reported for exactly the reached methods with more than one parameter, in order |
| CommandGenerator.GenerateCommandsMembers | SourceGeneration.Mvvm/CommandGenerator.cs:172-201 | a successful loop writes each method's three `ICommand` members, in method order |
| CommandGenerator.InvalidSignatureStillGenerates | SourceGeneration.Mvvm/CommandGenerator.cs:160-192 | a method with two or more parameters is reported and still gets a plain (non-generic) command |
| CommandGenerator.ClassSourceFails | SourceGeneration.Mvvm/CommandGenerator.cs:141-208 | a class's file fails exactly when one of its methods has an empty command name |
| CommandGenerator.ExecuteFails | SourceGeneration.Mvvm/CommandGenerator.cs:125-139 | the run throws exactly when some collected method has an empty command name |
| CommandGenerator.ExecuteGroups | SourceGeneration.Mvvm/CommandGenerator.cs:134 | one group per containing class, in first-method order, each holding exactly that class's methods in collection order |
| CommandGenerator.ExecuteSpec | SourceGeneration.Mvvm/CommandGenerator.cs:134-138 | a successful run has one file per class, named after it, and reports every class's diagnostics in group order |
| PropertyFromFieldGenerator.GenerateClassSpec | SourceGeneration.Mvvm/PropertyFromFieldGenerator.cs:65-102 | no text for a nested class. Otherwise the usings and the namespace and class blocks; the event appears exactly when `INotifyPropertyChanged` is missing, and the property blocks are exactly one per kept field |
| PropertyFromFieldGenerator.ExecuteFails | SourceGeneration.Mvvm/PropertyFromFieldGenerator.cs:48-52 | the run throws exactly when some collected field's class is nested |
| PropertyFromFieldGenerator.NestedGroups | SourceGeneration.Mvvm/PropertyFromFieldGenerator.cs:67-70 | some collected field's class is nested exactly when some group's text is null |
| PropertyFromFieldGenerator.ExecuteGroups | SourceGeneration.Mvvm/PropertyFromFieldGenerator.cs:48 | one group per class, in first-field order, each holding exactly that class's fields in collection order |
| PropertyFromFieldGenerator.ExecuteFiles | SourceGeneration.Mvvm/PropertyFromFieldGenerator.cs:48-52 | a successful run has one file per group, named after its class, holding that class's properties |
| PropertyFromAttributeGenerator.GeneratePropertiesFails | SourceGeneration.Mvvm/PropertyFromAttributeGenerator.cs:94-105 | writing fails exactly when some attribute that gives both name and type has an empty name |
| PropertyFromAttributeGenerator.GeneratePropertiesBlocks | SourceGeneration.Mvvm/PropertyFromAttributeGenerator.cs:89-128 | the blocks written are exactly the expected ones, three documents per complete attribute (the property block, the hook, a blank line), in order. Incomplete attributes are skipped |
| PropertyFromAttributeGenerator.GenerateClassSpec | SourceGeneration.Mvvm/PropertyFromAttributeGenerator.cs:55-87 | no text for a nested class, and a failure exactly on an empty complete name. Otherwise the usings and blocks, with the event exactly when needed and the expected properties |
| PropertyFromAttributeGenerator.SourceFails | SourceGeneration.Mvvm/PropertyFromAttributeGenerator.cs:50-60 | a class's source throws exactly when it is nested or has an empty complete name |
| PropertyFromAttributeGenerator.ExecuteFails | SourceGeneration.Mvvm/PropertyFromAttributeGenerator.cs:35-53 | the run throws exactly when some collected class throws |
| PropertyFromAttributeGenerator.ExecuteFiles | SourceGeneration.Mvvm/PropertyFromAttributeGenerator.cs:48-52 | one file per collected class, named after it, in collection order |
| DependantPropertyGenerator.ListenSubscribes | SourceGeneration.Mvvm/DependantPropertyGenerator.cs:106-109 | `ListenForPropertyChange()` subscribes `OnPropertyChanged` |
| DependantPropertyGenerator.GenerateDependenciesSpec | SourceGeneration.Mvvm/DependantPropertyGenerator.cs:99-131 | the using, a blank line, and the namespace and partial class blocks; `ListenForPropertyChange` comes first, then a blank line, then the handler |
| DependantPropertyGenerator.GenerateDependenciesHandler | SourceGeneration.Mvvm/DependantPropertyGenerator.cs:113-129 | the file's handler reads back as the class's dependant graph |
| DependantPropertyGenerator.ExecuteSpec | SourceGeneration.Mvvm/DependantPropertyGenerator.cs:38-61 | no property means no file. Otherwise one file per class, in first-property order, generated from exactly that class's properties |
| Scenarios.FirstNameField | SourceGeneration.Mvvm.Sample/MainWindowViewModel.cs:9-10 | `_firstName` becomes `FirstName` |
| Scenarios.ShortField | SourceGeneration.Mvvm/PropertyFromFieldGenerator.cs:160-163 | a one-letter remainder is upper-cased: `_a` becomes `A` |
| Scenarios.UnderscoreField | SourceGeneration.Mvvm/ViewModelGenerator.cs:213-224 | one leading underscore is dropped and the next character capitalised |
| Scenarios.SameNameSkipped | SourceGeneration.Mvvm/PropertyFromFieldGenerator.cs:115-119 | a field already named `Name` gets no property |
| Scenarios.OpenBackingField | SourceGeneration.Mvvm.Test/Program.cs:47-48 | `TheOpenCommand` is backed by `_theOpenCommand` |
| Scenarios.OpenCommand | SourceGeneration.Mvvm.Test/Program.cs:47-54 | `Open(int)` gets a `DelegateCommand<int>` bound to `Open` and `Exists` |
| Scenarios.SubmitTriggers | SourceGeneration.Mvvm.Sample/MainWindowViewModel.cs:18 | `DependsOn = "FirstName,LastName"` gives the two triggers |
| Scenarios.SplitPair | SourceGeneration.Mvvm/ViewModelGenerator.cs:108 | two separator-free names around one separator split into the two names |
| Scenarios.OneCommandOneProperty | SourceGeneration.Mvvm/ViewModelGenerator.cs:95-149 | with one command and one `[DependsOn]` property, each trigger lists the command then the property, once per mention |
| Scenarios.SampleDependencies | SourceGeneration.Mvvm.Sample/MainWindowViewModel.cs:15-19 | in the sample, a change of `FirstName` or `LastName` re-evaluates `SubmitCommand` and then re-raises `FullName` |

## Left out

- Roslyn plumbing is not modelled: `Initialize`, the syntax receivers, symbol lookup and the attribute source texts. The collected classes, fields, methods and properties are inputs, in collection order.
- The diagnostic's delivery and its location are not modelled; a diagnostic records the method name only.
- The host's behaviour after a generator throws is not modelled. The run's `Failure` is the end of the model.
- A nested class in `PropertyFromFieldGenerator` or `PropertyFromAttributeGenerator` yields a null text. The model treats `SourceText.From(null, …)` as throwing `ArgumentNullException`.
- `Dictionary` enumeration order: the model assumes insertion order, which .NET does not document. LINQ `GroupBy` order is documented and is modelled as is.
- Hint-name collisions are not modelled. Two classes with the same name in different namespaces, or a partial class collected once per declaration, would make `AddSource` throw on a duplicate hint name.
- A `[DependsOn]` whose params array is itself null is not modelled; the model takes a list of possibly-null entries.
- Type display strings (`ToDisplayString`, `ToString` of a type symbol) are taken as given strings.
- Indentation is an indent level per line; the tab characters `IndentedTextWriter` writes are not modelled. A `Write` followed by `WriteLine` on the same indent is one line.
- Text.ToUpperChar: ASCII letters only; culture-dependent case mapping is not modelled.
- Text.ToLowerChar: ASCII letters only, for the same reason.
- Members.SetterEffect: describes the statements inside the setter's guard. It does not describe whether the guard lets them run. The guard `EqualityComparer<T>.Default.Equals(value)` binds to the one-argument `object.Equals`, which compares the comparer with the value, so at run time the setter notifies even when the value is unchanged. The guard is kept as text only.
- Commands.CreationSpec: requires the method name to hold no `,` or `(`, which C# guarantees for a method. A predicate name is only written when the class has a member of that name, and is then a C# identifier; only in that case is it required to hold no `,` or `(`.
- Members.ConstructorsSpec: requires parameter names to be non-empty identifiers without `,`, which C# guarantees for declared parameters.
- DelegateCommand.CanExecuteOf: the `(T)parameter` cast and its `InvalidCastException` are not modelled; the parameter is already of type `T`.
- The generated code is not type-checked. For example, the model does not check that a `[DefineProperty]` class declares the backing field its property uses.
