/** `ViewModelGenerator`: for every `[ViewModel]` class, one file holding the
    usings, and inside the class's namespace a partial class with the
    constructors, the `INotifyPropertyChanged` members when the class lacks
    them, a notifying property per kept `[GenerateProperty]` field, a command
    property per `[GenerateCommand]` method, and the `OnPropertyChanged`
    dispatch built from the dependency graph. This generator does not check
    whether the class is nested and reports no diagnostic. */
module ViewModelGenerator {
  import opened Wrappers
  import opened Text
  import opened Grouping
  import opened SourceWriter
  import opened Symbols
  import opened Naming
  import opened DependencyGraph
  import opened Dispatch
  import opened Members
  import opened Commands
  import opened Outputs

  const Usings: seq<string> := [
    "using SourceGeneration.Mvvm;",
    "using System;",
    "using System.Collections.Generic;",
    "using System.ComponentModel;",
    "using System.Runtime.CompilerServices;",
    "using System.Windows.Input;"]

  const RaiseDeclaration: string :=
    "public void RaisePropertyChanged([CallerMemberName] string property = \"\") => PropertyChanged?.Invoke(this , new PropertyChangedEventArgs(property));"

  function TextDocs(ts: seq<string>): (ds: seq<Doc>)
    ensures |ds| == |ts| && forall i :: 0 <= i < |ts| ==> ds[i] == Text(ts[i])
  {
    seq(|ts|, i requires 0 <= i < |ts| => Text(ts[i]))
  }

  /** The event and `RaisePropertyChanged`, unless the class already lists
      `INotifyPropertyChanged`. */
  function NotificationMembers(c: ClassModel): seq<Doc>
  {
    if c.implementsInpc then [] else [Text(EventDeclaration), Text(RaiseDeclaration), Text("")]
  }

  /** `GenerateCommand` for each `[GenerateCommand]` method, in order; the
      first failure ends the generation. */
  function CommandsFor(c: ClassModel, cmds: seq<(MethodDecl, GenerateCommandAttribute)>): Result<seq<Doc>>
  {
    if |cmds| == 0 then Success([])
    else
      match CommandMembers(c, cmds[0].0, cmds[0].1, DelegateCommandType(cmds[0].0))
      case Failure(e) => Failure(e)
      case Success(ds) =>
        match CommandsFor(c, cmds[1..])
        case Failure(e) => Failure(e)
        case Success(rest) => Success(ds + rest)
  }

  /** Everything in the class body before the handler. */
  function ClassMembers(c: ClassModel, commandDocs: seq<Doc>): seq<Doc>
  {
    Constructors(c.name, c.methods) + NotificationMembers(c) + Properties(AnnotatedFields(c.fields)) + commandDocs
  }

  function ClassBody(c: ClassModel, commandDocs: seq<Doc>): seq<Doc>
  {
    ClassMembers(c, commandDocs) + [ViewModelHandler(Dependencies(c))]
  }

  /** The usings, a blank line, and the namespace block around the class block. */
  function ClassFile(c: ClassModel, commandDocs: seq<Doc>): seq<Doc>
  {
    TextDocs(Usings) + [Text(""),
      Block(NamespaceHeader(c.namespaceName), [Block(ClassHeader(c.name), ClassBody(c, commandDocs))])]
  }

  /** `GenerateClass`. */
  function GenerateClass(c: ClassModel): Result<seq<Doc>>
  {
    match CommandsFor(c, CommandMethods(c.methods))
    case Failure(e) => Failure(e)
    case Success(commandDocs) => Success(ClassFile(c, commandDocs))
  }

  /** `Execute`: one file per `[ViewModel]` class, in order; an exception in
      any class ends the whole run. */
  function Execute(classes: seq<ClassModel>): Result<seq<SourceFile>>
  {
    GenerateAll(classes, GenerateClass, ClassName)
  }

  // ---------------------------------------------------------------------------

  /** The command run fails exactly when some `[GenerateCommand]` method's
      `CommandName` is the empty string. */
  lemma {:induction false} CommandsForFails(c: ClassModel, cmds: seq<(MethodDecl, GenerateCommandAttribute)>)
    ensures CommandsFor(c, cmds).Failure? <==> exists i :: 0 <= i < |cmds| && cmds[i].1.commandName == Some("")
    ensures CommandsFor(c, cmds).Success? ==> |CommandsFor(c, cmds).value| == 3 * |cmds|
    decreases |cmds|
  {
    if |cmds| > 0 {
      CommandMembersSpec(c, cmds[0].0, cmds[0].1, DelegateCommandType(cmds[0].0));
      CommandsForFails(c, cmds[1..]);
      if exists i :: 0 <= i < |cmds[1..]| && cmds[1..][i].1.commandName == Some("") {
        var i :| 0 <= i < |cmds[1..]| && cmds[1..][i].1.commandName == Some("");
        assert cmds[i + 1].1.commandName == Some("");
      }
      if exists i :: 0 <= i < |cmds| && cmds[i].1.commandName == Some("") {
        var i :| 0 <= i < |cmds| && cmds[i].1.commandName == Some("");
        if i > 0 {
          assert cmds[1..][i - 1].1.commandName == Some("");
        }
      }
    }
  }

  /** The class body starts with the constructors, followed by the event,
      the `RaisePropertyChanged` declaration and a blank line exactly when the
      class lacks `INotifyPropertyChanged`, then four documents per kept property (the property block, a blank
      line, the hook declaration, a blank line)
      and the command members. */
  lemma ClassMembersLayout(c: ClassModel, commandDocs: seq<Doc>)
    ensures var ms := ClassMembers(c, commandDocs);
      var k := |Constructors(c.name, c.methods)|;
      var n := if c.implementsInpc then 0 else 3;
      && |ms| == k + n + 4 * |KeptFields(AnnotatedFields(c.fields))| + |commandDocs|
      && ms[..k] == Constructors(c.name, c.methods)
      && (!c.implementsInpc ==> ms[k..k + 3] == [Text(EventDeclaration), Text(RaiseDeclaration), Text("")])
  {
    PropertiesLength(AnnotatedFields(c.fields));
    FourSlices(ClassMembers(c, commandDocs), Constructors(c.name, c.methods), NotificationMembers(c),
               Properties(AnnotatedFields(c.fields)), commandDocs);
  }

  /** After the constructors and notification members come the properties,
      and the command members close the list. */
  lemma ClassMembersTail(c: ClassModel, commandDocs: seq<Doc>)
    ensures var ms := ClassMembers(c, commandDocs);
      var k := |Constructors(c.name, c.methods)|;
      var n := |NotificationMembers(c)|;
      var props := Properties(AnnotatedFields(c.fields));
      && k + n + |props| + |commandDocs| == |ms|
      && ms[k + n..k + n + |props|] == props
      && ms[k + n + |props|..] == commandDocs
  {
    FourSlices(ClassMembers(c, commandDocs), Constructors(c.name, c.methods), NotificationMembers(c),
               Properties(AnnotatedFields(c.fields)), commandDocs);
  }

  /** The class body is the members followed by the handler, and the handler
      reads back as the dependency graph. */
  lemma ClassBodyHandler(c: ClassModel, commandDocs: seq<Doc>)
    ensures var body := ClassBody(c, commandDocs);
      && body[..|body| - 1] == ClassMembers(c, commandDocs)
      && ReadHandler(body[|body| - 1], ParseTarget) == Some(Dependencies(c))
  {
    var h := ViewModelHandler(Dependencies(c));
    ViewModelHandlerRoundTrip(Dependencies(c));
    assert (ClassMembers(c, commandDocs) + [h])[..|ClassMembers(c, commandDocs)|] == ClassMembers(c, commandDocs);
  }

  /** A generated file fails exactly when some command name is empty. */
  lemma GenerateClassFails(c: ClassModel)
    ensures GenerateClass(c).Failure? <==>
      exists i :: 0 <= i < |CommandMethods(c.methods)| && CommandMethods(c.methods)[i].1.commandName == Some("")
  {
    GenerateClassOutcome(c);
    CommandsForFails(c, CommandMethods(c.methods));
  }

  lemma GenerateClassOutcome(c: ClassModel)
    ensures GenerateClass(c).Failure? == CommandsFor(c, CommandMethods(c.methods)).Failure?
  {
  }

  /** No method is skipped: when the command run succeeds, chunk `i` is
      method `i`'s field, lazy property and blank line, declared with
      `DelegateCommand<T>` for a one-parameter method and `DelegateCommand`
      otherwise. */
  lemma {:induction false} CommandsForMembers(c: ClassModel, cmds: seq<(MethodDecl, GenerateCommandAttribute)>)
    ensures CommandsFor(c, cmds).Success? ==>
      var ds := CommandsFor(c, cmds).value;
      && |ds| == 3 * |cmds|
      && forall i :: 0 <= i < |cmds| ==>
           && CommandMembers(c, cmds[i].0, cmds[i].1, DelegateCommandType(cmds[i].0)).Success?
           && ds[3 * i..3 * i + 3] == CommandMembers(c, cmds[i].0, cmds[i].1, DelegateCommandType(cmds[i].0)).value
    decreases |cmds|
  {
    if |cmds| > 0 && CommandsFor(c, cmds).Success? {
      CommandsForMembers(c, cmds[1..]);
      var first := CommandMembers(c, cmds[0].0, cmds[0].1, DelegateCommandType(cmds[0].0));
      var rest := CommandsFor(c, cmds[1..]);
      assert first.Success? && rest.Success?;
      var head := first.value;
      var tail := rest.value;
      assert CommandsFor(c, cmds).value == head + tail;
      forall i | 0 <= i < |cmds|
        ensures && CommandMembers(c, cmds[i].0, cmds[i].1, DelegateCommandType(cmds[i].0)).Success?
                && (head + tail)[3 * i..3 * i + 3] == CommandMembers(c, cmds[i].0, cmds[i].1, DelegateCommandType(cmds[i].0)).value
      {
        ChunkAt(head, tail, i);
        if i > 0 {
          assert cmds[i] == cmds[1..][i - 1];
        }
      }
    }
  }

  /** A generated file is the class file around the command members: chunk
      `i` of them is what `GenerateCommand` writes for command method `i`. */
  lemma GenerateClassSpec(c: ClassModel)
    ensures GenerateClass(c).Success? ==>
      var cmds := CommandMethods(c.methods);
      && CommandsFor(c, cmds).Success?
      && GenerateClass(c).value == ClassFile(c, CommandsFor(c, cmds).value)
      && |CommandsFor(c, cmds).value| == 3 * |cmds|
      && forall i :: 0 <= i < |cmds| ==>
           && CommandMembers(c, cmds[i].0, cmds[i].1, DelegateCommandType(cmds[i].0)).Success?
           && CommandsFor(c, cmds).value[3 * i..3 * i + 3]
             == CommandMembers(c, cmds[i].0, cmds[i].1, DelegateCommandType(cmds[i].0)).value
  {
    var cmds := CommandMethods(c.methods);
    GenerateClassOutcome(c);
    CommandsForMembers(c, cmds);
    if GenerateClass(c).Success? {
      var docs := CommandsFor(c, cmds).value;
      assert GenerateClass(c).value == ClassFile(c, docs);
    }
  }

  /** A class file is the usings, a blank line, and the namespace block
      holding the partial class block around the class body. */
  lemma ClassFileLayout(c: ClassModel, commandDocs: seq<Doc>)
    ensures var ds := ClassFile(c, commandDocs);
      && |ds| == |Usings| + 2
      && (forall i :: 0 <= i < |Usings| ==> ds[i] == Text(Usings[i]))
      && ds[|Usings|] == Text("")
      && ds[|Usings| + 1].header == NamespaceHeader(c.namespaceName)
      && |ds[|Usings| + 1].body| == 1
      && ds[|Usings| + 1].body[0].header == ClassHeader(c.name)
      && ds[|Usings| + 1].body[0].body == ClassBody(c, commandDocs)
  {
  }

  /** One file per class, named after the class, in input order; the run
      fails exactly when some class fails, that is, when one of its command
      names is empty. */
  lemma ExecuteSpec(classes: seq<ClassModel>)
    ensures Execute(classes).Failure? <==> exists i :: 0 <= i < |classes| && GenerateClass(classes[i]).Failure?
    ensures Execute(classes).Success? ==>
      && |Execute(classes).value| == |classes|
      && forall i :: 0 <= i < |classes| ==>
           && GenerateClass(classes[i]).Success?
           && Execute(classes).value[i] == SourceFile(HintName(classes[i].name), Emit(GenerateClass(classes[i]).value))
  {
    GenerateAllSpec(classes, GenerateClass, ClassName);
  }

  /** Where each part of a four-way concatenation sits. */
  lemma FourSlices<T>(s: seq<T>, a: seq<T>, b: seq<T>, c: seq<T>, d: seq<T>)
    requires s == a + b + c + d
    ensures |s| == |a| + |b| + |c| + |d|
    ensures s[..|a|] == a
    ensures s[|a|..|a| + |b|] == b
    ensures s[|a| + |b|..|a| + |b| + |c|] == c
    ensures s[|a| + |b| + |c|..] == d
  {
    assert s == a + b + c + d + [];
    ConcatSlices(a, b, c, d, []);
  }

  /** Where each part of a five-way concatenation sits. */
  lemma ConcatSlices<T>(a: seq<T>, b: seq<T>, c: seq<T>, d: seq<T>, e: seq<T>)
    ensures var s := a + b + c + d + e;
      && s[..|a|] == a
      && s[|a|..|a| + |b|] == b
      && s[|a| + |b|..|a| + |b| + |c|] == c
      && s[|a| + |b| + |c|..|a| + |b| + |c| + |d|] == d
      && s[|a| + |b| + |c| + |d|..] == e
  {
  }
}
