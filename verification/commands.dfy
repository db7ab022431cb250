/** The decisions `ViewModelGenerator.GenerateCommand` and
    `CommandGenerator.GenerateCommands` make for one `[GenerateCommand]`
    method, and the members they write for it. The two generators differ only
    in the declared type of the command field and property. */
module Commands {
  import opened Wrappers
  import opened Text
  import opened SourceWriter
  import opened Symbols
  import opened Naming
  import opened Members
  import DelegateCommand

  /** `isGeneric`: exactly one parameter. */
  predicate IsGeneric(m: MethodDecl)
  {
    |m.parameters| == 1
  }

  /** `hasCanExecute`: the class has a member (of any kind) with the predicate name. */
  predicate HasCanExecute(c: ClassModel, m: MethodDecl, a: GenerateCommandAttribute)
  {
    HasMember(c, CanExecuteName(m.name, a.canExecuteName))
  }

  /** The creation expression written after `new`. */
  function CreationText(c: ClassModel, m: MethodDecl, a: GenerateCommandAttribute): string
  {
    var canExecuteName := CanExecuteName(m.name, a.canExecuteName);
    if IsGeneric(m) then CreateGenericCommand(m.name, canExecuteName, m.parameters[0].typeName, HasCanExecute(c, m, a))
    else CreateCommand(m.name, canExecuteName, HasCanExecute(c, m, a))
  }

  /** `ViewModelGenerator`'s command type: `DelegateCommand<T>` for a generic
      command, `DelegateCommand` otherwise. */
  function DelegateCommandType(m: MethodDecl): string
  {
    if IsGeneric(m) then "DelegateCommand<" + m.parameters[0].typeName + ">" else "DelegateCommand"
  }

  /** The field, the lazily created property and a blank line; fails where
      `GenerateCommand`'s `Substring(0, 1)` throws, on an empty command name. */
  function CommandMembers(c: ClassModel, m: MethodDecl, a: GenerateCommandAttribute, commandType: string)
    : (r: Result<seq<Doc>>)
    ensures r.Success? ==> |r.value| == 3
  {
    var commandName := CommandName(m.name, a.commandName);
    match BackingField(commandName)
    case Failure(e) => Failure(e)
    case Success(field) => Success(CommandProperty(commandType, commandName, field, CreationText(c, m, a)))
  }

  /** What the creation expression of a command builds. */
  function Intended(c: ClassModel, m: MethodDecl, a: GenerateCommandAttribute): Creation
  {
    var canExecuteName := CanExecuteName(m.name, a.canExecuteName);
    Creation(if IsGeneric(m) then Some(m.parameters[0].typeName) else None,
             m.name,
             if HasMember(c, canExecuteName) then Some(canExecuteName) else None)
  }

  /** The creation expression reads back as: a generic command exactly when
      the method has one parameter (with that parameter's type), the method as
      the action, and the predicate exactly when the class has a member of that
      name. So a method with two or more parameters still gets a plain command. */
  lemma CreationSpec(c: ClassModel, m: MethodDecl, a: GenerateCommandAttribute)
    requires PlainName(m.name) && (HasCanExecute(c, m, a) ==> PlainName(CanExecuteName(m.name, a.canExecuteName)))
    ensures ParseCreation(CreationText(c, m, a)) == Some(Intended(c, m, a))
  {
    var canExecuteName := CanExecuteName(m.name, a.canExecuteName);
    if IsGeneric(m) {
      CreateGenericCommandParses(m.name, canExecuteName, m.parameters[0].typeName, HasCanExecute(c, m, a));
    } else {
      CreateCommandParses(m.name, canExecuteName, HasCanExecute(c, m, a));
    }
  }

  /** The written members: a command name that is empty is the only failure;
      otherwise the field is named from the command name, both field and
      property have the given type, and the getter assigns the field only
      when it is `null` and returns it. */
  lemma CommandMembersSpec(c: ClassModel, m: MethodDecl, a: GenerateCommandAttribute, commandType: string)
    ensures CommandMembers(c, m, a, commandType).Failure? <==> a.commandName == Some("")
    ensures CommandMembers(c, m, a, commandType).Success? ==>
      var name := CommandName(m.name, a.commandName);
      var field := "_" + [ToLowerChar(name[0])] + name[1..];
      var ds := CommandMembers(c, m, a, commandType).value;
      && ds[0] == Text("private " + commandType + " " + field + ";")
      && ds[1] == Block(PropertyHeader(commandType, name),
                        [Block("get", [ Block("if(" + field + " == null)", [Text(field + " = new " + CreationText(c, m, a))]),
                                        Text("return " + field + ";")])])
      && ds[2] == Text("")
  {
    var name := CommandName(m.name, a.commandName);
    if a.commandName.None? {
      assert |name| == |m.name| + 7;
    }
  }

  /** The command a written creation expression builds at run time, given
      what the action and predicate names denote. */
  function Instantiate<S, H>(cr: Creation, actions: string -> (S -> S), predicates: string -> (S -> bool))
    : DelegateCommand.Command<S, H>
  {
    DelegateCommand.Create(actions(cr.execute),
                           match cr.canExecute
                           case None => None
                           case Some(p) => Some(predicates(p)))
  }

  /** End to end: a plain generated command can always execute when the class
      has no member named like its predicate, and otherwise answers with that
      predicate. */
  lemma GeneratedCanExecute<S, H>(c: ClassModel, m: MethodDecl, a: GenerateCommandAttribute,
                                  actions: string -> (S -> S), predicates: string -> (S -> bool), state: S)
    requires PlainName(m.name) && (HasCanExecute(c, m, a) ==> PlainName(CanExecuteName(m.name, a.canExecuteName)))
    ensures var cr := ParseCreation(CreationText(c, m, a));
      && cr.Some?
      && DelegateCommand.CanExecute(Instantiate<S, H>(cr.value, actions, predicates), state)
         == if HasCanExecute(c, m, a) then predicates(CanExecuteName(m.name, a.canExecuteName))(state) else true
  {
    CreationSpec(c, m, a);
  }

  /** The command type `ViewModelGenerator` declares agrees with the object its
      getter creates: `DelegateCommand<T>` exactly when the creation expression
      is generic over `T`, plain `DelegateCommand` otherwise. */
  lemma DeclaredTypeMatchesCreation(c: ClassModel, m: MethodDecl, a: GenerateCommandAttribute)
    requires PlainName(m.name) && (HasCanExecute(c, m, a) ==> PlainName(CanExecuteName(m.name, a.canExecuteName)))
    ensures var cr := ParseCreation(CreationText(c, m, a));
      && cr.Some?
      && (cr.value.typeArgument.None? <==> DelegateCommandType(m) == CommandClass)
      && (cr.value.typeArgument.Some? ==> DelegateCommandType(m) == CommandClass + "<" + cr.value.typeArgument.value + ">")
      && (cr.value.typeArgument.Some? <==> |m.parameters| == 1)
  {
    CreationSpec(c, m, a);
    DelegateCommandTypeOf(m);
  }

  lemma DelegateCommandTypeOf(m: MethodDecl)
    ensures var cr := if IsGeneric(m) then Some(m.parameters[0].typeName) else None;
      && (cr.None? <==> DelegateCommandType(m) == CommandClass)
      && (cr.Some? ==> DelegateCommandType(m) == CommandClass + "<" + cr.value + ">")
  {
    if IsGeneric(m) {
      assert |DelegateCommandType(m)| > |CommandClass|;
    }
  }

  /** Where chunk `i` of three lies once a chunk of three is put in front. */
  lemma ChunkAt<T>(head: seq<T>, tail: seq<T>, i: nat)
    requires |head| == 3 && 3 * i + 3 <= 3 + |tail|
    ensures i == 0 ==> (head + tail)[3 * i..3 * i + 3] == head
    ensures i > 0 ==> (head + tail)[3 * i..3 * i + 3] == tail[3 * (i - 1)..3 * (i - 1) + 3]
  {
  }
}
