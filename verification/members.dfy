/** The members the generators write into a partial class: a notifying
    property over a backing field with its `On{P}Changed` hook, a lazily
    created command property, and the constructors that subscribe the
    class's `OnPropertyChanged` handler.

    The setter and the command getter are described as small statement lists
    whose text is what the generators write; `RunSetter` and `RunGetter` give
    those statements the meaning the C# compiler gives them, and the lemmas
    state what a generated setter or getter does when it runs. */
module Members {
  import opened Wrappers
  import opened Text
  import opened SourceWriter
  import opened Symbols
  import opened Naming
  import opened Dispatch

  // ---------------------------------------------------------------------------
  // Notifying properties.

  /** Written when the class does not already implement `INotifyPropertyChanged`. */
  const EventDeclaration: string := "public event PropertyChangedEventHandler PropertyChanged;"

  /** The header of a class that only gains members. */
  function PartialClassHeader(className: string): string
  {
    "public partial class " + className
  }

  /** The header of a class that is also declared to implement `INotifyPropertyChanged`. */
  function ClassHeader(className: string): string
  {
    PartialClassHeader(className) + " : INotifyPropertyChanged"
  }

  function NamespaceHeader(namespaceName: string): string
  {
    "namespace " + namespaceName
  }

  function Getter(field: string): string
  {
    "get { return " + field + "; }"
  }

  /** The setter's guard, kept as text: `EqualityComparer<T>.Default.Equals(value)`
      is the one-argument `object.Equals`, which compares the comparer with the
      value, so the guard does not compare old and new values. */
  function EqualityGuard(typeName: string): string
  {
    "if(EqualityComparer<" + typeName + ">.Default.Equals(value) == false)"
  }

  function HookName(propertyName: string): string
  {
    "On" + propertyName + "Changed"
  }

  /** `partial void On{P}Changed(T oldValue, T newValue);` */
  function HookDeclaration(propertyName: string, typeName: string): string
  {
    "partial void " + HookName(propertyName) + "(" + typeName + " oldValue, " + typeName + " newValue);"
  }

  /** A statement of a generated setter body. */
  datatype SetterStatement =
    | SaveOld(typeName: string, field: string)   // `T tmp = f;`
    | Store(field: string)                       // `f = value;`
    | Notify(propertyName: string)               // `PropertyChanged?.Invoke(…nameof(P)…);`
    | CallHook(hook: string, field: string)      // `On{P}Changed(tmp, f);`

  function StatementText(s: SetterStatement): string
  {
    match s
    case SaveOld(t, f) => t + " tmp = " + f + ";"
    case Store(f) => f + " = value;"
    case Notify(p) => InvokePropertyChanged(p)
    case CallHook(h, f) => h + "(tmp, " + f + ");"
  }

  /** The four statements inside the guard, in the order they are written. */
  function SetterBody(typeName: string, propertyName: string, field: string): seq<SetterStatement>
  {
    [SaveOld(typeName, field), Store(field), Notify(propertyName), CallHook(HookName(propertyName), field)]
  }

  function StatementDocs(ss: seq<SetterStatement>): (ds: seq<Doc>)
    ensures |ds| == |ss|
    ensures forall i :: 0 <= i < |ss| ==> ds[i] == Text(StatementText(ss[i]))
  {
    seq(|ss|, i requires 0 <= i < |ss| => Text(StatementText(ss[i])))
  }

  /** `StartProperty(T, P)` holding the getter and the guarded setter. */
  function NotifyingProperty(typeName: string, propertyName: string, field: string): Doc
  {
    Block(PropertyHeader(typeName, propertyName),
      [ Text(Getter(field)),
        Block("set", [Block(EqualityGuard(typeName), StatementDocs(SetterBody(typeName, propertyName, field)))])])
  }

  /** What running a setter can observe: an event raised, or a hook called. */
  datatype Event<V> = Changed(propertyName: string) | Hooked(hook: string, oldValue: V, newValue: V)

  /** The fields of the instance, the local `tmp` once assigned, and the
      events so far. */
  datatype SetterState<V> = SetterState(fields: map<string, V>, tmp: Option<V>, events: seq<Event<V>>)

  /** One statement, with `value` the assigned value; `None` where the C#
      compiler would reject the statement (an unknown field, `tmp` read before
      it is assigned). */
  function Step<V>(s: SetterStatement, st: SetterState<V>, value: V): Option<SetterState<V>>
  {
    match s
    case SaveOld(_, f) => if f in st.fields then Some(st.(tmp := Some(st.fields[f]))) else None
    case Store(f) => if f in st.fields then Some(st.(fields := st.fields[f := value])) else None
    case Notify(p) => Some(st.(events := st.events + [Changed(p)]))
    case CallHook(h, f) =>
      if f in st.fields && st.tmp.Some? then Some(st.(events := st.events + [Hooked(h, st.tmp.value, st.fields[f])]))
      else None
  }

  function RunSetter<V>(ss: seq<SetterStatement>, st: SetterState<V>, value: V): Option<SetterState<V>>
  {
    if |ss| == 0 then Some(st)
    else
      match Step(ss[0], st, value)
      case None => None
      case Some(st') => RunSetter(ss[1..], st', value)
  }

  /** Running a generated setter body stores the value in the backing field,
      leaves every other field alone, raises `P` and then calls `On{P}Changed`
      with the old and the new value. A backing field that does not exist
      makes the generated code ill-formed. */
  lemma SetterEffect<V>(typeName: string, propertyName: string, field: string, fields: map<string, V>,
                        events: seq<Event<V>>, value: V)
    ensures field in fields ==>
      RunSetter(SetterBody(typeName, propertyName, field), SetterState(fields, None, events), value)
      == Some(SetterState(fields[field := value], Some(fields[field]),
                          events + [Changed(propertyName), Hooked(HookName(propertyName), fields[field], value)]))
    ensures field !in fields ==>
      RunSetter(SetterBody(typeName, propertyName, field), SetterState(fields, None, events), value).None?
  {
    var body := SetterBody(typeName, propertyName, field);
    var hook := HookName(propertyName);
    var st := SetterState(fields, None, events);
    var rest1 := [Store(field), Notify(propertyName), CallHook(hook, field)];
    var rest2 := [Notify(propertyName), CallHook(hook, field)];
    var rest3 := [CallHook(hook, field)];
    assert body[1..] == rest1 && rest1[1..] == rest2 && rest2[1..] == rest3 && rest3[1..] == [];
    if field in fields {
      var st1 := st.(tmp := Some(fields[field]));
      var st2 := st1.(fields := fields[field := value]);
      var st3 := st2.(events := events + [Changed(propertyName)]);
      var st4 := st3.(events := st3.events + [Hooked(hook, fields[field], value)]);
      assert Step(CallHook(hook, field), st3, value) == Some(st4);
      assert RunSetter(rest3, st3, value) == Some(st4);
      assert RunSetter(rest2, st2, value) == Some(st4);
      assert RunSetter(rest1, st1, value) == Some(st4);
      assert RunSetter(body, st, value) == Some(st4);
      assert events + [Changed(propertyName)] + [Hooked(hook, fields[field], value)]
          == events + [Changed(propertyName), Hooked(hook, fields[field], value)];
    }
  }

  /** The block, a blank line, the hook declaration and a blank line, as
      `ViewModelGenerator.GenerateProperty` and
      `PropertyFromFieldGenerator.GenerateProperty` write them. */
  function FieldProperty(typeName: string, propertyName: string, field: string): seq<Doc>
  {
    [NotifyingProperty(typeName, propertyName, field), Text(""), Text(HookDeclaration(propertyName, typeName)), Text("")]
  }

  /** The same without the blank line between block and hook, as
      `PropertyFromAttributeGenerator.GenerateProperties` writes it. */
  function DefinedProperty(typeName: string, propertyName: string, field: string): seq<Doc>
  {
    [NotifyingProperty(typeName, propertyName, field), Text(HookDeclaration(propertyName, typeName)), Text("")]
  }

  /** The only block among a property's members is the property itself. */
  lemma PropertyBlocks(typeName: string, propertyName: string, field: string)
    ensures BlocksOf(FieldProperty(typeName, propertyName, field)) == [NotifyingProperty(typeName, propertyName, field)]
    ensures BlocksOf(DefinedProperty(typeName, propertyName, field)) == [NotifyingProperty(typeName, propertyName, field)]
  {
    var b := NotifyingProperty(typeName, propertyName, field);
    var hook := Text(HookDeclaration(propertyName, typeName));
    BlocksOfLeading(b, [Text(""), hook, Text("")]);
    BlocksOfLeading(b, [hook, Text("")]);
    assert FieldProperty(typeName, propertyName, field) == [b] + [Text(""), hook, Text("")];
    assert DefinedProperty(typeName, propertyName, field) == [b] + [hook, Text("")];
  }

  /** The members written for one `[GenerateProperty]` field: nothing when the
      chosen name is empty or is the field's own name. */
  function PropertyForField(f: FieldDecl, attr: GeneratePropertyAttribute): (ds: seq<Doc>)
    ensures |ds| == 0 || |ds| == 4
  {
    var p := PropertyName(f.name, attr.propertyName);
    if |p| == 0 || p == f.name then [] else FieldProperty(f.typeName, p, f.name)
  }

  /** A field is turned into a property exactly when the skip rule keeps it;
      the property then has the chosen name, the field's type, and a setter
      that writes the field and raises the chosen name. */
  lemma PropertyForFieldSpec(f: FieldDecl, attr: GeneratePropertyAttribute)
    ensures |PropertyForField(f, attr)| > 0 <==> GeneratesProperty(f.name, attr.propertyName)
    ensures |PropertyForField(f, attr)| > 0 ==>
      var p := PropertyName(f.name, attr.propertyName);
      && PropertyForField(f, attr)[0].header == PropertyHeader(f.typeName, p)
      && PropertyForField(f, attr)[0].body[1].body[0].body
         == [ Text(f.typeName + " tmp = " + f.name + ";"), Text(f.name + " = value;"),
              Text(InvokePropertyChanged(p)), Text("On" + p + "Changed(tmp, " + f.name + ");")]
      && PropertyForField(f, attr)[2] == Text("partial void On" + p + "Changed(" + f.typeName + " oldValue, " + f.typeName + " newValue);")
  {
    var p := PropertyName(f.name, attr.propertyName);
    if GeneratesProperty(f.name, attr.propertyName) {
      SetterText(f.typeName, p, f.name);
      HookText(p, f.typeName);
    }
  }

  /** The setter writes, in order: save the old value, store the new one,
      raise the property, call the hook with both. */
  lemma SetterText(typeName: string, propertyName: string, field: string)
    ensures NotifyingProperty(typeName, propertyName, field).body[1].body[0].body
         == [ Text(typeName + " tmp = " + field + ";"), Text(field + " = value;"),
              Text(InvokePropertyChanged(propertyName)), Text("On" + propertyName + "Changed(tmp, " + field + ");")]
  {
    var body := SetterBody(typeName, propertyName, field);
    var docs := StatementDocs(body);
    assert docs == [Text(StatementText(body[0])), Text(StatementText(body[1])),
                    Text(StatementText(body[2])), Text(StatementText(body[3]))];
    assert StatementText(body[3]) == "On" + propertyName + "Changed(tmp, " + field + ");";
  }

  lemma HookText(propertyName: string, typeName: string)
    ensures HookDeclaration(propertyName, typeName)
         == "partial void On" + propertyName + "Changed(" + typeName + " oldValue, " + typeName + " newValue);"
  {
  }

  /** `GenerateProperty` for each `[GenerateProperty]` field, in order, as
      `ViewModelGenerator` and `PropertyFromFieldGenerator` both write it. */
  function Properties(fs: seq<(FieldDecl, GeneratePropertyAttribute)>): seq<Doc>
  {
    if |fs| == 0 then [] else PropertyForField(fs[0].0, fs[0].1) + Properties(fs[1..])
  }

  /** The fields the skip rule keeps, in order. */
  function KeptFields(fs: seq<(FieldDecl, GeneratePropertyAttribute)>): (r: seq<(FieldDecl, GeneratePropertyAttribute)>)
    ensures forall i :: 0 <= i < |r| ==> GeneratesProperty(r[i].0.name, r[i].1.propertyName)
  {
    if |fs| == 0 then []
    else (if GeneratesProperty(fs[0].0.name, fs[0].1.propertyName) then [fs[0]] else []) + KeptFields(fs[1..])
  }

  /** The property a kept field gets: its type, the chosen name, the field as backing field. */
  function KeptProperty(f: FieldDecl, attr: GeneratePropertyAttribute): Doc
  {
    NotifyingProperty(f.typeName, PropertyName(f.name, attr.propertyName), f.name)
  }

  /** Four members per kept field and nothing for a skipped one. */
  lemma {:induction false} PropertiesLength(fs: seq<(FieldDecl, GeneratePropertyAttribute)>)
    ensures |Properties(fs)| == 4 * |KeptFields(fs)|
    decreases |fs|
  {
    if |fs| > 0 {
      PropertyForFieldSpec(fs[0].0, fs[0].1);
      PropertiesLength(fs[1..]);
    }
  }

  /** The property blocks written are exactly one per kept field, in field
      order; skipped fields leave no trace (no property and no hook). */
  lemma {:induction false} PropertiesSpec(fs: seq<(FieldDecl, GeneratePropertyAttribute)>)
    ensures |Properties(fs)| == 4 * |KeptFields(fs)|
    ensures BlocksOf(Properties(fs)) == KeptProperties(KeptFields(fs))
    decreases |fs|
  {
    if |fs| > 0 {
      var f := fs[0].0;
      var attr := fs[0].1;
      var head := PropertyForField(f, attr);
      var tail := Properties(fs[1..]);
      var rest := KeptFields(fs[1..]);
      assert Properties(fs) == head + tail;
      PropertiesSpec(fs[1..]);
      BlocksOfConcat(head, tail);
      if GeneratesProperty(f.name, attr.propertyName) {
        var p := PropertyName(f.name, attr.propertyName);
        assert head == FieldProperty(f.typeName, p, f.name);
        PropertyBlocks(f.typeName, p, f.name);
        assert KeptFields(fs) == [fs[0]] + rest;
        assert ([fs[0]] + rest)[1..] == rest;
      } else {
        assert head == [] && BlocksOf(head) == [];
        assert head + tail == tail;
        assert KeptFields(fs) == rest by {
          assert KeptFields(fs) == [] + rest;
        }
      }
    }
  }

  function KeptProperties(fs: seq<(FieldDecl, GeneratePropertyAttribute)>): (ps: seq<Doc>)
    ensures |ps| == |fs|
  {
    if |fs| == 0 then [] else [KeptProperty(fs[0].0, fs[0].1)] + KeptProperties(fs[1..])
  }

  // ---------------------------------------------------------------------------
  // Command properties.

  /** `createCommand` / `CreateCommand`. */
  function CreateCommand(execute: string, canExecute: string, hasCanExecute: bool): string
  {
    if hasCanExecute then "DelegateCommand(" + execute + ", " + canExecute + ");"
    else "DelegateCommand(" + execute + ");"
  }

  /** `createGenericCommand` / `CreateGenericCommand`. */
  function CreateGenericCommand(execute: string, canExecute: string, genericType: string, hasCanExecute: bool): string
  {
    if hasCanExecute then "DelegateCommand<" + genericType + ">(" + execute + ", " + canExecute + ");"
    else "DelegateCommand<" + genericType + ">(" + execute + ");"
  }

  /** What a creation expression constructs: the type argument of a generic
      command, the action, and the predicate when one is passed. */
  datatype Creation = Creation(typeArgument: Option<string>, execute: string, canExecute: Option<string>)

  const CommandClass: string := "DelegateCommand"

  /** The type argument of `DelegateCommand` or `DelegateCommand<T>`. */
  function ParseCommandClass(head: string): Option<Option<string>>
  {
    if head == CommandClass then Some(None)
    else
      match StripAffixes(head, CommandClass + "<", ">")
      case Some(t) => Some(Some(t))
      case None => None
  }

  /** `execute` or `execute, canExecute`. */
  function ParseArguments(args: string): Option<(string, Option<string>)>
  {
    var parts := Split(args, {','});
    if |parts| == 1 then Some((parts[0], None))
    else if |parts| == 2 && |parts[1]| > 0 && parts[1][0] == ' ' then Some((parts[0], Some(parts[1][1..])))
    else None
  }

  /** Reads `DelegateCommand[<T>](execute[, canExecute]);` back. The argument
      list starts after the last `(`, so a type argument may itself contain
      parentheses or commas. */
  function ParseCreation(s: string): Option<Creation>
  {
    match StripAffixes(s, "", ");")
    case None => None
    case Some(call) =>
      match SplitLast(call, '(')
      case None => None
      case Some((head, args)) =>
        match (ParseCommandClass(head), ParseArguments(args))
        case (Some(t), Some((e, c))) => Some(Creation(t, e, c))
        case _ => None
  }

  /** Names that can stand in an argument list unambiguously. */
  predicate PlainName(s: string)
  {
    Excludes(s, {'(', ','})
  }

  function Arguments(execute: string, canExecute: string, hasCanExecute: bool): string
  {
    if hasCanExecute then execute + ", " + canExecute else execute
  }

  lemma ArgumentsParse(execute: string, canExecute: string, hasCanExecute: bool)
    requires PlainName(execute) && (hasCanExecute ==> PlainName(canExecute))
    ensures Excludes(Arguments(execute, canExecute, hasCanExecute), {'('})
    ensures ParseArguments(Arguments(execute, canExecute, hasCanExecute))
         == Some((execute, if hasCanExecute then Some(canExecute) else None))
  {
    var args := Arguments(execute, canExecute, hasCanExecute);
    if hasCanExecute {
      assert args == execute + [','] + (" " + canExecute);
      SplitAt(execute, ',', " " + canExecute, {','});
      SplitWhole(" " + canExecute, {','});
      assert (" " + canExecute)[1..] == canExecute;
      forall i | 0 <= i < |args|
        ensures args[i] != '('
      {
        if i >= |execute| + 2 {
          assert args[i] == canExecute[i - |execute| - 2];
        }
      }
    } else {
      SplitWhole(execute, {','});
    }
  }

  lemma ParseCreationOf(head: string, args: string)
    requires Excludes(args, {'('})
    ensures ParseCreation(head + "(" + args + ");")
         == match (ParseCommandClass(head), ParseArguments(args))
            case (Some(t), Some((e, c))) => Some(Creation(t, e, c))
            case _ => None
  {
    var call := head + "(" + args;
    assert head + "(" + args + ");" == "" + call + ");";
    StripAffixesOfWrapped("", call, ");");
    assert call == head + ['('] + args;
    SplitLastOf(head, '(', args);
  }

  /** The plain creation expression reads back as what it constructs: the
      predicate is passed exactly when `hasCanExecute`. */
  lemma CreateCommandParses(execute: string, canExecute: string, hasCanExecute: bool)
    requires PlainName(execute) && (hasCanExecute ==> PlainName(canExecute))
    ensures ParseCreation(CreateCommand(execute, canExecute, hasCanExecute))
         == Some(Creation(None, execute, if hasCanExecute then Some(canExecute) else None))
  {
    var args := Arguments(execute, canExecute, hasCanExecute);
    ArgumentsParse(execute, canExecute, hasCanExecute);
    assert CreateCommand(execute, canExecute, hasCanExecute) == CommandClass + "(" + args + ");";
    ParseCreationOf(CommandClass, args);
  }

  /** The generic creation expression reads back as what it constructs, type
      argument included. */
  lemma CreateGenericCommandParses(execute: string, canExecute: string, genericType: string, hasCanExecute: bool)
    requires PlainName(execute) && (hasCanExecute ==> PlainName(canExecute))
    ensures ParseCreation(CreateGenericCommand(execute, canExecute, genericType, hasCanExecute))
         == Some(Creation(Some(genericType), execute, if hasCanExecute then Some(canExecute) else None))
  {
    var args := Arguments(execute, canExecute, hasCanExecute);
    ArgumentsParse(execute, canExecute, hasCanExecute);
    var head := CommandClass + "<" + genericType + ">";
    assert CreateGenericCommand(execute, canExecute, genericType, hasCanExecute) == head + "(" + args + ");";
    assert head != CommandClass by {
      assert |head| > |CommandClass|;
    }
    StripAffixesOfWrapped(CommandClass + "<", genericType, ">");
    assert ParseCommandClass(head) == Some(Some(genericType));
    ParseCreationOf(head, args);
  }

  /** A statement of a generated command getter. */
  datatype GetterStatement =
    | AssignIfNull(field: string, creation: string)   // `if(f == null) { f = new …; }`
    | Return(field: string)                           // `return f;`

  function GetterDoc(s: GetterStatement): Doc
  {
    match s
    case AssignIfNull(f, c) => Block("if(" + f + " == null)", [Text(f + " = new " + c)])
    case Return(f) => Text("return " + f + ";")
  }

  function LazyGetterBody(field: string, creation: string): seq<GetterStatement>
  {
    [AssignIfNull(field, creation), Return(field)]
  }

  /** `private {type} {field};`, then `StartProperty(type, name)` holding the
      lazy getter, then a blank line. */
  function CommandProperty(commandType: string, commandName: string, field: string, creation: string): seq<Doc>
  {
    var body := LazyGetterBody(field, creation);
    [ Text("private " + commandType + " " + field + ";"),
      Block(PropertyHeader(commandType, commandName), [Block("get", [GetterDoc(body[0]), GetterDoc(body[1])])]),
      Text("")]
  }

  /** Runs getter statements over the instance's command slots (`None` is
      `null`); `make` builds the object a creation expression denotes. The
      result is the slots afterwards and the value returned, if any. */
  function RunGetter<C>(ss: seq<GetterStatement>, slots: map<string, Option<C>>, make: string -> C)
    : (Option<(map<string, Option<C>>, C)>)
  {
    if |ss| == 0 then None
    else
      match ss[0]
      case Return(f) =>
        if f in slots && slots[f].Some? then Some((slots, slots[f].value)) else None
      case AssignIfNull(f, c) =>
        if f !in slots then None
        else if slots[f].None? then RunGetter(ss[1..], slots[f := Some(make(c))], make)
        else RunGetter(ss[1..], slots, make)
  }

  /** The generated getter creates the command on first use only: the first
      call stores and returns a new command, a later call returns the stored
      one and changes nothing. */
  lemma LazyGetterOnce<C>(field: string, creation: string, slots: map<string, Option<C>>, make: string -> C)
    requires field in slots
    ensures slots[field].None? ==>
      RunGetter(LazyGetterBody(field, creation), slots, make)
      == Some((slots[field := Some(make(creation))], make(creation)))
    ensures slots[field].Some? ==>
      RunGetter(LazyGetterBody(field, creation), slots, make) == Some((slots, slots[field].value))
  {
    var body := LazyGetterBody(field, creation);
    assert body[1..] == [Return(field)];
  }

  lemma LazyGetterIdempotent<C>(field: string, creation: string, slots: map<string, Option<C>>, make: string -> C)
    requires field in slots
    ensures var first := RunGetter(LazyGetterBody(field, creation), slots, make);
      && first.Some?
      && RunGetter(LazyGetterBody(field, creation), first.value.0, make) == first
  {
    LazyGetterOnce(field, creation, slots, make);
    var first := RunGetter(LazyGetterBody(field, creation), slots, make);
    LazyGetterOnce(field, creation, first.value.0, make);
  }

  // ---------------------------------------------------------------------------
  // Constructors.

  const Subscription: string := "PropertyChanged += OnPropertyChanged;"

  /** `string.Join(",", parameters.Select(x => $"{x.Type} {x.Name}"))`. */
  function ParameterList(ps: seq<Parameter>): string
  {
    Join(seq(|ps|, i requires 0 <= i < |ps| => ps[i].typeName + " " + ps[i].name), ",")
  }

  /** `string.Join(",", parameters.Select(x => x.Name))`. */
  function ArgumentList(ps: seq<Parameter>): string
  {
    Join(ParameterNames(ps), ",")
  }

  function ParameterNames(ps: seq<Parameter>): (ns: seq<string>)
    ensures |ns| == |ps| && forall i :: 0 <= i < |ps| ==> ns[i] == ps[i].name
  {
    seq(|ps|, i requires 0 <= i < |ps| => ps[i].name)
  }

  /** One forwarding constructor for a `Constructor` method, and a blank line. */
  function ForwardingConstructor(className: string, m: MethodDecl): seq<Doc>
  {
    if |m.parameters| == 0 then
      [Block("public " + className + "()", [Text("Constructor();"), Text(Subscription)]), Text("")]
    else
      [ Block("public " + className + "(" + ParameterList(m.parameters) + ")",
              [Text("Constructor(" + ArgumentList(m.parameters) + ");"), Text(Subscription)]),
        Text("")]
  }

  function ForwardingConstructors(className: string, ctors: seq<MethodDecl>): seq<Doc>
  {
    if |ctors| == 0 then [] else ForwardingConstructor(className, ctors[0]) + ForwardingConstructors(className, ctors[1..])
  }

  /** `GenerateConstructors`: one parameterless constructor when the class
      declares no `Constructor` method, otherwise one forwarding constructor
      per `Constructor` method, in declaration order. */
  function Constructors(className: string, ms: seq<MethodDecl>): seq<Doc>
  {
    var ctors := ConstructorMethods(ms);
    if |ctors| == 0 then [Block("public " + className + "()", [Text(Subscription)]), Text("")]
    else ForwardingConstructors(className, ctors)
  }

  /** What a constructor forwards: the arguments of its `Constructor(…)` call,
      or `None` when it calls none. */
  function ForwardedArguments(d: Doc): Option<seq<string>>
  {
    if d.Block? && |d.body| == 2 && d.body[0].Text? then
      match StripAffixes(d.body[0].text, "Constructor(", ");")
      case None => None
      case Some(args) => if args == "" then Some([]) else Some(Split(args, {','}))
    else None
  }

  /** One forwarding constructor: a block ending in the subscription that
      forwards the method's parameters by name, then a blank line. */
  lemma ForwardingConstructorSpec(className: string, m: MethodDecl)
    requires forall j :: 0 <= j < |m.parameters| ==> PlainName(m.parameters[j].name) && m.parameters[j].name != ""
    ensures var head := ForwardingConstructor(className, m);
      && BlocksOf(head) == [head[0]]
      && |head[0].body| == 2 && head[0].body[1] == Text(Subscription)
      && ForwardedArguments(head[0]) == Some(ParameterNames(m.parameters))
  {
    var head := ForwardingConstructor(className, m);
    BlocksOfLeading(head[0], [Text("")]);
    assert head == [head[0]] + [Text("")];
    var names := ParameterNames(m.parameters);
    if |m.parameters| == 0 {
      assert head[0].body[0].text == "Constructor(" + "" + ");";
      StripAffixesOfWrapped("Constructor(", "", ");");
      assert names == [];
    } else {
      StripAffixesOfWrapped("Constructor(", ArgumentList(m.parameters), ");");
      JoinSplitRoundTrip(names, ',');
      assert ArgumentList(m.parameters) != "" by {
        JoinNonEmpty(names, ",");
      }
    }
  }

  lemma {:induction false} ForwardingConstructorsSpec(className: string, ctors: seq<MethodDecl>)
    requires forall i, j :: 0 <= i < |ctors| && 0 <= j < |ctors[i].parameters| ==>
      PlainName(ctors[i].parameters[j].name) && ctors[i].parameters[j].name != ""
    ensures |BlocksOf(ForwardingConstructors(className, ctors))| == |ctors|
    ensures forall i :: 0 <= i < |ctors| ==>
      var b := BlocksOf(ForwardingConstructors(className, ctors))[i];
      && b.Block? && |b.body| == 2 && b.body[1] == Text(Subscription)
      && ForwardedArguments(b) == Some(ParameterNames(ctors[i].parameters))
    decreases |ctors|
  {
    if |ctors| > 0 {
      var rest := ctors[1..];
      PlainParametersTail(ctors);
      ForwardingConstructorsSpec(className, rest);
      ForwardingConstructorSpec(className, ctors[0]);
      var bs := BlocksOf(ForwardingConstructors(className, ctors));
      var bt := BlocksOf(ForwardingConstructors(className, rest));
      ForwardingBlocksStep(className, ctors);
      forall i | 0 <= i < |ctors|
        ensures bs[i].Block? && |bs[i].body| == 2 && bs[i].body[1] == Text(Subscription)
        ensures ForwardedArguments(bs[i]) == Some(ParameterNames(ctors[i].parameters))
      {
        if i > 0 {
          assert bs[i] == bt[i - 1] && ctors[i] == rest[i - 1];
        }
      }
    }
  }

  /** The blocks of the forwarding constructors: the first method's block,
      then the blocks of the rest. */
  lemma ForwardingBlocksStep(className: string, ctors: seq<MethodDecl>)
    requires |ctors| > 0
    ensures BlocksOf(ForwardingConstructors(className, ctors))
         == [ForwardingConstructor(className, ctors[0])[0]] + BlocksOf(ForwardingConstructors(className, ctors[1..]))
  {
    var head := ForwardingConstructor(className, ctors[0]);
    var tail := ForwardingConstructors(className, ctors[1..]);
    BlocksOfLeading(head[0], [Text("")]);
    assert head == [head[0]] + [Text("")];
    BlocksOfConcat(head, tail);
  }

  lemma PlainParametersTail(ctors: seq<MethodDecl>)
    requires |ctors| > 0
    requires forall i, j :: 0 <= i < |ctors| && 0 <= j < |ctors[i].parameters| ==>
      PlainName(ctors[i].parameters[j].name) && ctors[i].parameters[j].name != ""
    ensures forall i, j :: 0 <= i < |ctors[1..]| && 0 <= j < |ctors[1..][i].parameters| ==>
      PlainName(ctors[1..][i].parameters[j].name) && ctors[1..][i].parameters[j].name != ""
  {
    forall i, j | 0 <= i < |ctors[1..]| && 0 <= j < |ctors[1..][i].parameters|
      ensures PlainName(ctors[1..][i].parameters[j].name) && ctors[1..][i].parameters[j].name != ""
    {
      assert ctors[1..][i] == ctors[i + 1];
    }
  }

  lemma {:induction false} JoinNonEmpty(parts: seq<string>, separator: string)
    requires |parts| > 0 && parts[0] != ""
    ensures Join(parts, separator) != ""
  {
    if |parts| > 1 {
      assert |Join(parts, separator)| >= |parts[0]|;
    }
  }

  /** The constructors written for a class: at least one; one per
      `Constructor` method when there are any, each forwarding that method's
      parameters by name and in order; every one ends by subscribing
      `OnPropertyChanged`. */
  lemma ConstructorsSpec(className: string, ms: seq<MethodDecl>)
    requires forall i, j :: 0 <= i < |ms| && 0 <= j < |ms[i].parameters| ==>
      PlainName(ms[i].parameters[j].name) && ms[i].parameters[j].name != ""
    ensures var ctors := ConstructorMethods(ms);
      var blocks := BlocksOf(Constructors(className, ms));
      && |blocks| == (if |ctors| == 0 then 1 else |ctors|)
      && (forall i :: 0 <= i < |blocks| ==> blocks[i].Block? && |blocks[i].body| > 0 && blocks[i].body[|blocks[i].body| - 1] == Text(Subscription))
      && (|ctors| == 0 ==> blocks[0] == Block("public " + className + "()", [Text(Subscription)]))
      && (forall i :: 0 <= i < |ctors| ==> ForwardedArguments(blocks[i]) == Some(ParameterNames(ctors[i].parameters)))
  {
    var ctors := ConstructorMethods(ms);
    if |ctors| == 0 {
      var ds := Constructors(className, ms);
      assert ds[1..] == [Text("")];
      assert ds[1..][1..] == [];
      assert BlocksOf(ds[1..]) == [];
      assert BlocksOf(ds) == [ds[0]];
    } else {
      forall i, j | 0 <= i < |ctors| && 0 <= j < |ctors[i].parameters|
        ensures PlainName(ctors[i].parameters[j].name) && ctors[i].parameters[j].name != ""
      {
        var k :| 0 <= k < |ms| && ms[k] == ctors[i];
      }
      ForwardingConstructorsSpec(className, ctors);
    }
  }
}
