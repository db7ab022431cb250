/** The neutral view of a declared C# class that the generators read from the
    compiler's symbols: its members with their attribute arguments. A named
    attribute argument that was not given reads as `None` (`TypedConstant.IsNull`). */
module Symbols {
  import opened Wrappers

  /** `[GenerateProperty(PropertyName = …)]` on a field. */
  datatype GeneratePropertyAttribute = GeneratePropertyAttribute(propertyName: Option<string>)

  /** `[GenerateCommand(CommandName = …, CanExecuteName = …, DependsOn = …)]` on a method. */
  datatype GenerateCommandAttribute = GenerateCommandAttribute(
    commandName: Option<string>,
    canExecuteName: Option<string>,
    dependsOn: Option<string>)

  /** `[DependsOn(params string[] properties)]` on a property: `Properties` is the
      constructor's params array as given, null entries included. */
  datatype DependsOnAttribute = DependsOnAttribute(properties: seq<Option<string>>)

  /** `[DefineProperty(PropertyName = …, PropertyType = …)]` on a class; repeatable. */
  datatype DefinePropertyAttribute = DefinePropertyAttribute(
    propertyName: Option<string>,
    propertyType: Option<string>)

  /** A parameter: its type's display string and its name. */
  datatype Parameter = Parameter(typeName: string, name: string)

  datatype FieldDecl = FieldDecl(
    name: string,
    typeName: string,
    generateProperty: Option<GeneratePropertyAttribute>)

  datatype MethodDecl = MethodDecl(
    name: string,
    parameters: seq<Parameter>,
    generateCommand: Option<GenerateCommandAttribute>)

  datatype PropertyDecl = PropertyDecl(
    name: string,
    dependsOn: Option<DependsOnAttribute>)

  /** A class declaration. `topLevel` says whether its containing symbol is its
      namespace (false for a class nested in another type); `implementsInpc`
      whether it lists `INotifyPropertyChanged` among its interfaces;
      `otherMembers` names the members of kinds the generators never inspect
      (events, nested types, …), which still answer `GetMembers(name)`. */
  datatype ClassModel = ClassModel(
    namespaceName: string,
    name: string,
    topLevel: bool,
    implementsInpc: bool,
    fields: seq<FieldDecl>,
    methods: seq<MethodDecl>,
    properties: seq<PropertyDecl>,
    otherMembers: seq<string>,
    defineProperties: seq<DefinePropertyAttribute>)

  /** `classSymbol.Name`. */
  function ClassName(c: ClassModel): string
  {
    c.name
  }

  /** `classSymbol.GetMembers(name).Length > 0`. */
  predicate HasMember(c: ClassModel, name: string)
  {
    || (exists i :: 0 <= i < |c.fields| && c.fields[i].name == name)
    || (exists i :: 0 <= i < |c.methods| && c.methods[i].name == name)
    || (exists i :: 0 <= i < |c.properties| && c.properties[i].name == name)
    || name in c.otherMembers
  }

  /** Fields carrying `[GenerateProperty]`, in declaration order, with their attribute. */
  function AnnotatedFields(fs: seq<FieldDecl>): (r: seq<(FieldDecl, GeneratePropertyAttribute)>)
    ensures |r| <= |fs|
    ensures forall i :: 0 <= i < |r| ==> r[i].0 in fs && r[i].0.generateProperty == Some(r[i].1)
  {
    if |fs| == 0 then []
    else
      var rest := AnnotatedFields(fs[1..]);
      match fs[0].generateProperty
      case Some(a) => [(fs[0], a)] + rest
      case None => rest
  }

  /** Methods carrying `[GenerateCommand]`, in declaration order, with their attribute. */
  function CommandMethods(ms: seq<MethodDecl>): (r: seq<(MethodDecl, GenerateCommandAttribute)>)
    ensures |r| <= |ms|
    ensures forall i :: 0 <= i < |r| ==> r[i].0 in ms && r[i].0.generateCommand == Some(r[i].1)
  {
    if |ms| == 0 then []
    else
      var rest := CommandMethods(ms[1..]);
      match ms[0].generateCommand
      case Some(a) => [(ms[0], a)] + rest
      case None => rest
  }

  /** Properties carrying `[DependsOn]`, in declaration order, with their attribute. */
  function DependsOnProperties(ps: seq<PropertyDecl>): (r: seq<(PropertyDecl, DependsOnAttribute)>)
    ensures |r| <= |ps|
    ensures forall i :: 0 <= i < |r| ==> r[i].0 in ps && r[i].0.dependsOn == Some(r[i].1)
  {
    if |ps| == 0 then []
    else
      var rest := DependsOnProperties(ps[1..]);
      match ps[0].dependsOn
      case Some(a) => [(ps[0], a)] + rest
      case None => rest
  }

  /** Methods named `Constructor`, in declaration order. */
  function ConstructorMethods(ms: seq<MethodDecl>): (r: seq<MethodDecl>)
    ensures |r| <= |ms|
    ensures forall i :: 0 <= i < |r| ==> r[i] in ms && r[i].name == "Constructor"
    ensures forall m :: m in ms && m.name == "Constructor" ==> m in r
  {
    if |ms| == 0 then []
    else
      var rest := ConstructorMethods(ms[1..]);
      assert forall m :: m in ms ==> m == ms[0] || m in ms[1..];
      if ms[0].name == "Constructor" then [ms[0]] + rest else rest
  }
}
