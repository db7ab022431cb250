/** `PropertyFromAttributeGenerator`: for every class carrying
    `[DefineProperty(PropertyName = …, PropertyType = …)]` attributes, one file
    adding a notifying property (over a backing field the class is expected
    to declare) per attribute that gives both a name and a type. A class nested
    in another type yields a null text. */
module PropertyFromAttributeGenerator {
  import opened Wrappers
  import opened Text
  import opened SourceWriter
  import opened Symbols
  import opened Naming
  import opened Members
  import opened Outputs

  const Usings: seq<string> := ["using System.Collections.Generic;", "using System.ComponentModel;"]

  /** The event and a blank line, unless the class lists `INotifyPropertyChanged`. */
  function EventMembers(c: ClassModel): seq<Doc>
  {
    if c.implementsInpc then [] else [Text(EventDeclaration), Text("")]
  }

  /** `GenerateProperties`: attributes missing the name or the type are
      skipped; an empty name throws where the backing field is derived. */
  function GenerateProperties(attrs: seq<DefinePropertyAttribute>): Result<seq<Doc>>
    decreases |attrs|
  {
    if |attrs| == 0 then Success([])
    else
      var a := attrs[0];
      if a.propertyName.None? || a.propertyType.None? then GenerateProperties(attrs[1..])
      else
        match BackingField(a.propertyName.value)
        case Failure(e) => Failure(e)
        case Success(field) =>
          match GenerateProperties(attrs[1..])
          case Failure(e) => Failure(e)
          case Success(rest) => Success(DefinedProperty(a.propertyType.value, a.propertyName.value, field) + rest)
  }

  /** `GenerateClass`: `None` (a null string) for a class that is not declared
      directly in its namespace, otherwise the file or the exception thrown
      while writing it. */
  function GenerateClass(c: ClassModel): Option<Result<seq<Doc>>>
  {
    if !c.topLevel then None
    else
      Some(match GenerateProperties(c.defineProperties)
           case Failure(e) => Failure(e)
           case Success(ps) =>
             Success([Text(Usings[0]), Text(Usings[1]), Text(""),
                      Block(NamespaceHeader(c.namespaceName),
                            [Block(ClassHeader(c.name), EventMembers(c) + ps)])]))
  }

  /** The text handed to `SourceText.From` for one class, which throws on null. */
  function Source(c: ClassModel): Result<seq<Doc>>
  {
    match GenerateClass(c)
    case None => Failure(ArgumentNull("text"))
    case Some(r) => r
  }

  /** `Execute`: one file per collected class, in collection order. */
  function Execute(classes: seq<ClassModel>): Result<seq<SourceFile>>
  {
    GenerateAll(classes, Source, ClassName)
  }

  // ---------------------------------------------------------------------------

  /** The (name, type) of every attribute that gives both, in order. */
  function Complete(attrs: seq<DefinePropertyAttribute>): (ps: seq<(string, string)>)
    ensures |ps| <= |attrs|
  {
    if |attrs| == 0 then []
    else
      var a := attrs[0];
      (if a.propertyName.None? || a.propertyType.None? then [] else [(a.propertyName.value, a.propertyType.value)])
        + Complete(attrs[1..])
  }

  /** Reference definition: the property each complete attribute should get —
      its type and name, over the field named `_` and the name with its first
      character lower-cased. */
  function Expected(ps: seq<(string, string)>): (ds: seq<Doc>)
    requires forall i :: 0 <= i < |ps| ==> ps[i].0 != ""
    ensures |ds| == |ps|
  {
    if |ps| == 0 then []
    else
      var name := ps[0].0;
      [NotifyingProperty(ps[0].1, name, "_" + [ToLowerChar(name[0])] + name[1..])] + Expected(ps[1..])
  }

  /** Writing the properties fails exactly when some complete attribute has an
      empty name. */
  lemma {:induction false} GeneratePropertiesFails(attrs: seq<DefinePropertyAttribute>)
    ensures GenerateProperties(attrs).Failure? <==> exists i :: 0 <= i < |Complete(attrs)| && Complete(attrs)[i].0 == ""
    decreases |attrs|
  {
    if |attrs| > 0 {
      var a := attrs[0];
      var rest := Complete(attrs[1..]);
      GeneratePropertiesFails(attrs[1..]);
      if a.propertyName.None? || a.propertyType.None? {
        assert Complete(attrs) == rest;
      } else {
        var p := (a.propertyName.value, a.propertyType.value);
        assert Complete(attrs) == [p] + rest;
        if p.0 == "" {
          assert Complete(attrs)[0].0 == "";
        }
        if exists i :: 0 <= i < |rest| && rest[i].0 == "" {
          var i :| 0 <= i < |rest| && rest[i].0 == "";
          assert Complete(attrs)[i + 1].0 == "";
        }
        if exists i :: 0 <= i < |Complete(attrs)| && Complete(attrs)[i].0 == "" {
          var i :| 0 <= i < |Complete(attrs)| && Complete(attrs)[i].0 == "";
          if i > 0 {
            assert rest[i - 1].0 == "";
          }
        }
      }
    }
  }

  /** When writing succeeds, every complete attribute has a name, and the
      property blocks written are exactly the expected ones, one per complete
      attribute, in attribute order, three documents each (the property block, the hook
      declaration and a blank line). */
  lemma {:induction false} GeneratePropertiesBlocks(attrs: seq<DefinePropertyAttribute>)
    ensures GenerateProperties(attrs).Success? ==>
      && (forall i :: 0 <= i < |Complete(attrs)| ==> Complete(attrs)[i].0 != "")
      && |GenerateProperties(attrs).value| == 3 * |Complete(attrs)|
      && BlocksOf(GenerateProperties(attrs).value) == Expected(Complete(attrs))
    decreases |attrs|
  {
    if |attrs| > 0 && GenerateProperties(attrs).Success? {
      var a := attrs[0];
      var rest := Complete(attrs[1..]);
      GeneratePropertiesBlocks(attrs[1..]);
      if a.propertyName.None? || a.propertyType.None? {
        assert Complete(attrs) == rest;
      } else {
        var name := a.propertyName.value;
        var typeName := a.propertyType.value;
        var field := BackingField(name).value;
        var head := DefinedProperty(typeName, name, field);
        var tail := GenerateProperties(attrs[1..]).value;
        assert GenerateProperties(attrs).value == head + tail;
        assert Complete(attrs) == [(name, typeName)] + rest;
        BlocksOfConcat(head, tail);
        PropertyBlocks(typeName, name, field);
        assert field == "_" + [ToLowerChar(name[0])] + name[1..];
        assert ([(name, typeName)] + rest)[1..] == rest;
      }
    }
  }

  /** A class's file: none for a nested class; a failure exactly when some
      complete attribute has an empty name; otherwise the usings, a blank line,
      and the namespace block around the class block, whose body is the event
      and a blank line exactly when the class lacks `INotifyPropertyChanged`,
      and whose blocks are exactly the expected properties. */
  lemma GenerateClassSpec(c: ClassModel)
    ensures GenerateClass(c).None? <==> !c.topLevel
    ensures GenerateClass(c).Some? ==>
      (GenerateClass(c).value.Failure? <==>
         exists i :: 0 <= i < |Complete(c.defineProperties)| && Complete(c.defineProperties)[i].0 == "")
    ensures GenerateClass(c).Some? && GenerateClass(c).value.Success? ==>
      var ds := GenerateClass(c).value.value;
      && (forall i :: 0 <= i < |Complete(c.defineProperties)| ==> Complete(c.defineProperties)[i].0 != "")
      && |ds| == 4
      && ds[..3] == [Text(Usings[0]), Text(Usings[1]), Text("")]
      && ds[3].Block? && ds[3].header == NamespaceHeader(c.namespaceName)
      && |ds[3].body| == 1 && ds[3].body[0].Block?
      && ds[3].body[0].header == ClassHeader(c.name)
      && var body := ds[3].body[0].body;
         && (!c.implementsInpc ==> body[..2] == [Text(EventDeclaration), Text("")])
         && |body| == (if c.implementsInpc then 0 else 2) + 3 * |Complete(c.defineProperties)|
         && BlocksOf(body) == Expected(Complete(c.defineProperties))
  {
    GeneratePropertiesFails(c.defineProperties);
    GeneratePropertiesBlocks(c.defineProperties);
    if c.topLevel && GenerateProperties(c.defineProperties).Success? {
      var e := EventMembers(c);
      var p := GenerateProperties(c.defineProperties).value;
      BlocksOfConcat(e, p);
      BlocksOfTexts(e);
      assert (e + p)[..|e|] == e;
    }
  }

  /** Why writing a class's file throws: the class is nested, or one of its
      complete attributes has an empty name. */
  predicate Throws(c: ClassModel)
  {
    || !c.topLevel
    || exists j :: 0 <= j < |Complete(c.defineProperties)| && Complete(c.defineProperties)[j].0 == ""
  }

  lemma SourceFails(c: ClassModel)
    ensures Source(c).Failure? <==> Throws(c)
  {
    GenerateClassSpec(c);
  }

  /** The run fails exactly when some collected class throws. */
  lemma ExecuteFails(classes: seq<ClassModel>)
    ensures Execute(classes).Failure? <==> exists i :: 0 <= i < |classes| && Throws(classes[i])
  {
    GenerateAllSpec(classes, Source, ClassName);
    if Execute(classes).Failure? {
      var i :| 0 <= i < |classes| && Source(classes[i]).Failure?;
      SourceFails(classes[i]);
    }
    if exists i :: 0 <= i < |classes| && Throws(classes[i]) {
      var i :| 0 <= i < |classes| && Throws(classes[i]);
      SourceFails(classes[i]);
      var generate: ClassModel -> Result<seq<Doc>> := Source;
      assert generate(classes[i]).Failure?;
    }
  }

  /** A successful run has one file per collected class, named after it, in
      collection order, holding that class's generated text. */
  lemma ExecuteFiles(classes: seq<ClassModel>)
    ensures Execute(classes).Success? ==>
      && |Execute(classes).value| == |classes|
      && forall i :: 0 <= i < |classes| ==>
           && GenerateClass(classes[i]).Some? && GenerateClass(classes[i]).value.Success?
           && Execute(classes).value[i] == SourceFile(HintName(classes[i].name), Emit(GenerateClass(classes[i]).value.value))
  {
    GenerateAllSpec(classes, Source, ClassName);
  }
}
