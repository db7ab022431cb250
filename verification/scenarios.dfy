/** The declarations of the repository's sample view model and console test
    class, stated as lemmas about the model. */
module Scenarios {
  import opened Wrappers
  import opened Text
  import opened Grouping
  import opened Symbols
  import opened Naming
  import opened DependencyGraph
  import opened Members
  import opened Commands

  const NoCommandArguments: GenerateCommandAttribute := GenerateCommandAttribute(None, None, None)

  /** `Person.Open(int index)` with `CommandName = "TheOpenCommand"` and `CanExecuteName = "Exists"`. */
  const OpenAttribute: GenerateCommandAttribute := GenerateCommandAttribute(Some("TheOpenCommand"), Some("Exists"), None)
  const Open: MethodDecl := MethodDecl("Open", [Parameter("int", "index")], Some(OpenAttribute))

  /** The console test's `Person`. */
  const Person: ClassModel := ClassModel(
    "SourceGeneration.Mvvm.Test", "Person", true, false,
    [ FieldDecl("firstName", "string", Some(GeneratePropertyAttribute(None))),
      FieldDecl("lastName", "string", Some(GeneratePropertyAttribute(None)))],
    [ MethodDecl("Run", [], Some(NoCommandArguments)),
      MethodDecl("CanRun", [], None),
      Open,
      MethodDecl("Exists", [Parameter("int", "index")], None)],
    [PropertyDecl("FullName", Some(DependsOnAttribute([Some("FirstName"), Some("LastName")])))],
    [], [])

  /** The sample's `MainWindowViewModel`. */
  const SubmitAttribute: GenerateCommandAttribute := GenerateCommandAttribute(None, None, Some("FirstName,LastName"))
  const Submit: MethodDecl := MethodDecl("Submit", [], Some(SubmitAttribute))
  const FullName: PropertyDecl := PropertyDecl("FullName", Some(DependsOnAttribute([Some("FirstName"), Some("LastName")])))
  const MainWindowViewModel: ClassModel := ClassModel(
    "Sample", "MainWindowViewModel", true, false,
    [ FieldDecl("_firstName", "string", Some(GeneratePropertyAttribute(None))),
      FieldDecl("_lastName", "string", Some(GeneratePropertyAttribute(None)))],
    [Submit, MethodDecl("CanSubmit", [], None)],
    [FullName],
    [], [])

  /** Leading underscores go, the next character is upper-cased. */
  lemma FirstNameField()
    ensures PropertyName("_firstName", None) == "FirstName"
  {
    UnderscoreField("firstName");
    assert "firstName"[0] == 'f' && "firstName"[1..] == "irstName";
    assert ToUpperChar('f') == 'F';
    assert ['F'] + "irstName" == "FirstName";
  }

  lemma ShortField()
    ensures PropertyName("_a", None) == "A"
  {
    UnderscoreField("a");
  }

  /** One leading underscore is dropped and the next character capitalised. */
  lemma UnderscoreField(rest: string)
    requires |rest| > 0 && rest[0] != '_'
    ensures PropertyName("_" + rest, None) == [ToUpperChar(rest[0])] + rest[1..]
  {
    var f := "_" + rest;
    assert f[1] == rest[0] && f[2..] == rest[1..];
    PropertyNameDerived(f, 1);
  }

  /** A field already named like its property is skipped. */
  lemma SameNameSkipped()
    ensures !GeneratesProperty("Name", None)
  {
    PropertyNameDerived("Name", 0);
    assert "Name"[1..] == "ame";
  }

  /** `TheOpenCommand` is backed by `_theOpenCommand`. */
  lemma OpenBackingField()
    ensures CommandName(Open.name, OpenAttribute.commandName) == "TheOpenCommand"
    ensures BackingField("TheOpenCommand") == Success("_theOpenCommand")
  {
    var r := BackingField("TheOpenCommand");
    assert r.value[1] == ToLowerChar('T') == 't';
    assert r.value[2..] == "heOpenCommand";
    assert r.value == "_t" + "heOpenCommand" == "_theOpenCommand";
  }

  /** `Open(int)` gets a generic `DelegateCommand<int>` bound to the `Exists`
      predicate, which `Person` declares. */
  lemma OpenCommand()
    ensures IsGeneric(Open) && HasCanExecute(Person, Open, OpenAttribute)
    ensures ParseCreation(CreationText(Person, Open, OpenAttribute)) == Some(Creation(Some("int"), "Open", Some("Exists")))
  {
    assert Person.methods[3].name == "Exists";
    assert PlainName("Open") && PlainName("Exists");
    CreationSpec(Person, Open, OpenAttribute);
  }

  /** `DependsOn = "FirstName,LastName"` splits at the comma. */
  lemma SubmitTriggers()
    ensures CommandTriggers(SubmitAttribute) == ["FirstName", "LastName"]
  {
    assert Excludes("FirstName", Separators) && Excludes("LastName", Separators);
    assert "FirstName" + [','] + "LastName" == "FirstName,LastName";
    SplitPair("FirstName", ',', "LastName");
  }

  /** Two separator-free names around one separator split into the two names. */
  lemma SplitPair(a: string, sep: char, b: string)
    requires Excludes(a, Separators) && Excludes(b, Separators) && sep in Separators
    ensures Split(a + [sep] + b, Separators) == [a, b]
  {
    SplitWhole(b, Separators);
    SplitAt(a, sep, b, Separators);
  }

  lemma SampleMembers()
    ensures CommandMethods(MainWindowViewModel.methods) == [(Submit, SubmitAttribute)]
    ensures DependsOnProperties(MainWindowViewModel.properties) == [(FullName, FullName.dependsOn.value)]
    ensures PresentEntries(FullName.dependsOn.value.properties) == ["FirstName", "LastName"]
  {
    var ps := FullName.dependsOn.value.properties;
    assert ps[..1] == [Some("FirstName")];
    assert ps[..1][..0] == [];
  }

  /** Each of the two names is mentioned once by `Submit` and once by `FullName`. */
  lemma SampleOccurrences(k: string)
    requires k == "FirstName" || k == "LastName"
    ensures Occurrences(["FirstName", "LastName"], k) == 1
  {
    var ks: seq<string> := ["FirstName", "LastName"];
    assert ks[..1] == ["FirstName"] && ks[..1][..0] == [];
    assert "FirstName" != "LastName" by { assert "FirstName"[0] != "LastName"[0]; }
  }

  /** A class with one command method and one `[DependsOn]` property: under
      each trigger, the command once per mention, then the property once per
      mention. */
  lemma OneCommandOneProperty(c: ClassModel, k: string, cmd: (MethodDecl, GenerateCommandAttribute),
                              prop: (PropertyDecl, DependsOnAttribute))
    requires CommandMethods(c.methods) == [cmd] && DependsOnProperties(c.properties) == [prop]
    ensures Lookup(Dependencies(c), k)
         == Repeat(Target(true, CommandName(cmd.0.name, cmd.1.commandName)), Occurrences(CommandTriggers(cmd.1), k))
          + Repeat(Target(false, prop.0.name), Occurrences(PresentEntries(prop.1.properties), k))
  {
    DependenciesSpec(c, k);
    assert [cmd][..0] == [] && [prop][..0] == [];
  }

  lemma SubmitCommandName()
    ensures CommandName(Submit.name, SubmitAttribute.commandName) == "SubmitCommand"
  {
    var r := CommandName("Submit", None);
    assert r[..6] == "Submit" && r[6..] == "Command";
    assert r == r[..6] + r[6..];
  }

  /** Under each trigger of the sample, `SubmitCommand` once per mention in
      its `DependsOn`, then `FullName` once per mention in its list. */
  lemma SampleLookup(c: ClassModel, k: string)
    requires c == MainWindowViewModel
    ensures Lookup(Dependencies(c), k)
         == Repeat(Target(true, "SubmitCommand"), Occurrences(CommandTriggers(SubmitAttribute), k))
          + Repeat(Target(false, "FullName"), Occurrences(PresentEntries(FullName.dependsOn.value.properties), k))
  {
    SampleMembers();
    SubmitCommandName();
    OneCommandOneProperty(c, k, (Submit, SubmitAttribute), (FullName, FullName.dependsOn.value));
  }

  lemma SampleMentions(k: string)
    requires k == "FirstName" || k == "LastName"
    ensures Occurrences(CommandTriggers(SubmitAttribute), k) == 1
    ensures Occurrences(PresentEntries(FullName.dependsOn.value.properties), k) == 1
  {
    SubmitTriggers();
    SampleMembers();
    SampleOccurrences(k);
  }

  /** In the sample, a change of `FirstName` or `LastName` re-evaluates
      `SubmitCommand` first and then re-raises `FullName`. */
  lemma SampleDependencies(c: ClassModel, k: string)
    requires c == MainWindowViewModel
    requires k == "FirstName" || k == "LastName"
    ensures Lookup(Dependencies(c), k) == [Target(true, "SubmitCommand"), Target(false, "FullName")]
  {
    SampleLookup(c, k);
    SampleMentions(k);
    RepeatOnce(Lookup(Dependencies(c), k), Target(true, "SubmitCommand"), Target(false, "FullName"),
               Occurrences(CommandTriggers(SubmitAttribute), k),
               Occurrences(PresentEntries(FullName.dependsOn.value.properties), k));
  }

  lemma RepeatOnce<T>(s: seq<T>, a: T, b: T, m: nat, n: nat)
    requires s == Repeat(a, m) + Repeat(b, n) && m == 1 && n == 1
    ensures s == [a, b]
  {
    assert Repeat(a, 1) == [a] && Repeat(b, 1) == [b];
  }
}
