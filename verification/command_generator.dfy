/** `CommandGenerator`: for every class with `[GenerateCommand]` methods, one
    file adding, per method, an `ICommand` field and a lazily created `ICommand`
    property. A method with more than one parameter is reported as `SG001` and
    still gets a (non-generic) command. */
module CommandGenerator {
  import opened Wrappers
  import opened Grouping
  import opened SourceWriter
  import opened Symbols
  import opened Naming
  import opened Members
  import opened Commands
  import opened Outputs

  datatype Severity = Hidden | Info | Warning | Error

  /** A reported diagnostic: its descriptor and the method it is reported at. */
  datatype Diagnostic = Diagnostic(
    id: string,
    title: string,
    messageFormat: string,
    category: string,
    severity: Severity,
    isEnabledByDefault: bool,
    methodName: string)

  /** `SG001`, reported at the method. */
  function InvalidSignature(m: MethodDecl): Diagnostic
  {
    Diagnostic("SG001", "Invalid method signature", "Method cannot contain more than 1 arguments",
               "Design", Error, true, m.name)
  }

  /** Both the field and the property are typed as the interface. */
  const CommandType: string := "ICommand"

  const Usings: seq<string> := ["using SourceGeneration.Mvvm;", "using System.Windows.Input;"]

  /** A method the syntax receiver collected, with its attribute, paired with
      its containing class. */
  type Site = (ClassModel, (MethodDecl, GenerateCommandAttribute))

  /** The per-method loop of `GenerateCommands`: the diagnostics reported and
      the members written, or the exception that ended the loop (after the
      diagnostics of the methods reached so far). */
  function GenerateCommands(c: ClassModel, ms: seq<(MethodDecl, GenerateCommandAttribute)>)
    : (r: (seq<Diagnostic>, Result<seq<Doc>>))
    decreases |ms|
  {
    if |ms| == 0 then ([], Success([]))
    else
      var m := ms[0].0;
      var reported := if |m.parameters| > 1 then [InvalidSignature(m)] else [];
      match CommandMembers(c, m, ms[0].1, CommandType)
      case Failure(e) => (reported, Failure(e))
      case Success(ds) =>
        var (more, rest) := GenerateCommands(c, ms[1..]);
        (reported + more,
         match rest
         case Failure(e) => Failure(e)
         case Success(tail) => Success(ds + tail))
  }

  /** `GenerateCommands` for one class: the usings, a blank line and the
      namespace block around the partial class. */
  function GenerateClass(c: ClassModel, ms: seq<(MethodDecl, GenerateCommandAttribute)>)
    : (seq<Diagnostic>, Result<seq<Doc>>)
  {
    var (reported, members) := GenerateCommands(c, ms);
    (reported,
     match members
     case Failure(e) => Failure(e)
     case Success(ds) =>
       Success([Text(Usings[0]), Text(Usings[1]), Text(""),
                Block(NamespaceHeader(c.namespaceName), [Block(PartialClassHeader(c.name), ds)])]))
  }

  type ClassGroup = Group<ClassModel, (MethodDecl, GenerateCommandAttribute)>

  /** `GenerateCommands` for one group of collected methods. */
  function ClassSource(g: ClassGroup): (seq<Diagnostic>, Result<seq<Doc>>)
  {
    GenerateClass(g.key, g.items)
  }

  function GroupName(g: ClassGroup): string
  {
    g.key.name
  }

  /** `Execute`: the collected methods grouped by containing class, one file
      per class in order; the diagnostics of every class reached are reported
      even when a later class throws. */
  function Execute(sites: seq<Site>): (seq<Diagnostic>, Result<seq<SourceFile>>)
  {
    GenerateAllReporting(GroupPairs(sites), ClassSource, GroupName)
  }

  // ---------------------------------------------------------------------------

  /** Reference definition: `SG001` for each method with more than one
      parameter, in order. */
  function InvalidSignatures(ms: seq<(MethodDecl, GenerateCommandAttribute)>): seq<Diagnostic>
  {
    if |ms| == 0 then []
    else (if |ms[0].0.parameters| > 1 then [InvalidSignature(ms[0].0)] else []) + InvalidSignatures(ms[1..])
  }

  /** The methods the loop reaches: all of them, or those up to and including
      the first with an empty command name. */
  function Reached(ms: seq<(MethodDecl, GenerateCommandAttribute)>): (r: seq<(MethodDecl, GenerateCommandAttribute)>)
    ensures |r| <= |ms| && r == ms[..|r|]
  {
    if |ms| == 0 then []
    else if ms[0].1.commandName == Some("") then [ms[0]]
    else [ms[0]] + Reached(ms[1..])
  }

  lemma {:induction false} ReachedAll(ms: seq<(MethodDecl, GenerateCommandAttribute)>)
    ensures Reached(ms) == ms <==> forall i :: 0 <= i < |ms| - 1 ==> ms[i].1.commandName != Some("")
    decreases |ms|
  {
    if |ms| > 0 {
      ReachedAll(ms[1..]);
      if ms[0].1.commandName == Some("") && |ms| > 1 {
        assert |Reached(ms)| == 1;
      }
      if forall i :: 0 <= i < |ms| - 1 ==> ms[i].1.commandName != Some("") {
        assert forall i :: 0 <= i < |ms[1..]| - 1 ==> ms[1..][i].1.commandName != Some("") by {
          forall i | 0 <= i < |ms[1..]| - 1
            ensures ms[1..][i].1.commandName != Some("")
          {
            assert ms[1..][i] == ms[i + 1];
          }
        }
      }
      if Reached(ms) == ms && |ms| > 1 {
        assert ms[0].1.commandName != Some("");
        forall i | 0 <= i < |ms| - 1
          ensures ms[i].1.commandName != Some("")
        {
          if i > 0 {
            assert ms[i] == ms[1..][i - 1];
          }
        }
      }
    }
  }

  /** The loop over one class's methods fails exactly when some command name
      is empty. */
  lemma {:induction false} GenerateCommandsFails(c: ClassModel, ms: seq<(MethodDecl, GenerateCommandAttribute)>)
    ensures GenerateCommands(c, ms).1.Failure? <==> exists i :: 0 <= i < |ms| && ms[i].1.commandName == Some("")
    decreases |ms|
  {
    if |ms| > 0 {
      CommandMembersSpec(c, ms[0].0, ms[0].1, CommandType);
      GenerateCommandsFails(c, ms[1..]);
      if exists i :: 0 <= i < |ms[1..]| && ms[1..][i].1.commandName == Some("") {
        var i :| 0 <= i < |ms[1..]| && ms[1..][i].1.commandName == Some("");
        assert ms[i + 1].1.commandName == Some("");
      }
      if exists i :: 0 <= i < |ms| && ms[i].1.commandName == Some("") {
        var i :| 0 <= i < |ms| && ms[i].1.commandName == Some("");
        if i > 0 {
          assert ms[1..][i - 1].1.commandName == Some("");
        }
      }
    }
  }

  /** The diagnostics of one class are `SG001` for exactly the methods with
      more than one parameter among those the loop reaches, in order. */
  lemma {:induction false} GenerateCommandsDiagnostics(c: ClassModel, ms: seq<(MethodDecl, GenerateCommandAttribute)>)
    ensures GenerateCommands(c, ms).0 == InvalidSignatures(Reached(ms))
    decreases |ms|
  {
    if |ms| > 0 {
      var m := ms[0].0;
      CommandMembersSpec(c, m, ms[0].1, CommandType);
      GenerateCommandsDiagnostics(c, ms[1..]);
      var reported := if |m.parameters| > 1 then [InvalidSignature(m)] else [];
      if ms[0].1.commandName == Some("") {
        assert Reached(ms) == [ms[0]];
        assert InvalidSignatures([ms[0]]) == reported + InvalidSignatures([ms[0]][1..]);
      } else {
        assert Reached(ms) == [ms[0]] + Reached(ms[1..]);
        assert ([ms[0]] + Reached(ms[1..]))[1..] == Reached(ms[1..]);
      }
    }
  }

  /** No diagnostic skips a method: when the loop succeeds, each method has its
      three members, in method order, typed `ICommand`. */
  lemma {:induction false} GenerateCommandsMembers(c: ClassModel, ms: seq<(MethodDecl, GenerateCommandAttribute)>)
    ensures GenerateCommands(c, ms).1.Success? ==>
      var ds := GenerateCommands(c, ms).1.value;
      && |ds| == 3 * |ms|
      && forall i :: 0 <= i < |ms| ==>
           && CommandMembers(c, ms[i].0, ms[i].1, CommandType).Success?
           && ds[3 * i..3 * i + 3] == CommandMembers(c, ms[i].0, ms[i].1, CommandType).value
    decreases |ms|
  {
    if |ms| > 0 && GenerateCommands(c, ms).1.Success? {
      GenerateCommandsMembers(c, ms[1..]);
      var first := CommandMembers(c, ms[0].0, ms[0].1, CommandType);
      var rest := GenerateCommands(c, ms[1..]).1;
      assert first.Success? && rest.Success?;
      var head := first.value;
      var tail := rest.value;
      var ds := head + tail;
      assert GenerateCommands(c, ms).1.value == ds;
      forall i | 0 <= i < |ms|
        ensures && CommandMembers(c, ms[i].0, ms[i].1, CommandType).Success?
                && ds[3 * i..3 * i + 3] == CommandMembers(c, ms[i].0, ms[i].1, CommandType).value
      {
        ChunkAt(head, tail, i);
        if i > 0 {
          assert ms[i] == ms[1..][i - 1];
        }
      }
    }
  }

  /** A method with two or more parameters is reported and still gets a
      command, a plain (non-generic) one. */
  lemma InvalidSignatureStillGenerates(c: ClassModel, m: MethodDecl, a: GenerateCommandAttribute)
    requires |m.parameters| > 1 && a.commandName != Some("")
    requires PlainName(m.name) && (HasCanExecute(c, m, a) ==> PlainName(CanExecuteName(m.name, a.canExecuteName)))
    ensures GenerateCommands(c, [(m, a)]).0 == [InvalidSignature(m)]
    ensures GenerateCommands(c, [(m, a)]).1 == CommandMembers(c, m, a, CommandType)
    ensures GenerateCommands(c, [(m, a)]).1.Success?
    ensures ParseCreation(CreationText(c, m, a)).Some?
    ensures ParseCreation(CreationText(c, m, a)).value.typeArgument == None
  {
    CommandMembersSpec(c, m, a, CommandType);
    CreationSpec(c, m, a);
    var ds := CommandMembers(c, m, a, CommandType).value;
    assert [(m, a)][1..] == [];
    assert ds + [] == ds;
  }

  /** One class fails exactly when one of its methods has an empty command name. */
  lemma ClassSourceFails(g: ClassGroup)
    ensures ClassSource(g).1.Failure? <==> exists i :: 0 <= i < |g.items| && g.items[i].1.commandName == Some("")
  {
    GenerateCommandsFails(g.key, g.items);
  }

  /** A collected method with an empty command name makes its class fail. */
  lemma EmptyNameSiteGroup(sites: seq<Site>, i: nat)
    requires i < |sites| && sites[i].1.1.commandName == Some("")
    ensures exists j :: 0 <= j < |GroupPairs(sites)| && ClassSource(GroupPairs(sites)[j]).1.Failure?
  {
    var gs := GroupPairs(sites);
    var k := sites[i].0;
    LookupEmptyIffAbsent(sites, k);
    var j :| 0 <= j < |Keys(gs)| && Keys(gs)[j] == k;
    GroupItems(sites, j);
    ItemsForMembers(sites, k, sites[i].1);
    var t :| 0 <= t < |gs[j].items| && gs[j].items[t] == sites[i].1;
    ClassSourceFails(gs[j]);
  }

  /** A class that fails has a collected method with an empty command name. */
  lemma EmptyNameGroupSite(sites: seq<Site>, j: nat)
    requires j < |GroupPairs(sites)| && ClassSource(GroupPairs(sites)[j]).1.Failure?
    ensures exists i :: 0 <= i < |sites| && sites[i].1.1.commandName == Some("")
  {
    var g := GroupPairs(sites)[j];
    ClassSourceFails(g);
    var t :| 0 <= t < |g.items| && g.items[t].1.commandName == Some("");
    GroupItems(sites, j);
    ItemsForMembers(sites, g.key, g.items[t]);
    var i :| 0 <= i < |sites| && sites[i] == (g.key, g.items[t]);
  }

  /** End to end: the run throws exactly when some collected method has an
      empty command name. */
  lemma ExecuteFails(sites: seq<Site>)
    ensures Execute(sites).1.Failure? <==> exists i :: 0 <= i < |sites| && sites[i].1.1.commandName == Some("")
  {
    var gs := GroupPairs(sites);
    GenerateAllReportingFails(gs, ClassSource, GroupName);
    if exists i :: 0 <= i < |sites| && sites[i].1.1.commandName == Some("") {
      var i :| 0 <= i < |sites| && sites[i].1.1.commandName == Some("");
      EmptyNameSiteGroup(sites, i);
    }
    if exists j :: 0 <= j < |gs| && ClassSource(gs[j]).1.Failure? {
      var j :| 0 <= j < |gs| && ClassSource(gs[j]).1.Failure?;
      EmptyNameGroupSite(sites, j);
    }
  }

  /** The groups: one per distinct containing class, in order of each
      class's first collected method, each holding exactly the methods of that
      class in collection order. */
  lemma ExecuteGroups(sites: seq<Site>)
    ensures var gs := GroupPairs(sites);
      && InFirstMentionOrder(Keys(gs), Firsts(sites))
      && forall i :: 0 <= i < |gs| ==> gs[i].items == ItemsFor(sites, gs[i].key)
  {
    GroupPairsKeys(sites);
    forall i | 0 <= i < |GroupPairs(sites)|
      ensures GroupPairs(sites)[i].items == ItemsFor(sites, GroupPairs(sites)[i].key)
    {
      GroupItems(sites, i);
    }
  }

  /** A successful run has one file per group, named after its class and
      holding that class's members, and reports every class's diagnostics in
      group order. */
  lemma ExecuteSpec(sites: seq<Site>)
    ensures var gs := GroupPairs(sites);
      Execute(sites).1.Success? ==>
        && Execute(sites).0 == AllReported(gs, ClassSource)
        && |Execute(sites).1.value| == |gs|
        && forall i :: 0 <= i < |gs| ==>
             && GenerateClass(gs[i].key, gs[i].items).1.Success?
             && Execute(sites).1.value[i]
                == SourceFile(HintName(gs[i].key.name), Emit(GenerateClass(gs[i].key, gs[i].items).1.value))
  {
    GenerateAllReportingFiles(GroupPairs(sites), ClassSource, GroupName);
  }
}
