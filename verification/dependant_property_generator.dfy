/** `DependantPropertyGenerator`: for every class with `[DependsOn]`
    properties, one file adding `ListenForPropertyChange`, which subscribes
    `OnPropertyChanged`, and an `OnPropertyChanged` that re-raises the change of
    every property depending on the property that changed. */
module DependantPropertyGenerator {
  import opened Wrappers
  import opened Grouping
  import opened SourceWriter
  import opened Symbols
  import opened DependencyGraph
  import opened Dispatch
  import opened Members
  import opened Outputs

  const Using: string := "using System.ComponentModel;"

  /** `StartFunction("void", "ListenForPropertyChange")` around the subscription. */
  const Listen: Doc := Block(FunctionHeader("void", "ListenForPropertyChange", "", ""), [Text(Subscription)])

  /** A property the syntax receiver collected, with its attribute, paired with
      its containing class. */
  type Site = (ClassModel, (PropertyDecl, DependsOnAttribute))

  /** `GenerateDependencies`. */
  function GenerateDependencies(c: ClassModel, props: seq<(PropertyDecl, DependsOnAttribute)>): seq<Doc>
  {
    [Text(Using), Text(""),
     Block(NamespaceHeader(c.namespaceName),
           [Block(PartialClassHeader(c.name), [Listen, Text(""), DependantHandler(DependantGraph(props))])])]
  }

  function File(g: Group<ClassModel, (PropertyDecl, DependsOnAttribute)>): SourceFile
  {
    SourceFile(HintName(g.key.name), Emit(GenerateDependencies(g.key, g.items)))
  }

  /** `Execute`: nothing for no collected property; otherwise the properties
      grouped by containing class, one file per class. */
  function Execute(sites: seq<Site>): seq<SourceFile>
  {
    if |sites| == 0 then []
    else
      var gs := GroupPairs(sites);
      seq(|gs|, i requires 0 <= i < |gs| => File(gs[i]))
  }

  // ---------------------------------------------------------------------------

  /** `ListenForPropertyChange` subscribes `OnPropertyChanged` to the class's
      own `PropertyChanged` event. */
  lemma ListenSubscribes()
    ensures Listen == Block("void ListenForPropertyChange()", [Text("PropertyChanged += OnPropertyChanged;")])
  {
    assert FunctionHeader("void", "ListenForPropertyChange", "", "") == "void ListenForPropertyChange()";
  }

  /** A class's file: the using, a blank line, and the namespace block around
      the partial class, which holds `ListenForPropertyChange`, a blank line,
      and the handler. */
  lemma GenerateDependenciesSpec(c: ClassModel, props: seq<(PropertyDecl, DependsOnAttribute)>)
    ensures var ds := GenerateDependencies(c, props);
      && |ds| == 3 && ds[0] == Text(Using) && ds[1] == Text("")
      && ds[2].header == NamespaceHeader(c.namespaceName)
      && ds[2].body[0].header == PartialClassHeader(c.name)
      && var body := ds[2].body[0].body;
         && |body| == 3
         && body[..2] == [Block("void ListenForPropertyChange()", [Text("PropertyChanged += OnPropertyChanged;")]), Text("")]
  {
    ListenSubscribes();
    var body := [Listen, Text(""), DependantHandler(DependantGraph(props))];
    assert body[..2] == [Listen, Text("")];
  }

  /** The handler in a class's file reads back as the class's graph, which
      `DependantGraphSpec` describes. */
  lemma GenerateDependenciesHandler(c: ClassModel, props: seq<(PropertyDecl, DependsOnAttribute)>)
    ensures var ds := GenerateDependencies(c, props);
      && |ds| == 3 && |ds[2].body| == 1 && |ds[2].body[0].body| == 3
      && ReadHandler(ds[2].body[0].body[2], ParseInvoke) == Some(DependantGraph(props))
  {
    DependantHandlerRoundTrip(DependantGraph(props));
  }

  /** No collected property, no file; otherwise one file per distinct class,
      in order of the class's first collected property, named after the class
      and generated from exactly that class's properties in collection order. */
  lemma ExecuteSpec(sites: seq<Site>)
    ensures |sites| == 0 ==> Execute(sites) == []
    ensures |sites| > 0 ==>
      var gs := GroupPairs(sites);
      && InFirstMentionOrder(Keys(gs), Firsts(sites))
      && |Execute(sites)| == |gs|
      && forall i :: 0 <= i < |gs| ==>
           Execute(sites)[i] == SourceFile(HintName(gs[i].key.name), Emit(GenerateDependencies(gs[i].key, ItemsFor(sites, gs[i].key))))
  {
    if |sites| > 0 {
      var gs := GroupPairs(sites);
      GroupPairsKeys(sites);
      forall i | 0 <= i < |gs|
        ensures gs[i].items == ItemsFor(sites, gs[i].key)
      {
        LookupAt(gs, i);
        GroupPairsLookup(sites, gs[i].key);
      }
    }
  }
}
