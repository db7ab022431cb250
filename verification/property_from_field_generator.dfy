/** `PropertyFromFieldGenerator`: for every class with `[GenerateProperty]`
    fields, one file adding a notifying property per kept field and, unless
    the class already implements it, the `INotifyPropertyChanged` event. A
    class nested in another type yields a null text. */
module PropertyFromFieldGenerator {
  import opened Wrappers
  import opened Grouping
  import opened SourceWriter
  import opened Symbols
  import opened Naming
  import opened Members
  import opened Outputs

  const Usings: seq<string> := ["using System.Collections.Generic;", "using System.ComponentModel;"]

  /** A field the syntax receiver collected, with its attribute, paired with
      its containing class. */
  type Site = (ClassModel, (FieldDecl, GeneratePropertyAttribute))

  /** The event and a blank line, unless the class lists `INotifyPropertyChanged`. */
  function EventMembers(c: ClassModel): seq<Doc>
  {
    if c.implementsInpc then [] else [Text(EventDeclaration), Text("")]
  }

  /** `GenerateClass`: `None` (a null string) for a class that is not declared
      directly in its namespace. */
  function GenerateClass(c: ClassModel, fields: seq<(FieldDecl, GeneratePropertyAttribute)>): Option<seq<Doc>>
  {
    if !c.topLevel then None
    else
      Some([Text(Usings[0]), Text(Usings[1]), Text(""),
            Block(NamespaceHeader(c.namespaceName),
                  [Block(ClassHeader(c.name), EventMembers(c) + Properties(fields))])])
  }

  /** The text handed to `SourceText.From` for one group, which throws on null. */
  function Source(g: Group<ClassModel, (FieldDecl, GeneratePropertyAttribute)>): Result<seq<Doc>>
  {
    match GenerateClass(g.key, g.items)
    case None => Failure(ArgumentNull("text"))
    case Some(ds) => Success(ds)
  }

  /** A group's file is named after its class. */
  function GroupName(g: Group<ClassModel, (FieldDecl, GeneratePropertyAttribute)>): string
  {
    g.key.name
  }

  /** `Execute`: the collected fields grouped by containing class, one file per class. */
  function Execute(sites: seq<Site>): Result<seq<SourceFile>>
  {
    GenerateAll(GroupPairs(sites), Source, GroupName)
  }

  // ---------------------------------------------------------------------------

  /** A class's file: none for a nested class; otherwise the usings, a blank
      line, and the namespace block around the class block, whose body is the
      event and a blank line exactly when the class lacks
      `INotifyPropertyChanged`, then four documents per kept field (the property block, a blank
      line, the hook declaration, a blank line) whose blocks are
      exactly the kept fields' properties, in order. */
  lemma GenerateClassSpec(c: ClassModel, fields: seq<(FieldDecl, GeneratePropertyAttribute)>)
    ensures GenerateClass(c, fields).None? <==> !c.topLevel
    ensures GenerateClass(c, fields).Some? ==>
      var ds := GenerateClass(c, fields).value;
      var n := if c.implementsInpc then 0 else 2;
      && |ds| == 4
      && ds[..3] == [Text(Usings[0]), Text(Usings[1]), Text("")]
      && ds[3].Block? && ds[3].header == NamespaceHeader(c.namespaceName)
      && |ds[3].body| == 1 && ds[3].body[0].Block?
      && ds[3].body[0].header == ClassHeader(c.name)
      && var body := ds[3].body[0].body;
         && |body| == n + 4 * |KeptFields(fields)|
         && (!c.implementsInpc ==> body[..2] == [Text(EventDeclaration), Text("")])
         && BlocksOf(body) == KeptProperties(KeptFields(fields))
  {
    if c.topLevel {
      var e := EventMembers(c);
      var p := Properties(fields);
      PropertiesSpec(fields);
      BlocksOfConcat(e, p);
      BlocksOfTexts(e);
      assert (e + p)[..|e|] == e;
    }
  }

  /** The run fails exactly when some collected field belongs to a nested
      class. */
  lemma ExecuteFails(sites: seq<Site>)
    ensures Execute(sites).Failure? <==> exists i :: 0 <= i < |sites| && !sites[i].0.topLevel
  {
    var gs := GroupPairs(sites);
    GenerateAllSpec(gs, Source, GroupName);
    NestedGroups(sites);
  }

  /** Some collected field's class is nested exactly when some group's text is null. */
  lemma NestedGroups(sites: seq<Site>)
    ensures (exists i :: 0 <= i < |sites| && !sites[i].0.topLevel)
        <==> exists j :: 0 <= j < |GroupPairs(sites)| && Source(GroupPairs(sites)[j]).Failure?
  {
    if exists i :: 0 <= i < |sites| && !sites[i].0.topLevel {
      var i :| 0 <= i < |sites| && !sites[i].0.topLevel;
      NestedSiteGroup(sites, i);
    }
    if exists j :: 0 <= j < |GroupPairs(sites)| && Source(GroupPairs(sites)[j]).Failure? {
      var j :| 0 <= j < |GroupPairs(sites)| && Source(GroupPairs(sites)[j]).Failure?;
      NestedGroupSite(sites, j);
    }
  }

  lemma NestedSiteGroup(sites: seq<Site>, i: nat)
    requires i < |sites| && !sites[i].0.topLevel
    ensures exists j :: 0 <= j < |GroupPairs(sites)| && Source(GroupPairs(sites)[j]).Failure?
  {
    var gs := GroupPairs(sites);
    var ks := Keys(gs);
    LookupEmptyIffAbsent(sites, sites[i].0);
    var j :| 0 <= j < |ks| && ks[j] == sites[i].0;
    assert Source(gs[j]).Failure?;
  }

  lemma NestedGroupSite(sites: seq<Site>, j: nat)
    requires j < |GroupPairs(sites)| && Source(GroupPairs(sites)[j]).Failure?
    ensures exists i :: 0 <= i < |sites| && !sites[i].0.topLevel
  {
    var gs := GroupPairs(sites);
    LookupEmptyIffAbsent(sites, gs[j].key);
    assert Keys(gs)[j] == gs[j].key;
    var i :| 0 <= i < |sites| && sites[i].0 == gs[j].key;
    assert !sites[i].0.topLevel;
  }

  /** The groups: one per distinct class, in order of the class's first
      collected field, each holding exactly that class's fields in collection
      order. */
  lemma ExecuteGroups(sites: seq<Site>)
    ensures var gs := GroupPairs(sites);
      && InFirstMentionOrder(Keys(gs), Firsts(sites))
      && forall i :: 0 <= i < |gs| ==> gs[i].items == ItemsFor(sites, gs[i].key)
  {
    GroupPairsKeys(sites);
    forall i | 0 <= i < |GroupPairs(sites)|
      ensures GroupPairs(sites)[i].items == ItemsFor(sites, GroupPairs(sites)[i].key)
    {
      GroupItems(sites, i);
    }
  }

  /** A successful run has one file per group, named after its class and
      holding that class's properties. */
  lemma ExecuteFiles(sites: seq<Site>)
    ensures var gs := GroupPairs(sites);
      Execute(sites).Success? ==>
        && |Execute(sites).value| == |gs|
        && forall i :: 0 <= i < |gs| ==>
             && GenerateClass(gs[i].key, gs[i].items).Some?
             && Execute(sites).value[i]
                == SourceFile(HintName(gs[i].key.name), Emit(GenerateClass(gs[i].key, gs[i].items).value))
  {
    GenerateAllSpec(GroupPairs(sites), Source, GroupName);
  }
}
