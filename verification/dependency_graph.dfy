/** The dependency graph of a view model: for each trigger property name, the
    dependents to re-notify when it changes, in a fixed order. Command
    `DependsOn` strings contribute first (split on `,` and `;`, nothing
    trimmed, empty segments kept), then property `[DependsOn(...)]` lists
    (null entries skipped). Keys are created on first mention; targets are
    appended and never de-duplicated. */
module DependencyGraph {
  import opened Wrappers
  import opened Text
  import opened Grouping
  import opened Symbols
  import opened Naming

  /** `Tuple<bool, string>`: a command whose enablement is re-evaluated, or a
      property whose change notification is re-raised. */
  datatype Target = Target(isCommand: bool, name: string)

  type Graph = seq<Group<string, Target>>

  /** The characters a command's `DependsOn` string is split on. */
  const Separators: set<char> := {',', ';'}

  /** The trigger names a command's `DependsOn` lists; none when it is null. */
  function CommandTriggers(a: GenerateCommandAttribute): (ks: seq<string>)
    ensures a.dependsOn.Some? ==> |ks| == CountAny(a.dependsOn.value, Separators) + 1
  {
    match a.dependsOn
    case None => []
    case Some(d) => Split(d, Separators)
  }

  /** The non-null entries of a `[DependsOn]` list, in order. */
  function PresentEntries(entries: seq<Option<string>>): (ks: seq<string>)
    ensures |ks| <= |entries|
  {
    if |entries| == 0 then []
    else
      var last := entries[|entries| - 1];
      PresentEntries(entries[..|entries| - 1]) + (if last.Some? then [last.value] else [])
  }

  /** Each key paired with the same value, in key order. */
  function Under<T>(keys: seq<string>, t: T): (ps: seq<(string, T)>)
    ensures |ps| == |keys|
  {
    if |keys| == 0 then [] else Under(keys[..|keys| - 1], t) + [(keys[|keys| - 1], t)]
  }

  /** The command contributions, as (trigger, target) in the order they are added. */
  function CommandEdges(cmds: seq<(MethodDecl, GenerateCommandAttribute)>): seq<(string, Target)>
  {
    if |cmds| == 0 then []
    else
      var last := cmds[|cmds| - 1];
      CommandEdges(cmds[..|cmds| - 1])
        + Under(CommandTriggers(last.1), Target(true, CommandName(last.0.name, last.1.commandName)))
  }

  /** The property contributions, as (trigger, target) in the order they are added. */
  function PropertyEdges(props: seq<(PropertyDecl, DependsOnAttribute)>): seq<(string, Target)>
  {
    if |props| == 0 then []
    else
      var last := props[|props| - 1];
      PropertyEdges(props[..|props| - 1]) + Under(PresentEntries(last.1.properties), Target(false, last.0.name))
  }

  function Edges(c: ClassModel): seq<(string, Target)>
  {
    CommandEdges(CommandMethods(c.methods)) + PropertyEdges(DependsOnProperties(c.properties))
  }

  /** The graph `ViewModelGenerator.GenerateClass` builds for a class. */
  function Dependencies(c: ClassModel): (g: Graph)
    ensures DistinctKeys(g)
  {
    GroupPairs(Edges(c))
  }

  // ---------------------------------------------------------------------------
  // Reference definitions, stated per trigger and without the graph.

  /** How many times `k` occurs in `ks`. */
  function Occurrences(ks: seq<string>, k: string): nat
  {
    if |ks| == 0 then 0
    else Occurrences(ks[..|ks| - 1], k) + (if ks[|ks| - 1] == k then 1 else 0)
  }

  function Repeat<T>(t: T, n: nat): (r: seq<T>)
    ensures |r| == n && forall i :: 0 <= i < n ==> r[i] == t
  {
    seq(n, _ => t)
  }

  /** Under trigger `k`: each command once per mention of `k` in its `DependsOn`, in method order. */
  function CommandTargets(cmds: seq<(MethodDecl, GenerateCommandAttribute)>, k: string): seq<Target>
  {
    if |cmds| == 0 then []
    else
      var last := cmds[|cmds| - 1];
      CommandTargets(cmds[..|cmds| - 1], k)
        + Repeat(Target(true, CommandName(last.0.name, last.1.commandName)), Occurrences(CommandTriggers(last.1), k))
  }

  /** Under trigger `k`: each property once per mention of `k` in its list, in property order. */
  function PropertyTargets(props: seq<(PropertyDecl, DependsOnAttribute)>, k: string): seq<Target>
  {
    if |props| == 0 then []
    else
      var last := props[|props| - 1];
      PropertyTargets(props[..|props| - 1], k)
        + Repeat(Target(false, last.0.name), Occurrences(PresentEntries(last.1.properties), k))
  }

  /** Every trigger mention, commands first, in the order `GenerateClass` visits them. */
  function CommandMentions(cmds: seq<(MethodDecl, GenerateCommandAttribute)>): seq<string>
  {
    if |cmds| == 0 then [] else CommandMentions(cmds[..|cmds| - 1]) + CommandTriggers(cmds[|cmds| - 1].1)
  }

  function PropertyMentions(props: seq<(PropertyDecl, DependsOnAttribute)>): seq<string>
  {
    if |props| == 0 then [] else PropertyMentions(props[..|props| - 1]) + PresentEntries(props[|props| - 1].1.properties)
  }

  function Mentions(c: ClassModel): seq<string>
  {
    CommandMentions(CommandMethods(c.methods)) + PropertyMentions(DependsOnProperties(c.properties))
  }

  // ---------------------------------------------------------------------------
  // The edges agree with the reference definitions.

  lemma {:induction false} UnderItems<T>(keys: seq<string>, t: T, k: string)
    ensures ItemsFor(Under(keys, t), k) == Repeat(t, Occurrences(keys, k))
    decreases |keys|
  {
    if |keys| > 0 {
      var init := keys[..|keys| - 1];
      UnderItems(init, t, k);
      ItemsForConcat(Under(init, t), [(keys[|keys| - 1], t)], k);
    }
  }

  lemma FirstsConcat<K, V>(a: seq<(K, V)>, b: seq<(K, V)>)
    ensures Firsts(a + b) == Firsts(a) + Firsts(b)
  {
  }

  lemma {:induction false} UnderFirsts<T>(keys: seq<string>, t: T)
    ensures Firsts(Under(keys, t)) == keys
    decreases |keys|
  {
    if |keys| > 0 {
      var init := keys[..|keys| - 1];
      UnderFirsts(init, t);
      FirstsConcat(Under(init, t), [(keys[|keys| - 1], t)]);
      assert keys == init + [keys[|keys| - 1]];
    }
  }

  lemma {:induction false} CommandEdgesItems(cmds: seq<(MethodDecl, GenerateCommandAttribute)>, k: string)
    ensures ItemsFor(CommandEdges(cmds), k) == CommandTargets(cmds, k)
    ensures Firsts(CommandEdges(cmds)) == CommandMentions(cmds)
    decreases |cmds|
  {
    if |cmds| > 0 {
      var init := cmds[..|cmds| - 1];
      var last := cmds[|cmds| - 1];
      var t := Target(true, CommandName(last.0.name, last.1.commandName));
      CommandEdgesItems(init, k);
      ItemsForConcat(CommandEdges(init), Under(CommandTriggers(last.1), t), k);
      UnderItems(CommandTriggers(last.1), t, k);
      FirstsConcat(CommandEdges(init), Under(CommandTriggers(last.1), t));
      UnderFirsts(CommandTriggers(last.1), t);
    }
  }

  lemma {:induction false} PropertyEdgesItems(props: seq<(PropertyDecl, DependsOnAttribute)>, k: string)
    ensures ItemsFor(PropertyEdges(props), k) == PropertyTargets(props, k)
    ensures Firsts(PropertyEdges(props)) == PropertyMentions(props)
    decreases |props|
  {
    if |props| > 0 {
      var init := props[..|props| - 1];
      var last := props[|props| - 1];
      var t := Target(false, last.0.name);
      PropertyEdgesItems(init, k);
      ItemsForConcat(PropertyEdges(init), Under(PresentEntries(last.1.properties), t), k);
      UnderItems(PresentEntries(last.1.properties), t, k);
      FirstsConcat(PropertyEdges(init), Under(PresentEntries(last.1.properties), t));
      UnderFirsts(PresentEntries(last.1.properties), t);
    }
  }

  /** The graph of a class: under each trigger, the command targets (method
      order, once per mention) followed by the property targets (property
      order, once per mention); keys once each, in order of first mention. */
  lemma DependenciesSpec(c: ClassModel, k: string)
    ensures Lookup(Dependencies(c), k)
         == CommandTargets(CommandMethods(c.methods), k) + PropertyTargets(DependsOnProperties(c.properties), k)
    ensures InFirstMentionOrder(Keys(Dependencies(c)), Mentions(c))
  {
    var ce := CommandEdges(CommandMethods(c.methods));
    var pe := PropertyEdges(DependsOnProperties(c.properties));
    GroupPairsLookup(ce + pe, k);
    ItemsForConcat(ce, pe, k);
    CommandEdgesItems(CommandMethods(c.methods), k);
    PropertyEdgesItems(DependsOnProperties(c.properties), k);
    GroupPairsKeys(ce + pe);
    FirstsConcat(ce, pe);
  }

  lemma AddLast(before: seq<(string, Target)>, keys: seq<string>, k: string, t: Target)
    ensures GroupPairs(before + Under(keys + [k], t)) == Append(GroupPairs(before + Under(keys, t)), k, t)
  {
    assert (keys + [k])[..|keys|] == keys;
    assert before + Under(keys + [k], t) == (before + Under(keys, t)) + [(k, t)];
    GroupPairsSnoc(before + Under(keys, t), (k, t));
  }

  lemma AddOne(before: seq<(string, Target)>, keys: seq<string>, j: nat, t: Target)
    requires j < |keys|
    ensures GroupPairs(before + Under(keys[..j + 1], t))
         == Append(GroupPairs(before + Under(keys[..j], t)), keys[j], t)
  {
    assert keys[..j + 1] == keys[..j] + [keys[j]];
    AddLast(before, keys[..j], keys[j], t);
  }

  lemma AddEntry(before: seq<(string, Target)>, entries: seq<Option<string>>, j: nat, t: Target)
    requires j < |entries|
    ensures GroupPairs(before + Under(PresentEntries(entries[..j + 1]), t))
         == if entries[j].Some?
            then Append(GroupPairs(before + Under(PresentEntries(entries[..j]), t)), entries[j].value, t)
            else GroupPairs(before + Under(PresentEntries(entries[..j]), t))
  {
    var ks := PresentEntries(entries[..j]);
    var ks' := PresentEntries(entries[..j + 1]);
    PresentEntriesStep(entries, j);
    if entries[j].Some? {
      assert ks' == ks + [entries[j].value];
      AddLast(before, ks, entries[j].value, t);
    } else {
      assert ks' == ks;
    }
  }

  lemma PresentEntriesStep(entries: seq<Option<string>>, j: nat)
    requires j < |entries|
    ensures PresentEntries(entries[..j + 1])
         == PresentEntries(entries[..j]) + (if entries[j].Some? then [entries[j].value] else [])
  {
    assert entries[..j + 1][..j] == entries[..j];
  }

  lemma CommandEdgesStep(cmds: seq<(MethodDecl, GenerateCommandAttribute)>, i: nat)
    requires i < |cmds|
    ensures CommandEdges(cmds[..i + 1])
         == CommandEdges(cmds[..i]) + Under(CommandTriggers(cmds[i].1), Target(true, CommandName(cmds[i].0.name, cmds[i].1.commandName)))
  {
    assert cmds[..i + 1][..i] == cmds[..i];
  }

  lemma PropertyEdgesStep(before: seq<(string, Target)>, props: seq<(PropertyDecl, DependsOnAttribute)>, i: nat)
    requires i < |props|
    ensures before + PropertyEdges(props[..i + 1])
         == (before + PropertyEdges(props[..i])) + Under(PresentEntries(props[i].1.properties), Target(false, props[i].0.name))
  {
    assert props[..i + 1][..i] == props[..i];
  }

  /** One inner loop of the builder: every key, in order, gets `t` appended. */
  method AddUnder(g: Graph, before: seq<(string, Target)>, keys: seq<string>, t: Target) returns (r: Graph)
    requires g == GroupPairs(before)
    ensures r == GroupPairs(before + Under(keys, t))
  {
    r := g;
    assert before + Under(keys[..0], t) == before;
    for j := 0 to |keys|
      invariant r == GroupPairs(before + Under(keys[..j], t))
    {
      AddOne(before, keys, j, t);
      r := Append(r, keys[j], t);
    }
    assert keys[..|keys|] == keys;
  }

  /** The property inner loop: null entries are skipped, every other entry
      gets `t` appended. */
  method AddEntries(g: Graph, before: seq<(string, Target)>, entries: seq<Option<string>>, t: Target) returns (r: Graph)
    requires g == GroupPairs(before)
    ensures r == GroupPairs(before + Under(PresentEntries(entries), t))
  {
    r := g;
    assert before + Under(PresentEntries(entries[..0]), t) == before;
    for j := 0 to |entries|
      invariant r == GroupPairs(before + Under(PresentEntries(entries[..j]), t))
    {
      AddEntry(before, entries, j, t);
      if entries[j].Some? {
        r := Append(r, entries[j].value, t);
      }
    }
    assert entries[..|entries|] == entries;
  }

  /** The command loop of `ViewModelGenerator.GenerateClass`: in method
      order, each `DependsOn` is split and every segment keyed. */
  method AddCommands(cmds: seq<(MethodDecl, GenerateCommandAttribute)>) returns (g: Graph)
    ensures g == GroupPairs(CommandEdges(cmds))
  {
    g := [];
    for i := 0 to |cmds|
      invariant g == GroupPairs(CommandEdges(cmds[..i]))
    {
      var before := CommandEdges(cmds[..i]);
      var a := cmds[i].1;
      var t := Target(true, CommandName(cmds[i].0.name, a.commandName));
      CommandEdgesStep(cmds, i);
      g := AddUnder(g, before, CommandTriggers(a), t);
    }
    assert cmds[..|cmds|] == cmds;
  }

  /** The property loop: the non-null entries of every `[DependsOn]` property. */
  method AddProperties(g: Graph, before: seq<(string, Target)>, props: seq<(PropertyDecl, DependsOnAttribute)>)
    returns (r: Graph)
    requires g == GroupPairs(before)
    ensures r == GroupPairs(before + PropertyEdges(props))
  {
    r := g;
    assert before + PropertyEdges(props[..0]) == before;
    for i := 0 to |props|
      invariant r == GroupPairs(before + PropertyEdges(props[..i]))
    {
      PropertyEdgesStep(before, props, i);
      r := AddEntries(r, before + PropertyEdges(props[..i]), props[i].1.properties, Target(false, props[i].0.name));
    }
    assert props[..|props|] == props;
  }

  /** The graph the generator builds for a class: keys once each in order of
      first mention; under each trigger the command targets (method order,
      once per mention) and then the property targets (property order, once
      per mention). */
  method BuildDependencies(c: ClassModel) returns (g: Graph)
    ensures DistinctKeys(g)
    ensures forall k :: Lookup(g, k) == CommandTargets(CommandMethods(c.methods), k)
                                         + PropertyTargets(DependsOnProperties(c.properties), k)
    ensures InFirstMentionOrder(Keys(g), Mentions(c))
  {
    var ce := AddCommands(CommandMethods(c.methods));
    g := AddProperties(ce, CommandEdges(CommandMethods(c.methods)), DependsOnProperties(c.properties));
    forall k
      ensures Lookup(g, k) == CommandTargets(CommandMethods(c.methods), k)
                              + PropertyTargets(DependsOnProperties(c.properties), k)
    {
      DependenciesSpec(c, k);
    }
    DependenciesSpec(c, "");
  }

  // ---------------------------------------------------------------------------
  // DependantPropertyGenerator's graph: property names only.

  /** (trigger, property name) pairs of the `[DependsOn]` properties, in order. */
  function DependantEdges(props: seq<(PropertyDecl, DependsOnAttribute)>): seq<(string, string)>
  {
    if |props| == 0 then []
    else
      var last := props[|props| - 1];
      DependantEdges(props[..|props| - 1]) + Under(PresentEntries(last.1.properties), last.0.name)
  }

  /** The `Dictionary<string, List<string>>` `DependantPropertyGenerator` builds. */
  function DependantGraph(props: seq<(PropertyDecl, DependsOnAttribute)>): (g: seq<Group<string, string>>)
    ensures DistinctKeys(g)
  {
    GroupPairs(DependantEdges(props))
  }

  function PropertyTarget(name: string): Target
  {
    Target(false, name)
  }

  function AsPropertyTargets(names: seq<string>): (ts: seq<Target>)
    ensures |ts| == |names| && forall i :: 0 <= i < |names| ==> ts[i] == Target(false, names[i])
  {
    seq(|names|, i requires 0 <= i < |names| => PropertyTarget(names[i]))
  }

  lemma {:induction false} DependantEdgesItems(props: seq<(PropertyDecl, DependsOnAttribute)>, k: string)
    ensures AsPropertyTargets(ItemsFor(DependantEdges(props), k)) == PropertyTargets(props, k)
    decreases |props|
  {
    if |props| > 0 {
      var init := props[..|props| - 1];
      var last := props[|props| - 1];
      var keys := PresentEntries(last.1.properties);
      DependantEdgesItems(init, k);
      ItemsForConcat(DependantEdges(init), Under(keys, last.0.name), k);
      UnderItems(keys, last.0.name, k);
    }
  }

  lemma {:induction false} DependantEdgesFirsts(props: seq<(PropertyDecl, DependsOnAttribute)>)
    ensures Firsts(DependantEdges(props)) == PropertyMentions(props)
    decreases |props|
  {
    if |props| > 0 {
      var init := props[..|props| - 1];
      var last := props[|props| - 1];
      var keys := PresentEntries(last.1.properties);
      DependantEdgesFirsts(init);
      FirstsConcat(DependantEdges(init), Under(keys, last.0.name));
      UnderFirsts(keys, last.0.name);
    }
  }

  /** `DependantPropertyGenerator`'s graph: keys once each, in order of first
      mention; under each trigger, the name of every property listing it, in
      property order, once per listing. */
  lemma DependantGraphSpec(props: seq<(PropertyDecl, DependsOnAttribute)>, k: string)
    ensures InFirstMentionOrder(Keys(DependantGraph(props)), PropertyMentions(props))
    ensures AsPropertyTargets(Lookup(DependantGraph(props), k)) == PropertyTargets(props, k)
  {
    GroupPairsKeys(DependantEdges(props));
    DependantEdgesFirsts(props);
    GroupPairsLookup(DependantEdges(props), k);
    DependantEdgesItems(props, k);
  }

  /** The two generators agree on property dependents: a class without
      commands gets, under every trigger, exactly the targets
      `DependantPropertyGenerator` lists, in the same order. */
  lemma DependantAgreesWithViewModel(c: ClassModel, k: string)
    ensures CommandMethods(c.methods) == [] ==>
      Lookup(Dependencies(c), k) == AsPropertyTargets(Lookup(DependantGraph(DependsOnProperties(c.properties)), k))
  {
    var props := DependsOnProperties(c.properties);
    GroupPairsLookup(DependantEdges(props), k);
    DependantEdgesItems(props, k);
    DependenciesSpec(c, k);
    if CommandMethods(c.methods) == [] {
      assert CommandTargets(CommandMethods(c.methods), k) == [];
    }
  }
}
