/** The `OnPropertyChanged` handler both `ViewModelGenerator` and
    `DependantPropertyGenerator` emit: a `switch(e.PropertyName)` with one
    `case "K":` per graph key, in key order, holding one statement per
    dependent, in list order, and a closing `break;`. The two generators differ
    only in the statement written per dependent.

    The partner of the emitter is a reader that parses the handler back into
    the graph; the round-trip lemmas say the emitted text loses nothing and
    reorders nothing. */
module Dispatch {
  import opened Wrappers
  import opened Text
  import opened Grouping
  import opened SourceWriter
  import opened DependencyGraph

  const HandlerName: string := "OnPropertyChanged"
  const HandlerArguments: string := "object sender, PropertyChangedEventArgs e"
  const SwitchHeader: string := "switch(e.PropertyName)"
  const BreakStatement: string := "break;"

  const CasePrefix: string := "case \""
  const CaseSuffix: string := "\":"

  const CommandSuffix: string := ".RaiseCanExecuteChanged();"
  const RaisePrefix: string := "RaisePropertyChanged(nameof("
  const RaiseSuffix: string := "));"
  const InvokePrefix: string := "PropertyChanged?.Invoke(this, new PropertyChangedEventArgs(nameof("
  const InvokeSuffix: string := ")));"

  function CaseLabel(key: string): string
  {
    CasePrefix + key + CaseSuffix
  }

  /** `PropertyChanged?.Invoke(this, new PropertyChangedEventArgs(nameof(P)));`:
      the notification written by `DependantPropertyGenerator` and by every
      generated setter. */
  function InvokePropertyChanged(propertyName: string): string
  {
    InvokePrefix + propertyName + InvokeSuffix
  }

  /** `ViewModelGenerator`'s statement per dependent: a command re-evaluates
      its enablement, a property re-raises its own change. */
  function TargetStatement(t: Target): string
  {
    if t.isCommand then t.name + CommandSuffix else RaisePrefix + t.name + RaiseSuffix
  }

  function Statements<V>(items: seq<V>, stmt: V -> string): (ds: seq<Doc>)
    ensures |ds| == |items|
    ensures forall i :: 0 <= i < |items| ==> ds[i] == Text(stmt(items[i]))
  {
    seq(|items|, i requires 0 <= i < |items| => Text(stmt(items[i])))
  }

  function Case<V>(g: Group<string, V>, stmt: V -> string): Doc
  {
    Block(CaseLabel(g.key), Statements(g.items, stmt) + [Text(BreakStatement)])
  }

  function Cases<V>(gs: seq<Group<string, V>>, stmt: V -> string): (ds: seq<Doc>)
    ensures |ds| == |gs|
    ensures forall i :: 0 <= i < |gs| ==> ds[i] == Case(gs[i], stmt)
  {
    seq(|gs|, i requires 0 <= i < |gs| => Case(gs[i], stmt))
  }

  function Switch<V>(gs: seq<Group<string, V>>, stmt: V -> string): Doc
  {
    Block(SwitchHeader, Cases(gs, stmt))
  }

  /** `StartFunction("void", "OnPropertyChanged", "object sender, PropertyChangedEventArgs e")`
      around the switch. */
  function Handler<V>(gs: seq<Group<string, V>>, stmt: V -> string): Doc
  {
    Block(FunctionHeader("void", HandlerName, HandlerArguments, ""), [Switch(gs, stmt)])
  }

  /** `ViewModelGenerator.GenerateDependencies`. */
  function ViewModelHandler(g: Graph): Doc
  {
    Handler(g, TargetStatement)
  }

  /** The handler body of `DependantPropertyGenerator.GenerateDependencies`. */
  function DependantHandler(g: seq<Group<string, string>>): Doc
  {
    Handler(g, InvokePropertyChanged)
  }

  // ---------------------------------------------------------------------------
  // Reading a handler back.

  function ReadStatements<V>(ds: seq<Doc>, parse: string -> Option<V>): Option<seq<V>>
  {
    if |ds| == 0 then Some([])
    else
      match ds[0]
      case Block(_, _) => None
      case Text(s) =>
        match (parse(s), ReadStatements(ds[1..], parse))
        case (Some(v), Some(rest)) => Some([v] + rest)
        case _ => None
  }

  function ReadCase<V>(d: Doc, parse: string -> Option<V>): Option<Group<string, V>>
  {
    match d
    case Text(_) => None
    case Block(header, body) =>
      match StripAffixes(header, CasePrefix, CaseSuffix)
      case None => None
      case Some(key) =>
        if |body| == 0 || body[|body| - 1] != Text(BreakStatement) then None
        else
          match ReadStatements(body[..|body| - 1], parse)
          case None => None
          case Some(items) => Some(Group(key, items))
  }

  function ReadCases<V>(ds: seq<Doc>, parse: string -> Option<V>): Option<seq<Group<string, V>>>
  {
    if |ds| == 0 then Some([])
    else
      match (ReadCase(ds[0], parse), ReadCases(ds[1..], parse))
      case (Some(g), Some(rest)) => Some([g] + rest)
      case _ => None
  }

  /** Recovers the graph from an emitted handler, or `None` if it is not one. */
  function ReadHandler<V>(d: Doc, parse: string -> Option<V>): Option<seq<Group<string, V>>>
  {
    match d
    case Block(h, body) =>
      if h == FunctionHeader("void", HandlerName, HandlerArguments, "") && |body| == 1 && body[0].Block?
         && body[0].header == SwitchHeader
      then ReadCases(body[0].body, parse)
      else None
    case Text(_) => None
  }

  function ParseTarget(s: string): Option<Target>
  {
    match StripAffixes(s, "", CommandSuffix)
    case Some(n) => Some(Target(true, n))
    case None =>
      match StripAffixes(s, RaisePrefix, RaiseSuffix)
      case Some(n) => Some(Target(false, n))
      case None => None
  }

  function ParseInvoke(s: string): Option<string>
  {
    StripAffixes(s, InvokePrefix, InvokeSuffix)
  }

  lemma {:induction false} ReadStatementsRoundTrip<V>(items: seq<V>, stmt: V -> string, parse: string -> Option<V>)
    requires forall v :: parse(stmt(v)) == Some(v)
    ensures ReadStatements(Statements(items, stmt), parse) == Some(items)
    decreases |items|
  {
    if |items| > 0 {
      assert Statements(items, stmt)[1..] == Statements(items[1..], stmt);
      ReadStatementsRoundTrip(items[1..], stmt, parse);
      assert [items[0]] + items[1..] == items;
    }
  }

  lemma ReadCaseRoundTrip<V>(g: Group<string, V>, stmt: V -> string, parse: string -> Option<V>)
    requires forall v :: parse(stmt(v)) == Some(v)
    ensures ReadCase(Case(g, stmt), parse) == Some(g)
  {
    StripAffixesOfWrapped(CasePrefix, g.key, CaseSuffix);
    var body := Statements(g.items, stmt) + [Text(BreakStatement)];
    assert body[..|body| - 1] == Statements(g.items, stmt);
    ReadStatementsRoundTrip(g.items, stmt, parse);
  }

  lemma {:induction false} ReadCasesRoundTrip<V>(gs: seq<Group<string, V>>, stmt: V -> string, parse: string -> Option<V>)
    requires forall v :: parse(stmt(v)) == Some(v)
    ensures ReadCases(Cases(gs, stmt), parse) == Some(gs)
    decreases |gs|
  {
    if |gs| > 0 {
      assert Cases(gs, stmt)[1..] == Cases(gs[1..], stmt);
      ReadCaseRoundTrip(gs[0], stmt, parse);
      ReadCasesRoundTrip(gs[1..], stmt, parse);
      assert [gs[0]] + gs[1..] == gs;
    }
  }

  /** A handler emitted with a statement form the parser inverts reads back
      as exactly the graph it was emitted from: every key, every dependent,
      in order. */
  lemma HandlerRoundTrip<V>(gs: seq<Group<string, V>>, stmt: V -> string, parse: string -> Option<V>)
    requires forall v :: parse(stmt(v)) == Some(v)
    ensures ReadHandler(Handler(gs, stmt), parse) == Some(gs)
  {
    ReadCasesRoundTrip(gs, stmt, parse);
  }

  /** The two statement forms of `ViewModelGenerator` never read as each
      other: a command statement ends in `();`, a property statement in `));`. */
  lemma ParseTargetStatement(t: Target)
    ensures ParseTarget(TargetStatement(t)) == Some(t)
  {
    var s := TargetStatement(t);
    if t.isCommand {
      StripAffixesOfWrapped("", t.name, CommandSuffix);
      assert "" + t.name + CommandSuffix == s;
    } else {
      StripAffixesOfWrapped(RaisePrefix, t.name, RaiseSuffix);
      assert s[|s| - 3] == ')';
      if |s| >= |CommandSuffix| {
        assert s[|s| - |CommandSuffix|..][|CommandSuffix| - 3] == s[|s| - 3];
        assert s[|s| - |CommandSuffix|..] != CommandSuffix;
      }
    }
  }

  lemma ParseInvokeStatement(p: string)
    ensures ParseInvoke(InvokePropertyChanged(p)) == Some(p)
  {
    StripAffixesOfWrapped(InvokePrefix, p, InvokeSuffix);
  }

  /** `ViewModelGenerator`'s handler reads back as its dependency graph. */
  lemma ViewModelHandlerRoundTrip(g: Graph)
    ensures ReadHandler(ViewModelHandler(g), ParseTarget) == Some(g)
  {
    forall t: Target
      ensures ParseTarget(TargetStatement(t)) == Some(t)
    {
      ParseTargetStatement(t);
    }
    HandlerRoundTrip(g, TargetStatement, ParseTarget);
  }

  /** `DependantPropertyGenerator`'s handler reads back as its graph. */
  lemma DependantHandlerRoundTrip(g: seq<Group<string, string>>)
    ensures ReadHandler(DependantHandler(g), ParseInvoke) == Some(g)
  {
    forall p: string
      ensures ParseInvoke(InvokePropertyChanged(p)) == Some(p)
    {
      ParseInvokeStatement(p);
    }
    HandlerRoundTrip(g, InvokePropertyChanged, ParseInvoke);
  }

  // ---------------------------------------------------------------------------
  // The lines of one case.

  function StatementLines<V>(items: seq<V>, stmt: V -> string, indent: nat): (ls: seq<Line>)
    ensures |ls| == |items|
  {
    seq(|items|, i requires 0 <= i < |items| => Line(indent, stmt(items[i])))
  }

  lemma {:induction false} StatementsFlatten<V>(items: seq<V>, stmt: V -> string, indent: nat)
    ensures FlattenAll(Statements(items, stmt), indent) == StatementLines(items, stmt, indent)
    decreases |items|
  {
    if |items| > 0 {
      assert Statements(items, stmt)[1..] == Statements(items[1..], stmt);
      StatementsFlatten(items[1..], stmt, indent);
      assert StatementLines(items, stmt, indent)
          == [Line(indent, stmt(items[0]))] + StatementLines(items[1..], stmt, indent);
    }
  }

  lemma {:induction false} FlattenAllConcat(a: seq<Doc>, b: seq<Doc>, indent: nat)
    ensures FlattenAll(a + b, indent) == FlattenAll(a, indent) + FlattenAll(b, indent)
    decreases |a|
  {
    if |a| == 0 {
      assert a + b == b;
    } else {
      assert (a + b)[0] == a[0];
      assert (a + b)[1..] == a[1..] + b;
      FlattenAllConcat(a[1..], b, indent);
    }
  }

  /** A case is written as its label and `{` at the case indent, one line per
      dependent and `break;` one level deeper, and `}` back at the case indent. */
  lemma CaseLines<V>(g: Group<string, V>, stmt: V -> string, indent: nat)
    ensures Flatten(Case(g, stmt), indent)
         == [Line(indent, CaseLabel(g.key)), Line(indent, OpenBrace)]
            + StatementLines(g.items, stmt, indent + 1)
            + [Line(indent + 1, BreakStatement), Line(indent, CloseBrace)]
  {
    FlattenAllConcat(Statements(g.items, stmt), [Text(BreakStatement)], indent + 1);
    StatementsFlatten(g.items, stmt, indent + 1);
  }
}
