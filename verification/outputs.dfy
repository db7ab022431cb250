/** What a generator run hands to the compiler: one source file per generated
    class, added under a hint name derived from the class name. */
module Outputs {
  import opened Wrappers
  import opened SourceWriter

  /** A source added with `context.AddSource(hintName, text)`. */
  datatype SourceFile = SourceFile(hintName: string, lines: seq<Line>)

  /** `$"{className}.g.cs"`. */
  function HintName(className: string): string
  {
    className + ".g.cs"
  }

  /** The loop of `Execute`: generates each item in turn and adds its file; an
      exception thrown for any item ends the run. */
  function GenerateAll<C>(items: seq<C>, generate: C -> Result<seq<Doc>>, name: C -> string): Result<seq<SourceFile>>
  {
    if |items| == 0 then Success([])
    else
      match generate(items[0])
      case Failure(e) => Failure(e)
      case Success(ds) =>
        match GenerateAll(items[1..], generate, name)
        case Failure(e) => Failure(e)
        case Success(rest) => Success([SourceFile(HintName(name(items[0])), Emit(ds))] + rest)
  }

  /** One file per item, named after it, in input order; the run fails exactly
      when some item fails. */
  lemma {:induction false} GenerateAllSpec<C>(items: seq<C>, generate: C -> Result<seq<Doc>>, name: C -> string)
    ensures GenerateAll(items, generate, name).Failure? <==> exists i :: 0 <= i < |items| && generate(items[i]).Failure?
    ensures GenerateAll(items, generate, name).Success? ==>
      && |GenerateAll(items, generate, name).value| == |items|
      && forall i :: 0 <= i < |items| ==>
           && generate(items[i]).Success?
           && GenerateAll(items, generate, name).value[i] == SourceFile(HintName(name(items[i])), Emit(generate(items[i]).value))
    decreases |items|
  {
    if |items| > 0 {
      GenerateAllSpec(items[1..], generate, name);
      if exists i :: 0 <= i < |items[1..]| && generate(items[1..][i]).Failure? {
        var i :| 0 <= i < |items[1..]| && generate(items[1..][i]).Failure?;
        assert generate(items[i + 1]).Failure?;
      }
      if exists i :: 0 <= i < |items| && generate(items[i]).Failure? {
        var i :| 0 <= i < |items| && generate(items[i]).Failure?;
        if i > 0 {
          assert generate(items[1..][i - 1]).Failure?;
        }
      }
      if GenerateAll(items, generate, name).Success? {
        var r := GenerateAll(items, generate, name).value;
        forall i | 0 <= i < |items|
          ensures generate(items[i]).Success? && r[i] == SourceFile(HintName(name(items[i])), Emit(generate(items[i]).value))
        {
          if i > 0 {
            assert r[i] == GenerateAll(items[1..], generate, name).value[i - 1];
          }
        }
      }
    }
  }

  /** The same loop for a generator that also reports diagnostics: those of
      every item reached are kept, in order, even when a later item throws. */
  function GenerateAllReporting<C, D>(items: seq<C>, generate: C -> (seq<D>, Result<seq<Doc>>), name: C -> string)
    : (seq<D>, Result<seq<SourceFile>>)
  {
    if |items| == 0 then ([], Success([]))
    else
      var (reported, source) := generate(items[0]);
      match source
      case Failure(e) => (reported, Failure(e))
      case Success(ds) =>
        var (more, rest) := GenerateAllReporting(items[1..], generate, name);
        (reported + more,
         match rest
         case Failure(e) => Failure(e)
         case Success(files) => Success([SourceFile(HintName(name(items[0])), Emit(ds))] + files))
  }

  /** Reference definition: every item's diagnostics, in item order. */
  function AllReported<C, D>(items: seq<C>, generate: C -> (seq<D>, Result<seq<Doc>>)): seq<D>
  {
    if |items| == 0 then [] else generate(items[0]).0 + AllReported(items[1..], generate)
  }

  /** The reporting run fails exactly when some item fails. */
  lemma {:induction false} GenerateAllReportingFails<C, D>(items: seq<C>, generate: C -> (seq<D>, Result<seq<Doc>>), name: C -> string)
    ensures GenerateAllReporting(items, generate, name).1.Failure? <==> exists i :: 0 <= i < |items| && generate(items[i]).1.Failure?
    decreases |items|
  {
    if |items| > 0 {
      GenerateAllReportingFails(items[1..], generate, name);
      if exists i :: 0 <= i < |items[1..]| && generate(items[1..][i]).1.Failure? {
        var i :| 0 <= i < |items[1..]| && generate(items[1..][i]).1.Failure?;
        assert generate(items[i + 1]).1.Failure?;
      }
      if exists i :: 0 <= i < |items| && generate(items[i]).1.Failure? {
        var i :| 0 <= i < |items| && generate(items[i]).1.Failure?;
        if i > 0 {
          assert generate(items[1..][i - 1]).1.Failure?;
        }
      }
    }
  }

  /** A successful reporting run has one file per item, named after it, in
      input order, and reports every item's diagnostics in item order. */
  lemma {:induction false} GenerateAllReportingFiles<C, D>(items: seq<C>, generate: C -> (seq<D>, Result<seq<Doc>>), name: C -> string)
    ensures GenerateAllReporting(items, generate, name).1.Success? ==>
      && GenerateAllReporting(items, generate, name).0 == AllReported(items, generate)
      && |GenerateAllReporting(items, generate, name).1.value| == |items|
      && forall i :: 0 <= i < |items| ==>
           && generate(items[i]).1.Success?
           && GenerateAllReporting(items, generate, name).1.value[i]
              == SourceFile(HintName(name(items[i])), Emit(generate(items[i]).1.value))
    decreases |items|
  {
    if |items| > 0 && GenerateAllReporting(items, generate, name).1.Success? {
      GenerateAllReportingFiles(items[1..], generate, name);
      var r := GenerateAllReporting(items, generate, name).1.value;
      forall i | 0 <= i < |items|
        ensures generate(items[i]).1.Success?
        ensures r[i] == SourceFile(HintName(name(items[i])), Emit(generate(items[i]).1.value))
      {
        if i > 0 {
          assert r[i] == GenerateAllReporting(items[1..], generate, name).1.value[i - 1];
          assert items[1..][i - 1] == items[i];
        }
      }
    }
  }
}
