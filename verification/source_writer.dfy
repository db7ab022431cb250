/** The `SourceWriter` helper: an indented text writer whose `Start…` calls
    write a header and a `{` line and indent by one, and whose block `Dispose`
    un-indents and writes `}`. The writer is the pair (lines written, indent).

    Generators describe their output as a tree of `Doc`s — a line of text, or
    a block opened by a `Start…` call and closed by `Dispose` — which `Render`
    replays through the writer; `Flatten` is the same output defined without
    the writer, and the lemmas tie the two together. */
module SourceWriter {

  /** One written line: the indent level it was written at and its text. */
  datatype Line = Line(indent: nat, text: string)

  datatype Writer = Writer(lines: seq<Line>, indent: nat)

  const Fresh: Writer := Writer([], 0)

  const OpenBrace: string := "{"
  const CloseBrace: string := "}"

  function WriteLine(w: Writer, text: string): (r: Writer)
    ensures r.indent == w.indent && |r.lines| == |w.lines| + 1
  {
    Writer(w.lines + [Line(w.indent, text)], w.indent)
  }

  /** `IndentedTextWriter.Indent` setter: a negative value is stored as 0. */
  function SetIndent(w: Writer, value: int): (r: Writer)
    ensures r.lines == w.lines
    ensures value >= 0 ==> r.indent == value
    ensures value < 0 ==> r.indent == 0
  {
    Writer(w.lines, if value < 0 then 0 else value)
  }

  /** `BaseBlock` constructor: writes `{` then indents. */
  function OpenBlock(w: Writer): Writer
  {
    SetIndent(WriteLine(w, OpenBrace), w.indent + 1)
  }

  /** `BaseBlock.Dispose`: un-indents then writes `}`. */
  function Dispose(w: Writer): Writer
  {
    WriteLine(SetIndent(w, w.indent - 1), CloseBrace)
  }

  function StartBlock(w: Writer, text: string): Writer
  {
    OpenBlock(WriteLine(w, text))
  }

  /** Header written by `StartFunction`; the prefix is written only when non-empty. */
  function FunctionHeader(returnType: string, functionName: string, arguments: string, prefix: string): string
  {
    (if prefix != "" then prefix else "") + returnType + " " + functionName + "(" + arguments + ")"
  }

  function StartFunction(w: Writer, returnType: string, functionName: string, arguments: string, prefix: string): Writer
  {
    StartBlock(w, FunctionHeader(returnType, functionName, arguments, prefix))
  }

  function PropertyHeader(propertyType: string, propertyName: string): string
  {
    "public " + propertyType + " " + propertyName
  }

  function StartProperty(w: Writer, propertyType: string, propertyName: string): Writer
  {
    StartBlock(w, PropertyHeader(propertyType, propertyName))
  }

  /** A `Start…` call followed by `Dispose` writes the header and one brace
      pair at the caller's indent and leaves the indent unchanged. */
  lemma StartThenDispose(w: Writer, text: string)
    ensures Dispose(StartBlock(w, text)).indent == w.indent
    ensures Dispose(StartBlock(w, text)).lines
         == w.lines + [Line(w.indent, text), Line(w.indent, OpenBrace), Line(w.indent, CloseBrace)]
  {
  }

  /** `StartFunction` writes the prefix, return type, name and arguments as one
      header line at the caller's indent, then `{`, and indents by one. */
  lemma StartFunctionHeader(w: Writer, returnType: string, functionName: string, arguments: string, prefix: string)
    ensures StartFunction(w, returnType, functionName, arguments, prefix).indent == w.indent + 1
    ensures StartFunction(w, returnType, functionName, arguments, prefix).lines
         == w.lines + [Line(w.indent, prefix + returnType + " " + functionName + "(" + arguments + ")"), Line(w.indent, OpenBrace)]
  {
  }

  /** An unmatched `Dispose` at indent 0 does not go negative. */
  lemma DisposeAtZero(w: Writer)
    requires w.indent == 0
    ensures Dispose(w).indent == 0
    ensures Dispose(w).lines == w.lines + [Line(0, CloseBrace)]
  {
  }

  /** Generated text as the generators structure it with `using` blocks. */
  datatype Doc =
    | Text(text: string)
    | Block(header: string, body: seq<Doc>)

  /** Replays a document through the writer. */
  function Render(w: Writer, d: Doc): Writer
    decreases d, 1
  {
    match d
    case Text(t) => WriteLine(w, t)
    case Block(h, body) => Dispose(RenderAll(StartBlock(w, h), body))
  }

  function RenderAll(w: Writer, ds: seq<Doc>): Writer
    decreases ds, 0
  {
    if |ds| == 0 then w else RenderAll(Render(w, ds[0]), ds[1..])
  }

  /** The lines of a document written at a given indent, defined without a writer. */
  function Flatten(d: Doc, indent: nat): seq<Line>
    decreases d, 1
  {
    match d
    case Text(t) => [Line(indent, t)]
    case Block(h, body) =>
      [Line(indent, h), Line(indent, OpenBrace)] + FlattenAll(body, indent + 1) + [Line(indent, CloseBrace)]
  }

  function FlattenAll(ds: seq<Doc>, indent: nat): seq<Line>
    decreases ds, 0
  {
    if |ds| == 0 then [] else Flatten(ds[0], indent) + FlattenAll(ds[1..], indent)
  }

  /** The text the writer holds after rendering documents from a fresh writer. */
  function Emit(ds: seq<Doc>): seq<Line>
  {
    RenderAll(Fresh, ds).lines
  }

  /** Rendering appends exactly the flattened lines and restores the indent:
      every `Start…` is matched by its `Dispose`. */
  lemma {:induction false} RenderIsFlatten(w: Writer, d: Doc)
    ensures Render(w, d) == Writer(w.lines + Flatten(d, w.indent), w.indent)
    decreases d, 1
  {
    match d
    case Text(t) =>
    case Block(h, body) =>
      var inner := StartBlock(w, h);
      assert inner == Writer(w.lines + [Line(w.indent, h), Line(w.indent, OpenBrace)], w.indent + 1);
      RenderAllIsFlattenAll(inner, body);
  }

  lemma {:induction false} RenderAllIsFlattenAll(w: Writer, ds: seq<Doc>)
    ensures RenderAll(w, ds) == Writer(w.lines + FlattenAll(ds, w.indent), w.indent)
    decreases ds, 0
  {
    if |ds| > 0 {
      RenderIsFlatten(w, ds[0]);
      RenderAllIsFlattenAll(Render(w, ds[0]), ds[1..]);
    }
  }

  lemma EmitIsFlatten(ds: seq<Doc>)
    ensures Emit(ds) == FlattenAll(ds, 0)
  {
    RenderAllIsFlattenAll(Fresh, ds);
  }

  /** Number of lines whose text is exactly `t`. */
  function CountText(lines: seq<Line>, t: string): nat
  {
    if |lines| == 0 then 0
    else (if lines[0].text == t then 1 else 0) + CountText(lines[1..], t)
  }

  lemma {:induction false} CountTextConcat(a: seq<Line>, b: seq<Line>, t: string)
    ensures CountText(a + b, t) == CountText(a, t) + CountText(b, t)
    decreases |a|
  {
    if |a| == 0 {
      assert a + b == b;
    } else {
      assert (a + b)[0] == a[0];
      assert (a + b)[1..] == a[1..] + b;
      CountTextConcat(a[1..], b, t);
    }
  }

  /** Number of blocks in a document. */
  function Blocks(d: Doc): nat
    decreases d, 1
  {
    match d
    case Text(_) => 0
    case Block(_, body) => 1 + BlocksAll(body)
  }

  function BlocksAll(ds: seq<Doc>): nat
    decreases ds, 0
  {
    if |ds| == 0 then 0 else Blocks(ds[0]) + BlocksAll(ds[1..])
  }

  /** Number of texts and block headers of a document that read exactly `t`. */
  function Texts(d: Doc, t: string): nat
    decreases d, 1
  {
    match d
    case Text(s) => if s == t then 1 else 0
    case Block(h, body) => (if h == t then 1 else 0) + TextsAll(body, t)
  }

  function TextsAll(ds: seq<Doc>, t: string): nat
    decreases ds, 0
  {
    if |ds| == 0 then 0 else Texts(ds[0], t) + TextsAll(ds[1..], t)
  }

  /** Each block contributes exactly one `{` line and one `}` line; any other
      brace line comes from a text or header the generator wrote itself. */
  lemma {:induction false} BraceCount(d: Doc, indent: nat)
    ensures CountText(Flatten(d, indent), OpenBrace) == Blocks(d) + Texts(d, OpenBrace)
    ensures CountText(Flatten(d, indent), CloseBrace) == Blocks(d) + Texts(d, CloseBrace)
    decreases d, 1
  {
    match d
    case Text(_) =>
    case Block(h, body) =>
      BraceCountAll(body, indent + 1);
      var pre := [Line(indent, h), Line(indent, OpenBrace)];
      var mid := FlattenAll(body, indent + 1);
      var post := [Line(indent, CloseBrace)];
      CountTextConcat(pre + mid, post, OpenBrace);
      CountTextConcat(pre, mid, OpenBrace);
      CountTextConcat(pre + mid, post, CloseBrace);
      CountTextConcat(pre, mid, CloseBrace);
  }

  lemma {:induction false} BraceCountAll(ds: seq<Doc>, indent: nat)
    ensures CountText(FlattenAll(ds, indent), OpenBrace) == BlocksAll(ds) + TextsAll(ds, OpenBrace)
    ensures CountText(FlattenAll(ds, indent), CloseBrace) == BlocksAll(ds) + TextsAll(ds, CloseBrace)
    decreases ds, 0
  {
    if |ds| > 0 {
      BraceCount(ds[0], indent);
      BraceCountAll(ds[1..], indent);
      CountTextConcat(Flatten(ds[0], indent), FlattenAll(ds[1..], indent), OpenBrace);
      CountTextConcat(Flatten(ds[0], indent), FlattenAll(ds[1..], indent), CloseBrace);
    }
  }

  /** A document whose own texts contain no lone brace renders balanced. */
  lemma Balanced(ds: seq<Doc>)
    requires TextsAll(ds, OpenBrace) == 0 && TextsAll(ds, CloseBrace) == 0
    ensures CountText(Emit(ds), OpenBrace) == CountText(Emit(ds), CloseBrace)
    ensures RenderAll(Fresh, ds).indent == 0
  {
    EmitIsFlatten(ds);
    BraceCountAll(ds, 0);
    RenderAllIsFlattenAll(Fresh, ds);
  }

  /** No line of a document is written left of the indent it starts at. */
  lemma {:induction false} FlattenIndented(d: Doc, indent: nat)
    ensures forall i :: 0 <= i < |Flatten(d, indent)| ==> Flatten(d, indent)[i].indent >= indent
    decreases d, 1
  {
    match d
    case Text(_) =>
    case Block(h, body) =>
      FlattenAllIndented(body, indent + 1);
  }

  lemma {:induction false} FlattenAllIndented(ds: seq<Doc>, indent: nat)
    ensures forall i :: 0 <= i < |FlattenAll(ds, indent)| ==> FlattenAll(ds, indent)[i].indent >= indent
    decreases ds, 0
  {
    if |ds| > 0 {
      FlattenIndented(ds[0], indent);
      FlattenAllIndented(ds[1..], indent);
    }
  }

  /** The blocks among a run of documents, in order (texts dropped). */
  function BlocksOf(ds: seq<Doc>): (bs: seq<Doc>)
    ensures |bs| <= |ds|
    ensures forall i :: 0 <= i < |bs| ==> bs[i].Block?
  {
    if |ds| == 0 then []
    else (if ds[0].Block? then [ds[0]] else []) + BlocksOf(ds[1..])
  }

  lemma {:induction false} BlocksOfConcat(a: seq<Doc>, b: seq<Doc>)
    ensures BlocksOf(a + b) == BlocksOf(a) + BlocksOf(b)
    decreases |a|
  {
    if |a| == 0 {
      assert a + b == b;
    } else {
      assert (a + b)[1..] == a[1..] + b;
      BlocksOfConcat(a[1..], b);
    }
  }

  /** Text lines contribute no blocks. */
  lemma {:induction false} BlocksOfTexts(ts: seq<Doc>)
    requires forall i :: 0 <= i < |ts| ==> ts[i].Text?
    ensures BlocksOf(ts) == []
    decreases |ts|
  {
    if |ts| > 0 {
      BlocksOfTexts(ts[1..]);
    }
  }

  /** A block followed by text lines contributes exactly that block. */
  lemma BlocksOfLeading(b: Doc, ts: seq<Doc>)
    requires b.Block?
    requires forall i :: 0 <= i < |ts| ==> ts[i].Text?
    ensures BlocksOf([b] + ts) == [b]
  {
    BlocksOfTexts(ts);
    assert ([b] + ts)[1..] == ts;
  }
}
