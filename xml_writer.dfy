/** The stack-disciplined XML serialiser of the scene converter
    (SceneXmlWriter in JsonXmlConverter.hpp): it writes to an append-only
    stream, keeps an indent string of tabs and a stack of the names of the
    open elements. The writer's primitive operations are specified by a
    pure transition function on its state; the class updates its fields in
    place and is proved against it. */
module XmlWriter {

  datatype Option<T> = None | Some(value: T)

  /** The writer's state: the text written so far, the indent, and the
      open elements, innermost last. */
  datatype WriterState = WriterState(stream: string, indent: string, blocks: seq<string>)

  /** The primitive operations of the writer. */
  datatype Op =
    | Begin(block: string)
    | BeginPost
    | EndInline
    | End
    | Assign(name: string, value: string)

  function Tabs(n: nat): (t: string)
    ensures |t| == n && forall i :: 0 <= i < n ==> t[i] == '\t'
  {
    seq(n, _ => '\t')
  }

  /** The intended invariant: one tab of indent per open element. */
  predicate Balanced(w: WriterState)
  {
    w.indent == Tabs(|w.blocks|)
  }

  function OpenTag(indent: string, block: string): string
  {
    indent + "<" + block + " "
  }

  function Attribute(name: string, value: string): string
  {
    name + "=\"" + value + "\" "
  }

  function CloseTag(indent: string, block: string): string
  {
    indent + "</" + block + ">\n"
  }

  /** One primitive operation. Ending an element needs an open element and
      a tab to remove (the source leaves the other case undefined). */
  function Step(w: WriterState, op: Op): Option<WriterState>
  {
    match op
    case Begin(block) =>
      Some(WriterState(w.stream + OpenTag(w.indent, block), w.indent + "\t", w.blocks + [block]))
    case BeginPost =>
      Some(w.(stream := w.stream + ">\n"))
    case EndInline =>
      if |w.blocks| == 0 || |w.indent| == 0 then None
      else Some(WriterState(w.stream + "/>\n", w.indent[..|w.indent| - 1], w.blocks[..|w.blocks| - 1]))
    case End =>
      if |w.blocks| == 0 || |w.indent| == 0 then None
      else
        var indent := w.indent[..|w.indent| - 1];
        Some(WriterState(w.stream + CloseTag(indent, w.blocks[|w.blocks| - 1]), indent,
                         w.blocks[..|w.blocks| - 1]))
    case Assign(name, value) =>
      Some(w.(stream := w.stream + Attribute(name, value)))
  }

  /** One operation after an outcome: a failed run stays failed. */
  function Then(o: Option<WriterState>, op: Op): Option<WriterState>
  {
    match o
    case None => None
    case Some(w) => Step(w, op)
  }

  /** The first n operations of `ops`, left to right, stopping at the first
      that cannot run. */
  function RunTo(w: WriterState, ops: seq<Op>, n: nat): Option<WriterState>
    requires n <= |ops|
  {
    if n == 0 then Some(w) else Then(RunTo(w, ops, n - 1), ops[n - 1])
  }

  function Run(w: WriterState, ops: seq<Op>): Option<WriterState>
  {
    RunTo(w, ops, |ops|)
  }

  /** The nesting depth, relative to the start, after the first n
      operations; None once an element is closed that `ops` did not open. */
  function Depth(ops: seq<Op>, n: nat): Option<nat>
    requires n <= |ops|
  {
    if n == 0 then Some(0)
    else
      match Depth(ops, n - 1)
      case None => None
      case Some(d) =>
        match ops[n - 1]
        case Begin(_) => Some(d + 1)
        case EndInline => if d == 0 then None else Some(d - 1)
        case End => if d == 0 then None else Some(d - 1)
        case _ => Some(d)
  }

  /** Every element `ops` opens it also closes, and it closes no other. */
  predicate Nested(ops: seq<Op>)
  {
    Depth(ops, |ops|) == Some(0)
  }

  // ---------------------------------------------------------------------
  // The composite conversions, as the operations they perform

  /** `convert(blockname, name, v)`: a self-closing element with a name
      and a value. */
  function ValueOps(blockname: string, name: string, value: string): seq<Op>
  {
    [Begin(blockname), Assign("name", name), Assign("value", value), EndInline]
  }

  function BoolText(v: bool): string
  {
    if v then "true" else "false"
  }

  /** `convert(name, bool)`. */
  function BoolOps(name: string, v: bool): seq<Op>
  {
    ValueOps("boolean", name, BoolText(v))
  }

  /** The attribute name of coordinate i: the character `'x' + i`,
      truncated to 8 bits as the conversion to `char` does. */
  function AxisName(i: nat): string
  {
    [((120 + i) % 256) as char]
  }

  function CoordinateOps(coords: seq<string>): (ops: seq<Op>)
    ensures |ops| == |coords|
  {
    seq(|coords|, i requires 0 <= i < |coords| => Assign(AxisName(i), coords[i]))
  }

  /** `convertPoint`: a self-closing `point` element with one attribute
      per coordinate (already formatted). */
  function PointOps(name: string, coords: seq<string>): seq<Op>
  {
    [Begin("point"), Assign("name", name)] + CoordinateOps(coords) + [EndInline]
  }

  /** `convertOrRef`: an unnamed object is fully converted (by `convert`,
      whose operations are given); a named one becomes a reference. */
  function ConvertOrRefOps(unnamed: bool, name: string, convert: seq<Op>): seq<Op>
  {
    if unnamed then convert else [Begin("ref"), Assign("id", name), EndInline]
  }

  /** The integrator type of the scene: volumetric path tracing when the
      scene has media. */
  function IntegratorType(hasMedia: bool): string
  {
    if hasMedia then "volpath" else "path"
  }

  /** Lines 649-657 of `convert(Scene *)`: the integrator element. */
  function IntegratorOps(hasMedia: bool): seq<Op>
  {
    [Begin("integrator"), Assign("type", IntegratorType(hasMedia)), BeginPost]
    + BoolOps("strictNormals", true) + ValueOps("integer", "maxDepth", "64") + [End]
  }

  /** `convert(Scene *)`: the scene element around the integrator and the
      conversions of the camera, BSDFs and primitives (`content`). */
  function SceneOps(hasMedia: bool, content: seq<Op>): seq<Op>
  {
    [Begin("scene"), Assign("version", "0.5.0"), BeginPost] + IntegratorOps(hasMedia) + content + [End]
  }

  const XmlHeader: string := "<?xml version=\"1.0\" encoding=\"utf-8\"?>\n\n"

  // ---------------------------------------------------------------------
  // The stack discipline

  /** Each operation keeps indent depth equal to stack depth, fails only
      when it would close an element with none open, and only appends to
      the stream. */
  lemma StepBalanced(w: WriterState, op: Op)
    requires Balanced(w)
    ensures Step(w, op).None? <==> (op.EndInline? || op.End?) && |w.blocks| == 0
    ensures Step(w, op).Some? ==>
              Balanced(Step(w, op).value) && w.stream <= Step(w, op).value.stream
  {
    match op
    case Begin(block) =>
      assert Tabs(|w.blocks|) + "\t" == Tabs(|w.blocks| + 1);
    case EndInline =>
      if |w.blocks| > 0 {
        assert Tabs(|w.blocks|)[..|w.blocks| - 1] == Tabs(|w.blocks| - 1);
      }
    case End =>
      if |w.blocks| > 0 {
        assert Tabs(|w.blocks|)[..|w.blocks| - 1] == Tabs(|w.blocks| - 1);
      }
    case _ =>
  }

  /** The outcome of running `ops` after an outcome. */
  function ThenRun(o: Option<WriterState>, ops: seq<Op>): Option<WriterState>
  {
    match o
    case None => None
    case Some(w) => Run(w, ops)
  }

  lemma {:induction false} RunToPrefix(w: WriterState, a: seq<Op>, b: seq<Op>, k: nat)
    requires k <= |a|
    ensures RunTo(w, a + b, k) == RunTo(w, a, k)
  {
    if k > 0 {
      RunToPrefix(w, a, b, k - 1);
      assert (a + b)[k - 1] == a[k - 1];
    }
  }

  lemma {:induction false} RunToAppend(w: WriterState, a: seq<Op>, b: seq<Op>, j: nat)
    requires j <= |b|
    ensures RunTo(w, a + b, |a| + j) == match Run(w, a) case None => None case Some(w') => RunTo(w', b, j)
  {
    if j == 0 {
      RunToPrefix(w, a, b, |a|);
    } else {
      RunToAppend(w, a, b, j - 1);
      assert (a + b)[|a| + j - 1] == b[j - 1];
    }
  }

  /** Running two sequences one after the other is running their
      concatenation. */
  lemma RunAppend(w: WriterState, a: seq<Op>, b: seq<Op>)
    ensures Run(w, a + b) == ThenRun(Run(w, a), b)
  {
    RunToAppend(w, a, b, |b|);
  }

  lemma RunSingle(w: WriterState, op: Op)
    ensures Run(w, [op]) == Step(w, op)
  {
    assert RunTo(w, [op], 0) == Some(w);
  }

  /** A run that gets through n operations got through every shorter
      prefix. */
  lemma {:induction false} RunToShorter(w: WriterState, ops: seq<Op>, k: nat, n: nat)
    requires k <= n <= |ops| && RunTo(w, ops, n).Some?
    ensures RunTo(w, ops, k).Some?
    decreases n
  {
    if k < n {
      RunToShorter(w, ops, k, n - 1);
    }
  }

  /** Properly nested operations never fail on a balanced writer: after
      any prefix the writer is balanced, as deep as `Depth` says above its
      starting depth, with the elements open at the start still open and
      only text appended. */
  lemma {:induction false} NestedRunTo(w: WriterState, ops: seq<Op>, n: nat)
    requires Balanced(w) && n <= |ops| && Depth(ops, n).Some?
    ensures RunTo(w, ops, n).Some?
    ensures var w' := RunTo(w, ops, n).value;
            && Balanced(w')
            && |w'.blocks| == |w.blocks| + Depth(ops, n).value
            && w'.blocks[..|w.blocks|] == w.blocks
            && w.stream <= w'.stream
  {
    if n > 0 {
      NestedRunTo(w, ops, n - 1);
      var w1 := RunTo(w, ops, n - 1).value;
      StepBalanced(w1, ops[n - 1]);
      var w2 := Step(w1, ops[n - 1]).value;
      assert RunTo(w, ops, n) == Some(w2);
      assert w2.blocks[..|w.blocks|] == w1.blocks[..|w.blocks|];
    }
  }

  /** The stack discipline: properly nested operations leave the indent
      and the open elements exactly as they found them. */
  lemma NestedLeavesStack(w: WriterState, ops: seq<Op>)
    requires Balanced(w) && Nested(ops)
    ensures Run(w, ops).Some?
    ensures Run(w, ops).value.indent == w.indent && Run(w, ops).value.blocks == w.blocks
    ensures w.stream <= Run(w, ops).value.stream
  {
    NestedRunTo(w, ops, |ops|);
    assert Run(w, ops).value.blocks == Run(w, ops).value.blocks[..|w.blocks|];
  }

  /** Any sequence of operations that runs keeps indent depth equal to
      stack depth, when it held at the start, and only appends text. */
  lemma {:induction false} RunToBalanced(w: WriterState, ops: seq<Op>, n: nat)
    requires Balanced(w) && n <= |ops| && RunTo(w, ops, n).Some?
    ensures Balanced(RunTo(w, ops, n).value) && w.stream <= RunTo(w, ops, n).value.stream
  {
    if n > 0 {
      RunToShorter(w, ops, n - 1, n);
      RunToBalanced(w, ops, n - 1);
      StepBalanced(RunTo(w, ops, n - 1).value, ops[n - 1]);
    }
  }

  lemma {:induction false} DepthPrefix(a: seq<Op>, b: seq<Op>, k: nat)
    requires k <= |a|
    ensures Depth(a + b, k) == Depth(a, k)
  {
    if k > 0 {
      DepthPrefix(a, b, k - 1);
      assert (a + b)[k - 1] == a[k - 1];
    }
  }

  lemma {:induction false} DepthAppend(a: seq<Op>, b: seq<Op>, j: nat)
    requires Nested(a) && j <= |b|
    ensures Depth(a + b, |a| + j) == Depth(b, j)
  {
    if j == 0 {
      DepthPrefix(a, b, |a|);
    } else {
      DepthAppend(a, b, j - 1);
      assert (a + b)[|a| + j - 1] == b[j - 1];
    }
  }

  /** Nested sequences compose. */
  lemma NestedConcat(a: seq<Op>, b: seq<Op>)
    requires Nested(a) && Nested(b)
    ensures Nested(a + b)
  {
    DepthAppend(a, b, |b|);
  }

  // ---------------------------------------------------------------------
  // What the conversions write

  /** A value element is one self-closing line at the current indent and
      leaves the indent and the open elements as they were. */
  lemma ValueElement(w: WriterState, blockname: string, name: string, value: string)
    ensures Run(w, ValueOps(blockname, name, value))
            == Some(w.(stream := w.stream + OpenTag(w.indent, blockname) + Attribute("name", name)
                                 + Attribute("value", value) + "/>\n"))
  {
    var ops := ValueOps(blockname, name, value);
    var w1 := WriterState(w.stream + OpenTag(w.indent, blockname), w.indent + "\t", w.blocks + [blockname]);
    var w2 := w1.(stream := w1.stream + Attribute("name", name));
    var w3 := w2.(stream := w2.stream + Attribute("value", value));
    assert RunTo(w, ops, 1) == Some(w1);
    assert RunTo(w, ops, 2) == Some(w2);
    assert RunTo(w, ops, 3) == Some(w3);
    assert (w.indent + "\t")[..|w.indent|] == w.indent;
    assert (w.blocks + [blockname])[..|w.blocks|] == w.blocks;
    assert RunTo(w, ops, 4) == Some(w.(stream := w3.stream + "/>\n"));
  }

  /** `convert(name, bool)` writes `value="true"` exactly for true, and
      `value="false"` otherwise. */
  lemma BoolElement(w: WriterState, name: string, v: bool)
    ensures Run(w, BoolOps(name, v))
            == Some(w.(stream := w.stream + OpenTag(w.indent, "boolean") + Attribute("name", name)
                                 + Attribute("value", if v then "true" else "false") + "/>\n"))
  {
    ValueElement(w, "boolean", name, BoolText(v));
  }

  /** Coordinates are named x, y, z (and `{` from the fourth on, the
      characters that follow 'x'). */
  lemma AxisNames()
    ensures AxisName(0) == "x" && AxisName(1) == "y" && AxisName(2) == "z" && AxisName(3) == "{"
  {
  }

  /** The text of the first k coordinate attributes. */
  function CoordinateText(coords: seq<string>, k: nat): string
    requires k <= |coords|
  {
    if k == 0 then "" else CoordinateText(coords, k - 1) + Attribute(AxisName(k - 1), coords[k - 1])
  }

  lemma {:induction false} CoordinatesRunTo(w: WriterState, coords: seq<string>, k: nat)
    requires k <= |coords|
    ensures RunTo(w, CoordinateOps(coords), k) == Some(w.(stream := w.stream + CoordinateText(coords, k)))
  {
    if k == 0 {
      assert w.stream + "" == w.stream;
    } else {
      CoordinatesRunTo(w, coords, k - 1);
      var a := Attribute(AxisName(k - 1), coords[k - 1]);
      assert w.stream + CoordinateText(coords, k - 1) + a == w.stream + (CoordinateText(coords, k - 1) + a);
    }
  }

  /** A point is one self-closing `point` line with its name and then
      attribute i named `AxisName(i)` holding coordinate i; the indent and
      the open elements are unchanged. */
  lemma PointElement(w: WriterState, name: string, coords: seq<string>)
    ensures Run(w, PointOps(name, coords))
            == Some(w.(stream := w.stream + OpenTag(w.indent, "point") + Attribute("name", name)
                                 + CoordinateText(coords, |coords|) + "/>\n"))
  {
    var head := [Begin("point"), Assign("name", name)];
    var w1 := WriterState(w.stream + OpenTag(w.indent, "point"), w.indent + "\t", w.blocks + ["point"]);
    var w2 := w1.(stream := w1.stream + Attribute("name", name));
    assert RunTo(w, head, 1) == Some(w1);
    assert Run(w, head) == Some(w2);
    var coordinates := CoordinateOps(coords);
    RunAppend(w, head, coordinates);
    CoordinatesRunTo(w2, coords, |coords|);
    var w3 := w2.(stream := w2.stream + CoordinateText(coords, |coords|));
    assert Run(w, head + coordinates) == Some(w3);
    RunAppend(w, head + coordinates, [EndInline]);
    RunSingle(w3, EndInline);
    assert (w.indent + "\t")[..|w.indent|] == w.indent;
    assert (w.blocks + ["point"])[..|w.blocks|] == w.blocks;
  }

  /** A named object is written as a single self-closing `ref` line whose
      `id` is its name, leaving the indent and the open elements as they
      were; an unnamed one as its full conversion. */
  lemma ConvertOrRefElement(w: WriterState, unnamed: bool, name: string, convert: seq<Op>)
    ensures unnamed ==> Run(w, ConvertOrRefOps(unnamed, name, convert)) == Run(w, convert)
    ensures !unnamed ==>
              Run(w, ConvertOrRefOps(unnamed, name, convert))
              == Some(w.(stream := w.stream + OpenTag(w.indent, "ref") + Attribute("id", name) + "/>\n"))
  {
    if !unnamed {
      var ops := ConvertOrRefOps(unnamed, name, convert);
      var w1 := WriterState(w.stream + OpenTag(w.indent, "ref"), w.indent + "\t", w.blocks + ["ref"]);
      var w2 := w1.(stream := w1.stream + Attribute("id", name));
      assert RunTo(w, ops, 1) == Some(w1);
      assert RunTo(w, ops, 2) == Some(w2);
      assert (w.indent + "\t")[..|w.indent|] == w.indent;
      assert (w.blocks + ["ref"])[..|w.blocks|] == w.blocks;
      assert RunTo(w, ops, 3) == Some(w.(stream := w2.stream + "/>\n"));
    }
  }

  /** Attributes change only the stream, and only by appending. */
  lemma {:induction false} AttributesRunTo(w: WriterState, attrs: seq<Op>, n: nat)
    requires n <= |attrs| && forall i :: 0 <= i < |attrs| ==> attrs[i].Assign?
    ensures RunTo(w, attrs, n).Some?
    ensures var w' := RunTo(w, attrs, n).value;
            w'.indent == w.indent && w'.blocks == w.blocks && w.stream <= w'.stream
  {
    if n > 0 {
      AttributesRunTo(w, attrs, n - 1);
    }
  }

  predicate EndsWith(s: string, suffix: string)
  {
    |suffix| <= |s| && s[|s| - |suffix|..] == suffix
  }

  /** An element begun with `begin`/`beginPost` around properly nested
      content and closed with `end` has its closing tag at its opening
      tag's indent, and leaves the indent and the open elements as they
      were. */
  lemma ClosingTagAtOpeningIndent(w: WriterState, block: string, attrs: seq<Op>, content: seq<Op>)
    requires Balanced(w) && Nested(content)
    requires forall i :: 0 <= i < |attrs| ==> attrs[i].Assign?
    ensures var ops := [Begin(block)] + attrs + [BeginPost] + content + [End];
            && Run(w, ops).Some?
            && var w' := Run(w, ops).value;
            && w'.indent == w.indent && w'.blocks == w.blocks
            && w.stream + OpenTag(w.indent, block) <= w'.stream
            && EndsWith(w'.stream, CloseTag(w.indent, block))
  {
    var begun := [Begin(block)];
    var w1 := WriterState(w.stream + OpenTag(w.indent, block), w.indent + "\t", w.blocks + [block]);
    RunSingle(w, Begin(block));
    StepBalanced(w, Begin(block));
    AttributesRunTo(w1, attrs, |attrs|);
    var w2 := Run(w1, attrs).value;
    RunAppend(w, begun, attrs);
    var w3 := w2.(stream := w2.stream + ">\n");
    RunSingle(w2, BeginPost);
    RunAppend(w, begun + attrs, [BeginPost]);
    assert Balanced(w3);
    NestedLeavesStack(w3, content);
    var w4 := Run(w3, content).value;
    RunAppend(w, begun + attrs + [BeginPost], content);
    assert w4.indent[..|w4.indent| - 1] == w.indent;
    assert w4.blocks[..|w4.blocks| - 1] == w.blocks;
    var w5 := WriterState(w4.stream + CloseTag(w.indent, block), w.indent, w.blocks);
    RunSingle(w4, End);
    RunAppend(w, begun + attrs + [BeginPost] + content, [End]);
    assert Run(w, begun + attrs + [BeginPost] + content + [End]) == Some(w5);
    assert w1.stream <= w2.stream <= w3.stream <= w4.stream;
    assert w5.stream[|w5.stream| - |CloseTag(w.indent, block)|..] == CloseTag(w.indent, block);
  }

  /** The integrator element: type `volpath` exactly when the scene has
      media and `path` otherwise, then the two settings lines one level
      deeper, then the closing tag at the opening indent. */
  lemma IntegratorElement(w: WriterState, hasMedia: bool)
    ensures var inner := w.indent + "\t";
            Run(w, IntegratorOps(hasMedia))
            == Some(w.(stream := w.stream + OpenTag(w.indent, "integrator")
                                 + Attribute("type", if hasMedia then "volpath" else "path") + ">\n"
                                 + OpenTag(inner, "boolean") + Attribute("name", "strictNormals")
                                 + Attribute("value", "true") + "/>\n"
                                 + OpenTag(inner, "integer") + Attribute("name", "maxDepth")
                                 + Attribute("value", "64") + "/>\n"
                                 + CloseTag(w.indent, "integrator")))
  {
    var head := [Begin("integrator"), Assign("type", IntegratorType(hasMedia)), BeginPost];
    var w1 := WriterState(w.stream + OpenTag(w.indent, "integrator"), w.indent + "\t", w.blocks + ["integrator"]);
    var w2 := w1.(stream := w1.stream + Attribute("type", IntegratorType(hasMedia)));
    var w3 := w2.(stream := w2.stream + ">\n");
    assert RunTo(w, head, 1) == Some(w1);
    assert RunTo(w, head, 2) == Some(w2);
    assert Run(w, head) == Some(w3);
    var flag := BoolOps("strictNormals", true);
    var depth := ValueOps("integer", "maxDepth", "64");
    BoolElement(w3, "strictNormals", true);
    var w4 := w3.(stream := w3.stream + OpenTag(w3.indent, "boolean") + Attribute("name", "strictNormals")
                            + Attribute("value", "true") + "/>\n");
    RunAppend(w, head, flag);
    ValueElement(w4, "integer", "maxDepth", "64");
    var w5 := w4.(stream := w4.stream + OpenTag(w4.indent, "integer") + Attribute("name", "maxDepth")
                            + Attribute("value", "64") + "/>\n");
    RunAppend(w, head + flag, depth);
    RunSingle(w5, End);
    assert (w.indent + "\t")[..|w.indent|] == w.indent;
    assert (w.blocks + ["integrator"])[..|w.blocks|] == w.blocks;
    RunAppend(w, head + flag + depth, [End]);
  }

  /** The integrator element is properly nested. */
  lemma IntegratorNested(hasMedia: bool)
    ensures Nested(IntegratorOps(hasMedia))
  {
    var ops := IntegratorOps(hasMedia);
    assert Depth(ops, 1) == Some(1);
    assert Depth(ops, 2) == Some(1);
    assert Depth(ops, 3) == Some(1);
    assert Depth(ops, 4) == Some(2);
    assert Depth(ops, 5) == Some(2);
    assert Depth(ops, 6) == Some(2);
    assert Depth(ops, 7) == Some(1);
    assert Depth(ops, 8) == Some(2);
    assert Depth(ops, 9) == Some(2);
    assert Depth(ops, 10) == Some(2);
    assert Depth(ops, 11) == Some(1);
  }

  /** A whole document written by a fresh writer for properly nested
      content: the header, then the scene element and its version, and at
      the end the scene's closing tag with no element left open. */
  lemma SceneDocument(hasMedia: bool, content: seq<Op>)
    requires Nested(content)
    ensures var w := Run(WriterState(XmlHeader, "", []), SceneOps(hasMedia, content));
            && w.Some? && w.value.indent == "" && w.value.blocks == []
            && XmlHeader + OpenTag("", "scene") <= w.value.stream
            && EndsWith(w.value.stream, CloseTag("", "scene"))
  {
    var w0 := WriterState(XmlHeader, "", []);
    IntegratorNested(hasMedia);
    NestedConcat(IntegratorOps(hasMedia), content);
    var inner := IntegratorOps(hasMedia) + content;
    assert SceneOps(hasMedia, content) == [Begin("scene")] + [Assign("version", "0.5.0")] + [BeginPost] + inner + [End];
    ClosingTagAtOpeningIndent(w0, "scene", [Assign("version", "0.5.0")], inner);
  }

  // ---------------------------------------------------------------------
  // The writer

  class SceneXmlWriter {
    var stream: string
    var indent: string
    var blocks: seq<string>

    function State(): WriterState
      reads this
    {
      WriterState(stream, indent, blocks)
    }

    predicate Valid()
      reads this
    {
      Balanced(State())
    }

    /** The constructor: the XML declaration, then the whole scene, whose
        camera, BSDF and primitive conversions are given as what they
        write. The finished document is the one `SceneDocument` describes. */
    constructor (hasMedia: bool, content: seq<Op>)
      requires Nested(content)
      ensures Some(State()) == Run(WriterState(XmlHeader, "", []), SceneOps(hasMedia, content))
      ensures Valid() && indent == "" && blocks == []
    {
      stream := XmlHeader;
      indent := "";
      blocks := [];
      new;
      ConvertScene(hasMedia, content);
    }

    // The primitives below write whatever they are told, as the converter's
    // own members do; each keeps the indentation in step with the open
    // blocks, and the matching of begins and ends is the callers' concern
    // (`Nested`).

    method Begin(block: string)
      modifies this
      ensures Some(State()) == Step(old(State()), Op.Begin(block))
      ensures old(Valid()) ==> Valid()
    {
      if Valid() { StepBalanced(State(), Op.Begin(block)); }
      stream := stream + OpenTag(indent, block);
      indent := indent + "\t";
      blocks := blocks + [block];
    }

    method BeginPost()
      modifies this
      ensures Some(State()) == Step(old(State()), Op.BeginPost)
      ensures old(Valid()) ==> Valid()
    {
      if Valid() { StepBalanced(State(), Op.BeginPost); }
      stream := stream + ">\n";
    }

    method EndInline()
      requires |blocks| > 0 && |indent| > 0
      modifies this
      ensures Some(State()) == Step(old(State()), Op.EndInline)
      ensures old(Valid()) ==> Valid()
    {
      if Valid() { StepBalanced(State(), Op.EndInline); }
      stream := stream + "/>\n";
      indent := indent[..|indent| - 1];
      blocks := blocks[..|blocks| - 1];
    }

    method End()
      requires |blocks| > 0 && |indent| > 0
      modifies this
      ensures Some(State()) == Step(old(State()), Op.End)
      ensures old(Valid()) ==> Valid()
    {
      if Valid() { StepBalanced(State(), Op.End); }
      indent := indent[..|indent| - 1];
      stream := stream + CloseTag(indent, blocks[|blocks| - 1]);
      blocks := blocks[..|blocks| - 1];
    }

    method Assign(name: string, value: string)
      modifies this
      ensures Some(State()) == Step(old(State()), Op.Assign(name, value))
      ensures old(Valid()) ==> Valid()
    {
      if Valid() { StepBalanced(State(), Op.Assign(name, value)); }
      stream := stream + Attribute(name, value);
    }

    /** Runs one operation with the method that performs it. */
    method Perform(op: Op)
      requires Step(State(), op).Some?
      modifies this
      ensures Some(State()) == Step(old(State()), op)
    {
      match op
      case Begin(block) => Begin(block);
      case BeginPost => BeginPost();
      case EndInline => EndInline();
      case End => End();
      case Assign(name, value) => Assign(name, value);
    }

    /** Runs a sequence of operations: the conversion of an object whose
        converter is not part of this model, given as what it writes. */
    method Replay(ops: seq<Op>)
      requires Run(State(), ops).Some?
      modifies this
      ensures Some(State()) == Run(old(State()), ops)
    {
      ghost var w0 := State();
      var k := 0;
      while k < |ops|
        invariant k <= |ops|
        invariant Some(State()) == RunTo(w0, ops, k)
      {
        RunToShorter(w0, ops, k + 1, |ops|);
        Perform(ops[k]);
        k := k + 1;
      }
    }

    /** `convert(blockname, name, v)`. */
    method ConvertValue(blockname: string, name: string, value: string)
      modifies this
      ensures Some(State()) == Run(old(State()), ValueOps(blockname, name, value))
    {
      ValueElement(State(), blockname, name, value);
      Begin(blockname);
      Assign("name", name);
      Assign("value", value);
      EndInline();
    }

    /** `convert(name, bool)`. */
    method ConvertBool(name: string, v: bool)
      modifies this
      ensures Some(State()) == Run(old(State()), BoolOps(name, v))
    {
      ConvertValue("boolean", name, if v then "true" else "false");
    }

    /** The loop of `convertPoint`: attribute i is named `AxisName(i)`. */
    method AssignCoordinates(coords: seq<string>)
      modifies this
      ensures State() == old(State()).(stream := old(stream) + CoordinateText(coords, |coords|))
    {
      ghost var w := State();
      assert w.stream + CoordinateText(coords, 0) == w.stream;
      for i := 0 to |coords|
        invariant State() == w.(stream := w.stream + CoordinateText(coords, i))
      {
        Assign(AxisName(i), coords[i]);
        assert w.stream + CoordinateText(coords, i + 1)
            == w.stream + CoordinateText(coords, i) + Attribute(AxisName(i), coords[i]);
      }
    }

    /** `convertPoint`, one attribute per coordinate. */
    method ConvertPoint(name: string, coords: seq<string>)
      modifies this
      ensures Some(State()) == Run(old(State()), PointOps(name, coords))
    {
      PointElement(State(), name, coords);
      ghost var w0 := State();
      Begin("point");
      Assign("name", name);
      AssignCoordinates(coords);
      assert (w0.indent + "\t")[..|w0.indent|] == w0.indent;
      assert (w0.blocks + ["point"])[..|w0.blocks|] == w0.blocks;
      EndInline();
    }

    /** `convertOrRef`: an unnamed object is converted in full, a named one
        written as a reference to its name. */
    method ConvertOrRef(unnamed: bool, name: string, convert: seq<Op>)
      requires unnamed ==> Run(State(), convert).Some?
      modifies this
      ensures Some(State()) == Run(old(State()), ConvertOrRefOps(unnamed, name, convert))
    {
      ConvertOrRefElement(State(), unnamed, name, convert);
      if unnamed {
        Replay(convert);
      } else {
        Begin("ref");
        Assign("id", name);
        EndInline();
      }
    }

    /** The integrator element of `convert(Scene *)`. */
    method ConvertIntegrator(hasMedia: bool)
      modifies this
      ensures Some(State()) == Run(old(State()), IntegratorOps(hasMedia))
    {
      IntegratorElement(State(), hasMedia);
      Begin("integrator");
      if !hasMedia {
        Assign("type", "path");
      } else {
        Assign("type", "volpath");
      }
      BeginPost();
      BoolElement(State(), "strictNormals", true);
      ConvertBool("strictNormals", true);
      ValueElement(State(), "integer", "maxDepth", "64");
      ConvertValue("integer", "maxDepth", "64");
      End();
    }

    /** `convert(Scene *)`, with the camera, BSDF and primitive conversions
        given as what they write. */
    method ConvertScene(hasMedia: bool, content: seq<Op>)
      requires Valid() && Nested(content)
      modifies this
      ensures Some(State()) == Run(old(State()), SceneOps(hasMedia, content))
      ensures Valid() && indent == old(indent) && blocks == old(blocks)
    {
      ghost var w0 := State();
      ghost var head := [Op.Begin("scene"), Op.Assign("version", "0.5.0"), Op.BeginPost];
      Begin("scene");
      assert RunTo(w0, head, 1) == Some(State());
      StepBalanced(w0, Op.Begin("scene"));
      Assign("version", "0.5.0");
      assert RunTo(w0, head, 2) == Some(State());
      BeginPost();
      ghost var w3 := State();
      assert Run(w0, head) == Some(w3);
      IntegratorNested(hasMedia);
      NestedLeavesStack(w3, IntegratorOps(hasMedia));
      ConvertIntegrator(hasMedia);
      ghost var w4 := State();
      RunAppend(w0, head, IntegratorOps(hasMedia));
      NestedLeavesStack(w4, content);
      Replay(content);
      ghost var w5 := State();
      RunAppend(w0, head + IntegratorOps(hasMedia), content);
      End();
      RunSingle(w5, Op.End);
      RunAppend(w0, head + IntegratorOps(hasMedia) + content, [Op.End]);
      assert (w0.indent + "\t")[..|w0.indent|] == w0.indent;
      assert (w0.blocks + ["scene"])[..|w0.blocks|] == w0.blocks;
    }
  }
}
