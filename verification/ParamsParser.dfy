/** The recursive-descent parser of the params format: a specification on the
    lines still to be read, and the parser object that walks them by position. */
module ParamsParser {
  import opened Wrappers
  import opened ParamsText

  datatype ParseError =
    | BadIndentation | ExpectedKeyValue | UnsupportedNode | UnterminatedFlowMap | UnterminatedFlowSequence
    | FlowEntryWithoutColon | TrailingContent

  /** What one call read, and the lines it left. */
  type Reading = Result<(Value, seq<string>), ParseError>

  predicate IsItem(content: string) { content == "-" || "- " <= content }

  predicate StartsFlow(t: string) { t != "" && (t[0] == '{' || t[0] == '[') }

  function Content(line: string, indent: nat): (c: string)
    requires indent <= Indent(line)
  {
    Strip(line[indent..])
  }

  predicate Deeper(lines: seq<string>, indent: nat) { lines != [] && Indent(lines[0]) > indent }

  // ---- flow nodes ---------------------------------------------------------

  function FlowEntries(chunks: seq<string>, acc: seq<(Value, Value)>): (r: Result<Value, ParseError>) {
    if chunks == [] then Ok(Dict(acc))
    else
      var c := chunks[0];
      var k := ColonAt(c);
      if k == |c| then Err(FlowEntryWithoutColon)
      else FlowEntries(chunks[1..], Assign(acc, ParseScalar(c[..k]), ParseScalar(c[k + 1..])))
  }

  function FlowItems(chunks: seq<string>): (r: seq<Value>) {
    if chunks == [] then [] else [ParseScalar(chunks[0])] + FlowItems(chunks[1..])
  }

  /** The cut of the text between the two brackets. */
  function FlowChunks(t: string): (parts: seq<string>)
    requires |t| >= 2
  {
    CutFlow(Strip(t[1..|t| - 1]), "", false, false)
  }

  function Flow(t: string): (r: Result<Value, ParseError>)
    requires StartsFlow(t)
  {
    if t[0] == '{' then (if t[|t| - 1] != '}' then Err(UnterminatedFlowMap) else FlowEntries(FlowChunks(t), []))
    else if t[|t| - 1] != ']' then Err(UnterminatedFlowSequence) else Ok(List(FlowItems(FlowChunks(t))))
  }

  // ---- block nodes --------------------------------------------------------

  predicate Suffix(a: seq<string>, b: seq<string>) { |a| <= |b| && a == b[|b| - |a|..] }

  lemma SuffixOfTail(a: seq<string>, b: seq<string>)
    requires b != [] && Suffix(a, b[1..])
    ensures Suffix(a, b) && |a| < |b|
  {}

  lemma TailIsSuffix(b: seq<string>)
    requires b != []
    ensures Suffix(b[1..], b)
  {}

  lemma SuffixChain(a: seq<string>, b: seq<string>, c: seq<string>)
    requires Suffix(a, b) && Suffix(b, c)
    ensures Suffix(a, c) && |a| <= |b| <= |c|
  {}

  predicate LeavesSuffix(r: Reading, lines: seq<string>) { r.Ok? ==> Suffix(r.value.1, lines) }

  /** A node takes at least one line or raises. */
  predicate TakesALine(r: Reading, lines: seq<string>) { r.Ok? ==> |r.value.1| < |lines| }

  function Node(lines: seq<string>, indent: nat): (r: Reading)
    requires lines != [] && indent <= Indent(lines[0])
    ensures LeavesSuffix(r, lines) && TakesALine(r, lines)
    decreases |lines|, 2
  {
    hide Content, ColonAt, Strip, Indent, Flow, BlockMap, BlockSeq, Suffix;
    TailIsSuffix(lines);
    var c := Content(lines[0], indent);
    var k := ColonAt(c);
    if IsItem(c) then BlockSeq(lines, indent, [])
    else if k < |c| then
      if Strip(c[k + 1..]) == "" && !Deeper(lines[1..], indent)
      then Ok((Dict([(Str(Strip(c[..k])), Null)]), lines[1..]))
      else BlockMap(lines, indent, [])
    else if StartsFlow(c) then
      match Flow(c) case Err(e) => Err(e) case Ok(v) => Ok((v, lines[1..]))
    else Err(UnsupportedNode)
  }

  /** The value that follows a key's colon or an item's dash. */
  function Rest(rest: string, more: seq<string>, indent: nat, inSeq: bool): (r: Reading)
    ensures LeavesSuffix(r, more)
    decreases |more|, 3
  {
    if rest == "" then (if Deeper(more, indent) then Node(more, Indent(more[0])) else Ok((Null, more)))
    else if StartsFlow(rest) then
      match Flow(rest) case Err(e) => Err(e) case Ok(v) => Ok((v, more))
    else if inSeq && ColonAt(rest) < |rest| then
      Ok((Dict([(ParseScalar(rest[..ColonAt(rest)]), ParseScalar(rest[ColonAt(rest) + 1..]))]), more))
    else Ok((ParseScalar(rest), more))
  }

  function BlockMap(lines: seq<string>, indent: nat, acc: seq<(Value, Value)>): (r: Reading)
    ensures LeavesSuffix(r, lines)
    ensures (lines != [] && Indent(lines[0]) >= indent && !("- " <= Content(lines[0], indent))) ==> TakesALine(r, lines)
    decreases |lines|, 1
  {
    hide Content, Strip, Indent, ParseScalar, Assign, Suffix, Node, Rest;
    if lines == [] || Indent(lines[0]) < indent then Ok((Dict(acc), lines))
    else if Indent(lines[0]) > indent then Err(BadIndentation)
    else
      var c := Content(lines[0], indent);
      var k := ColonAt(c);
      if "- " <= c then Ok((Dict(acc), lines))
      else if k == |c| then Err(ExpectedKeyValue)
      else
        match Rest(Strip(c[k + 1..]), lines[1..], indent, false)
        case Err(e) => Err(e)
        case Ok(p) =>
          SuffixOfTail(p.1, lines);
          var r := BlockMap(p.1, indent, Assign(acc, ParseScalar(c[..k]), p.0));
          if r.Ok? then SuffixChain(r.value.1, p.1, lines); r else r
  }

  function BlockSeq(lines: seq<string>, indent: nat, acc: seq<Value>): (r: Reading)
    ensures LeavesSuffix(r, lines)
    ensures (lines != [] && Indent(lines[0]) >= indent && IsItem(Content(lines[0], indent))) ==> TakesALine(r, lines)
    decreases |lines|, 1
  {
    hide Content, Strip, Indent, ParseScalar, Assign, Suffix, Node, Rest;
    if lines == [] || Indent(lines[0]) < indent then Ok((List(acc), lines))
    else if Indent(lines[0]) > indent then Err(BadIndentation)
    else
      var c := Content(lines[0], indent);
      if !IsItem(c) then Ok((List(acc), lines))
      else
        match Rest(Strip(c[1..]), lines[1..], indent, true)
        case Err(e) => Err(e)
        case Ok(p) =>
          SuffixOfTail(p.1, lines);
          var r := BlockSeq(p.1, indent, acc + [p.0]);
          if r.Ok? then SuffixChain(r.value.1, p.1, lines); r else r
  }

  // ---- whole texts --------------------------------------------------------

  /** One text line without its comment and trailing space. */
  function Logical(line: string): (r: string) { RStrip(Uncommented(line, false, false)) }

  /** The logical lines: what is not blank once the comment is gone. */
  function Logicals(lines: seq<string>): (r: seq<string>) {
    if lines == [] then []
    else (if Strip(Logical(lines[0])) == "" then [] else [Logical(lines[0])]) + Logicals(lines[1..])
  }

  function ParseLines(lines: seq<string>): (r: Result<Value, ParseError>) {
    if lines == [] then Ok(Null)
    else
      match Node(lines, 0)
      case Err(e) => Err(e)
      case Ok(p) => if p.1 == [] then Ok(p.0) else Err(TrailingContent)
  }

  function Parse(text: string): (r: Result<Value, ParseError>) { ParseLines(Logicals(SplitLines(text))) }

  // ---- the parser object --------------------------------------------------

  method ParseFlow(text: string) returns (r: Result<Value, ParseError>)
    requires StartsFlow(text)
    ensures r == Flow(text)
  {
    hide ParseScalar, Assign, CutFlow, Strip, ColonAt;
    if text[0] == '{' {
      if text[|text| - 1] != '}' { return Err(UnterminatedFlowMap); }
      var chunks := SplitFlow(Strip(text[1..|text| - 1]));
      var result: seq<(Value, Value)> := [];
      var i := 0;
      while i < |chunks|
        invariant 0 <= i <= |chunks|
        invariant FlowEntries(chunks[i..], result) == FlowEntries(chunks, [])
      {
        var c := chunks[i];
        var k := ColonAt(c);
        if k == |c| { return Err(FlowEntryWithoutColon); }
        result := Assign(result, ParseScalar(c[..k]), ParseScalar(c[k + 1..]));
        i := i + 1;
      }
      return Ok(Dict(result));
    }
    if text[|text| - 1] != ']' { return Err(UnterminatedFlowSequence); }
    var chunks := SplitFlow(Strip(text[1..|text| - 1]));
    var result: seq<Value> := [];
    var i := 0;
    while i < |chunks|
      invariant 0 <= i <= |chunks|
      invariant result + FlowItems(chunks[i..]) == FlowItems(chunks)
    {
      result := result + [ParseScalar(chunks[i])];
      i := i + 1;
    }
    assert result + [] == result;
    return Ok(List(result));
  }

  class YamlSubsetParser {
    const lines: seq<string>
    var pos: nat

    constructor (text: string)
      ensures pos == 0 && lines == Logicals(SplitLines(text))
    {
      lines := Logicals(SplitLines(text));
      pos := 0;
    }

    /** The position and the outcome are those of a reading of the lines left before. */
    predicate Agrees(r: Result<Value, ParseError>, reading: Reading)
      reads this
    {
      match reading
      case Err(e) => r == Err(e)
      case Ok(p) => r == Ok(p.0) && pos <= |lines| && lines[pos..] == p.1
    }

    method ParseNode(indent: nat) returns (r: Result<Value, ParseError>)
      requires pos < |lines| && indent <= Indent(lines[pos])
      modifies this
      ensures Agrees(r, Node(old(lines[pos..]), indent))
      decreases |lines| - pos, 2
    {
      hide Content, Strip, Indent, ParseScalar, Flow, ColonAt, BlockMap, BlockSeq;
      var c := Content(lines[pos], indent);
      assert lines[pos..][1..] == lines[pos + 1..];
      if IsItem(c) { r := ParseBlockSeq(indent); return; }
      var k := ColonAt(c);
      if k < |c| {
        if Strip(c[k + 1..]) == "" && !(pos + 1 < |lines| && Indent(lines[pos + 1]) > indent) {
          pos := pos + 1;
          return Ok(Dict([(Str(Strip(c[..k])), Null)]));
        }
        r := ParseBlockMap(indent);
        return;
      }
      if StartsFlow(c) {
        pos := pos + 1;
        r := ParseFlow(c);
        return;
      }
      return Err(UnsupportedNode);
    }

    method ParseRest(rest: string, indent: nat, inSeq: bool) returns (r: Result<Value, ParseError>)
      requires pos <= |lines|
      modifies this
      ensures Agrees(r, Rest(rest, old(lines[pos..]), indent, inSeq))
      decreases |lines| - pos, 3
    {
      hide Content, Strip, Indent, ParseScalar, Flow, ColonAt, Node;
      if rest == "" {
        if pos < |lines| && Indent(lines[pos]) > indent {
          r := ParseNode(Indent(lines[pos]));
        } else {
          r := Ok(Null);
        }
      } else if StartsFlow(rest) {
        r := ParseFlow(rest);
      } else if inSeq && ColonAt(rest) < |rest| {
        var k := ColonAt(rest);
        r := Ok(Dict([(ParseScalar(rest[..k]), ParseScalar(rest[k + 1..]))]));
      } else {
        r := Ok(ParseScalar(rest));
      }
    }

    method ParseBlockMap(indent: nat) returns (r: Result<Value, ParseError>)
      requires pos <= |lines|
      modifies this
      ensures Agrees(r, BlockMap(old(lines[pos..]), indent, []))
      decreases |lines| - pos, 1
    {
      hide Suffix, TakesALine, LStrip, RStrip, Content, Strip, Indent, ParseScalar, Assign, Rest, ColonAt;
      var result: seq<(Value, Value)> := [];
      while pos < |lines|
        invariant old(pos) <= pos <= |lines|
        invariant BlockMap(lines[pos..], indent, result) == BlockMap(old(lines[pos..]), indent, [])
        decreases |lines| - pos
      {
        var line := lines[pos];
        if Indent(line) < indent { break; }
        if Indent(line) > indent { return Err(BadIndentation); }
        var c := Content(line, indent);
        if "- " <= c { break; }
        var k := ColonAt(c);
        if k == |c| { return Err(ExpectedKeyValue); }
        assert lines[pos..][1..] == lines[pos + 1..];
        ghost var before := pos;
        pos := pos + 1;
        var v := ParseRest(Strip(c[k + 1..]), indent, false);
        if v.Err? { return v; }
        SuffixOfTail(lines[pos..], lines[before..]);
        result := Assign(result, ParseScalar(c[..k]), v.value);
      }
      return Ok(Dict(result));
    }

    method ParseBlockSeq(indent: nat) returns (r: Result<Value, ParseError>)
      requires pos <= |lines|
      modifies this
      ensures Agrees(r, BlockSeq(old(lines[pos..]), indent, []))
      decreases |lines| - pos, 1
    {
      hide Suffix, TakesALine, LStrip, RStrip, Content, Strip, Indent, ParseScalar, Rest;
      var result: seq<Value> := [];
      while pos < |lines|
        invariant old(pos) <= pos <= |lines|
        invariant BlockSeq(lines[pos..], indent, result) == BlockSeq(old(lines[pos..]), indent, [])
        decreases |lines| - pos
      {
        var line := lines[pos];
        if Indent(line) < indent { break; }
        if Indent(line) > indent { return Err(BadIndentation); }
        var c := Content(line, indent);
        if !IsItem(c) { break; }
        assert lines[pos..][1..] == lines[pos + 1..];
        ghost var before := pos;
        pos := pos + 1;
        var v := ParseRest(Strip(c[1..]), indent, true);
        if v.Err? { return v; }
        SuffixOfTail(lines[pos..], lines[before..]);
        result := result + [v.value];
      }
      return Ok(List(result));
    }

    method ParseAll() returns (r: Result<Value, ParseError>)
      requires pos == 0
      modifies this
      ensures r == ParseLines(lines)
    {
      hide Node, Indent;
      assert lines[0..] == lines;
      if pos == |lines| { return Ok(Null); }
      r := ParseNode(0);
      if r.Ok? && pos < |lines| { return Err(TrailingContent); }
    }
  }
}
