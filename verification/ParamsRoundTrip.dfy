/** A printer for nested params values in any supported layout, and the proof
    that parsing the printed text gives the value back. */
module ParamsRoundTrip {
  import opened Wrappers
  import opened TextOrder
  import opened ParamsText
  import opened ParamsParser

  // ---- characters ---------------------------------------------------------

  /** Non-empty, with no space at either end. */
  predicate Tight(s: string) { s != "" && !IsSpace(s[0]) && !IsSpace(s[|s| - 1]) }

  function Pad(n: nat): (s: string)
    ensures |s| == n
  {
    seq(n, _ => ' ')
  }

  lemma LStripSpace(s: string)
    ensures LStrip(" " + s) == LStrip(s)
  {
    assert (" " + s)[1..] == s;
  }

  lemma {:induction false} LStripPadded(n: nat, s: string)
    requires LStrip(s) == s
    ensures LStrip(Pad(n) + s) == s
  {
    hide LStrip, IsSpace;
    if n > 0 {
      LStripPadded(n - 1, s);
      LStripSpace(Pad(n - 1) + s);
      assert Pad(n) + s == " " + (Pad(n - 1) + s);
    } else {
      assert Pad(0) + s == s;
    }
  }

  lemma StripPadded(n: nat, s: string)
    requires Tight(s)
    ensures Strip(Pad(n) + s) == s && Indent(Pad(n) + s) == n && RStrip(Pad(n) + s) == Pad(n) + s
  {
    assert LStrip(s) == s;
    hide LStrip, IsSpace;
    LStripPadded(n, s);
    assert (Pad(n) + s)[n + |s| - 1] == s[|s| - 1];
  }

  lemma StripTight(s: string)
    requires Tight(s)
    ensures Strip(s) == s && RStrip(s) == s && Indent(s) == 0
  {
    StripPadded(0, s);
    assert Pad(0) + s == s;
  }

  /** Quotes are balanced and no `stop` stands outside them. */
  predicate Calm(s: string, single: bool, double: bool, stop: char) {
    if s == "" then !single && !double
    else
      var s', d' := SingleAfter(s[0], single, double), DoubleAfter(s[0], single, double);
      !(s[0] == stop && !s' && !d') && Calm(s[1..], s', d', stop)
  }

  lemma {:induction false} CalmConcat(a: string, b: string, single: bool, double: bool, stop: char)
    requires Calm(a, single, double, stop) && Calm(b, false, false, stop)
    ensures Calm(a + b, single, double, stop)
  {
    if a == "" {
      assert a + b == b;
    } else {
      CalmConcat(a[1..], b, SingleAfter(a[0], single, double), DoubleAfter(a[0], single, double), stop);
      assert (a + b)[1..] == a[1..] + b;
    }
  }

  predicate NoQuotes(s: string) { forall i :: 0 <= i < |s| ==> !IsQuote(s[i]) }

  lemma {:induction false} PlainIsCalm(s: string, stop: char)
    requires NoQuotes(s) && stop !in s
    ensures Calm(s, false, false, stop)
  {
    if s != "" { PlainIsCalm(s[1..], stop); }
  }

  lemma {:induction false} QuotedIsCalm(s: string, q: char, stop: char)
    requires NoQuotes(s) && IsQuote(q) && !IsQuote(stop)
    ensures Calm(s + [q], q == '\'', q == '"', stop)
    ensures Calm([q] + s + [q], false, false, stop)
  {
    if s == "" {
      assert s + [q] == [q];
    } else {
      QuotedIsCalm(s[1..], q, stop);
      assert (s + [q])[1..] == s[1..] + [q];
    }
    assert ([q] + s + [q])[1..] == s + [q];
  }

  /** A calm line keeps everything up to its comment. */
  lemma {:induction false} CalmUncommented(s: string, note: string, single: bool, double: bool)
    requires Calm(s, single, double, '#')
    ensures Uncommented(s + note, single, double) == s + Uncommented(note, false, false)
  {
    if s == "" {
      assert s + note == note;
    } else {
      CalmUncommented(s[1..], note, SingleAfter(s[0], single, double), DoubleAfter(s[0], single, double));
      assert (s + note)[1..] == s[1..] + note;
    }
  }

  /** A calm chunk is cut at the comma that follows it. */
  lemma {:induction false} CalmCut(s: string, more: string, buf: string, single: bool, double: bool)
    requires Calm(s, single, double, ',')
    ensures CutFlow(s + "," + more, buf, single, double) == [buf + s] + CutFlow(more, "", false, false)
    ensures buf + s != "" ==> CutFlow(s, buf, single, double) == [buf + s]
  {
    if s == "" {
      assert s + "," + more == "," + more && buf + s == buf;
    } else {
      CalmCut(s[1..], more, buf + [s[0]], SingleAfter(s[0], single, double), DoubleAfter(s[0], single, double));
      assert (s + "," + more)[1..] == s[1..] + "," + more;
      assert buf + [s[0]] + s[1..] == buf + s;
    }
  }

  // ---- spellings of scalars -----------------------------------------------

  predicate NumberChar(c: char) { '0' <= c <= '9' || c in ".eE+-" }

  predicate NumberText(t: string) { t != "" && forall i :: 0 <= i < |t| ==> NumberChar(t[i]) }

  lemma {:induction false} NumbersAreNumberText(t: string)
    requires IsIntText(t) || IsFloatText(t)
    ensures NumberText(t)
  {
    var u := Unsigned(t);
    if IsIntText(t) {
      IntTextIsNumber(t);
    } else {
      hide IsMantissa, ExponentAt, IsIntText;
      var k := ExponentAt(u);
      MantissaText(u[..k]);
      assert u == u[..k] + (if k < |u| then [u[k]] + u[k + 1..] else "");
      if k < |u| {
        ExponentChar(u);
        IntTextIsNumber(u[k + 1..]);
      }
    }
    assert t == u || t == [t[0]] + u;
  }

  lemma IntTextIsNumber(t: string)
    requires IsIntText(t)
    ensures NumberText(t)
  {
    assert t == Unsigned(t) || t == [t[0]] + Unsigned(t);
  }

  lemma {:induction false} ExponentChar(t: string)
    requires ExponentAt(t) < |t|
    ensures t[ExponentAt(t)] == 'e' || t[ExponentAt(t)] == 'E'
  {
    if t[0] != 'e' && t[0] != 'E' { ExponentChar(t[1..]); }
  }

  lemma {:induction false} DotChar(t: string)
    requires DotAt(t) < |t|
    ensures t[DotAt(t)] == '.'
  {
    if t[0] != '.' { DotChar(t[1..]); }
  }

  lemma MantissaText(t: string)
    requires IsMantissa(t)
    ensures NumberText(t)
  {
    var k := DotAt(t);
    if k < |t| {
      DotChar(t);
      assert t == t[..k] + [t[k]] + t[k + 1..];
    }
  }

  /** A string the format can carry at all: no quote character and no line break. */
  predicate Carried(s: string) { NoQuotes(s) && NoBreaks(s) }

  /** A string that may stand unquoted. */
  predicate PlainSafe(s: string) {
    && Tight(s) && '#' !in s && !StartsFlow(s)
    && s !in {"true", "True", "TRUE", "false", "False", "FALSE", "null", "Null", "NULL", "~", ""} && !IsIntText(s) && !IsFloatText(s)
  }

  /** Every accepted spelling of a scalar, quoting by either quote included. */
  predicate Spells(t: string, v: Value) {
    match v
    case Null => t in {"null", "Null", "NULL", "~"}
    case Bool(b) => if b then t in {"true", "True", "TRUE"} else t in {"false", "False", "FALSE"}
    case Int(n) => IsIntText(t) && IntValue(t) == n
    case Float(text) => t == text && IsFloatText(t) && !IsIntText(t)
    case Str(s) => Carried(s) && (t == "\"" + s + "\"" || t == "'" + s + "'" || (t == s && PlainSafe(s)))
    case _ => false
  }

  /** What the proofs use of a spelling. */
  predicate Atom(t: string) {
    Tight(t) && NoBreaks(t) && !StartsFlow(t) && Calm(t, false, false, '#')
  }

  /** Printable, and neither a quote nor one of the characters with a meaning. */
  predicate Harmless(c: char) { '!' < c <= '~' && !IsQuote(c) && c !in ":#{[" }

  lemma HarmlessIsAtom(t: string)
    requires t != "" && forall i :: 0 <= i < |t| ==> Harmless(t[i])
    ensures Atom(t) && !IsQuote(t[0]) && ':' !in t
  {
    PlainIsCalm(t, '#');
    hide Calm;
    assert Harmless(t[0]) && Harmless(t[|t| - 1]);
  }

  lemma NumberIsAtom(t: string)
    requires NumberText(t)
    ensures Atom(t) && !IsTrueWord(t) && !IsFalseWord(t) && !IsNullWord(t) && !IsQuote(t[0]) && ':' !in t && !("- " <= t)
  {
    hide Atom;
    assert NumberChar(t[0]) && (|t| > 1 ==> NumberChar(t[1]));
    HarmlessIsAtom(t);
  }

  lemma QuotedIsAtom(s: string, q: char)
    requires Carried(s) && IsQuote(q)
    ensures var t := [q] + s + [q]; Atom(t) && ParseScalar(t) == Str(s)
  {
    var t := [q] + s + [q];
    hide IsFloatText, IsIntText, Calm, Strip, LStrip, RStrip;
    QuotedIsCalm(s, q, '#');
    assert Tight(t) && t[1..|t| - 1] == s;
    StripTight(t);
  }

  /** Every spelling is read back as the scalar it spells. */
  lemma SpellingReads(t: string, v: Value)
    requires Spells(t, v)
    ensures Atom(t) && ParseScalar(t) == v
  {
    hide Strip, LStrip, RStrip, Calm, Atom, IsFloatText, IsIntText;
    match v {
      case Int(n) =>
        NumbersAreNumberText(t);
        NumberIsAtom(t);
        StripAtom(t);
      case Float(text) =>
        NumbersAreNumberText(t);
        NumberIsAtom(t);
        StripAtom(t);
      case Str(s) =>
        if t == "\"" + s + "\"" {
          QuotedIsAtom(s, '"');
          assert t == ['"'] + s + ['"'];
        } else if t == "'" + s + "'" {
          QuotedIsAtom(s, '\'');
          assert t == ['\''] + s + ['\''];
        } else {
          PlainIsAtom(t);
          StripAtom(t);
        }
      case _ =>
        WordIsAtom(t);
        StripAtom(t);
    }
  }

  lemma StripAtom(t: string)
    requires Atom(t)
    ensures Strip(t) == t && t != ""
  {
    StripTight(t);
  }

  lemma PlainIsAtom(t: string)
    requires Carried(t) && PlainSafe(t)
    ensures Atom(t) && !IsQuote(t[0])
  {
    hide IsFloatText, IsIntText;
    PlainIsCalm(t, '#');
  }

  lemma WordIsAtom(t: string)
    requires IsTrueWord(t) || IsFalseWord(t) || (IsNullWord(t) && t != "")
    ensures Atom(t) && !IsQuote(t[0])
  {
    hide Atom;
    HarmlessIsAtom(t);
  }

  // ---- the printer --------------------------------------------------------

  /** A layout: the indentation step, which collections stand in flow form, and the
      spelling of each scalar. */
  datatype Style = Style(step: nat, flow: Value -> bool, spell: Value -> string)

  predicate IsScalar(v: Value) { !v.List? && !v.Dict? }

  predicate Flows(v: Value, st: Style) {
    match v case Dict(es) => es == [] || st.flow(v) case List(items) => items == [] || st.flow(v) case _ => false
  }

  predicate DistinctKeys(es: seq<(Value, Value)>) {
    forall i, j :: 0 <= i < j < |es| ==> AsKey(es[i].0) != AsKey(es[j].0)
  }

  predicate ScalarOk(v: Value, st: Style) { IsScalar(v) && Spells(st.spell(v), v) }

  /** A key's spelling holds no colon and does not look like an item. */
  predicate KeyOk(k: Value, st: Style) { ScalarOk(k, st) && ':' !in st.spell(k) && !("- " <= st.spell(k)) }

  /** Between brackets no comma may stand outside quotes. */
  predicate InFlow(v: Value, st: Style) { ScalarOk(v, st) && Calm(st.spell(v), false, false, ',') }

  predicate KeyInFlow(k: Value, st: Style) { InFlow(k, st) && ':' !in st.spell(k) }

  predicate FlowOk(v: Value, st: Style) {
    match v
    case Dict(es) => DistinctKeys(es) && forall i :: 0 <= i < |es| ==> KeyInFlow(es[i].0, st) && InFlow(es[i].1, st)
    case List(items) => forall i :: 0 <= i < |items| ==> InFlow(items[i], st)
    case _ => false
  }

  predicate EntryOk(e: (Value, Value), st: Style)
    decreases e, 2
  {
    match e case (k, v) => KeyOk(k, st) && Supported(v, st)
  }

  predicate ItemOk(v: Value, st: Style)
    decreases v, 2
  {
    Supported(v, st) && (IsScalar(v) ==> ':' !in st.spell(v))
  }

  predicate BlockOk(v: Value, st: Style)
    decreases v, 0
  {
    match v
    case Dict(es) => DistinctKeys(es) && forall i :: 0 <= i < |es| ==> EntryOk(es[i], st)
    case List(items) => forall i :: 0 <= i < |items| ==> ItemOk(items[i], st)
    case _ => false
  }

  /** The fragment a style can print. */
  predicate Supported(v: Value, st: Style)
    decreases v, 1
  {
    if IsScalar(v) then ScalarOk(v, st) else if Flows(v, st) then FlowOk(v, st) else BlockOk(v, st)
  }

  function Commas(texts: seq<string>): (s: string) {
    if texts == [] then "" else if |texts| == 1 then texts[0] else texts[0] + "," + " " + Commas(texts[1..])
  }

  function ItemTexts(items: seq<Value>, st: Style): (r: seq<string>) {
    seq(|items|, i requires 0 <= i < |items| => st.spell(items[i]))
  }

  function EntryText(e: (Value, Value), st: Style): (s: string) { st.spell(e.0) + ":" + " " + st.spell(e.1) }

  function EntryTexts(es: seq<(Value, Value)>, st: Style): (r: seq<string>) {
    seq(|es|, i requires 0 <= i < |es| => EntryText(es[i], st))
  }

  function FlowText(v: Value, st: Style): (s: string)
    requires !IsScalar(v)
  {
    match v
    case Dict(es) => "{" + Commas(EntryTexts(es, st)) + "}"
    case List(items) => "[" + Commas(ItemTexts(items, st)) + "]"
  }

  /** What stands on the line of the key or dash itself. */
  function Inline(v: Value, st: Style): (s: string) {
    if IsScalar(v) then st.spell(v) else if Flows(v, st) then FlowText(v, st) else ""
  }

  function After(v: Value, st: Style): (s: string) { if Inline(v, st) == "" then "" else " " + Inline(v, st) }

  function Nested(v: Value, indent: nat, st: Style): (lines: seq<string>)
    decreases v, 1
  {
    if IsScalar(v) || Flows(v, st) then [] else Block(v, indent + st.step, st)
  }

  function EntryLines(e: (Value, Value), indent: nat, st: Style): (lines: seq<string>)
    decreases e, 2
  {
    match e case (k, v) => [Pad(indent) + (st.spell(k) + ":" + After(v, st))] + Nested(v, indent, st)
  }

  function ItemLines(v: Value, indent: nat, st: Style): (lines: seq<string>)
    decreases v, 2
  {
    [Pad(indent) + ("-" + After(v, st))] + Nested(v, indent, st)
  }

  function MapLines(es: seq<(Value, Value)>, indent: nat, st: Style): (lines: seq<string>)
    decreases es
  {
    if es == [] then [] else EntryLines(es[0], indent, st) + MapLines(es[1..], indent, st)
  }

  function SeqLines(items: seq<Value>, indent: nat, st: Style): (lines: seq<string>)
    decreases items
  {
    if items == [] then [] else ItemLines(items[0], indent, st) + SeqLines(items[1..], indent, st)
  }

  function Block(v: Value, indent: nat, st: Style): (lines: seq<string>)
    requires !IsScalar(v)
    decreases v, 0
  {
    match v
    case Dict(es) => if es == [] then [Pad(indent) + "{}"] else MapLines(es, indent, st)
    case List(items) => if items == [] then [Pad(indent) + "[]"] else SeqLines(items, indent, st)
  }

  // ---- reading flow forms back --------------------------------------------

  function Chunks(texts: seq<string>, lead: string): (r: seq<string>) {
    if texts == [] then [] else [lead + texts[0]] + Chunks(texts[1..], " ")
  }

  predicate Pieces(texts: seq<string>) {
    forall i :: 0 <= i < |texts| ==> Tight(texts[i]) && NoBreaks(texts[i]) && Calm(texts[i], false, false, '#') && Calm(texts[i], false, false, ',')
  }

  lemma {:induction false} CutCommas(texts: seq<string>, lead: string)
    requires Pieces(texts) && (lead == "" || lead == " ")
    ensures texts != [] ==> CutFlow(lead + Commas(texts), "", false, false) == Chunks(texts, lead)
  {
    hide CutFlow, IsSpace, NoBreaks;
    if texts != [] {
      var c := lead + texts[0];
      PlainIsCalm(lead, ',');
      hide Calm;
      CalmConcat(lead, texts[0], false, false, ',');
      CutCommas(texts[1..], " ");
      CalmCut(c, " " + Commas(texts[1..]), "", false, false);
      assert "" + c == c;
      if |texts| > 1 { assert lead + Commas(texts) == c + "," + (" " + Commas(texts[1..])); }
    }
  }

  lemma {:induction false} CommasFacts(texts: seq<string>)
    requires Pieces(texts) && texts != []
    ensures Tight(Commas(texts)) && NoBreaks(Commas(texts)) && Calm(Commas(texts), false, false, '#')
  {
    hide Calm;
    if |texts| > 1 {
      CommasFacts(texts[1..]);
      CommaJoins(texts[0], Commas(texts[1..]));
    }
  }

  lemma NoBreaksConcat(a: string, b: string)
    requires NoBreaks(a) && NoBreaks(b)
    ensures NoBreaks(a + b)
  {
    hide IsBreak;
  }

  lemma CommaJoins(a: string, b: string)
    requires Tight(a) && Tight(b) && NoBreaks(a) && NoBreaks(b)
    requires Calm(a, false, false, '#') && Calm(b, false, false, '#')
    ensures var t := a + "," + " " + b; Tight(t) && NoBreaks(t) && Calm(t, false, false, '#')
  {
    PlainIsCalm("," + " ", '#');
    assert NoBreaks("," + " ");
    hide Calm, IsSpace, NoBreaks;
    CalmConcat("," + " ", b, false, false, '#');
    CalmConcat(a, "," + " " + b, false, false, '#');
    NoBreaksConcat("," + " ", b);
    NoBreaksConcat(a, "," + " " + b);
    assert a + "," + " " + b == a + ("," + " " + b);
  }

  lemma ScalarReads(v: Value, st: Style, lead: string)
    requires ScalarOk(v, st) && (lead == "" || lead == " ")
    ensures Atom(st.spell(v)) && ParseScalar(st.spell(v)) == v && ParseScalar(lead + st.spell(v)) == v
  {
    var t := st.spell(v);
    hide IsFloatText, IsIntText, Spells, LStrip, RStrip, Strip, Calm;
    SpellingReads(t, v);
    StripTight(t);
    StripPadded(|lead|, t);
    assert Pad(|lead|) + t == lead + t;
  }

  lemma {:induction false} ItemsReadBack(items: seq<Value>, st: Style, lead: string)
    requires forall i :: 0 <= i < |items| ==> InFlow(items[i], st)
    requires lead == "" || lead == " "
    ensures FlowItems(Chunks(ItemTexts(items, st), lead)) == items && Pieces(ItemTexts(items, st))
  {
    hide ParseScalar, ScalarOk, Calm, Spells;
    if items != [] {
      ScalarReads(items[0], st, lead);
      ItemsReadBack(items[1..], st, " ");
      assert ItemTexts(items, st) == [st.spell(items[0])] + ItemTexts(items[1..], st);
    }
  }

  /** A key's text is cut off at the first colon. */
  lemma {:induction false} FirstColon(a: string, b: string)
    requires ':' !in a
    ensures ColonAt(a + ":" + b) == |a|
  {
    if a == "" {
      assert a + ":" + b == ":" + b;
    } else {
      FirstColon(a[1..], b);
      assert (a + ":" + b)[1..] == a[1..] + ":" + b;
    }
  }

  lemma EntryReads(e: (Value, Value), st: Style, lead: string)
    requires KeyInFlow(e.0, st) && InFlow(e.1, st) && (lead == "" || lead == " ")
    ensures var c := lead + EntryText(e, st);
            && ColonAt(c) < |c| && ParseScalar(c[..ColonAt(c)]) == e.0 && ParseScalar(c[ColonAt(c) + 1..]) == e.1
    ensures Pieces([EntryText(e, st)])
  {
    hide ParseScalar, Calm, Spells, ColonAt, Strip;
    var k, t := st.spell(e.0), st.spell(e.1);
    ScalarReads(e.0, st, lead);
    ScalarReads(e.1, st, " ");
    FirstColon(lead + k, " " + t);
    var c := lead + EntryText(e, st);
    assert c == lead + k + ":" + (" " + t) && c[..|lead + k|] == lead + k && c[|lead + k| + 1..] == " " + t;
    EntryTextIsCalm(k, t, '#');
    EntryTextIsCalm(k, t, ',');
  }

  lemma EntryTextIsCalm(k: string, t: string, stop: char)
    requires Calm(k, false, false, stop) && Calm(t, false, false, stop) && (stop == '#' || stop == ',')
    ensures Calm(k + ":" + " " + t, false, false, stop)
  {
    PlainIsCalm(":" + " ", stop);
    CalmConcat(":" + " ", t, false, false, stop);
    CalmConcat(k, ":" + " " + t, false, false, stop);
    assert k + ":" + " " + t == k + (":" + " " + t);
  }

  lemma {:induction false} EntriesReadBack(es: seq<(Value, Value)>, st: Style, lead: string, acc: seq<(Value, Value)>)
    requires forall i :: 0 <= i < |es| ==> KeyInFlow(es[i].0, st) && InFlow(es[i].1, st)
    requires DistinctKeys(acc + es) && (lead == "" || lead == " ")
    ensures FlowEntries(Chunks(EntryTexts(es, st), lead), acc) == Ok(Dict(acc + es)) && Pieces(EntryTexts(es, st))
  {
    hide ParseScalar, InFlow, KeyInFlow, Calm, Spells, ColonAt, Assign, EntryText;
    if es == [] {
      assert acc + es == acc;
    } else {
      EntryReads(es[0], st, lead);
      NewKey(acc, es);
      AssignNewKey(acc, es[0].0, es[0].1);
      assert (acc + [es[0]]) + es[1..] == acc + es && (es[0].0, es[0].1) == es[0];
      EntriesReadBack(es[1..], st, " ", acc + [es[0]]);
      assert EntryTexts(es, st) == [EntryText(es[0], st)] + EntryTexts(es[1..], st);
      assert Pieces([EntryText(es[0], st)]);
    }
  }

  lemma NewKey(acc: seq<(Value, Value)>, es: seq<(Value, Value)>)
    requires DistinctKeys(acc + es) && es != []
    ensures forall i :: 0 <= i < |acc| ==> AsKey(acc[i].0) != AsKey(es[0].0)
  {
    forall i | 0 <= i < |acc|
      ensures AsKey(acc[i].0) != AsKey(es[0].0)
    {
      assert (acc + es)[i] == acc[i] && (acc + es)[|acc|] == es[0];
    }
  }

  function Texts(v: Value, st: Style): (texts: seq<string>)
    requires !IsScalar(v)
  {
    match v case Dict(es) => EntryTexts(es, st) case List(items) => ItemTexts(items, st)
  }

  lemma FlowReads(v: Value, st: Style)
    requires Flows(v, st) && FlowOk(v, st)
    ensures var t := FlowText(v, st); StartsFlow(t) && Flow(t) == Ok(v) && Tight(t) && NoBreaks(t) && Calm(t, false, false, '#')
  {
    hide ParseScalar, InFlow, KeyInFlow, Calm, CutFlow, Chunks, Strip, Commas, EntryTexts, ItemTexts;
    hide FlowEntries, FlowItems, DistinctKeys, Tight, IsSpace, LStrip, RStrip, Pieces;
    var t := FlowText(v, st);
    match v {
      case Dict(es) =>
        assert [] + es == es;
        EntriesReadBack(es, st, "", []);
      case List(items) => ItemsReadBack(items, st, "");
    }
    BodyCuts(Texts(v, st));
    assert t[1..|t| - 1] == Commas(Texts(v, st));
    Brackets(Commas(Texts(v, st)), [t[0]], [t[|t| - 1]]);
    assert t == [t[0]] + Commas(Texts(v, st)) + [t[|t| - 1]];
  }

  lemma BodyCuts(texts: seq<string>)
    requires Pieces(texts)
    ensures var s := Commas(texts);
            && CutFlow(Strip(s), "", false, false) == Chunks(texts, "") && NoBreaks(s) && Calm(s, false, false, '#')
  {
    hide Chunks, Strip, CutFlow, Calm;
    if texts == [] {
      EmptyFlow();
    } else {
      CommasFacts(texts);
      StripTight(Commas(texts));
      CutCommas(texts, "");
      assert "" + Commas(texts) == Commas(texts);
    }
  }

  lemma EmptyFlow()
    ensures Strip("") == "" && CutFlow("", "", false, false) == Chunks([], "") == [] && Calm("", false, false, '#')
  {}

  lemma Brackets(s: string, a: string, b: string)
    requires Calm(s, false, false, '#') && NoBreaks(s) && (a == "{" || a == "[") && (b == "}" || b == "]")
    ensures Calm(a + s + b, false, false, '#') && Tight(a + s + b) && NoBreaks(a + s + b)
  {
    PlainIsCalm(a, '#');
    PlainIsCalm(b, '#');
    CalmConcat(s, b, false, false, '#');
    CalmConcat(a, s + b, false, false, '#');
    assert a + s + b == a + (s + b);
  }

  // ---- reading block forms back -------------------------------------------

  /** Nothing left, or a line no deeper than the bound. */
  predicate Outside(lines: seq<string>, bound: int) { lines == [] || Indent(lines[0]) <= bound }

  /** What stands after a colon or a dash: nothing at all, or one space and a tight text. */
  lemma InlineFacts(v: Value, st: Style)
    requires Supported(v, st)
    ensures var t := Inline(v, st); (t == "" <==> !IsScalar(v) && !Flows(v, st)) && (t != "" ==> Tight(t))
    ensures Strip(After(v, st)) == Inline(v, st)
    ensures NoBreaks(After(v, st)) && Calm(After(v, st), false, false, '#')
  {
    hide ParseScalar, Spells, Calm, FlowText, Flow, Strip, IsSpace, IsBreak, FlowOk, BlockOk;
    if IsScalar(v) {
      ScalarReads(v, st, "");
    } else if Flows(v, st) {
      FlowReads(v, st);
    }
    hide Inline;
    if Inline(v, st) == "" {
      EmptyFlow();
    } else {
      AfterSpace(Inline(v, st));
    }
  }

  lemma AfterSpace(t: string)
    requires Tight(t) && NoBreaks(t) && Calm(t, false, false, '#')
    ensures Strip(" " + t) == t && NoBreaks(" " + t) && Calm(" " + t, false, false, '#')
  {
    hide Strip, Calm;
    StripPadded(1, t);
    assert Pad(1) + t == " " + t;
    SpaceIsCalm();
    CalmConcat(" ", t, false, false, '#');
  }

  lemma SpaceIsCalm()
    ensures Calm(" ", false, false, '#') && Calm(":", false, false, '#') && Calm("-", false, false, '#')
    ensures Calm("", false, false, '#')
  {}

  /** A printed line: padding, then a tight text. */
  lemma PaddedLine(n: nat, t: string)
    requires Tight(t)
    ensures var l := Pad(n) + t; Indent(l) == n && Content(l, n) == t
  {
    hide Strip, Indent;
    StripPadded(n, t);
    StripTight(t);
    assert (Pad(n) + t)[n..] == t;
  }

  lemma KeyText(k: Value, v: Value, st: Style)
    requires KeyOk(k, st) && Supported(v, st)
    ensures var t := st.spell(k) + ":" + After(v, st);
            && Tight(t) && !("- " <= t) && t != "-" && ColonAt(t) == |st.spell(k)| && ColonAt(t) < |t|
            && ParseScalar(t[..ColonAt(t)]) == k && Strip(t[ColonAt(t) + 1..]) == Inline(v, st)
  {
    hide ParseScalar, Spells, Calm, Inline, Strip, ColonAt, Supported;
    var s := st.spell(k);
    var t := s + ":" + After(v, st);
    ScalarReads(k, st, "");
    InlineFacts(v, st);
    FirstColon(s, After(v, st));
    assert t[..|s|] == s && t[|s| + 1..] == After(v, st) && t[0] == s[0] && t[|s|] == ':';
    assert |s| >= 2 ==> t[1] == s[1];
  }

  lemma ItemText(v: Value, st: Style)
    requires Supported(v, st)
    ensures var t := "-" + After(v, st); Tight(t) && IsItem(t) && Strip(t[1..]) == Inline(v, st)
  {
    hide Inline, Strip, Supported;
    InlineFacts(v, st);
    assert ("-" + After(v, st))[1..] == After(v, st);
  }

  lemma RestReads(v: Value, indent: nat, tail: seq<string>, inSeq: bool, st: Style)
    requires Supported(v, st) && (inSeq ==> ItemOk(v, st)) && st.step >= 1 && Outside(tail, indent)
    ensures Rest(Inline(v, st), Nested(v, indent, st) + tail, indent, inSeq) == Ok((v, tail))
    ensures (Inline(v, st) == "") == Deeper(Nested(v, indent, st) + tail, indent)
    decreases v, 1
  {
    hide ParseScalar, Spells, Calm, Flow, ColonAt, FlowText, Node, Indent, MapLines, SeqLines, Strip, IsSpace, NoBreaks;
    hide Suffix, TakesALine, DistinctKeys, EntryOk, FlowOk;
    InlineFacts(v, st);
    if IsScalar(v) {
      ScalarReads(v, st, "");
      assert [] + tail == tail;
    } else if Flows(v, st) {
      FlowReads(v, st);
      assert [] + tail == tail;
    } else {
      NodeReads(v, indent + st.step, tail, st);
    }
  }

  lemma EntryRest(e: (Value, Value), indent: nat, tail: seq<string>, st: Style)
    requires EntryOk(e, st) && st.step >= 1 && Outside(tail, indent)
    ensures Rest(Inline(e.1, st), Nested(e.1, indent, st) + tail, indent, false) == Ok((e.1, tail))
    ensures (Inline(e.1, st) == "") == Deeper(Nested(e.1, indent, st) + tail, indent)
    decreases e, 2
  {
    match e case (k, v) => RestReads(v, indent, tail, false, st);
  }

  /** The printed lines of a list of entries, taken apart at the first. */
  lemma MapUnfolds(es: seq<(Value, Value)>, indent: nat, post: seq<string>, st: Style)
    requires es != []
    ensures MapLines(es, indent, st) + post
         == [Pad(indent) + (st.spell(es[0].0) + ":" + After(es[0].1, st))]
            + (Nested(es[0].1, indent, st) + (MapLines(es[1..], indent, st) + post))
  {
    hide After, Nested;
    var (k, v) := es[0];
    assert EntryLines(es[0], indent, st) == [Pad(indent) + (st.spell(k) + ":" + After(v, st))] + Nested(v, indent, st);
  }

  lemma SeqUnfolds(items: seq<Value>, indent: nat, post: seq<string>, st: Style)
    requires items != []
    ensures SeqLines(items, indent, st) + post
         == [Pad(indent) + ("-" + After(items[0], st))] + (Nested(items[0], indent, st) + (SeqLines(items[1..], indent, st) + post))
  {
    hide After, Nested;
  }

  lemma MapReads(es: seq<(Value, Value)>, indent: nat, post: seq<string>, acc: seq<(Value, Value)>, st: Style)
    requires (forall i :: 0 <= i < |es| ==> EntryOk(es[i], st)) && DistinctKeys(acc + es)
    requires st.step >= 1 && Outside(post, indent - 1)
    ensures BlockMap(MapLines(es, indent, st) + post, indent, acc) == Ok((Dict(acc + es), post))
    decreases es, 0
  {
    hide ParseScalar, Supported, KeyOk, Indent, Content, Rest, Inline, After, Nested, Assign, DistinctKeys, Strip, ColonAt, Tight;
    hide EntryLines, Deeper, AsKey, Suffix, TakesALine;
    if es == [] {
      assert acc + es == acc && [] + post == post;
    } else {
      var (k, v) := es[0];
      var tail := MapLines(es[1..], indent, st) + post;
      var lines := MapLines(es, indent, st) + post;
      var t := st.spell(k) + ":" + After(v, st);
      KeyText(k, v, st);
      PaddedLine(indent, t);
      MapUnfolds(es, indent, post, st);
      MapTail(es[1..], indent, post, st);
      EntryRest(es[0], indent, tail, st);
      NewKey(acc, es);
      AssignNewKey(acc, k, v);
      assert (acc + [(k, v)]) + es[1..] == acc + es;
      MapReads(es[1..], indent, post, acc + [(k, v)], st);
    }
  }

  /** The lines after an entry are no deeper than the entry. */
  lemma MapTail(es: seq<(Value, Value)>, indent: nat, post: seq<string>, st: Style)
    requires (forall i :: 0 <= i < |es| ==> EntryOk(es[i], st)) && Outside(post, indent - 1)
    ensures Outside(MapLines(es, indent, st) + post, indent)
    ensures es != [] ==> var l := MapLines(es, indent, st) + post; l != [] && Indent(l[0]) == indent
  {
    hide Supported, KeyOk, Indent, Content, After, Nested, Tight;
    if es == [] {
      assert [] + post == post;
    } else {
      var (k, v) := es[0];
      KeyText(k, v, st);
      MapUnfolds(es, indent, post, st);
      PaddedLine(indent, st.spell(k) + ":" + After(v, st));
    }
  }

  lemma SeqReads(items: seq<Value>, indent: nat, post: seq<string>, acc: seq<Value>, st: Style)
    requires forall i :: 0 <= i < |items| ==> ItemOk(items[i], st)
    requires st.step >= 1 && Outside(post, indent - 1)
    ensures BlockSeq(SeqLines(items, indent, st) + post, indent, acc) == Ok((List(acc + items), post))
    decreases items, 0
  {
    hide ParseScalar, Supported, Indent, Content, Rest, Inline, After, Nested, Strip, Tight, IsItem;
    if items == [] {
      assert acc + items == acc && [] + post == post;
    } else {
      var v := items[0];
      var tail := SeqLines(items[1..], indent, st) + post;
      var lines := SeqLines(items, indent, st) + post;
      ItemText(v, st);
      PaddedLine(indent, "-" + After(v, st));
      SeqUnfolds(items, indent, post, st);
      SeqTail(items[1..], indent, post, st);
      RestReads(v, indent, tail, true, st);
      assert (acc + [v]) + items[1..] == acc + items;
      SeqReads(items[1..], indent, post, acc + [v], st);
    }
  }

  lemma SeqTail(items: seq<Value>, indent: nat, post: seq<string>, st: Style)
    requires (forall i :: 0 <= i < |items| ==> ItemOk(items[i], st)) && Outside(post, indent - 1)
    ensures Outside(SeqLines(items, indent, st) + post, indent)
    ensures items != [] ==> var l := SeqLines(items, indent, st) + post; l != [] && Indent(l[0]) == indent
  {
    hide Supported, Indent, Content, After, Nested, Tight, IsItem;
    if items == [] {
      assert [] + post == post;
    } else {
      ItemText(items[0], st);
      SeqUnfolds(items, indent, post, st);
      PaddedLine(indent, "-" + After(items[0], st));
    }
  }

  /** A block printed at some depth is read back whole, and only it. */
  lemma NodeReads(v: Value, indent: nat, post: seq<string>, st: Style)
    requires BlockOk(v, st) && v != Dict([]) && v != List([]) && st.step >= 1 && Outside(post, indent - 1)
    ensures var lines := Block(v, indent, st) + post;
            lines != [] && Indent(lines[0]) == indent && Node(lines, indent) == Ok((v, post))
    decreases v, 0
  {
    match v {
      case Dict(es) => MapNode(es, indent, post, st);
      case List(items) => SeqNode(items, indent, post, st);
    }
  }

  lemma MapNode(es: seq<(Value, Value)>, indent: nat, post: seq<string>, st: Style)
    requires es != [] && (forall i :: 0 <= i < |es| ==> EntryOk(es[i], st)) && DistinctKeys(es)
    requires st.step >= 1 && Outside(post, indent - 1)
    ensures var lines := MapLines(es, indent, st) + post;
            lines != [] && Indent(lines[0]) == indent && Node(lines, indent) == Ok((Dict(es), post))
    decreases es, 1
  {
    hide ParseScalar, Supported, Indent, Content, Rest, Inline, After, Nested, Strip, Tight, BlockMap, BlockSeq, ColonAt, KeyOk, MapLines;
    var (k, w) := es[0];
    var tail := MapLines(es[1..], indent, st) + post;
    MapReads(es, indent, post, [], st);
    MapTail(es[1..], indent, post, st);
    MapUnfolds(es, indent, post, st);
    KeyText(k, w, st);
    PaddedLine(indent, st.spell(k) + ":" + After(w, st));
    EntryRest(es[0], indent, tail, st);
    var lines := MapLines(es, indent, st) + post;
    assert lines[1..] == Nested(w, indent, st) + tail;
    assert [] + es == es;
  }

  lemma SeqNode(items: seq<Value>, indent: nat, post: seq<string>, st: Style)
    requires items != [] && forall i :: 0 <= i < |items| ==> ItemOk(items[i], st)
    requires st.step >= 1 && Outside(post, indent - 1)
    ensures var lines := SeqLines(items, indent, st) + post;
            lines != [] && Indent(lines[0]) == indent && Node(lines, indent) == Ok((List(items), post))
    decreases items, 1
  {
    hide ParseScalar, Supported, Indent, Content, Rest, Inline, After, Nested, Strip, Tight, BlockMap, BlockSeq, SeqLines, ColonAt, IsItem;
    SeqReads(items, indent, post, [], st);
    SeqUnfolds(items, indent, post, st);
    ItemText(items[0], st);
    PaddedLine(indent, "-" + After(items[0], st));
    assert [] + items == items;
  }

  // ---- whole texts --------------------------------------------------------

  /** A logical line: already free of comment, break and trailing space. */
  predicate CleanLine(l: string) {
    NoBreaks(l) && Calm(l, false, false, '#') && RStrip(l) == l && Strip(l) != ""
  }

  lemma PaddedIsClean(n: nat, t: string)
    requires Tight(t) && NoBreaks(t) && Calm(t, false, false, '#')
    ensures CleanLine(Pad(n) + t)
  {
    hide Strip, RStrip;
    StripPadded(n, t);
    PlainIsCalm(Pad(n), '#');
    CalmConcat(Pad(n), t, false, false, '#');
  }

  predicate CleanLines(lines: seq<string>) { forall i :: 0 <= i < |lines| ==> CleanLine(lines[i]) }

  lemma KeyLineIsClean(k: Value, v: Value, indent: nat, st: Style)
    requires KeyOk(k, st) && Supported(v, st)
    ensures CleanLine(Pad(indent) + (st.spell(k) + ":" + After(v, st)))
  {
    hide ParseScalar, Spells, Calm, Inline, Strip, ColonAt, Supported, CleanLine, After, Tight;
    var s := st.spell(k);
    KeyText(k, v, st);
    InlineFacts(v, st);
    ScalarReads(k, st, "");
    SpaceIsCalm();
    CalmConcat(":", After(v, st), false, false, '#');
    CalmConcat(s, ":" + After(v, st), false, false, '#');
    assert s + ":" + After(v, st) == s + (":" + After(v, st));
    PaddedIsClean(indent, s + ":" + After(v, st));
  }

  lemma ItemLineIsClean(v: Value, indent: nat, st: Style)
    requires Supported(v, st)
    ensures CleanLine(Pad(indent) + ("-" + After(v, st)))
  {
    hide Calm, Inline, Strip, Supported, CleanLine, After, Tight, IsItem;
    ItemText(v, st);
    InlineFacts(v, st);
    SpaceIsCalm();
    CalmConcat("-", After(v, st), false, false, '#');
    PaddedIsClean(indent, "-" + After(v, st));
  }

  lemma NestedIsClean(v: Value, indent: nat, st: Style)
    requires Supported(v, st)
    ensures CleanLines(Nested(v, indent, st))
    decreases v, 1
  {
    hide CleanLine, ScalarOk, FlowOk;
    if !IsScalar(v) && !Flows(v, st) { BlockIsClean(v, indent + st.step, st); }
  }

  lemma EntryIsClean(e: (Value, Value), indent: nat, st: Style)
    requires EntryOk(e, st)
    ensures CleanLines(EntryLines(e, indent, st))
    decreases e, 2
  {
    hide CleanLine, Nested, Supported, KeyOk;
    match e
    case (k, v) =>
      KeyLineIsClean(k, v, indent, st);
      NestedIsClean(v, indent, st);
  }

  lemma MapIsClean(es: seq<(Value, Value)>, indent: nat, st: Style)
    requires forall i :: 0 <= i < |es| ==> EntryOk(es[i], st)
    ensures CleanLines(MapLines(es, indent, st))
    decreases es
  {
    hide CleanLine, EntryLines, EntryOk;
    if es != [] {
      EntryIsClean(es[0], indent, st);
      MapIsClean(es[1..], indent, st);
    }
  }

  lemma SeqIsClean(items: seq<Value>, indent: nat, st: Style)
    requires forall i :: 0 <= i < |items| ==> ItemOk(items[i], st)
    ensures CleanLines(SeqLines(items, indent, st))
    decreases items
  {
    hide CleanLine, Nested, Supported;
    if items != [] {
      ItemLineIsClean(items[0], indent, st);
      NestedIsClean(items[0], indent, st);
      SeqIsClean(items[1..], indent, st);
    }
  }

  lemma BlockIsClean(v: Value, indent: nat, st: Style)
    requires BlockOk(v, st)
    ensures CleanLines(Block(v, indent, st))
    decreases v, 0
  {
    hide CleanLine, MapLines, SeqLines;
    match v {
      case Dict(es) => if es == [] { EmptyLine(indent, "{}"); } else { MapIsClean(es, indent, st); }
      case List(items) => if items == [] { EmptyLine(indent, "[]"); } else { SeqIsClean(items, indent, st); }
    }
  }

  lemma EmptyLine(indent: nat, t: string)
    requires t == "{}" || t == "[]"
    ensures CleanLine(Pad(indent) + t)
  {
    hide CleanLine;
    PlainIsCalm(t, '#');
    PaddedIsClean(indent, t);
  }

  /** What may follow a line's content, or fill a line of its own: spaces, then perhaps
      a comment with anything in it. */
  predicate IsNote(n: string) { n == "" || n[0] == '#' || (n[0] == ' ' && IsNote(n[1..])) }

  predicate AllSpaces(s: string) { forall i :: 0 <= i < |s| ==> s[i] == ' ' }

  lemma {:induction false} SpacesAreSpaces(n: string)
    requires IsNote(n)
    ensures AllSpaces(Uncommented(n, false, false))
  {
    if n != "" && n[0] != '#' { SpacesAreSpaces(n[1..]); }
  }

  lemma RStripSpace(s: string)
    ensures RStrip(s + " ") == RStrip(s)
  {
    assert (s + " ")[..|s|] == s;
  }

  lemma {:induction false} RStripSpaces(l: string, u: string)
    requires AllSpaces(u)
    ensures RStrip(l + u) == RStrip(l)
  {
    hide RStrip;
    if u == "" {
      assert l + u == l;
    } else {
      var w := u[..|u| - 1];
      RStripSpaces(l, w);
      RStripSpace(l + w);
      assert l + u == (l + w) + " ";
    }
  }

  /** Raw lines that carry these logical lines: each may be followed by a note, and
      lines with nothing but a note may stand anywhere. */
  predicate Annotates(raw: seq<string>, lines: seq<string>) {
    if raw == [] then lines == []
    else
      || (IsNote(raw[0]) && Annotates(raw[1..], lines))
      || (lines != [] && lines[0] <= raw[0] && IsNote(raw[0][|lines[0]|..]) && Annotates(raw[1..], lines[1..]))
  }

  lemma EmptyStrip()
    ensures RStrip("") == ""
  {}

  lemma LogicalOf(l: string, n: string)
    requires IsNote(n) && (l == "" || CleanLine(l))
    ensures Logical(l + n) == l && (l == "" <==> Strip(Logical(l + n)) == "") && (CleanLine(l) ==> l != "")
  {
    hide Uncommented, Strip, Calm, RStrip;
    EmptyFlow();
    EmptyStrip();
    CalmUncommented(l, n, false, false);
    SpacesAreSpaces(n);
    RStripSpaces(l, Uncommented(n, false, false));
  }

  lemma {:induction false} LogicalsOfAnnotated(raw: seq<string>, lines: seq<string>)
    requires Annotates(raw, lines) && CleanLines(lines)
    ensures Logicals(raw) == lines
  {
    hide Logical, CleanLine, Strip;
    if raw != [] {
      if IsNote(raw[0]) && Annotates(raw[1..], lines) {
        LogicalOf("", raw[0]);
        assert "" + raw[0] == raw[0];
        LogicalsOfAnnotated(raw[1..], lines);
      } else {
        LogicalOf(lines[0], raw[0][|lines[0]|..]);
        assert lines[0] + raw[0][|lines[0]|..] == raw[0];
        LogicalsOfAnnotated(raw[1..], lines[1..]);
      }
    }
  }

  function Joined(lines: seq<string>): (text: string) {
    if lines == [] then "" else lines[0] + "\n" + Joined(lines[1..])
  }

  lemma {:induction false} FirstBreakOf(l: string, more: string)
    requires NoBreaks(l)
    ensures FirstBreak(l + "\n" + more) == |l|
  {
    var t := l + "\n" + more;
    if l == "" {
      assert t[0] == '\n';
    } else {
      FirstBreakOf(l[1..], more);
      assert t[1..] == l[1..] + "\n" + more && t[0] == l[0];
    }
  }

  lemma {:induction false} SplitOfJoined(lines: seq<string>)
    requires forall i :: 0 <= i < |lines| ==> NoBreaks(lines[i])
    ensures SplitLines(Joined(lines)) == lines
  {
    hide IsBreak, FirstBreak, NoBreaks;
    if lines != [] {
      var t := Joined(lines);
      FirstBreakOf(lines[0], Joined(lines[1..]));
      SplitOfJoined(lines[1..]);
      assert t[..|lines[0]|] == lines[0] && t[|lines[0]| + 1..] == Joined(lines[1..]) && t[|lines[0]|] == '\n';
    }
  }

  lemma TopReads(v: Value, st: Style)
    requires BlockOk(v, st) && st.step >= 1
    ensures ParseLines(Block(v, 0, st)) == Ok(v)
  {
    hide Strip, ColonAt, CutFlow, Node, Block;
    if v == Dict([]) || v == List([]) {
      EmptyTop(v, st);
    } else {
      NodeReads(v, 0, [], st);
      assert Block(v, 0, st) + [] == Block(v, 0, st);
    }
  }

  lemma EmptyTop(v: Value, st: Style)
    requires v == Dict([]) || v == List([])
    ensures ParseLines(Block(v, 0, st)) == Ok(v)
  {
    hide Strip, CutFlow, LStrip, IsSpace;
    var t := if v.Dict? then "{}" else "[]";
    NotSpace(t);
    PaddedLine(0, t);
    EmptyFlow();
    assert Pad(0) + t == t && t[1..1] == "" && ColonAt(t) == 2 && Block(v, 0, st) == [t];
  }

  lemma NotSpace(t: string)
    requires t == "{}" || t == "[]"
    ensures Tight(t)
  {}

  /** The main result. A text that carries the printed lines of a value, in any layout
      and any spelling, with comments and blank lines anywhere, parses to that value. */
  lemma ParseOfPrint(v: Value, st: Style, raw: seq<string>)
    requires BlockOk(v, st) && st.step >= 1
    requires Annotates(raw, Block(v, 0, st)) && forall i :: 0 <= i < |raw| ==> NoBreaks(raw[i])
    ensures Parse(Joined(raw)) == Ok(v)
  {
    assert !IsScalar(v);
    hide ParseLines, Logicals, SplitLines, Block, BlockOk, Annotates, CleanLine;
    BlockIsClean(v, 0, st);
    LogicalsOfAnnotated(raw, Block(v, 0, st));
    SplitOfJoined(raw);
    TopReads(v, st);
  }

  // ---- every supported value has such a text ------------------------------

  function Decimal(n: nat): (s: string)
    ensures s != "" && AllDigits(s) && DigitsValue(s) == n && s[0] != '-' && s[0] != '+'
  {
    if n < 10 then [DigitChar(n)] else Decimal(n / 10) + [DigitChar(n % 10)]
  }

  /** The plainest spelling: words, decimal numbers, double-quoted strings. */
  function Spell(v: Value): (t: string) {
    match v
    case Null => "null"
    case Bool(b) => if b then "true" else "false"
    case Int(n) => if n < 0 then "-" + Decimal(-n) else Decimal(n)
    case Float(text) => text
    case Str(s) => "\"" + s + "\""
    case _ => ""
  }

  const CANONICAL := Style(2, (_: Value) => false, Spell)

  predicate PrintableScalar(v: Value) {
    match v
    case Float(text) => IsFloatText(text) && !IsIntText(text)
    case Str(s) => Carried(s)
    case _ => !v.List? && !v.Dict?
  }

  predicate PrintableEntry(e: (Value, Value))
    decreases e, 2
  {
    match e case (k, v) => PrintableScalar(k) && (k.Str? ==> ':' !in k.s) && Printable(v)
  }

  predicate PrintableItem(v: Value)
    decreases v, 2
  {
    Printable(v) && (v.Str? ==> ':' !in v.s)
  }

  /** The fragment, said of the value alone. */
  predicate Printable(v: Value)
    decreases v, 1
  {
    match v
    case Dict(es) => DistinctKeys(es) && forall i :: 0 <= i < |es| ==> PrintableEntry(es[i])
    case List(items) => forall i :: 0 <= i < |items| ==> PrintableItem(items[i])
    case _ => PrintableScalar(v)
  }

  lemma SpellSpells(v: Value)
    requires PrintableScalar(v)
    ensures IsScalar(v) && Spells(Spell(v), v) && ((v.Str? ==> ':' !in v.s) ==> ':' !in Spell(v)) && !("- " <= Spell(v))
  {
    hide Decimal, IsFloatText, DigitsValue;
    match v {
      case Int(n) =>
        if n < 0 { assert Spell(v)[1..] == Decimal(-n); }
      case Float(text) =>
        NumbersAreNumberText(text);
        NumberIsAtom(text);
      case Null => assert Spell(v)[0] == 'n';
      case Bool(b) => assert Spell(v)[0] == if b then 't' else 'f';
      case Str(s) => assert Spell(v)[0] == '"';
      case _ =>
    }
  }

  lemma PrintableIsSupported(v: Value)
    requires Printable(v)
    ensures Supported(v, CANONICAL) && (!IsScalar(v) ==> BlockOk(v, CANONICAL))
    decreases v, 1
  {
    hide Spells, Spell, PrintableScalar;
    match v {
      case Dict(es) =>
        forall i | 0 <= i < |es|
          ensures EntryOk(es[i], CANONICAL)
        {
          assert PrintableEntry(es[i]);
          match es[i]
          case (k, w) =>
            SpellSpells(k);
            PrintableIsSupported(w);
        }
      case List(items) =>
        forall i | 0 <= i < |items|
          ensures ItemOk(items[i], CANONICAL)
        {
          PrintableIsSupported(items[i]);
          if IsScalar(items[i]) { SpellSpells(items[i]); }
        }
      case _ => SpellSpells(v);
    }
  }

  function PrintText(v: Value): (text: string)
    requires !IsScalar(v)
  {
    Joined(Block(v, 0, CANONICAL))
  }

  lemma {:induction false} AnnotatesItself(lines: seq<string>)
    ensures Annotates(lines, lines)
  {
    if lines != [] {
      AnnotatesItself(lines[1..]);
      assert lines[0][|lines[0]|..] == "";
    }
  }

  /** Printing then parsing is the identity on the whole fragment. */
  lemma RoundTrip(v: Value)
    requires Printable(v) && !IsScalar(v)
    ensures Parse(PrintText(v)) == Ok(v)
  {
    hide Parse, Joined, Block, Annotates, Printable, CleanLine;
    PrintableIsSupported(v);
    AnnotatesItself(Block(v, 0, CANONICAL));
    BlockIsClean(v, 0, CANONICAL);
    BreaksOfClean(Block(v, 0, CANONICAL));
    ParseOfPrint(v, CANONICAL, Block(v, 0, CANONICAL));
  }

  lemma BreaksOfClean(lines: seq<string>)
    requires CleanLines(lines)
    ensures forall i :: 0 <= i < |lines| ==> NoBreaks(lines[i])
  {}

  // ---- where the fragment ends --------------------------------------------

  /** Stripping takes spaces off both ends and nothing else. */
  lemma {:induction false} LStripTakes(s: string)
    ensures var j := |s| - |LStrip(s)|; LStrip(s) == s[j..] && forall i :: 0 <= i < j ==> IsSpace(s[i])
  {
    if s != "" && IsSpace(s[0]) {
      LStripTakes(s[1..]);
      var j := |s| - |LStrip(s)|;
      assert s[1..][j - 1..] == s[j..];
      assert forall i :: 1 <= i < j ==> s[i] == s[1..][i - 1];
    }
  }

  lemma {:induction false} RStripTakes(s: string)
    ensures RStrip(s) <= s
  {
    if s != "" && IsSpace(s[|s| - 1]) { RStripTakes(s[..|s| - 1]); }
  }

  /** What stands before a text that is not blank is kept when its right end is stripped. */
  lemma {:induction false} RStripAfter(a: string, v: string)
    requires RStrip(v) != ""
    ensures RStrip(a + v) == a + RStrip(v)
    decreases |v|
  {
    hide IsSpace;
    if v != "" && IsSpace(v[|v| - 1]) {
      RStripAfter(a, v[..|v| - 1]);
      assert (a + v)[..|a + v| - 1] == a + v[..|v| - 1];
    }
  }

  lemma {:induction false} HeadStays(s: string)
    requires s != "" && !IsSpace(s[0])
    ensures LStrip(s) == s && RStrip(s) != "" && RStrip(s)[0] == s[0]
    decreases |s|
  {
    hide IsSpace;
    if IsSpace(s[|s| - 1]) { HeadStays(s[..|s| - 1]); }
  }

  /** A text that a bracket heads is longer, stripped, than what ends it. */
  lemma LongerWithHead(a: string, v: string)
    requires a != "" && !IsSpace(a[0])
    ensures |Strip(v)| < |Strip(a + v)|
  {
    var j := |v| - |LStrip(v)|;
    HeadStays(a + v);
    LStripTakes(v);
    if RStrip(v[j..]) != "" {
      RStripAfter(a + v[..j], v[j..]);
      assert a + v == (a + v[..j]) + v[j..];
    }
  }

  /** A text with a bracket at its head is a string, whatever follows. */
  lemma BracketIsText(t: string)
    requires StartsFlow(Strip(t))
    ensures ParseScalar(t) == Str(Strip(t))
  {
    hide Strip;
    var s := Strip(t);
    assert Unsigned(s) == s && !AllDigits(s);
    assert DotAt(s) > 0 && ExponentAt(s) > 0;
    assert !IsMantissa(s[..ExponentAt(s)]);
  }

  lemma ScalarIsNoLonger(t: string)
    ensures ParseScalar(t).Str? ==> |ParseScalar(t).s| <= |Strip(t)|
  {
    hide Strip, IsIntText, IsFloatText;
  }

  lemma {:induction false} FirstChunk(s: string, buf: string, single: bool, double: bool)
    ensures CutFlow(s, buf, single, double) != [] ==> CutFlow(s, buf, single, double)[0] <= buf + s
    decreases |s|
  {
    if s != "" {
      FirstChunk(s[1..], buf + [s[0]], SingleAfter(s[0], single, double), DoubleAfter(s[0], single, double));
      assert (buf + [s[0]]) + s[1..] == buf + s;
    }
  }

  /** The first key of a flow map is the text before its first colon. */
  lemma {:induction false} FirstFlowKey(chunks: seq<string>, acc: seq<(Value, Value)>)
    requires FlowEntries(chunks, acc).Ok? && (acc != [] || chunks != [])
    ensures var v := FlowEntries(chunks, acc).value;
            && v.Dict? && v.entries != []
            && v.entries[0].0 == if acc != [] then acc[0].0 else ParseScalar(chunks[0][..ColonAt(chunks[0])])
    decreases |chunks|
  {
    hide ParseScalar, ColonAt;
    if chunks != [] {
      var c := chunks[0];
      var k := ColonAt(c);
      FirstFlowKey(chunks[1..], Assign(acc, ParseScalar(c[..k]), ParseScalar(c[k + 1..])));
    }
  }

  /** Where the first chunk of a flow text stands: behind the bracket and some spaces. */
  lemma FlowOpens(t: string) returns (j: nat)
    requires |t| >= 2 && StartsFlow(t) && FlowChunks(t) != []
    ensures var c := FlowChunks(t)[0]; 1 <= j && j + |c| <= |t| && t[j..j + |c|] == c && ':' !in t[..j]
  {
    hide CutFlow, LStrip, RStrip, IsSpace;
    var body := t[1..|t| - 1];
    var i := |body| - |LStrip(body)|;
    var c := FlowChunks(t)[0];
    LStripTakes(body);
    RStripTakes(LStrip(body));
    FirstChunk(Strip(body), "", false, false);
    assert "" + Strip(body) == Strip(body);
    j := 1 + i;
    assert c <= body[i..] && body[i..] == t[j..|t| - 1];
    ColonIsNoSpace();
    assert forall n :: 1 <= n < j ==> t[n] == body[n - 1];
  }

  lemma ColonIsNoSpace()
    ensures !IsSpace(':')
  {}

  /** The colon that ends the first key of a flow map is the first one of the whole text. */
  lemma FirstColonOfFlow(t: string)
    requires t != "" && t[0] == '{' && |t| >= 2 && FlowChunks(t) != []
    requires var c := FlowChunks(t)[0]; ColonAt(c) < |c|
    ensures ColonAt(t) < |t|
    ensures var c := FlowChunks(t)[0];
            ColonAt(c) < ColonAt(t) && t[ColonAt(t) - ColonAt(c)..ColonAt(t)] == c[..ColonAt(c)]
  {
    hide FlowChunks, ColonAt;
    var j := FlowOpens(t);
    var c := FlowChunks(t)[0];
    var k := ColonAt(c);
    assert t[j..j + |c|][k] == ':' && t[j..j + k] == c[..k];
    assert t[..j + k] == t[..j] + c[..k];
    ColonHere(t, j + k);
  }

  lemma ColonHere(t: string, p: nat)
    requires p < |t| && t[p] == ':' && ':' !in t[..p]
    ensures ColonAt(t) == p
  {
    FirstColon(t[..p], t[p + 1..]);
    assert t == t[..p] + ":" + t[p + 1..];
  }

  /** A flow map and the block entry the same line spells have different first keys. */
  lemma KeysDiffer(t: string)
    requires Tight(t) && t[0] == '{' && ColonAt(t) < |t|
    ensures Flow(t).Ok? ==> Flow(t).value.Dict? && (Flow(t).value.entries != [] ==> Flow(t).value.entries[0].0 != Str(Strip(t[..ColonAt(t)])))
  {
    hide ParseScalar, ColonAt, FlowChunks, Strip, IsSpace, FlowEntries;
    if Flow(t).Ok? {
      var chunks := FlowChunks(t);
      NoChunks(chunks);
      if chunks != [] {
        FirstFlowKey(chunks, []);
        HasColon(chunks);
        FirstColonOfFlow(t);
        var c := chunks[0];
        var k, m := ColonAt(t), ColonAt(c);
        assert t[..k] == t[..k - m] + c[..m];
        BraceIsNoSpace();
        LongerWithHead(t[..k - m], c[..m]);
        ScalarIsNoLonger(c[..m]);
      }
    }
  }

  lemma BraceIsNoSpace()
    ensures !IsSpace('{') && !IsSpace('[')
  {}

  lemma NoChunks(chunks: seq<string>)
    requires FlowEntries(chunks, []).Ok?
    ensures FlowEntries(chunks, []).value.Dict? && (chunks == [] ==> FlowEntries(chunks, []).value == Dict([]))
  {
    if chunks != [] { FirstFlowKey(chunks, []); }
  }

  lemma HasColon(chunks: seq<string>)
    requires chunks != [] && FlowEntries(chunks, []).Ok?
    ensures ColonAt(chunks[0]) < |chunks[0]|
  {}

  /** A single line with a colon is a block map of one entry, brackets and all. */
  lemma OneLineMap(t: string)
    requires Tight(t) && StartsFlow(t) && ColonAt(t) < |t|
    ensures ParseLines([t]).Ok? ==>
              var v := ParseLines([t]).value; v.Dict? && |v.entries| == 1 && v.entries[0].0 == Str(Strip(t[..ColonAt(t)]))
  {
    hide Strip, ParseScalar, Flow, ColonAt, Suffix;
    PaddedLine(0, t);
    assert Pad(0) + t == t && [t][1..] == [];
    assert !IsItem(t);
    var k := ColonAt(t);
    BracketStays(t, k);
    BracketIsText(t[..k]);
    var rest := Rest(Strip(t[k + 1..]), [], 0, false);
    if Strip(t[k + 1..]) == "" {
      assert Node([t], 0) == Ok((Dict([(Str(Strip(t[..k])), Null)]), []));
    } else if rest.Err? {
      assert BlockMap([t], 0, []) == Err(rest.error);
    } else {
      var acc := Assign([], ParseScalar(t[..k]), rest.value.0);
      NothingLeft(rest.value.1);
      assert BlockMap([], 0, acc) == Ok((Dict(acc), []));
      assert BlockMap([t], 0, []) == Ok((Dict(acc), []));
    }
  }

  lemma NothingLeft(lines: seq<string>)
    requires Suffix(lines, [])
    ensures lines == []
  {}

  lemma BracketStays(t: string, k: nat)
    requires StartsFlow(t) && t[0] != ':' && k == ColonAt(t) && k <= |t|
    ensures StartsFlow(Strip(t[..k]))
  {
    hide IsSpace;
    BraceIsNoSpace();
    HeadStays(t[..k]);
  }

  /** A flow text on a line of its own. Without a colon it is read as a flow node, errors
      included. With one it is taken for a block entry whose key begins with the bracket,
      so a flow text that is well formed is read as itself if and only if it holds no
      colon, nested brackets and quotes notwithstanding. */
  lemma FlowOnItsOwnLine(t: string)
    requires Tight(t) && StartsFlow(t)
    ensures ':' !in t ==> ParseLines([t]) == Flow(t)
    ensures ':' in t && ParseLines([t]).Ok? ==>
              var v := ParseLines([t]).value; v.Dict? && |v.entries| == 1 && v.entries[0].0 == Str(Strip(t[..ColonAt(t)]))
    ensures Flow(t).Ok? ==> (ParseLines([t]) == Flow(t) <==> ':' !in t)
  {
    hide Strip, ParseScalar, Flow, ColonAt, ParseLines;
    ColonIn(t);
    if ':' in t {
      OneLineMap(t);
      if t[0] == '{' { KeysDiffer(t); } else { FlowList(t); }
    } else {
      OneLineFlow(t);
    }
  }

  lemma ColonIn(t: string)
    ensures ':' in t <==> ColonAt(t) < |t|
  {
    hide ColonAt;
    if ColonAt(t) == |t| { assert t[..|t|] == t; }
  }

  lemma FlowList(t: string)
    requires StartsFlow(t) && t[0] == '['
    ensures Flow(t).Ok? ==> Flow(t).value.List?
  {}

  lemma OneLineFlow(t: string)
    requires Tight(t) && StartsFlow(t) && ColonAt(t) == |t|
    ensures ParseLines([t]) == Flow(t)
  {
    hide Strip, ParseScalar, Flow, ColonAt;
    PaddedLine(0, t);
    assert Pad(0) + t == t && [t][1..] == [] && !IsItem(t);
  }

  /** Unclosed, the two readings can fail alike. */
  lemma UnclosedFailsAlike()
    ensures ParseLines(["{a: {b"]) == Flow("{a: {b") == Err(UnterminatedFlowMap)
  {
    hide Strip, ParseScalar, ColonAt, Flow, Indent, Content, Assign, IsSpace, Pad;
    var t := "{a: {b";
    BraceIsNoSpace();
    LetterIsNoSpace();
    PaddedLine(0, t);
    PaddedLine(1, "{b");
    StripPadded(1, "{b");
    StripTight("{b");
    assert Pad(0) + t == t && Pad(1) + "{b" == t[3..];
    ColonHere(t, 2);
    Unclosed("{b");
    Unclosed(t);
    assert !IsItem(t);
    assert Rest("{b", [t][1..], 0, false) == Err(UnterminatedFlowMap);
    assert BlockMap([t], 0, []) == Err(UnterminatedFlowMap);
  }

  lemma LetterIsNoSpace()
    ensures !IsSpace('b') && Pad(1) == " " && Pad(0) == ""
  {}

  lemma Unclosed(t: string)
    requires t != "" && t[0] == '{' && t[|t| - 1] == 'b'
    ensures Flow(t) == Err(UnterminatedFlowMap)
  {}
}
