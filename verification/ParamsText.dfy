/** Characters, stripping, comments and scalars of the params text format. */
module ParamsText {
  import opened TextOrder

  // ---- characters ---------------------------------------------------------

  predicate IsSpace(c: char) {
    var n := c as int;
    || 9 <= n <= 13 || 28 <= n <= 32 || n == 0x85 || n == 0xA0 || n == 0x1680 || 0x2000 <= n <= 0x200A
    || n == 0x2028 || n == 0x2029 || n == 0x202F || n == 0x205F || n == 0x3000
  }

  predicate IsBreak(c: char) {
    var n := c as int;
    10 <= n <= 13 || 28 <= n <= 30 || n == 0x85 || n == 0x2028 || n == 0x2029
  }

  predicate IsQuote(c: char) { c == '"' || c == '\'' }

  function LStrip(s: string): (r: string)
    ensures |r| <= |s|
  {
    if s != "" && IsSpace(s[0]) then LStrip(s[1..]) else s
  }

  function RStrip(s: string): (r: string) {
    if s != "" && IsSpace(s[|s| - 1]) then RStrip(s[..|s| - 1]) else s
  }

  function Strip(s: string): (r: string) { RStrip(LStrip(s)) }

  /** How far a line is indented. */
  function Indent(s: string): (n: nat) { |s| - |LStrip(s)| }

  // ---- lines --------------------------------------------------------------

  predicate NoBreaks(s: string) { forall i :: 0 <= i < |s| ==> !IsBreak(s[i]) }

  function FirstBreak(t: string): (k: nat)
    ensures k <= |t| && NoBreaks(t[..k]) && (k < |t| ==> IsBreak(t[k]))
  {
    if t == "" || IsBreak(t[0]) then 0
    else var k := FirstBreak(t[1..]); assert t[..k + 1] == [t[0]] + t[1..][..k]; k + 1
  }

  function SplitLines(t: string): (lines: seq<string>)
    decreases |t|
  {
    if t == "" then []
    else
      var k := FirstBreak(t);
      if k == |t| then [t]
      else if t[k] == '\r' && k + 1 < |t| && t[k + 1] == '\n' then [t[..k]] + SplitLines(t[k + 2..])
      else [t[..k]] + SplitLines(t[k + 1..])
  }

  // ---- comments -----------------------------------------------------------

  function SingleAfter(c: char, single: bool, double: bool): bool { if c == '\'' && !double then !single else single }

  /** The double-quote state is judged with the single-quote state of before. */
  function DoubleAfter(c: char, single: bool, double: bool): bool {
    if c == '\'' && !double then double else if c == '"' && !single then !double else double
  }

  function Uncommented(s: string, single: bool, double: bool): (r: string) {
    if s == "" then ""
    else
      var s', d' := SingleAfter(s[0], single, double), DoubleAfter(s[0], single, double);
      if s[0] == '#' && !s' && !d' then "" else [s[0]] + Uncommented(s[1..], s', d')
  }

  lemma UncommentedStep(line: string, i: nat, single: bool, double: bool)
    requires i < |line|
    ensures var s', d' := SingleAfter(line[i], single, double), DoubleAfter(line[i], single, double);
            var more := Uncommented(line[i + 1..], s', d');
            Uncommented(line[i..], single, double) == if line[i] == '#' && !s' && !d' then "" else [line[i]] + more
  {
    assert line[i..][0] == line[i] && line[i..][1..] == line[i + 1..];
  }

  method StripComment(line: string) returns (r: string)
    ensures r == Uncommented(line, false, false)
  {
    r := "";
    var single, double := false, false;
    var i := 0;
    assert line[0..] == line && Uncommented("", false, false) == "";
    hide Uncommented;
    while i < |line|
      invariant 0 <= i <= |line|
      invariant r + Uncommented(line[i..], single, double) == Uncommented(line, false, false)
    {
      var ch := line[i];
      UncommentedStep(line, i, single, double);
      if ch == '\'' && !double { single := !single; } else if ch == '"' && !single { double := !double; }
      if ch == '#' && !single && !double { break; }
      r := r + [ch];
      i := i + 1;
    }
  }

  // ---- values and scalars -------------------------------------------------

  /** Floats keep their literal text; dictionaries keep insertion order. */
  datatype Value =
    | Null
    | Bool(b: bool)
    | Int(n: int)
    | Float(text: string)
    | Str(s: string)
    | List(items: seq<Value>)
    | Dict(entries: seq<(Value, Value)>)

  predicate IsTrueWord(t: string) { t == "true" || t == "True" || t == "TRUE" }

  predicate IsFalseWord(t: string) { t == "false" || t == "False" || t == "FALSE" }

  predicate IsNullWord(t: string) { t == "null" || t == "Null" || t == "NULL" || t == "~" || t == "" }

  function Unsigned(t: string): (r: string) {
    if t != "" && (t[0] == '-' || t[0] == '+') then t[1..] else t
  }

  predicate IsIntText(t: string) { Unsigned(t) != "" && AllDigits(Unsigned(t)) }

  function IntValue(t: string): (n: int)
    requires IsIntText(t)
  {
    if t[0] == '-' then 0 - (DigitsValue(t[1..]) as int) else DigitsValue(Unsigned(t))
  }

  /** Position of the first `e` or `E`. */
  function ExponentAt(t: string): (k: nat)
    ensures k <= |t|
  {
    if t == "" || t[0] == 'e' || t[0] == 'E' then 0 else 1 + ExponentAt(t[1..])
  }

  function DotAt(t: string): (k: nat)
    ensures k <= |t|
  {
    if t == "" || t[0] == '.' then 0 else 1 + DotAt(t[1..])
  }

  predicate IsMantissa(t: string) {
    var k := DotAt(t);
    if k == |t| then t != "" && AllDigits(t)
    else AllDigits(t[..k]) && AllDigits(t[k + 1..]) && |t| > 1
  }

  /** A float literal, told apart from an integer by a point or an exponent. */
  predicate IsFloatText(t: string) {
    var u := Unsigned(t);
    var k := ExponentAt(u);
    && IsMantissa(u[..k])
    && (k < |u| ==> IsIntText(u[k + 1..]))
    && (k < |u| || DotAt(u) < |u|)
  }

  predicate Sign(s: string) { s == "" || s == "+" || s == "-" }

  /** An integer literal is a sign, or none, and digits. */
  ghost predicate IntParts(t: string, sign: string, digits: string) {
    Sign(sign) && digits != "" && AllDigits(digits) && t == sign + digits
  }

  lemma IntMeans(t: string)
    ensures IsIntText(t) <==> exists sign, digits :: IntParts(t, sign, digits)
    ensures forall sign, digits :: IntParts(t, sign, digits) && IsIntText(t) ==>
              IntValue(t) == if sign == "-" then -(DigitsValue(digits) as int) else DigitsValue(digits)
  {
    if IsIntText(t) {
      var u := Unsigned(t);
      var sign := t[..|t| - |u|];
      assert IntParts(t, sign, u);
    }
    forall sign, digits | IntParts(t, sign, digits)
      ensures Unsigned(t) == digits && (t[0] == '-' <==> sign == "-")
    {
      if sign == "" { assert t == digits; } else { assert t[1..] == digits; }
    }
  }

  /** A float literal is a sign, or none, digits with a point and digits after it, one of
      the two not empty, and an exponent; point or exponent may be missing, not both. */
  ghost predicate FloatParts(t: string, sign: string, whole: string, fraction: string, exponent: string) {
    && Sign(sign) && AllDigits(whole) && t == sign + whole + fraction + exponent
    && (fraction == "" || (fraction[0] == '.' && AllDigits(fraction[1..]))) && (whole != "" || |fraction| > 1)
    && (exponent == "" || ((exponent[0] == 'e' || exponent[0] == 'E') && IsIntText(exponent[1..])))
    && (fraction != "" || exponent != "")
  }

  lemma FloatMeans(t: string)
    ensures IsFloatText(t) <==> exists sign, whole, fraction, exponent :: FloatParts(t, sign, whole, fraction, exponent)
  {
    hide IsIntText;
    if IsFloatText(t) { FloatHasParts(t); }
    if sign, whole, fraction, exponent :| FloatParts(t, sign, whole, fraction, exponent) { PartsMakeFloat(t, sign, whole, fraction, exponent); }
  }

  lemma {:induction false} ExponentMeans(t: string)
    ensures var k := ExponentAt(t); (k < |t| ==> t[k] == 'e' || t[k] == 'E') && forall i :: 0 <= i < k ==> t[i] != 'e' && t[i] != 'E'
  {
    if t != "" && t[0] != 'e' && t[0] != 'E' {
      ExponentMeans(t[1..]);
      assert forall i :: 0 < i < |t| ==> t[i] == t[1..][i - 1];
    }
  }

  lemma {:induction false} DotMeans(t: string)
    ensures var k := DotAt(t); (k < |t| ==> t[k] == '.') && forall i :: 0 <= i < k ==> t[i] != '.'
  {
    if t != "" && t[0] != '.' {
      DotMeans(t[1..]);
      assert forall i :: 0 < i < |t| ==> t[i] == t[1..][i - 1];
    }
  }

  lemma ExponentIs(t: string, k: nat)
    requires k <= |t| && (k < |t| ==> t[k] == 'e' || t[k] == 'E') && forall i :: 0 <= i < k ==> t[i] != 'e' && t[i] != 'E'
    ensures ExponentAt(t) == k
  {
    ExponentMeans(t);
  }

  lemma DotIs(t: string, k: nat)
    requires k <= |t| && (k < |t| ==> t[k] == '.') && forall i :: 0 <= i < k ==> t[i] != '.'
    ensures DotAt(t) == k
  {
    DotMeans(t);
  }

  ghost predicate MantissaParts(m: string, whole: string, fraction: string) {
    && AllDigits(whole) && m == whole + fraction && (whole != "" || |fraction| > 1)
    && (fraction == "" || (fraction[0] == '.' && AllDigits(fraction[1..])))
  }

  lemma MantissaMeans(m: string)
    ensures IsMantissa(m) ==> MantissaParts(m, m[..DotAt(m)], m[DotAt(m)..])
    ensures forall whole, fraction :: MantissaParts(m, whole, fraction) ==> IsMantissa(m) && DotAt(m) == |whole|
  {
    DotMeans(m);
    var k := DotAt(m);
    assert m == m[..k] + m[k..];
    if k < |m| { assert m[k..][1..] == m[k + 1..]; } else { assert m[..k] == m; }
    forall whole, fraction | MantissaParts(m, whole, fraction)
      ensures IsMantissa(m) && DotAt(m) == |whole|
    {
      assert forall i :: 0 <= i < |whole| ==> m[i] == whole[i];
      DotIs(m, |whole|);
      assert m[..|whole|] == whole;
      if fraction != "" { assert m[|whole| + 1..] == fraction[1..]; } else { assert m == whole; }
    }
  }

  lemma FloatHasParts(t: string)
    requires IsFloatText(t)
    ensures exists sign, whole, fraction, exponent :: FloatParts(t, sign, whole, fraction, exponent)
  {
    var u := Unsigned(t);
    var k := ExponentAt(u);
    SignedText(t);
    ExponentMeans(u);
    hide IsIntText, IsMantissa, ExponentAt, DotAt, AllDigits, Unsigned;
    var m, exponent := u[..k], u[k..];
    if k < |u| { assert exponent[1..] == u[k + 1..]; } else { assert m == u; }
    MantissaMeans(m);
    DotMeans(m);
    var sign :| Sign(sign) && t == sign + u;
    JoinParts(t, sign, u, m, m[..DotAt(m)], m[DotAt(m)..], exponent);
  }

  lemma SignedText(t: string)
    ensures exists sign :: Sign(sign) && t == sign + Unsigned(t)
  {
    var sign := t[..|t| - |Unsigned(t)|];
    assert Sign(sign) && t == sign + Unsigned(t);
  }

  lemma JoinParts(t: string, sign: string, u: string, m: string, whole: string, fraction: string, exponent: string)
    requires Sign(sign) && t == sign + u && u == m + exponent && MantissaParts(m, whole, fraction)
    requires exponent == "" || ((exponent[0] == 'e' || exponent[0] == 'E') && IsIntText(exponent[1..]))
    requires fraction != "" || exponent != ""
    ensures FloatParts(t, sign, whole, fraction, exponent)
  {
    hide AllDigits, IsIntText;
  }

  lemma NoExponentInside(m: string, whole: string, fraction: string)
    requires MantissaParts(m, whole, fraction)
    ensures forall i :: 0 <= i < |m| ==> m[i] != 'e' && m[i] != 'E'
  {
    forall i | 0 <= i < |m|
      ensures m[i] != 'e' && m[i] != 'E'
    {
      if i < |whole| { assert m[i] == whole[i]; }
      else if i > |whole| { assert m[i] == fraction[1..][i - |whole| - 1]; }
    }
  }

  lemma CutAt(u: string, m: string, exponent: string)
    requires u == m + exponent && forall i :: 0 <= i < |m| ==> m[i] != 'e' && m[i] != 'E'
    requires exponent == "" || exponent[0] == 'e' || exponent[0] == 'E'
    ensures ExponentAt(u) == |m| && u[..|m|] == m && (exponent != "" ==> u[|m| + 1..] == exponent[1..])
  {
    assert forall i :: 0 <= i < |m| ==> u[i] == m[i];
    ExponentIs(u, |m|);
  }

  lemma PartsMakeFloat(t: string, sign: string, whole: string, fraction: string, exponent: string)
    requires FloatParts(t, sign, whole, fraction, exponent)
    ensures IsFloatText(t)
  {
    hide IsIntText, IsMantissa, ExponentAt, DotAt;
    var m := whole + fraction;
    var u := m + exponent;
    assert t == sign + u;
    UnsignedIs(sign, u, whole, fraction);
    assert MantissaParts(m, whole, fraction);
    hide AllDigits, Unsigned;
    NoExponentInside(m, whole, fraction);
    CutAt(u, m, exponent);
    MantissaMeans(m);
    if exponent == "" { assert u == m; }
  }

  lemma UnsignedIs(sign: string, u: string, whole: string, fraction: string)
    requires Sign(sign) && AllDigits(whole) && u != "" && whole + fraction <= u && (whole == "" ==> fraction != "" && fraction[0] == '.')
    ensures Unsigned(sign + u) == u
  {
    assert u[0] == (whole + fraction)[0];
    if sign == "" { assert sign + u == u; } else { assert (sign + u)[1..] == u; }
  }

  function ParseScalar(text: string): (v: Value) {
    var t := Strip(text);
    if |t| >= 2 && t[0] == t[|t| - 1] && IsQuote(t[0]) then Str(t[1..|t| - 1])
    else if IsTrueWord(t) then Bool(true)
    else if IsFalseWord(t) then Bool(false)
    else if IsNullWord(t) then Null
    else if IsIntText(t) then Int(IntValue(t))
    else if IsFloatText(t) then Float(t)
    else Str(t)
  }

  /** Booleans and integers are equal as dictionary keys. */
  function AsKey(v: Value): (k: Value) {
    match v case Bool(b) => Int(if b then 1 else 0) case _ => v
  }

  /** Assignment into a dictionary: an equal key keeps its place and its spelling. */
  function Assign(entries: seq<(Value, Value)>, key: Value, value: Value): (r: seq<(Value, Value)>) {
    if entries == [] then [(key, value)]
    else if AsKey(entries[0].0) == AsKey(key) then [(entries[0].0, value)] + entries[1..]
    else [entries[0]] + Assign(entries[1..], key, value)
  }

  lemma {:induction false} AssignNewKey(entries: seq<(Value, Value)>, key: Value, value: Value)
    requires forall i :: 0 <= i < |entries| ==> AsKey(entries[i].0) != AsKey(key)
    ensures Assign(entries, key, value) == entries + [(key, value)]
  {
    if entries != [] {
      AssignNewKey(entries[1..], key, value);
      assert entries == [entries[0]] + entries[1..];
    }
  }

  /** An equal key keeps its place and its spelling and takes the new value. */
  lemma {:induction false} AssignOldKey(entries: seq<(Value, Value)>, key: Value, value: Value, k: nat)
    requires k < |entries| && AsKey(entries[k].0) == AsKey(key) && forall i :: 0 <= i < k ==> AsKey(entries[i].0) != AsKey(key)
    ensures Assign(entries, key, value) == entries[k := (entries[k].0, value)]
  {
    if k > 0 {
      AssignOldKey(entries[1..], key, value, k - 1);
      assert entries == [entries[0]] + entries[1..];
    }
  }

  /** Keys are equal as they are, but for true and one, and false and zero. */
  lemma KeysAgree(a: Value, b: Value)
    ensures AsKey(a) == AsKey(b) <==>
              || a == b || (a == Bool(true) && b == Int(1)) || (a == Int(1) && b == Bool(true))
              || (a == Bool(false) && b == Int(0)) || (a == Int(0) && b == Bool(false))
  {}

  // ---- cutting ------------------------------------------------------------

  function ColonAt(t: string): (k: nat)
    ensures k <= |t| && (k < |t| ==> t[k] == ':') && ':' !in t[..k]
  {
    if t == "" || t[0] == ':' then 0
    else var k := ColonAt(t[1..]); assert t[..k + 1] == [t[0]] + t[1..][..k]; k + 1
  }

  /** The flow list cut at its top-level commas. */
  function CutFlow(s: string, buf: string, single: bool, double: bool): (parts: seq<string>) {
    if s == "" then (if buf == "" then [] else [buf])
    else
      var s', d' := SingleAfter(s[0], single, double), DoubleAfter(s[0], single, double);
      if s[0] == ',' && !s' && !d' then [buf] + CutFlow(s[1..], "", s', d')
      else CutFlow(s[1..], buf + [s[0]], s', d')
  }

  method SplitFlow(inner: string) returns (parts: seq<string>)
    ensures parts == CutFlow(inner, "", false, false)
  {
    parts := [];
    var buf := "";
    var single, double := false, false;
    var i := 0;
    assert inner[0..] == inner;
    while i < |inner|
      invariant 0 <= i <= |inner|
      invariant parts + CutFlow(inner[i..], buf, single, double) == CutFlow(inner, "", false, false)
    {
      var ch := inner[i];
      assert inner[i..][0] == ch && inner[i..][1..] == inner[i + 1..];
      if ch == '\'' && !double { single := !single; } else if ch == '"' && !single { double := !double; }
      if ch == ',' && !single && !double {
        parts := parts + [buf];
        buf := "";
      } else {
        buf := buf + [ch];
      }
      i := i + 1;
    }
    if buf != "" { parts := parts + [buf]; }
  }
}
