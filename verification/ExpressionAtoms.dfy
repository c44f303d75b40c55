/** A spelling of every condition the language can express, and the proof that the lexer reads it
    (common/request_expression.h, request_expression_parser).
    The spelling quotes and escapes values, leaves addresses bare where they may stand bare, and
    writes operators as words. Whatever stands before or after, the lexer reads the condition back;
    module ExpressionForms concludes that printing any accepted expression loses nothing. */
module ExpressionAtoms {
  // The checks below are the parser's own, on literals, fields, operators, lists and calls. Conditions
  // that pass them are exactly what the parser can produce.

  import opened RequestExpression
  import opened ExpressionPrinting

  const HEADERS := "http.request.headers"

  // ---------------------------------------------------------------------------
  // Conditions that can be expressed
  // ---------------------------------------------------------------------------

  predicate AllName(s: string) { forall c :: c in s ==> NameChar(c) }

  predicate Unescapable(c: char) { 32 as char <= c && c != 127 as char }

  /** What a quoted literal can hold. */
  predicate TextOk(v: string, foreign: Foreign) { (forall c :: c in v ==> Unescapable(c)) && |v| <= 512 && foreign.utf8(v) }

  /** Addresses and network numbers may stand unquoted, and are then checked for their characters only. */
  predicate Bare(field: string, v: string, context: Context) {
    context.Security? && (field == "ip.src" || field == "ip.src.asnum") && v != [] && forall c :: c in v ==> AddressChar(c)
  }

  predicate ScalarOk(field: string, v: string, context: Context, foreign: Foreign) { Bare(field, v, context) || TextOk(v, foreign) }

  predicate Upper(s: string) { exists c :: c in s && 'A' <= c <= 'Z' }

  predicate FieldOk(c: Condition, context: Context, foreign: Foreign) {
    if c.field == HEADERS then TextOk(c.header, foreign) && foreign.token(c.header) && !Upper(c.header)
    else c.header == [] && (c.field in FIELDS || (context.Security? && c.field in SECURITY_FIELDS))
  }

  predicate Calls(c: Condition) { c.comparison == "starts_with" || c.comparison == "ends_with" }

  predicate ConditionOk(c: Condition, context: Context, foreign: Foreign) {
    && FieldOk(c, context, foreign)
    && if Calls(c) then c.list == [] && |c.values| == 1 && TextOk(c.values[0], foreign)
       else if c.list != [] then c.comparison == "in" && context.Security? && c.values == [] && AllName(c.list)
       else if c.comparison == "in" then |c.values| <= 100 && AllOk(c.field, c.values, context, foreign)
       else
         && c.comparison in COMPARISONS && |c.values| == 1 && ScalarOk(c.field, c.values[0], context, foreign)
         && (c.comparison == "matches" ==> foreign.pattern(c.values[0]))
         && (EndsWithWildcard(c.comparison) ==> WildcardOk(c.values[0], false, false))
  }

  // ---------------------------------------------------------------------------
  // Their spelling
  // ---------------------------------------------------------------------------

  /** How a character is written inside quotes. */
  function Head(c: char): (h: string) { if c == '"' || c == '\\' then ['\\', c] else [c] }

  function Escape(v: string): string {
    if v == [] then [] else Head(v[0]) + Escape(v[1..])
  }

  function Quoted(v: string): string { "\"" + (Escape(v) + "\"") }

  /** How the writer chose: symbols for the operators that have one, and raw literals with so many
      hash signs for some values. */
  datatype Choice = Choice(symbol: bool, raw: map<string, nat>)

  /** At most eight hash signs, and no quote in the value is followed by that many. */
  predicate RawOk(v: string, h: nat) {
    h <= 8 && forall i :: 0 <= i < |v| && v[i] == '"' ==> !HasAt(v + "\"" + Hashes(h), i + 1, Hashes(h))
  }

  type Style = c: Choice | forall v :: v in c.raw ==> RawOk(v, c.raw[v]) witness Choice(false, map[])

  function RawText(v: string, h: nat): string { "r" + (Hashes(h) + ("\"" + (v + "\"" + Hashes(h)))) }

  function LiteralText(style: Style, v: string): string { if v in style.raw then RawText(v, style.raw[v]) else Quoted(v) }

  /** Where a bare address may stand a literal must begin with its quote. */
  predicate Addressed(field: string, context: Context) { context.Security? && (field == "ip.src" || field == "ip.src.asnum") }

  function ScalarText(style: Style, field: string, v: string, context: Context): string {
    if Bare(field, v, context) then v else if Addressed(field, context) then Quoted(v) else LiteralText(style, v)
  }

  function OperatorText(style: Style, op: string): string {
    if style.symbol && op == "eq" then "=="
    else if style.symbol && op == "ne" then "!="
    else if style.symbol && op == "matches" then "~"
    else op
  }

  function NameText(style: Style, c: Condition): string { if c.field == HEADERS then c.field + ("[" + (LiteralText(style, c.header) + "][0]")) else c.field }

  function FieldText(style: Style, c: Condition): string { if c.lower then "lower(" + (NameText(style, c) + ")") else NameText(style, c) }

  function Items(style: Style, field: string, values: seq<string>, context: Context): string {
    if values == [] then "}" else ScalarText(style, field, values[0], context) + (" " + Items(style, field, values[1..], context))
  }

  function ConditionText(style: Style, c: Condition, context: Context): string {
    if |c.values| == 1 && Calls(c) then c.comparison + ("(" + (FieldText(style, c) + ("," + (LiteralText(style, c.values[0]) + ")"))))
    else if c.list != [] then FieldText(style, c) + (" " + ("in" + (" $" + c.list)))
    else if c.comparison == "in" then FieldText(style, c) + (" " + ("in" + (" {" + Items(style, c.field, c.values, context))))
    else if |c.values| == 1 then FieldText(style, c) + (" " + (OperatorText(style, c.comparison) + (" " + ScalarText(style, c.field, c.values[0], context))))
    else ""
  }

  // ---------------------------------------------------------------------------
  // Words, names and literals
  // ---------------------------------------------------------------------------

  lemma WordRead(t: string, at: nat, w: string)
    requires w != [] && !Blank(w[0]) && HasAt(t, at, w) && (at + |w| == |t| || !WordChar(t[at + |w|]))
    ensures Keyword(t, at, w) == (true, at + |w|)
  {
    HasAtChar(t, at, w, 0);
  }

  lemma WordAbsent(t: string, at: nat, w: string)
    requires at < |t| && !Blank(t[at]) && w != [] && t[at] != w[0]
    ensures Keyword(t, at, w) == (false, at)
  {
    NotHere(t, at, w);
  }

  lemma {:induction false} NameEndIs(t: string, at: nat, f: string)
    requires HasAt(t, at, f) && AllName(f) && (at + |f| == |t| || !NameChar(t[at + |f|]))
    ensures NameEnd(t, at) == at + |f|
    decreases |f|
  {
    if f != [] {
      HasAtChar(t, at, f, 0);
      HasAtSplit(t, at, [f[0]], f[1..]);
      assert [f[0]] + f[1..] == f;
      NameEndIs(t, at + 1, f[1..]);
    }
  }

  lemma IdentifierIs(t: string, at: nat, f: string)
    requires HasAt(t, at, f) && f != [] && AllName(f) && (at + |f| == |t| || !NameChar(t[at + |f|]))
    ensures Identifier(t, at) == Ok(f, at + |f|)
  {
    HasAtChar(t, at, f, 0);
    assert f[0] in f;
    NameEndIs(t, at, f);
  }

  lemma EscapeSplit(v: string)
    requires v != []
    ensures Escape(v) + "\"" == Head(v[0]) + (Escape(v[1..]) + "\"")
    ensures |Escape(v)| == |Head(v[0])| + |Escape(v[1..])|
  {
  }

  lemma BodyEnds(t: string, at: nat, value: string, foreign: Foreign)
    requires at < |t| && t[at] == '"' && |value| <= 512 && foreign.utf8(value)
    ensures LiteralBody(t, at, false, 0, value, foreign) == Ok(value, at + 1)
  {
  }

  lemma BodyTakes(t: string, at: nat, next: nat, c: char, value: string, foreign: Foreign)
    requires HasAt(t, at, Head(c)) && Unescapable(c) && next == at + |Head(c)|
    ensures next <= |t| && LiteralBody(t, at, false, 0, value, foreign) == LiteralBody(t, next, false, 0, value + [c], foreign)
  {
    HasAtChar(t, at, Head(c), 0);
    HasAtChar(t, at, Head(c), |Head(c)| - 1);
  }

  lemma Shifted(prefix: string, v: string)
    requires v != []
    ensures prefix + [v[0]] + v[1..] == prefix + v && v[0] in prefix + v
  {
  }

  lemma EscapedStep(t: string, at: nat, next: nat, v: string, prefix: string, foreign: Foreign)
    requires v != [] && HasAt(t, at, Escape(v) + "\"") && next == at + |Head(v[0])| && Unescapable(v[0])
    ensures next <= |t| && HasAt(t, next, Escape(v[1..]) + "\"") && at + |Escape(v)| == next + |Escape(v[1..])|
    ensures LiteralBody(t, at, false, 0, prefix, foreign) == LiteralBody(t, next, false, 0, prefix + [v[0]], foreign)
  {
    EscapeSplit(v);
    HasAtSplit(t, at, Head(v[0]), Escape(v[1..]) + "\"");
    BodyTakes(t, at, next, v[0], prefix, foreign);
  }

  lemma EscapedEnd(t: string, at: nat, prefix: string, foreign: Foreign)
    requires HasAt(t, at, Escape([]) + "\"") && |prefix| <= 512 && foreign.utf8(prefix)
    ensures LiteralBody(t, at, false, 0, prefix, foreign) == Ok(prefix, at + 1)
  {
    assert Escape([]) + "\"" == "\"";
    HasAtChar(t, at, "\"", 0);
    BodyEnds(t, at, prefix, foreign);
  }

  lemma {:induction false} EscapedReads(t: string, at: nat, end: nat, v: string, prefix: string, all: string, foreign: Foreign)
    requires HasAt(t, at, Escape(v) + "\"") && end == at + |Escape(v)| + 1 && all == prefix + v && TextOk(all, foreign)
    ensures LiteralBody(t, at, false, 0, prefix, foreign) == Ok(all, end)
    decreases |v|
  {
    if v == [] {
      assert all == prefix;
      EscapedEnd(t, at, prefix, foreign);
    } else {
      var next, more, taken := at + |Head(v[0])|, v[1..], prefix + [v[0]];
      Shifted(prefix, v);
      EscapedStep(t, at, next, v, prefix, foreign);
      EscapedReads(t, next, end, more, taken, all, foreign);
    }
  }

  lemma LiteralIs(t: string, at: nat, start: nat, end: nat, v: string, foreign: Foreign)
    requires start == at + 1 <= |t| && t[at] == '"' && LiteralBody(t, start, false, 0, [], foreign) == Ok(v, end)
    ensures Literal(t, at, foreign) == Ok(v, end) && Skip(t, at) == at
  {
  }

  lemma QuotedReads(t: string, at: nat, v: string, foreign: Foreign)
    requires HasAt(t, at, Quoted(v)) && TextOk(v, foreign)
    ensures Literal(t, at, foreign) == Ok(v, at + |Quoted(v)|) && at < |t| && t[at] == '"' && Skip(t, at) == at
  {
    HasAtSplit(t, at, "\"", Escape(v) + "\"");
    HasAtChar(t, at, "\"", 0);
    assert [] + v == v;
    EscapedReads(t, at + 1, at + |Quoted(v)|, v, [], v, foreign);
    LiteralIs(t, at, at + 1, at + |Quoted(v)|, v, foreign);
  }

  lemma {:induction false} HashEndIs(t: string, at: nat, h: nat, seen: nat)
    requires HasAt(t, at, Hashes(h)) && at + h < |t| && t[at + h] == '"' && seen + h <= 8
    ensures HashEnd(t, at, seen) == Ok(seen + h, at + h)
    decreases h
  {
    if h > 0 {
      HasAtChar(t, at, Hashes(h), 0);
      assert Hashes(h) == ['#'] + Hashes(h - 1);
      HasAtSplit(t, at, ['#'], Hashes(h - 1));
      HashEndIs(t, at + 1, h - 1, seen + 1);
    }
  }

  lemma RawBodyEnds(t: string, at: nat, h: nat, value: string, foreign: Foreign)
    requires HasAt(t, at, "\"" + Hashes(h)) && |value| <= 512 && foreign.utf8(value)
    ensures LiteralBody(t, at, true, h, value, foreign) == Ok(value, at + 1 + h)
  {
    HasAtSplit(t, at, "\"", Hashes(h));
    HasAtChar(t, at, "\"", 0);
  }

  lemma RawBodyTakes(t: string, at: nat, h: nat, value: string, foreign: Foreign)
    requires at < |t| && Unescapable(t[at]) && (t[at] == '"' ==> !HasAt(t, at + 1, Hashes(h)))
    ensures LiteralBody(t, at, true, h, value, foreign) == LiteralBody(t, at + 1, true, h, value + [t[at]], foreign)
  {
  }

  /** A window of the text holds what the text holds there. */
  lemma HasAtWithin(t: string, at: nat, w: string, i: nat, x: string)
    requires HasAt(t, at, w) && i + |x| <= |w|
    ensures HasAt(w, i, x) <==> HasAt(t, at + i, x)
  {
    assert w == t[at..at + |w|];
    var a, b := w[i..i + |x|], t[at + i..at + i + |x|];
    forall k | 0 <= k < |x| ensures a[k] == b[k] { HasAtChar(t, at, w, i + k); }
    assert a == b;
  }

  lemma RawBodyStep(t: string, at: nat, v: string, h: nat, i: nat, foreign: Foreign)
    requires HasAt(t, at, v + "\"" + Hashes(h)) && RawOk(v, h) && TextOk(v, foreign) && i < |v|
    ensures at + i < |t| && LiteralBody(t, at + i, true, h, v[..i], foreign) == LiteralBody(t, at + i + 1, true, h, v[..i + 1], foreign)
  {
    var w := v + "\"" + Hashes(h);
    HasAtChar(t, at, w, i);
    assert w[i] == v[i] && v[i] in v && v[..i] + [v[i]] == v[..i + 1];
    HasAtWithin(t, at, w, i + 1, Hashes(h));
    RawBodyTakes(t, at + i, h, v[..i], foreign);
  }

  lemma RawBodyAtEnd(t: string, at: nat, v: string, h: nat, foreign: Foreign)
    requires HasAt(t, at, v + "\"" + Hashes(h)) && TextOk(v, foreign)
    ensures at + |v| <= |t| && LiteralBody(t, at + |v|, true, h, v, foreign) == Ok(v, at + |v| + 1 + h)
  {
    assert v + "\"" + Hashes(h) == v + ("\"" + Hashes(h));
    HasAtSplit(t, at, v, "\"" + Hashes(h));
    RawBodyEnds(t, at + |v|, h, v, foreign);
  }

  lemma {:induction false} RawBodyReads(t: string, at: nat, v: string, h: nat, i: nat, foreign: Foreign)
    requires HasAt(t, at, v + "\"" + Hashes(h)) && RawOk(v, h) && TextOk(v, foreign) && i <= |v|
    ensures LiteralBody(t, at + i, true, h, v[..i], foreign) == Ok(v, at + |v| + 1 + h)
    decreases |v| - i
  {
    if i == |v| {
      assert v[..i] == v;
      RawBodyAtEnd(t, at, v, h, foreign);
    } else {
      RawBodyStep(t, at, v, h, i, foreign);
      RawBodyReads(t, at, v, h, i + 1, foreign);
    }
  }

  lemma RawIs(t: string, at: nat, a: nat, h: nat, open: nat, start: nat, end: nat, v: string, foreign: Foreign)
    requires at < |t| && a == at + 1 && start == open + 1 && t[at] == 'r' && HashEnd(t, a, 0) == Ok(h, open) && open < |t| && t[open] == '"'
    requires LiteralBody(t, start, true, h, [], foreign) == Ok(v, end)
    ensures Literal(t, at, foreign) == Ok(v, end) && Skip(t, at) == at
  {
  }

  lemma RawParts(t: string, at: nat, v: string, h: nat)
    requires HasAt(t, at, RawText(v, h))
    ensures at + h + 1 < |t| && t[at] == 'r' && HasAt(t, at + 1, Hashes(h)) && t[at + 1 + h] == '"'
    ensures HasAt(t, at + h + 2, v + "\"" + Hashes(h)) && |RawText(v, h)| == |v| + 3 + 2 * h
  {
    HasAtSplit(t, at, "r", Hashes(h) + ("\"" + (v + "\"" + Hashes(h))));
    HasAtSplit(t, at + 1, Hashes(h), "\"" + (v + "\"" + Hashes(h)));
    HasAtSplit(t, at + 1 + h, "\"", v + "\"" + Hashes(h));
    HasAtChar(t, at, "r", 0);
    HasAtChar(t, at + 1 + h, "\"", 0);
  }

  lemma RawBody(t: string, start: nat, end: nat, v: string, h: nat, foreign: Foreign)
    requires HasAt(t, start, v + "\"" + Hashes(h)) && RawOk(v, h) && TextOk(v, foreign) && end == start + |v| + 1 + h
    ensures LiteralBody(t, start, true, h, [], foreign) == Ok(v, end)
  {
    RawBodyReads(t, start, v, h, 0, foreign);
    assert v[..0] == [];
  }

  lemma RawOpens(t: string, at: nat, a: nat, open: nat, start: nat, v: string, h: nat)
    requires HasAt(t, at, RawText(v, h)) && h <= 8 && a == at + 1 && open == a + h && start == open + 1
    ensures at < |t| && t[at] == 'r' && open < |t| && t[open] == '"' && HashEnd(t, a, 0) == Ok(h, open)
    ensures HasAt(t, start, v + "\"" + Hashes(h)) && |RawText(v, h)| == |v| + 3 + 2 * h
  {
    RawParts(t, at, v, h);
    HashEndIs(t, a, h, 0);
  }

  lemma RawReads(t: string, at: nat, v: string, h: nat, foreign: Foreign)
    requires HasAt(t, at, RawText(v, h)) && RawOk(v, h) && TextOk(v, foreign)
    ensures Literal(t, at, foreign) == Ok(v, at + |RawText(v, h)|) && at < |t| && t[at] == 'r' && Skip(t, at) == at
  {
    var a := at + 1;
    var open := a + h;
    var start, end := open + 1, at + |RawText(v, h)|;
    RawOpens(t, at, a, open, start, v, h);
    RawBody(t, start, end, v, h, foreign);
    RawIs(t, at, a, h, open, start, end, v, foreign);
  }

  lemma LiteralReads(style: Style, t: string, at: nat, v: string, foreign: Foreign)
    requires HasAt(t, at, LiteralText(style, v)) && TextOk(v, foreign)
    ensures Literal(t, at, foreign) == Ok(v, at + |LiteralText(style, v)|)
    ensures at < |t| && (t[at] == '"' || t[at] == 'r') && Skip(t, at) == at
  {
    if v in style.raw { RawReads(t, at, v, style.raw[v], foreign); } else { QuotedReads(t, at, v, foreign); }
  }

  lemma {:induction false} AddressEndIs(t: string, at: nat, v: string)
    requires HasAt(t, at, v) && (forall c :: c in v ==> AddressChar(c)) && (at + |v| == |t| || !AddressChar(t[at + |v|]))
    ensures AddressEnd(t, at) == at + |v|
    decreases |v|
  {
    if v != [] {
      HasAtChar(t, at, v, 0);
      HasAtSplit(t, at, [v[0]], v[1..]);
      assert [v[0]] + v[1..] == v;
      AddressEndIs(t, at + 1, v[1..]);
    }
  }

  lemma ScalarReads(style: Style, t: string, at: nat, s: nat, end: nat, field: string, v: string, context: Context, foreign: Foreign)
    requires at <= |t| && s <= |t| && (s == at || (s == at + 1 && t[at] == ' '))
    requires HasAt(t, s, ScalarText(style, field, v, context)) && end == s + |ScalarText(style, field, v, context)|
    requires ScalarOk(field, v, context, foreign) && (end == |t| || !AddressChar(t[end]))
    ensures Scalar(t, at, field, context, foreign) == Ok(v, end) && s < |t| && !Blank(t[s]) && t[s] != '}'
  {
    if Bare(field, v, context) {
      HasAtChar(t, s, v, 0);
      assert v[0] in v;
      AddressEndIs(t, s, v);
    } else {
      if Addressed(field, context) { QuotedReads(t, s, v, foreign); } else { LiteralReads(style, t, s, v, foreign); }
    }
  }

  lemma ScalarsStep(t: string, at: nat, end: nat, field: string, v: string, context: Context, foreign: Foreign, values: seq<string>)
    requires at < |t| && !Blank(t[at]) && t[at] != '}' && |values| < 100 && end < |t| && t[end] == ' '
    requires Scalar(t, at, field, context, foreign) == Ok(v, end)
    ensures Scalars(t, at, field, context, foreign, values) == Scalars(t, end + 1, field, context, foreign, values + [v])
  {
    assert Symbol(t, at, '}') == (false, at);
    assert Skip(t, end) == Skip(t, end + 1);
  }

  lemma BlankParts(t: string, at: nat, end: nat, x: string, rest: string)
    requires HasAt(t, at, x + (" " + rest)) && end == at + |x|
    ensures HasAt(t, at, x) && end < |t| && t[end] == ' ' && HasAt(t, end + 1, rest)
  {
    HasAtSplit(t, at, x, " " + rest);
    HasAtSplit(t, end, " ", rest);
    HasAtChar(t, end, " ", 0);
  }

  lemma ItemsParts(style: Style, t: string, at: nat, end: nat, field: string, rest: seq<string>, context: Context)
    requires rest != [] && HasAt(t, at, Items(style, field, rest, context)) && end == at + |ScalarText(style, field, rest[0], context)|
    ensures HasAt(t, at, ScalarText(style, field, rest[0], context)) && end < |t| && t[end] == ' '
    ensures HasAt(t, end + 1, Items(style, field, rest[1..], context))
    ensures |Items(style, field, rest, context)| == end - at + 1 + |Items(style, field, rest[1..], context)|
  {
    BlankParts(t, at, end, ScalarText(style, field, rest[0], context), Items(style, field, rest[1..], context));
  }

  predicate AllOk(field: string, values: seq<string>, context: Context, foreign: Foreign) {
    forall i :: 0 <= i < |values| ==> ScalarOk(field, values[i], context, foreign)
  }

  lemma ItemReads(style: Style, t: string, at: nat, end: nat, field: string, context: Context, foreign: Foreign, rest: seq<string>)
    requires rest != [] && HasAt(t, at, Items(style, field, rest, context)) && ScalarOk(field, rest[0], context, foreign)
    requires end == at + |ScalarText(style, field, rest[0], context)|
    ensures at < end < |t| && !Blank(t[at]) && t[at] != '}' && t[end] == ' ' && Scalar(t, at, field, context, foreign) == Ok(rest[0], end)
    ensures HasAt(t, end + 1, Items(style, field, rest[1..], context)) && at + |Items(style, field, rest, context)| == end + 1 + |Items(style, field, rest[1..], context)|
  {
    ItemsParts(style, t, at, end, field, rest, context);
    ScalarReads(style, t, at, at, end, field, rest[0], context, foreign);
  }

  lemma ItemsEnd(t: string, at: nat, field: string, context: Context, foreign: Foreign, values: seq<string>)
    requires HasAt(t, at, "}")
    ensures Scalars(t, at, field, context, foreign, values) == Ok(values, at + 1)
  {
    HasAtChar(t, at, "}", 0);
  }

  lemma RestOk(field: string, rest: seq<string>, context: Context, foreign: Foreign, values: seq<string>)
    requires AllOk(field, rest, context, foreign) && rest != []
    ensures AllOk(field, rest[1..], context, foreign) && values + [rest[0]] + rest[1..] == values + rest
  {
  }

  lemma {:induction false} ItemsRead(style: Style, t: string, at: nat, stop: nat, field: string, context: Context, foreign: Foreign, values: seq<string>, rest: seq<string>)
    requires HasAt(t, at, Items(style, field, rest, context)) && stop == at + |Items(style, field, rest, context)| && |values| + |rest| <= 100
    requires AllOk(field, rest, context, foreign)
    ensures Scalars(t, at, field, context, foreign, values) == Ok(values + rest, stop)
    decreases |rest|
  {
    if rest == [] {
      ItemsEnd(t, at, field, context, foreign, values);
      assert values + rest == values;
    } else {
      var end, more, taken := at + |ScalarText(style, field, rest[0], context)|, rest[1..], values + [rest[0]];
      var next := end + 1;
      RestOk(field, rest, context, foreign, values);
      ItemReads(style, t, at, end, field, context, foreign, rest);
      ScalarsStep(t, at, end, field, rest[0], context, foreign, values);
      ItemsRead(style, t, next, stop, field, context, foreign, taken, more);
    }
  }

  lemma RequireHere(t: string, v: string, at: nat, c: char)
    requires at < |t| && t[at] == c && !Blank(c)
    ensures Require(t, Ok(v, at), c) == Ok(v, at + 1)
  {
  }

  // ---------------------------------------------------------------------------
  // Fields
  // ---------------------------------------------------------------------------

  predicate FieldName(f: string) { f != [] && AllName(f) && (f[0] == 'h' || f[0] == 'r' || f[0] == 'i') }

  lemma RequestNames(f: string)
    requires f in {"http.request.uri.path.extension", "http.request.uri.path", "http.request.full_uri", "http.request.uri.query", "http.request.method"}
    ensures FieldName(f)
  {
  }

  lemma OtherNames(f: string)
    requires f in {"raw.http.request.uri.path", "raw.http.request.uri.query", "http.host", "http.cookie", "http.user_agent", "http.referer"}
    ensures FieldName(f)
  {
  }

  lemma SecurityNames(f: string)
    requires f in SECURITY_FIELDS
    ensures FieldName(f)
  {
  }

  /** Every field name is spelled with name characters and starts with h, r or i. */
  lemma FieldNames(f: string)
    requires f == HEADERS || f in FIELDS || f in SECURITY_FIELDS
    ensures FieldName(f)
  {
    if f == HEADERS { assert AllName(HEADERS); }
    else if f in SECURITY_FIELDS { SecurityNames(f); }
    else if f in {"raw.http.request.uri.path", "raw.http.request.uri.query", "http.host", "http.cookie", "http.user_agent", "http.referer"} { OtherNames(f); }
    else { RequestNames(f); }
  }

  lemma IndexReads(t: string, at: nat, end: nat, h: string)
    requires HasAt(t, at, "][0]") && end == at + 4
    ensures Require(t, Require(t, Require(t, Require(t, Ok(h, at), ']'), '['), '0'), ']') == Ok(h, end)
  {
    HasAtChar(t, at, "][0]", 0);
    HasAtChar(t, at, "][0]", 1);
    HasAtChar(t, at, "][0]", 2);
    HasAtChar(t, at, "][0]", 3);
    RequireHere(t, h, at, ']');
    RequireHere(t, h, at + 1, '[');
    RequireHere(t, h, at + 2, '0');
    RequireHere(t, h, at + 3, ']');
  }

  lemma HeaderIs(t: string, at: nat, a: nat, m: nat, end: nat, h: string, foreign: Foreign)
    requires at <= |t| && a <= |t| && m <= |t| && foreign.token(h) && !Upper(h)
    requires Require(t, Ok([], at), '[') == Ok([], a) && Literal(t, a, foreign) == Ok(h, m)
    requires Require(t, Require(t, Require(t, Require(t, Ok(h, m), ']'), '['), '0'), ']') == Ok(h, end)
    ensures HeaderName(t, at, foreign) == Ok(h, end)
  {
  }

  lemma HeaderParts(t: string, at: nat, a: nat, m: nat, text: string)
    requires HasAt(t, at, "[" + (text + "][0]")) && a == at + 1 && m == a + |text|
    ensures at < |t| && t[at] == '[' && Require(t, Ok([], at), '[') == Ok([], a) && HasAt(t, a, text) && HasAt(t, m, "][0]")
  {
    HasAtSplit(t, at, "[", text + "][0]");
    HasAtSplit(t, a, text, "][0]");
    HasAtChar(t, at, "[", 0);
    RequireHere(t, [], at, '[');
  }

  lemma HeaderLiteralReads(style: Style, t: string, at: nat, a: nat, m: nat, end: nat, h: string, foreign: Foreign)
    requires TextOk(h, foreign) && foreign.token(h) && !Upper(h) && at <= |t| && a <= |t| && Require(t, Ok([], at), '[') == Ok([], a)
    requires HasAt(t, a, LiteralText(style, h)) && m == a + |LiteralText(style, h)| && HasAt(t, m, "][0]") && end == m + 4
    ensures HeaderName(t, at, foreign) == Ok(h, end)
  {
    LiteralReads(style, t, a, h, foreign);
    IndexReads(t, m, end, h);
    HeaderIs(t, at, a, m, end, h, foreign);
  }

  lemma HeaderReads(style: Style, t: string, at: nat, h: string, foreign: Foreign)
    requires HasAt(t, at, "[" + (LiteralText(style, h) + "][0]")) && TextOk(h, foreign) && foreign.token(h) && !Upper(h)
    ensures HeaderName(t, at, foreign) == Ok(h, at + |LiteralText(style, h)| + 5) && at < |t| && t[at] == '['
  {
    var a := at + 1;
    var m := a + |LiteralText(style, h)|;
    HeaderParts(t, at, a, m, LiteralText(style, h));
    HeaderLiteralReads(style, t, at, a, m, m + 4, h, foreign);
  }

  /** The field without its `lower`. */
  function NameAt(t: string, at: nat, context: Context, foreign: Foreign): (r: Parsed<(string, string)>)
    requires at <= |t|
  {
    var name := Identifier(t, at);
    if name.Fail? then Fail
    else
      var header := if name.value == HEADERS then HeaderName(t, name.at, foreign)
                    else if name.value in FIELDS || (context.Security? && name.value in SECURITY_FIELDS) then Ok([], name.at)
                    else Fail;
      if header.Fail? then Fail else Ok((name.value, header.value), header.at)
  }

  lemma PlainNameReads(t: string, at: nat, end: nat, f: string, context: Context, foreign: Foreign)
    requires HasAt(t, at, f) && FieldName(f) && f != HEADERS && (f in FIELDS || (context.Security? && f in SECURITY_FIELDS))
    requires end == at + |f| && end < |t| && !NameChar(t[end])
    ensures NameAt(t, at, context, foreign) == Ok((f, []), end)
  {
    IdentifierIs(t, at, f);
  }

  lemma HeaderNameReads(style: Style, t: string, at: nat, m: nat, end: nat, h: string, context: Context, foreign: Foreign)
    requires HasAt(t, at, HEADERS + ("[" + (LiteralText(style, h) + "][0]"))) && TextOk(h, foreign) && foreign.token(h) && !Upper(h)
    requires FieldName(HEADERS) && m == at + |HEADERS| && end == m + |LiteralText(style, h)| + 5
    ensures NameAt(t, at, context, foreign) == Ok((HEADERS, h), end)
  {
    HasAtSplit(t, at, HEADERS, "[" + (LiteralText(style, h) + "][0]"));
    HeaderReads(style, t, m, h, foreign);
    IdentifierIs(t, at, HEADERS);
  }

  lemma NameReads(style: Style, t: string, at: nat, end: nat, c: Condition, context: Context, foreign: Foreign)
    requires HasAt(t, at, NameText(style, c)) && FieldOk(c, context, foreign)
    requires end == at + |NameText(style, c)| && end < |t| && !NameChar(t[end])
    ensures NameAt(t, at, context, foreign) == Ok((c.field, c.header), end)
  {
    FieldNames(c.field);
    if c.field == HEADERS { HeaderNameReads(style, t, at, at + |HEADERS|, end, c.header, context, foreign); }
    else { PlainNameReads(t, at, end, c.field, context, foreign); }
  }

  /** The first character of a field's text is none that starts another atom. */
  lemma FieldStarts(style: Style, c: Condition, context: Context, foreign: Foreign)
    requires FieldOk(c, context, foreign)
    ensures var s := FieldText(style, c); s != [] && (s[0] == 'l' || s[0] == 'h' || s[0] == 'r' || s[0] == 'i')
    ensures NameText(style, c) != [] && !Blank(NameText(style, c)[0]) && (!c.lower ==> FieldText(style, c)[0] != 'l')
  {
    FieldNames(c.field);
    assert NameText(style, c)[0] == c.field[0];
  }

  function Bound(c: Condition): Condition { Condition(c.field, c.header, [], [], c.lower, []) }

  lemma PlainFieldIs(t: string, at: nat, end: nat, c: Condition, context: Context, foreign: Foreign)
    requires at <= |t| && !c.lower && Keyword(t, at, "lower") == (false, at)
    requires NameAt(t, at, context, foreign) == Ok((c.field, c.header), end)
    ensures Field(t, at, context, foreign) == Ok(Bound(c), end)
  {
  }

  lemma LowerFieldIs(t: string, at: nat, open: nat, a: nat, m: nat, end: nat, c: Condition, context: Context, foreign: Foreign)
    requires at <= |t| && open <= |t| && a <= |t| && m <= |t| && c.lower && Keyword(t, at, "lower") == (true, open)
    requires Require(t, Ok([], open), '(') == Ok([], a) && NameAt(t, a, context, foreign) == Ok((c.field, c.header), m)
    requires Require(t, Ok(c.header, m), ')') == Ok(c.header, end)
    ensures Field(t, at, context, foreign) == Ok(Bound(c), end)
  {
  }

  lemma LowerParts(t: string, at: nat, m: nat, name: string)
    requires HasAt(t, at, "lower(" + (name + ")")) && m == at + 6 + |name|
    ensures m < |t| && t[at + 5] == '(' && t[m] == ')' && HasAt(t, at + 6, name) && Keyword(t, at, "lower") == (true, at + 5)
  {
    HasAtSplit(t, at, "lower(", name + ")");
    HasAtSplit(t, at + 6, name, ")");
    assert "lower(" == "lower" + "(";
    HasAtSplit(t, at, "lower", "(");
    HasAtChar(t, at + 5, "(", 0);
    HasAtChar(t, m, ")", 0);
    WordRead(t, at, "lower");
  }

  lemma LowerFieldReads(style: Style, t: string, at: nat, a: nat, m: nat, end: nat, c: Condition, context: Context, foreign: Foreign)
    requires HasAt(t, at, "lower(" + (NameText(style, c) + ")")) && FieldOk(c, context, foreign) && c.lower
    requires a == at + 6 && m == a + |NameText(style, c)| && end == m + 1
    ensures Field(t, at, context, foreign) == Ok(Bound(c), end)
  {
    LowerParts(t, at, m, NameText(style, c));
    NameReads(style, t, a, m, c, context, foreign);
    RequireHere(t, [], at + 5, '(');
    RequireHere(t, c.header, m, ')');
    LowerFieldIs(t, at, at + 5, a, m, end, c, context, foreign);
  }

  lemma PlainFieldReads(style: Style, t: string, at: nat, end: nat, c: Condition, context: Context, foreign: Foreign)
    requires HasAt(t, at, NameText(style, c)) && FieldOk(c, context, foreign) && !c.lower
    requires end == at + |NameText(style, c)| && end < |t| && !NameChar(t[end])
    ensures Field(t, at, context, foreign) == Ok(Bound(c), end)
  {
    FieldStarts(style, c, context, foreign);
    HasAtChar(t, at, NameText(style, c), 0);
    WordAbsent(t, at, "lower");
    NameReads(style, t, at, end, c, context, foreign);
    PlainFieldIs(t, at, end, c, context, foreign);
  }

  lemma FieldReads(style: Style, t: string, at: nat, end: nat, c: Condition, context: Context, foreign: Foreign)
    requires HasAt(t, at, FieldText(style, c)) && FieldOk(c, context, foreign)
    requires end == at + |FieldText(style, c)| && end < |t| && !NameChar(t[end])
    ensures Field(t, at, context, foreign) == Ok(Bound(c), end)
  {
    if c.lower { LowerFieldReads(style, t, at, at + 6, at + 6 + |NameText(style, c)|, end, c, context, foreign); }
    else { PlainFieldReads(style, t, at, end, c, context, foreign); }
  }

  // ---------------------------------------------------------------------------
  // Operators and conditions
  // ---------------------------------------------------------------------------

  predicate WordOperator(op: string) { op in {"eq", "ne", "contains", "wildcard", "matches", "in"} }

  lemma WordOperatorReads(t: string, at: nat, op: string)
    requires at < |t| && t[at] == ' ' && WordOperator(op) && HasAt(t, at + 1, op)
    requires at + 1 + |op| < |t| && t[at + 1 + |op|] == ' '
    ensures Operator(t, at) == Ok(op, at + 1 + |op|)
  {
    assert AllName(op) && op != [] && op != "strict" && op[0] != '=' && op[0] != '!' && op[0] != '~' && !Blank(op[0]);
    HasAtChar(t, at + 1, op, 0);
    assert Skip(t, at) == at + 1 == Skip(t, at + 1);
    IdentifierIs(t, at + 1, op);
  }

  lemma StrictOperatorReads(t: string, at: nat)
    requires at < |t| && t[at] == ' ' && HasAt(t, at + 1, "strict wildcard") && at + 16 < |t| && t[at + 16] == ' '
    ensures Operator(t, at) == Ok("strict wildcard", at + 16)
  {
    assert "strict wildcard" == "strict" + (" " + "wildcard");
    HasAtSplit(t, at + 1, "strict", " " + "wildcard");
    HasAtSplit(t, at + 7, " ", "wildcard");
    HasAtChar(t, at + 1, "strict", 0);
    HasAtChar(t, at + 7, " ", 0);
    HasAtChar(t, at + 8, "wildcard", 0);
    assert AllName("strict");
    assert Skip(t, at) == at + 1 == Skip(t, at + 1) && Skip(t, at + 7) == at + 8;
    IdentifierIs(t, at + 1, "strict");
    WordRead(t, at + 8, "wildcard");
  }

  lemma OperatorReads(t: string, at: nat, end: nat, op: string)
    requires op in COMPARISONS && at < |t| && t[at] == ' ' && HasAt(t, at + 1, op)
    requires end == at + 1 + |op| && end < |t| && t[end] == ' '
    ensures Operator(t, at) == Ok(op, end)
  {
    if op == "strict wildcard" { StrictOperatorReads(t, at); } else { WordOperatorReads(t, at, op); }
  }

  lemma EqualSignReads(t: string, at: nat)
    requires at < |t| && t[at] == ' ' && HasAt(t, at + 1, "==")
    ensures Operator(t, at) == Ok("eq", at + 3)
  {
    HasAtChar(t, at + 1, "==", 0);
    HasAtChar(t, at + 1, "==", 1);
    assert Skip(t, at + 1) == at + 1 == Skip(t, at);
    assert Symbol(t, at, '=') == (true, at + 2);
    assert Require(t, Ok("eq", at + 2), '=') == Ok("eq", at + 3);
  }

  lemma NotEqualSignReads(t: string, at: nat)
    requires at < |t| && t[at] == ' ' && HasAt(t, at + 1, "!=")
    ensures Operator(t, at) == Ok("ne", at + 3)
  {
    HasAtChar(t, at + 1, "!=", 0);
    HasAtChar(t, at + 1, "!=", 1);
    assert Skip(t, at + 1) == at + 1 == Skip(t, at);
    assert Symbol(t, at, '=') == (false, at + 1) && Symbol(t, at + 1, '!') == (true, at + 2);
    assert Require(t, Ok("ne", at + 2), '=') == Ok("ne", at + 3);
  }

  lemma TildeReads(t: string, at: nat)
    requires at < |t| && t[at] == ' ' && HasAt(t, at + 1, "~")
    ensures Operator(t, at) == Ok("matches", at + 2)
  {
    HasAtChar(t, at + 1, "~", 0);
    assert Skip(t, at + 1) == at + 1 == Skip(t, at);
    assert Symbol(t, at, '=') == (false, at + 1) && Symbol(t, at + 1, '!') == (false, at + 1) && Symbol(t, at + 1, '~') == (true, at + 2);
  }

  /** Either spelling of an operator is read as that operator. */
  lemma SpelledOperatorReads(style: Style, t: string, at: nat, end: nat, op: string, word: string)
    requires op in COMPARISONS && word == OperatorText(style, op) && at < |t| && t[at] == ' ' && HasAt(t, at + 1, word)
    requires end == at + 1 + |word| && end < |t| && t[end] == ' '
    ensures Operator(t, at) == Ok(op, end)
  {
    if style.symbol && op == "eq" { EqualSignReads(t, at); }
    else if style.symbol && op == "ne" { NotEqualSignReads(t, at); }
    else if style.symbol && op == "matches" { TildeReads(t, at); }
    else { OperatorReads(t, at, end, op); }
  }

  /** Where a field, a blank, an operator and another blank stand. */
  lemma HeadParts(t: string, at: nat, m: nat, n: nat, field: string, op: string, tail: string)
    requires HasAt(t, at, field + (" " + (op + (" " + tail)))) && m == at + |field| && n == m + 1 + |op|
    ensures HasAt(t, at, field) && n < |t| && t[m] == ' ' && HasAt(t, m + 1, op) && t[n] == ' ' && HasAt(t, n + 1, tail)
  {
    HasAtSplit(t, at, field, " " + (op + (" " + tail)));
    HasAtSplit(t, m, " ", op + (" " + tail));
    HasAtSplit(t, m + 1, op, " " + tail);
    HasAtSplit(t, n, " ", tail);
    HasAtChar(t, m, " ", 0);
    HasAtChar(t, n, " ", 0);
  }

  lemma SingleIs(t: string, at: nat, m: nat, n: nat, end: nat, b: Condition, op: string, v: string, context: Context, foreign: Foreign)
    requires at <= |t| && m <= |t| && n <= |t| && op in COMPARISONS && op != "in"
    requires Field(t, at, context, foreign) == Ok(b, m) && Operator(t, m) == Ok(op, n)
    requires Scalar(t, n, b.field, context, foreign) == Ok(v, end)
    requires (op == "matches" ==> foreign.pattern(v)) && (EndsWithWildcard(op) ==> WildcardOk(v, false, false))
    ensures Comparison(t, at, context, foreign) == Ok(b.(comparison := op, values := [v]), end)
  {
  }

  lemma OperandsRead(style: Style, t: string, at: nat, m: nat, n: nat, s: nat, end: nat, c: Condition, v: string, context: Context, foreign: Foreign)
    requires FieldOk(c, context, foreign) && ScalarOk(c.field, v, context, foreign) && Ends(t, end)
    requires m < n < |t| && t[m] == ' ' && t[n] == ' ' && HasAt(t, at, FieldText(style, c)) && HasAt(t, s, ScalarText(style, c.field, v, context))
    requires m == at + |FieldText(style, c)| && s == n + 1 && end == s + |ScalarText(style, c.field, v, context)|
    ensures Field(t, at, context, foreign) == Ok(Bound(c), m) && Scalar(t, n, c.field, context, foreign) == Ok(v, end)
  {
    FieldReads(style, t, at, m, c, context, foreign);
    ScalarReads(style, t, n, s, end, c.field, v, context, foreign);
  }

  lemma SingleTextIs(style: Style, c: Condition, context: Context, foreign: Foreign, op: string, word: string, v: string)
    requires ConditionOk(c, context, foreign) && !Calls(c) && c.list == [] && c.comparison != "in" && c.comparison == op && c.values[0] == v
    requires word == OperatorText(style, op)
    ensures FieldOk(c, context, foreign) && ScalarOk(c.field, v, context, foreign) && op in COMPARISONS && op != "in"
    ensures (op == "matches" ==> foreign.pattern(v)) && (EndsWithWildcard(op) ==> WildcardOk(v, false, false))
    ensures ConditionText(style, c, context) == FieldText(style, c) + (" " + (word + (" " + ScalarText(style, c.field, v, context))))
    ensures |ConditionText(style, c, context)| == |FieldText(style, c)| + |word| + 2 + |ScalarText(style, c.field, v, context)|
    ensures c == Bound(c).(comparison := op, values := [v])
  {
  }

  lemma SingleChain(style: Style, t: string, at: nat, m: nat, n: nat, end: nat, b: Condition, op: string, word: string, v: string, context: Context, foreign: Foreign)
    requires op in COMPARISONS && op != "in" && (op == "matches" ==> foreign.pattern(v)) && (EndsWithWildcard(op) ==> WildcardOk(v, false, false))
    requires word == OperatorText(style, op)
    requires at <= m < n < |t| && n == m + 1 + |word| && t[m] == ' ' && t[n] == ' ' && HasAt(t, m + 1, word)
    requires Field(t, at, context, foreign) == Ok(b, m) && Scalar(t, n, b.field, context, foreign) == Ok(v, end)
    ensures Comparison(t, at, context, foreign) == Ok(b.(comparison := op, values := [v]), end)
  {
    SpelledOperatorReads(style, t, m, n, op, word);
    SingleIs(t, at, m, n, end, b, op, v, context, foreign);
  }

  lemma SingleParts(style: Style, t: string, at: nat, m: nat, n: nat, end: nat, c: Condition, word: string, v: string, context: Context, foreign: Foreign)
    requires FieldOk(c, context, foreign) && ScalarOk(c.field, v, context, foreign) && Ends(t, end)
    requires HasAt(t, at, FieldText(style, c) + (" " + (word + (" " + ScalarText(style, c.field, v, context)))))
    requires m == at + |FieldText(style, c)| && n == m + 1 + |word| && end == n + 1 + |ScalarText(style, c.field, v, context)|
    ensures at <= m < n < |t| && t[m] == ' ' && t[n] == ' ' && HasAt(t, m + 1, word)
    ensures Field(t, at, context, foreign) == Ok(Bound(c), m) && Scalar(t, n, c.field, context, foreign) == Ok(v, end)
  {
    HeadParts(t, at, m, n, FieldText(style, c), word, ScalarText(style, c.field, v, context));
    OperandsRead(style, t, at, m, n, n + 1, end, c, v, context, foreign);
  }

  lemma SingleReads(style: Style, t: string, at: nat, m: nat, n: nat, end: nat, c: Condition, op: string, word: string, v: string, context: Context, foreign: Foreign)
    requires ConditionOk(c, context, foreign) && !Calls(c) && c.list == [] && c.comparison != "in" && c.comparison == op && c.values[0] == v
    requires HasAt(t, at, ConditionText(style, c, context)) && end == at + |ConditionText(style, c, context)| && Ends(t, end)
    requires word == OperatorText(style, op) && m == at + |FieldText(style, c)| && n == m + 1 + |word|
    ensures Comparison(t, at, context, foreign) == Ok(c, end)
  {
    SingleTextIs(style, c, context, foreign, op, word, v);
    SingleParts(style, t, at, m, n, end, c, word, v, context, foreign);
    SingleChain(style, t, at, m, n, end, Bound(c), op, word, v, context, foreign);
  }

  lemma ListIs(t: string, at: nat, m: nat, n: nat, k: nat, end: nat, b: Condition, list: string, foreign: Foreign)
    requires at <= |t| && m <= |t| && n <= |t| && k <= |t| && Symbol(t, n, '$') == (true, k)
    requires Field(t, at, Security, foreign) == Ok(b, m) && Operator(t, m) == Ok("in", n) && Identifier(t, k) == Ok(list, end)
    ensures Comparison(t, at, Security, foreign) == Ok(b.(comparison := "in", list := list), end)
  {
  }

  lemma ListParts(t: string, at: nat, m: nat, n: nat, k: nat, end: nat, field: string, list: string)
    requires HasAt(t, at, field + (" " + ("in" + (" $" + list)))) && m == at + |field| && n == m + 3 && k == n + 2 && end == k + |list|
    ensures HasAt(t, at, field) && k <= |t| && t[m] == ' ' && HasAt(t, m + 1, "in") && t[n] == ' '
    ensures Symbol(t, n, '$') == (true, k) && HasAt(t, k, list)
  {
    assert " $" + list == " " + ("$" + list);
    HeadParts(t, at, m, n, field, "in", "$" + list);
    HasAtSplit(t, n + 1, "$", list);
    HasAtChar(t, n + 1, "$", 0);
    assert Skip(t, n) == n + 1;
  }

  lemma ListNameReads(t: string, n: nat, k: nat, end: nat, list: string)
    requires k <= |t| && HasAt(t, k, list) && list != [] && AllName(list) && end == k + |list| && Ends(t, end)
    ensures Identifier(t, k) == Ok(list, end)
  {
    IdentifierIs(t, k, list);
  }

  lemma ListReads(style: Style, t: string, at: nat, m: nat, n: nat, k: nat, end: nat, c: Condition, foreign: Foreign)
    requires FieldOk(c, Security, foreign) && c.list != [] && AllName(c.list) && Ends(t, end)
    requires HasAt(t, at, FieldText(style, c) + (" " + ("in" + (" $" + c.list))))
    requires m == at + |FieldText(style, c)| && n == m + 3 && k == n + 2 && end == k + |c.list|
    ensures Comparison(t, at, Security, foreign) == Ok(Bound(c).(comparison := "in", list := c.list), end)
  {
    ListParts(t, at, m, n, k, end, FieldText(style, c), c.list);
    FieldReads(style, t, at, m, c, Security, foreign);
    OperatorReads(t, m, n, "in");
    ListNameReads(t, n, k, end, c.list);
    ListIs(t, at, m, n, k, end, Bound(c), c.list, foreign);
  }

  lemma BraceAfter(t: string, n: nat)
    requires n + 1 < |t| && t[n] == ' ' && t[n + 1] == '{'
    ensures Symbol(t, n, '$') == (false, n + 1) && Require(t, Ok([], n), '{') == Ok([], n + 2) == Require(t, Ok([], n + 1), '{')
  {
    assert Skip(t, n) == n + 1 == Skip(t, n + 1);
  }

  lemma SetParts(t: string, at: nat, m: nat, n: nat, field: string, items: string)
    requires HasAt(t, at, field + (" " + ("in" + (" {" + items)))) && m == at + |field| && n == m + 3
    ensures HasAt(t, at, field) && n + 1 < |t| && t[m] == ' ' && HasAt(t, m + 1, "in") && t[n] == ' ' && t[n + 1] == '{' && HasAt(t, n + 2, items)
  {
    assert " {" + items == " " + ("{" + items);
    HeadParts(t, at, m, n, field, "in", "{" + items);
    HasAtSplit(t, n + 1, "{", items);
    HasAtChar(t, n + 1, "{", 0);
  }

  lemma SetIs(t: string, at: nat, m: nat, n: nat, b1: nat, k: nat, end: nat, b: Condition, values: seq<string>, context: Context, foreign: Foreign)
    requires at <= |t| && m <= |t| && n <= |t| && b1 <= |t| && k <= |t| && Symbol(t, n, '$') == (false, b1)
    requires Require(t, Ok([], n), '{') == Ok([], k) == Require(t, Ok([], b1), '{')
    requires Field(t, at, context, foreign) == Ok(b, m) && Operator(t, m) == Ok("in", n)
    requires Scalars(t, k, b.field, context, foreign, []) == Ok(values, end)
    ensures Comparison(t, at, context, foreign) == Ok(b.(comparison := "in", values := values), end)
  {
  }

  lemma SetOperandsRead(style: Style, t: string, at: nat, m: nat, n: nat, k: nat, end: nat, c: Condition, context: Context, foreign: Foreign)
    requires FieldOk(c, context, foreign) && |c.values| <= 100 && AllOk(c.field, c.values, context, foreign)
    requires m < n < |t| && t[m] == ' ' && t[n] == ' ' && HasAt(t, at, FieldText(style, c)) && HasAt(t, m + 1, "in")
    requires HasAt(t, k, Items(style, c.field, c.values, context)) && m == at + |FieldText(style, c)| && n == m + 3
    requires end == k + |Items(style, c.field, c.values, context)|
    ensures Field(t, at, context, foreign) == Ok(Bound(c), m) && Operator(t, m) == Ok("in", n)
    ensures k <= |t| && Scalars(t, k, c.field, context, foreign, []) == Ok(c.values, end)
  {
    FieldReads(style, t, at, m, c, context, foreign);
    OperatorReads(t, m, n, "in");
    assert [] + c.values == c.values;
    ItemsRead(style, t, k, end, c.field, context, foreign, [], c.values);
  }

  lemma SetChain(t: string, at: nat, m: nat, n: nat, k: nat, end: nat, b: Condition, values: seq<string>, context: Context, foreign: Foreign)
    requires at <= |t| && m <= |t| && n + 1 < |t| && t[n] == ' ' && t[n + 1] == '{' && k == n + 2
    requires Field(t, at, context, foreign) == Ok(b, m) && Operator(t, m) == Ok("in", n)
    requires Scalars(t, k, b.field, context, foreign, []) == Ok(values, end)
    ensures Comparison(t, at, context, foreign) == Ok(b.(comparison := "in", values := values), end)
  {
    BraceAfter(t, n);
    SetIs(t, at, m, n, n + 1, k, end, b, values, context, foreign);
  }

  lemma SetReads(style: Style, t: string, at: nat, m: nat, n: nat, k: nat, end: nat, c: Condition, items: string, context: Context, foreign: Foreign)
    requires FieldOk(c, context, foreign) && |c.values| <= 100 && AllOk(c.field, c.values, context, foreign)
    requires items == Items(style, c.field, c.values, context) && HasAt(t, at, FieldText(style, c) + (" " + ("in" + (" {" + items))))
    requires m == at + |FieldText(style, c)| && n == m + 3 && k == n + 2 && end == k + |items|
    ensures Comparison(t, at, context, foreign) == Ok(Bound(c).(comparison := "in", values := c.values), end)
  {
    SetParts(t, at, m, n, FieldText(style, c), items);
    SetOperandsRead(style, t, at, m, n, k, end, c, context, foreign);
    SetChain(t, at, m, n, k, end, Bound(c), c.values, context, foreign);
  }

  lemma CallHead(t: string, at: nat, open: nat, a: nat, name: string, rest: string)
    requires HasAt(t, at, name + ("(" + rest)) && open == at + |name| && a == open + 1
    ensures HasAt(t, at, name) && a <= |t| && t[open] == '(' && HasAt(t, a, rest)
  {
    HasAtSplit(t, at, name, "(" + rest);
    HasAtSplit(t, open, "(", rest);
    HasAtChar(t, open, "(", 0);
  }

  lemma CallTail(t: string, a: nat, m: nat, k: nat, n: nat, field: string, value: string)
    requires HasAt(t, a, field + ("," + (value + ")"))) && m == a + |field| && k == m + 1 && n == k + |value|
    ensures HasAt(t, a, field) && n < |t| && t[m] == ',' && HasAt(t, k, value) && t[n] == ')'
  {
    HasAtSplit(t, a, field, "," + (value + ")"));
    HasAtSplit(t, m, ",", value + ")");
    HasAtSplit(t, k, value, ")");
    HasAtChar(t, m, ",", 0);
    HasAtChar(t, n, ")", 0);
  }

  lemma CallIs(t: string, open: nat, a: nat, m: nat, k: nat, n: nat, end: nat, name: string, b: Condition, v: string, context: Context, foreign: Foreign)
    requires open <= |t| && a <= |t| && m <= |t| && k <= |t| && n <= |t| && Require(t, Ok([], open), '(') == Ok([], a)
    requires Field(t, a, context, foreign) == Ok(b, m) && Require(t, Ok([], m), ',') == Ok([], k)
    requires Literal(t, k, foreign) == Ok(v, n) && Require(t, Ok(v, n), ')') == Ok(v, end)
    ensures Call(t, open, name, context, foreign) == Ok(b.(comparison := name, values := [v]), end)
  {
  }

  lemma CallSigns(t: string, open: nat, a: nat, m: nat, k: nat, n: nat, end: nat, v: string)
    requires a == open + 1 && k == m + 1 && end == n + 1 && a <= m < n < |t| && t[open] == '(' && t[m] == ',' && t[n] == ')'
    ensures Require(t, Ok([], open), '(') == Ok([], a) && Require(t, Ok([], m), ',') == Ok([], k) && Require(t, Ok(v, n), ')') == Ok(v, end)
  {
    RequireHere(t, [], open, '(');
    RequireHere(t, [], m, ',');
    RequireHere(t, v, n, ')');
  }

  lemma CallValueReads(style: Style, t: string, k: nat, n: nat, v: string, foreign: Foreign)
    requires TextOk(v, foreign) && HasAt(t, k, LiteralText(style, v)) && n == k + |LiteralText(style, v)|
    ensures k <= |t| && Literal(t, k, foreign) == Ok(v, n)
  {
    LiteralReads(style, t, k, v, foreign);
  }

  lemma CallArguments(style: Style, t: string, open: nat, a: nat, m: nat, k: nat, n: nat, end: nat, c: Condition, name: string, v: string, context: Context, foreign: Foreign)
    requires FieldOk(c, context, foreign) && TextOk(v, foreign)
    requires a == open + 1 && k == m + 1 && end == n + 1 && a <= m < n < |t| && t[open] == '(' && t[m] == ',' && t[n] == ')'
    requires HasAt(t, a, FieldText(style, c)) && m == a + |FieldText(style, c)| && HasAt(t, k, LiteralText(style, v)) && n == k + |LiteralText(style, v)|
    ensures Call(t, open, name, context, foreign) == Ok(Bound(c).(comparison := name, values := [v]), end)
  {
    CallSigns(t, open, a, m, k, n, end, v);
    FieldReads(style, t, a, m, c, context, foreign);
    CallValueReads(style, t, k, n, v, foreign);
    CallIs(t, open, a, m, k, n, end, name, Bound(c), v, context, foreign);
  }

  lemma CallReads(style: Style, t: string, at: nat, open: nat, end: nat, c: Condition, name: string, v: string, context: Context, foreign: Foreign)
    requires HasAt(t, at, name + ("(" + (FieldText(style, c) + ("," + (LiteralText(style, v) + ")")))))
    requires FieldOk(c, context, foreign) && TextOk(v, foreign) && open == at + |name|
    requires end == open + |FieldText(style, c)| + |LiteralText(style, v)| + 3
    ensures HasAt(t, at, name) && open < |t| && t[open] == '('
    ensures Call(t, open, name, context, foreign) == Ok(Bound(c).(comparison := name, values := [v]), end)
  {
    var a := open + 1;
    var m := a + |FieldText(style, c)|;
    var k := m + 1;
    var n := k + |LiteralText(style, v)|;
    CallHead(t, at, open, a, name, FieldText(style, c) + ("," + (LiteralText(style, v) + ")")));
    CallTail(t, a, m, k, n, FieldText(style, c), LiteralText(style, v));
    CallArguments(style, t, open, a, m, k, n, end, c, name, v, context, foreign);
  }

  lemma ComparisonReads(style: Style, t: string, at: nat, end: nat, c: Condition, context: Context, foreign: Foreign)
    requires ConditionOk(c, context, foreign) && !Calls(c)
    requires HasAt(t, at, ConditionText(style, c, context)) && end == at + |ConditionText(style, c, context)| && Ends(t, end)
    ensures Comparison(t, at, context, foreign) == Ok(c, end)
  {
    if c.list != [] {
      var m := at + |FieldText(style, c)|;
      ListReads(style, t, at, m, m + 3, m + 5, end, c, foreign);
      assert c == Bound(c).(comparison := "in", list := c.list);
    } else if c.comparison == "in" {
      var m := at + |FieldText(style, c)|;
      SetReads(style, t, at, m, m + 3, m + 5, end, c, Items(style, c.field, c.values, context), context, foreign);
      assert c == Bound(c).(comparison := "in", values := c.values);
    } else {
      var m := at + |FieldText(style, c)|;
      var word := OperatorText(style, c.comparison);
      SingleReads(style, t, at, m, m + 1 + |word|, end, c, c.comparison, word, c.values[0], context, foreign);
    }
  }

  /** The first character of a condition's text decides which atom it is. */
  lemma ConditionStarts(style: Style, c: Condition, context: Context, foreign: Foreign)
    requires ConditionOk(c, context, foreign)
    ensures var s := ConditionText(style, c, context);
            s != [] && s[0] == if c.comparison == "starts_with" then 's' else if c.comparison == "ends_with" then 'e' else FieldText(style, c)[0]
    ensures FieldText(style, c) != [] && FieldText(style, c)[0] in "lhri"
  {
    FieldStarts(style, c, context, foreign);
  }

  lemma CallTextIs(style: Style, c: Condition, context: Context, foreign: Foreign, name: string)
    requires ConditionOk(c, context, foreign) && Calls(c) && c.comparison == name
    ensures FieldOk(c, context, foreign) && TextOk(c.values[0], foreign)
    ensures ConditionText(style, c, context) == name + ("(" + (FieldText(style, c) + ("," + (LiteralText(style, c.values[0]) + ")"))))
    ensures |ConditionText(style, c, context)| == |name| + |FieldText(style, c)| + |LiteralText(style, c.values[0])| + 3
    ensures c == Bound(c).(comparison := name, values := [c.values[0]])
  {
  }

  lemma StartsWords(t: string, at: nat, open: nat)
    requires HasAt(t, at, "starts_with") && open == at + 11 && open < |t| && t[open] == '('
    ensures Keyword(t, at, "true") == (false, at) && Keyword(t, at, "false") == (false, at) && Keyword(t, at, "starts_with") == (true, open)
  {
    HasAtChar(t, at, "starts_with", 0);
    WordRead(t, at, "starts_with");
    WordAbsent(t, at, "true");
    WordAbsent(t, at, "false");
  }

  lemma EndsWords(t: string, at: nat, open: nat)
    requires HasAt(t, at, "ends_with") && open == at + 9 && open < |t| && t[open] == '('
    ensures Keyword(t, at, "true") == (false, at) && Keyword(t, at, "false") == (false, at)
    ensures Keyword(t, at, "starts_with") == (false, at) && Keyword(t, at, "ends_with") == (true, open)
  {
    HasAtChar(t, at, "ends_with", 0);
    WordRead(t, at, "ends_with");
    WordAbsent(t, at, "true");
    WordAbsent(t, at, "false");
    WordAbsent(t, at, "starts_with");
  }

  lemma StartsIs(t: string, at: nat, open: nat, end: nat, v: Condition, context: Context, foreign: Foreign)
    requires at <= |t| && open <= |t| && Keyword(t, at, "true") == (false, at) && Keyword(t, at, "false") == (false, at)
    requires Keyword(t, at, "starts_with") == (true, open) && Call(t, open, "starts_with", context, foreign) == Ok(v, end)
    ensures Atom(t, at, context, foreign) == Ok(Leaf(v), end)
  {
  }

  lemma EndsIs(t: string, at: nat, open: nat, end: nat, v: Condition, context: Context, foreign: Foreign)
    requires at <= |t| && open <= |t| && Keyword(t, at, "true") == (false, at) && Keyword(t, at, "false") == (false, at)
    requires Keyword(t, at, "starts_with") == (false, at) && Keyword(t, at, "ends_with") == (true, open)
    requires Call(t, open, "ends_with", context, foreign) == Ok(v, end)
    ensures Atom(t, at, context, foreign) == Ok(Leaf(v), end)
  {
  }

  lemma CallAtomReads(style: Style, t: string, at: nat, open: nat, end: nat, c: Condition, context: Context, foreign: Foreign)
    requires ConditionOk(c, context, foreign) && Calls(c) && open == at + |c.comparison|
    requires HasAt(t, at, ConditionText(style, c, context)) && end == at + |ConditionText(style, c, context)|
    ensures Atom(t, at, context, foreign) == Ok(Leaf(c), end)
  {
    CallTextIs(style, c, context, foreign, c.comparison);
    CallReads(style, t, at, open, end, c, c.comparison, c.values[0], context, foreign);
    if c.comparison == "starts_with" {
      StartsWords(t, at, open);
      StartsIs(t, at, open, end, c, context, foreign);
    } else {
      EndsWords(t, at, open);
      EndsIs(t, at, open, end, c, context, foreign);
    }
  }

  lemma OtherAtomReads(style: Style, t: string, at: nat, end: nat, c: Condition, context: Context, foreign: Foreign)
    requires ConditionOk(c, context, foreign) && !Calls(c)
    requires HasAt(t, at, ConditionText(style, c, context)) && end == at + |ConditionText(style, c, context)| && Ends(t, end)
    ensures Atom(t, at, context, foreign) == Ok(Leaf(c), end)
  {
    ConditionStarts(style, c, context, foreign);
    HasAtChar(t, at, ConditionText(style, c, context), 0);
    WordAbsent(t, at, "true");
    WordAbsent(t, at, "false");
    WordAbsent(t, at, "starts_with");
    WordAbsent(t, at, "ends_with");
    ComparisonReads(style, t, at, end, c, context, foreign);
  }

  lemma ConditionReads(style: Style, t: string, at: nat, end: nat, c: Condition, context: Context, foreign: Foreign)
    requires ConditionOk(c, context, foreign)
    requires HasAt(t, at, ConditionText(style, c, context)) && end == at + |ConditionText(style, c, context)| && Ends(t, end)
    ensures Atom(t, at, context, foreign) == Ok(Leaf(c), end)
  {
    if Calls(c) { CallAtomReads(style, t, at, at + |c.comparison|, end, c, context, foreign); }
    else { OtherAtomReads(style, t, at, end, c, context, foreign); }
  }

  lemma ConditionIsRead(style: Style, t: string, at: nat, end: nat, c: Condition, s: string, context: Context, foreign: Foreign)
    requires ConditionOk(c, context, foreign) && s == ConditionText(style, c, context) && HasAt(t, at, s) && end == at + |s| && Ends(t, end)
    ensures ReadAtom(t, at, SourceAtoms(context, foreign)) == Ok(Leaf(c), end)
  {
    ConditionReads(style, t, at, end, c, context, foreign);
    SourceAtomsRead(t, at, context, foreign);
  }

  lemma ConditionBegins(style: Style, c: Condition, s: string, context: Context, foreign: Foreign)
    requires ConditionOk(c, context, foreign) && s == ConditionText(style, c, context)
    ensures s != [] && !Blank(s[0]) && s[0] != '(' && s[0] != '!' && s[0] != 'n'
  {
    ConditionStarts(style, c, context, foreign);
  }

  lemma ConditionReadsEverywhere(style: Style, c: Condition, s: string, context: Context, foreign: Foreign, atoms: Atoms)
    requires ConditionOk(c, context, foreign) && s == ConditionText(style, c, context) && atoms == SourceAtoms(context, foreign)
    ensures forall t: string, at: nat :: HasAt(t, at, s) && Ends(t, at + |s|) ==> ReadAtom(t, at, atoms) == Ok(Leaf(c), at + |s|)
  {
    forall t: string, at: nat | HasAt(t, at, s) && Ends(t, at + |s|) ensures ReadAtom(t, at, atoms) == Ok(Leaf(c), at + |s|) {
      ConditionIsRead(style, t, at, at + |s|, c, s, context, foreign);
    }
  }

  /** Every condition that the checks allow, with any field, operator, value, list or call, is read
      back from its text wherever that stands. */
  lemma ConditionSpells(style: Style, c: Condition, context: Context, foreign: Foreign)
    requires ConditionOk(c, context, foreign)
    ensures Spells(ConditionText(style, c, context), Leaf(c), SourceAtoms(context, foreign))
  {
    ConditionReadsEverywhere(style, c, ConditionText(style, c, context), context, foreign, SourceAtoms(context, foreign));
    ConditionBegins(style, c, ConditionText(style, c, context), context, foreign);
  }

  lemma TrueReads(t: string, at: nat, context: Context, foreign: Foreign)
    requires HasAt(t, at, "true") && Ends(t, at + 4)
    ensures Atom(t, at, context, foreign) == Ok(Const(true), at + 4)
  {
    WordRead(t, at, "true");
  }

  lemma FalseReads(t: string, at: nat, context: Context, foreign: Foreign)
    requires HasAt(t, at, "false") && Ends(t, at + 5)
    ensures Atom(t, at, context, foreign) == Ok(Const(false), at + 5)
  {
    HasAtChar(t, at, "false", 0);
    WordAbsent(t, at, "true");
    WordRead(t, at, "false");
  }

  lemma ConstantIsRead(t: string, at: nat, end: nat, b: bool, s: string, context: Context, foreign: Foreign)
    requires s == (if b then "true" else "false") && HasAt(t, at, s) && end == at + |s| && Ends(t, end)
    ensures ReadAtom(t, at, SourceAtoms(context, foreign)) == Ok(Const(b), end)
  {
    if b { TrueReads(t, at, context, foreign); } else { FalseReads(t, at, context, foreign); }
    SourceAtomsRead(t, at, context, foreign);
  }

  lemma ConstantReadsEverywhere(b: bool, s: string, context: Context, foreign: Foreign, atoms: Atoms)
    requires s == (if b then "true" else "false") && atoms == SourceAtoms(context, foreign)
    ensures forall t: string, at: nat :: HasAt(t, at, s) && Ends(t, at + |s|) ==> ReadAtom(t, at, atoms) == Ok(Const(b), at + |s|)
  {
    forall t: string, at: nat | HasAt(t, at, s) && Ends(t, at + |s|) ensures ReadAtom(t, at, atoms) == Ok(Const(b), at + |s|) {
      ConstantIsRead(t, at, at + |s|, b, s, context, foreign);
    }
  }

  lemma ConstantSpells(b: bool, context: Context, foreign: Foreign)
    ensures Spells(if b then "true" else "false", Const(b), SourceAtoms(context, foreign))
  {
    ConstantReadsEverywhere(b, if b then "true" else "false", context, foreign, SourceAtoms(context, foreign));
  }
}
