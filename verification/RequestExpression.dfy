/** The match-expression language (common/request_expression.h): its lexical rules and the grammar
    as a tree-building parser.
    The source emits postfix code directly and never builds the tree; module ExpressionParser
    relates the two. */
module RequestExpression {

  datatype Context = Cache | Security

  /** Checks the source delegates to other code: UTF-8 validity, HTTP tokens and RE2 patterns. */
  datatype Foreign = Foreign(utf8: string -> bool, token: string -> bool, pattern: string -> bool)

  datatype Condition = Condition(
    field: string, header: string, comparison: string, values: seq<string>, lower: bool, list: string)

  datatype Instruction = Compare(condition: Condition) | Constant(value: bool) | NotOp | AndOp | XorOp | OrOp

  datatype Expr =
    | Leaf(condition: Condition) | Const(value: bool) | Not(e: Expr)
    | And(l: Expr, r: Expr) | Xor(l: Expr, r: Expr) | Or(l: Expr, r: Expr)

  datatype Parsed<+T> = Fail | Ok(value: T, at: nat)

  const MAX_DEPTH := 24
  const MAX_PROGRAM := 256

  function Limit(context: Context): nat { if context.Security? then 8000 else 4096 }

  // ---------------------------------------------------------------------------
  // Lexical rules
  // ---------------------------------------------------------------------------

  predicate Blank(c: char) { c == ' ' || c == '\t' || c == '\r' || c == '\n' }

  predicate WordChar(c: char) { 'a' <= c <= 'z' || 'A' <= c <= 'Z' || '0' <= c <= '9' || c == '_' || c == '.' }

  predicate NameChar(c: char) { 'a' <= c <= 'z' || '0' <= c <= '9' || c == '_' || c == '.' }

  predicate AddressChar(c: char) {
    '0' <= c <= '9' || 'a' <= c <= 'f' || 'A' <= c <= 'F' || c == ':' || c == '.' || c == '/'
  }

  function Skip(t: string, at: nat): (r: nat)
    requires at <= |t|
    ensures at <= r <= |t|
    ensures r < |t| ==> !Blank(t[r])
    decreases |t| - at
  {
    if at < |t| && Blank(t[at]) then Skip(t, at + 1) else at
  }

  /** Blanks are consumed whether or not the symbol follows. */
  function Symbol(t: string, at: nat, c: char): (r: (bool, nat))
    requires at <= |t|
    ensures at <= r.1 <= |t| && (r.0 ==> at < r.1)
  {
    var s := Skip(t, at);
    if s < |t| && t[s] == c then (true, s + 1) else (false, s)
  }

  predicate HasAt(t: string, at: nat, w: string) { at + |w| <= |t| && t[at..at + |w|] == w }

  function Keyword(t: string, at: nat, w: string): (r: (bool, nat))
    requires at <= |t|
    ensures at <= r.1 <= |t| && (r.0 && w != [] ==> at < r.1)
  {
    var s := Skip(t, at);
    if HasAt(t, s, w) && !(s + |w| < |t| && WordChar(t[s + |w|])) then (true, s + |w|) else (false, s)
  }

  function NameEnd(t: string, at: nat): (r: nat)
    requires at <= |t|
    ensures at <= r <= |t|
    decreases |t| - at
  {
    if at < |t| && NameChar(t[at]) then NameEnd(t, at + 1) else at
  }

  function Identifier(t: string, at: nat): (r: Parsed<string>)
    requires at <= |t|
    ensures r.Ok? ==> at < r.at <= |t|
  {
    var s := Skip(t, at);
    var e := NameEnd(t, s);
    if s == e then Fail else Ok(t[s..e], e)
  }

  function Hashes(n: nat): string { seq(n, _ => '#') }

  function HashEnd(t: string, at: nat, hashes: nat): (r: Parsed<nat>)
    requires at <= |t|
    ensures r.Ok? ==> at <= r.at <= |t|
    decreases |t| - at
  {
    if at < |t| && t[at] == '#' then
      if hashes + 1 > 8 then Fail else HashEnd(t, at + 1, hashes + 1)
    else Ok(hashes, at)
  }

  function LiteralBody(t: string, at: nat, raw: bool, hashes: nat, value: string, foreign: Foreign): (r: Parsed<string>)
    requires at <= |t|
    ensures r.Ok? ==> at < r.at <= |t|
    decreases |t| - at
  {
    if at == |t| then Fail
    else if t[at] == '"' && (!raw || HasAt(t, at + 1, Hashes(hashes))) then
      if |value| > 512 || !foreign.utf8(value) then Fail
      else if raw then Ok(value, at + 1 + hashes) else Ok(value, at + 1)
    else
      var escaped := !raw && t[at] == '\\';
      if escaped && (at + 1 == |t| || (t[at + 1] != '\\' && t[at + 1] != '"')) then Fail
      else
        var c := if escaped then t[at + 1] else t[at];
        if c < 32 as char || c == 127 as char then Fail
        else LiteralBody(t, if escaped then at + 2 else at + 1, raw, hashes, value + [c], foreign)
  }

  function Literal(t: string, at: nat, foreign: Foreign): (r: Parsed<string>)
    requires at <= |t|
    ensures r.Ok? ==> at < r.at <= |t|
  {
    var s := Skip(t, at);
    var raw := s < |t| && t[s] == 'r';
    var opening := if raw then HashEnd(t, s + 1, 0) else Ok(0, s);
    if opening.Fail? || opening.at == |t| || t[opening.at] != '"' then Fail
    else LiteralBody(t, opening.at + 1, raw, opening.value, [], foreign)
  }

  // ---------------------------------------------------------------------------
  // One comparison
  // ---------------------------------------------------------------------------

  const FIELDS: set<string> := {
    "http.request.uri.path.extension", "http.request.uri.path", "raw.http.request.uri.path", "http.host", "http.cookie",
    "http.user_agent", "http.request.full_uri", "http.request.uri.query", "raw.http.request.uri.query", "http.referer",
    "http.request.method"
  }

  const SECURITY_FIELDS: set<string> := {"ip.src", "ip.src.country", "ip.src.asnum"}

  const COMPARISONS: set<string> := {"eq", "ne", "contains", "wildcard", "strict wildcard", "matches", "in"}

  function Require(t: string, at: Parsed<string>, c: char): (r: Parsed<string>)
    requires at.Ok? ==> at.at <= |t|
    ensures r.Ok? ==> at.Ok? && at.at < r.at <= |t| && r.value == at.value
  {
    if at.Fail? then Fail
    else var (hit, next) := Symbol(t, at.at, c); if hit then Ok(at.value, next) else Fail
  }

  function HeaderName(t: string, at: nat, foreign: Foreign): (r: Parsed<string>)
    requires at <= |t|
    ensures r.Ok? ==> at < r.at <= |t|
  {
    var opening := Require(t, Ok([], at), '[');
    if opening.Fail? then Fail
    else
      var name := Literal(t, opening.at, foreign);
      var closing := Require(t, Require(t, Require(t, Require(t, name, ']'), '['), '0'), ']');
      if closing.Fail? || !foreign.token(closing.value) || exists c :: c in closing.value && 'A' <= c <= 'Z' then Fail else closing
  }

  function Field(t: string, at: nat, context: Context, foreign: Foreign): (r: Parsed<Condition>)
    requires at <= |t|
    ensures r.Ok? ==> at < r.at <= |t|
  {
    var (lower, a) := Keyword(t, at, "lower");
    var opening := if lower then Require(t, Ok([], a), '(') else Ok([], a);
    if opening.Fail? then Fail
    else
      var name := Identifier(t, opening.at);
      if name.Fail? then Fail
      else
        var header := if name.value == "http.request.headers" then HeaderName(t, name.at, foreign)
                      else if name.value in FIELDS || (context.Security? && name.value in SECURITY_FIELDS) then Ok([], name.at)
                      else Fail;
        var closing := if lower then Require(t, header, ')') else header;
        if closing.Fail? then Fail
        else Ok(Condition(name.value, closing.value, [], [], lower, []), closing.at)
  }

  function AddressEnd(t: string, at: nat): (r: nat)
    requires at <= |t|
    ensures at <= r <= |t|
    decreases |t| - at
  {
    if at < |t| && AddressChar(t[at]) then AddressEnd(t, at + 1) else at
  }

  function Scalar(t: string, at: nat, field: string, context: Context, foreign: Foreign): (r: Parsed<string>)
    requires at <= |t|
    ensures r.Ok? ==> at < r.at <= |t|
  {
    var s := Skip(t, at);
    if context.Cache? || (field != "ip.src" && field != "ip.src.asnum") || s == |t| || t[s] == '"' then Literal(t, s, foreign)
    else
      var e := AddressEnd(t, s);
      if s == e then Fail else Ok(t[s..e], e)
  }

  function Scalars(t: string, at: nat, field: string, context: Context, foreign: Foreign, values: seq<string>): (r: Parsed<seq<string>>)
    requires at <= |t|
    ensures r.Ok? ==> at < r.at <= |t|
    decreases |t| - at
  {
    var (done, a) := Symbol(t, at, '}');
    if done then Ok(values, a)
    else if |values| >= 100 then Fail
    else
      var value := Scalar(t, a, field, context, foreign);
      if value.Fail? then Fail else Scalars(t, value.at, field, context, foreign, values + [value.value])
  }

  /** A wildcard escapes only stars and backslashes and has no two adjacent stars. */
  predicate WildcardOk(s: string, escaped: bool, star: bool) {
    if s == [] then !escaped
    else if escaped then (s[0] == '*' || s[0] == '\\') && WildcardOk(s[1..], false, false)
    else if s[0] == '\\' then WildcardOk(s[1..], true, false)
    else if s[0] == '*' then !star && WildcardOk(s[1..], false, true)
    else WildcardOk(s[1..], false, false)
  }

  function Operator(t: string, at: nat): (r: Parsed<string>)
    requires at <= |t|
    ensures r.Ok? ==> at < r.at <= |t|
  {
    var (equal, a) := Symbol(t, at, '=');
    if equal then Require(t, Ok("eq", a), '=')
    else
      var (bang, b) := Symbol(t, a, '!');
      if bang then Require(t, Ok("ne", b), '=')
      else
        var (tilde, c) := Symbol(t, b, '~');
        if tilde then Ok("matches", c)
        else
          var name := Identifier(t, c);
          if name.Ok? && name.value == "strict" then
            var (wild, d) := Keyword(t, name.at, "wildcard");
            if wild then Ok("strict wildcard", d) else Fail
          else name
  }

  predicate EndsWithWildcard(s: string) { |s| >= 8 && s[|s| - 8..] == "wildcard" }

  function Comparison(t: string, at: nat, context: Context, foreign: Foreign): (r: Parsed<Condition>)
    requires at <= |t|
    ensures r.Ok? ==> at < r.at <= |t|
  {
    var field := Field(t, at, context, foreign);
    if field.Fail? then Fail
    else
      var op := Operator(t, field.at);
      if op.Fail? || op.value !in COMPARISONS then Fail
      else
        var c := field.value.(comparison := op.value);
        var (list, a) := if op.value == "in" && context.Security? then Symbol(t, op.at, '$') else (false, op.at);
        if list then
          var name := Identifier(t, a);
          if name.Fail? then Fail else Ok(c.(list := name.value), name.at)
        else if op.value == "in" then
          var brace := Require(t, Ok([], a), '{');
          if brace.Fail? then Fail
          else
            var values := Scalars(t, brace.at, c.field, context, foreign, []);
            if values.Fail? then Fail else Ok(c.(values := values.value), values.at)
        else
          var value := Scalar(t, a, c.field, context, foreign);
          if value.Fail? then Fail
          else if op.value == "matches" && !foreign.pattern(value.value) then Fail
          else if EndsWithWildcard(op.value) && !WildcardOk(value.value, false, false) then Fail
          else Ok(c.(values := [value.value]), value.at)
  }

  /** starts_with(field, "text") and ends_with(field, "text"). */
  function Call(t: string, at: nat, name: string, context: Context, foreign: Foreign): (r: Parsed<Condition>)
    requires at <= |t|
    ensures r.Ok? ==> at < r.at <= |t|
  {
    var opening := Require(t, Ok([], at), '(');
    if opening.Fail? then Fail
    else
      var field := Field(t, opening.at, context, foreign);
      if field.Fail? then Fail
      else
        var comma := Require(t, Ok([], field.at), ',');
        if comma.Fail? then Fail
        else
          var value := Require(t, Literal(t, comma.at, foreign), ')');
          if value.Fail? then Fail else Ok(field.value.(comparison := name, values := [value.value]), value.at)
  }

  /** What `primary` reads when it is neither a parenthesis nor a negation. */
  function Atom(t: string, at: nat, context: Context, foreign: Foreign): (r: Parsed<Expr>)
    requires at <= |t|
    ensures r.Ok? ==> at < r.at <= |t| && (r.value.Leaf? || r.value.Const?)
  {
    var (yes, a) := Keyword(t, at, "true");
    if yes then Ok(Const(true), a)
    else
      var (no, b) := Keyword(t, a, "false");
      if no then Ok(Const(false), b)
      else
        var (starts, c) := Keyword(t, b, "starts_with");
        var (ends, d) := if starts then (false, c) else Keyword(t, c, "ends_with");
        var leaf := if starts then Call(t, d, "starts_with", context, foreign)
                    else if ends then Call(t, d, "ends_with", context, foreign)
                    else Comparison(t, d, context, foreign);
        if leaf.Fail? then Fail else Ok(Leaf(leaf.value), leaf.at)
  }

  // ---------------------------------------------------------------------------
  // The grammar: or < xor < and < not, all binary operators to the left
  // ---------------------------------------------------------------------------

  function AndSign(t: string, at: nat): (r: (bool, nat))
    requires at <= |t|
    ensures at <= r.1 <= |t| && (r.0 ==> at < r.1)
  {
    var (word, a) := Keyword(t, at, "and");
    if word then (true, a) else if HasAt(t, a, "&&") then (true, a + 2) else (false, a)
  }

  function XorSign(t: string, at: nat): (r: (bool, nat))
    requires at <= |t|
    ensures at <= r.1 <= |t| && (r.0 ==> at < r.1)
  {
    Keyword(t, at, "xor")
  }

  function OrSign(t: string, at: nat): (r: (bool, nat))
    requires at <= |t|
    ensures at <= r.1 <= |t| && (r.0 ==> at < r.1)
  {
    var (word, a) := Keyword(t, at, "or");
    if word then (true, a) else if HasAt(t, a, "||") then (true, a + 2) else (false, a)
  }

  function NotSign(t: string, at: nat): (r: (bool, nat))
    requires at <= |t|
    ensures at <= r.1 <= |t| && (r.0 ==> at < r.1)
  {
    var (word, a) := Keyword(t, at, "not");
    if word then (true, a) else Symbol(t, a, '!')
  }

  /** How an atom is read. The grammar does not depend on it; SourceAtoms is the source's way. */
  datatype Atoms = Atoms(read: (string, nat) -> Parsed<Expr>)

  function ReadAtom(t: string, at: nat, atoms: Atoms): (r: Parsed<Expr>)
    ensures r.Ok? ==> at < r.at <= |t| && (r.value.Leaf? || r.value.Const?)
  {
    var r := atoms.read(t, at);
    if r.Ok? && at < r.at <= |t| && (r.value.Leaf? || r.value.Const?) then r else Fail
  }

  function SourceAtoms(context: Context, foreign: Foreign): (r: Atoms) {
    Atoms((t: string, at: nat) => if at <= |t| then Atom(t, at, context, foreign) else Fail)
  }

  /** Reading through SourceAtoms is reading an atom: its own checks never reject one. */
  lemma SourceAtomsRead(t: string, at: nat, context: Context, foreign: Foreign)
    requires at <= |t|
    ensures ReadAtom(t, at, SourceAtoms(context, foreign)) == Atom(t, at, context, foreign)
  {
  }

  function Primary(t: string, at: nat, depth: nat, atoms: Atoms): (r: Parsed<Expr>)
    requires at <= |t|
    ensures r.Ok? ==> at < r.at <= |t|
    decreases |t| - at, 0
  {
    if depth > MAX_DEPTH then Fail
    else
      var (paren, a) := Symbol(t, at, '(');
      if paren then
        var inner := ParseOr(t, a, depth + 1, atoms);
        if inner.Fail? then Fail
        else var (closed, b) := Symbol(t, inner.at, ')'); if closed then Ok(inner.value, b) else Fail
      else
        var (not, b) := NotSign(t, a);
        if not then
          var inner := Primary(t, b, depth + 1, atoms);
          if inner.Fail? then Fail else Ok(Not(inner.value), inner.at)
        else ReadAtom(t, b, atoms)
  }

  function AndRest(t: string, at: nat, depth: nat, atoms: Atoms, left: Expr): (r: Parsed<Expr>)
    requires at <= |t|
    ensures r.Ok? ==> at <= r.at <= |t|
    decreases |t| - at, 1
  {
    var (hit, a) := AndSign(t, at);
    if !hit then Ok(left, a)
    else
      var right := Primary(t, a, depth, atoms);
      if right.Fail? then Fail else AndRest(t, right.at, depth, atoms, And(left, right.value))
  }

  function ParseAnd(t: string, at: nat, depth: nat, atoms: Atoms): (r: Parsed<Expr>)
    requires at <= |t|
    ensures r.Ok? ==> at < r.at <= |t|
    decreases |t| - at, 2
  {
    var first := Primary(t, at, depth, atoms);
    if first.Fail? then Fail else AndRest(t, first.at, depth, atoms, first.value)
  }

  function XorRest(t: string, at: nat, depth: nat, atoms: Atoms, left: Expr): (r: Parsed<Expr>)
    requires at <= |t|
    ensures r.Ok? ==> at <= r.at <= |t|
    decreases |t| - at, 3
  {
    var (hit, a) := XorSign(t, at);
    if !hit then Ok(left, a)
    else
      var right := ParseAnd(t, a, depth, atoms);
      if right.Fail? then Fail else XorRest(t, right.at, depth, atoms, Xor(left, right.value))
  }

  function ParseXor(t: string, at: nat, depth: nat, atoms: Atoms): (r: Parsed<Expr>)
    requires at <= |t|
    ensures r.Ok? ==> at < r.at <= |t|
    decreases |t| - at, 4
  {
    var first := ParseAnd(t, at, depth, atoms);
    if first.Fail? then Fail else XorRest(t, first.at, depth, atoms, first.value)
  }

  function OrRest(t: string, at: nat, depth: nat, atoms: Atoms, left: Expr): (r: Parsed<Expr>)
    requires at <= |t|
    ensures r.Ok? ==> at <= r.at <= |t|
    decreases |t| - at, 5
  {
    var (hit, a) := OrSign(t, at);
    if !hit then Ok(left, a)
    else
      var right := ParseXor(t, a, depth, atoms);
      if right.Fail? then Fail else OrRest(t, right.at, depth, atoms, Or(left, right.value))
  }

  function ParseOr(t: string, at: nat, depth: nat, atoms: Atoms): (r: Parsed<Expr>)
    requires at <= |t|
    ensures r.Ok? ==> at < r.at <= |t|
    decreases |t| - at, 6
  {
    var first := ParseXor(t, at, depth, atoms);
    if first.Fail? then Fail else OrRest(t, first.at, depth, atoms, first.value)
  }

  /** The whole text: the tree, or nothing. */
  function Parse(t: string, context: Context, foreign: Foreign): (r: Parsed<Expr>)
    ensures r.Ok? ==> t != [] && |t| <= Limit(context)
  {
    if t == [] || |t| > Limit(context) then Fail
    else
      var e := ParseOr(t, 0, 0, SourceAtoms(context, foreign));
      if e.Fail? || Skip(t, e.at) != |t| then Fail else e
  }

  // ---------------------------------------------------------------------------
  // Postfix code and its meaning
  // ---------------------------------------------------------------------------

  function PostOrder(e: Expr): (p: seq<Instruction>)
    ensures 0 < |p|
  {
    match e
    case Leaf(c) => [Compare(c)]
    case Const(b) => [Constant(b)]
    case Not(x) => PostOrder(x) + [NotOp]
    case And(l, r) => PostOrder(l) + PostOrder(r) + [AndOp]
    case Xor(l, r) => PostOrder(l) + PostOrder(r) + [XorOp]
    case Or(l, r) => PostOrder(l) + PostOrder(r) + [OrOp]
  }

  function Eval(e: Expr, leaf: Condition -> bool): (b: bool) {
    match e
    case Leaf(c) => leaf(c)
    case Const(v) => v
    case Not(x) => !Eval(x, leaf)
    case And(l, r) => Eval(l, leaf) && Eval(r, leaf)
    case Xor(l, r) => Eval(l, leaf) != Eval(r, leaf)
    case Or(l, r) => Eval(l, leaf) || Eval(r, leaf)
  }

  // ---------------------------------------------------------------------------
  // What counts as a blank, a word and a name
  // ---------------------------------------------------------------------------

  /** Blanks, tabs and line ends are passed over, and nothing else. */
  lemma {:induction false} SkipsExactly(t: string, at: nat)
    requires at <= |t|
    ensures forall i :: at <= i < Skip(t, at) ==> t[i] in " \t\r\n"
    ensures Skip(t, at) < |t| ==> t[Skip(t, at)] !in " \t\r\n"
    decreases |t| - at
  {
    if at < |t| && Blank(t[at]) { SkipsExactly(t, at + 1); }
  }

  predicate Continues(c: char) { 'a' <= c <= 'z' || 'A' <= c <= 'Z' || '0' <= c <= '9' || c == '_' || c == '.' }

  /** A word is read exactly where it stands after blanks and is not followed by a letter, a digit, an
      underscore or a full stop; else only the blanks are passed over. */
  lemma KeywordExactly(t: string, at: nat, w: string)
    requires at <= |t|
    ensures var s, (hit, next) := Skip(t, at), Keyword(t, at, w);
            && (hit ==> s + |w| <= |t| && t[s..s + |w|] == w && (s + |w| < |t| ==> !Continues(t[s + |w|])))
            && (s + |w| <= |t| && t[s..s + |w|] == w && (s + |w| < |t| ==> !Continues(t[s + |w|])) ==> hit)
            && next == if hit then s + |w| else s
  {
  }

  lemma {:induction false} NameEndIsLongest(t: string, at: nat)
    requires at <= |t|
    ensures forall i :: at <= i < NameEnd(t, at) ==> NameChar(t[i])
    ensures NameEnd(t, at) < |t| ==> !NameChar(t[NameEnd(t, at)])
    decreases |t| - at
  {
    if at < |t| && NameChar(t[at]) { NameEndIsLongest(t, at + 1); }
  }

  /** A name is the longest run, not empty, of small letters, digits, underscores and full stops after blanks. */
  lemma IdentifierExactly(t: string, at: nat)
    requires at <= |t|
    ensures var s, r := Skip(t, at), Identifier(t, at);
            && (r.Ok? <==> s < |t| && NameChar(t[s]))
            && (r.Ok? ==>
                  && s < r.at && r.value == t[s..r.at] && (forall i :: s <= i < r.at ==> NameChar(t[i]))
                  && (r.at < |t| ==> !NameChar(t[r.at])))
  {
    NameEndIsLongest(t, Skip(t, at));
  }
}
