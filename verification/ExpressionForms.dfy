/** The printed form of an accepted expression: what the parser accepts, printing and parsing keep. */
module ExpressionForms {
  import opened RequestExpression
  import opened ExpressionPrinting
  import opened ExpressionAtoms

  // ---------------------------------------------------------------------------
  // Whatever an atom is read as can be expressed
  // ---------------------------------------------------------------------------

  lemma {:induction false} LiteralBodyGives(t: string, at: nat, raw: bool, hashes: nat, value: string, foreign: Foreign)
    requires at <= |t| && forall c :: c in value ==> Unescapable(c)
    ensures var r := LiteralBody(t, at, raw, hashes, value, foreign); r.Ok? ==> TextOk(r.value, foreign)
    decreases |t| - at
  {
    if at < |t| && !(t[at] == '"' && (!raw || HasAt(t, at + 1, Hashes(hashes)))) {
      var escaped := !raw && t[at] == '\\';
      if !(escaped && (at + 1 == |t| || (t[at + 1] != '\\' && t[at + 1] != '"'))) {
        var c := if escaped then t[at + 1] else t[at];
        if Unescapable(c) { LiteralBodyGives(t, if escaped then at + 2 else at + 1, raw, hashes, value + [c], foreign); }
      }
    }
  }

  lemma LiteralGives(t: string, at: nat, foreign: Foreign)
    requires at <= |t|
    ensures var r := Literal(t, at, foreign); r.Ok? ==> TextOk(r.value, foreign)
  {
    var s := Skip(t, at);
    var raw := s < |t| && t[s] == 'r';
    var opening := if raw then HashEnd(t, s + 1, 0) else Ok(0, s);
    if opening.Ok? && opening.at < |t| { LiteralBodyGives(t, opening.at + 1, raw, opening.value, [], foreign); }
  }

  lemma {:induction false} NameEndGives(t: string, at: nat)
    requires at <= |t|
    ensures AllName(t[at..NameEnd(t, at)])
    decreases |t| - at
  {
    if at < |t| && NameChar(t[at]) {
      NameEndGives(t, at + 1);
      assert t[at..NameEnd(t, at)] == [t[at]] + t[at + 1..NameEnd(t, at + 1)];
    }
  }

  lemma IdentifierGives(t: string, at: nat)
    requires at <= |t|
    ensures var r := Identifier(t, at); r.Ok? ==> r.value != [] && AllName(r.value)
  {
    NameEndGives(t, Skip(t, at));
  }

  lemma {:induction false} AddressEndGives(t: string, at: nat)
    requires at <= |t|
    ensures forall c :: c in t[at..AddressEnd(t, at)] ==> AddressChar(c)
    decreases |t| - at
  {
    if at < |t| && AddressChar(t[at]) {
      AddressEndGives(t, at + 1);
      assert t[at..AddressEnd(t, at)] == [t[at]] + t[at + 1..AddressEnd(t, at + 1)];
    }
  }

  lemma ScalarGives(t: string, at: nat, field: string, context: Context, foreign: Foreign)
    requires at <= |t|
    ensures var r := Scalar(t, at, field, context, foreign); r.Ok? ==> ScalarOk(field, r.value, context, foreign)
  {
    LiteralGives(t, Skip(t, at), foreign);
    AddressEndGives(t, Skip(t, at));
  }

  lemma {:induction false} ScalarsGive(t: string, at: nat, field: string, context: Context, foreign: Foreign, values: seq<string>)
    requires at <= |t| && |values| <= 100 && AllOk(field, values, context, foreign)
    ensures var r := Scalars(t, at, field, context, foreign, values);
            r.Ok? ==> |r.value| <= 100 && AllOk(field, r.value, context, foreign)
    decreases |t| - at
  {
    var (done, a) := Symbol(t, at, '}');
    if !done && |values| < 100 {
      var v := Scalar(t, a, field, context, foreign);
      ScalarGives(t, a, field, context, foreign);
      if v.Ok? { ScalarsGive(t, v.at, field, context, foreign, values + [v.value]); }
    }
  }

  lemma HeaderGives(t: string, at: nat, foreign: Foreign)
    requires at <= |t|
    ensures var r := HeaderName(t, at, foreign); r.Ok? ==> TextOk(r.value, foreign) && foreign.token(r.value) && !Upper(r.value)
  {
    var opening := Require(t, Ok([], at), '[');
    if opening.Ok? { LiteralGives(t, opening.at, foreign); }
  }

  lemma NameGives(t: string, at: nat, context: Context, foreign: Foreign)
    requires at <= |t|
    ensures var r := NameAt(t, at, context, foreign);
            r.Ok? ==> forall lower :: FieldOk(Condition(r.value.0, r.value.1, [], [], lower, []), context, foreign)
  {
    var name := Identifier(t, at);
    if name.Ok? { HeaderGives(t, name.at, foreign); }
  }

  lemma FieldGives(t: string, at: nat, context: Context, foreign: Foreign)
    requires at <= |t|
    ensures var r := Field(t, at, context, foreign); r.Ok? ==> FieldOk(r.value, context, foreign) && r.value == Bound(r.value)
  {
    var (lower, a) := Keyword(t, at, "lower");
    var opening := if lower then Require(t, Ok([], a), '(') else Ok([], a);
    if opening.Ok? { NameGives(t, opening.at, context, foreign); }
  }

  lemma CallGives(t: string, at: nat, name: string, context: Context, foreign: Foreign)
    requires at <= |t| && (name == "starts_with" || name == "ends_with")
    ensures var r := Call(t, at, name, context, foreign); r.Ok? ==> ConditionOk(r.value, context, foreign)
  {
    var opening := Require(t, Ok([], at), '(');
    if opening.Ok? {
      var field := Field(t, opening.at, context, foreign);
      FieldGives(t, opening.at, context, foreign);
      if field.Ok? {
        var comma := Require(t, Ok([], field.at), ',');
        if comma.Ok? { LiteralGives(t, comma.at, foreign); }
      }
    }
  }

  /** The value part of a comparison whose field and operator have been read. */
  lemma SetGives(t: string, at: nat, b: Condition, context: Context, foreign: Foreign)
    requires at <= |t| && FieldOk(b, context, foreign) && b == Bound(b)
    ensures var brace := Require(t, Ok([], at), '{');
            brace.Ok? ==>
              var r := Scalars(t, brace.at, b.field, context, foreign, []);
              r.Ok? ==> ConditionOk(b.(comparison := "in", values := r.value), context, foreign)
  {
    var brace := Require(t, Ok([], at), '{');
    if brace.Ok? { ScalarsGive(t, brace.at, b.field, context, foreign, []); }
  }

  lemma ListGives(t: string, at: nat, b: Condition, foreign: Foreign)
    requires at <= |t| && FieldOk(b, Security, foreign) && b == Bound(b)
    ensures var r := Identifier(t, at); r.Ok? ==> ConditionOk(b.(comparison := "in", list := r.value), Security, foreign)
  {
    IdentifierGives(t, at);
  }

  lemma NoCall(op: string)
    requires op in COMPARISONS
    ensures op != "starts_with" && op != "ends_with"
  {
  }

  lemma SingleOk(b: Condition, op: string, v: string, context: Context, foreign: Foreign)
    requires FieldOk(b, context, foreign) && b.list == [] && op in COMPARISONS && op != "in" && ScalarOk(b.field, v, context, foreign)
    requires (op == "matches" ==> foreign.pattern(v)) && (EndsWithWildcard(op) ==> WildcardOk(v, false, false))
    ensures ConditionOk(b.(comparison := op, values := [v]), context, foreign)
  {
    NoCall(op);
  }

  lemma SingleGives(t: string, at: nat, b: Condition, op: string, context: Context, foreign: Foreign)
    requires at <= |t| && FieldOk(b, context, foreign) && b == Bound(b) && op in COMPARISONS && op != "in"
    ensures var r := Scalar(t, at, b.field, context, foreign);
            r.Ok? && (op == "matches" ==> foreign.pattern(r.value)) && (EndsWithWildcard(op) ==> WildcardOk(r.value, false, false)) ==>
              ConditionOk(b.(comparison := op, values := [r.value]), context, foreign)
  {
    ScalarGives(t, at, b.field, context, foreign);
    var r := Scalar(t, at, b.field, context, foreign);
    if r.Ok? && (op == "matches" ==> foreign.pattern(r.value)) && (EndsWithWildcard(op) ==> WildcardOk(r.value, false, false)) {
      SingleOk(b, op, r.value, context, foreign);
    }
  }

  lemma ComparisonGives(t: string, at: nat, context: Context, foreign: Foreign)
    requires at <= |t|
    ensures var r := Comparison(t, at, context, foreign); r.Ok? ==> ConditionOk(r.value, context, foreign)
  {
    var field := Field(t, at, context, foreign);
    FieldGives(t, at, context, foreign);
    if field.Ok? {
      var op := Operator(t, field.at);
      if op.Ok? && op.value in COMPARISONS {
        var (list, a) := if op.value == "in" && context.Security? then Symbol(t, op.at, '$') else (false, op.at);
        if list { ListGives(t, a, field.value, foreign); }
        else if op.value == "in" { SetGives(t, a, field.value, context, foreign); }
        else { SingleGives(t, a, field.value, op.value, context, foreign); }
      }
    }
  }

  lemma AtomGives(t: string, at: nat, context: Context, foreign: Foreign)
    requires at <= |t|
    ensures var r := Atom(t, at, context, foreign); r.Ok? && r.value.Leaf? ==> ConditionOk(r.value.condition, context, foreign)
  {
    var (yes, a) := Keyword(t, at, "true");
    var (no, b) := Keyword(t, a, "false");
    var (starts, c) := Keyword(t, b, "starts_with");
    var (ends, d) := if starts then (false, c) else Keyword(t, c, "ends_with");
    CallGives(t, d, "starts_with", context, foreign);
    CallGives(t, d, "ends_with", context, foreign);
    ComparisonGives(t, d, context, foreign);
  }

  // ---------------------------------------------------------------------------
  // What a wildcard may look like
  // ---------------------------------------------------------------------------

  /** A wildcard is a list of such pieces: a star, an escaped star or backslash, or another character. */
  predicate Piece(p: string) { p == "*" || p == "\\*" || p == "\\\\" || (|p| == 1 && p[0] != '*' && p[0] != '\\') }

  function Joined(pieces: seq<string>): (s: string) { if pieces == [] then [] else pieces[0] + Joined(pieces[1..]) }

  /** No two stars follow one another, nor does one follow `star`. */
  predicate Pieces(pieces: seq<string>, star: bool) {
    && (forall i :: 0 <= i < |pieces| ==> Piece(pieces[i]))
    && (star && pieces != [] ==> pieces[0] != "*")
    && (forall i :: 0 <= i < |pieces| - 1 ==> !(pieces[i] == "*" && pieces[i + 1] == "*"))
  }

  lemma {:induction false} WildcardSplits(s: string, star: bool) returns (pieces: seq<string>)
    requires WildcardOk(s, false, star)
    ensures Pieces(pieces, star) && Joined(pieces) == s
    decreases |s|
  {
    if s == [] {
      pieces := [];
    } else if s[0] == '\\' {
      var rest := WildcardSplits(s[2..], false);
      pieces := [s[..2]] + rest;
      assert s == s[..2] + s[2..] && pieces[1..] == rest;
    } else {
      var rest := WildcardSplits(s[1..], s[0] == '*');
      pieces := [s[..1]] + rest;
      assert s == s[..1] + s[1..] && pieces[1..] == rest;
      assert pieces[0] == "*" <==> s[0] == '*';
    }
  }

  lemma {:induction false} PiecesAreWildcard(pieces: seq<string>, star: bool)
    requires Pieces(pieces, star)
    ensures WildcardOk(Joined(pieces), false, star)
    decreases |pieces|
  {
    if pieces != [] {
      var first, rest := pieces[0], pieces[1..];
      assert Piece(first);
      assert forall i :: 0 <= i < |rest| ==> rest[i] == pieces[i + 1];
      PiecesAreWildcard(rest, first == "*");
      var s := Joined(pieces);
      assert s == first + Joined(rest) && s[|first|..] == Joined(rest) && s[0] == first[0];
      if |first| == 2 {
        assert s[1] == first[1] && s[1..][1..] == Joined(rest) && s[1..][0] == first[1];
        PiecesAreWildcard(rest, false);
      } else {
        assert s[1..] == Joined(rest);
      }
    }
  }

  /** A wildcard value is accepted exactly when it is such a list with no two stars in a row. */
  lemma WildcardsAreLists(s: string)
    ensures WildcardOk(s, false, false) <==> exists pieces: seq<string> :: Pieces(pieces, false) && Joined(pieces) == s
  {
    if WildcardOk(s, false, false) { var pieces := WildcardSplits(s, false); }
    if exists pieces: seq<string> :: Pieces(pieces, false) && Joined(pieces) == s {
      var pieces: seq<string> :| Pieces(pieces, false) && Joined(pieces) == s;
      PiecesAreWildcard(pieces, false);
    }
  }

  // ---------------------------------------------------------------------------
  // Whatever the grammar builds can be printed
  // ---------------------------------------------------------------------------

  /** Trees whose conditions pass the parser's checks. */
  predicate Printable(e: Expr, context: Context, foreign: Foreign) {
    match e
    case Not(x) => Printable(x, context, foreign)
    case And(l, r) => Printable(l, context, foreign) && Printable(r, context, foreign)
    case Xor(l, r) => Printable(l, context, foreign) && Printable(r, context, foreign)
    case Or(l, r) => Printable(l, context, foreign) && Printable(r, context, foreign)
    case Const(_) => true
    case Leaf(c) => ConditionOk(c, context, foreign)
  }

  /** Operators as words and literals in quotes. */
  const WORDS: Style := Choice(false, map[])

  /** The plainest way to write a tree. */
  function Plain(e: Expr, context: Context): (f: Form)
    ensures Meaning(f) == e
  {
    match e
    case Const(b) => Word(e, if b then "true" else "false")
    case Leaf(c) => Word(e, ConditionText(WORDS, c, context))
    case Not(x) => Neg(false, Plain(x, context))
    case And(l, r) => Both(false, Plain(l, context), Plain(r, context))
    case Xor(l, r) => Odd(Plain(l, context), Plain(r, context))
    case Or(l, r) => Any(false, Plain(l, context), Plain(r, context))
  }

  function Printed(e: Expr, context: Context): (s: string) { Show(Plain(e, context), 0) }

  /** Printable, and nesting no deeper than what is left of the bound at this level. */
  predicate Fits(r: Parsed<Expr>, depth: nat, level: nat, context: Context, foreign: Foreign) {
    r.Ok? ==> Printable(r.value, context, foreign) && depth + Nest(Plain(r.value, context), level) <= MAX_DEPTH
  }

  /** A looser level never nests deeper, and a pair of parentheses nests once. */
  lemma NestLoosens(e: Expr, level: nat, context: Context)
    ensures var f := Plain(e, context); Nest(f, level) <= Nest(f, level + 1) && Nest(f, 3) <= 1 + Nest(f, 0)
  {
  }

  lemma ReadAtomFits(t: string, at: nat, depth: nat, context: Context, foreign: Foreign)
    requires at <= |t| && depth <= MAX_DEPTH
    ensures Fits(ReadAtom(t, at, SourceAtoms(context, foreign)), depth, 3, context, foreign)
  {
    SourceAtomsRead(t, at, context, foreign);
    AtomGives(t, at, context, foreign);
  }

  lemma BracketsFit(r: Parsed<Expr>, e: Parsed<Expr>, depth: nat, deeper: nat, context: Context, foreign: Foreign)
    requires deeper == depth + 1 && Fits(r, deeper, 0, context, foreign) && (e.Ok? ==> r.Ok? && e.value == r.value)
    ensures Fits(e, depth, 3, context, foreign)
  {
    if r.Ok? { NestLoosens(r.value, 0, context); }
  }

  lemma NegationFits(r: Parsed<Expr>, e: Parsed<Expr>, depth: nat, deeper: nat, context: Context, foreign: Foreign)
    requires deeper == depth + 1 && Fits(r, deeper, 3, context, foreign) && (e.Ok? ==> r.Ok? && e.value == Not(r.value))
    ensures Fits(e, depth, 3, context, foreign)
  {
  }

  lemma {:induction false} PrimaryFits(t: string, at: nat, depth: nat, context: Context, foreign: Foreign)
    requires at <= |t|
    ensures Fits(Primary(t, at, depth, SourceAtoms(context, foreign)), depth, 3, context, foreign)
    decreases |t| - at, 0
  {
    var atoms := SourceAtoms(context, foreign);
    var r := Primary(t, at, depth, atoms);
    if depth <= MAX_DEPTH {
      var (paren, a) := Symbol(t, at, '(');
      var (not, b) := NotSign(t, a);
      if paren {
        OrFits(t, a, depth + 1, context, foreign);
        BracketsFit(ParseOr(t, a, depth + 1, atoms), r, depth, depth + 1, context, foreign);
      } else if not {
        PrimaryFits(t, b, depth + 1, context, foreign);
        NegationFits(Primary(t, b, depth + 1, atoms), r, depth, depth + 1, context, foreign);
      } else {
        ReadAtomFits(t, b, depth, context, foreign);
      }
    }
  }

  lemma {:induction false} AndRestFits(t: string, at: nat, depth: nat, context: Context, foreign: Foreign, left: Expr)
    requires at <= |t| && Fits(Ok(left, at), depth, 2, context, foreign)
    ensures Fits(AndRest(t, at, depth, SourceAtoms(context, foreign), left), depth, 2, context, foreign)
    decreases |t| - at, 1
  {
    var (hit, a) := AndSign(t, at);
    if hit {
      var right := Primary(t, a, depth, SourceAtoms(context, foreign));
      PrimaryFits(t, a, depth, context, foreign);
      if right.Ok? { AndRestFits(t, right.at, depth, context, foreign, And(left, right.value)); }
    }
  }

  lemma {:induction false} AndFits(t: string, at: nat, depth: nat, context: Context, foreign: Foreign)
    requires at <= |t|
    ensures Fits(ParseAnd(t, at, depth, SourceAtoms(context, foreign)), depth, 2, context, foreign)
    decreases |t| - at, 2
  {
    var first := Primary(t, at, depth, SourceAtoms(context, foreign));
    PrimaryFits(t, at, depth, context, foreign);
    if first.Ok? {
      NestLoosens(first.value, 2, context);
      AndRestFits(t, first.at, depth, context, foreign, first.value);
    }
  }

  lemma {:induction false} XorRestFits(t: string, at: nat, depth: nat, context: Context, foreign: Foreign, left: Expr)
    requires at <= |t| && Fits(Ok(left, at), depth, 1, context, foreign)
    ensures Fits(XorRest(t, at, depth, SourceAtoms(context, foreign), left), depth, 1, context, foreign)
    decreases |t| - at, 3
  {
    var (hit, a) := XorSign(t, at);
    if hit {
      var right := ParseAnd(t, a, depth, SourceAtoms(context, foreign));
      AndFits(t, a, depth, context, foreign);
      if right.Ok? { XorRestFits(t, right.at, depth, context, foreign, Xor(left, right.value)); }
    }
  }

  lemma {:induction false} XorFits(t: string, at: nat, depth: nat, context: Context, foreign: Foreign)
    requires at <= |t|
    ensures Fits(ParseXor(t, at, depth, SourceAtoms(context, foreign)), depth, 1, context, foreign)
    decreases |t| - at, 4
  {
    var first := ParseAnd(t, at, depth, SourceAtoms(context, foreign));
    AndFits(t, at, depth, context, foreign);
    if first.Ok? {
      NestLoosens(first.value, 1, context);
      XorRestFits(t, first.at, depth, context, foreign, first.value);
    }
  }

  lemma {:induction false} OrRestFits(t: string, at: nat, depth: nat, context: Context, foreign: Foreign, left: Expr)
    requires at <= |t| && Fits(Ok(left, at), depth, 0, context, foreign)
    ensures Fits(OrRest(t, at, depth, SourceAtoms(context, foreign), left), depth, 0, context, foreign)
    decreases |t| - at, 5
  {
    var (hit, a) := OrSign(t, at);
    if hit {
      var right := ParseXor(t, a, depth, SourceAtoms(context, foreign));
      XorFits(t, a, depth, context, foreign);
      if right.Ok? { OrRestFits(t, right.at, depth, context, foreign, Or(left, right.value)); }
    }
  }

  lemma {:induction false} OrFits(t: string, at: nat, depth: nat, context: Context, foreign: Foreign)
    requires at <= |t|
    ensures Fits(ParseOr(t, at, depth, SourceAtoms(context, foreign)), depth, 0, context, foreign)
    decreases |t| - at, 6
  {
    var first := ParseXor(t, at, depth, SourceAtoms(context, foreign));
    XorFits(t, at, depth, context, foreign);
    if first.Ok? {
      NestLoosens(first.value, 0, context);
      OrRestFits(t, first.at, depth, context, foreign, first.value);
    }
  }

  /** Every atom is written in one of its spellings. */
  ghost predicate Styled(f: Form, context: Context, foreign: Foreign) {
    match f
    case Word(e, text) => AtomStyled(e, text, context, foreign)
    case Group(x) => Styled(x, context, foreign)
    case Neg(_, x) => Styled(x, context, foreign)
    case Both(_, l, r) => Styled(l, context, foreign) && Styled(r, context, foreign)
    case Odd(l, r) => Styled(l, context, foreign) && Styled(r, context, foreign)
    case Any(_, l, r) => Styled(l, context, foreign) && Styled(r, context, foreign)
  }

  ghost predicate AtomStyled(e: Expr, text: string, context: Context, foreign: Foreign) {
    match e
    case Const(b) => text == if b then "true" else "false"
    case Leaf(c) => ConditionOk(c, context, foreign) && exists style: Style :: text == ConditionText(style, c, context)
    case _ => false
  }

  lemma AtomIsSpelled(e: Expr, text: string, context: Context, foreign: Foreign)
    requires AtomStyled(e, text, context, foreign)
    ensures Spells(text, e, SourceAtoms(context, foreign))
  {
    match e
    case Const(b) => ConstantSpells(b, context, foreign);
    case Leaf(c) =>
      var style: Style :| text == ConditionText(style, c, context);
      ConditionSpells(style, c, context, foreign);
  }

  lemma {:induction false} StyledIsSpelled(f: Form, context: Context, foreign: Foreign)
    requires Styled(f, context, foreign)
    ensures Spelled(f, SourceAtoms(context, foreign))
  {
    match f
    case Word(e, text) => AtomIsSpelled(e, text, context, foreign);
    case Group(x) => StyledIsSpelled(x, context, foreign);
    case Neg(_, x) => StyledIsSpelled(x, context, foreign);
    case Both(_, l, r) => StyledIsSpelled(l, context, foreign); StyledIsSpelled(r, context, foreign);
    case Odd(l, r) => StyledIsSpelled(l, context, foreign); StyledIsSpelled(r, context, foreign);
    case Any(_, l, r) => StyledIsSpelled(l, context, foreign); StyledIsSpelled(r, context, foreign);
  }

  lemma {:induction false} PlainIsStyled(e: Expr, context: Context, foreign: Foreign)
    requires Printable(e, context, foreign)
    ensures Styled(Plain(e, context), context, foreign)
  {
    match e
    case Not(x) => PlainIsStyled(x, context, foreign);
    case And(l, r) => PlainIsStyled(l, context, foreign); PlainIsStyled(r, context, foreign);
    case Xor(l, r) => PlainIsStyled(l, context, foreign); PlainIsStyled(r, context, foreign);
    case Or(l, r) => PlainIsStyled(l, context, foreign); PlainIsStyled(r, context, foreign);
    case _ =>
  }

  // ---------------------------------------------------------------------------
  // Main results
  // ---------------------------------------------------------------------------

  /** However an expression is written, each operator as a word or a symbol, each literal quoted or raw,
      each address bare, with any extra parentheses: within the nesting bound it is read as the tree it
      stands for exactly when its text fits. */
  lemma TreesReadBack(f: Form, context: Context, foreign: Foreign)
    requires Styled(f, context, foreign) && Nest(f, 0) <= MAX_DEPTH
    ensures Parse(Show(f, 0), context, foreign) == Ok(Meaning(f), |Show(f, 0)|) <==> |Show(f, 0)| <= Limit(context)
  {
    StyledIsSpelled(f, context, foreign);
    if |Show(f, 0)| <= Limit(context) { PrintThenParse(f, context, foreign); }
  }

  /** What the parser accepts can be printed: its conditions pass the checks, and the printed form
      nests no deeper than the bound, whatever parentheses, signs and quotes the text used. */
  lemma AcceptedTreesPrint(t: string, context: Context, foreign: Foreign)
    requires Parse(t, context, foreign).Ok?
    ensures Printable(Parse(t, context, foreign).value, context, foreign) && Nest(Plain(Parse(t, context, foreign).value, context), 0) <= MAX_DEPTH
  {
    OrFits(t, 0, 0, context, foreign);
  }

  /** Any accepted text, printed and parsed again, means the same tree; it is accepted again exactly
      when the printed form fits, and printing is then a normal form: it reproduces itself. */
  lemma PrintedFormIsStable(t: string, context: Context, foreign: Foreign)
    requires Parse(t, context, foreign).Ok?
    ensures var form := Printed(Parse(t, context, foreign).value, context);
            var again := Parse(form, context, foreign);
            && (again.Ok? <==> |form| <= Limit(context))
            && (again.Ok? ==> again.value == Parse(t, context, foreign).value && Printed(again.value, context) == form)
  {
    AcceptedTreesPrint(t, context, foreign);
    PlainIsStyled(Parse(t, context, foreign).value, context, foreign);
    TreesReadBack(Plain(Parse(t, context, foreign).value, context), context, foreign);
  }
}
