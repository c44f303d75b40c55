/** Writing an expression down, and the proof that the grammar of module RequestExpression reads it back:
    operators as words or symbols, the parentheses that precedence asks for, and any others.
    This fixes precedence (or < xor < and < not) and associativity (to the left) without naming
    the parsing functions' own bodies. */
module ExpressionPrinting {
  import opened RequestExpression

  /** A written expression: its operators in their spelling as words or symbols, its atoms as text, and
      parentheses where the writer added some. */
  datatype Form =
    | Word(e: Expr, text: string) | Group(f: Form) | Neg(symbol: bool, f: Form)
    | Both(symbol: bool, l: Form, r: Form) | Odd(l: Form, r: Form) | Any(symbol: bool, l: Form, r: Form)

  /** The tree it stands for. */
  function Meaning(f: Form): (e: Expr) {
    match f
    case Word(e, _) => e
    case Group(x) => Meaning(x)
    case Neg(_, x) => Not(Meaning(x))
    case Both(_, l, r) => And(Meaning(l), Meaning(r))
    case Odd(l, r) => Xor(Meaning(l), Meaning(r))
    case Any(_, l, r) => Or(Meaning(l), Meaning(r))
  }

  function NotText(symbol: bool): string { if symbol then "!" else "not " }

  function AndText(symbol: bool): string { if symbol then " && " else " and " }

  function OrText(symbol: bool): string { if symbol then " || " else " or " }

  /** The levels of the grammar, loosest first: or, xor, and, primary. */
  predicate Bracketed(e: Form, level: nat) {
    e.Group? || (e.Any? && level > 0) || (e.Odd? && level > 1) || (e.Both? && level > 2)
  }

  /** What stands between the brackets. */
  function Inner(e: Form): (x: Form)
    ensures Meaning(x) == Meaning(e)
  {
    if e.Group? then e.f else e
  }

  function Show(e: Form, level: nat): (s: string)
    decreases e, level
  {
    if Bracketed(e, level) then "(" + Show(Inner(e), 0) + ")"
    else match e
         case Word(_, text) => text
         case Neg(symbol, x) => NotText(symbol) + Show(x, 3)
         case Both(symbol, l, r) => Show(l, 2) + AndText(symbol) + Show(r, 3)
         case Odd(l, r) => Show(l, 1) + " xor " + Show(r, 2)
         case Any(symbol, l, r) => Show(l, 0) + OrText(symbol) + Show(r, 1)
  }

  function Higher(a: nat, b: nat): nat { if a < b then b else a }

  /** How deep the parser nests while reading the printed text. */
  function Nest(e: Form, level: nat): (n: nat)
    decreases e, level
  {
    if Bracketed(e, level) then 1 + Nest(Inner(e), 0)
    else match e
         case Word(_, _) => 0
         case Neg(_, x) => 1 + Nest(x, 3)
         case Both(_, l, r) => Higher(Nest(l, 2), Nest(r, 3))
         case Odd(l, r) => Higher(Nest(l, 1), Nest(r, 2))
         case Any(_, l, r) => Higher(Nest(l, 0), Nest(r, 1))
  }

  predicate Ends(t: string, at: nat) { at == |t| || (at < |t| && (t[at] == ' ' || t[at] == ')')) }

  /** `s` is a spelling of atom `a`: wherever it stands before an end, it is read as `a`. */
  ghost predicate Spells(s: string, a: Expr, atoms: Atoms) {
    && s != [] && !Blank(s[0]) && s[0] != '(' && s[0] != '!' && s[0] != 'n'
    && forall t: string, at: nat :: HasAt(t, at, s) && Ends(t, at + |s|) ==> ReadAtom(t, at, atoms) == Ok(a, at + |s|)
  }

  ghost predicate Spelled(f: Form, atoms: Atoms) {
    match f
    case Word(e, text) => Spells(text, e, atoms)
    case Group(x) => Spelled(x, atoms)
    case Neg(_, x) => Spelled(x, atoms)
    case Both(_, l, r) => Spelled(l, atoms) && Spelled(r, atoms)
    case Odd(l, r) => Spelled(l, atoms) && Spelled(r, atoms)
    case Any(_, l, r) => Spelled(l, atoms) && Spelled(r, atoms)
  }

  // ---------------------------------------------------------------------------
  // Positions and blanks
  // ---------------------------------------------------------------------------

  lemma HasAtSplit(t: string, at: nat, x: string, y: string)
    requires HasAt(t, at, x + y)
    ensures HasAt(t, at, x) && HasAt(t, at + |x|, y)
  {
    assert t[at..at + |x|] == t[at..at + |x + y|][..|x|] == x;
    assert t[at + |x|..at + |x| + |y|] == t[at..at + |x + y|][|x|..] == y;
  }

  lemma HasAtChar(t: string, at: nat, w: string, i: nat)
    requires HasAt(t, at, w) && i < |w|
    ensures at + i < |t| && t[at + i] == w[i]
  {
    assert t[at..at + |w|][i] == w[i];
  }

  lemma PrimarySkips(t: string, at: nat, depth: nat, atoms: Atoms)
    requires at <= |t|
    ensures Primary(t, at, depth, atoms) == Primary(t, Skip(t, at), depth, atoms)
  {
  }

  lemma ParseAndSkips(t: string, at: nat, depth: nat, atoms: Atoms)
    requires at <= |t|
    ensures ParseAnd(t, at, depth, atoms) == ParseAnd(t, Skip(t, at), depth, atoms)
  {
    PrimarySkips(t, at, depth, atoms);
  }

  lemma ParseXorSkips(t: string, at: nat, depth: nat, atoms: Atoms)
    requires at <= |t|
    ensures ParseXor(t, at, depth, atoms) == ParseXor(t, Skip(t, at), depth, atoms)
  {
    ParseAndSkips(t, at, depth, atoms);
  }

  lemma XorRestSkips(t: string, at: nat, depth: nat, atoms: Atoms, left: Expr)
    requires at <= |t|
    ensures XorRest(t, at, depth, atoms, left) == XorRest(t, Skip(t, at), depth, atoms, left)
  {
  }

  lemma OrSignSkips(t: string, at: nat)
    requires at <= |t|
    ensures OrSign(t, Skip(t, at)) == OrSign(t, at)
  {
  }

  lemma OrRestSkips(t: string, at: nat, depth: nat, atoms: Atoms, left: Expr)
    requires at <= |t|
    ensures OrRest(t, at, depth, atoms, left) == OrRest(t, Skip(t, at), depth, atoms, left)
  {
    OrSignSkips(t, at);
  }

  lemma NotHere(t: string, at: nat, w: string)
    requires at < |t| && w != [] && t[at] != w[0]
    ensures !HasAt(t, at, w)
  {
  }

  /** A sign is absent where the text ends, closes, or continues with another sign. */
  lemma NoSigns(t: string, at: nat)
    requires Ends(t, at) && (at == |t| || t[at] == ')')
    ensures !AndSign(t, at).0 && !XorSign(t, at).0 && !OrSign(t, at).0 && Skip(t, at) == at
  {
    if at < |t| {
      NotHere(t, at, "and");
      NotHere(t, at, "&&");
      NotHere(t, at, "xor");
      NotHere(t, at, "or");
      NotHere(t, at, "||");
    }
  }

  /** " word x" where x does not start with a blank: the word is taken and x comes next. */
  lemma SignRead(t: string, at: nat, w: string)
    requires HasAt(t, at, " " + w + " ") && w != [] && !Blank(w[0])
    requires at + |w| + 2 < |t| && !Blank(t[at + |w| + 2])
    ensures Keyword(t, at, w) == (true, at + |w| + 1)
    ensures Skip(t, at + |w| + 1) == at + |w| + 2
    ensures Skip(t, at) == at + 1 && t[at + 1] == w[0] && t[at] == ' '
  {
    HasAtSplit(t, at, " " + w, " ");
    HasAtSplit(t, at, " ", w);
    HasAtChar(t, at, " ", 0);
    HasAtChar(t, at + 1, w, 0);
    HasAtChar(t, at + 1 + |w|, " ", 0);
    assert Skip(t, at + 1) == at + 1 && HasAt(t, at + 1, w) && !WordChar(t[at + 1 + |w|]);
  }

  lemma OtherSign(t: string, at: nat, w: string)
    requires at < |t| && t[at] == ' ' && at + 1 < |t| && Skip(t, at) == at + 1 && w != [] && t[at + 1] != w[0]
    ensures !Keyword(t, at, w).0 && Keyword(t, at, w).1 == at + 1 && !HasAt(t, at + 1, w)
  {
    NotHere(t, at + 1, w);
  }

  // ---------------------------------------------------------------------------
  // Reading back what was printed
  // ---------------------------------------------------------------------------

  /** Which grammar rule a lemma below is about; the order in which they use one another depends on the tree. */
  function Turn(e: Form, rule: nat): nat {
    if e.Both? then (if rule == 2 then 0 else if rule == 3 then 1 else if rule == 0 then 2 else 3)
    else if e.Odd? then (if rule == 3 then 0 else if rule == 0 then 1 else if rule == 1 then 2 else 3)
    else if e.Any? then (if rule == 0 then 0 else if rule == 1 then 1 else if rule == 2 then 2 else 3)
    else if rule == 1 then 0 else if rule == 2 then 1 else if rule == 3 then 2 else 3
  }

  lemma ParenStep(t: string, at: nat, start: nat, depth: nat, deeper: nat, atoms: Atoms, close: nat, end: nat, e: Expr)
    requires start == at + 1 && deeper == depth + 1
    requires at < close < |t| && end == close + 1 && t[at] == '(' && t[close] == ')' && depth <= MAX_DEPTH
    requires ParseOr(t, start, deeper, atoms) == OrRest(t, close, deeper, atoms, e)
    ensures Primary(t, at, depth, atoms) == Ok(e, end)
  {
    NoSigns(t, close);
    assert Symbol(t, at, '(') == (true, at + 1);
    assert OrRest(t, close, depth + 1, atoms, e) == Ok(e, close);
  }

  lemma NotSignRead(t: string, at: nat, start: nat, symbol: bool) returns (next: nat)
    requires HasAt(t, at, NotText(symbol)) && start == at + |NotText(symbol)| && start < |t| && !Blank(t[start])
    ensures next <= |t| && NotSign(t, at) == (true, next) && Skip(t, next) == start && Symbol(t, at, '(') == (false, at)
  {
    HasAtChar(t, at, NotText(symbol), 0);
    if symbol {
      NotHere(t, at, "not");
      next := start;
    } else {
      assert "not " == "not" + " ";
      HasAtSplit(t, at, "not", " ");
      HasAtChar(t, at + 3, " ", 0);
      next := at + 3;
    }
  }

  lemma NotStep(t: string, at: nat, start: nat, depth: nat, deeper: nat, atoms: Atoms, symbol: bool, end: nat, e: Expr)
    requires HasAt(t, at, NotText(symbol)) && start == at + |NotText(symbol)| && deeper == depth + 1
    requires start < |t| && !Blank(t[start]) && depth <= MAX_DEPTH && Primary(t, start, deeper, atoms) == Ok(e, end)
    ensures Primary(t, at, depth, atoms) == Ok(Not(e), end)
  {
    var next := NotSignRead(t, at, start, symbol);
    PrimarySkips(t, next, deeper, atoms);
  }

  lemma AtomStep(t: string, at: nat, depth: nat, atoms: Atoms)
    requires at < |t| && !Blank(t[at]) && t[at] != '(' && t[at] != '!' && t[at] != 'n' && depth <= MAX_DEPTH
    ensures Primary(t, at, depth, atoms) == ReadAtom(t, at, atoms)
  {
    NotHere(t, at, "not");
    assert Symbol(t, at, '(') == (false, at) && NotSign(t, at) == (false, at);
  }

  /** " && x" or " || x": the symbol is taken, not as another sign, and x comes next. */
  lemma SymbolRead(t: string, at: nat, w: string)
    requires |w| == 2 && !Blank(w[0]) && !WordChar(w[0]) && HasAt(t, at, " " + w + " ") && at + 4 < |t| && !Blank(t[at + 4])
    ensures Skip(t, at) == at + 1 && HasAt(t, at + 1, w) && t[at + 1] == w[0] && t[at] == ' ' && Skip(t, at + 3) == at + 4
  {
    HasAtSplit(t, at, " " + w, " ");
    HasAtSplit(t, at, " ", w);
    HasAtChar(t, at, " ", 0);
    HasAtChar(t, at + 1, w, 0);
    HasAtChar(t, at + 3, " ", 0);
    assert Skip(t, at + 1) == at + 1;
  }

  lemma AndSignRead(t: string, at: nat, start: nat, symbol: bool) returns (next: nat)
    requires HasAt(t, at, AndText(symbol)) && start == at + |AndText(symbol)| && start < |t| && !Blank(t[start])
    ensures next <= |t| && AndSign(t, at) == (true, next) && Skip(t, next) == start
  {
    if symbol {
      assert " && " == " " + "&&" + " ";
      SymbolRead(t, at, "&&");
      OtherSign(t, at, "and");
      next := at + 3;
    } else {
      assert " and " == " " + "and" + " ";
      SignRead(t, at, "and");
      next := at + 4;
    }
  }

  lemma OrSignRead(t: string, at: nat, start: nat, symbol: bool) returns (next: nat)
    requires HasAt(t, at, OrText(symbol)) && start == at + |OrText(symbol)| && start < |t| && !Blank(t[start])
    ensures next <= |t| && OrSign(t, at) == (true, next) && Skip(t, next) == start && !AndSign(t, at).0 && !XorSign(t, at).0
  {
    if symbol {
      assert " || " == " " + "||" + " ";
      SymbolRead(t, at, "||");
      OtherSign(t, at, "or");
      next := at + 3;
    } else {
      assert " or " == " " + "or" + " ";
      SignRead(t, at, "or");
      next := at + 3;
    }
    OtherSign(t, at, "and");
    OtherSign(t, at, "&&");
    OtherSign(t, at, "xor");
  }

  lemma AndStep(t: string, at: nat, start: nat, end: nat, depth: nat, atoms: Atoms, symbol: bool, e: Expr)
    requires e.And? && HasAt(t, at, AndText(symbol)) && start == at + |AndText(symbol)| && start < |t| && !Blank(t[start])
    requires Primary(t, start, depth, atoms) == Ok(e.r, end)
    ensures AndRest(t, at, depth, atoms, e.l) == AndRest(t, end, depth, atoms, e)
  {
    var next := AndSignRead(t, at, start, symbol);
    PrimarySkips(t, next, depth, atoms);
  }

  lemma AndStops(t: string, at: nat, depth: nat, atoms: Atoms, left: Expr)
    requires at <= |t| && !AndSign(t, at).0
    ensures AndRest(t, at, depth, atoms, left) == Ok(left, Skip(t, at))
  {
  }

  lemma XorStops(t: string, at: nat, depth: nat, atoms: Atoms, left: Expr)
    requires at <= |t| && !XorSign(t, at).0
    ensures XorRest(t, at, depth, atoms, left) == Ok(left, Skip(t, at))
  {
  }

  lemma XorStep(t: string, at: nat, start: nat, end: nat, depth: nat, atoms: Atoms, e: Expr)
    requires e.Xor? && HasAt(t, at, " xor ") && start == at + 5 < |t| && !Blank(t[start]) && at <= end <= |t| && !AndSign(t, end).0
    requires ParseAnd(t, start, depth, atoms) == AndRest(t, end, depth, atoms, e.r)
    ensures !AndSign(t, at).0
    ensures XorRest(t, at, depth, atoms, e.l) == XorRest(t, end, depth, atoms, e)
  {
    assert " xor " == " " + "xor" + " ";
    SignRead(t, at, "xor");
    OtherSign(t, at, "and");
    OtherSign(t, at, "&&");
    ParseAndSkips(t, at + 4, depth, atoms);
    AndStops(t, end, depth, atoms, e.r);
    XorRestSkips(t, end, depth, atoms, e);
  }

  lemma OrStep(t: string, at: nat, start: nat, end: nat, depth: nat, atoms: Atoms, symbol: bool, e: Expr)
    requires e.Or? && HasAt(t, at, OrText(symbol)) && start == at + |OrText(symbol)| && start < |t| && !Blank(t[start])
    requires at <= end <= |t| && !XorSign(t, end).0 && ParseXor(t, start, depth, atoms) == XorRest(t, end, depth, atoms, e.r)
    ensures !AndSign(t, at).0 && !XorSign(t, at).0
    ensures OrRest(t, at, depth, atoms, e.l) == OrRest(t, end, depth, atoms, e)
  {
    var next := OrSignRead(t, at, start, symbol);
    ParseXorSkips(t, next, depth, atoms);
    XorStops(t, end, depth, atoms, e.r);
    OrRestSkips(t, end, depth, atoms, e);
  }

  lemma XorPasses(t: string, at: nat, depth: nat, atoms: Atoms, end: nat, e: Expr)
    requires at <= end <= |t| && !AndSign(t, end).0 && ParseAnd(t, at, depth, atoms) == AndRest(t, end, depth, atoms, e)
    ensures ParseXor(t, at, depth, atoms) == XorRest(t, end, depth, atoms, e)
  {
    AndStops(t, end, depth, atoms, e);
    XorRestSkips(t, end, depth, atoms, e);
  }

  lemma OrPasses(t: string, at: nat, depth: nat, atoms: Atoms, end: nat, e: Expr)
    requires at <= end <= |t| && !XorSign(t, end).0 && ParseXor(t, at, depth, atoms) == XorRest(t, end, depth, atoms, e)
    ensures ParseOr(t, at, depth, atoms) == OrRest(t, end, depth, atoms, e)
  {
    XorStops(t, end, depth, atoms, e);
    OrRestSkips(t, end, depth, atoms, e);
  }

  // ---------------------------------------------------------------------------
  // Where the parts of a printed expression stand
  // ---------------------------------------------------------------------------

  /** The size of the printed text. */
  function Width(e: Form, level: nat): (n: nat)
    decreases e, level
  {
    if Bracketed(e, level) then Width(Inner(e), 0) + 2
    else match e
         case Neg(symbol, x) => |NotText(symbol)| + Width(x, 3)
         case Both(symbol, l, r) => Width(l, 2) + |AndText(symbol)| + Width(r, 3)
         case Odd(l, r) => Width(l, 1) + 5 + Width(r, 2)
         case Any(symbol, l, r) => Width(l, 0) + |OrText(symbol)| + Width(r, 1)
         case Word(_, text) => |text|
  }

  /** The expression stands printed in `t` at `at`, and its atoms are spelled there. */
  ghost predicate Laid(e: Form, level: nat, t: string, at: nat, atoms: Atoms)
    decreases e, level, 1
  {
    && at + Width(e, level) <= |t|
    && if Bracketed(e, level) then
         var close := at + 1 + Width(Inner(e), 0);
         close < |t| && t[at] == '(' && t[close] == ')' && Laid(Inner(e), 0, t, at + 1, atoms)
       else match e
            case Neg(symbol, x) => HasAt(t, at, NotText(symbol)) && Laid(x, 3, t, at + |NotText(symbol)|, atoms)
            case Both(symbol, l, r) => LaidPair(e, l, 2, AndText(symbol), |AndText(symbol)|, r, 3, t, at, atoms)
            case Odd(l, r) => LaidPair(e, l, 1, " xor ", 5, r, 2, t, at, atoms)
            case Any(symbol, l, r) => LaidPair(e, l, 0, OrText(symbol), |OrText(symbol)|, r, 1, t, at, atoms)
            case Word(x, text) => HasAt(t, at, text) && Spells(text, x, atoms)
  }

  /** Two operands of `e` and the sign between them. */
  ghost predicate LaidPair(e: Form, l: Form, a: nat, sign: string, k: nat, r: Form, b: nat, t: string, at: nat, atoms: Atoms)
    requires l < e && r < e
    decreases e, 0, 0
  {
    var m := at + Width(l, a);
    Laid(l, a, t, at, atoms) && HasAt(t, m, sign) && Laid(r, b, t, m + k, atoms)
  }

  lemma HasAtThree(t: string, at: nat, x: string, y: string, z: string)
    requires HasAt(t, at, x + y + z)
    ensures HasAt(t, at, x) && HasAt(t, at + |x|, y) && HasAt(t, at + |x| + |y|, z)
  {
    HasAtSplit(t, at, x + y, z);
    HasAtSplit(t, at, x, y);
  }

  lemma {:induction false} WidthIs(e: Form, level: nat)
    ensures |Show(e, level)| == Width(e, level)
    decreases e, level
  {
    if Bracketed(e, level) { WidthIs(Inner(e), 0); } else {
      match e
      case Neg(symbol, x) => WidthIs(x, 3);
      case Both(symbol, l, r) => WidthIs(l, 2); WidthIs(r, 3);
      case Odd(l, r) => WidthIs(l, 1); WidthIs(r, 2);
      case Any(symbol, l, r) => WidthIs(l, 0); WidthIs(r, 1);
      case _ =>
    }
  }

  /** Printed text lies as the predicate says. */
  lemma {:induction false} ShowIsLaid(e: Form, level: nat, t: string, at: nat, atoms: Atoms)
    requires Spelled(e, atoms) && HasAt(t, at, Show(e, level))
    ensures Laid(e, level, t, at, atoms)
    decreases e, level, 3
  {
    if Bracketed(e, level) {
      BracketPlaces(Inner(e), t, at);
      ShowIsLaid(Inner(e), 0, t, at + 1, atoms);
    } else {
      OpenIsLaid(e, level, t, at, atoms);
    }
  }

  lemma {:induction false} OpenIsLaid(e: Form, level: nat, t: string, at: nat, atoms: Atoms)
    requires Spelled(e, atoms) && HasAt(t, at, Show(e, level)) && !Bracketed(e, level)
    ensures Laid(e, level, t, at, atoms)
    decreases e, level, 2
  {
    match e
    case Neg(symbol, x) => NotIsLaid(e, t, at, atoms);
    case Both(symbol, l, r) => AndIsLaid(e, level, t, at, atoms);
    case Odd(l, r) => XorIsLaid(e, level, t, at, atoms);
    case Any(symbol, l, r) => OrIsLaid(e, level, t, at, atoms);
    case _ =>
  }

  lemma LaidFits(e: Form, level: nat, t: string, at: nat, atoms: Atoms)
    requires Laid(e, level, t, at, atoms)
    ensures at + Width(e, level) <= |t|
  {
  }

  lemma PairFits(e: Form, l: Form, a: nat, sign: string, k: nat, r: Form, b: nat, t: string, at: nat, atoms: Atoms)
    requires l < e && r < e && LaidPair(e, l, a, sign, k, r, b, t, at, atoms)
    ensures at + Width(l, a) + k + Width(r, b) <= |t|
  {
    LaidFits(r, b, t, at + Width(l, a) + k, atoms);
  }

  lemma {:induction false} AndIsLaid(e: Form, level: nat, t: string, at: nat, atoms: Atoms)
    requires e.Both? && !Bracketed(e, level) && Spelled(e.l, atoms) && Spelled(e.r, atoms)
    requires HasAt(t, at, Show(e.l, 2) + AndText(e.symbol) + Show(e.r, 3))
    ensures Laid(e, level, t, at, atoms)
    decreases e, 0, 1
  {
    PairIsLaid(e, e.l, 2, AndText(e.symbol), |AndText(e.symbol)|, e.r, 3, t, at, atoms);
    PairFits(e, e.l, 2, AndText(e.symbol), |AndText(e.symbol)|, e.r, 3, t, at, atoms);
  }

  lemma {:induction false} XorIsLaid(e: Form, level: nat, t: string, at: nat, atoms: Atoms)
    requires e.Odd? && !Bracketed(e, level) && Spelled(e.l, atoms) && Spelled(e.r, atoms)
    requires HasAt(t, at, Show(e.l, 1) + " xor " + Show(e.r, 2))
    ensures Laid(e, level, t, at, atoms)
    decreases e, 0, 1
  {
    PairIsLaid(e, e.l, 1, " xor ", 5, e.r, 2, t, at, atoms);
    PairFits(e, e.l, 1, " xor ", 5, e.r, 2, t, at, atoms);
  }

  lemma {:induction false} OrIsLaid(e: Form, level: nat, t: string, at: nat, atoms: Atoms)
    requires e.Any? && !Bracketed(e, level) && Spelled(e.l, atoms) && Spelled(e.r, atoms)
    requires HasAt(t, at, Show(e.l, 0) + OrText(e.symbol) + Show(e.r, 1))
    ensures Laid(e, level, t, at, atoms)
    decreases e, 0, 1
  {
    PairIsLaid(e, e.l, 0, OrText(e.symbol), |OrText(e.symbol)|, e.r, 1, t, at, atoms);
    PairFits(e, e.l, 0, OrText(e.symbol), |OrText(e.symbol)|, e.r, 1, t, at, atoms);
  }

  lemma {:induction false} NotIsLaid(e: Form, t: string, at: nat, atoms: Atoms)
    requires e.Neg? && Spelled(e.f, atoms) && HasAt(t, at, NotText(e.symbol) + Show(e.f, 3))
    ensures HasAt(t, at, NotText(e.symbol)) && Laid(e.f, 3, t, at + |NotText(e.symbol)|, atoms)
    decreases e, 0, 0
  {
    HasAtSplit(t, at, NotText(e.symbol), Show(e.f, 3));
    ShowIsLaid(e.f, 3, t, at + |NotText(e.symbol)|, atoms);
  }

  lemma BracketPlaces(e: Form, t: string, at: nat)
    requires HasAt(t, at, "(" + Show(e, 0) + ")")
    ensures var close := at + 1 + Width(e, 0);
            close < |t| && t[at] == '(' && t[close] == ')' && HasAt(t, at + 1, Show(e, 0))
  {
    var inner := Show(e, 0);
    WidthIs(e, 0);
    HasAtThree(t, at, "(", inner, ")");
    HasAtChar(t, at, "(", 0);
    HasAtChar(t, at + 1 + |inner|, ")", 0);
  }

  lemma {:induction false} PairIsLaid(e: Form, l: Form, a: nat, sign: string, k: nat, r: Form, b: nat, t: string, at: nat, atoms: Atoms)
    requires l < e && r < e && |sign| == k
    requires Spelled(l, atoms) && Spelled(r, atoms) && HasAt(t, at, Show(l, a) + sign + Show(r, b))
    ensures LaidPair(e, l, a, sign, k, r, b, t, at, atoms)
    decreases e, 0, 0
  {
    HasAtThree(t, at, Show(l, a), sign, Show(r, b));
    WidthIs(l, a);
    ShowIsLaid(l, a, t, at, atoms);
    ShowIsLaid(r, b, t, at + Width(l, a) + k, atoms);
  }

  /** The first character printed is never a blank. */
  lemma {:induction false} LaidStarts(e: Form, level: nat, t: string, at: nat, atoms: Atoms)
    requires Laid(e, level, t, at, atoms)
    ensures at < |t| && !Blank(t[at])
    decreases e, level
  {
    if !Bracketed(e, level) {
      match e
      case Neg(symbol, x) => HasAtChar(t, at, NotText(symbol), 0);
      case Both(symbol, l, r) => LaidStarts(l, 2, t, at, atoms);
      case Odd(l, r) => LaidStarts(l, 1, t, at, atoms);
      case Any(symbol, l, r) => LaidStarts(l, 0, t, at, atoms);
      case Word(_, text) => HasAtChar(t, at, text, 0);
    }
  }

  // ---------------------------------------------------------------------------
  // Reading
  // ---------------------------------------------------------------------------

  lemma {:induction false} PrimaryReads(e: Form, t: string, at: nat, end: nat, depth: nat, atoms: Atoms)
    requires Laid(e, 3, t, at, atoms) && depth + Nest(e, 3) <= MAX_DEPTH && end == at + Width(e, 3) && Ends(t, end)
    ensures Primary(t, at, depth, atoms) == Ok(Meaning(e), end)
    decreases e, Turn(e, 1)
  {
    if Bracketed(e, 3) {
      BracketReads(e, t, at, end, depth, atoms);
    } else if e.Neg? {
      NegReads(e, t, at, at + |NotText(e.symbol)|, end, depth, depth + 1, atoms);
    } else {
      HasAtChar(t, at, e.text, 0);
      AtomStep(t, at, depth, atoms);
    }
  }

  lemma {:induction false} NegReads(e: Form, t: string, at: nat, start: nat, end: nat, depth: nat, deeper: nat, atoms: Atoms)
    requires e.Neg? && HasAt(t, at, NotText(e.symbol)) && start == at + |NotText(e.symbol)| && Laid(e.f, 3, t, start, atoms)
    requires deeper == depth + 1 && deeper + Nest(e.f, 3) <= MAX_DEPTH && end == start + Width(e.f, 3) && Ends(t, end)
    ensures Primary(t, at, depth, atoms) == Ok(Meaning(e), end)
    decreases e, Turn(e, 1), 0
  {
    LaidStarts(e.f, 3, t, start, atoms);
    PrimaryReads(e.f, t, start, end, deeper, atoms);
    NotStep(t, at, start, depth, deeper, atoms, e.symbol, end, Meaning(e.f));
  }

  lemma {:induction false} BracketReads(e: Form, t: string, at: nat, end: nat, depth: nat, atoms: Atoms)
    requires Bracketed(e, 3) && Laid(e, 3, t, at, atoms) && depth + Nest(e, 3) <= MAX_DEPTH && end == at + Width(e, 3)
    ensures Primary(t, at, depth, atoms) == Ok(Meaning(e), end)
    decreases e, Turn(e, 1), 0
  {
    InnerReads(e, t, at, at + 1, at + 1 + Width(Inner(e), 0), end, depth, depth + 1, atoms);
  }

  lemma {:induction false} InnerReads(e: Form, t: string, at: nat, start: nat, close: nat, end: nat, depth: nat, deeper: nat, atoms: Atoms)
    requires Bracketed(e, 3) && Laid(Inner(e), 0, t, start, atoms) && deeper + Nest(Inner(e), 0) <= MAX_DEPTH && deeper == depth + 1
    requires start == at + 1 && close == start + Width(Inner(e), 0) < |t| && end == close + 1 && t[at] == '(' && t[close] == ')'
    ensures Primary(t, at, depth, atoms) == Ok(Meaning(e), end)
    decreases e, Turn(e, 1), 0, 0
  {
    NoSigns(t, close);
    OrReads(Inner(e), t, start, close, deeper, atoms);
    ParenStep(t, at, start, depth, deeper, atoms, close, end, Meaning(Inner(e)));
  }

  /** Where no brackets come in or go, the next tighter level prints the same. */
  lemma SameLevel(e: Form, level: nat, t: string, at: nat, atoms: Atoms)
    requires Laid(e, level, t, at, atoms) && Bracketed(e, level) == Bracketed(e, level + 1)
    ensures Laid(e, level + 1, t, at, atoms) && Width(e, level + 1) == Width(e, level) && Nest(e, level + 1) == Nest(e, level)
  {
  }

  lemma AndPlaces(e: Form, t: string, at: nat, m: nat, start: nat, end: nat, atoms: Atoms)
    requires e.Both? && Laid(e, 2, t, at, atoms)
    requires m == at + Width(e.l, 2) && start == m + |AndText(e.symbol)| && end == at + Width(e, 2)
    ensures Laid(e.l, 2, t, at, atoms) && Laid(e.r, 3, t, start, atoms)
    ensures HasAt(t, m, AndText(e.symbol)) && Ends(t, m) && start < |t| && !Blank(t[start]) && end == start + Width(e.r, 3) <= |t|
    ensures Nest(e.l, 2) <= Nest(e, 2) && Nest(e.r, 3) <= Nest(e, 2)
  {
    HasAtChar(t, m, AndText(e.symbol), 0);
    LaidStarts(e.r, 3, t, start, atoms);
  }

  lemma XorPlaces(e: Form, t: string, at: nat, m: nat, start: nat, end: nat, atoms: Atoms)
    requires e.Odd? && Laid(e, 1, t, at, atoms)
    requires m == at + Width(e.l, 1) && start == m + 5 && end == at + Width(e, 1)
    ensures Laid(e.l, 1, t, at, atoms) && Laid(e.r, 2, t, start, atoms)
    ensures HasAt(t, m, " xor ") && Ends(t, m) && start < |t| && !Blank(t[start]) && end == start + Width(e.r, 2) <= |t|
    ensures Nest(e.l, 1) <= Nest(e, 1) && Nest(e.r, 2) <= Nest(e, 1)
  {
    HasAtChar(t, m, " xor ", 0);
    LaidStarts(e.r, 2, t, start, atoms);
  }

  lemma OrPlaces(e: Form, t: string, at: nat, m: nat, start: nat, end: nat, atoms: Atoms)
    requires e.Any? && Laid(e, 0, t, at, atoms)
    requires m == at + Width(e.l, 0) && start == m + |OrText(e.symbol)| && end == at + Width(e, 0)
    ensures Laid(e.l, 0, t, at, atoms) && Laid(e.r, 1, t, start, atoms)
    ensures HasAt(t, m, OrText(e.symbol)) && Ends(t, m) && start < |t| && !Blank(t[start]) && end == start + Width(e.r, 1) <= |t|
    ensures Nest(e.l, 0) <= Nest(e, 0) && Nest(e.r, 1) <= Nest(e, 0)
  {
    HasAtChar(t, m, OrText(e.symbol), 0);
    LaidStarts(e.r, 1, t, start, atoms);
  }

  lemma AndSingle(t: string, at: nat, end: nat, depth: nat, atoms: Atoms, e: Expr)
    requires at <= |t| && Primary(t, at, depth, atoms) == Ok(e, end)
    ensures ParseAnd(t, at, depth, atoms) == AndRest(t, end, depth, atoms, e)
  {
  }

  lemma {:induction false} AndReads(e: Form, t: string, at: nat, end: nat, depth: nat, atoms: Atoms)
    requires Laid(e, 2, t, at, atoms) && depth + Nest(e, 2) <= MAX_DEPTH
    requires end == at + Width(e, 2) && Ends(t, end)
    ensures ParseAnd(t, at, depth, atoms) == AndRest(t, end, depth, atoms, Meaning(e))
    decreases e, Turn(e, 2)
  {
    if e.Both? {
      AndTreeReads(e, t, at, end, depth, atoms);
    } else {
      SameLevel(e, 2, t, at, atoms);
      PrimaryReads(e, t, at, end, depth, atoms);
      AndSingle(t, at, end, depth, atoms, Meaning(e));
    }
  }

  lemma {:induction false} AndTreeReads(e: Form, t: string, at: nat, end: nat, depth: nat, atoms: Atoms)
    requires e.Both? && Laid(e, 2, t, at, atoms) && depth + Nest(e, 2) <= MAX_DEPTH
    requires end == at + Width(e, 2) && Ends(t, end)
    ensures ParseAnd(t, at, depth, atoms) == AndRest(t, end, depth, atoms, Meaning(e))
    decreases e, Turn(e, 2), 1
  {
    var m := at + Width(e.l, 2);
    var start := m + |AndText(e.symbol)|;
    AndPlaces(e, t, at, m, start, end, atoms);
    AndPairReads(e, t, at, m, start, end, depth, atoms);
  }

  lemma {:induction false} AndPairReads(e: Form, t: string, at: nat, m: nat, start: nat, end: nat, depth: nat, atoms: Atoms)
    requires e.Both? && Laid(e.l, 2, t, at, atoms) && Laid(e.r, 3, t, start, atoms)
    requires depth + Nest(e.l, 2) <= MAX_DEPTH && depth + Nest(e.r, 3) <= MAX_DEPTH
    requires m == at + Width(e.l, 2) && start == m + |AndText(e.symbol)| && end == start + Width(e.r, 3) && Ends(t, m) && Ends(t, end)
    requires HasAt(t, m, AndText(e.symbol)) && start < |t| && !Blank(t[start])
    ensures ParseAnd(t, at, depth, atoms) == AndRest(t, end, depth, atoms, Meaning(e))
    decreases e, Turn(e, 2), 0
  {
    AndReads(e.l, t, at, m, depth, atoms);
    PrimaryReads(e.r, t, start, end, depth, atoms);
    AndStep(t, m, start, end, depth, atoms, e.symbol, Meaning(e));
  }

  lemma {:induction false} XorReads(e: Form, t: string, at: nat, end: nat, depth: nat, atoms: Atoms)
    requires Laid(e, 1, t, at, atoms) && depth + Nest(e, 1) <= MAX_DEPTH
    requires end == at + Width(e, 1) && Ends(t, end) && !AndSign(t, end).0
    ensures ParseXor(t, at, depth, atoms) == XorRest(t, end, depth, atoms, Meaning(e))
    decreases e, Turn(e, 3)
  {
    if e.Odd? {
      XorTreeReads(e, t, at, end, depth, atoms);
    } else {
      SameLevel(e, 1, t, at, atoms);
      AndReads(e, t, at, end, depth, atoms);
      XorPasses(t, at, depth, atoms, end, Meaning(e));
    }
  }

  lemma {:induction false} XorTreeReads(e: Form, t: string, at: nat, end: nat, depth: nat, atoms: Atoms)
    requires e.Odd? && Laid(e, 1, t, at, atoms) && depth + Nest(e, 1) <= MAX_DEPTH
    requires end == at + Width(e, 1) && Ends(t, end) && !AndSign(t, end).0
    ensures ParseXor(t, at, depth, atoms) == XorRest(t, end, depth, atoms, Meaning(e))
    decreases e, Turn(e, 3), 1
  {
    var m := at + Width(e.l, 1);
    XorPlaces(e, t, at, m, m + 5, end, atoms);
    XorPairReads(e, t, at, m, m + 5, end, depth, atoms);
  }

  lemma {:induction false} XorPairReads(e: Form, t: string, at: nat, m: nat, start: nat, end: nat, depth: nat, atoms: Atoms)
    requires e.Odd? && Laid(e.l, 1, t, at, atoms) && Laid(e.r, 2, t, start, atoms)
    requires depth + Nest(e.l, 1) <= MAX_DEPTH && depth + Nest(e.r, 2) <= MAX_DEPTH
    requires m == at + Width(e.l, 1) && start == m + 5 && end == start + Width(e.r, 2) <= |t| && Ends(t, m) && Ends(t, end)
    requires HasAt(t, m, " xor ") && start < |t| && !Blank(t[start]) && !AndSign(t, end).0
    ensures ParseXor(t, at, depth, atoms) == XorRest(t, end, depth, atoms, Meaning(e))
    decreases e, Turn(e, 3), 0
  {
    AndReads(e.r, t, start, end, depth, atoms);
    XorStep(t, m, start, end, depth, atoms, Meaning(e));
    XorReads(e.l, t, at, m, depth, atoms);
  }

  lemma {:induction false} OrReads(e: Form, t: string, at: nat, end: nat, depth: nat, atoms: Atoms)
    requires Laid(e, 0, t, at, atoms) && depth + Nest(e, 0) <= MAX_DEPTH
    requires end == at + Width(e, 0) && Ends(t, end) && !AndSign(t, end).0 && !XorSign(t, end).0
    ensures ParseOr(t, at, depth, atoms) == OrRest(t, end, depth, atoms, Meaning(e))
    decreases e, Turn(e, 0)
  {
    if e.Any? {
      OrTreeReads(e, t, at, end, depth, atoms);
    } else {
      SameLevel(e, 0, t, at, atoms);
      OrOfOneReads(e, t, at, end, depth, atoms);
    }
  }

  lemma {:induction false} OrTreeReads(e: Form, t: string, at: nat, end: nat, depth: nat, atoms: Atoms)
    requires e.Any? && Laid(e, 0, t, at, atoms) && depth + Nest(e, 0) <= MAX_DEPTH
    requires end == at + Width(e, 0) && Ends(t, end) && !AndSign(t, end).0 && !XorSign(t, end).0
    ensures ParseOr(t, at, depth, atoms) == OrRest(t, end, depth, atoms, Meaning(e))
    decreases e, Turn(e, 0), 1
  {
    var m := at + Width(e.l, 0);
    var start := m + |OrText(e.symbol)|;
    OrPlaces(e, t, at, m, start, end, atoms);
    OrPairReads(e, t, at, m, start, end, depth, atoms);
  }

  lemma {:induction false} OrOfOneReads(e: Form, t: string, at: nat, end: nat, depth: nat, atoms: Atoms)
    requires !e.Any? && Laid(e, 1, t, at, atoms) && depth + Nest(e, 1) <= MAX_DEPTH
    requires end == at + Width(e, 1) <= |t| && Ends(t, end) && !AndSign(t, end).0 && !XorSign(t, end).0
    ensures ParseOr(t, at, depth, atoms) == OrRest(t, end, depth, atoms, Meaning(e))
    decreases e, Turn(e, 0), 0
  {
    XorReads(e, t, at, end, depth, atoms);
    OrPasses(t, at, depth, atoms, end, Meaning(e));
  }

  lemma {:induction false} OrPairReads(e: Form, t: string, at: nat, m: nat, start: nat, end: nat, depth: nat, atoms: Atoms)
    requires e.Any? && Laid(e.l, 0, t, at, atoms) && Laid(e.r, 1, t, start, atoms)
    requires depth + Nest(e.l, 0) <= MAX_DEPTH && depth + Nest(e.r, 1) <= MAX_DEPTH
    requires m == at + Width(e.l, 0) && start == m + |OrText(e.symbol)| && end == start + Width(e.r, 1) <= |t| && Ends(t, m) && Ends(t, end)
    requires HasAt(t, m, OrText(e.symbol)) && start < |t| && !Blank(t[start]) && !AndSign(t, end).0 && !XorSign(t, end).0
    ensures ParseOr(t, at, depth, atoms) == OrRest(t, end, depth, atoms, Meaning(e))
    decreases e, Turn(e, 0), 0
  {
    XorReads(e.r, t, start, end, depth, atoms);
    OrStep(t, m, start, end, depth, atoms, e.symbol, Meaning(e));
    OrReads(e.l, t, at, m, depth, atoms);
  }

  /** Every written expression whose atoms are spelled out, with its operators as words or symbols and
      with any parentheses added, which nests at most 24 deep and whose text fits, is read back as
      the tree it stands for. */
  lemma PrintThenParse(e: Form, context: Context, foreign: Foreign)
    requires Spelled(e, SourceAtoms(context, foreign))
    requires Nest(e, 0) <= MAX_DEPTH && |Show(e, 0)| <= Limit(context)
    ensures Parse(Show(e, 0), context, foreign) == Ok(Meaning(e), |Show(e, 0)|)
  {
    var t, atoms := Show(e, 0), SourceAtoms(context, foreign);
    assert HasAt(t, 0, t) by { assert t[0..0 + |t|] == t; }
    ShowIsLaid(e, 0, t, 0, atoms);
    WidthIs(e, 0);
    LaidStarts(e, 0, t, 0, atoms);
    NoSigns(t, |t|);
    OrReads(e, t, 0, |t|, 0, atoms);
  }
}
