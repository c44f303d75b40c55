/** The parser as the source writes it (common/request_expression.h, request_expression_parser). */
module ExpressionParser {
  // Recursive descent over a moving position that appends postfix instructions directly, at most
  // 256 of them. Every method is proved against the tree-building grammar of module RequestExpression.

  import opened RequestExpression

  lemma {:induction false} AndRestGrows(t: string, at: nat, depth: nat, atoms: Atoms, left: Expr)
    requires at <= |t|
    ensures var r := AndRest(t, at, depth, atoms, left); r.Ok? ==> |PostOrder(left)| <= |PostOrder(r.value)|
    decreases |t| - at
  {
    var (hit, a) := AndSign(t, at);
    if hit {
      var right := Primary(t, a, depth, atoms);
      if right.Ok? { AndRestGrows(t, right.at, depth, atoms, And(left, right.value)); }
    }
  }

  lemma {:induction false} XorRestGrows(t: string, at: nat, depth: nat, atoms: Atoms, left: Expr)
    requires at <= |t|
    ensures var r := XorRest(t, at, depth, atoms, left); r.Ok? ==> |PostOrder(left)| <= |PostOrder(r.value)|
    decreases |t| - at
  {
    var (hit, a) := XorSign(t, at);
    if hit {
      var right := ParseAnd(t, a, depth, atoms);
      if right.Ok? { XorRestGrows(t, right.at, depth, atoms, Xor(left, right.value)); }
    }
  }

  lemma {:induction false} OrRestGrows(t: string, at: nat, depth: nat, atoms: Atoms, left: Expr)
    requires at <= |t|
    ensures var r := OrRest(t, at, depth, atoms, left); r.Ok? ==> |PostOrder(left)| <= |PostOrder(r.value)|
    decreases |t| - at
  {
    var (hit, a) := OrSign(t, at);
    if hit {
      var right := ParseXor(t, a, depth, atoms);
      if right.Ok? { OrRestGrows(t, right.at, depth, atoms, Or(left, right.value)); }
    }
  }

  /** Success means exactly that the grammar accepts and the code fits; then the code of the tree
      has been appended and the position is where the tree's text ends. */
  ghost predicate Emitted(ok: bool, before: seq<Instruction>, after: seq<Instruction>, position: nat, r: Parsed<Expr>) {
    && (ok <==> r.Ok? && |before| + |PostOrder(r.value)| <= MAX_PROGRAM)
    && (ok ==> position == r.at && after == before + PostOrder(r.value))
  }

  class Parser {
    const text: string
    const context: Context
    const atoms: Atoms
    var position: nat
    var program: seq<Instruction>

    ghost predicate Valid()
      reads this
    {
      position <= |text| && |program| <= MAX_PROGRAM
    }

    constructor (t: string, c: Context, f: Foreign)
      ensures Valid() && text == t && context == c && atoms == SourceAtoms(c, f) && position == 0 && program == []
    {
      text, context, atoms, position, program := t, c, SourceAtoms(c, f), 0, [];
    }

    method Whitespace()
      requires Valid()
      modifies this`position
      ensures Valid() && position == Skip(text, old(position))
    {
      while position < |text| && Blank(text[position])
        invariant Valid() && Skip(text, position) == Skip(text, old(position))
        decreases |text| - position
      {
        position := position + 1;
      }
    }

    method TakeSymbol(c: char) returns (hit: bool)
      requires Valid()
      modifies this`position
      ensures Valid() && (hit, position) == Symbol(text, old(position), c)
    {
      Whitespace();
      if position == |text| || text[position] != c {
        return false;
      }
      position := position + 1;
      return true;
    }

    method TakeKeyword(w: string) returns (hit: bool)
      requires Valid()
      modifies this`position
      ensures Valid() && (hit, position) == Keyword(text, old(position), w)
    {
      Whitespace();
      if !HasAt(text, position, w) {
        return false;
      }
      var next := position + |w|;
      if next < |text| && WordChar(text[next]) {
        return false;
      }
      position := next;
      return true;
    }

    method Emit(i: Instruction) returns (ok: bool)
      requires Valid()
      modifies this`program
      ensures Valid() && (ok <==> |old(program)| < MAX_PROGRAM)
      ensures program == if ok then old(program) + [i] else old(program)
    {
      if |program| >= MAX_PROGRAM {
        return false;
      }
      program := program + [i];
      return true;
    }

    method EmitAtom() returns (ok: bool)
      requires Valid()
      modifies this
      ensures Valid()
      ensures Emitted(ok, old(program), program, position, ReadAtom(text, old(position), atoms))
    {
      var atom := ReadAtom(text, position, atoms);
      if atom.Fail? {
        return false;
      }
      position := atom.at;
      ok := Emit(if atom.value.Leaf? then Compare(atom.value.condition) else Constant(atom.value.value));
    }

    method TakeNot() returns (hit: bool)
      requires Valid()
      modifies this`position
      ensures Valid() && (hit, position) == NotSign(text, old(position))
    {
      hit := TakeKeyword("not");
      if !hit {
        hit := TakeSymbol('!');
      }
    }

    method PrimaryTerm(depth: nat) returns (ok: bool)
      requires Valid()
      modifies this
      ensures Valid()
      ensures Emitted(ok, old(program), program, position, Primary(text, old(position), depth, atoms))
      decreases |text| - position, 0
    {
      if depth > MAX_DEPTH {
        return false;
      }
      ghost var start := position;
      var paren := TakeSymbol('(');
      if paren {
        ok := LogicalOr(depth + 1);
        if ok {
          ok := TakeSymbol(')');
        }
        return;
      }
      var negated := TakeNot();
      if negated {
        ok := PrimaryTerm(depth + 1);
        if ok {
          ok := Emit(NotOp);
        }
        return;
      }
      ok := EmitAtom();
    }

    method TakeAnd() returns (hit: bool)
      requires Valid()
      modifies this`position
      ensures Valid() && (hit, position) == AndSign(text, old(position))
    {
      hit := TakeKeyword("and");
      if !hit && HasAt(text, position, "&&") {
        position := position + 2;
        hit := true;
      }
    }

    method TakeOr() returns (hit: bool)
      requires Valid()
      modifies this`position
      ensures Valid() && (hit, position) == OrSign(text, old(position))
    {
      hit := TakeKeyword("or");
      if !hit && HasAt(text, position, "||") {
        position := position + 2;
        hit := true;
      }
    }

    /** One operator and its right operand, if the operator is there. */
    method AndTail(depth: nat, ghost base: seq<Instruction>, ghost left: Expr) returns (hit: bool, ok: bool, ghost next: Expr)
      requires Valid() && program == base + PostOrder(left)
      modifies this
      ensures Valid() && (ok ==> old(position) <= position) && (hit && ok ==> old(position) < position)
      ensures var r := AndRest(text, old(position), depth, atoms, left);
              && (!hit ==> ok && next == left && r == Ok(left, position) && program == old(program))
              && (hit && !ok ==> r.Fail? || |base| + |PostOrder(r.value)| > MAX_PROGRAM)
              && (hit && ok ==> r == AndRest(text, position, depth, atoms, next) && program == base + PostOrder(next))
      decreases |text| - position, 1
    {
      hit := TakeAnd();
      ok, next := true, left;
      if !hit {
        return;
      }
      ghost var right := Primary(text, position, depth, atoms);
      if right.Ok? {
        AndRestGrows(text, right.at, depth, atoms, And(left, right.value));
      }
      ok, next := AndOperand(depth, base, left);
    }

    method AndOperand(depth: nat, ghost base: seq<Instruction>, ghost left: Expr) returns (ok: bool, ghost next: Expr)
      requires Valid() && program == base + PostOrder(left)
      modifies this
      ensures Valid()
      ensures var right := Primary(text, old(position), depth, atoms);
              && (ok ==> right.Ok? && next == And(left, right.value) && position == right.at && program == base + PostOrder(next))
              && (!ok ==> right.Fail? || |base| + |PostOrder(And(left, right.value))| > MAX_PROGRAM)
      decreases |text| - position, 1, 0
    {
      ghost var right := Primary(text, position, depth, atoms);
      next := if right.Ok? then And(left, right.value) else left;
      ok := PrimaryTerm(depth);
      if ok {
        ok := Emit(AndOp);
      }
    }

    method LogicalAnd(depth: nat) returns (ok: bool)
      requires Valid()
      modifies this
      ensures Valid()
      ensures Emitted(ok, old(program), program, position, ParseAnd(text, old(position), depth, atoms))
      decreases |text| - position, 2
    {
      ghost var first := Primary(text, position, depth, atoms);
      ok := PrimaryTerm(depth);
      if first.Ok? { AndRestGrows(text, first.at, depth, atoms, first.value); }
      if !ok {
        return;
      }
      ghost var left := first.value;
      var hit := true;
      while hit
        invariant Valid() && old(position) < position
        invariant program == old(program) + PostOrder(left)
        invariant hit ==> AndRest(text, position, depth, atoms, left) == ParseAnd(text, old(position), depth, atoms)
        invariant !hit ==> Ok(left, position) == ParseAnd(text, old(position), depth, atoms)
        decreases hit, |text| - position
      {
        hit, ok, left := AndTail(depth, old(program), left);
        if !ok {
          return;
        }
      }
    }

    /** One operator and its right operand, if the operator is there. */
    method XorTail(depth: nat, ghost base: seq<Instruction>, ghost left: Expr) returns (hit: bool, ok: bool, ghost next: Expr)
      requires Valid() && program == base + PostOrder(left)
      modifies this
      ensures Valid() && (ok ==> old(position) <= position) && (hit && ok ==> old(position) < position)
      ensures var r := XorRest(text, old(position), depth, atoms, left);
              && (!hit ==> ok && next == left && r == Ok(left, position) && program == old(program))
              && (hit && !ok ==> r.Fail? || |base| + |PostOrder(r.value)| > MAX_PROGRAM)
              && (hit && ok ==> r == XorRest(text, position, depth, atoms, next) && program == base + PostOrder(next))
      decreases |text| - position, 3
    {
      hit := TakeKeyword("xor");
      ok, next := true, left;
      if !hit {
        return;
      }
      ghost var right := ParseAnd(text, position, depth, atoms);
      if right.Ok? {
        XorRestGrows(text, right.at, depth, atoms, Xor(left, right.value));
      }
      ok, next := XorOperand(depth, base, left);
    }

    method XorOperand(depth: nat, ghost base: seq<Instruction>, ghost left: Expr) returns (ok: bool, ghost next: Expr)
      requires Valid() && program == base + PostOrder(left)
      modifies this
      ensures Valid()
      ensures var right := ParseAnd(text, old(position), depth, atoms);
              && (ok ==> right.Ok? && next == Xor(left, right.value) && position == right.at && program == base + PostOrder(next))
              && (!ok ==> right.Fail? || |base| + |PostOrder(Xor(left, right.value))| > MAX_PROGRAM)
      decreases |text| - position, 3, 0
    {
      ghost var right := ParseAnd(text, position, depth, atoms);
      next := if right.Ok? then Xor(left, right.value) else left;
      ok := LogicalAnd(depth);
      if ok {
        ok := Emit(XorOp);
      }
    }

    method LogicalXor(depth: nat) returns (ok: bool)
      requires Valid()
      modifies this
      ensures Valid()
      ensures Emitted(ok, old(program), program, position, ParseXor(text, old(position), depth, atoms))
      decreases |text| - position, 4
    {
      ghost var first := ParseAnd(text, position, depth, atoms);
      ok := LogicalAnd(depth);
      if first.Ok? { XorRestGrows(text, first.at, depth, atoms, first.value); }
      if !ok {
        return;
      }
      ghost var left := first.value;
      var hit := true;
      while hit
        invariant Valid() && old(position) < position
        invariant program == old(program) + PostOrder(left)
        invariant hit ==> XorRest(text, position, depth, atoms, left) == ParseXor(text, old(position), depth, atoms)
        invariant !hit ==> Ok(left, position) == ParseXor(text, old(position), depth, atoms)
        decreases hit, |text| - position
      {
        hit, ok, left := XorTail(depth, old(program), left);
        if !ok {
          return;
        }
      }
    }

    /** One operator and its right operand, if the operator is there. */
    method OrTail(depth: nat, ghost base: seq<Instruction>, ghost left: Expr) returns (hit: bool, ok: bool, ghost next: Expr)
      requires Valid() && program == base + PostOrder(left)
      modifies this
      ensures Valid() && (ok ==> old(position) <= position) && (hit && ok ==> old(position) < position)
      ensures var r := OrRest(text, old(position), depth, atoms, left);
              && (!hit ==> ok && next == left && r == Ok(left, position) && program == old(program))
              && (hit && !ok ==> r.Fail? || |base| + |PostOrder(r.value)| > MAX_PROGRAM)
              && (hit && ok ==> r == OrRest(text, position, depth, atoms, next) && program == base + PostOrder(next))
      decreases |text| - position, 5
    {
      hit := TakeOr();
      ok, next := true, left;
      if !hit {
        return;
      }
      ghost var right := ParseXor(text, position, depth, atoms);
      if right.Ok? {
        OrRestGrows(text, right.at, depth, atoms, Or(left, right.value));
      }
      ok, next := OrOperand(depth, base, left);
    }

    method OrOperand(depth: nat, ghost base: seq<Instruction>, ghost left: Expr) returns (ok: bool, ghost next: Expr)
      requires Valid() && program == base + PostOrder(left)
      modifies this
      ensures Valid()
      ensures var right := ParseXor(text, old(position), depth, atoms);
              && (ok ==> right.Ok? && next == Or(left, right.value) && position == right.at && program == base + PostOrder(next))
              && (!ok ==> right.Fail? || |base| + |PostOrder(Or(left, right.value))| > MAX_PROGRAM)
      decreases |text| - position, 5, 0
    {
      ghost var right := ParseXor(text, position, depth, atoms);
      next := if right.Ok? then Or(left, right.value) else left;
      ok := LogicalXor(depth);
      if ok {
        ok := Emit(OrOp);
      }
    }

    method LogicalOr(depth: nat) returns (ok: bool)
      requires Valid()
      modifies this
      ensures Valid()
      ensures Emitted(ok, old(program), program, position, ParseOr(text, old(position), depth, atoms))
      decreases |text| - position, 6
    {
      ghost var first := ParseXor(text, position, depth, atoms);
      ok := LogicalXor(depth);
      if first.Ok? { OrRestGrows(text, first.at, depth, atoms, first.value); }
      if !ok {
        return;
      }
      ghost var left := first.value;
      var hit := true;
      while hit
        invariant Valid() && old(position) < position
        invariant program == old(program) + PostOrder(left)
        invariant hit ==> OrRest(text, position, depth, atoms, left) == ParseOr(text, old(position), depth, atoms)
        invariant !hit ==> Ok(left, position) == ParseOr(text, old(position), depth, atoms)
        decreases hit, |text| - position
      {
        hit, ok, left := OrTail(depth, old(program), left);
        if !ok {
          return;
        }
      }
    }

    /** parse: accepted texts are exactly those of the grammar whose code fits, and the code is
        the post-order of the tree. */
    method ParseText(foreign: Foreign) returns (ok: bool)
      requires Valid() && position == 0 && program == [] && atoms == SourceAtoms(context, foreign)
      modifies this
      ensures var r := Parse(text, context, foreign);
              && (ok <==> r.Ok? && |PostOrder(r.value)| <= MAX_PROGRAM)
              && (ok ==> program == PostOrder(r.value))
    {
      if text == [] || |text| > Limit(context) {
        return false;
      }
      ok := LogicalOr(0);
      if !ok {
        return;
      }
      Whitespace();
      ok := position == |text|;
    }
  }
}
