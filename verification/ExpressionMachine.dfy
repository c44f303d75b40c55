/** The stack machine that evaluates a compiled expression (request_expression_program::matches). */
module ExpressionMachine {
  import opened Wrappers
  import opened RequestExpression

  /** One instruction on an unbounded stack; nothing when it would underflow. */
  function Execute(stack: seq<bool>, i: Instruction, leaf: Condition -> bool): (r: Option<seq<bool>>) {
    var n := |stack|;
    match i
    case Compare(c) => Some(stack + [leaf(c)])
    case Constant(v) => Some(stack + [v])
    case NotOp => if n < 1 then None else Some(stack[..n - 1] + [!stack[n - 1]])
    case AndOp => if n < 2 then None else Some(stack[..n - 2] + [stack[n - 2] && stack[n - 1]])
    case XorOp => if n < 2 then None else Some(stack[..n - 2] + [stack[n - 2] != stack[n - 1]])
    case OrOp => if n < 2 then None else Some(stack[..n - 2] + [stack[n - 2] || stack[n - 1]])
  }

  function Run(stack: seq<bool>, program: seq<Instruction>, leaf: Condition -> bool): (r: Option<seq<bool>>)
    decreases |program|
  {
    if program == [] then Some(stack)
    else
      var next := Execute(stack, program[0], leaf);
      if next.None? then None else Run(next.value, program[1..], leaf)
  }

  lemma RunPush(stack: seq<bool>, i: Instruction, rest: seq<Instruction>, leaf: Condition -> bool)
    requires i.Compare? || i.Constant?
    ensures Run(stack, [i] + rest, leaf) == Run(stack + [if i.Compare? then leaf(i.condition) else i.value], rest, leaf)
  {
    assert ([i] + rest)[1..] == rest;
  }

  lemma RunNot(stack: seq<bool>, a: bool, rest: seq<Instruction>, leaf: Condition -> bool)
    ensures Run(stack + [a], [NotOp] + rest, leaf) == Run(stack + [!a], rest, leaf)
  {
    assert ([NotOp] + rest)[1..] == rest && (stack + [a])[..|stack|] == stack;
  }

  function Combine(op: Instruction, a: bool, b: bool): bool { if op.AndOp? then a && b else if op.XorOp? then a != b else a || b }

  lemma RunBinary(stack: seq<bool>, a: bool, b: bool, op: Instruction, rest: seq<Instruction>, leaf: Condition -> bool)
    requires op.AndOp? || op.XorOp? || op.OrOp?
    ensures Run(stack + [a] + [b], [op] + rest, leaf) == Run(stack + [Combine(op, a, b)], rest, leaf)
  {
    assert ([op] + rest)[1..] == rest && (stack + [a] + [b])[..|stack|] == stack;
  }

  lemma Regroup(p: seq<Instruction>, q: seq<Instruction>, op: Instruction, rest: seq<Instruction>)
    ensures p + q + [op] + rest == p + (q + ([op] + rest)) && p + [op] + rest == p + ([op] + rest)
  {
  }

  /** Postfix code pushes the value of its tree and touches nothing below. */
  lemma {:induction false} PostOrderPushesValue(e: Expr, stack: seq<bool>, rest: seq<Instruction>, leaf: Condition -> bool)
    ensures Run(stack, PostOrder(e) + rest, leaf) == Run(stack + [Eval(e, leaf)], rest, leaf)
    decreases |PostOrder(e)|
  {
    match e {
      case Leaf(c) => RunPush(stack, Compare(c), rest, leaf);
      case Const(v) => RunPush(stack, Constant(v), rest, leaf);
      case Not(x) =>
        Regroup(PostOrder(x), [], NotOp, rest);
        PostOrderPushesValue(x, stack, [NotOp] + rest, leaf);
        RunNot(stack, Eval(x, leaf), rest, leaf);
      case And(l, r) => BinaryCode(l, r, AndOp, stack, rest, leaf);
      case Xor(l, r) => BinaryCode(l, r, XorOp, stack, rest, leaf);
      case Or(l, r) => BinaryCode(l, r, OrOp, stack, rest, leaf);
    }
  }

  lemma {:induction false} BinaryCode(l: Expr, r: Expr, op: Instruction, stack: seq<bool>, rest: seq<Instruction>, leaf: Condition -> bool)
    requires op.AndOp? || op.XorOp? || op.OrOp?
    ensures Run(stack, PostOrder(l) + PostOrder(r) + [op] + rest, leaf)
            == Run(stack + [Combine(op, Eval(l, leaf), Eval(r, leaf))], rest, leaf)
    decreases |PostOrder(l)| + |PostOrder(r)| + 1, 0
  {
    Regroup(PostOrder(l), PostOrder(r), op, rest);
    PostOrderPushesValue(l, stack, PostOrder(r) + ([op] + rest), leaf);
    PostOrderPushesValue(r, stack + [Eval(l, leaf)], [op] + rest, leaf);
    RunBinary(stack, Eval(l, leaf), Eval(r, leaf), op, rest, leaf);
  }

  /** One turn of the loop on the array: the slots below `size` change as the stack does. */
  method ExecuteInPlace(stack: array<bool>, size: nat, i: Instruction, leaf: Condition -> bool) returns (next: nat)
    requires size < stack.Length && Execute(stack[..size], i, leaf).Some?
    modifies stack
    ensures next <= stack.Length && next <= size + 1
    ensures stack[..next] == Execute(old(stack[..size]), i, leaf).value
  {
    next := size;
    match i {
      case Compare(c) =>
        stack[next] := leaf(c);
        next := next + 1;
      case Constant(v) =>
        stack[next] := v;
        next := next + 1;
      case NotOp =>
        stack[next - 1] := !stack[next - 1];
      case AndOp =>
        next := next - 1;
        stack[next - 1] := stack[next - 1] && stack[next];
      case XorOp =>
        next := next - 1;
        stack[next - 1] := stack[next - 1] != stack[next];
      case OrOp =>
        next := next - 1;
        stack[next - 1] := stack[next - 1] || stack[next];
    }
  }

  /** The fixed 256-slot machine: for the code of any tree of at most 256 instructions it never
      leaves its array, ends with exactly one slot, and returns the value of the tree. */
  method Matches(program: seq<Instruction>, leaf: Condition -> bool, ghost e: Expr) returns (matched: bool)
    requires program == PostOrder(e) && |program| <= MAX_PROGRAM
    ensures matched == Eval(e, leaf)
  {
    var stack := new bool[MAX_PROGRAM](_ => false);
    var size := 0;
    var i := 0;
    PostOrderPushesValue(e, [], [], leaf);
    assert program + [] == program && [] + [Eval(e, leaf)] == [Eval(e, leaf)];
    assert stack[..size] == [] && program[i..] == program;
    while i < |program|
      invariant 0 <= i <= |program| && 0 <= size <= i
      invariant Run(stack[..size], program[i..], leaf) == Some([Eval(e, leaf)])
    {
      assert program[i..][0] == program[i] && program[i..][1..] == program[i + 1..];
      size := ExecuteInPlace(stack, size, program[i], leaf);
      i := i + 1;
    }
    assert stack[..size] == [Eval(e, leaf)];
    matched := size == 1 && stack[0];
  }
}
