/** Compiling an expression and running its program on a request: the parser and the stack machine
    together compute the value of the tree that the text means. */
module ExpressionRun {
  import opened Wrappers
  import opened RequestExpression
  import opened ExpressionMachine
  import opened ExpressionParser

  method MatchText(text: string, context: Context, foreign: Foreign, leaf: Condition -> bool) returns (matched: Option<bool>)
    ensures var tree := Parse(text, context, foreign);
            matched == if tree.Ok? && |PostOrder(tree.value)| <= MAX_PROGRAM then Some(Eval(tree.value, leaf)) else None
  {
    var parser := new Parser(text, context, foreign);
    var ok := parser.ParseText(foreign);
    if !ok {
      return None;
    }
    var value := Matches(parser.program, leaf, Parse(text, context, foreign).value);
    matched := Some(value);
  }
}
