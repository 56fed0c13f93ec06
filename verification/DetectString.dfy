/** Detect strings: conversion of infix tokens to postfix, and the evaluation of those.

    `calculate`, which looks into files, is any function of two operands and an operator. */
module DetectString {

  datatype Operator = Equal | NotEqual | Less | More | And | Or | Not

  /** `Nil` is a character position that carries no token of its own. */
  datatype Token = Nil | Op(op: Operator) | LeftBracket | RightBracket | Operand(text: string)

  type Calculate = (string, string, Operator) -> string

  function Priority(op: Operator): nat {
    match op
    case Or => 0
    case And => 1
    case _ => 2
  }

  /** A bracket has no operator, so it ranks below all of them. */
  function StackPriority(t: Token): int {
    if t.Op? then Priority(t.op) else -1
  }

  // -------------------------------------------------------------- conversion

  datatype State = State(stack: seq<Token>, output: seq<Token>)

  function Top(stack: seq<Token>): Token
    requires stack != []
  {
    stack[|stack| - 1]
  }

  function Pop(s: State): State
    requires s.stack != []
  {
    State(s.stack[..|s.stack| - 1], s.output + [Top(s.stack)])
  }

  function PopWhile(s: State, priority: int): (r: State)
    ensures |r.stack| <= |s.stack|
    decreases |s.stack|
  {
    if s.stack != [] && StackPriority(Top(s.stack)) >= priority then PopWhile(Pop(s), priority) else s
  }

  function PopToBracket(s: State): (r: State)
    ensures |r.stack| <= |s.stack|
    decreases |s.stack|
  {
    if s.stack != [] && !Top(s.stack).LeftBracket? then PopToBracket(Pop(s)) else s
  }

  function Take(s: State, t: Token): State {
    match t
    case Nil => s
    case Operand(_) => s.(output := s.output + [t])
    case LeftBracket => s.(stack := s.stack + [t])
    case Op(op) =>
      if s.stack == [] then s
      else
        var r := PopWhile(s, Priority(op));
        r.(stack := r.stack + [t])
    case RightBracket =>
      var r := PopToBracket(s);
      if r.stack == [] then r else r.(stack := r.stack[..|r.stack| - 1])
  }

  function TakeAll(s: State, tokens: seq<Token>): State
    decreases |tokens|
  {
    if tokens == [] then s else TakeAll(Take(s, tokens[0]), tokens[1..])
  }

  /** The whole text stands in brackets. */
  function Wrapped(tokens: seq<Token>): seq<Token> {
    [LeftBracket] + tokens + [RightBracket]
  }

  function Converted(tokens: seq<Token>): seq<Token> {
    TakeAll(State([], []), Wrapped(tokens)).output
  }

  // -------------------------------------------------------------- evaluation

  function Apply(apply: Calculate, values: seq<string>, t: Token): seq<string> {
    var n := |values|;
    match t
    case Operand(text) => values + [text]
    case Op(op) => if n > 1 then values[..n - 2] + [apply(values[n - 2], values[n - 1], op)] else values
    case _ => values
  }

  function Evaluate(apply: Calculate, values: seq<string>, output: seq<Token>): seq<string>
    decreases |output|
  {
    if output == [] then values else Evaluate(apply, Apply(apply, values, output[0]), output[1..])
  }

  // -------------------------------------------------------------- the meaning

  /** An expression as it is written. */
  datatype Expr = Leaf(text: string) | Bracketed(inner: Expr) | Binary(op: Operator, left: Expr, right: Expr)

  function Tokens(e: Expr): seq<Token> {
    match e
    case Leaf(text) => [Operand(text)]
    case Bracketed(inner) => [LeftBracket] + Tokens(inner) + [RightBracket]
    case Binary(op, left, right) => Tokens(left) + [Op(op)] + Tokens(right)
  }

  function Level(e: Expr): nat {
    if e.Binary? then Priority(e.op) else 3
  }

  /** Operators bind by priority, and to the left among equal ones. */
  predicate Shaped(e: Expr) {
    match e
    case Leaf(_) => true
    case Bracketed(inner) => Shaped(inner)
    case Binary(op, left, right) => Shaped(left) && Shaped(right) && Level(left) >= Priority(op) && Level(right) > Priority(op)
  }

  function Meaning(apply: Calculate, e: Expr): string {
    match e
    case Leaf(text) => text
    case Bracketed(inner) => Meaning(apply, inner)
    case Binary(op, left, right) => apply(Meaning(apply, left), Meaning(apply, right), op)
  }

  function Postfix(e: Expr): seq<Token> {
    match e
    case Leaf(text) => [Operand(text)]
    case Bracketed(inner) => Postfix(inner)
    case Binary(op, left, right) => Postfix(left) + Postfix(right) + [Op(op)]
  }

  // --------------------------------------------- every text has one reading

  /** One more operator and operand at the end of a text. */
  function Extend(e: Expr, op: Operator, last: Expr): Expr {
    if Level(e) >= Priority(op) then Binary(op, e, last)
    else if e.Binary? then Binary(e.op, e.left, Extend(e.right, op, last))
    else e
  }

  function ExtendAll(e: Expr, op: Operator, more: Expr): Expr
    decreases more
  {
    if more.Binary? then ExtendAll(ExtendAll(e, op, more.left), more.op, more.right) else Extend(e, op, more)
  }

  /** The reading of an expression's text. */
  function Reading(e: Expr): Expr {
    match e
    case Leaf(_) => e
    case Bracketed(inner) => Bracketed(Reading(inner))
    case Binary(op, left, right) => ExtendAll(Reading(left), op, Reading(right))
  }

  lemma Regroup(a: seq<Token>, x: seq<Token>, b: seq<Token>, y: seq<Token>, c: seq<Token>)
    ensures a + x + (b + y + c) == (a + x + b) + y + c
  {
  }

  lemma {:induction false} ExtendShaped(e: Expr, op: Operator, last: Expr)
    requires Shaped(e) && Shaped(last) && !last.Binary?
    ensures var r := Extend(e, op, last);
      && Shaped(r) && Tokens(r) == Tokens(e) + [Op(op)] + Tokens(last)
      && (Level(r) >= Level(e) || Level(r) >= Priority(op))
  {
    if Level(e) < Priority(op) {
      ExtendShaped(e.right, op, last);
      Regroup(Tokens(e.left), [Op(e.op)], Tokens(e.right), [Op(op)], Tokens(last));
    }
  }

  lemma {:induction false} ExtendAllShaped(e: Expr, op: Operator, more: Expr)
    requires Shaped(e) && Shaped(more)
    ensures var r := ExtendAll(e, op, more);
      Shaped(r) && Tokens(r) == Tokens(e) + [Op(op)] + Tokens(more)
    decreases more
  {
    if more.Binary? {
      var r := ExtendAll(e, op, more.left);
      ExtendAllShaped(e, op, more.left);
      ExtendAllShaped(r, more.op, more.right);
      Regroup(Tokens(e), [Op(op)], Tokens(more.left), [Op(more.op)], Tokens(more.right));
    } else {
      ExtendShaped(e, op, more);
    }
  }

  /** However an expression was put together, its text has a reading by priority. */
  lemma {:induction false} ReadingShaped(e: Expr)
    ensures Shaped(Reading(e)) && Tokens(Reading(e)) == Tokens(e)
  {
    match e
    case Leaf(_) =>
    case Bracketed(inner) => ReadingShaped(inner);
    case Binary(op, left, right) =>
      ReadingShaped(left);
      ReadingShaped(right);
      ExtendAllShaped(Reading(left), op, Reading(right));
  }

  // ------------------------------------------------------------- correctness

  lemma {:induction false} TakeAllConcat(s: State, a: seq<Token>, b: seq<Token>)
    ensures TakeAll(s, a + b) == TakeAll(TakeAll(s, a), b)
    decreases |a|
  {
    if a == [] {
      assert a + b == b;
    } else {
      assert (a + b)[1..] == a[1..] + b;
      TakeAllConcat(Take(s, a[0]), a[1..], b);
    }
  }

  function Reversed(ts: seq<Token>): seq<Token> {
    if ts == [] then [] else [ts[|ts| - 1]] + Reversed(ts[..|ts| - 1])
  }

  /** The operators waiting above a stack. */
  predicate Waiting(pending: seq<Token>, level: int) {
    forall i :: 0 <= i < |pending| ==> pending[i].Op? && Priority(pending[i].op) >= level
  }

  lemma {:induction false} ReversedFirst(t: Token, ts: seq<Token>)
    ensures Reversed([t] + ts) == Reversed(ts) + [t]
    decreases |ts|
  {
    var all, n := [t] + ts, |ts| - 1;
    if ts == [] {
      assert all[..0] == [];
    } else {
      assert all[..|all| - 1] == [t] + ts[..n];
      ReversedFirst(t, ts[..n]);
    }
  }

  /** Popping takes exactly the waiting operators, last one first. */
  lemma {:induction false} PopsPending(stack: seq<Token>, pending: seq<Token>, output: seq<Token>, priority: int)
    requires Waiting(pending, priority) && stack != [] && StackPriority(Top(stack)) < priority
    ensures PopWhile(State(stack + pending, output), priority) == State(stack, output + Reversed(pending))
    decreases |pending|
  {
    if pending == [] {
      assert stack + pending == stack && output + Reversed(pending) == output;
    } else {
      var n := |pending| - 1;
      assert (stack + pending)[..|stack + pending| - 1] == stack + pending[..n] && Top(stack + pending) == pending[n];
      PopsPending(stack, pending[..n], output + [pending[n]], priority);
      assert output + [pending[n]] + Reversed(pending[..n]) == output + Reversed(pending);
    }
  }

  lemma {:induction false} PopsToBracket(stack: seq<Token>, pending: seq<Token>, output: seq<Token>)
    requires Waiting(pending, 0) && stack != [] && Top(stack).LeftBracket?
    ensures PopToBracket(State(stack + pending, output)) == State(stack, output + Reversed(pending))
    decreases |pending|
  {
    if pending == [] {
      assert stack + pending == stack && output + Reversed(pending) == output;
    } else {
      var n := |pending| - 1;
      assert (stack + pending)[..|stack + pending| - 1] == stack + pending[..n] && Top(stack + pending) == pending[n];
      PopsToBracket(stack, pending[..n], output + [pending[n]]);
      assert output + [pending[n]] + Reversed(pending[..n]) == output + Reversed(pending);
    }
  }

  /** What converting an expression leaves: its postfix form, of which the operators that
      still wait are the end. */
  ghost predicate Leaves(s: State, e: Expr, after: State, pending: seq<Token>) {
    after.stack == s.stack + pending && after.output + Reversed(pending) == s.output + Postfix(e) && Waiting(pending, Level(e))
  }

  lemma {:induction false} Converts(s: State, e: Expr) returns (pending: seq<Token>)
    requires Shaped(e) && s.stack != [] && StackPriority(Top(s.stack)) < Level(e)
    ensures Leaves(s, e, TakeAll(s, Tokens(e)), pending)
    decreases e, 0
  {
    match e
    case Leaf(_) =>
      pending := [];
      assert Tokens(e)[1..] == [];
    case Bracketed(inner) =>
      BracketConverts(s, inner);
      pending := [];
    case Binary(op, left, right) =>
      var waiting := Converts(s, left);
      var s1 := TakeAll(s, Tokens(left));
      PopsPending(s.stack, waiting, s1.output, Priority(op));
      var s2 := Take(s1, Op(op));
      assert s2 == State(s.stack + [Op(op)], s.output + Postfix(left));
      pending := Converts(s2, right);
      BinaryTakes(s, op, left, right, s1, s2);
      var s3 := TakeAll(s2, Tokens(right));
      BinaryLeaves(s, e, s3, pending);
      pending := [Op(op)] + pending;
  }

  lemma BinaryTakes(s: State, op: Operator, left: Expr, right: Expr, s1: State, s2: State)
    requires s1 == TakeAll(s, Tokens(left)) && s2 == Take(s1, Op(op))
    ensures TakeAll(s, Tokens(Binary(op, left, right))) == TakeAll(s2, Tokens(right))
  {
    hide Take;
    TakeAllConcat(s, Tokens(left) + [Op(op)], Tokens(right));
    TakeAllConcat(s, Tokens(left), [Op(op)]);
    assert [Op(op)][1..] == [];
  }

  lemma BinaryLeaves(s: State, e: Expr, after: State, pending: seq<Token>)
    requires e.Binary? && Shaped(e)
    requires Leaves(State(s.stack + [Op(e.op)], s.output + Postfix(e.left)), e.right, after, pending)
    ensures Leaves(s, e, after, [Op(e.op)] + pending)
  {
    var all := [Op(e.op)] + pending;
    ReversedFirst(Op(e.op), pending);
    assert after.output + Reversed(all) == (after.output + Reversed(pending)) + [Op(e.op)];
    assert s.stack + all == s.stack + [Op(e.op)] + pending;
  }

  lemma BracketConverts(s: State, inner: Expr)
    requires Shaped(inner)
    ensures TakeAll(s, [LeftBracket] + Tokens(inner) + [RightBracket]) == State(s.stack, s.output + Postfix(inner))
    decreases inner, 1
  {
    var open := Take(s, LeftBracket);
    var pending := Converts(open, inner);
    var s1 := TakeAll(open, Tokens(inner));
    PopsToBracket(open.stack, pending, s1.output);
    assert open.stack[..|open.stack| - 1] == s.stack;
    TakeAllConcat(s, [LeftBracket] + Tokens(inner), [RightBracket]);
    TakeAllConcat(s, [LeftBracket], Tokens(inner));
    assert [LeftBracket][1..] == [] && [RightBracket][1..] == [];
  }

  lemma {:induction false} EvaluateConcat(apply: Calculate, values: seq<string>, a: seq<Token>, b: seq<Token>)
    ensures Evaluate(apply, values, a + b) == Evaluate(apply, Evaluate(apply, values, a), b)
    decreases |a|
  {
    if a == [] {
      assert a + b == b;
    } else {
      assert (a + b)[1..] == a[1..] + b;
      EvaluateConcat(apply, Apply(apply, values, a[0]), a[1..], b);
    }
  }

  /** A postfix form adds exactly its value to the stack. */
  lemma {:induction false} PostfixEvaluates(apply: Calculate, values: seq<string>, e: Expr)
    ensures Evaluate(apply, values, Postfix(e)) == values + [Meaning(apply, e)]
    decreases e
  {
    match e
    case Leaf(_) => assert Postfix(e)[1..] == [];
    case Bracketed(inner) => PostfixEvaluates(apply, values, inner);
    case Binary(op, left, right) =>
      var v1 := values + [Meaning(apply, left)];
      var v2 := v1 + [Meaning(apply, right)];
      PostfixEvaluates(apply, values, left);
      PostfixEvaluates(apply, v1, right);
      EvaluateConcat(apply, values, Postfix(left) + Postfix(right), [Op(op)]);
      EvaluateConcat(apply, values, Postfix(left), Postfix(right));
      assert [Op(op)][1..] == [] && v2[..|v2| - 2] == values;
  }

  /** Positions without a token change nothing. */
  function Compact(tokens: seq<Token>): seq<Token> {
    if tokens == [] then [] else (if tokens[0].Nil? then [] else [tokens[0]]) + Compact(tokens[1..])
  }

  lemma {:induction false} NilsSkipped(s: State, tokens: seq<Token>)
    ensures TakeAll(s, Compact(tokens)) == TakeAll(s, tokens)
    decreases |tokens|
  {
    if tokens != [] {
      NilsSkipped(Take(s, tokens[0]), tokens[1..]);
      if !tokens[0].Nil? {
        assert Compact(tokens)[1..] == Compact(tokens[1..]);
      } else {
        assert [] + Compact(tokens[1..]) == Compact(tokens[1..]);
      }
    }
  }

  lemma {:induction false} CompactConcat(a: seq<Token>, b: seq<Token>)
    ensures Compact(a + b) == Compact(a) + Compact(b)
    decreases |a|
  {
    if a == [] {
      assert a + b == b;
    } else {
      assert (a + b)[1..] == a[1..] + b;
      CompactConcat(a[1..], b);
    }
  }

  /** Conversion keeps the meaning: the tokens of any expression, with empty positions
      anywhere, are converted to a form whose evaluation ends with exactly one value, that of
      the expression read by priority and from left to right. */
  lemma ConversionKeepsMeaning(apply: Calculate, e: Expr, tokens: seq<Token>)
    requires Compact(tokens) == Tokens(e)
    ensures Shaped(Reading(e)) && Tokens(Reading(e)) == Tokens(e)
    ensures Converted(tokens) == Postfix(Reading(e))
    ensures Evaluate(apply, [], Converted(tokens)) == [Meaning(apply, Reading(e))]
  {
    ReadingShaped(e);
    var s := State([], []);
    NilsSkipped(s, Wrapped(tokens));
    CompactConcat([LeftBracket] + tokens, [RightBracket]);
    CompactConcat([LeftBracket], tokens);
    assert Compact([LeftBracket]) == [LeftBracket] && Compact([RightBracket]) == [RightBracket];
    BracketConverts(s, Reading(e));
    assert s.output + Postfix(Reading(e)) == Postfix(Reading(e));
    PostfixEvaluates(apply, [], Reading(e));
  }

  /** Two readings by priority of the same text mean the same. */
  lemma ReadingUnique(apply: Calculate, a: Expr, b: Expr)
    requires Shaped(a) && Shaped(b) && Tokens(a) == Tokens(b)
    ensures Postfix(a) == Postfix(b) && Meaning(apply, a) == Meaning(apply, b)
  {
    var s := State([], []);
    BracketConverts(s, a);
    BracketConverts(s, b);
    assert s.output + Postfix(a) == Postfix(a) && s.output + Postfix(b) == Postfix(b);
    PostfixEvaluates(apply, [], a);
    PostfixEvaluates(apply, [], b);
    assert [] + [Meaning(apply, a)] == [Meaning(apply, a)] && [] + [Meaning(apply, b)] == [Meaning(apply, b)];
    assert [Meaning(apply, a)][0] == [Meaning(apply, b)][0];
  }

  // --------------------------------------------------------------- the parser

  predicate IsTrue(fold: string -> string, text: string) {
    fold(text) == "true"
  }

  class Parser {
    var input: seq<Token>
    var output: seq<Token>
    var stack: seq<Token>

    constructor (tokens: seq<Token>)
      ensures input == Wrapped(tokens) && output == [] && stack == []
    {
      input, output, stack := Wrapped(tokens), [], [];
    }

    method Convert()
      requires output == [] && stack == []
      modifies this`output, this`stack
      ensures State(stack, output) == TakeAll(State([], []), input)
    {
      for i := 0 to |input|
        invariant TakeAll(State(stack, output), input[i..]) == TakeAll(State([], []), input)
      {
        assert input[i..][0] == input[i] && input[i..][1..] == input[i + 1..];
        TakeToken(input[i]);
      }
    }

    method TakeToken(t: Token)
      modifies this`output, this`stack
      ensures State(stack, output) == Take(old(State(stack, output)), t)
    {
      match t {
        case Nil =>
        case Operand(_) => output := output + [t];
        case LeftBracket => stack := stack + [t];
        case Op(op) =>
          if stack != [] {
            while stack != [] && StackPriority(stack[|stack| - 1]) >= Priority(op)
              invariant PopWhile(State(stack, output), Priority(op)) == PopWhile(old(State(stack, output)), Priority(op))
              decreases |stack|
            {
              output, stack := output + [stack[|stack| - 1]], stack[..|stack| - 1];
            }
            stack := stack + [t];
          }
        case RightBracket =>
          while stack != [] && !stack[|stack| - 1].LeftBracket?
            invariant PopToBracket(State(stack, output)) == PopToBracket(old(State(stack, output)))
            decreases |stack|
          {
            output, stack := output + [stack[|stack| - 1]], stack[..|stack| - 1];
          }
          if stack != [] { stack := stack[..|stack| - 1]; }
      }
    }

    /** Whether the converted expression holds. */
    method Test(apply: Calculate, fold: string -> string) returns (matches: bool)
      ensures var values := Evaluate(apply, [], output); matches == (values != [] && IsTrue(fold, values[0]))
    {
      var values: seq<string> := [];
      for i := 0 to |output|
        invariant Evaluate(apply, values, output[i..]) == Evaluate(apply, [], output)
      {
        assert output[i..][0] == output[i] && output[i..][1..] == output[i + 1..];
        var t, n := output[i], |values|;
        if t.Operand? {
          values := values + [t.text];
        } else if t.Op? {
          if n > 1 {
            var right, left := values[n - 1], values[n - 2];
            values := values[..n - 2];
            values := values + [apply(left, right, t.op)];
          }
        }
      }
      matches := values != [] && IsTrue(fold, values[0]);
    }
  }
}
