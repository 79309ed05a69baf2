/** Compiler correctness: printing a tree, compiling the tokens and running the
    finalised code gives the tree's meaning, within the stack that was reserved. */
module Compiler {
  import opened Sequences
  import opened Formula
  import opened ByteCode
  import opened Yard
  import opened Postfix
  import opened Machine

  function CompileTokens(ts: seq<Token>): Result<Program> {
    var s :- Feed(INITIAL, ts);
    Finish(s)
  }

  predicate AllRunnable(es: seq<Expr>) {
    forall e | e in es :: Runnable(e)
  }

  lemma {:induction false} TreeIsRunnable(e: Tree)
    requires ArityOk(e)
    ensures Runnable(e)
    decreases e, 0
  {
    match e
    case Bin(_, l, r) => TreeIsRunnable(l); TreeIsRunnable(r);
    case Unary(_, _, x) => TreeIsRunnable(x);
    case Cond(c, t, f) => TreeIsRunnable(c); TreeIsRunnable(t); TreeIsRunnable(f);
    case Call(_, _, args) => TreesAreRunnable(args);
    case Paren(x) => TreeIsRunnable(x);
    case _ =>
  }

  lemma {:induction false} TreesAreRunnable(es: seq<Tree>)
    requires AllArityOk(es)
    ensures AllRunnable(es)
    decreases es, 1
  {
    if es != [] {
      TreeIsRunnable(es[0]);
      TreesAreRunnable(es[1..]);
      assert es == [es[0]] + es[1..];
    }
  }

  lemma FinishList(es: seq<Expr>, s: State)
    requires es != [] && ListRead(INITIAL, es, s)
    ensures Read(s, TEnd).Ok? && Finish(Read(s, TEnd).value) == Ok(Program(LinkedList(es) + [IEnd], |es|))
  {
    hide ApplyRemaining, Finalized, LinkedList, ListCode;
    FinalizedList(es);
    assert [] + ListCode(es) == ListCode(es);
    assert s.args == [|es|];
  }

  // A comma list compiles exactly when every call in it has the right number of arguments;
  // its code is the trees' linked code in order, and its final index is their number.
  lemma CompileList(es: seq<Tree>)
    requires es != []
    ensures AllArityOk(es) ==> CompileTokens(PrintList(es) + [TEnd]) == Ok(Program(LinkedList(es) + [IEnd], |es|))
    ensures !AllArityOk(es) ==> CompileTokens(PrintList(es) + [TEnd]).Err?
  {
    hide Feed, Read, Finish, ListRead, LinkedList, PrintList, AllArityOk;
    ReadList(INITIAL, es);
    if !AllArityOk(es) {
      FeedFails(INITIAL, PrintList(es), [TEnd]);
    } else {
      var s := Feed(INITIAL, PrintList(es)).value;
      FeedLast(INITIAL, PrintList(es), TEnd, s);
      FinishList(es, s);
    }
  }

  lemma RunList(a: Algebra, mem: Memory, es: seq<Tree>)
    requires AllArityOk(es)
    ensures Run(a, mem, Config(LinkedList(es) + [IEnd], [])) == Ok(Meanings(a, mem, es))
  {
    TreesAreRunnable(es);
    RunTrees(a, mem, es, [IEnd], []);
    assert [] + Meanings(a, mem, es) == Meanings(a, mem, es);
  }

  // ----- Static stack depth -----

  // From here on the run neither underflows nor rises above the static position at any instruction.
  ghost predicate HeightsFit(a: Algebra, mem: Memory, full: seq<Instr>, c: Config)
    decreases |c.code|
  {
    && 0 < |c.code| <= |full|
    && |c.stack| <= Position(full[..|full| - |c.code|])
    && (AtEnd(c) || (Step(a, mem, c).Ok? && HeightsFit(a, mem, full, Step(a, mem, c).value)))
  }

  // The static effect of a tree's code is at least the one value it leaves.
  lemma {:induction false} LinkedRaises(e: Expr)
    requires Runnable(e)
    ensures Position(Linked(e)) >= 1
    decreases e, 1
  {
    hide Position;
    match e
    case Bin(op, l, r) =>
      LinkedRaises(l);
      LinkedRaises(r);
      BinRaises(op, Linked(l), Linked(r));
    case Unary(_, u, x) =>
      LinkedRaises(x);
      CallRaises(Linked(x), IFun(u.fn, 1), 1);
    case Cond(_, _, _) =>
      LinkedRaises(e.c);
      LinkedRaises(e.t);
      LinkedRaises(e.f);
      hide Linked;
      PositionOfCond(e);
    case Call(_, f, args) =>
      LinkedListRaises(args);
      CallRaises(LinkedList(args), CallOf(f, |args|), |args|);
    case Paren(x) => LinkedRaises(x);
    case _ => LeafRaises(e);
  }

  lemma LeafRaises(e: Expr)
    requires e.Num? || e.Const? || e.Var?
    ensures Position(Linked(e)) >= 1
  {
    var i := if e.Var? then IVar(e.addr) else IVal(e.val);
    assert Linked(e) == [i] && Delta(i) == 1;
    hide Linked;
    assert [] + [i] == [i];
    PositionOfLast([], i);
  }

  lemma BinRaises(op: BinOp, l: seq<Instr>, r: seq<Instr>)
    requires Position(l) >= 1 && Position(r) >= 1
    ensures Position(l + r + [IOp(op)]) >= 1
  {
    hide Position;
    PositionOfConcat(l, r);
    PositionOfLast(l + r, IOp(op));
  }

  lemma CallRaises(args: seq<Instr>, call: Instr, n: nat)
    requires Position(args) >= n && call.IFun? && CallSize(call.argc) == n
    ensures Position(args + [call]) >= 1
  {
    hide Position;
    PositionOfLast(args, call);
  }

  lemma PositionOfLast(code: seq<Instr>, i: Instr)
    ensures Position(code + [i]) == Position(code) + Delta(i)
  {
    assert (code + [i])[..|code|] == code;
  }

  lemma PositionOfCond(e: Expr)
    requires e.Cond?
    ensures Position(Linked(e)) == Position(Linked(e.c)) + Position(Linked(e.t)) + Position(Linked(e.f))
  {
    var if_, else_ := IIf(Some(|Linked(e.t)| + 1)), IElse(Some(|Linked(e.f)| + 1));
    PositionOfLast(Linked(e.c), if_);
    PositionOfConcat(Linked(e.c) + [if_], Linked(e.t));
    PositionOfLast(Linked(e.c) + [if_] + Linked(e.t), else_);
    PositionOfConcat(Linked(e.c) + [if_] + Linked(e.t) + [else_], Linked(e.f));
    PositionOfLast(Linked(e.c) + [if_] + Linked(e.t) + [else_] + Linked(e.f), IEndIf);
  }

  lemma {:induction false} LinkedListRaises(es: seq<Expr>)
    requires AllRunnable(es)
    ensures Position(LinkedList(es)) >= |es|
    decreases es, 2
  {
    if es != [] {
      LinkedRaises(es[0]);
      LinkedListRaises(es[1..]);
      PositionOfConcat(Linked(es[0]), LinkedList(es[1..]));
    }
  }

  // One more instruction in front of a run that fits.
  lemma FitsBefore(a: Algebra, mem: Memory, pre: seq<Instr>, c: Config, next: Config)
    requires c.code != [] && |c.stack| <= Position(pre)
    requires !AtEnd(c) && Step(a, mem, c) == Ok(next)
    requires HeightsFit(a, mem, pre + c.code, next)
    ensures HeightsFit(a, mem, pre + c.code, c)
  {
    assert (pre + c.code)[..|pre|] == pre;
  }

  lemma {:induction false} FitTree(
    a: Algebra, mem: Memory, full: seq<Instr>, pre: seq<Instr>, e: Expr, rest: seq<Instr>, stack: seq<Value>)
    requires Runnable(e) && full == pre + (Linked(e) + rest) && |stack| <= Position(pre)
    requires HeightsFit(a, mem, full, Config(rest, stack + [Meaning(a, mem, e)]))
    ensures HeightsFit(a, mem, full, Config(Linked(e) + rest, stack))
    decreases e, 2
  {
    match e
    case Bin(op, l, r) => FitBin(a, mem, full, pre, e, rest, stack);
    case Unary(_, u, x) =>
      var call := [IFun(u.fn, 1)] + rest;
      assert Linked(e) + rest == Linked(x) + call;
      hide HeightsFit, Linked, Position;
      assert full == pre + Linked(x) + call;
      LinkedRaises(x);
      FitLast(a, mem, full, pre + Linked(x), IFun(u.fn, 1), rest, stack, [Meaning(a, mem, x)], pre, Linked(x));
      FitTree(a, mem, full, pre, x, call, stack);
    case Cond(_, _, _) => FitCond(a, mem, full, pre, e, rest, stack);
    case Call(_, f, args) =>
      var call := CallOf(f, |args|);
      assert Linked(e) + rest == LinkedList(args) + ([call] + rest);
      hide HeightsFit, Linked, LinkedList, Position;
      assert full == pre + LinkedList(args) + ([call] + rest);
      LinkedListRaises(args);
      FitLast(a, mem, full, pre + LinkedList(args), call, rest, stack, Meanings(a, mem, args), pre, LinkedList(args));
      FitTrees(a, mem, full, pre, args, [call] + rest, stack);
    case Paren(x) => FitTree(a, mem, full, pre, x, rest, stack);
    case _ => FitLeaf(a, mem, full, pre, e, rest, stack);
  }

  lemma FitLeaf(
    a: Algebra, mem: Memory, full: seq<Instr>, pre: seq<Instr>, e: Expr, rest: seq<Instr>, stack: seq<Value>)
    requires e.Num? || e.Const? || e.Var?
    requires full == pre + (Linked(e) + rest) && |stack| <= Position(pre)
    requires HeightsFit(a, mem, full, Config(rest, stack + [Meaning(a, mem, e)]))
    ensures HeightsFit(a, mem, full, Config(Linked(e) + rest, stack))
  {
    assert (Linked(e) + rest)[1..] == rest;
    var c, next := Config(Linked(e) + rest, stack), Config(rest, stack + [Meaning(a, mem, e)]);
    assert !AtEnd(c) && Step(a, mem, c) == Ok(next);
    hide HeightsFit, Position, Linked, Step;
    FitsBefore(a, mem, pre, c, next);
  }

  // An operator or a call, its operands on the stack.
  lemma FitLast(
    a: Algebra, mem: Memory, full: seq<Instr>, before: seq<Instr>, i: Instr, rest: seq<Instr>,
    stack: seq<Value>, args: seq<Value>, pre: seq<Instr>, operands: seq<Instr>)
    requires i.IOp? ==> |args| == 2
    requires i.IFun? ==> i.argc <= 10 && CallSize(i.argc) == |args|
    requires i.IOp? || i.IFun?
    requires before == pre + operands && full == before + ([i] + rest)
    requires |stack| <= Position(pre) && |args| <= Position(operands)
    requires
      var v := if i.IOp? then a.Binary(i.op, args[0], args[1]) else a.call(i.fn, args);
      HeightsFit(a, mem, full, Config(rest, stack + [v]))
    ensures HeightsFit(a, mem, full, Config([i] + rest, stack + args))
  {
    var v := if i.IOp? then a.Binary(i.op, args[0], args[1]) else a.call(i.fn, args);
    var c := Config([i] + rest, stack + args);
    var base := |stack + args| - |args|;
    assert c.code[1..] == rest && (stack + args)[..base] == stack && (stack + args)[base..] == args;
    PositionOfConcat(pre, operands);
    FitsBefore(a, mem, before, c, Config(rest, stack + [v]));
  }

  // The code of two operands and their operator, cut before each of the three.
  lemma CutBin(pre: seq<Instr>, l: seq<Instr>, r: seq<Instr>, last: seq<Instr>)
    ensures l + (r + last) == l + r + last
    ensures pre + (l + r + last) == pre + l + (r + last) == pre + l + r + last == pre + (l + (r + last))
    ensures pre + l + r == pre + (l + r)
  {
    Assoc(l, r, last);
    Assoc(pre, l, r + last);
    Assoc(pre + l, r, last);
    Assoc(pre, l, r);
  }

  lemma BinParts(a: Algebra, mem: Memory, e: Expr, rest: seq<Instr>)
    requires e.Bin? && Runnable(e)
    ensures Runnable(e.l) && Runnable(e.r)
    ensures Linked(e) + rest == Linked(e.l) + Linked(e.r) + ([IOp(e.op)] + rest)
    ensures Meaning(a, mem, e) == a.Binary(e.op, Meaning(a, mem, e.l), Meaning(a, mem, e.r))
  {
    assert Linked(e) == Linked(e.l) + Linked(e.r) + [IOp(e.op)];
    hide Linked, Position;
    Assoc(Linked(e.l) + Linked(e.r), [IOp(e.op)], rest);
  }

  lemma {:induction false} FitBin(
    a: Algebra, mem: Memory, full: seq<Instr>, pre: seq<Instr>, e: Expr, rest: seq<Instr>, stack: seq<Value>)
    requires e.Bin? && Runnable(e) && full == pre + (Linked(e) + rest) && |stack| <= Position(pre)
    requires HeightsFit(a, mem, full, Config(rest, stack + [Meaning(a, mem, e)]))
    ensures HeightsFit(a, mem, full, Config(Linked(e) + rest, stack))
    decreases e, 0
  {
    hide *;
    var x, y := Meaning(a, mem, e.l), Meaning(a, mem, e.r);
    var l, r, last := Linked(e.l), Linked(e.r), [IOp(e.op)] + rest;
    BinParts(a, mem, e, rest);
    CutBin(pre, l, r, last);
    LinkedRaises(e.l);
    LinkedRaises(e.r);
    PositionOfConcat(l, r);
    PositionOfConcat(pre, l);
    FitLast(a, mem, full, pre + l + r, IOp(e.op), rest, stack, [x, y], pre, l + r);
    assert stack + [x] + [y] == stack + [x, y];
    FitTree(a, mem, full, pre + l, e.r, last, stack + [x]);
    FitTree(a, mem, full, pre, e.l, r + last, stack);
  }

  lemma SplitFirst(a: Algebra, mem: Memory, es: seq<Expr>, rest: seq<Instr>, stack: seq<Value>)
    requires es != []
    ensures LinkedList(es) + rest == Linked(es[0]) + (LinkedList(es[1..]) + rest)
    ensures stack + [Meaning(a, mem, es[0])] + Meanings(a, mem, es[1..]) == stack + Meanings(a, mem, es)
  {
    assert LinkedList(es) == Linked(es[0]) + LinkedList(es[1..]);
    assert Meanings(a, mem, es) == [Meaning(a, mem, es[0])] + Meanings(a, mem, es[1..]);
    hide *;
    Assoc(Linked(es[0]), LinkedList(es[1..]), rest);
    Assoc(stack, [Meaning(a, mem, es[0])], Meanings(a, mem, es[1..]));
  }

  lemma {:induction false} FitTrees(
    a: Algebra, mem: Memory, full: seq<Instr>, pre: seq<Instr>, es: seq<Expr>, rest: seq<Instr>, stack: seq<Value>)
    requires AllRunnable(es) && full == pre + (LinkedList(es) + rest) && |stack| <= Position(pre)
    requires HeightsFit(a, mem, full, Config(rest, stack + Meanings(a, mem, es)))
    ensures HeightsFit(a, mem, full, Config(LinkedList(es) + rest, stack))
    decreases es, 3
  {
    if es == [] {
      assert LinkedList(es) + rest == rest && stack + Meanings(a, mem, es) == stack;
    } else {
      SplitFirst(a, mem, es, rest, stack);
      hide HeightsFit, Position, Linked, LinkedList, Meaning, Meanings, Code, Runnable;
      var e, v := es[0], Meaning(a, mem, es[0]);
      var tail := LinkedList(es[1..]) + rest;
      LinkedRaises(e);
      PositionOfConcat(pre, Linked(e));
      assert pre + (Linked(e) + tail) == pre + Linked(e) + tail;
      FitTrees(a, mem, full, pre + Linked(e), es[1..], rest, stack + [v]);
      FitTree(a, mem, full, pre, e, tail, stack);
    }
  }

  // The pieces of a ternary's code, each with what follows it.
  function AtEndIf(rest: seq<Instr>): seq<Instr> {
    [IEndIf] + rest
  }

  function AtElse(e: Expr, rest: seq<Instr>): seq<Instr>
    requires e.Cond?
  {
    [IElse(Some(|Linked(e.f)| + 1))] + (Linked(e.f) + AtEndIf(rest))
  }

  function AtIf(e: Expr, rest: seq<Instr>): seq<Instr>
    requires e.Cond?
  {
    [IIf(Some(|Linked(e.t)| + 1))] + (Linked(e.t) + AtElse(e, rest))
  }

  lemma {:induction false} FitThen(
    a: Algebra, mem: Memory, full: seq<Instr>, pre: seq<Instr>, e: Expr, rest: seq<Instr>, stack: seq<Value>, c: Value)
    requires e.Cond? && Runnable(e) && full == pre + AtIf(e, rest) && |stack| + 1 <= Position(pre)
    requires !a.IsZero(c) && HeightsFit(a, mem, full, Config(rest, stack + [Meaning(a, mem, e.t)]))
    ensures HeightsFit(a, mem, full, Config(AtIf(e, rest), stack + [c]))
    decreases e, 0
  {
    hide HeightsFit, Position, Linked;
    var code, tail := AtIf(e, rest), AtElse(e, rest);
    var atThen := pre + [code[0]];
    PositionOfLast(pre, code[0]);
    assert full == atThen + (Linked(e.t) + tail);
    FitJump(a, mem, full, atThen, e, rest, stack);
    FitTree(a, mem, full, atThen, e.t, tail, stack);
    assert code[1..] == Linked(e.t) + tail && (stack + [c])[..|stack + [c]| - 1] == stack;
    FitsBefore(a, mem, pre, Config(code, stack + [c]), Config(Linked(e.t) + tail, stack));
  }

  lemma FitJump(
    a: Algebra, mem: Memory, full: seq<Instr>, pre: seq<Instr>, e: Expr, rest: seq<Instr>, stack: seq<Value>)
    requires e.Cond? && Runnable(e) && full == pre + (Linked(e.t) + AtElse(e, rest)) && |stack| <= Position(pre)
    requires HeightsFit(a, mem, full, Config(rest, stack + [Meaning(a, mem, e.t)]))
    ensures HeightsFit(a, mem, full, Config(AtElse(e, rest), stack + [Meaning(a, mem, e.t)]))
  {
    hide HeightsFit, Position, Linked;
    var tail, after := AtElse(e, rest), stack + [Meaning(a, mem, e.t)];
    LinkedRaises(e.t);
    PositionOfConcat(pre, Linked(e.t));
    assert tail[1 + (|Linked(e.f)| + 1)..] == rest;
    assert full == pre + Linked(e.t) + tail;
    FitsBefore(a, mem, pre + Linked(e.t), Config(tail, after), Config(rest, after));
  }

  lemma {:induction false} FitElse(
    a: Algebra, mem: Memory, full: seq<Instr>, pre: seq<Instr>, e: Expr, rest: seq<Instr>, stack: seq<Value>, c: Value)
    requires e.Cond? && Runnable(e) && full == pre + AtIf(e, rest) && |stack| + 1 <= Position(pre)
    requires a.IsZero(c) && HeightsFit(a, mem, full, Config(rest, stack + [Meaning(a, mem, e.f)]))
    ensures HeightsFit(a, mem, full, Config(AtIf(e, rest), stack + [c]))
    decreases e, 0
  {
    hide HeightsFit, Position, Linked;
    var code, end := AtIf(e, rest), AtEndIf(rest);
    var atElseCode := pre + ([code[0]] + Linked(e.t) + [AtElse(e, rest)[0]]);
    PositionOfBranch(pre, e, rest);
    assert full == atElseCode + (Linked(e.f) + end);
    FitEndIf(a, mem, full, atElseCode, e, rest, stack);
    FitTree(a, mem, full, atElseCode, e.f, end, stack);
    assert code[1 + (|Linked(e.t)| + 1)..] == Linked(e.f) + end;
    assert (stack + [c])[..|stack + [c]| - 1] == stack;
    FitsBefore(a, mem, pre, Config(code, stack + [c]), Config(Linked(e.f) + end, stack));
  }

  lemma FitEndIf(
    a: Algebra, mem: Memory, full: seq<Instr>, pre: seq<Instr>, e: Expr, rest: seq<Instr>, stack: seq<Value>)
    requires e.Cond? && Runnable(e) && full == pre + (Linked(e.f) + AtEndIf(rest)) && |stack| <= Position(pre)
    requires HeightsFit(a, mem, full, Config(rest, stack + [Meaning(a, mem, e.f)]))
    ensures HeightsFit(a, mem, full, Config(AtEndIf(rest), stack + [Meaning(a, mem, e.f)]))
  {
    hide HeightsFit, Position, Linked;
    var end, after := AtEndIf(rest), stack + [Meaning(a, mem, e.f)];
    LinkedRaises(e.f);
    PositionOfConcat(pre, Linked(e.f));
    assert end[1..] == rest;
    assert full == pre + Linked(e.f) + end;
    FitsBefore(a, mem, pre + Linked(e.f), Config(end, after), Config(rest, after));
  }

  lemma PositionOfBranch(pre: seq<Instr>, e: Expr, rest: seq<Instr>)
    requires e.Cond? && Runnable(e)
    ensures Position(pre + ([AtIf(e, rest)[0]] + Linked(e.t) + [AtElse(e, rest)[0]])) > Position(pre)
  {
    hide Linked, Position;
    LinkedRaises(e.t);
    PositionOfFour(pre, AtIf(e, rest)[0], Linked(e.t), AtElse(e, rest)[0]);
  }

  lemma PositionOfFour(pre: seq<Instr>, i: Instr, code: seq<Instr>, j: Instr)
    ensures Position(pre + ([i] + code + [j])) == Position(pre) + Delta(i) + Position(code) + Delta(j)
  {
    hide Position;
    PositionOfLast(pre, i);
    PositionOfConcat(pre + [i], code);
    PositionOfLast(pre + [i] + code, j);
    assert pre + ([i] + code + [j]) == pre + [i] + code + [j];
  }

  lemma {:induction false} FitCond(
    a: Algebra, mem: Memory, full: seq<Instr>, pre: seq<Instr>, e: Expr, rest: seq<Instr>, stack: seq<Value>)
    requires e.Cond? && Runnable(e) && full == pre + (Linked(e) + rest) && |stack| <= Position(pre)
    requires HeightsFit(a, mem, full, Config(rest, stack + [Meaning(a, mem, e)]))
    ensures HeightsFit(a, mem, full, Config(Linked(e) + rest, stack))
    decreases e, 1
  {
    hide HeightsFit, Position;
    var c := Meaning(a, mem, e.c);
    assert Linked(e) + rest == Linked(e.c) + AtIf(e, rest);
    LinkedRaises(e.c);
    PositionOfConcat(pre, Linked(e.c));
    assert full == pre + Linked(e.c) + AtIf(e, rest);
    if a.IsZero(c) {
      FitElse(a, mem, full, pre + Linked(e.c), e, rest, stack, c);
    } else {
      FitThen(a, mem, full, pre + Linked(e.c), e, rest, stack, c);
    }
    FitTree(a, mem, full, pre, e.c, AtIf(e, rest), stack);
  }

  lemma NoPosition()
    ensures Position([]) == 0
  {
  }

  lemma FitsAtEnd(a: Algebra, mem: Memory, code: seq<Instr>, stack: seq<Value>)
    requires |stack| <= Position(code)
    ensures HeightsFit(a, mem, code + [IEnd], Config([IEnd], stack))
  {
    hide Position;
    var full := code + [IEnd];
    assert full[..|full| - 1] == code;
  }

  // Stack safety of every compiled comma list, on every branch path.
  lemma ListFits(a: Algebra, mem: Memory, es: seq<Tree>)
    requires AllArityOk(es)
    ensures HeightsFit(a, mem, LinkedList(es) + [IEnd], Config(LinkedList(es) + [IEnd], []))
  {
    hide HeightsFit, LinkedList, Meanings, Position;
    TreesAreRunnable(es);
    LinkedListRaises(es);
    var full := LinkedList(es) + [IEnd];
    FitsAtEnd(a, mem, LinkedList(es), Meanings(a, mem, es));
    assert full == [] + (LinkedList(es) + [IEnd]) && [] + Meanings(a, mem, es) == Meanings(a, mem, es);
    NoPosition();
    FitTrees(a, mem, full, [], es, [IEnd], []);
  }
}
