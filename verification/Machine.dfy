/** The stack machine, and the finalised code of a tree: patched jumps make
    exactly one branch of a ternary run, and the run leaves the tree's meaning. */
module Machine {
  import opened Sequences
  import opened Formula
  import opened ByteCode
  import opened Postfix

  // ----- Jump patching of a tree's code -----

  // A tree's code with every jump set: an IF skips to just past its own ELSE, an ELSE past its own ENDIF.
  function Linked(e: Expr): (c: seq<Instr>)
    ensures |c| == |Code(e)|
    decreases e, 0
  {
    match e
    case Bin(op, l, r) => Linked(l) + Linked(r) + [IOp(op)]
    case Unary(_, u, x) => Linked(x) + [IFun(u.fn, 1)]
    case Cond(c, t, f) =>
      Linked(c) + [IIf(Some(|Linked(t)| + 1))] + Linked(t) + [IElse(Some(|Linked(f)| + 1))] + Linked(f) + [IEndIf]
    case Call(_, f, args) => LinkedList(args) + [CallOf(f, |args|)]
    case Paren(x) => Linked(x)
    case _ => Code(e)
  }

  function LinkedList(es: seq<Expr>): (c: seq<Instr>)
    ensures |c| == |ListCode(es)|
    decreases es, 1
  {
    if es == [] then [] else Linked(es[0]) + LinkedList(es[1..])
  }

  // The scan once more code has been passed with no jump left open in it.
  function Passed(s: Scan, c: seq<Instr>): (s': Scan)
    requires s.Marked()
    ensures s'.Marked()
  {
    Scan(s.done + c, s.ifs, s.elses)
  }

  lemma PatchPlain(s: Scan, i: Instr, rest: seq<Instr>)
    requires s.Marked() && !i.IIf? && !i.IElse? && !i.IEndIf?
    ensures Patch(s, [i] + rest) == Patch(Passed(s, [i]), rest)
  {
    assert ([i] + rest)[1..] == rest;
  }

  lemma {:induction false} PatchTree(s: Scan, e: Expr, rest: seq<Instr>)
    requires s.Marked()
    ensures Patch(s, Code(e) + rest) == Patch(Passed(s, Linked(e)), rest)
    decreases e, 1
  {
    hide Patch;
    match e
    case Bin(_, _, _) => PatchBin(s, e, rest);
    case Unary(_, u, x) =>
      Assoc(Code(x), [IFun(u.fn, 1)], rest);
      PatchTree(s, x, [IFun(u.fn, 1)] + rest);
      PatchPlain(Passed(s, Linked(x)), IFun(u.fn, 1), rest);
      PassedTwice(s, Linked(x), [IFun(u.fn, 1)]);
    case Cond(_, _, _) => PatchCond(s, e, rest);
    case Call(_, f, args) =>
      var call := CallOf(f, |args|);
      Assoc(ListCode(args), [call], rest);
      PatchTrees(s, args, [call] + rest);
      PatchPlain(Passed(s, LinkedList(args)), call, rest);
      PassedTwice(s, LinkedList(args), [call]);
    case Paren(x) => PatchTree(s, x, rest);
    case _ => PatchPlain(s, Code(e)[0], rest);
  }

  lemma {:induction false} PatchBin(s: Scan, e: Expr, rest: seq<Instr>)
    requires s.Marked() && e.Bin?
    ensures Patch(s, Code(e) + rest) == Patch(Passed(s, Linked(e)), rest)
    decreases e, 0
  {
    assert Code(e) == Code(e.l) + Code(e.r) + [IOp(e.op)] && Linked(e) == Linked(e.l) + Linked(e.r) + [IOp(e.op)];
    hide *;
    var last := [IOp(e.op)];
    var s1 := Passed(s, Linked(e.l));
    Assoc(Code(e.l) + Code(e.r), last, rest);
    Assoc(Code(e.l), Code(e.r), last + rest);
    PatchTree(s, e.l, Code(e.r) + (last + rest));
    PatchTree(s1, e.r, last + rest);
    PatchPlain(Passed(s1, Linked(e.r)), IOp(e.op), rest);
    PassedTwice(s, Linked(e.l), Linked(e.r));
    PassedTwice(s, Linked(e.l) + Linked(e.r), last);
  }

  lemma {:induction false} PatchTrees(s: Scan, es: seq<Expr>, rest: seq<Instr>)
    requires s.Marked()
    ensures Patch(s, ListCode(es) + rest) == Patch(Passed(s, LinkedList(es)), rest)
    decreases es, 2
  {
    if es == [] {
      assert ListCode(es) + rest == rest && s.done + LinkedList(es) == s.done;
    } else {
      SplitListCode(es, rest);
      hide *;
      PatchTree(s, es[0], ListCode(es[1..]) + rest);
      PatchTrees(Passed(s, Linked(es[0])), es[1..], rest);
      PassedTwice(s, Linked(es[0]), LinkedList(es[1..]));
    }
  }

  lemma PassedTwice(s: Scan, a: seq<Instr>, b: seq<Instr>)
    requires s.Marked()
    ensures Passed(Passed(s, a), b) == Passed(s, a + b)
  {
    assert s.done + a + b == s.done + (a + b);
  }

  lemma SplitListCode(es: seq<Expr>, rest: seq<Instr>)
    requires es != []
    ensures ListCode(es) + rest == Code(es[0]) + (ListCode(es[1..]) + rest)
    ensures LinkedList(es) == Linked(es[0]) + LinkedList(es[1..])
  {
    assert ListCode(es) == Code(es[0]) + ListCode(es[1..]);
    hide Code, Linked, ListCode;
  }

  // The scan at the IF, at the ELSE and at the ENDIF of a ternary, just past each marker.
  function PastIf(s: Scan, e: Expr): (s': Scan)
    requires s.Marked() && e.Cond?
    ensures s'.Marked()
  {
    Scan(s.done + Linked(e.c) + [IIf(None)], s.ifs + [|s.done + Linked(e.c)|], s.elses)
  }

  function PastElse(s: Scan, e: Expr): (s': Scan)
    requires s.Marked() && e.Cond?
    ensures s'.Marked()
  {
    var done := s.done + Linked(e.c) + [IIf(Some(|Linked(e.t)| + 1))] + Linked(e.t);
    Scan(done + [IElse(None)], s.ifs, s.elses + [|done|])
  }

  lemma PassIf(s: Scan, e: Expr, rest: seq<Instr>)
    requires s.Marked() && e.Cond?
    ensures Patch(Passed(s, Linked(e.c)), [IIf(None)] + rest) == Patch(PastIf(s, e), rest)
  {
    assert ([IIf(None)] + rest)[1..] == rest;
  }

  lemma PassElse(s: Scan, e: Expr, rest: seq<Instr>)
    requires s.Marked() && e.Cond?
    ensures Patch(Passed(PastIf(s, e), Linked(e.t)), [IElse(None)] + rest) == Patch(PastElse(s, e), rest)
  {
    hide Linked, Code;
    var s1 := Passed(PastIf(s, e), Linked(e.t));
    PatchMarker(s.done + Linked(e.c), IIf(None), IIf(Some(|Linked(e.t)| + 1)), Linked(e.t), IElse(None));
    assert ([IElse(None)] + rest)[1..] == rest;
    assert s1.ifs[..|s1.ifs| - 1] == s.ifs;
  }

  // Patching one marker of code laid out before and after it.
  lemma PatchMarker(pre: seq<Instr>, old_: Instr, new_: Instr, mid: seq<Instr>, last: Instr)
    ensures (pre + [old_] + mid)[|pre| := new_] + [last] == pre + [new_] + mid + [last]
  {
    assert (pre + [old_] + mid)[|pre| := new_] == pre + [new_] + mid;
  }

  lemma CondDone(done: seq<Instr>, e: Expr)
    requires e.Cond?
    ensures done + Linked(e.c) + [IIf(Some(|Linked(e.t)| + 1))] + Linked(e.t)
            + [IElse(Some(|Linked(e.f)| + 1))] + Linked(e.f) + [IEndIf]
         == done + Linked(e)
  {
    var c, t, f := Linked(e.c), Linked(e.t), Linked(e.f);
    assert Linked(e) == c + [IIf(Some(|t| + 1))] + t + [IElse(Some(|f| + 1))] + f + [IEndIf];
    hide Linked;
  }

  lemma PassEndIf(s: Scan, e: Expr, rest: seq<Instr>)
    requires s.Marked() && e.Cond?
    ensures Patch(Passed(PastElse(s, e), Linked(e.f)), [IEndIf] + rest) == Patch(Passed(s, Linked(e)), rest)
  {
    CondDone(s.done, e);
    hide Linked, Code;
    var s1 := Passed(PastElse(s, e), Linked(e.f));
    var pre := s.done + Linked(e.c) + [IIf(Some(|Linked(e.t)| + 1))] + Linked(e.t);
    PatchMarker(pre, IElse(None), IElse(Some(|Linked(e.f)| + 1)), Linked(e.f), IEndIf);
    assert ([IEndIf] + rest)[1..] == rest;
    assert s1.elses[..|s1.elses| - 1] == s.elses;
  }

  lemma {:induction false} PatchCond(s: Scan, e: Expr, rest: seq<Instr>)
    requires s.Marked() && e.Cond?
    ensures Patch(s, Code(e) + rest) == Patch(Passed(s, Linked(e)), rest)
    decreases e, 0
  {
    hide Patch, Passed, PastIf, PastElse;
    var r3 := [IEndIf] + rest;
    var r2 := [IElse(None)] + (Code(e.f) + r3);
    var r1 := [IIf(None)] + (Code(e.t) + r2);
    assert Code(e) + rest == Code(e.c) + r1;
    PatchTree(s, e.c, r1);
    PassIf(s, e, Code(e.t) + r2);
    PatchTree(PastIf(s, e), e.t, r2);
    PassElse(s, e, Code(e.f) + r3);
    PatchTree(PastElse(s, e), e.f, r3);
    PassEndIf(s, e, rest);
  }

  // Finalising a comma list's code links every ternary in it.
  lemma FinalizedList(es: seq<Expr>)
    ensures Finalized(ListCode(es)) == Ok(LinkedList(es) + [IEnd])
  {
    var s := Scan([], [], []);
    PatchTrees(s, es, [IEnd]);
    assert [IEnd] == [IEnd] + [];
    PatchPlain(Passed(s, LinkedList(es)), IEnd, []);
    assert s.done + LinkedList(es) + [IEnd] == LinkedList(es) + [IEnd];
  }

  // ----- Running -----

  function CallSize(argc: int): nat {
    if argc < 0 then -argc else argc
  }

  // The code from the current instruction on, and positions 1.. of the machine's buffer.
  datatype Config = Config(code: seq<Instr>, stack: seq<Value>)

  predicate AtEnd(c: Config) {
    c.code == [] || c.code[0].IEnd?
  }

  // One turn of the loop. Every jump goes forward: its offset is added, then the loop steps once more.
  function Step(a: Algebra, mem: Memory, c: Config): (r: Result<Config>)
    requires !AtEnd(c)
    ensures r.Ok? ==> |r.value.code| < |c.code|
  {
    var n, stack := |c.stack|, c.stack;
    match c.code[0]
    case IVar(addr) => Ok(Config(c.code[1..], stack + [mem(addr)]))
    case IVal(v) => Ok(Config(c.code[1..], stack + [v]))
    case IOp(op) =>
      if n < 2 then Err(Internal)
      else Ok(Config(c.code[1..], stack[..n - 2] + [a.Binary(op, stack[n - 2], stack[n - 1])]))
    case IFun(fn, argc) =>
      if argc > 10 || CallSize(argc) > n then Err(Internal)
      else
        var base := n - CallSize(argc);
        Ok(Config(c.code[1..], stack[..base] + [a.call(fn, stack[base..])]))
    case IIf(offset) =>
      if n < 1 || offset.None? || offset.value >= |c.code| then Err(Internal)
      else if a.IsZero(stack[n - 1]) then Ok(Config(c.code[1 + offset.value..], stack[..n - 1]))
      else Ok(Config(c.code[1..], stack[..n - 1]))
    case IElse(offset) =>
      if offset.None? || offset.value >= |c.code| then Err(Internal)
      else Ok(Config(c.code[1 + offset.value..], stack))
    case IEndIf => Ok(Config(c.code[1..], stack))
  }

  // Runs to the end marker; running off the code is an error.
  function Run(a: Algebra, mem: Memory, c: Config): Result<seq<Value>>
    decreases |c.code|
  {
    if c.code == [] then Err(Internal)
    else if AtEnd(c) then Ok(c.stack)
    else
      var c' :- Step(a, mem, c);
      Run(a, mem, c')
  }

  // Calls a callback exists for: DefineFun takes zero to ten arguments or an argument vector.
  predicate Runnable(e: Expr)
    decreases e
  {
    match e
    case Bin(_, l, r) => Runnable(l) && Runnable(r)
    case Unary(_, _, x) => Runnable(x)
    case Cond(c, t, f) => Runnable(c) && Runnable(t) && Runnable(f)
    case Call(_, f, args) => Callable(f) && Accepts(f, |args|) && forall x | x in args :: Runnable(x)
    case Paren(x) => Runnable(x)
    case _ => true
  }

  lemma RunStep(a: Algebra, mem: Memory, i: Instr, rest: seq<Instr>, stack: seq<Value>, args: seq<Value>)
    requires i.IOp? ==> |args| == 2
    requires i.IFun? ==> i.argc <= 10 && CallSize(i.argc) == |args|
    requires i.IOp? || i.IFun?
    ensures
      var v := if i.IOp? then a.Binary(i.op, args[0], args[1]) else a.call(i.fn, args);
      Run(a, mem, Config([i] + rest, stack + args)) == Run(a, mem, Config(rest, stack + [v]))
  {
    var base := |stack + args| - |args|;
    assert ([i] + rest)[1..] == rest;
    assert (stack + args)[..base] == stack && (stack + args)[base..] == args;
  }

  // Running a tree's linked code pushes the tree's meaning and goes on with what follows.
  lemma {:induction false} RunTree(a: Algebra, mem: Memory, e: Expr, rest: seq<Instr>, stack: seq<Value>)
    requires Runnable(e)
    ensures Run(a, mem, Config(Linked(e) + rest, stack)) == Run(a, mem, Config(rest, stack + [Meaning(a, mem, e)]))
    decreases e, 1
  {
    match e
    case Bin(_, _, _) => RunBin(a, mem, e, rest, stack);
    case Unary(_, u, x) =>
      assert Linked(e) + rest == Linked(x) + ([IFun(u.fn, 1)] + rest);
      hide Run, Linked;
      RunTree(a, mem, x, [IFun(u.fn, 1)] + rest, stack);
      RunStep(a, mem, IFun(u.fn, 1), rest, stack, [Meaning(a, mem, x)]);
    case Cond(_, _, _) => RunCond(a, mem, e, rest, stack);
    case Call(_, f, args) =>
      var call := CallOf(f, |args|);
      assert Linked(e) + rest == LinkedList(args) + ([call] + rest);
      hide Run, Linked, LinkedList;
      RunTrees(a, mem, args, [call] + rest, stack);
      RunStep(a, mem, call, rest, stack, Meanings(a, mem, args));
    case Paren(x) => RunTree(a, mem, x, rest, stack);
    case _ => assert (Linked(e) + rest)[1..] == rest;
  }

  lemma {:induction false} RunBin(a: Algebra, mem: Memory, e: Expr, rest: seq<Instr>, stack: seq<Value>)
    requires e.Bin? && Runnable(e)
    ensures Run(a, mem, Config(Linked(e) + rest, stack)) == Run(a, mem, Config(rest, stack + [Meaning(a, mem, e)]))
    decreases e, 0
  {
    var x, y := Meaning(a, mem, e.l), Meaning(a, mem, e.r);
    assert Meaning(a, mem, e) == a.Binary(e.op, x, y) && Linked(e) == Linked(e.l) + Linked(e.r) + [IOp(e.op)];
    assert Runnable(e.l) && Runnable(e.r);
    hide Run, Linked, Meaning, Runnable;
    assert Linked(e) + rest == Linked(e.l) + (Linked(e.r) + ([IOp(e.op)] + rest));
    RunTree(a, mem, e.l, Linked(e.r) + ([IOp(e.op)] + rest), stack);
    RunTree(a, mem, e.r, [IOp(e.op)] + rest, stack + [x]);
    assert stack + [x] + [y] == stack + [x, y];
    RunStep(a, mem, IOp(e.op), rest, stack, [x, y]);
  }

  lemma {:induction false} RunTrees(a: Algebra, mem: Memory, es: seq<Expr>, rest: seq<Instr>, stack: seq<Value>)
    requires forall x | x in es :: Runnable(x)
    ensures Run(a, mem, Config(LinkedList(es) + rest, stack)) == Run(a, mem, Config(rest, stack + Meanings(a, mem, es)))
    decreases es, 2
  {
    if es == [] {
      assert LinkedList(es) + rest == rest && stack + Meanings(a, mem, es) == stack;
    } else {
      var v := Meaning(a, mem, es[0]);
      assert LinkedList(es) + rest == Linked(es[0]) + (LinkedList(es[1..]) + rest);
      RunTree(a, mem, es[0], LinkedList(es[1..]) + rest, stack);
      RunTrees(a, mem, es[1..], rest, stack + [v]);
      assert stack + [v] + Meanings(a, mem, es[1..]) == stack + Meanings(a, mem, es);
    }
  }

  // The two ways through a ternary, past its condition.
  lemma TakeThen(a: Algebra, mem: Memory, e: Expr, rest: seq<Instr>, stack: seq<Value>, c: Value)
    requires e.Cond? && !a.IsZero(c)
    ensures
      var else_ := [IElse(Some(|Linked(e.f)| + 1))] + (Linked(e.f) + ([IEndIf] + rest));
      Run(a, mem, Config([IIf(Some(|Linked(e.t)| + 1))] + (Linked(e.t) + else_), stack + [c]))
      == Run(a, mem, Config(Linked(e.t) + else_, stack))
  {
    var else_ := [IElse(Some(|Linked(e.f)| + 1))] + (Linked(e.f) + ([IEndIf] + rest));
    var code := [IIf(Some(|Linked(e.t)| + 1))] + (Linked(e.t) + else_);
    assert code[1..] == Linked(e.t) + else_;
    assert (stack + [c])[..|stack + [c]| - 1] == stack;
  }

  lemma SkipElse(a: Algebra, mem: Memory, e: Expr, rest: seq<Instr>, stack: seq<Value>)
    requires e.Cond?
    ensures Run(a, mem, Config([IElse(Some(|Linked(e.f)| + 1))] + (Linked(e.f) + ([IEndIf] + rest)), stack))
         == Run(a, mem, Config(rest, stack))
  {
    var code := [IElse(Some(|Linked(e.f)| + 1))] + (Linked(e.f) + ([IEndIf] + rest));
    assert code[1 + (|Linked(e.f)| + 1)..] == rest;
  }

  lemma TakeElse(a: Algebra, mem: Memory, e: Expr, rest: seq<Instr>, stack: seq<Value>, c: Value)
    requires e.Cond? && a.IsZero(c)
    ensures
      var else_ := [IElse(Some(|Linked(e.f)| + 1))] + (Linked(e.f) + ([IEndIf] + rest));
      Run(a, mem, Config([IIf(Some(|Linked(e.t)| + 1))] + (Linked(e.t) + else_), stack + [c]))
      == Run(a, mem, Config(Linked(e.f) + ([IEndIf] + rest), stack))
  {
    var tail := Linked(e.f) + ([IEndIf] + rest);
    var code := [IIf(Some(|Linked(e.t)| + 1))] + (Linked(e.t) + ([IElse(Some(|Linked(e.f)| + 1))] + tail));
    assert code[1 + (|Linked(e.t)| + 1)..] == tail;
    assert (stack + [c])[..|stack + [c]| - 1] == stack;
  }

  lemma SplitCond(e: Expr, rest: seq<Instr>)
    requires e.Cond?
    ensures Linked(e) + rest
         == Linked(e.c) + ([IIf(Some(|Linked(e.t)| + 1))]
          + (Linked(e.t) + ([IElse(Some(|Linked(e.f)| + 1))] + (Linked(e.f) + ([IEndIf] + rest)))))
  {
    var c, t, f := Linked(e.c), Linked(e.t), Linked(e.f);
    assert Linked(e) == c + [IIf(Some(|t| + 1))] + t + [IElse(Some(|f| + 1))] + f + [IEndIf];
    hide *;
    Regroup(c, IIf(Some(|t| + 1)), t, IElse(Some(|f| + 1)), f, rest);
  }

  lemma Regroup(c: seq<Instr>, i: Instr, t: seq<Instr>, j: Instr, f: seq<Instr>, rest: seq<Instr>)
    ensures c + [i] + t + [j] + f + [IEndIf] + rest == c + ([i] + (t + ([j] + (f + ([IEndIf] + rest)))))
  {
    var tail := [j] + (f + ([IEndIf] + rest));
    assert t + ([j] + f + [IEndIf] + rest) == t + tail;
  }

  lemma MeaningOfCond(a: Algebra, mem: Memory, e: Expr)
    requires e.Cond?
    ensures Meaning(a, mem, e) == if a.IsZero(Meaning(a, mem, e.c)) then Meaning(a, mem, e.f) else Meaning(a, mem, e.t)
  {
  }

  lemma RunEndIf(a: Algebra, mem: Memory, rest: seq<Instr>, stack: seq<Value>)
    ensures Run(a, mem, Config([IEndIf] + rest, stack)) == Run(a, mem, Config(rest, stack))
  {
    assert ([IEndIf] + rest)[1..] == rest;
  }

  lemma {:induction false} RunCond(a: Algebra, mem: Memory, e: Expr, rest: seq<Instr>, stack: seq<Value>)
    requires e.Cond? && Runnable(e)
    ensures Run(a, mem, Config(Linked(e) + rest, stack)) == Run(a, mem, Config(rest, stack + [Meaning(a, mem, e)]))
    decreases e, 0
  {
    assert Runnable(e.c) && Runnable(e.t) && Runnable(e.f);
    hide Run, Linked, Meaning, Runnable;
    var c := Meaning(a, mem, e.c);
    var end := [IEndIf] + rest;
    var else_ := [IElse(Some(|Linked(e.f)| + 1))] + (Linked(e.f) + end);
    var branches := [IIf(Some(|Linked(e.t)| + 1))] + (Linked(e.t) + else_);
    SplitCond(e, rest);
    MeaningOfCond(a, mem, e);
    RunTree(a, mem, e.c, branches, stack);
    if a.IsZero(c) {
      TakeElse(a, mem, e, rest, stack, c);
      RunTree(a, mem, e.f, end, stack);
      RunEndIf(a, mem, rest, stack + [Meaning(a, mem, e.f)]);
    } else {
      TakeThen(a, mem, e, rest, stack, c);
      RunTree(a, mem, e.t, else_, stack);
      SkipElse(a, mem, e, rest, stack + [Meaning(a, mem, e.t)]);
    }
  }
}
