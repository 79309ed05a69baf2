/** The parser object: the compile loop with its stacks, the machine loop over
    the shared buffer, and the bytecode cached between evaluations. */
module Parser {
  import opened Formula
  import opened ByteCode
  import opened TokenReader
  import opened Yard
  import opened Postfix
  import opened Machine
  import opened Compiler
  import opened Correctness

  const MAX_THREADS := 4

  // The stacks local to one compilation, handed to the Apply methods by reference. The outermost
  // argument counter counts the formula's own comma-separated parts.
  class Stacks {
    var opt: seq<Token>
    var vals: nat
    var args: seq<int>
    var last: Option<Token>

    constructor ()
      ensures opt == [] && vals == 0 && args == [1] && last == None
    {
      opt, vals, args, last := [], 0, [1], None;
    }

    method PopOpt() returns (top: Token)
      requires opt != []
      modifies this`opt
      ensures top == old(opt)[|old(opt)| - 1] && opt == old(opt)[..|old(opt)| - 1]
    {
      top := opt[|opt| - 1];
      opt := opt[..|opt| - 1];
    }

    method PopVal() returns (r: Result<()>)
      modifies this`vals
      ensures old(vals) == 0 ==> r == Err(StackEmpty) && vals == 0
      ensures old(vals) > 0 ==> r == Ok(()) && vals == old(vals) - 1
    {
      if vals == 0 { return Err(StackEmpty); }
      vals := vals - 1;
      return Ok(());
    }

    // One value for each argument.
    method PopVals(n: int) returns (r: Result<()>)
      modifies this`vals
      ensures r.Ok? <==> n <= old(vals)
      ensures r.Ok? ==> vals == old(vals) - (if n > 0 then n else 0)
      ensures r.Err? ==> r.error == StackEmpty
    {
      var i := 0;
      while i < n
        invariant 0 <= i && (i <= n || i == 0)
        invariant vals == old(vals) - i
      {
        var _ :- PopVal();
        i := i + 1;
      }
      return Ok(());
    }
  }

  class ParserBase {
    const reader: ParserTokenReader
    const rpn: ParserByteCode
    var varDef: map<string, nat>
    var constDef: map<string, Value>
    var funDef: map<string, Fun>
    var infixDef: map<BinOp, Infix>
    var builtInOp: bool
    var ifElseCounter: int
    // Whether evaluation runs the stored bytecode or parses the formula again.
    var compiled: bool
    var stackBuffer: array<Value>
    var finalResultIdx: int

    function Definitions(): Defs
      reads this
    {
      Defs(varDef, constDef, funDef, infixDef, builtInOp)
    }

    // The cached bytecode is what compiling the formula under the present definitions would give,
    // and the buffer has room for every thread's slice.
    ghost predicate Valid()
      reads this, reader, rpn
    {
      && reader.Valid()
      && (compiled ==>
        && Correctness.CreateRPN(Definitions(), reader.formula) == Ok(Program(rpn.rpn, finalResultIdx))
        && stackBuffer.Length == MAX_THREADS * (Maximum(rpn.rpn) + 1))
    }

    constructor ()
      ensures Valid() && !compiled && fresh(reader) && fresh(rpn) && fresh(stackBuffer) && reader.formula == []
      ensures Definitions() == Defs(map[], map[], map[], map[], true)
    {
      reader := new ParserTokenReader();
      rpn := new ParserByteCode();
      varDef, constDef, funDef, infixDef, builtInOp := map[], map[], map[], map[], true;
      ifElseCounter, compiled, finalResultIdx := 0, false, 0;
      stackBuffer := new Value[0];
    }

    // ----- Compiling -----

    // The compiler's whole state, as the specification sees it.
    ghost function Now(st: Stacks): State
      reads this, rpn, st
    {
      State(st.opt, st.vals, st.args, rpn.rpn, ifElseCounter, st.last)
    }

    method ApplyFunc(st: Stacks, argCount: int) returns (r: Result<()>)
      requires rpn.Valid()
      modifies rpn, st`opt, st`vals
      ensures rpn.Valid()
      ensures r.Ok? ==> Yard.ApplyFunc(old(Now(st)), argCount) == Ok(Now(st))
      ensures r.Err? ==> Yard.ApplyFunc(old(Now(st)), argCount) == Err(r.error)
    {
      hide Position, Maximum;
      if st.opt == [] || !IsCallback(st.opt[|st.opt| - 1]) { return Ok(()); }
      var fun := st.PopOpt();
      var required := ArgCount(fun);
      if required >= 0 && argCount > required { return Err(TooManyParams); }
      if argCount < required { return Err(TooFewParams); }
      var _ :- st.PopVals(argCount);
      if required == -1 && argCount == 0 { return Err(TooFewParams); }
      rpn.AddFun(Callback(fun), if required == -1 then -argCount else argCount);
      st.vals := st.vals + 1;
      return Ok(());
    }

    method ApplyBinOprt(st: Stacks) returns (r: Result<()>)
      requires rpn.Valid() && st.opt != [] && st.opt[|st.opt| - 1].TOp?
      modifies rpn, st`opt, st`vals
      ensures rpn.Valid()
      ensures r.Ok? ==> Yard.ApplyBinOprt(old(Now(st))) == Ok(Now(st))
      ensures r.Err? ==> Yard.ApplyBinOprt(old(Now(st))) == Err(r.error)
    {
      var _ :- st.PopVal();
      var _ :- st.PopVal();
      var opt := st.PopOpt();
      rpn.AddOp(opt.op);
      st.vals := st.vals + 1;
      return Ok(());
    }

    // One pending ternary on top of the stacks.
    method CloseTernary(st: Stacks) returns (r: Result<()>)
      requires rpn.Valid() && st.opt != []
      modifies rpn, st`opt, st`vals
      ensures rpn.Valid()
      ensures r.Ok? ==> CloseIfElse(old(Now(st))) == Ok(Now(st)) && |st.opt| < |old(st.opt)|
      ensures r.Err? ==> CloseIfElse(old(Now(st))) == Err(r.error)
    {
      hide Position, Maximum;
      var _ := st.PopOpt();
      var _ :- st.PopVal();
      var _ :- st.PopVal();
      var _ :- st.PopVal();
      st.vals := st.vals + 1;
      if st.opt == [] { return Err(StackEmpty); }
      var _ := st.PopOpt();
      rpn.AddIfElse(IEndIf);
      assert old(st.opt)[..|old(st.opt)| - 1][..|old(st.opt)| - 2] == old(st.opt)[..|old(st.opt)| - 2];
      return Ok(());
    }

    method ApplyIfElse(st: Stacks) returns (r: Result<()>)
      requires rpn.Valid()
      modifies rpn, st`opt, st`vals
      ensures rpn.Valid()
      ensures r.Ok? ==> Yard.ApplyIfElse(old(Now(st))) == Ok(Now(st))
      ensures r.Err? ==> Yard.ApplyIfElse(old(Now(st))) == Err(r.error)
    {
      hide Position, Maximum, CloseIfElse;
      while st.opt != [] && st.opt[|st.opt| - 1] == TElse
        invariant rpn.Valid()
        invariant Yard.ApplyIfElse(Now(st)) == Yard.ApplyIfElse(old(Now(st)))
        decreases |st.opt|
      {
        r := CloseTernary(st);
        if r.Err? { return; }
      }
      return Ok(());
    }

    method ApplyTop(st: Stacks) returns (r: Result<()>)
      requires rpn.Valid() && st.opt != []
      modifies rpn, st`opt, st`vals
      ensures rpn.Valid()
      ensures r.Ok? ==> Yard.ApplyTop(old(Now(st))) == Ok(Now(st))
      ensures r.Err? ==> Yard.ApplyTop(old(Now(st))) == Err(r.error)
    {
      match st.opt[|st.opt| - 1] {
        case TInfix(_) => r := ApplyFunc(st, 1);
        case TOp(_) => r := ApplyBinOprt(st);
        case TElse => r := ApplyIfElse(st);
        case _ => r := Err(Internal);
      }
    }

    method ApplyRemainingOprt(st: Stacks) returns (r: Result<()>)
      requires rpn.Valid()
      modifies rpn, st`opt, st`vals
      ensures rpn.Valid()
      ensures r.Ok? ==> ApplyRemaining(old(Now(st))) == Ok(Now(st))
      ensures r.Err? ==> ApplyRemaining(old(Now(st))) == Err(r.error)
    {
      while st.opt != [] && st.opt[|st.opt| - 1] != TOpen && st.opt[|st.opt| - 1] != TIf
        invariant rpn.Valid()
        invariant ApplyRemaining(Now(st)) == ApplyRemaining(old(Now(st)))
        decreases |st.opt|
      {
        r := ApplyTop(st);
        if r.Err? { return; }
      }
      return Ok(());
    }

    // A binary operator or `?` has been read: the loop that applies what binds tighter.
    method ApplyTighterOprt(st: Stacks, next: Token) returns (r: Result<()>)
      requires rpn.Valid() && Precedence(next).Some?
      modifies rpn, st`opt, st`vals
      ensures rpn.Valid()
      ensures r.Ok? ==> ApplyTighter(old(Now(st)), next) == Ok(Now(st))
      ensures r.Err? ==> ApplyTighter(old(Now(st)), next) == Err(r.error)
    {
      while !Shielded(st.opt)
        invariant rpn.Valid()
        invariant ApplyTighter(Now(st), next) == ApplyTighter(old(Now(st)), next)
        decreases |st.opt|
      {
        var top := st.opt[|st.opt| - 1];
        if Precedence(top).None? { return Err(Internal); }
        if !Yields(top, next) { break; }
        if !top.TInfix? && !top.TOp? { return Err(Internal); }
        r := ApplyTop(st);
        if r.Err? { return; }
      }
      return Ok(());
    }

    method CloseBracket(st: Stacks) returns (r: Result<()>)
      requires rpn.Valid()
      modifies rpn, st`opt, st`vals, st`args
      ensures rpn.Valid()
      ensures r.Ok? ==> Yard.CloseBracket(old(Now(st))) == Ok(Now(st))
      ensures r.Err? ==> Yard.CloseBracket(old(Now(st))) == Err(r.error)
    {
      hide Position, Maximum, ApplyRemaining, Yard.ApplyFunc;
      if st.last == Some(TOpen) {
        if st.args == [] { return Err(StackEmpty); }
        st.args := Bump(st.args, -1);
      }
      r := ApplyRemainingOprt(st);
      if r.Err? { return; }
      if st.opt != [] && st.opt[|st.opt| - 1] == TOpen {
        if st.args == [] { return Err(StackEmpty); }
        var argCount := st.args[|st.args| - 1];
        st.args := st.args[..|st.args| - 1];
        var _ := st.PopOpt();
        if argCount > 1 && (st.opt == [] || !st.opt[|st.opt| - 1].TFun?) { return Err(UnexpectedArg); }
        if st.opt != [] && st.opt[|st.opt| - 1].TFun? {
          r := ApplyFunc(st, argCount);
          return;
        }
      }
      return Ok(());
    }

    // The switch over the token just read.
    method Dispatch(st: Stacks, t: Token) returns (r: Result<()>)
      requires rpn.Valid()
      modifies rpn, st`opt, st`vals, st`args, this`ifElseCounter
      ensures rpn.Valid()
      ensures r.Ok? ==> Yard.Dispatch(old(Now(st)), t) == Ok(Now(st))
      ensures r.Err? ==> Yard.Dispatch(old(Now(st)), t) == Err(r.error)
    {
      hide ApplyRemaining, ApplyTighter, Yard.CloseBracket, Position, Maximum;
      match t {
        case TVar(addr) =>
          st.vals := st.vals + 1;
          rpn.AddVar(addr);
        case TVal(v) =>
          st.vals := st.vals + 1;
          rpn.AddVal(v);
        case TElse =>
          ifElseCounter := ifElseCounter - 1;
          if ifElseCounter < 0 { return Err(MisplacedColon); }
          r := ApplyRemainingOprt(st);
          if r.Err? { return; }
          rpn.AddIfElse(IElse(None));
          st.opt := st.opt + [t];
        case TSep =>
          if st.args == [] { return Err(UnexpectedArgSep); }
          st.args := Bump(st.args, 1);
          r := ApplyRemainingOprt(st);
          return;
        case TEnd =>
          r := ApplyRemainingOprt(st);
          return;
        case TClose =>
          r := CloseBracket(st);
          return;
        case TIf =>
          ifElseCounter := ifElseCounter + 1;
          r := ApplyTighterOprt(st, t);
          if r.Err? { return; }
          rpn.AddIfElse(IIf(None));
          st.opt := st.opt + [t];
        case TOp(_) =>
          r := ApplyTighterOprt(st, t);
          if r.Err? { return; }
          st.opt := st.opt + [t];
        case TOpen =>
          st.args := st.args + [1];
          st.opt := st.opt + [t];
        case _ =>
          st.opt := st.opt + [t];
      }
      return Ok(());
    }

    method ReInit()
      requires reader.Valid()
      modifies this`compiled, this`ifElseCounter, reader, rpn
      ensures Valid() && !compiled && rpn.Valid() && rpn.rpn == [] && ifElseCounter == 0 && reader.Valid()
      ensures reader.formula == old(reader.formula) && reader.Here() == Start(reader.formula)
    {
      compiled := false;
      rpn.Clear();
      reader.ReInit();
      ifElseCounter := 0;
    }

    // Reads and dispatches tokens up to the end of the formula.
    method CompileTokens(st: Stacks) returns (r: Result<()>)
      requires reader.Valid() && rpn.Valid()
      modifies this`ifElseCounter, reader, rpn, st
      ensures reader.Valid() && reader.formula == old(reader.formula)
      ensures
        var goal := CreateFrom(Definitions(), old(reader.Here()), old(Now(st)));
        && (r.Ok? ==> rpn.Valid() && Finish(Now(st)) == goal)
        && (r.Err? ==> goal == Err(r.error))
    {
      hide Recognise, Yard.Dispatch, Finish, Position, Maximum;
      while true
        invariant reader.Valid() && rpn.Valid() && reader.formula == old(reader.formula)
        invariant CreateFrom(Definitions(), reader.Here(), Now(st))
               == CreateFrom(Definitions(), old(reader.Here()), old(Now(st)))
        decreases |reader.formula| - reader.pos
      {
        ghost var c, s := reader.Here(), Now(st);
        assert |c.rest| == |reader.formula| - reader.pos;
        var opt :- reader.ReadNextToken(Definitions());
        assert Now(st) == s;
        EndOnlyAtEnd(Definitions(), c);
        r := Dispatch(st, opt);
        if r.Err? { return; }
        st.last := Some(opt);
        assert Read(s, opt) == Ok(Now(st));
        if opt == TEnd { return Ok(()); }
        assert |reader.Here().rest| == |c.rest| - 1;
      }
    }

    // Compiles the formula anew; the buffer gets one slice for each thread.
    method CreateRPN() returns (r: Result<()>)
      requires reader.Valid()
      modifies this`compiled, this`ifElseCounter, this`stackBuffer, this`finalResultIdx, reader, rpn
      ensures reader.Valid() && reader.formula == old(reader.formula) && !compiled
      ensures r.Ok? ==>
                && Correctness.CreateRPN(Definitions(), reader.formula) == Ok(Program(rpn.rpn, finalResultIdx))
                && stackBuffer.Length == MAX_THREADS * (Maximum(rpn.rpn) + 1) && fresh(stackBuffer)
      ensures r.Err? ==> Correctness.CreateRPN(Definitions(), reader.formula) == Err(r.error)
    {
      hide Correctness.CreateRPN, CreateFrom, Finish, Maximum, Position, Valid, Start;
      ReInit();
      r := CompileAll();
      if r.Ok? { Reserve(); }
    }

    // Room for every thread's slice.
    method Reserve()
      requires rpn.maxStack == Maximum(rpn.rpn)
      modifies this`stackBuffer
      ensures stackBuffer.Length == MAX_THREADS * (Maximum(rpn.rpn) + 1) && fresh(stackBuffer)
    {
      hide Maximum;
      stackBuffer := new Value[rpn.GetMaxStackSize() * MAX_THREADS];
    }

    method CompileAll() returns (r: Result<()>)
      requires reader.Valid() && rpn.Valid() && rpn.rpn == [] && ifElseCounter == 0
      requires reader.Here() == Start(reader.formula)
      modifies this`ifElseCounter, this`finalResultIdx, reader, rpn
      ensures reader.Valid() && reader.formula == old(reader.formula)
      ensures r.Ok? ==>
                && Correctness.CreateRPN(Definitions(), reader.formula) == Ok(Program(rpn.rpn, finalResultIdx))
                && rpn.maxStack == Maximum(rpn.rpn)
      ensures r.Err? ==> Correctness.CreateRPN(Definitions(), reader.formula) == Err(r.error)
    {
      hide CreateFrom, Finish, Maximum, Position;
      var st := new Stacks();
      assert Now(st) == INITIAL;
      r := CompileTokens(st);
      if r.Err? { return; }
      r := Complete(st);
    }

    // Finalises the code and makes the checks that follow the last token.
    method Complete(st: Stacks) returns (r: Result<()>)
      requires rpn.Valid()
      modifies this`finalResultIdx, rpn
      ensures r.Ok? ==> Finish(old(Now(st))) == Ok(Program(rpn.rpn, finalResultIdx)) && rpn.maxStack == Maximum(rpn.rpn)
      ensures r.Err? ==> Finish(old(Now(st))) == Err(r.error)
    {
      hide Finalized, Maximum, Position;
      r := rpn.Finalize();
      if r.Err? { return; }
      if ifElseCounter > 0 { return Err(MissingElseClause); }
      if st.args == [] { return Err(StackEmpty); }
      finalResultIdx := st.args[|st.args| - 1];
      if finalResultIdx == 0 { return Err(Internal); }
      if st.vals == 0 { return Err(EmptyExpression); }
      return Ok(());
    }

    // ----- Running -----

    // Where a thread's slice of the buffer starts, and how many positions it has above position 0.
    function Base(thread: nat): int
      reads this
    {
      thread * (stackBuffer.Length / MAX_THREADS)
    }

    // Positions 1.. of the slice hold the machine's stack.
    ghost predicate Holds(base: nat, stack: seq<Value>)
      reads this, stackBuffer
    {
      && base + |stack| < stackBuffer.Length
      && forall k :: 0 <= k < |stack| ==> stackBuffer[base + 1 + k] == stack[k]
    }

    // What lies outside positions 1..room of a slice.
    twostate predicate OthersKept(base: nat, room: nat)
      reads this, stackBuffer
    {
      && stackBuffer == old(stackBuffer)
      && forall k :: 0 <= k < stackBuffer.Length && !(base < k <= base + room) ==> stackBuffer[k] == old(stackBuffer[k])
    }

    // Writes the position above the first `|rest|`, which becomes the top.
    method Put(base: nat, v: Value, ghost rest: seq<Value>, ghost room: nat, sidx: nat)
      requires Holds(base, rest) && sidx == |rest| + 1 <= room && base + room < stackBuffer.Length
      modifies stackBuffer
      ensures OthersKept(base, room) && Holds(base, rest + [v])
    {
      stackBuffer[base + sidx] := v;
    }

    method Operate(a: Algebra, op: BinOp, base: nat, sidx: nat, ghost stack: seq<Value>, ghost room: nat)
      requires Holds(base, stack) && 2 <= |stack| == sidx <= room && base + room < stackBuffer.Length
      modifies stackBuffer
      ensures OthersKept(base, room)
      ensures Holds(base, stack[..sidx - 2] + [a.Binary(op, stack[sidx - 2], stack[sidx - 1])])
    {
      var v := a.Binary(op, stackBuffer[base + sidx - 1], stackBuffer[base + sidx]);
      Put(base, v, stack[..sidx - 2], room, sidx - 1);
    }

    // The callback reads its arguments from the buffer; its value replaces them.
    method Invoke(a: Algebra, fn: nat, n: nat, base: nat, sidx: nat, ghost stack: seq<Value>, ghost room: nat)
      requires Holds(base, stack) && n <= |stack| == sidx && sidx - n + 1 <= room && base + room < stackBuffer.Length
      modifies stackBuffer
      ensures OthersKept(base, room)
      ensures Holds(base, stack[..sidx - n] + [a.call(fn, stack[sidx - n..])])
    {
      var at := base + sidx - n + 1;
      assert stackBuffer[at..at + n] == stack[sidx - n..];
      Put(base, a.call(fn, stackBuffer[at..at + n]), stack[..sidx - n], room, sidx - n + 1);
    }

    // One instruction, on the buffer in place.
    method Execute(
      a: Algebra, mem: Memory, code: seq<Instr>, pc: nat, base: nat, sidx: nat,
      ghost stack: seq<Value>, ghost room: nat)
      returns (pc': nat, sidx': nat)
      requires pc < |code| && !code[pc].IEnd?
      requires Holds(base, stack) && |stack| == sidx <= room && base + room < stackBuffer.Length
      requires
        var next := Step(a, mem, Config(code[pc..], stack));
        next.Ok? && |next.value.stack| <= room
      modifies stackBuffer
      ensures OthersKept(base, room)
      ensures
        var next := Step(a, mem, Config(code[pc..], stack)).value;
        pc < pc' <= |code| && next.code == code[pc'..] && sidx' == |next.stack| && Holds(base, next.stack)
    {
      assert code[pc..][0] == code[pc] && code[pc..][1..] == code[pc + 1..];
      match code[pc] {
        case IVar(addr) =>
          pc', sidx' := pc + 1, sidx + 1;
          Put(base, mem(addr), stack, room, sidx');
        case IVal(v) =>
          pc', sidx' := pc + 1, sidx + 1;
          Put(base, v, stack, room, sidx');
        case IOp(op) =>
          pc', sidx' := pc + 1, sidx - 1;
          Operate(a, op, base, sidx, stack, room);
        case IFun(fn, argc) =>
          pc', sidx' := pc + 1, sidx - CallSize(argc) + 1;
          Invoke(a, fn, CallSize(argc), base, sidx, stack, room);
        case IIf(offset) =>
          sidx' := sidx - 1;
          assert code[pc..][1 + offset.value..] == code[pc + offset.value + 1..];
          pc' := if a.IsZero(stackBuffer[base + sidx]) then pc + offset.value + 1 else pc + 1;
        case IElse(offset) =>
          assert code[pc..][1 + offset.value..] == code[pc + offset.value + 1..];
          pc', sidx' := pc + offset.value + 1, sidx;
        case IEndIf =>
          pc', sidx' := pc + 1, sidx;
      }
    }

    // The machine loop, in the thread's own slice of the buffer: no other position is touched.
    method ParseCmdCodeBulk(a: Algebra, mem: Memory, offset: nat, thread: nat) returns (v: Value)
      requires thread < MAX_THREADS && stackBuffer.Length == MAX_THREADS * (Maximum(rpn.rpn) + 1)
      requires Safe(a, Shift(mem, offset), Program(rpn.rpn, finalResultIdx))
      modifies stackBuffer
      ensures OthersKept(Base(thread), Maximum(rpn.rpn))
      ensures
        var results := Outcome(a, Shift(mem, offset), Program(rpn.rpn, finalResultIdx));
        Holds(Base(thread), results) && v == results[finalResultIdx - 1]
    {
      hide Position, Maximum, Step;
      SliceFits(thread);
      var base, code := Base(thread), rpn.rpn;
      ghost var m, room := Shift(mem, offset), Maximum(rpn.rpn);
      ghost var stack: seq<Value> := [];
      var pc, sidx := 0, 0;
      assert code[0..] == code;
      while !code[pc].IEnd?
        invariant pc < |code| && sidx == |stack| && Holds(base, stack)
        invariant HeightsFit(a, m, code, Config(code[pc..], stack))
        invariant Run(a, m, Config(code[pc..], stack)) == Run(a, m, Config(code, []))
        invariant OthersKept(base, room)
        decreases |code| - pc
      {
        ghost var c := Config(code[pc..], stack);
        assert !AtEnd(c);
        ghost var next := Step(a, m, c).value;
        HeightWithinMaximum(a, m, code, c);
        HeightWithinMaximum(a, m, code, next);
        pc, sidx := Execute(a, Shift(mem, offset), code, pc, base, sidx, stack, room);
        stack := next.stack;
      }
      return stackBuffer[base + finalResultIdx];
    }

    lemma SliceFits(thread: nat)
      requires thread < MAX_THREADS && stackBuffer.Length == MAX_THREADS * (Maximum(rpn.rpn) + 1)
      ensures 0 <= Base(thread) && Base(thread) + Maximum(rpn.rpn) < stackBuffer.Length
    {
      var size := Maximum(rpn.rpn) + 1;
      assert stackBuffer.Length / MAX_THREADS == size;
      if {
        case thread == 0 => assert Base(thread) == 0;
        case thread == 1 => assert Base(thread) == size;
        case thread == 2 => assert Base(thread) == 2 * size;
        case thread == 3 => assert Base(thread) == 3 * size;
      }
    }

    // The first evaluation after a change compiles; later ones run the cached bytecode. Either way
    // the result is that of a fresh compilation run under the present values of the variables.
    method Eval(a: Algebra, mem: Memory) returns (r: Result<Value>)
      requires Valid() && SafeFormula(a, mem, Definitions(), reader.formula)
      modifies this`compiled, this`ifElseCounter, this`stackBuffer, this`finalResultIdx, reader, rpn, stackBuffer
      ensures Valid() && reader.formula == old(reader.formula)
      ensures r.Ok? ==> compiled
      ensures r == FreshEval(a, mem, Definitions(), reader.formula)
    {
      hide Correctness.CreateRPN, HeightsFit, Run, Maximum;
      if !compiled {
        r := ParseString(a, mem);
      } else {
        var v := ParseCmdCodeBulk(a, mem, 0, 0);
        r := Ok(v);
      }
    }

    method ParseString(a: Algebra, mem: Memory) returns (r: Result<Value>)
      requires reader.Valid() && SafeFormula(a, mem, Definitions(), reader.formula)
      modifies this`compiled, this`ifElseCounter, this`stackBuffer, this`finalResultIdx, reader, rpn
      ensures Valid() && reader.formula == old(reader.formula)
      ensures r.Ok? ==> compiled
      ensures r == FreshEval(a, mem, Definitions(), reader.formula)
    {
      hide Correctness.CreateRPN, HeightsFit, Run, Maximum;
      var created := CreateRPN();
      if created.Err? { return Err(created.error); }
      compiled := true;
      var v := ParseCmdCodeBulk(a, mem, 0, 0);
      return Ok(v);
    }

    // All values of a comma list, in order.
    method EvalAll(a: Algebra, mem: Memory) returns (r: Result<seq<Value>>)
      requires Valid() && SafeFormula(a, mem, Definitions(), reader.formula)
      modifies this`compiled, this`ifElseCounter, this`stackBuffer, this`finalResultIdx, reader, rpn, stackBuffer
      ensures Valid() && reader.formula == old(reader.formula)
      ensures
        match Correctness.CreateRPN(Definitions(), reader.formula)
        case Err(e) => r == Err(e)
        case Ok(p) => p.results <= |Outcome(a, mem, p)| && r == Ok(Outcome(a, mem, p)[..p.results])
    {
      hide Correctness.CreateRPN, HeightsFit, Run, Maximum;
      if !compiled {
        var created := CreateRPN();
        if created.Err? { return Err(created.error); }
        compiled := true;
      }
      var _ := ParseCmdCodeBulk(a, mem, 0, 0);
      ghost var results := Outcome(a, mem, Program(rpn.rpn, finalResultIdx));
      assert Base(0) == 0 && Shift(mem, 0) == mem && Holds(0, results);
      assert stackBuffer[1..finalResultIdx + 1] == results[..finalResultIdx];
      return Ok(stackBuffer[1..finalResultIdx + 1]);
    }

    // A bulk run: compiles once, then evaluates at each offset from the variables' addresses.
    method EvalBulk(a: Algebra, mem: Memory, results: array<Value>) returns (r: Result<()>)
      requires Valid() && results != stackBuffer
      requires forall i: nat :: i < results.Length ==> SafeFormula(a, Shift(mem, i), Definitions(), reader.formula)
      modifies this`compiled, this`ifElseCounter, this`stackBuffer, this`finalResultIdx, reader, rpn, results
      ensures Valid() && reader.formula == old(reader.formula)
      ensures r.Ok? <==> Correctness.CreateRPN(Definitions(), reader.formula).Ok?
      ensures r.Ok? ==> forall i: nat :: i < results.Length ==>
                SafeFormula(a, Shift(mem, i), Definitions(), reader.formula) &&
                Ok(results[i]) == FreshEval(a, Shift(mem, i), Definitions(), reader.formula)
    {
      hide Correctness.CreateRPN, HeightsFit, Run, Maximum;
      r := CreateRPN();
      if r.Err? { return; }
      for i := 0 to results.Length
        invariant reader.formula == old(reader.formula) && reader.Valid() && !compiled
        invariant Correctness.CreateRPN(Definitions(), reader.formula) == Ok(Program(rpn.rpn, finalResultIdx))
        invariant stackBuffer.Length == MAX_THREADS * (Maximum(rpn.rpn) + 1) && fresh(stackBuffer)
        invariant forall k: nat :: k < i ==>
                    Ok(results[k]) == FreshEval(a, Shift(mem, k), Definitions(), reader.formula)
      {
        var v := ParseCmdCodeBulk(a, mem, i, 0);
        results[i] := v;
      }
    }

    // ----- Changing what the formula means: every change drops the cached bytecode -----

    // Refused when the locale writes the argument separator as its decimal point.
    method SetExpr(f: seq<Lexeme>, decimalIsSeparator: bool) returns (r: Result<()>)
      requires Valid()
      modifies this`compiled, this`ifElseCounter, reader, rpn
      ensures Valid() && (r.Ok? <==> !decimalIsSeparator)
      ensures r.Ok? ==> !compiled && reader.formula == f
      ensures r.Err? ==> r.error == LocaleClash && compiled == old(compiled) && reader.formula == old(reader.formula)
    {
      hide Correctness.CreateRPN, Maximum, Position;
      if decimalIsSeparator { return Err(LocaleClash); }
      reader.SetFormula(f);
      ReInit();
      return Ok(());
    }

    method DefineVar(name: string, addr: Option<nat>) returns (r: Result<()>)
      requires Valid()
      modifies this`varDef, this`compiled, this`ifElseCounter, reader, rpn
      ensures Valid() && reader.formula == old(reader.formula)
      ensures r.Ok? <==> addr.Some? && name !in constDef && ValidName(name)
      ensures r.Ok? ==> !compiled && varDef == old(varDef)[name := addr.value]
      ensures r.Err? ==> varDef == old(varDef) && compiled == old(compiled)
    {
      hide Correctness.CreateRPN, Maximum, Position, ValidName;
      if addr.None? { return Err(InvalidVarPtr); }
      if name in constDef { return Err(NameConflict); }
      if !ValidName(name) { return Err(InvalidName); }
      varDef := varDef[name := addr.value];
      ReInit();
      return Ok(());
    }

    method DefineConst(name: string, v: Value) returns (r: Result<()>)
      requires Valid()
      modifies this`constDef, this`compiled, this`ifElseCounter, reader, rpn
      ensures Valid() && reader.formula == old(reader.formula)
      ensures r.Ok? <==> ValidName(name)
      ensures r.Ok? ==> !compiled && constDef == old(constDef)[name := v]
      ensures r.Err? ==> constDef == old(constDef) && compiled == old(compiled)
    {
      hide Correctness.CreateRPN, Maximum, Position, ValidName;
      if !ValidName(name) { return Err(InvalidName); }
      constDef := constDef[name := v];
      ReInit();
      return Ok(());
    }

    method DefineFun(name: string, f: Option<Fun>) returns (r: Result<()>)
      requires Valid()
      modifies this`funDef, this`compiled, this`ifElseCounter, reader, rpn
      ensures Valid() && reader.formula == old(reader.formula)
      ensures r.Ok? <==> f.Some? && ValidName(name)
      ensures r.Ok? ==> !compiled && funDef == old(funDef)[name := f.value]
      ensures r.Err? ==> funDef == old(funDef) && compiled == old(compiled)
    {
      hide Correctness.CreateRPN, Maximum, Position, ValidName;
      if f.None? { return Err(InvalidFunPtr); }
      if !ValidName(name) { return Err(InvalidName); }
      funDef := funDef[name := f.value];
      ReInit();
      return Ok(());
    }

    method DefineInfixOprt(sign: BinOp, u: Option<Infix>) returns (r: Result<()>)
      requires Valid()
      modifies this`infixDef, this`compiled, this`ifElseCounter, reader, rpn
      ensures Valid() && reader.formula == old(reader.formula)
      ensures r.Ok? <==> u.Some?
      ensures r.Ok? ==> !compiled && infixDef == old(infixDef)[sign := u.value]
      ensures r.Err? ==> infixDef == old(infixDef) && compiled == old(compiled)
    {
      hide Correctness.CreateRPN, Maximum, Position, ValidName;
      if u.None? { return Err(InvalidFunPtr); }
      infixDef := infixDef[sign := u.value];
      ReInit();
      return Ok(());
    }

    method RemoveVar(name: string)
      requires Valid()
      modifies this`varDef, this`compiled, this`ifElseCounter, reader, rpn
      ensures Valid() && reader.formula == old(reader.formula)
      ensures varDef == old(varDef) - {name}
      ensures if name in old(varDef) then !compiled else compiled == old(compiled)
    {
      hide Correctness.CreateRPN, Maximum, Position, ValidName;
      if name in varDef {
        varDef := varDef - {name};
        ReInit();
      }
    }

    method ClearVar()
      requires Valid()
      modifies this`varDef, this`compiled, this`ifElseCounter, reader, rpn
      ensures Valid() && !compiled && varDef == map[] && reader.formula == old(reader.formula)
    {
      hide Correctness.CreateRPN, Maximum, Position, ValidName;
      varDef := map[];
      ReInit();
    }

    method ClearConst()
      requires Valid()
      modifies this`constDef, this`compiled, this`ifElseCounter, reader, rpn
      ensures Valid() && !compiled && constDef == map[] && reader.formula == old(reader.formula)
    {
      hide Correctness.CreateRPN, Maximum, Position, ValidName;
      constDef := map[];
      ReInit();
    }

    method ClearFun()
      requires Valid()
      modifies this`funDef, this`compiled, this`ifElseCounter, reader, rpn
      ensures Valid() && !compiled && funDef == map[] && reader.formula == old(reader.formula)
    {
      hide Correctness.CreateRPN, Maximum, Position, ValidName;
      funDef := map[];
      ReInit();
    }

    method ClearInfixOprt()
      requires Valid()
      modifies this`infixDef, this`compiled, this`ifElseCounter, reader, rpn
      ensures Valid() && !compiled && infixDef == map[] && reader.formula == old(reader.formula)
    {
      hide Correctness.CreateRPN, Maximum, Position, ValidName;
      infixDef := map[];
      ReInit();
    }

    method EnableBuiltInOprt(on: bool)
      requires Valid()
      modifies this`builtInOp, this`compiled, this`ifElseCounter, reader, rpn
      ensures Valid() && !compiled && builtInOp == on && reader.formula == old(reader.formula)
    {
      hide Correctness.CreateRPN, Maximum, Position, ValidName;
      builtInOp := on;
      ReInit();
    }
  }

  // ----- What an evaluation means -----

  predicate NameChar(c: char) {
    '0' <= c <= '9' || 'a' <= c <= 'z' || 'A' <= c <= 'Z' || c == '_'
  }

  // Not empty, name characters only, no digit in front.
  predicate ValidName(name: string) {
    name != "" && (forall i :: 0 <= i < |name| ==> NameChar(name[i])) && !('0' <= name[0] <= '9')
  }

  // One character is a name if it is a letter or an underscore; a name stays one when a
  // letter, an underscore or a digit is added, and by nothing else.
  lemma NamesGrow(name: string, c: char)
    ensures var letter := 'a' <= c <= 'z' || 'A' <= c <= 'Z' || c == '_';
            && !ValidName("")
            && (ValidName([c]) <==> letter)
            && (name != "" ==> (ValidName(name + [c]) <==> ValidName(name) && (letter || '0' <= c <= '9')))
  {
    var longer := name + [c];
    assert longer[|name|] == c && forall i :: 0 <= i < |name| ==> longer[i] == name[i];
  }

  // The code runs within its stack and leaves at least as many values as the formula has results.
  ghost predicate Safe(a: Algebra, mem: Memory, p: Program) {
    && HeightsFit(a, mem, p.code, Config(p.code, []))
    && Run(a, mem, Config(p.code, [])).Ok?
    && 1 <= p.results <= |Run(a, mem, Config(p.code, [])).value|
  }

  ghost predicate SafeFormula(a: Algebra, mem: Memory, d: Defs, formula: seq<Lexeme>) {
    CreateRPN(d, formula).Ok? ==> Safe(a, mem, CreateRPN(d, formula).value)
  }

  ghost function Outcome(a: Algebra, mem: Memory, p: Program): seq<Value>
    requires Safe(a, mem, p)
  {
    Run(a, mem, Config(p.code, [])).value
  }

  // Compile from scratch and run.
  ghost function FreshEval(a: Algebra, mem: Memory, d: Defs, formula: seq<Lexeme>): Result<Value>
    requires SafeFormula(a, mem, d, formula)
  {
    match CreateRPN(d, formula)
    case Err(e) => Err(e)
    case Ok(p) => Ok(Outcome(a, mem, p)[p.results - 1])
  }

  lemma HeightWithinMaximum(a: Algebra, mem: Memory, full: seq<Instr>, c: Config)
    requires HeightsFit(a, mem, full, c)
    ensures |c.stack| <= Maximum(full)
  {
    PositionBelowMaximum(full, |full| - |c.code|);
  }

  // Every printed comma list is safe to evaluate, and evaluates to its last tree's meaning.
  lemma PrintedEvaluates(a: Algebra, mem: Memory, d: Defs, es: seq<Tree>)
    requires es != [] && AllAgree(d, es)
    ensures SafeFormula(a, mem, d, SpellList(es))
    ensures AllArityOk(es) ==>
              && FreshEval(a, mem, d, SpellList(es)) == Ok(Meaning(a, mem, es[|es| - 1]))
              && Outcome(a, mem, CreateRPN(d, SpellList(es)).value) == Meanings(a, mem, es)
    ensures !AllArityOk(es) ==> FreshEval(a, mem, d, SpellList(es)).Err?
  {
    hide CreateRPN, HeightsFit, Run, SpellList, AllAgree;
    FormulaCompiles(d, es);
    if AllArityOk(es) {
      CompiledFormula(d, es, a, mem);
      LastMeaning(a, mem, es);
    }
  }

  lemma {:induction false} LastMeaning(a: Algebra, mem: Memory, es: seq<Expr>)
    requires es != []
    ensures Meanings(a, mem, es)[|es| - 1] == Meaning(a, mem, es[|es| - 1])
  {
    if |es| > 1 {
      LastMeaning(a, mem, es[1..]);
    }
  }
}
