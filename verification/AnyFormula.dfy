/** What holds of every formula, well formed or not: the code emitted so far
    always pairs its jumps, so finalising cannot fail, and the unsigned stack
    position never falls below the height of the value stack. */
module AnyFormula {
  import opened Formula
  import opened ByteCode
  import opened TokenReader
  import opened Yard
  import opened Correctness

  function Ifs(code: seq<Instr>): nat {
    if code == [] then 0 else Ifs(code[..|code| - 1]) + if code[|code| - 1].IIf? then 1 else 0
  }

  function Elses(code: seq<Instr>): nat {
    if code == [] then 0 else Elses(code[..|code| - 1]) + if code[|code| - 1].IElse? then 1 else 0
  }

  function EndIfs(code: seq<Instr>): nat {
    if code == [] then 0 else EndIfs(code[..|code| - 1]) + if code[|code| - 1].IEndIf? then 1 else 0
  }

  // After every prefix: no ELSE without an IF, no ENDIF without an ELSE, no negative position.
  predicate Sound(code: seq<Instr>) {
    code == [] ||
    (Sound(code[..|code| - 1]) && EndIfs(code) <= Elses(code) <= Ifs(code) && Position(code) >= 0)
  }

  function PendingElses(opt: seq<Token>): nat {
    if opt == [] then 0 else PendingElses(opt[..|opt| - 1]) + if opt[|opt| - 1] == TElse then 1 else 0
  }

  predicate AllPositive(args: seq<int>) {
    forall k :: 0 <= k < |args| ==> args[k] >= 1
  }

  // Ternaries begun whose colon has not been read.
  function Open(s: State): int {
    Ifs(s.code) - Elses(s.code)
  }

  predicate Inv(s: State) {
    && Sound(s.code)
    && PendingElses(s.opt) + EndIfs(s.code) <= Elses(s.code)
    && s.vals <= Position(s.code)
  }

  // An opening bracket just read is on top of the operators, its counter fresh.
  predicate Fresh(s: State) {
    AllPositive(s.args) && (s.last == Some(TOpen) ==> s.opt != [] && s.opt[|s.opt| - 1] == TOpen)
  }

  // Applying operators closes ternaries but opens and switches none, and leaves the counters alone.
  predicate Counts(s: State, s': State) {
    Open(s') == Open(s) && s'.ifElse == s.ifElse && s'.args == s.args && s'.last == s.last
  }

  // Kept by every token of every stream.
  predicate Whole(s: State) {
    Inv(s) && Fresh(s) && s.ifElse == Open(s)
  }

  lemma Grow(code: seq<Instr>, i: Instr)
    ensures Ifs(code + [i]) == Ifs(code) + (if i.IIf? then 1 else 0)
    ensures Elses(code + [i]) == Elses(code) + (if i.IElse? then 1 else 0)
    ensures EndIfs(code + [i]) == EndIfs(code) + (if i.IEndIf? then 1 else 0)
    ensures Position(code + [i]) == Position(code) + Delta(i)
    ensures Sound(code + [i]) <==>
            Sound(code) && EndIfs(code + [i]) <= Elses(code + [i]) <= Ifs(code + [i]) && Position(code + [i]) >= 0
  {
    assert (code + [i])[..|code|] == code;
  }

  lemma Push(opt: seq<Token>, t: Token)
    ensures PendingElses(opt + [t]) == PendingElses(opt) + if t == TElse then 1 else 0
  {
    assert (opt + [t])[..|opt|] == opt;
  }

  lemma Pop(opt: seq<Token>)
    requires opt != []
    ensures PendingElses(opt) == PendingElses(opt[..|opt| - 1]) + if opt[|opt| - 1] == TElse then 1 else 0
  {
  }

  lemma SoundCounts(code: seq<Instr>)
    requires Sound(code)
    ensures EndIfs(code) <= Elses(code) <= Ifs(code) && Position(code) >= 0
  {
  }

  lemma KeptByFunc(s: State, argCount: int)
    requires Inv(s) && argCount >= 0 && ApplyFunc(s, argCount).Ok?
    ensures Inv(ApplyFunc(s, argCount).value) && Counts(s, ApplyFunc(s, argCount).value)
  {
    hide Sound, Position, Ifs, Elses, EndIfs, PendingElses;
    if s.opt != [] && IsCallback(s.opt[|s.opt| - 1]) {
      var fun := s.opt[|s.opt| - 1];
      SoundCounts(s.code);
      Grow(s.code, IFun(Callback(fun), if ArgCount(fun) == -1 then -argCount else argCount));
      Pop(s.opt);
    }
  }

  lemma KeptByBin(s: State)
    requires Inv(s) && s.opt != [] && s.opt[|s.opt| - 1].TOp? && ApplyBinOprt(s).Ok?
    ensures Inv(ApplyBinOprt(s).value) && Counts(s, ApplyBinOprt(s).value)
  {
    hide Sound, Position, Ifs, Elses, EndIfs, PendingElses;
    SoundCounts(s.code);
    Grow(s.code, IOp(s.opt[|s.opt| - 1].op));
    Pop(s.opt);
  }

  lemma KeptByClose(s: State)
    requires Inv(s) && s.opt != [] && s.opt[|s.opt| - 1] == TElse && CloseIfElse(s).Ok?
    ensures Inv(CloseIfElse(s).value) && Counts(s, CloseIfElse(s).value)
  {
    hide Sound, Position, Ifs, Elses, EndIfs, PendingElses;
    SoundCounts(s.code);
    Grow(s.code, IEndIf);
    Pop(s.opt);
    Pop(s.opt[..|s.opt| - 1]);
    assert s.opt[..|s.opt| - 1][..|s.opt| - 2] == s.opt[..|s.opt| - 2];
  }

  lemma {:induction false} KeptByIfElse(s: State)
    requires Inv(s) && ApplyIfElse(s).Ok?
    ensures Inv(ApplyIfElse(s).value) && Counts(s, ApplyIfElse(s).value)
    decreases |s.opt|
  {
    hide Inv, Open;
    if s.opt != [] && s.opt[|s.opt| - 1] == TElse {
      KeptByClose(s);
      KeptByIfElse(CloseIfElse(s).value);
    }
  }

  lemma KeptByTop(s: State)
    requires Inv(s) && s.opt != [] && ApplyTop(s).Ok?
    ensures Inv(ApplyTop(s).value) && Counts(s, ApplyTop(s).value)
  {
    hide Inv, Open;
    match s.opt[|s.opt| - 1] {
      case TInfix(_) => KeptByFunc(s, 1);
      case TOp(_) => KeptByBin(s);
      case TElse => KeptByIfElse(s);
      case _ =>
    }
  }

  lemma {:induction false} KeptByRemaining(s: State)
    requires Inv(s) && ApplyRemaining(s).Ok?
    ensures Inv(ApplyRemaining(s).value) && Counts(s, ApplyRemaining(s).value)
    decreases |s.opt|
  {
    hide Inv, Open, ApplyTop;
    if !Halts(s.opt) {
      KeptByTop(s);
      KeptByRemaining(ApplyTop(s).value);
    }
  }

  lemma {:induction false} KeptByTighter(s: State, next: Token)
    requires Inv(s) && Precedence(next).Some? && ApplyTighter(s, next).Ok?
    ensures Inv(ApplyTighter(s, next).value) && Counts(s, ApplyTighter(s, next).value)
    decreases |s.opt|
  {
    hide Inv, Open, ApplyTop, Yields;
    if !Shielded(s.opt) && ApplyTighter(s, next) != Ok(s) {
      KeptByTop(s);
      KeptByTighter(ApplyTop(s).value, next);
    }
  }

  lemma HaltedStays(s: State)
    requires Halts(s.opt)
    ensures ApplyRemaining(s) == Ok(s)
  {
  }

  // The closing bracket takes its counter along, and no counter but its own can have reached zero.
  lemma KeptByBracket(s: State)
    requires Inv(s) && Fresh(s) && CloseBracket(s).Ok?
    ensures
      var s' := CloseBracket(s).value;
      Inv(s') && Open(s') == Open(s) && s'.ifElse == s.ifElse && AllPositive(s'.args)
  {
    hide ApplyFunc, ApplyRemaining, Sound, Position, Open;
    var s1 := if s.last == Some(TOpen) then s.(args := Bump(s.args, -1)) else s;
    assert Open(s1) == Open(s) by { SameCode(s, s1); }
    KeptByRemaining(s1);
    var s2 := ApplyRemaining(s1).value;
    if s.last == Some(TOpen) {
      HaltedStays(s1);
    }
    if s2.opt != [] && s2.opt[|s2.opt| - 1] == TOpen && s2.args != [] {
      var s3 := s2.(args := s2.args[..|s2.args| - 1], opt := s2.opt[..|s2.opt| - 1]);
      SameCode(s2, s3);
      if s3.opt != [] && s3.opt[|s3.opt| - 1].TFun? {
        KeptByFunc(s3, s2.args[|s2.args| - 1]);
      }
    }
  }

  lemma SameCode(s: State, s': State)
    requires s.code == s'.code
    ensures Open(s) == Open(s')
  {
  }

  lemma KeptByColon(s: State)
    requires Whole(s) && Dispatch(s, TElse).Ok?
    ensures Inv(Dispatch(s, TElse).value) && Dispatch(s, TElse).value.ifElse == Open(Dispatch(s, TElse).value)
    ensures Dispatch(s, TElse).value.args == s.args
  {
    hide ApplyRemaining, Sound, Position, Ifs, Elses, EndIfs, PendingElses;
    var s1 := s.(ifElse := s.ifElse - 1);
    KeptByRemaining(s1);
    var s2 := ApplyRemaining(s1).value;
    Grow(s2.code, IElse(None));
    SoundCounts(s2.code);
    Push(s2.opt, TElse);
  }

  lemma KeptByQuestion(s: State)
    requires Whole(s) && Dispatch(s, TIf).Ok?
    ensures Inv(Dispatch(s, TIf).value) && Dispatch(s, TIf).value.ifElse == Open(Dispatch(s, TIf).value)
    ensures Dispatch(s, TIf).value.args == s.args
  {
    hide ApplyTighter, Sound, Position, Ifs, Elses, EndIfs, PendingElses;
    var s1 := s.(ifElse := s.ifElse + 1);
    KeptByTighter(s1, TIf);
    var s2 := ApplyTighter(s1, TIf).value;
    Grow(s2.code, IIf(None));
    SoundCounts(s2.code);
    Push(s2.opt, TIf);
  }

  lemma KeptByValue(s: State, t: Token)
    requires Whole(s) && (t.TVar? || t.TVal?)
    ensures Whole(Read(s, t).value)
  {
    hide Sound, Position, Ifs, Elses, EndIfs;
    Grow(s.code, if t.TVar? then IVar(t.addr) else IVal(t.val));
    SoundCounts(s.code);
  }

  lemma KeptByOperator(s: State, t: Token)
    requires Whole(s) && t.TOp? && Read(s, t).Ok?
    ensures Whole(Read(s, t).value)
  {
    hide ApplyTighter, Sound, Position, Ifs, Elses, EndIfs;
    KeptByTighter(s, t);
    Push(ApplyTighter(s, t).value.opt, t);
  }

  lemma KeptByComma(s: State)
    requires Whole(s) && Read(s, TSep).Ok?
    ensures Whole(Read(s, TSep).value)
  {
    hide ApplyRemaining, Sound, Position, Ifs, Elses, EndIfs;
    KeptByRemaining(s.(args := Bump(s.args, 1)));
  }

  lemma KeptByToken(s: State, t: Token)
    requires Whole(s) && Read(s, t).Ok?
    ensures Whole(Read(s, t).value)
  {
    hide ApplyRemaining, ApplyTighter, CloseBracket, Sound, Position, Ifs, Elses, EndIfs;
    match t
    case TVar(_) => KeptByValue(s, t);
    case TVal(_) => KeptByValue(s, t);
    case TElse => KeptByColon(s);
    case TSep => KeptByComma(s);
    case TEnd => KeptByRemaining(s);
    case TClose => KeptByBracket(s);
    case TIf => KeptByQuestion(s);
    case TOp(_) => KeptByOperator(s, t);
    case _ => Push(s.opt, t);
  }

  lemma {:induction false} KeptByStream(s: State, ts: seq<Token>)
    requires Whole(s) && Feed(s, ts).Ok?
    ensures Whole(Feed(s, ts).value)
    decreases |ts|
  {
    hide Whole, Read;
    if ts != [] {
      KeptByToken(s, ts[0]);
      KeptByStream(Read(s, ts[0]).value, ts[1..]);
    }
  }

  // ----- Finalising -----

  // The scan's index stacks hold the jumps the code so far has left open.
  predicate Awaits(s: Scan, pre: seq<Instr>) {
    s.Marked() && |s.ifs| == Ifs(pre) - Elses(pre) && |s.elses| == Elses(pre) - EndIfs(pre)
  }

  lemma {:induction false} SoundFront(a: seq<Instr>, b: seq<Instr>)
    requires Sound(a + b)
    ensures Sound(a)
    decreases |b|
  {
    if b == [] {
      assert a + b == a;
    } else {
      assert (a + b)[..|a + b| - 1] == a + b[..|b| - 1];
      SoundFront(a, b[..|b| - 1]);
    }
  }

  lemma AwaitsOn(s: Scan, pre: seq<Instr>, i: Instr)
    requires Awaits(s, pre) && Sound(pre + [i])
    ensures s.Next(i).Ok? && Awaits(s.Next(i).value, pre + [i])
  {
    hide Sound, Position;
    Grow(pre, i);
    SoundCounts(pre + [i]);
    SoundFront(pre, [i]);
    SoundCounts(pre);
  }

  lemma PatchNothing(s: Scan)
    requires s.Marked()
    ensures Patch(s, []) == Ok(s.done)
  {
  }

  lemma PatchNext(s: Scan, rest: seq<Instr>)
    requires s.Marked() && rest != [] && s.Next(rest[0]).Ok?
    ensures Patch(s, rest) == Patch(s.Next(rest[0]).value, rest[1..])
  {
  }

  lemma {:induction false} SoundPatches(s: Scan, pre: seq<Instr>, rest: seq<Instr>)
    requires Awaits(s, pre) && Sound(pre + rest)
    ensures Patch(s, rest).Ok?
    decreases |rest|
  {
    assert s.Marked();
    hide Sound, Awaits, Patch;
    if rest == [] {
      PatchNothing(s);
    } else {
      assert pre + rest == pre + [rest[0]] + rest[1..];
      SoundFront(pre + [rest[0]], rest[1..]);
      AwaitsOn(s, pre, rest[0]);
      SoundPatches(s.Next(rest[0]).value, pre + [rest[0]], rest[1..]);
      PatchNext(s, rest);
    }
  }

  lemma NoCounts()
    ensures Ifs([]) == 0 && Elses([]) == 0 && EndIfs([]) == 0
  {
  }

  lemma SoundFinalises(code: seq<Instr>)
    requires Sound(code)
    ensures Finalized(code).Ok?
  {
    hide Patch, Sound, Position, Ifs, Elses, EndIfs;
    Grow(code, IEnd);
    SoundCounts(code);
    NoCounts();
    assert [] + (code + [IEnd]) == code + [IEnd];
    SoundPatches(Scan([], [], []), [], code + [IEnd]);
  }

  lemma InitialWhole()
    ensures Whole(INITIAL)
  {
    assert INITIAL.code == [] && INITIAL.opt == [];
    NoCounts();
  }

  lemma WholeIsSound(s: State)
    requires Whole(s)
    ensures Sound(s.code) && s.vals <= Position(s.code)
  {
  }

  // Whatever tokens were accepted, finalising their code succeeds, and neither the static position
  // nor the value stack has fallen below zero after any instruction.
  lemma AcceptedFinalises(ts: seq<Token>)
    requires Feed(INITIAL, ts).Ok?
    ensures
      var s := Feed(INITIAL, ts).value;
      Finalized(s.code).Ok? && Sound(s.code) && s.vals <= Position(s.code)
  {
    hide Feed, Finalized, Whole, Sound, Position;
    InitialWhole();
    KeptByStream(INITIAL, ts);
    WholeIsSound(Feed(INITIAL, ts).value);
    SoundFinalises(Feed(INITIAL, ts).value.code);
  }

  // ----- Ternaries -----

  function Weight(t: Token): int {
    if t == TIf then 1 else if t == TElse then -1 else 0
  }

  // Question marks less colons.
  function Balance(ts: seq<Token>): int {
    if ts == [] then 0 else Weight(ts[0]) + Balance(ts[1..])
  }

  // The counter follows the ternaries read.
  lemma TernaryStep(s: State, t: Token)
    requires Whole(s) && Read(s, t).Ok?
    ensures Read(s, t).value.ifElse == s.ifElse + Weight(t)
  {
    hide ApplyRemaining, ApplyTighter, CloseBracket, Sound, Position, Ifs, Elses, EndIfs, PendingElses;
    match t
    case TElse => KeptByRemaining(s.(ifElse := s.ifElse - 1));
    case TSep => KeptByRemaining(s.(args := Bump(s.args, 1)));
    case TEnd => KeptByRemaining(s);
    case TClose => KeptByBracket(s);
    case TIf => KeptByTighter(s.(ifElse := s.ifElse + 1), t);
    case TOp(_) => KeptByTighter(s, t);
    case _ =>
  }

  lemma {:induction false} TernariesRead(s: State, ts: seq<Token>)
    requires Whole(s) && Feed(s, ts).Ok?
    ensures Feed(s, ts).value.ifElse == s.ifElse + Balance(ts)
    decreases |ts|
  {
    hide Whole, Read, Weight;
    if ts != [] {
      TernaryStep(s, ts[0]);
      KeptByToken(s, ts[0]);
      TernariesRead(Read(s, ts[0]).value, ts[1..]);
    }
  }

  // An accepted formula has a colon for each of its question marks.
  lemma TernariesPair(d: Defs, f: seq<Lexeme>)
    requires CreateRPN(d, f).Ok? && ReadAll(d, Start(f)).Ok?
    ensures Balance(ReadAll(d, Start(f)).value) == 0
  {
    hide Feed, ReadAll, CreateFrom, Whole, Sound, Position, Balance, Finalized;
    CreateFromTokens(d, Start(f), INITIAL);
    var ts := ReadAll(d, Start(f)).value;
    InitialWhole();
    KeptByStream(INITIAL, ts);
    TernariesRead(INITIAL, ts);
    NoneOpen(Feed(INITIAL, ts).value);
  }

  lemma NoneOpen(s: State)
    requires Whole(s)
    ensures s.ifElse >= 0
  {
    SoundCounts(s.code);
  }
}
