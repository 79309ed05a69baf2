/** What the token reader accepts, told without its flags: which token may stand
    where, for every formula, well formed or not. */
module ReaderRules {
  import opened Sequences
  import opened Formula
  import opened TokenReader
  import opened ByteCode
  import opened Yard
  import opened Correctness
  import AnyFormula

  predicate EndsOperand(t: Token) {
    t.TVal? || t.TVar? || t.TClose?
  }

  // An operand begins: a value, a name or a bracket.
  predicate BeginsOperand(t: Token) {
    t.TVal? || t.TVar? || t.TFun? || t.TOpen?
  }

  // What may come next, going by the last token and whether the one before names a function.
  predicate MayFollow(called: bool, last: Option<Token>, t: Token) {
    match last
    case None => BeginsOperand(t) || t.TInfix? || t.TEnd?
    case Some(TFun(_)) => t.TOpen?
    case Some(TOpen) => BeginsOperand(t) || t.TInfix? || (called && t.TClose?)
    case Some(TOp(_)) => BeginsOperand(t) || t.TInfix?
    case Some(TInfix(_)) => BeginsOperand(t) || t.TIf? || t.TElse? || t.TSep? || t.TEnd?
    case Some(TSep) => BeginsOperand(t) || t.TInfix? || t.TIf? || t.TElse?
    case Some(TIf) => BeginsOperand(t) || t.TInfix? || t.TSep?
    case Some(TElse) => BeginsOperand(t) || t.TInfix? || t.TSep?
    case Some(TEnd) => false
    case Some(_) => t.TOp? || t.TIf? || t.TElse? || t.TSep? || t.TClose? || t.TEnd?
  }

  // How many brackets are open after some tokens.
  function Depth(ts: seq<Token>): int {
    if ts == [] then 0
    else
      var t := ts[|ts| - 1];
      Depth(ts[..|ts| - 1]) + (if t.TOpen? then 1 else if t.TClose? then -1 else 0)
  }

  // The token a lexeme of the formula can stand for; a name is a function only before "(".
  predicate StandsFor(d: Defs, f: seq<Lexeme>, i: nat, t: Token)
    requires i < |f|
  {
    match f[i]
    case LNum(v) => t == TVal(v)
    case LName(n) =>
      if n in d.funs && i + 1 < |f| && f[i + 1] == LOpen then t == TFun(d.funs[n])
      else if n in d.consts then t == TVal(d.consts[n])
      else n in d.vars && t == TVar(d.vars[n])
    case LOp(op) => (d.builtin && t == TOp(op)) || (op in d.infix && t == TInfix(d.infix[op]))
    case LOpen => t == TOpen
    case LClose => t == TClose
    case LQuestion => t == TIf
    case LColon => t == TElse
    case LComma => t == TSep
  }

  function LastOf(done: seq<Token>): Option<Token> {
    if done == [] then None else Some(done[|done| - 1])
  }

  predicate Called(done: seq<Token>) {
    |done| >= 2 && done[|done| - 2].TFun?
  }

  // `t` may be the next token of the formula after `done`.
  predicate MayBeNext(d: Defs, f: seq<Lexeme>, done: seq<Token>, t: Token) {
    && |done| <= |f| && MayFollow(Called(done), LastOf(done), t) && Depth(done + [t]) >= 0
    && if |done| == |f| then t == TEnd && Depth(done) == 0 else StandsFor(d, f, |done|, t)
  }

  // One token for each lexeme and one for the end, each where it may stand.
  predicate WellRead(d: Defs, f: seq<Lexeme>, ts: seq<Token>) {
    |ts| == |f| + 1 && forall i :: 0 <= i < |ts| ==> MayBeNext(d, f, ts[..i], ts[i])
  }

  // ----- The reader keeps to the rules, and accepts whatever does -----

  function FlagsAfter(called: bool, last: Option<Token>): Flags {
    match last
    case None => AT_START
    case Some(TFun(_)) => AFTER_FUN
    case Some(TOpen) => if called then AFTER_FUN_OPEN else AFTER_OPEN
    case Some(TOp(_)) => AFTER_OP
    case Some(TInfix(_)) => AFTER_INFIX
    case Some(TSep) => AFTER_SEP
    case Some(TIf) => AFTER_BRANCH
    case Some(TElse) => AFTER_BRANCH
    case Some(TEnd) => ANY
    case Some(_) => AFTER_OPERAND
  }

  function CursorAt(f: seq<Lexeme>, done: seq<Token>): Cursor
    requires |done| <= |f|
  {
    Cursor(f[|done|..], FlagsAfter(Called(done), LastOf(done)), Depth(done), LastOf(done))
  }

  lemma DepthNext(done: seq<Token>, t: Token)
    ensures Depth(done + [t]) == Depth(done) + (if t.TOpen? then 1 else if t.TClose? then -1 else 0)
  {
    assert (done + [t])[..|done|] == done;
  }

  predicate Permits(f: Flags, t: Token) {
    match t
    case TVal(_) => !f.noVAL
    case TVar(_) => !f.noVAR
    case TFun(_) => !f.noFUN
    case TOpen => !f.noBO
    case TClose => !f.noBC
    case TOp(_) => !f.noOPT
    case TInfix(_) => !f.noINFIX
    case TSep => !f.noSEP
    case TIf => !f.noIF
    case TElse => !f.noELSE
    case TEnd => !f.noEND
  }

  // What each of the reader's flag sets permits.
  lemma PermittedAtStart(t: Token)
    ensures Permits(AT_START, t) <==> BeginsOperand(t) || t.TInfix? || t.TEnd?
    ensures AT_START.noOPT
  {
  }

  lemma PermittedAfterOp(t: Token)
    ensures Permits(AFTER_OP, t) <==> BeginsOperand(t) || t.TInfix?
    ensures AFTER_OP.noOPT
  {
  }

  lemma PermittedAfterOpen(t: Token)
    ensures Permits(AFTER_FUN_OPEN, t) <==> BeginsOperand(t) || t.TInfix? || t.TClose?
    ensures Permits(AFTER_OPEN, t) <==> BeginsOperand(t) || t.TInfix?
    ensures AFTER_FUN_OPEN.noOPT && AFTER_OPEN.noOPT
  {
  }

  lemma PermittedAfterOperand(t: Token)
    ensures Permits(AFTER_OPERAND, t) <==> !BeginsOperand(t) && !t.TInfix?
    ensures AFTER_OPERAND.noINFIX
  {
  }

  lemma PermittedAfterBranch(t: Token)
    ensures Permits(AFTER_BRANCH, t) <==> BeginsOperand(t) || t.TInfix? || t.TSep?
    ensures AFTER_BRANCH.noOPT
  {
  }

  lemma PermittedAfterSep(t: Token)
    ensures Permits(AFTER_SEP, t) <==> BeginsOperand(t) || t.TInfix? || t.TIf? || t.TElse?
    ensures AFTER_SEP.noOPT
  {
  }

  lemma PermittedAfterInfix(t: Token)
    ensures Permits(AFTER_INFIX, t) <==> BeginsOperand(t) || t.TIf? || t.TElse? || t.TSep? || t.TEnd?
    ensures AFTER_INFIX.noINFIX
  {
  }

  lemma PermittedAfterFun(t: Token)
    ensures Permits(AFTER_FUN, t) <==> t.TOpen?
    ensures !Permits(ANY, t) && AFTER_FUN.noOPT && ANY.noOPT
  {
  }

  // The flags forbid exactly what may not follow.
  lemma FlagsForbid(called: bool, last: Option<Token>, t: Token)
    ensures var f := FlagsAfter(called, last);
            (MayFollow(called, last, t) <==> Permits(f, t)) && (f.noOPT || f.noINFIX)
  {
    hide Permits, NOTHING, ANY, AT_START, AFTER_OP, AFTER_FUN_OPEN, AFTER_OPEN, AFTER_OPERAND;
    hide AFTER_BRANCH, AFTER_SEP, AFTER_INFIX, AFTER_FUN;
    match last
    case None => PermittedAtStart(t);
    case Some(TFun(_)) => PermittedAfterFun(t);
    case Some(TEnd) => PermittedAfterFun(t);
    case Some(TOpen) => PermittedAfterOpen(t);
    case Some(TOp(_)) => PermittedAfterOp(t);
    case Some(TInfix(_)) => PermittedAfterInfix(t);
    case Some(TSep) => PermittedAfterSep(t);
    case Some(TIf) => PermittedAfterBranch(t);
    case Some(TElse) => PermittedAfterBranch(t);
    case Some(_) => PermittedAfterOperand(t);
  }

  lemma CallHere(d: Defs, f: seq<Lexeme>, i: nat)
    requires i < |f|
    ensures f[i..][0] == f[i] && |f[i..]| == |f| - i
    ensures IsCall(d, f[i..]) <==> i + 1 < |f| && f[i].LName? && f[i].name in d.funs && f[i + 1] == LOpen
  {
  }

  // What the reader reads from a lexeme it stands for, and the flags permit.
  lemma ReadStands(d: Defs, f: seq<Lexeme>, i: nat, c: Cursor)
    requires i < |f| && c.rest == f[i..] && Recognise(d, c).Ok?
    ensures var t := Recognise(d, c).value.token;
            StandsFor(d, f, i, t) && Permits(c.flags, t) && (t.TClose? ==> c.brackets >= 1)
  {
    CallHere(d, f, i);
    hide IsCall, AT_START, AFTER_OP, AFTER_FUN_OPEN, AFTER_OPEN, AFTER_OPERAND, AFTER_BRANCH;
    hide AFTER_SEP, AFTER_INFIX, AFTER_FUN, ANY, NOTHING;
  }

  lemma StandsRead(d: Defs, f: seq<Lexeme>, i: nat, c: Cursor, t: Token)
    requires i < |f| && c.rest == f[i..] && (c.flags.noOPT || c.flags.noINFIX)
    requires StandsFor(d, f, i, t) && Permits(c.flags, t) && (t.TClose? ==> c.brackets >= 1)
    ensures Recognise(d, c).Ok? && Recognise(d, c).value.token == t
  {
    if f[i].LName? || f[i].LOp? {
      WordRead(d, f, i, c, t);
    } else {
      MarkRead(d, f, i, c, t);
    }
  }

  lemma WordRead(d: Defs, f: seq<Lexeme>, i: nat, c: Cursor, t: Token)
    requires i < |f| && c.rest == f[i..] && (c.flags.noOPT || c.flags.noINFIX) && (f[i].LName? || f[i].LOp?)
    requires StandsFor(d, f, i, t) && Permits(c.flags, t)
    ensures Recognise(d, c).Ok? && Recognise(d, c).value.token == t
  {
    CallHere(d, f, i);
    hide IsCall, AFTER_OP, AFTER_OPERAND, AFTER_INFIX, AFTER_FUN, ANY, NOTHING;
  }

  lemma MarkRead(d: Defs, f: seq<Lexeme>, i: nat, c: Cursor, t: Token)
    requires i < |f| && c.rest == f[i..] && !f[i].LName? && !f[i].LOp?
    requires StandsFor(d, f, i, t) && Permits(c.flags, t) && (t.TClose? ==> c.brackets >= 1)
    ensures Recognise(d, c).Ok? && Recognise(d, c).value.token == t
  {
    assert f[i..][0] == f[i];
    hide IsCall, AFTER_FUN_OPEN, AFTER_OPEN, AFTER_OPERAND, AFTER_BRANCH, AFTER_SEP, ANY, NOTHING;
  }

  lemma EndRead(d: Defs, c: Cursor, t: Token)
    requires c.rest == [] && c.brackets >= 0
    ensures Recognise(d, c).Ok? && Recognise(d, c).value.token == t
       <==> t == TEnd && Permits(c.flags, t) && c.brackets == 0
  {
  }

  lemma NextToken(d: Defs, f: seq<Lexeme>, done: seq<Token>, t: Token)
    requires |done| <= |f| && Depth(done) >= 0
    ensures var r := Recognise(d, CursorAt(f, done));
            r.Ok? && r.value.token == t <==> MayBeNext(d, f, done, t)
  {
    var c := CursorAt(f, done);
    DepthNext(done, t);
    FlagsForbid(Called(done), LastOf(done), t);
    hide Depth, Called, LastOf, MayFollow, FlagsAfter, Permits, Recognise, StandsFor;
    if |done| == |f| {
      EndRead(d, c, t);
    } else {
      if Recognise(d, c).Ok? {
        ReadStands(d, f, |done|, c);
      }
      if MayBeNext(d, f, done, t) {
        StandsRead(d, f, |done|, c, t);
      }
    }
  }

  // What reading a token leaves depends on it and on whether a function was named before it.
  lemma ReadLeaves(d: Defs, c: Cursor)
    requires c.rest != [] && Recognise(d, c).Ok?
    ensures var r := Recognise(d, c).value;
            && r.flags == FlagsAfter(c.last.Some? && c.last.value.TFun?, Some(r.token))
            && r.brackets == c.brackets + (if r.token.TOpen? then 1 else if r.token.TClose? then -1 else 0)
  {
    hide IsCall, AT_START, AFTER_OP, AFTER_FUN_OPEN, AFTER_OPEN, AFTER_OPERAND, AFTER_BRANCH;
    hide AFTER_SEP, AFTER_INFIX, AFTER_FUN, ANY, NOTHING;
  }

  lemma LastNext(done: seq<Token>, t: Token)
    ensures LastOf(done + [t]) == Some(t)
    ensures Called(done + [t]) <==> LastOf(done).Some? && LastOf(done).value.TFun?
  {
  }

  lemma NextCursor(d: Defs, f: seq<Lexeme>, done: seq<Token>)
    requires |done| < |f| && Recognise(d, CursorAt(f, done)).Ok?
    ensures var r := Recognise(d, CursorAt(f, done)).value;
            Advance(CursorAt(f, done), r) == CursorAt(f, done + [r.token])
  {
    var r := Recognise(d, CursorAt(f, done)).value;
    DepthNext(done, r.token);
    LastNext(done, r.token);
    ReadLeaves(d, CursorAt(f, done));
    hide Depth, Recognise, FlagsAfter, LastOf, Called;
    assert f[|done|..][1..] == f[|done| + 1..];
  }

  lemma ReadAllStep(d: Defs, c: Cursor, ts: seq<Token>)
    ensures ReadAll(d, c) == Ok(ts)
       <==> && ts != [] && Recognise(d, c).Ok? && Recognise(d, c).value.token == ts[0]
            && if c.rest == [] then ts[1..] == [] else ReadAll(d, Advance(c, Recognise(d, c).value)) == Ok(ts[1..])
  {
    hide Recognise;
    if Recognise(d, c).Ok? {
      var t := Recognise(d, c).value.token;
      if c.rest == [] {
        FirstAndRest(t, [], ts);
      } else if ReadAll(d, Advance(c, Recognise(d, c).value)).Ok? {
        FirstAndRest(t, ReadAll(d, Advance(c, Recognise(d, c).value)).value, ts);
      }
    }
  }

  lemma FirstAndRest(t: Token, rest: seq<Token>, ts: seq<Token>)
    ensures ts == [t] + rest <==> ts != [] && ts[0] == t && ts[1..] == rest
    ensures [t] + [] == [t]
  {
    if ts != [] {
      assert ts == [ts[0]] + ts[1..];
    }
    assert ([t] + rest)[1..] == rest;
  }

  // From some token on, every token may stand where it does.
  predicate KeepsOn(d: Defs, f: seq<Lexeme>, ts: seq<Token>, from: nat) {
    |ts| == |f| + 1 && forall i :: from <= i < |ts| ==> MayBeNext(d, f, ts[..i], ts[i])
  }

  lemma {:induction false} ReadsOn(d: Defs, f: seq<Lexeme>, done: seq<Token>, rest: seq<Token>)
    requires |done| <= |f| && Depth(done) >= 0
    ensures ReadAll(d, CursorAt(f, done)) == Ok(rest) <==> KeepsOn(d, f, done + rest, |done|)
    decreases |f| - |done|
  {
    var c := CursorAt(f, done);
    assert c.rest == [] <==> |done| == |f|;
    ReadAllStep(d, c, rest);
    KeepsOnStep(d, f, done, rest);
    hide Recognise, MayBeNext, CursorAt, ReadAll, Depth, KeepsOn;
    if rest != [] {
      NextToken(d, f, done, rest[0]);
      if MayBeNext(d, f, done, rest[0]) && |done| < |f| {
        NextCursor(d, f, done);
        DepthStays(d, f, done, rest[0]);
        ReadsOn(d, f, done + [rest[0]], rest[1..]);
      }
    }
  }

  lemma KeepsOnStep(d: Defs, f: seq<Lexeme>, done: seq<Token>, rest: seq<Token>)
    requires |done| <= |f|
    ensures KeepsOn(d, f, done + rest, |done|)
       <==> && rest != [] && MayBeNext(d, f, done, rest[0])
            && if |done| == |f| then rest[1..] == [] else KeepsOn(d, f, done + [rest[0]] + rest[1..], |done| + 1)
  {
    hide MayBeNext;
    if rest != [] {
      var all := done + rest;
      assert all[..|done|] == done && all[|done|] == rest[0];
      assert done + [rest[0]] + rest[1..] == all;
    }
  }

  lemma DepthStays(d: Defs, f: seq<Lexeme>, done: seq<Token>, t: Token)
    requires MayBeNext(d, f, done, t)
    ensures Depth(done + [t]) >= 0
  {
  }

  // The reader gives back exactly the tokens that keep to the rules, and an error if there are none.
  lemma ReaderDecides(d: Defs, f: seq<Lexeme>, ts: seq<Token>)
    ensures ReadAll(d, Start(f)) == Ok(ts) <==> WellRead(d, f, ts)
  {
    ReadsOn(d, f, [], ts);
    assert [] + ts == ts && f[0..] == f;
  }

  // ----- What is refused -----

  lemma {:induction false} AcceptedReads(d: Defs, c: Cursor, s: State)
    requires CreateFrom(d, c, s).Ok?
    ensures ReadAll(d, c).Ok?
    decreases |c.rest|
  {
    if c.rest != [] {
      var r := Recognise(d, c).value;
      AcceptedReads(d, Advance(c, r), Read(s, r.token).value);
    }
  }

  // The tokens of an accepted formula.
  lemma AcceptedTokens(d: Defs, f: seq<Lexeme>) returns (ts: seq<Token>)
    requires CreateRPN(d, f).Ok?
    ensures WellRead(d, f, ts) && |ts| == |f| + 1
  {
    AcceptedReads(d, Start(f), INITIAL);
    ts := ReadAll(d, Start(f)).value;
    ReaderDecides(d, f, ts);
  }

  // A lexeme that ends an operand: a number, a closing bracket, a name that is no call.
  predicate ClosesOperand(f: seq<Lexeme>, i: nat)
    requires i < |f|
  {
    f[i].LNum? || f[i].LClose? || (f[i].LName? && (i + 1 == |f| || !f[i + 1].LOpen?))
  }

  lemma AfterOperand(d: Defs, f: seq<Lexeme>, i: nat, called: bool, t: Token, u: Token)
    requires i < |f| && ClosesOperand(f, i) && StandsFor(d, f, i, t) && MayFollow(called, Some(t), u)
    ensures !BeginsOperand(u) && !u.TInfix?
  {
  }

  lemma AfterOperator(d: Defs, f: seq<Lexeme>, i: nat, t: Token, called: bool, u: Token)
    requires i < |f| && f[i].LOp? && StandsFor(d, f, i, t) && !t.TInfix? && MayFollow(called, Some(t), u)
    ensures BeginsOperand(u) || u.TInfix?
  {
  }

  lemma BeginsWith(d: Defs, f: seq<Lexeme>, i: nat, t: Token)
    requires i < |f| && StandsFor(d, f, i, t)
    ensures !BeginsOperand(t) ==> !f[i].LNum? && !f[i].LName? && !f[i].LOpen?
    ensures BeginsOperand(t) || t.TInfix? ==> f[i] !in {LClose, LComma, LQuestion, LColon}
  {
  }

  // No accepted formula has two operands side by side.
  lemma SideBySide(d: Defs, f: seq<Lexeme>, i: nat)
    requires CreateRPN(d, f).Ok? && i + 1 < |f| && ClosesOperand(f, i)
    ensures !f[i + 1].LNum? && !f[i + 1].LName? && !f[i + 1].LOpen?
  {
    hide *;
    var ts := AcceptedTokens(d, f);
    var _ := AtToken(d, f, ts, i);
    var called := AtToken(d, f, ts, i + 1);
    AfterOperand(d, f, i, called, ts[i], ts[i + 1]);
    BeginsWith(d, f, i + 1, ts[i + 1]);
  }

  // In no accepted formula a binary operator lacks its right operand.
  lemma MissingOperand(d: Defs, f: seq<Lexeme>, i: nat)
    requires CreateRPN(d, f).Ok? && i + 1 < |f| && ClosesOperand(f, i) && f[i + 1].LOp?
    ensures i + 2 < |f| && f[i + 2] !in {LClose, LComma, LQuestion, LColon}
  {
    hide *;
    var ts := AcceptedTokens(d, f);
    var _ := AtToken(d, f, ts, i);
    var called := AtToken(d, f, ts, i + 1);
    var called' := AtToken(d, f, ts, i + 2);
    AfterOperand(d, f, i, called, ts[i], ts[i + 1]);
    AfterOperator(d, f, i + 1, ts[i + 1], called', ts[i + 2]);
    if i + 2 < |f| {
      BeginsWith(d, f, i + 2, ts[i + 2]);
    } else {
      NotTheEnd(ts[i + 2]);
    }
  }

  lemma NotTheEnd(t: Token)
    requires BeginsOperand(t) || t.TInfix?
    ensures t != TEnd
  {
  }

  // What the rules say of one token.
  lemma AtToken(d: Defs, f: seq<Lexeme>, ts: seq<Token>, i: nat) returns (called: bool)
    requires WellRead(d, f, ts) && i < |ts|
    ensures |ts| == |f| + 1
    ensures MayFollow(called, if i == 0 then None else Some(ts[i - 1]), ts[i])
    ensures if i == |f| then ts[i] == TEnd else StandsFor(d, f, i, ts[i])
  {
    hide MayFollow, StandsFor, Depth;
    assert MayBeNext(d, f, ts[..i], ts[i]);
    called := Called(ts[..i]);
  }

  function Opened(f: seq<Lexeme>): int {
    multiset(f)[LOpen] as int - multiset(f)[LClose] as int
  }

  lemma OpenedNext(d: Defs, f: seq<Lexeme>, i: nat, t: Token)
    requires i < |f| && StandsFor(d, f, i, t)
    ensures Opened(f[..i + 1]) == Opened(f[..i]) + (if t.TOpen? then 1 else if t.TClose? then -1 else 0)
  {
    assert f[..i + 1] == f[..i] + [f[i]];
  }

  lemma {:induction false} OpenedIsDepth(d: Defs, f: seq<Lexeme>, ts: seq<Token>, n: nat)
    requires WellRead(d, f, ts) && n <= |f| && |ts| == |f| + 1
    ensures Opened(f[..n]) == Depth(ts[..n])
    decreases n
  {
    hide *;
    if n == 0 {
      NoDepth();
    } else {
      OpenedIsDepth(d, f, ts, n - 1);
      DepthNext(ts[..n - 1], ts[n - 1]);
      var _ := AtToken(d, f, ts, n - 1);
      OpenedNext(d, f, n - 1, ts[n - 1]);
      SliceNext(ts, n - 1);
    }
  }

  lemma NoDepth()
    ensures Depth([]) == 0 && forall f: seq<Lexeme> :: f == [] ==> Opened(f) == 0
  {
  }

  lemma DepthAt(d: Defs, f: seq<Lexeme>, ts: seq<Token>, i: nat)
    requires WellRead(d, f, ts) && i < |ts|
    ensures Depth(ts[..i] + [ts[i]]) >= 0 && (i == |f| ==> Depth(ts[..i]) == 0)
  {
    hide MayFollow, StandsFor, Depth;
    assert MayBeNext(d, f, ts[..i], ts[i]);
  }

  // The brackets of an accepted formula balance, and none closes before it opens.
  lemma Balanced(d: Defs, f: seq<Lexeme>, n: nat)
    requires CreateRPN(d, f).Ok? && n <= |f|
    ensures Opened(f) == 0 && Opened(f[..n]) >= 0
  {
    hide *;
    var ts := AcceptedTokens(d, f);
    OpenedIsDepth(d, f, ts, |f|);
    DepthAt(d, f, ts, |f|);
    assert f[..|f|] == f;
    if n == 0 {
      NoDepth();
    } else {
      OpenedIsDepth(d, f, ts, n);
      DepthAt(d, f, ts, n - 1);
      SliceNext(ts, n - 1);
    }
  }

  function Asked(f: seq<Lexeme>): int {
    multiset(f)[LQuestion] as int - multiset(f)[LColon] as int
  }

  lemma AskedNext(d: Defs, f: seq<Lexeme>, i: nat, t: Token)
    requires i < |f| && StandsFor(d, f, i, t)
    ensures Asked(f[i..]) == AnyFormula.Weight(t) + Asked(f[i + 1..])
  {
    assert f[i..] == [f[i]] + f[i + 1..];
  }

  lemma BalanceNext(ts: seq<Token>, i: nat)
    requires i < |ts|
    ensures AnyFormula.Balance(ts[i..]) == AnyFormula.Weight(ts[i]) + AnyFormula.Balance(ts[i + 1..])
  {
    assert ts[i..][1..] == ts[i + 1..];
  }

  lemma NoBalance(f: seq<Lexeme>, ts: seq<Token>)
    requires |ts| == |f| + 1 && ts[|f|] == TEnd
    ensures Asked(f[|f|..]) == AnyFormula.Balance(ts[|f|..]) == 0
  {
    BalanceNext(ts, |f|);
    assert ts[|f| + 1..] == [] && f[|f|..] == [];
  }

  lemma {:induction false} AskedIsBalance(d: Defs, f: seq<Lexeme>, ts: seq<Token>, i: nat)
    requires WellRead(d, f, ts) && i <= |f| && |ts| == |f| + 1
    ensures Asked(f[i..]) == AnyFormula.Balance(ts[i..])
    decreases |f| - i
  {
    hide *;
    var _ := AtToken(d, f, ts, i);
    if i == |f| {
      NoBalance(f, ts);
    } else {
      BalanceNext(ts, i);
      AskedNext(d, f, i, ts[i]);
      AskedIsBalance(d, f, ts, i + 1);
    }
  }

  // Every "?" of an accepted formula has its ":".
  lemma TernariesPair(d: Defs, f: seq<Lexeme>)
    requires CreateRPN(d, f).Ok?
    ensures Asked(f) == 0
  {
    hide CreateFrom, ReadAll, MayBeNext, Asked;
    AcceptedReads(d, Start(f), INITIAL);
    var ts := ReadAll(d, Start(f)).value;
    ReaderDecides(d, f, ts);
    AnyFormula.TernariesPair(d, f);
    AskedIsBalance(d, f, ts, 0);
    assert f[0..] == f && ts[0..] == ts;
  }

  // A formula of nothing is refused.
  lemma NothingRefused(d: Defs)
    ensures CreateRPN(d, []) == Err(EmptyExpression)
  {
    assert [] + [IEnd] == [IEnd] && [IEnd][1..] == [];
    assert Finalized([]).Ok?;
  }
}
