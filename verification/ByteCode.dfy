/** The bytecode: instructions, the static stack depth kept while they are
    emitted, and the back-patching of ternary jumps. */
module ByteCode {
  import opened Formula

  // A jump's offset stays unset until the code is finalised.
  datatype Instr =
    | IVar(addr: nat)
    | IVal(val: Value)
    | IOp(op: BinOp)
    | IFun(fn: nat, argc: int)
    | IIf(offset: Option<nat>)
    | IElse(offset: Option<nat>)
    | IEndIf
    | IEnd

  // What an instruction adds to the static stack position; jumps add nothing.
  function Delta(i: Instr): int {
    match i
    case IVar(_) => 1
    case IVal(_) => 1
    case IOp(_) => -1
    case IFun(_, argc) => if argc >= 0 then 1 - argc else argc + 1
    case _ => 0
  }

  function Position(code: seq<Instr>): int {
    if code == [] then 0 else Position(code[..|code| - 1]) + Delta(code[|code| - 1])
  }

  // Only values and calls raise the recorded maximum.
  predicate Records(i: Instr) {
    i.IVar? || i.IVal? || i.IFun?
  }

  function Maximum(code: seq<Instr>): (m: int)
    ensures m >= 0
  {
    if code == [] then 0
    else
      var before := Maximum(code[..|code| - 1]);
      if Records(code[|code| - 1]) && Position(code) > before then Position(code) else before
  }

  lemma {:induction false} PositionOfConcat(a: seq<Instr>, b: seq<Instr>)
    ensures Position(a + b) == Position(a) + Position(b)
  {
    if b == [] {
      assert a + b == a;
    } else {
      var n := |b| - 1;
      assert (a + b)[..|a + b| - 1] == a + b[..n];
      PositionOfConcat(a, b[..n]);
    }
  }

  // The position is at most the maximum after every prefix of the code.
  lemma {:induction false} PositionBelowMaximum(code: seq<Instr>, k: nat)
    requires k <= |code|
    ensures Position(code[..k]) <= Maximum(code)
    decreases |code|
  {
    if code == [] {
    } else {
      var front := code[..|code| - 1];
      PositionBelowMaximum(front, if k == |code| then |code| - 1 else k);
      if k == |code| {
        assert code[..k] == code && front[..|code| - 1] == front;
      } else {
        assert front[..k] == code[..k];
      }
    }
  }

  // And no greater than the greatest position there is.
  lemma {:induction false} MaximumReached(code: seq<Instr>) returns (k: nat)
    ensures k <= |code| && Position(code[..k]) == Maximum(code)
    decreases |code|
  {
    if code == [] {
      k := 0;
    } else {
      var front := code[..|code| - 1];
      k := MaximumReached(front);
      assert front[..k] == code[..k] && code[..|code|] == code;
      if Maximum(code) != Maximum(front) {
        k := |code|;
      }
    }
  }

  // ----- Jump patching -----

  function WithOffset(i: Instr, n: nat): Instr {
    match i
    case IIf(_) => IIf(Some(n))
    case IElse(_) => IElse(Some(n))
    case _ => i
  }

  // The scanned code and the places of the jumps still open in it, innermost last.
  datatype Scan = Scan(done: seq<Instr>, ifs: seq<nat>, elses: seq<nat>) {
    // The two index stacks hold the places of jumps of their own kind.
    predicate Marked() {
      && (forall k :: 0 <= k < |ifs| ==> ifs[k] < |done| && done[ifs[k]].IIf?)
      && (forall k :: 0 <= k < |elses| ==> elses[k] < |done| && done[elses[k]].IElse?)
    }

    // One more instruction: an ELSE patches the innermost open IF, an ENDIF the innermost open ELSE.
    function Next(i: Instr): (r: Result<Scan>)
      requires Marked()
      ensures r.Ok? ==> r.value.Marked() && |r.value.done| == |done| + 1
    {
      match i
      case IIf(_) => Ok(Scan(done + [i], ifs + [|done|], elses))
      case IElse(_) =>
        if ifs == [] then Err(StackEmpty)
        else
          var idx := ifs[|ifs| - 1];
          Ok(Scan(done[idx := WithOffset(done[idx], |done| - idx)] + [i], ifs[..|ifs| - 1], elses + [|done|]))
      case IEndIf =>
        if elses == [] then Err(StackEmpty)
        else
          var idx := elses[|elses| - 1];
          Ok(Scan(done[idx := WithOffset(done[idx], |done| - idx)] + [i], ifs, elses[..|elses| - 1]))
      case _ => Ok(Scan(done + [i], ifs, elses))
    }
  }

  function Patch(s: Scan, rest: seq<Instr>): (r: Result<seq<Instr>>)
    requires s.Marked()
    ensures r.Ok? ==> |r.value| == |s.done| + |rest|
    decreases |rest|
  {
    if rest == [] then Ok(s.done)
    else
      var s' :- s.Next(rest[0]);
      Patch(s', rest[1..])
  }

  // What one turn does to the whole code, of which `s` has scanned the front.
  lemma NextInPlace(s: Scan, rpn: seq<Instr>)
    requires s.Marked() && s.done < rpn
    ensures
      var i := |s.done|;
      var n := s.Next(rpn[i]);
      && (rpn[i].IElse? && s.ifs != [] ==>
        var idx := s.ifs[|s.ifs| - 1];
        n.value.done + rpn[i + 1..] == rpn[idx := WithOffset(rpn[idx], i - idx)])
      && (rpn[i].IEndIf? && s.elses != [] ==>
        var idx := s.elses[|s.elses| - 1];
        n.value.done + rpn[i + 1..] == rpn[idx := WithOffset(rpn[idx], i - idx)])
      && (!rpn[i].IElse? && !rpn[i].IEndIf? ==> n.value.done + rpn[i + 1..] == rpn)
  {
    var i := |s.done|;
    assert s.done == rpn[..i];
    assert rpn == s.done + [rpn[i]] + rpn[i + 1..];
  }

  // Appends the end marker and patches every jump.
  function Finalized(code: seq<Instr>): Result<seq<Instr>> {
    Patch(Scan([], [], []), code + [IEnd])
  }

  predicate SameBut(a: seq<Instr>, b: seq<Instr>) {
    |a| == |b| && forall k :: 0 <= k < |a| ==> Delta(a[k]) == Delta(b[k]) && Records(a[k]) == Records(b[k])
  }

  lemma {:induction false} SamePositions(a: seq<Instr>, b: seq<Instr>)
    requires SameBut(a, b)
    ensures Position(a) == Position(b) && Maximum(a) == Maximum(b)
  {
    if a != [] {
      SamePositions(a[..|a| - 1], b[..|b| - 1]);
    }
  }

  // Patching sets offsets only: positions and the maximum are those of the unpatched code.
  lemma {:induction false} PatchKeepsEffects(s: Scan, rest: seq<Instr>)
    requires s.Marked()
    ensures Patch(s, rest).Ok? ==> SameBut(Patch(s, rest).value, s.done + rest)
    decreases |rest|
  {
    if rest != [] && s.Next(rest[0]).Ok? {
      var s' := s.Next(rest[0]).value;
      PatchKeepsEffects(s', rest[1..]);
      assert SameBut(s'.done, s.done + [rest[0]]);
      assert SameBut(s'.done + rest[1..], s.done + rest);
    }
  }

  // ----- The emitter -----

  class ParserByteCode {
    var rpn: seq<Instr>
    var stackPos: int
    var maxStack: int

    // The running counters are functions of the code emitted so far.
    ghost predicate Valid()
      reads this
    {
      stackPos == Position(rpn) && maxStack == Maximum(rpn)
    }

    constructor ()
      ensures Valid() && rpn == []
    {
      rpn, stackPos, maxStack := [], 0, 0;
    }

    method Clear()
      modifies this
      ensures Valid() && rpn == []
    {
      rpn, stackPos, maxStack := [], 0, 0;
    }

    method AddVar(addr: nat)
      requires Valid()
      modifies this
      ensures Valid() && rpn == old(rpn) + [IVar(addr)]
    {
      stackPos := stackPos + 1;
      if stackPos > maxStack { maxStack := stackPos; }
      rpn := rpn + [IVar(addr)];
    }

    method AddVal(val: Value)
      requires Valid()
      modifies this
      ensures Valid() && rpn == old(rpn) + [IVal(val)]
    {
      stackPos := stackPos + 1;
      if stackPos > maxStack { maxStack := stackPos; }
      rpn := rpn + [IVal(val)];
    }

    method AddOp(op: BinOp)
      requires Valid()
      modifies this
      ensures Valid() && rpn == old(rpn) + [IOp(op)]
    {
      stackPos := stackPos - 1;
      rpn := rpn + [IOp(op)];
    }

    // Leaves the static position alone, though IF takes a value at run time.
    method AddIfElse(marker: Instr)
      requires Valid()
      requires marker in {IIf(None), IElse(None), IEndIf}
      modifies this
      ensures Valid() && rpn == old(rpn) + [marker]
    {
      rpn := rpn + [marker];
    }

    // A negative count marks a call with an argument vector.
    method AddFun(fn: nat, argc: int)
      requires Valid()
      modifies this
      ensures Valid() && rpn == old(rpn) + [IFun(fn, argc)]
    {
      if argc >= 0 {
        stackPos := stackPos - argc + 1;
      } else {
        stackPos := stackPos + argc + 1;
      }
      if stackPos > maxStack { maxStack := stackPos; }
      rpn := rpn + [IFun(fn, argc)];
    }

    // Pops the innermost waiting jump and gives it its distance to the marker at `i`.
    method Link(waiting: seq<nat>, i: nat) returns (r: Result<seq<nat>>)
      requires waiting != [] ==> waiting[|waiting| - 1] < i < |rpn|
      modifies this`rpn
      ensures waiting == [] ==> r == Err(StackEmpty) && rpn == old(rpn)
      ensures waiting != [] ==>
                var idx := waiting[|waiting| - 1];
                r == Ok(waiting[..|waiting| - 1]) && rpn == old(rpn)[idx := WithOffset(old(rpn)[idx], i - idx)]
    {
      if waiting == [] { return Err(StackEmpty); }
      var idx := waiting[|waiting| - 1];
      rpn := rpn[idx := WithOffset(rpn[idx], i - idx)];
      return Ok(waiting[..|waiting| - 1]);
    }

    // One turn of the patching loop: jumps wait on two index stacks for the marker they lead to.
    method Visit(i: nat, ifs: seq<nat>, elses: seq<nat>, ghost s: Scan)
      returns (r: Result<()>, stIf: seq<nat>, stElse: seq<nat>)
      requires i == |s.done| && s.done < rpn && s.ifs == ifs && s.elses == elses && s.Marked()
      modifies this`rpn
      ensures r.Err? ==> s.Next(old(rpn[i])) == Err(r.error)
      ensures r.Ok? ==> s.Next(old(rpn[i])).Ok?
      ensures r.Ok? ==>
                var next := s.Next(old(rpn[i])).value;
                rpn == next.done + old(rpn[i + 1..]) && next.ifs == stIf && next.elses == stElse
    {
      NextInPlace(s, rpn);
      stIf, stElse := ifs, elses;
      match rpn[i] {
        case IIf(_) =>
          stIf := stIf + [i];
        case IElse(_) =>
          stIf :- Link(stIf, i);
          stElse := stElse + [i];
        case IEndIf =>
          stElse :- Link(stElse, i);
        case _ =>
      }
      return Ok(()), stIf, stElse;
    }

    method PatchJumps() returns (r: Result<()>)
      modifies this`rpn
      ensures r.Ok? ==> Patch(Scan([], [], []), old(rpn)) == Ok(rpn)
      ensures r.Err? ==> Patch(Scan([], [], []), old(rpn)) == Err(r.error)
    {
      ghost var code, scan := rpn, Scan([], [], []);
      var stIf: seq<nat>, stElse: seq<nat> := [], [];
      var i := 0;
      while i < |rpn|
        invariant 0 <= i <= |rpn| == |code|
        invariant scan.Marked() && scan.ifs == stIf && scan.elses == stElse && |scan.done| == i
        invariant scan.done <= rpn
        invariant Patch(scan, rpn[i..]) == Patch(Scan([], [], []), code)
      {
        ghost var rest := rpn[i + 1..];
        assert rpn[i..] == [rpn[i]] + rest;
        ghost var next := scan.Next(rpn[i]);
        r, stIf, stElse := Visit(i, stIf, stElse, scan);
        if r.Err? { return; }
        i := i + 1;
        scan := next.value;
        assert rpn[i..] == rest;
      }
      assert rpn == scan.done;
      return Ok(());
    }

    method Finalize() returns (r: Result<()>)
      requires Valid()
      modifies this
      ensures r.Ok? <==> Finalized(old(rpn)).Ok?
      ensures r.Ok? ==> Valid() && rpn == Finalized(old(rpn)).value
      ensures r.Err? ==> r.error == Finalized(old(rpn)).error
      ensures r.Ok? ==> Maximum(rpn) == Maximum(old(rpn)) == maxStack
    {
      rpn := rpn + [IEnd];
      r := PatchJumps();
      FinalizedEffects(old(rpn));
    }

    function GetMaxStackSize(): int
      reads this
    {
      maxStack + 1
    }
  }

  lemma FinalizedEffects(code: seq<Instr>)
    ensures Finalized(code).Ok? ==>
              Position(Finalized(code).value) == Position(code) && Maximum(Finalized(code).value) == Maximum(code)
  {
    if Finalized(code).Ok? {
      PatchKeepsEffects(Scan([], [], []), code + [IEnd]);
      assert [] + (code + [IEnd]) == code + [IEnd] && (code + [IEnd])[..|code|] == code;
      SamePositions(Finalized(code).value, code + [IEnd]);
    }
  }
}
