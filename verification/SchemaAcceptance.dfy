/** Which places of a document a schema accepts and what it fills them with, told
    without going through the check itself. */
module SchemaAcceptance {
  import opened Formula
  import opened Bytes
  import opened Schema
  import opened SchemaFixpoint
  import opened SchemaManager

  // ----- The value in force: the given one if it has the right type, else the default -----

  function IntInForce(e: Element, slot: Option<Json>): int
    requires e.Integral?
  {
    match slot
    case Some(Int(i)) => i
    case Some(Real(r)) => Truncate(r)
    case _ => if e.givenInt.Some? then e.givenInt.value else if e.min.Some? then e.min.value else 1
  }

  function RealInForce(e: Element, slot: Option<Json>): real
    requires e.Decimal?
  {
    match slot
    case Some(Int(i)) => i as real
    case Some(Real(r)) => r
    case _ => if e.givenReal.Some? then e.givenReal.value else if e.low.Some? then e.low.value else 1.0
  }

  function TextInForce(default: string, slot: Option<Json>): string {
    match slot
    case Some(Str(s)) => s
    case _ => default
  }

  // A selector's object, and the choice it holds.
  function ChoiceObject(e: Element, slot: Option<Json>): (m: map<string, Json>)
    requires e.Selector?
    ensures "selected" in m && m["selected"].Str?
  {
    match slot
    case Some(Obj(m)) => if "selected" in m && m["selected"].Str? then m else map["selected" := Str(e.default)]
    case _ => map["selected" := Str(e.default)]
  }

  function ChoiceInForce(e: Element, slot: Option<Json>): string
    requires e.Selector?
  {
    ChoiceObject(e, slot)["selected"].s
  }

  function MembersInForce(slot: Option<Json>): map<string, Json> {
    match slot
    case Some(Obj(m)) => m
    case _ => map[]
  }

  function ItemsInForce(slot: Option<Json>): seq<Json> {
    match slot
    case Some(Arr(items)) => items
    case _ => []
  }

  // ----- What is acceptable -----

  predicate IsByteSource(j: Json) {
    (j.Int? && 0 <= j.i < 0x1_0000_0000) || (j.Real? && 0 <= Truncate(j.r) < 0x1_0000_0000)
  }

  predicate AcceptableColor(slot: Option<Json>) {
    || slot.None? || slot.value.Null?
    || (slot.value.Arr? && (|slot.value.items| >= 3 ==> forall k :: 0 <= k < 3 ==> IsByteSource(slot.value.items[k])))
  }

  // The last choice of the name that has a sub-element.
  predicate GivesSub(choices: seq<Choice>, id: string, k: nat) {
    && k < |choices| && choices[k].id == id && choices[k].sub.Some?
    && forall j :: k < j < |choices| && choices[j].id == id ==> choices[j].sub.None?
  }

  // The value in force is a known option, or within its bounds, and so on inside.
  predicate Acceptable(e: Element, slot: Option<Json>)
    decreases e, 0
  {
    match e
    case Integral(_, allowZero, min, max, _) =>
      var v := IntInForce(e, slot);
      InBounds(v, min, max) && (v == 0 ==> allowZero)
    case Decimal(_, allowZero, low, high, _) =>
      var v := RealInForce(e, slot);
      && (low.Some? ==> low.value <= v) && (high.Some? ==> v <= high.value) && (v == 0.0 ==> allowZero)
    case Complex(_, _) => true
    case Text(_, allowZero, shortest, longest, default) =>
      var n := |TextInForce(default, slot)|;
      && (shortest.Some? ==> shortest.value <= n) && (longest.Some? ==> n <= longest.value) && (n == 0 ==> allowZero)
    case Color(_, _, _, _) => AcceptableColor(slot)
    case Selector(_, choices, _) =>
      var v := ChoiceInForce(e, slot);
      && (exists c :: c in choices && c.id == v)
      && forall k :: 0 <= k < |choices| && GivesSub(choices, v, k) ==>
           var sub := choices[k].sub.value;
           Acceptable(sub, At(ChoiceObject(e, slot), sub.id))
    case Tuple(_, elms) => AcceptableAll(elms, MembersInForce(slot))
    case Array(_, elm, fewest, most) =>
      || (slot.None? && fewest <= 0)
      || var items := ItemsInForce(slot);
         && fewest <= |items| && (most.Some? ==> |items| <= most.value)
         && forall k :: 0 <= k < |items| ==> Acceptable(elm, Some(items[k]))
  }

  // Each sibling after what the earlier ones have been filled with.
  predicate AcceptableAll(es: seq<Element>, m: map<string, Json>)
    decreases es, 0
  {
    es == [] ||
    (Acceptable(es[0], At(m, es[0].id))
     && AcceptableAll(es[1..], Placed(m, es[0].id, Filled(es[0], At(m, es[0].id)))))
  }

  // ----- What a place is filled with -----

  function FilledColor(e: Element, slot: Option<Json>): Json
    requires e.Color?
  {
    match slot
    case Some(Arr(items)) =>
      if |items| < 3 then Arr([Int(e.red), Int(e.green), Int(e.blue)])
      else if !AcceptableColor(slot) then Arr(items)
      else
        Arr(seq(|items|, k requires 0 <= k < |items| => if k < 3 then Int(AsInt(items[k]) % 256) else items[k]))
    case Some(Null) => Arr([Int(e.red), Int(e.green), Int(e.blue)])
    case Some(j) => j
    case None => Arr([Int(e.red), Int(e.green), Int(e.blue)])
  }

  function Filled(e: Element, slot: Option<Json>): Option<Json>
    decreases e, 0
  {
    match e
    case Integral(_, _, _, _, _) => Some(Int(IntInForce(e, slot)))
    case Decimal(_, _, _, _, _) => Some(Real(RealInForce(e, slot)))
    case Complex(_, default) => Some(Str(TextInForce(default, slot)))
    case Text(_, _, _, _, default) => Some(Str(TextInForce(default, slot)))
    case Color(_, _, _, _) => Some(FilledColor(e, slot))
    case Selector(_, choices, _) =>
      var m := ChoiceObject(e, slot);
      var sub := SubElement(choices, ChoiceInForce(e, slot));
      if sub.None? then Some(Obj(m))
      else
        assert exists c :: c in choices && c.sub == sub;
        Some(Obj(Placed(m, sub.value.id, Filled(sub.value, At(m, sub.value.id)))))
    case Tuple(_, elms) => if elms == [] then slot else Some(Obj(FilledAll(elms, MembersInForce(slot))))
    case Array(_, elm, _, _) => Some(Arr(FilledItems(elm, ItemsInForce(slot))))
  }

  function FilledAll(es: seq<Element>, m: map<string, Json>): map<string, Json>
    decreases es, 0
  {
    if es == [] then m else FilledAll(es[1..], Placed(m, es[0].id, Filled(es[0], At(m, es[0].id))))
  }

  function FilledItems(e: Element, items: seq<Json>): (r: seq<Json>)
    ensures |r| == |items|
    decreases e, 1
  {
    seq(|items|, k requires 0 <= k < |items| =>
      var j := Filled(e, Some(items[k]));
      if j.Some? then j.value else Null)
  }

  // ----- The check accepts exactly that, and fills it in so -----

  lemma TruncatesTowardZero(r: real)
    ensures var t := Truncate(r) as real;
            if r >= 0.0 then 0.0 <= t <= r < t + 1.0 else t - 1.0 < r <= t <= 0.0
  {
  }

  // Where the sub-element in force stands, or -1.
  lemma {:induction false} SubElementAt(choices: seq<Choice>, id: string) returns (k: int)
    ensures -1 <= k < |choices|
    ensures if k == -1 then SubElement(choices, id).None? && NoSub(choices, id)
            else GivesSub(choices, id, k) && choices[k].sub == SubElement(choices, id)
    decreases |choices|
  {
    var n := |choices| - 1;
    if choices == [] {
      k := -1;
    } else if choices[n].id == id && choices[n].sub.Some? {
      k := n;
    } else {
      k := SubElementAt(choices[..n], id);
      hide SubElement;
      OneChoiceMore(choices, id, k);
    }
  }

  // A last choice that is of another name, or has no sub-element, makes no difference.
  lemma OneChoiceMore(choices: seq<Choice>, id: string, k: int)
    requires choices != [] && !(choices[|choices| - 1].id == id && choices[|choices| - 1].sub.Some?)
    ensures NoSub(choices[..|choices| - 1], id) ==> NoSub(choices, id)
    ensures 0 <= k < |choices| - 1 && GivesSub(choices[..|choices| - 1], id, k) ==> GivesSub(choices, id, k)
  {
    var front := choices[..|choices| - 1];
    assert forall i :: 0 <= i < |front| ==> front[i] == choices[i];
  }

  predicate NoSub(choices: seq<Choice>, id: string) {
    forall k :: 0 <= k < |choices| && choices[k].id == id ==> choices[k].sub.None?
  }

  lemma SubElementLast(choices: seq<Choice>, id: string)
    ensures var sub := SubElement(choices, id);
            && (sub.Some? ==> exists k :: 0 <= k < |choices| && GivesSub(choices, id, k) && choices[k].sub == sub)
            && (forall k :: 0 <= k < |choices| && GivesSub(choices, id, k) ==> choices[k].sub == sub)
  {
    hide SubElement;
    var at := SubElementAt(choices, id);
    forall k | 0 <= k < |choices| && GivesSub(choices, id, k)
      ensures k == at
    {
    }
  }

  lemma {:induction false} OptionActuatorsKnown(choices: seq<Choice>, id: string)
    ensures OptionActuators(choices, id).Some? <==> exists c :: c in choices && c.id == id
    decreases |choices|
  {
    if choices != [] {
      var n := |choices| - 1;
      assert choices == choices[..n] + [choices[n]];
      OptionActuatorsKnown(choices[..n], id);
    }
  }

  lemma ColorDecided(e: Element, slot: Option<Json>, acts: seq<Actuator>)
    requires e.Color?
    ensures var c := Verify(e, slot, acts);
            c.slot == Some(FilledColor(e, slot)) && (c.errs == [] <==> AcceptableColor(slot))
  {
    if slot.Some? && slot.value.Arr? && |slot.value.items| >= 3 {
      var a := slot.value.items;
      assert forall k :: 0 <= k < 3 ==> (IsByteSource(a[k]) <==> IsNumeric(a[k]) && IsChannel(a[k]));
      if AcceptableColor(slot) {
        var first := [Int(AsInt(a[0]) % 256), Int(AsInt(a[1]) % 256), Int(AsInt(a[2]) % 256)];
        assert IsByteSource(a[0]) && IsByteSource(a[1]) && IsByteSource(a[2]);
        assert first + a[3..] == FilledColor(e, slot).items;
      } else {
        assert !(IsByteSource(a[0]) && IsByteSource(a[1]) && IsByteSource(a[2]));
      }
    }
  }

  lemma ScalarDecided(e: Element, slot: Option<Json>, acts: seq<Actuator>)
    requires e.Integral? || e.Decimal? || e.Complex? || e.Text?
    ensures Verify(e, slot, acts).errs == [] <==> Acceptable(e, slot)
    ensures Verify(e, slot, acts).slot == Filled(e, slot)
  {
  }

  // The check passes a place exactly when it is acceptable, and leaves it filled in.
  lemma {:induction false} CheckDecides(e: Element, slot: Option<Json>, acts: seq<Actuator>)
    ensures Verify(e, slot, acts).errs == [] <==> Acceptable(e, slot)
    ensures Verify(e, slot, acts).slot == Filled(e, slot)
    decreases e, 1
  {
    match e
    case Color(_, _, _, _) => ColorDecided(e, slot, acts);
    case Selector(_, _, _) => SelectorDecided(e, slot, acts);
    case Tuple(_, elms) => TupleDecided(elms, MembersInForce(slot), acts);
    case Array(_, elm, _, _) => ArrayDecided(e, slot, acts);
    case _ => ScalarDecided(e, slot, acts);
  }

  lemma {:induction false} ArrayDecided(e: Element, slot: Option<Json>, acts: seq<Actuator>)
    requires e.Array?
    ensures Verify(e, slot, acts).errs == [] <==> Acceptable(e, slot)
    ensures Verify(e, slot, acts).slot == Filled(e, slot)
    decreases e, 0
  {
    ItemsDecided(e.elm, ItemsInForce(slot), acts);
    hide VerifyItems, FilledItems;
    if slot.None? {
      NoItems(e.elm, acts);
    }
  }

  lemma NoItems(e: Element, acts: seq<Actuator>)
    ensures FilledItems(e, []) == []
  {
  }

  // What the check makes of a selector, by its choice.
  lemma SelectorCheck(e: Element, slot: Option<Json>, acts: seq<Actuator>)
    requires e.Selector?
    ensures var m, v, c := ChoiceObject(e, slot), ChoiceInForce(e, slot), Verify(e, slot, acts);
            var chosen, sub := OptionActuators(e.choices, v), SubElement(e.choices, v);
            if chosen.None? then c == Checked(Some(Obj(m)), [IllegalOption], acts)
            else if sub.None? then c == Checked(Some(Obj(m)), [], chosen.value)
            else
              var inner := Verify(sub.value, At(m, sub.value.id), chosen.value);
              c == Checked(Some(Obj(Placed(m, sub.value.id, inner.slot))), inner.errs, inner.acts)
  {
    hide OptionActuators, SubElement;
  }

  lemma {:induction false} SelectorDecided(e: Element, slot: Option<Json>, acts: seq<Actuator>)
    requires e.Selector?
    ensures Verify(e, slot, acts).errs == [] <==> Acceptable(e, slot)
    ensures Verify(e, slot, acts).slot == Filled(e, slot)
    decreases e, 0
  {
    var m, v := ChoiceObject(e, slot), ChoiceInForce(e, slot);
    var sub := SubElement(e.choices, v);
    SelectorCheck(e, slot, acts);
    OptionActuatorsKnown(e.choices, v);
    SubElementLast(e.choices, v);
    if sub.Some? && OptionActuators(e.choices, v).Some? {
      assert exists c :: c in e.choices && c.sub == sub;
      CheckDecides(sub.value, At(m, sub.value.id), OptionActuators(e.choices, v).value);
    }
    hide SubElement, OptionActuators, GivesSub, ChoiceObject, ChoiceInForce, Verify;
  }

  lemma {:induction false} TupleDecided(es: seq<Element>, m: map<string, Json>, acts: seq<Actuator>)
    ensures VerifyAll(es, m, acts).errs == [] <==> AcceptableAll(es, m)
    ensures VerifyAll(es, m, acts).members == FilledAll(es, m)
    decreases es, 0
  {
    if es != [] {
      var c := Verify(es[0], At(m, es[0].id), acts);
      CheckDecides(es[0], At(m, es[0].id), acts);
      VerifyAllStep(es, m, acts);
      hide Verify, VerifyAll, Acceptable, Filled;
      TupleDecided(es[1..], Placed(m, es[0].id, c.slot), c.acts);
    }
  }

  lemma {:induction false} ItemsDecided(e: Element, items: seq<Json>, acts: seq<Actuator>)
    ensures VerifyItems(e, items, acts).errs == [] <==> forall k :: 0 <= k < |items| ==> Acceptable(e, Some(items[k]))
    ensures VerifyItems(e, items, acts).items == FilledItems(e, items)
    decreases e, 2, |items|
  {
    if items != [] {
      var c := Verify(e, Some(items[0]), acts);
      CheckDecides(e, Some(items[0]), acts);
      ItemsDecided(e, items[1..], c.acts);
      FilledItemsStep(e, items);
      hide Verify, Acceptable, Filled, FilledItems;
      AllItems(e, items);
    }
  }

  lemma FilledItemsStep(e: Element, items: seq<Json>)
    requires items != []
    ensures var j := Filled(e, Some(items[0]));
            FilledItems(e, items) == [if j.Some? then j.value else Null] + FilledItems(e, items[1..])
  {
    hide Filled;
  }

  lemma AllItems(e: Element, items: seq<Json>)
    requires items != []
    ensures (forall k :: 0 <= k < |items| ==> Acceptable(e, Some(items[k])))
       <==> (Acceptable(e, Some(items[0])) && forall k :: 0 <= k < |items[1..]| ==> Acceptable(e, Some(items[1..][k])))
  {
    hide Acceptable;
    if forall k :: 0 <= k < |items[1..]| ==> Acceptable(e, Some(items[1..][k])) {
      assert forall k :: 1 <= k < |items| ==> items[k] == items[1..][k - 1];
    }
  }

  // Siblings with places of their own are acceptable one by one, as given.
  lemma {:induction false} AcceptableApart(es: seq<Element>, m: map<string, Json>)
    requires forall i, j :: 0 <= i < j < |es| ==> es[i].id != es[j].id
    ensures AcceptableAll(es, m) <==> forall e :: e in es ==> Acceptable(e, At(m, e.id))
    decreases |es|
  {
    hide Acceptable, Filled;
    if es != [] {
      var next := Placed(m, es[0].id, Filled(es[0], At(m, es[0].id)));
      assert forall e :: e in es[1..] ==> At(next, e.id) == At(m, e.id);
      AcceptableApart(es[1..], next);
      assert forall e :: e in es ==> e == es[0] || e in es[1..];
    }
  }

  // ----- Choices and defaults -----

  // A choice given as text is kept, and so is what stands beside it, except where a
  // sub-element of that choice has its place.
  lemma ChoiceKept(e: Element, m: map<string, Json>, id: string, acts: seq<Actuator>)
    requires e.Selector? && HasSelection(Some(Obj(m))) && id in m
    requires forall c :: c in e.choices && c.id == m["selected"].s && c.sub.Some? ==> c.sub.value.id != id
    ensures var c := Verify(e, Some(Obj(m)), acts);
            c.slot.Some? && c.slot.value.Obj? && At(c.slot.value.members, id) == Some(m[id])
  {
    hide OptionActuators;
  }

  // An unknown choice is refused, wherever it comes from, and raises nothing.
  lemma UnknownRefused(e: Element, slot: Option<Json>, acts: seq<Actuator>)
    requires e.Selector? && forall c :: c in e.choices ==> c.id != ChoiceInForce(e, slot)
    ensures Verify(e, slot, acts) == Checked(Some(Obj(ChoiceObject(e, slot))), [IllegalOption], acts)
  {
    OptionActuatorsKnown(e.choices, ChoiceInForce(e, slot));
  }

  predicate LastNamed(choices: seq<Choice>, id: string, k: nat) {
    k < |choices| && choices[k].id == id && forall j :: k < j < |choices| ==> choices[j].id != id
  }

  lemma {:induction false} OptionActuatorsLast(choices: seq<Choice>, id: string, k: nat)
    requires LastNamed(choices, id, k)
    ensures OptionActuators(choices, id) == Some(choices[k].actuators)
    decreases |choices|
  {
    var n := |choices| - 1;
    if k < n {
      OptionActuatorsLast(choices[..n], id, k);
    }
  }

  lemma ScalarsRaiseNothing(e: Element, slot: Option<Json>, acts: seq<Actuator>)
    requires !e.Selector? && !e.Tuple? && !e.Array?
    ensures Verify(e, slot, acts).acts == acts
  {
  }

  // The actuators in force are those of the option chosen, in place of all collected
  // before; a sub-element goes on from them.
  lemma ActuatorsOfChoice(e: Element, slot: Option<Json>, acts: seq<Actuator>, k: nat)
    requires e.Selector? && LastNamed(e.choices, ChoiceInForce(e, slot), k)
    ensures var v, raised := ChoiceInForce(e, slot), e.choices[k].actuators;
            && (NoSub(e.choices, v) ==> Verify(e, slot, acts).acts == raised)
            && forall j :: 0 <= j < |e.choices| && GivesSub(e.choices, v, j) ==>
                 var sub := e.choices[j].sub.value;
                 Verify(e, slot, acts).acts == Verify(sub, At(ChoiceObject(e, slot), sub.id), raised).acts
  {
    var v := ChoiceInForce(e, slot);
    OptionActuatorsLast(e.choices, v, k);
    SubElementLast(e.choices, v);
    hide SubElement, OptionActuators;
    if NoSub(e.choices, v) {
      assert SubElement(e.choices, v).None?;
    }
  }

  // Where there is nothing, the default given in the schema is put first.
  lemma AbsentDefault(e: Element, acts: seq<Actuator>)
    ensures var slot := Verify(e, None, acts).slot;
            && (e.Integral? && e.givenInt.Some? ==> slot == Some(Int(e.givenInt.value)))
            && (e.Integral? && e.givenInt.None? && e.min.Some? ==> slot == Some(Int(e.min.value)))
            && (e.Decimal? && e.givenReal.Some? ==> slot == Some(Real(e.givenReal.value)))
            && (e.Decimal? && e.givenReal.None? && e.low.Some? ==> slot == Some(Real(e.low.value)))
            && (e.Text? || e.Complex? ==> slot == Some(Str(e.default)))
            && (e.Color? ==> slot == Some(Arr([Int(e.red), Int(e.green), Int(e.blue)])))
            && (e.Selector? ==> ChoiceInForce(e, None) == e.default)
            && (e.Array? ==> slot == Some(Arr([])))
  {
  }

  // What is said to be wrong is what is wrong.
  lemma IntProblemsMean(e: Element, slot: Option<Json>, acts: seq<Actuator>)
    requires e.Integral?
    ensures var v, errs := IntInForce(e, slot), Verify(e, slot, acts).errs;
            && (IllegallyZero in errs <==> v == 0 && !e.allowZero)
            && (AboveMaximum in errs <==> e.max.Some? && e.max.value < v)
            && (BelowMinimum in errs <==> e.min.Some? && v < e.min.value)
  {
    var v := IntInForce(e, slot);
    assert Verify(e, slot, acts).errs == IntProblems(e, v);
    hide Verify, IntInForce;
  }

  lemma RealProblemsMean(e: Element, slot: Option<Json>, acts: seq<Actuator>)
    requires e.Decimal?
    ensures var v, errs := RealInForce(e, slot), Verify(e, slot, acts).errs;
            && (IllegallyZero in errs <==> v == 0.0 && !e.allowZero)
            && (AboveMaximum in errs <==> e.high.Some? && e.high.value < v)
            && (BelowMinimum in errs <==> e.low.Some? && v < e.low.value)
  {
    var v := RealInForce(e, slot);
    assert Verify(e, slot, acts).errs == RealProblems(e, v);
    hide Verify, RealInForce;
  }

  lemma TextProblemsMean(e: Element, slot: Option<Json>, acts: seq<Actuator>)
    requires e.Text?
    ensures var n, errs := |TextInForce(e.default, slot)|, Verify(e, slot, acts).errs;
            && (IllegallyZero in errs <==> n == 0 && !e.allowZero)
            && (AboveMaximum in errs <==> e.longest.Some? && e.longest.value < n)
            && (BelowMinimum in errs <==> e.shortest.Some? && n < e.shortest.value)
  {
    assert Verify(e, slot, acts).errs == TextProblems(e, TextInForce(e.default, slot));
    hide Verify, TextInForce;
  }

  // An array's length is looked at unless it is absent and may be empty.
  lemma LengthProblems(e: Element, slot: Option<Json>, acts: seq<Actuator>)
    requires e.Array? && (slot.Some? || e.fewest > 0)
    ensures var n, errs := |ItemsInForce(slot)|, Verify(e, slot, acts).errs;
            && (e.most.Some? && e.most.value < n ==> AboveMaximum in errs)
            && (n < e.fewest ==> BelowMinimum in errs)
  {
    hide VerifyItems;
  }

  // ----- Groups and documents -----

  // A group passes exactly when its elements are acceptable, and is filled in.
  lemma {:induction false} GroupDecided(es: seq<Element>, m: map<string, Json>)
    ensures CheckGroup(es, m).ok <==> AcceptableAll(es, m)
    ensures AcceptableAll(es, m) ==> CheckGroup(es, m).members == FilledAll(es, m)
    decreases |es|
  {
    if es != [] {
      var slot := At(m, es[0].id);
      CheckDecides(es[0], slot, []);
      hide Verify, Acceptable, Filled;
      GroupDecided(es[1..], Placed(m, es[0].id, Filled(es[0], slot)));
    }
  }

  // However it ends, a group is filled in up to its first element that is not acceptable.
  lemma {:induction false} GroupFilledSoFar(es: seq<Element>, m: map<string, Json>) returns (n: nat)
    ensures n <= |es| && CheckGroup(es, m).members == FilledAll(es[..n], m)
    ensures if CheckGroup(es, m).ok then n == |es|
            else n > 0 && AcceptableAll(es[..n - 1], m) && !AcceptableAll(es[..n], m)
    decreases |es|
  {
    if es == [] {
      n := 0;
    } else {
      var slot := At(m, es[0].id);
      var next := Placed(m, es[0].id, Filled(es[0], slot));
      CheckDecides(es[0], slot, []);
      var k := 0;
      if Acceptable(es[0], slot) {
        k := GroupFilledSoFar(es[1..], next);
      }
      n := k + 1;
      FilledFront(es, m, n);
      if n > 1 {
        FilledFront(es, m, n - 1);
      }
      hide Acceptable, Filled, Verify;
      assert es[1..][..k] == es[1..][..n - 1];
    }
  }

  lemma FilledFront(es: seq<Element>, m: map<string, Json>, n: nat)
    requires 0 < n <= |es|
    ensures var next := Placed(m, es[0].id, Filled(es[0], At(m, es[0].id)));
            && FilledAll(es[..n], m) == FilledAll(es[1..][..n - 1], next)
            && (AcceptableAll(es[..n], m)
                <==> Acceptable(es[0], At(m, es[0].id)) && AcceptableAll(es[1..][..n - 1], next))
  {
    hide Acceptable, Filled;
    assert es[..n][1..] == es[1..][..n - 1] && es[..n][0] == es[0];
  }

  // The document has an object for the group, the schema knows the group, and its
  // elements are acceptable there.
  predicate GroupAcceptable(groups: seq<Group>, params: Params, id: string) {
    && id in params && params[id].Obj? && Find(groups, id).Some?
    && AcceptableAll(Find(groups, id).value.elms, params[id].members)
  }

  function GroupFilled(groups: seq<Group>, params: Params, id: string): Json
    requires GroupAcceptable(groups, params, id)
  {
    Obj(FilledAll(Find(groups, id).value.elms, params[id].members))
  }

  lemma CheckOfDecided(groups: seq<Group>, params: Params, id: string)
    ensures CheckOf(groups, params, id).ok <==> GroupAcceptable(groups, params, id)
    ensures GroupAcceptable(groups, params, id) ==>
              At(Rewritten(groups, params, id), id) == Some(GroupFilled(groups, params, id))
  {
    if Ready(groups, params, id) {
      GroupDecided(Find(groups, id).value.elms, params[id].members);
    }
  }

  // Validation passes exactly when every group it comes to is acceptable as given: the
  // ones visited are, and are filled in; the one it fails at is not.
  lemma ValidationDecides(groups: seq<Group>, params: Params)
    ensures var r := Validate(groups, params);
            && (forall v :: v in r.visited ==> GroupAcceptable(groups, params, v))
            && (forall v :: v in r.visited ==> At(r.params, v) == Some(GroupFilled(groups, params, v)))
            && (r.Failed? ==> !GroupAcceptable(groups, params, r.at))
  {
    hide Validate, CheckOf, GroupAcceptable, Rewritten, At, Reached, HidesOf, Distinct, GroupFilled;
    ValidationVisits(groups, params);
    var r := Validate(groups, params);
    forall v | v in r.visited
      ensures GroupAcceptable(groups, params, v) && At(r.params, v) == Some(GroupFilled(groups, params, v))
    {
      CheckOfDecided(groups, params, v);
      ValidationRewrites(groups, params, v);
    }
    if r.Failed? {
      CheckOfDecided(groups, params, r.at);
    }
  }
}
