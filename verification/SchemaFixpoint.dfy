/** What a settled document looks like, and that checking settles: a document that
    passes is rewritten to a settled one, and settled ones are left alone. */
module SchemaFixpoint {
  import opened Formula
  import opened Bytes
  import opened Schema

  predicate InBounds(v: int, min: Option<int>, max: Option<int>) {
    (min.Some? ==> min.value <= v) && (max.Some? ==> v <= max.value)
  }

  // A place in a document that meets its element: present, of the element's own
  // type, within its bounds, and so on inside.
  predicate Meets(e: Element, slot: Option<Json>)
    decreases e, 0
  {
    match e
    case Integral(_, allowZero, min, max, _) =>
      slot.Some? && slot.value.Int? && InBounds(slot.value.i, min, max) && (allowZero || slot.value.i != 0)
    case Decimal(_, allowZero, low, high, _) =>
      && slot.Some? && slot.value.Real? && (allowZero || slot.value.r != 0.0)
      && (low.Some? ==> low.value <= slot.value.r) && (high.Some? ==> slot.value.r <= high.value)
    case Complex(_, _) => slot.Some? && slot.value.Str?
    case Text(_, allowZero, shortest, longest, _) =>
      && slot.Some? && slot.value.Str? && (allowZero || |slot.value.s| > 0)
      && (shortest.Some? ==> shortest.value <= |slot.value.s|)
      && (longest.Some? ==> |slot.value.s| <= longest.value)
    case Color(_, _, _, _) =>
      && slot.Some? && slot.value.Arr? && |slot.value.items| >= 3
      && forall k :: 0 <= k < 3 ==> slot.value.items[k].Int? && 0 <= slot.value.items[k].i < 256
    case Selector(_, choices, _) =>
      HasSelection(slot) &&
      var m := slot.value.members;
      var v := m["selected"].s;
      && OptionActuators(choices, v).Some?
      && var sub := SubElement(choices, v);
         if sub.None? then true
         else
           assert exists c :: c in choices && c.sub == sub;
           Meets(sub.value, At(m, sub.value.id))
    case Tuple(_, elms) => elms == [] || (slot.Some? && slot.value.Obj? && MeetsAll(elms, slot.value.members))
    case Array(_, elm, _, most) =>
      && slot.Some? && slot.value.Arr? && Fewest(e) <= |slot.value.items|
      && (most.Some? ==> |slot.value.items| <= most.value)
      && MeetsEach(elm, slot.value.items)
  }

  predicate MeetsAll(es: seq<Element>, m: map<string, Json>)
    decreases es, 0
  {
    es == [] || (Meets(es[0], At(m, es[0].id)) && MeetsAll(es[1..], m))
  }

  predicate MeetsEach(e: Element, items: seq<Json>)
    decreases e, 1 + |items|
  {
    items == [] || (Meets(e, Some(items[0])) && MeetsEach(e, items[1..]))
  }

  predicate KeepsText(e: Element) {
    e.Text? || e.Complex? || (e.Tuple? && e.elms == [])
  }

  // Siblings with places of their own, or that leave a shared place as either makes it.
  predicate Agree(a: Element, b: Element) {
    || a.id != b.id
    || a == b
    || (a.Integral? && b.Integral?)
    || (a.Decimal? && b.Decimal?)
    || (a.Color? && b.Color?)
    || ((a.Text? || a.Complex?) && (b.Text? || b.Complex?))
  }

  predicate SiblingsAgree(es: seq<Element>) {
    forall i, j :: 0 <= i < j < |es| ==> Agree(es[i], es[j])
  }

  // A sub-element beside the choice: elsewhere, or it keeps a text, or it refuses one.
  predicate KeepsChoice(sub: Element) {
    sub.id != "selected" || KeepsText(sub) || Verify(sub, Some(Str("")), []).errs != []
  }

  // Places do not clash: siblings agree, no sub-element in force overwrites the choice,
  // and no array that may be empty is capped below zero.
  predicate Sane(e: Element)
    decreases e, 0
  {
    match e
    case Selector(_, choices, _) =>
      forall c :: c in choices ==>
        var sub := SubElement(choices, c.id);
        if sub.None? then true
        else
          assert exists d :: d in choices && d.sub == sub;
          KeepsChoice(sub.value) && Sane(sub.value)
    case Tuple(_, elms) => SiblingsAgree(elms) && AllSane(elms)
    case Array(_, elm, fewest, most) => Sane(elm) && (fewest <= 0 && most.Some? ==> 0 <= most.value)
    case _ => true
  }

  predicate AllSane(es: seq<Element>)
    decreases es, 0
  {
    forall e :: e in es ==> Sane(e)
  }

  // ----- Settled documents are left alone -----

  lemma {:induction false} SettledStays(e: Element, slot: Option<Json>, acts: seq<Actuator>)
    requires Meets(e, slot)
    ensures Verify(e, slot, acts).slot == slot && Verify(e, slot, acts).errs == []
    decreases e, 0
  {
    match e
    case Color(_, _, _, _) =>
      var a := slot.value.items;
      assert a == [a[0], a[1], a[2]] + a[3..];
      assert a == [Int(AsInt(a[0]) % 256), Int(AsInt(a[1]) % 256), Int(AsInt(a[2]) % 256)] + a[3..];
    case Selector(_, choices, _) =>
      var m := slot.value.members;
      var v := m["selected"].s;
      var sub := SubElement(choices, v);
      if sub.Some? {
        assert exists c :: c in choices && c.sub == sub;
        SettledStays(sub.value, At(m, sub.value.id), OptionActuators(choices, v).value);
        assert Placed(m, sub.value.id, At(m, sub.value.id)) == m;
      }
    case Tuple(_, elms) =>
      if elms != [] {
        SettledStayAll(elms, slot.value.members, acts);
      }
    case Array(_, elm, _, _) =>
      SettledStayEach(elm, slot.value.items, acts);
    case _ =>
  }

  lemma {:induction false} SettledStayAll(es: seq<Element>, m: map<string, Json>, acts: seq<Actuator>)
    requires MeetsAll(es, m)
    ensures VerifyAll(es, m, acts).members == m && VerifyAll(es, m, acts).errs == []
    decreases es, 0
  {
    if es != [] {
      var slot := At(m, es[0].id);
      SettledStays(es[0], slot, acts);
      assert Placed(m, es[0].id, slot) == m;
      SettledStayAll(es[1..], m, Verify(es[0], slot, acts).acts);
    }
  }

  lemma {:induction false} SettledStayEach(e: Element, items: seq<Json>, acts: seq<Actuator>)
    requires MeetsEach(e, items)
    ensures VerifyItems(e, items, acts).items == items && VerifyItems(e, items, acts).errs == []
    decreases e, 1 + |items|
  {
    if items != [] {
      SettledStays(e, Some(items[0]), acts);
      SettledStayEach(e, items[1..], Verify(e, Some(items[0]), acts).acts);
      assert items == [items[0]] + items[1..];
    }
  }

  // ----- Passing settles -----

  lemma StaysAbsent(e: Element, slot: Option<Json>, acts: seq<Actuator>)
    ensures Verify(e, slot, acts).slot.None? ==> slot.None?
  {
  }

  // The elements of a tuple touch nothing but their own places.
  lemma {:induction false} OthersKept(es: seq<Element>, m: map<string, Json>, acts: seq<Actuator>, id: string)
    requires forall e :: e in es ==> e.id != id
    ensures At(VerifyAll(es, m, acts).members, id) == At(m, id)
    decreases |es|
  {
    if es != [] {
      var c := Verify(es[0], At(m, es[0].id), acts);
      OthersKept(es[1..], Placed(m, es[0].id, c.slot), c.acts, id);
    }
  }

  // A sibling that agrees leaves a settled place as it is, if it passes at all.
  lemma SiblingKeeps(a: Element, b: Element, slot: Option<Json>, acts: seq<Actuator>)
    requires Agree(a, b) && a.id == b.id && Meets(a, slot) && Verify(b, slot, acts).errs == []
    ensures Verify(b, slot, acts).slot == slot
  {
    if a == b || a.Color? {
      SettledStays(b, slot, acts);
    }
  }

  lemma {:induction false} SiblingsKeep(a: Element, es: seq<Element>, m: map<string, Json>, acts: seq<Actuator>)
    requires (forall e :: e in es ==> Agree(a, e)) && Meets(a, At(m, a.id)) && VerifyAll(es, m, acts).errs == []
    ensures At(VerifyAll(es, m, acts).members, a.id) == At(m, a.id)
    decreases |es|
  {
    if es != [] {
      var c := Verify(es[0], At(m, es[0].id), acts);
      VerifyAllStep(es, m, acts);
      if es[0].id == a.id {
        SiblingKeeps(a, es[0], At(m, a.id), acts);
      }
      hide Verify, VerifyAll, Meets, Agree;
      SiblingsKeep(a, es[1..], Placed(m, es[0].id, c.slot), c.acts);
    }
  }

  // What an element makes of a place, and whether it passes, is not up to the actuators.
  lemma {:induction false} ActuatorsAside(e: Element, slot: Option<Json>, a: seq<Actuator>, b: seq<Actuator>)
    ensures Verify(e, slot, a).slot == Verify(e, slot, b).slot && Verify(e, slot, a).errs == Verify(e, slot, b).errs
    decreases e, 0
  {
    match e
    case Tuple(_, elms) =>
      ActuatorsAsideAll(elms, if slot.Some? && slot.value.Obj? then slot.value.members else map[], a, b);
    case Array(_, elm, _, _) =>
      ActuatorsAsideEach(elm, if slot.Some? && slot.value.Arr? then slot.value.items else [], a, b);
    case _ =>
  }

  lemma {:induction false} ActuatorsAsideAll(es: seq<Element>, m: map<string, Json>, a: seq<Actuator>, b: seq<Actuator>)
    ensures VerifyAll(es, m, a).members == VerifyAll(es, m, b).members
    ensures VerifyAll(es, m, a).errs == VerifyAll(es, m, b).errs
    decreases es, 0
  {
    if es != [] {
      var slot := At(m, es[0].id);
      ActuatorsAside(es[0], slot, a, b);
      ActuatorsAsideAll(es[1..], Placed(m, es[0].id, Verify(es[0], slot, a).slot),
                        Verify(es[0], slot, a).acts, Verify(es[0], slot, b).acts);
    }
  }

  lemma {:induction false} ActuatorsAsideEach(e: Element, items: seq<Json>, a: seq<Actuator>, b: seq<Actuator>)
    ensures VerifyItems(e, items, a).items == VerifyItems(e, items, b).items
    ensures VerifyItems(e, items, a).errs == VerifyItems(e, items, b).errs
    decreases e, 1 + |items|
  {
    if items != [] {
      ActuatorsAside(e, Some(items[0]), a, b);
      ActuatorsAsideEach(e, items[1..], Verify(e, Some(items[0]), a).acts, Verify(e, Some(items[0]), b).acts);
    }
  }

  // An element that keeps no text treats all texts alike, and makes something else of them.
  lemma TextsAlike(e: Element, s: string, acts: seq<Actuator>)
    requires !KeepsText(e)
    ensures Verify(e, Some(Str(s)), acts).errs == Verify(e, Some(Str("")), []).errs
    ensures var c := Verify(e, Some(Str(s)), acts);
            c.errs == [] ==> c.slot.Some? && !c.slot.value.Str?
  {
    ActuatorsAside(e, Some(Str("")), acts, []);
  }

  // A passing element's place then meets the element, and raises the same actuators.
  lemma {:induction false} PassingSettles(e: Element, slot: Option<Json>, acts: seq<Actuator>)
    requires Sane(e) && Verify(e, slot, acts).errs == []
    ensures var c := Verify(e, slot, acts);
            Meets(e, c.slot) && Verify(e, c.slot, acts) == c
    decreases e, 1
  {
    match e
    case Selector(_, choices, default) =>
      SelectorSettles(e, slot, acts);
    case Color(_, _, _, _) =>
      ColorSettles(e, slot, acts);
    case Tuple(_, elms) =>
      if elms != [] {
        PassingSettlesAll(elms, if slot.Some? && slot.value.Obj? then slot.value.members else map[], acts);
      }
    case Array(_, elm, _, _) =>
      PassingSettlesEach(elm, if slot.Some? && slot.value.Arr? then slot.value.items else [], acts);
    case _ =>
  }

  lemma ColorSettles(e: Element, slot: Option<Json>, acts: seq<Actuator>)
    requires e.Color? && Verify(e, slot, acts).errs == []
    ensures var c := Verify(e, slot, acts);
            Meets(e, c.slot) && Verify(e, c.slot, acts) == c
  {
    var a := Verify(e, slot, acts).slot.value.items;
    assert a == [a[0], a[1], a[2]] + a[3..];
    assert a == [Int(AsInt(a[0]) % 256), Int(AsInt(a[1]) % 256), Int(AsInt(a[2]) % 256)] + a[3..];
  }

  lemma {:induction false} SelectorSettles(e: Element, slot: Option<Json>, acts: seq<Actuator>)
    requires e.Selector? && Sane(e) && Verify(e, slot, acts).errs == []
    ensures var c := Verify(e, slot, acts);
            Meets(e, c.slot) && Verify(e, c.slot, acts) == c
    decreases e, 0
  {
    var m := if HasSelection(slot) then slot.value.members else map["selected" := Str(e.default)];
    var v := m["selected"].s;
    var sub := SubElement(e.choices, v);
    if sub.Some? {
      assert exists c :: c in e.choices && c.sub == sub;
      var chosen := OptionActuators(e.choices, v).value;
      var id := sub.value.id;
      var c := Verify(sub.value, At(m, id), chosen);
      assert KeepsChoice(sub.value) && Sane(sub.value);
      if id == "selected" && !KeepsText(sub.value) {
        TextsAlike(sub.value, v, chosen);
      }
      PassingSettles(sub.value, At(m, id), chosen);
      StaysAbsent(sub.value, At(m, id), chosen);
      var after := Placed(m, id, c.slot);
      assert At(after, id) == c.slot && after["selected"] == m["selected"];
      assert Placed(after, id, c.slot) == after;
    }
  }

  // The first of several elements, and the rest.
  lemma VerifyAllStep(es: seq<Element>, m: map<string, Json>, acts: seq<Actuator>)
    requires es != []
    ensures var c := Verify(es[0], At(m, es[0].id), acts);
            var r := VerifyAll(es[1..], Placed(m, es[0].id, c.slot), c.acts);
            VerifyAll(es, m, acts) == CheckedAll(r.members, c.errs + r.errs, r.acts)
  {
    hide Verify;
  }

  lemma {:induction false} PassingSettlesAll(es: seq<Element>, m: map<string, Json>, acts: seq<Actuator>)
    requires SiblingsAgree(es) && AllSane(es) && VerifyAll(es, m, acts).errs == []
    ensures var r := VerifyAll(es, m, acts);
            MeetsAll(es, r.members) && VerifyAll(es, r.members, acts) == r
    decreases es, 0
  {
    if es != [] {
      var id := es[0].id;
      VerifyAllStep(es, m, acts);
      hide Verify, VerifyAll, Meets, Sane, Placed, At, Agree;
      var c := Verify(es[0], At(m, id), acts);
      var m1 := Placed(m, id, c.slot);
      var r := VerifyAll(es[1..], m1, c.acts);
      PassingSettles(es[0], At(m, id), acts);
      StaysAbsent(es[0], At(m, id), acts);
      FirstPlaced(m, id, c.slot);
      PassingSettlesAll(es[1..], m1, c.acts);
      SiblingsKeep(es[0], es[1..], m1, c.acts);
      FirstPlaced(r.members, id, c.slot);
      VerifyAllStep(es, r.members, acts);
    }
  }

  lemma FirstPlaced(m: map<string, Json>, id: string, slot: Option<Json>)
    ensures slot.Some? || At(m, id).None? ==> At(Placed(m, id, slot), id) == slot
    ensures At(m, id) == slot ==> Placed(m, id, slot) == m
  {
  }

  lemma {:induction false} PassingSettlesEach(e: Element, items: seq<Json>, acts: seq<Actuator>)
    requires Sane(e) && VerifyItems(e, items, acts).errs == []
    ensures var r := VerifyItems(e, items, acts);
            MeetsEach(e, r.items) && VerifyItems(e, r.items, acts) == r
    decreases e, 2 + |items|
  {
    if items != [] {
      var c := Verify(e, Some(items[0]), acts);
      PassingSettles(e, Some(items[0]), acts);
      StaysAbsent(e, Some(items[0]), acts);
      PassingSettlesEach(e, items[1..], c.acts);
    }
  }

  // A document place is settled exactly when checking passes it and changes nothing.
  lemma SettledIff(e: Element, slot: Option<Json>, acts: seq<Actuator>)
    requires Sane(e)
    ensures Meets(e, slot) <==> Verify(e, slot, acts).slot == slot && Verify(e, slot, acts).errs == []
  {
    if Meets(e, slot) {
      SettledStays(e, slot, acts);
    } else if Verify(e, slot, acts).errs == [] {
      PassingSettles(e, slot, acts);
    }
  }

  // ----- Why places must not clash -----

  // Checking again whatever passed changes nothing.
  ghost predicate Settles(e: Element) {
    forall slot, acts :: Verify(e, slot, acts).errs == [] ==>
      Verify(e, Verify(e, slot, acts).slot, acts) == Verify(e, slot, acts)
  }

  // An array capped below zero passes where there is nothing, and is then refused.
  lemma NegativeMaximum(id: string, elm: Element, fewest: int, most: int, acts: seq<Actuator>)
    requires fewest <= 0 && most < 0
    ensures var e := Array(id, elm, fewest, Some(most));
            && Verify(e, None, acts).errs == []
            && Verify(e, Verify(e, None, acts).slot, acts).errs != []
  {
  }

  // The clause on arrays is exact.
  lemma ArraySettlesIff(e: Element)
    requires e.Array? && Sane(e.elm)
    ensures Settles(e) <==> !(e.fewest <= 0 && e.most.Some? && e.most.value < 0)
  {
    if e.fewest <= 0 && e.most.Some? && e.most.value < 0 {
      NegativeMaximum(e.id, e.elm, e.fewest, e.most.value, []);
      assert Verify(e, None, []).errs == [];
    } else {
      SaneSettles(e);
    }
  }

  lemma SaneSettles(e: Element)
    requires Sane(e)
    ensures Settles(e)
  {
    forall slot, acts | Verify(e, slot, acts).errs == []
      ensures Verify(e, Verify(e, slot, acts).slot, acts) == Verify(e, slot, acts)
    {
      PassingSettles(e, slot, acts);
    }
  }

  // The sub-element a choice puts in force.
  function InForce(e: Element, c: Choice): (sub: Option<Element>)
    requires e.Selector?
    ensures sub.Some? ==> exists d :: d in e.choices && d.id == c.id && d.sub == sub
  {
    SubElement(e.choices, c.id)
  }

  lemma {:induction false} OptionKnown(choices: seq<Choice>, c: Choice)
    requires c in choices
    ensures OptionActuators(choices, c.id).Some?
    decreases |choices|
  {
    var n := |choices| - 1;
    assert choices == choices[..n] + [choices[n]];
    if choices[n].id != c.id {
      OptionKnown(choices[..n], c);
    }
  }

  // So is the clause on selectors.
  lemma SelectorSettlesIff(e: Element)
    requires e.Selector? && forall c :: c in e.choices && InForce(e, c).Some? ==> Sane(InForce(e, c).value)
    ensures Settles(e) <==> forall c :: c in e.choices && InForce(e, c).Some? ==> KeepsChoice(InForce(e, c).value)
  {
    if c :| c in e.choices && InForce(e, c).Some? && !KeepsChoice(InForce(e, c).value) {
      ChoiceLost(e, c);
    } else {
      SaneSettles(e);
    }
  }

  // The choice is overwritten with something else, and what stood beside it is kept.
  lemma ChoiceOverwritten(e: Element, c: Choice, key: string)
    requires e.Selector? && c in e.choices && InForce(e, c).Some? && !KeepsChoice(InForce(e, c).value)
    requires key != "selected"
    ensures var r := Verify(e, Some(Obj(map["selected" := Str(c.id), key := Null])), []);
            && r.errs == [] && !HasSelection(r.slot)
            && r.slot.Some? && r.slot.value.Obj? && key in r.slot.value.members
  {
    OptionKnown(e.choices, c);
    TextsAlike(InForce(e, c).value, c.id, OptionActuators(e.choices, c.id).value);
    hide KeepsText, SubElement, OptionActuators;
  }

  // With no choice to be read a new object is made, for the default choice alone.
  lemma FreshObject(e: Element, slot: Option<Json>, key: string)
    requires e.Selector? && !HasSelection(slot) && key != "selected"
    requires var later := SubElement(e.choices, e.default); later.Some? ==> later.value.id != key
    ensures var r := Verify(e, slot, []).slot;
            r.Some? && r.value.Obj? && key !in r.value.members
  {
    hide SubElement, OptionActuators;
  }

  // So whatever stood beside the choice is gone when the place is checked again.
  lemma ChoiceLost(e: Element, c: Choice)
    requires e.Selector? && c in e.choices && InForce(e, c).Some? && !KeepsChoice(InForce(e, c).value)
    ensures !Settles(e)
  {
    var later := SubElement(e.choices, e.default);
    var key := if later.Some? && later.value.id == "a" then "b" else "a";
    var slot := Some(Obj(map["selected" := Str(c.id), key := Null]));
    hide KeepsChoice, HasSelection, Verify, SubElement;
    ChoiceOverwritten(e, c, key);
    FreshObject(e, Verify(e, slot, []).slot, key);
  }

  // Two siblings sharing a place, and a sub-element called "selected": each passes once
  // and is refused when checked again.
  lemma SharedPlace(acts: seq<Actuator>)
    ensures var f := Integral("a", true, None, Some(3), Some(5));
            var g := Array("a", Text("c", true, None, None, ""), 0, None);
            var es := [f, g];
            var m: map<string, Json> := map["a" := Int(2)];
            && VerifyAll(es, m, acts).errs == []
            && VerifyAll(es, VerifyAll(es, m, acts).members, acts).errs != []
  {
    var f := Integral("a", true, None, Some(3), Some(5));
    var g := Array("a", Text("c", true, None, None, ""), 0, None);
    var m: map<string, Json>, n: map<string, Json> := map["a" := Int(2)], map["a" := Arr([])];
    assert [f, g][1..] == [g] && [g][1..] == [];
    assert VerifyAll([g], m, acts) == CheckedAll(m["a" := Arr([])], [], acts);
    assert m["a" := Int(2)] == m && m["a" := Arr([])] == n;
  }

  lemma SelectedPlace(acts: seq<Actuator>)
    ensures var e := Selector("s", [Choice("x", [], Some(Integral("selected", true, None, None, None)))], "");
            var slot := Some(Obj(map["selected" := Str("x")]));
            && Verify(e, slot, acts).errs == []
            && Verify(e, Verify(e, slot, acts).slot, acts).errs != []
  {
  }
}
