/** `verifyElement`, element kind by element kind, rewriting the object it is given. */
module SchemaElement {
  import opened Sequences
  import opened Formula
  import opened Bytes
  import opened Schema

  // The object an element is checked in, the errors so far, and the actuators.
  datatype Sheet = Sheet(members: map<string, Json>, errs: seq<Problem>, acts: seq<Actuator>)

  // What checking one element does to a sheet: its own place, nothing else.
  function After(e: Element, s: Sheet): Sheet {
    var c := Verify(e, At(s.members, e.id), s.acts);
    Sheet(Placed(s.members, e.id, c.slot), s.errs + c.errs, c.acts)
  }

  function AfterAll(es: seq<Element>, s: Sheet): Sheet {
    var r := VerifyAll(es, s.members, s.acts);
    Sheet(r.members, s.errs + r.errs, r.acts)
  }

  lemma AfterAllStep(es: seq<Element>, s: Sheet)
    requires es != []
    ensures AfterAll(es, s) == AfterAll(es[1..], After(es[0], s))
  {
    hide Verify;
    var c := Verify(es[0], At(s.members, es[0].id), s.acts);
    var r := VerifyAll(es[1..], Placed(s.members, es[0].id, c.slot), c.acts);
    assert s.errs + c.errs + r.errs == s.errs + (c.errs + r.errs);
  }

  function AddUnless(errs: seq<Problem>, ok: bool, p: Problem): seq<Problem> {
    if ok then errs else errs + [p]
  }

  // Problems added one at a time are the list of them added at once.
  lemma Appended(errs: seq<Problem>, a: bool, p: Problem, b: bool, q: Problem, c: bool, r: Problem)
    ensures errs + (Unless(a, p) + Unless(b, q) + Unless(c, r))
         == AddUnless(AddUnless(AddUnless(errs, a, p), b, q), c, r)
  {
    assert Unless(a, p) + Unless(b, q) + Unless(c, r) == Unless(a, p) + (Unless(b, q) + Unless(c, r));
  }

  method VerifyNumber(e: Element, s: Sheet) returns (t: Sheet)
    requires e.Integral?
    ensures t == After(e, s)
  {
    var val := DefaultInt(e);
    if e.id in s.members && IsNumeric(s.members[e.id]) {
      val := AsInt(s.members[e.id]);
    }
    Appended(s.errs, e.allowZero || val != 0, IllegallyZero, e.max.Some? ==> val <= e.max.value, AboveMaximum,
             e.min.Some? ==> val >= e.min.value, BelowMinimum);
    hide Unless;
    var err := s.errs;
    if !e.allowZero && val == 0 {
      err := err + [IllegallyZero];
    }
    if e.max.Some? && val > e.max.value {
      err := err + [AboveMaximum];
    }
    if e.min.Some? && val < e.min.value {
      err := err + [BelowMinimum];
    }
    t := Sheet(s.members[e.id := Int(val)], err, s.acts);
  }

  method VerifyReal(e: Element, s: Sheet) returns (t: Sheet)
    requires e.Decimal?
    ensures t == After(e, s)
  {
    var val := DefaultReal(e);
    if e.id in s.members && IsNumeric(s.members[e.id]) {
      val := AsReal(s.members[e.id]);
    }
    Appended(s.errs, e.allowZero || val != 0.0, IllegallyZero, e.high.Some? ==> val <= e.high.value, AboveMaximum,
             e.low.Some? ==> val >= e.low.value, BelowMinimum);
    hide Unless;
    var err := s.errs;
    if !e.allowZero && val == 0.0 {
      err := err + [IllegallyZero];
    }
    if e.high.Some? && val > e.high.value {
      err := err + [AboveMaximum];
    }
    if e.low.Some? && val < e.low.value {
      err := err + [BelowMinimum];
    }
    t := Sheet(s.members[e.id := Real(val)], err, s.acts);
  }

  method VerifyText(e: Element, s: Sheet) returns (t: Sheet)
    requires e.Text? || e.Complex?
    ensures t == After(e, s)
  {
    var val := e.default;
    if e.id in s.members && s.members[e.id].Str? {
      val := s.members[e.id].s;
    }
    var err := s.errs;
    if e.Text? {
      Appended(s.errs, e.allowZero || val != "", IllegallyZero,
               e.longest.Some? ==> |val| <= e.longest.value, AboveMaximum,
               e.shortest.Some? ==> |val| >= e.shortest.value, BelowMinimum);
      hide Unless;
      if !e.allowZero && |val| == 0 {
        err := err + [IllegallyZero];
      }
      if e.longest.Some? && |val| > e.longest.value {
        err := err + [AboveMaximum];
      }
      if e.shortest.Some? && |val| < e.shortest.value {
        err := err + [BelowMinimum];
      }
    }
    t := Sheet(s.members[e.id := Str(val)], err, s.acts);
  }

  method VerifyColour(e: Element, s: Sheet) returns (t: Sheet)
    requires e.Color?
    ensures t == After(e, s)
  {
    var red, green, blue := e.red, e.green, e.blue;
    var rest: seq<Json> := [];
    if e.id in s.members && !s.members[e.id].Null? {
      if !s.members[e.id].Arr? {
        return Sheet(s.members[e.id := s.members[e.id]], s.errs + [JsonFault], s.acts);
      }
      var a := s.members[e.id].items;
      if |a| >= 3 {
        if !IsNumeric(a[0]) || !IsNumeric(a[1]) || !IsNumeric(a[2]) {
          return Sheet(s.members[e.id := Arr(a)], s.errs + [InvalidColor], s.acts);
        }
        if !IsChannel(a[0]) || !IsChannel(a[1]) || !IsChannel(a[2]) {
          return Sheet(s.members[e.id := Arr(a)], s.errs + [JsonFault], s.acts);
        }
        red, green, blue := AsInt(a[0]) % 256, AsInt(a[1]) % 256, AsInt(a[2]) % 256;
        rest := a[3..];
      }
    }
    t := Sheet(s.members[e.id := Arr([Int(red), Int(green), Int(blue)] + rest)], s.errs, s.acts);
    assert [Int(red), Int(green), Int(blue)] + [] == [Int(red), Int(green), Int(blue)];
  }

  // The sheet a tuple's elements are checked on.
  function Inner(e: Element, s: Sheet): Sheet {
    Sheet(if e.id in s.members && s.members[e.id].Obj? then s.members[e.id].members else map[], s.errs, s.acts)
  }

  function WithObject(s: Sheet, id: string, inner: Sheet): Sheet {
    Sheet(s.members[id := Obj(inner.members)], inner.errs, inner.acts)
  }

  lemma TupleAfter(e: Element, s: Sheet)
    requires e.Tuple?
    ensures After(e, s) == if e.elms == [] then s else WithObject(s, e.id, AfterAll(e.elms, Inner(e, s)))
  {
    hide VerifyAll, VerifyItems;
    if e.elms == [] {
      assert s.errs + [] == s.errs && Placed(s.members, e.id, At(s.members, e.id)) == s.members;
    }
  }

  lemma InnerOfObject(e: Element, s: Sheet, inner: Sheet)
    ensures Inner(e, WithObject(s, e.id, inner)) == inner
    ensures WithObject(WithObject(s, e.id, inner), e.id, inner) == WithObject(s, e.id, inner)
  {
  }

  lemma WithObjectTwice(s: Sheet, id: string, a: Sheet, b: Sheet)
    ensures WithObject(WithObject(s, id, a), id, b) == WithObject(s, id, b)
  {
    assert s.members[id := Obj(a.members)][id := Obj(b.members)] == s.members[id := Obj(b.members)];
  }

  lemma AfterNone(s: Sheet)
    ensures AfterAll([], s) == s
  {
    assert s.errs + [] == s.errs;
  }

  // A tuple's elements are checked inside its object, made fresh if there is none.
  method VerifyTuple(e: Element, s: Sheet) returns (t: Sheet)
    requires e.Tuple?
    ensures t == After(e, s)
    decreases e, 0
  {
    hide After, AfterAll, WithObject, Inner, Verify, VerifyAll;
    TupleAfter(e, s);
    t := s;
    ghost var inner := Inner(e, s);
    ghost var whole := AfterAll(e.elms, inner);
    assert e.elms[0..] == e.elms;
    var i := 0;
    while i < |e.elms|
      invariant i <= |e.elms| && Inner(e, t) == inner && whole == AfterAll(e.elms[i..], inner)
      invariant t == if i == 0 then s else WithObject(s, e.id, inner)
    {
      AfterAllStep(e.elms[i..], inner);
      assert e.elms[i..][0] == e.elms[i] && e.elms[i..][1..] == e.elms[i + 1..];
      var container := map[];
      if e.id in t.members && t.members[e.id].Obj? {
        container := t.members[e.id].members;
      }
      InnerIs(e, t);
      var u := VerifyElement(e.elms[i], Sheet(container, t.errs, t.acts));
      WithObjectIs(t, e.id, u);
      WithObjectTwice(s, e.id, inner, u);
      InnerOfObject(e, s, u);
      t := Sheet(t.members[e.id := Obj(u.members)], u.errs, u.acts);
      inner := u;
      i := i + 1;
    }
    assert e.elms[i..] == [];
    AfterNone(inner);
  }

  lemma InnerIs(e: Element, s: Sheet)
    ensures Inner(e, s)
         == Sheet(if e.id in s.members && s.members[e.id].Obj? then s.members[e.id].members else map[], s.errs, s.acts)
  {
  }

  lemma WithObjectIs(s: Sheet, id: string, inner: Sheet)
    ensures WithObject(s, id, inner) == Sheet(s.members[id := Obj(inner.members)], inner.errs, inner.acts)
  {
  }

  // Items already checked, then the rest.
  function Onto(items: seq<Json>, errs: seq<Problem>, rest: CheckedItems): CheckedItems {
    CheckedItems(items + rest.items, errs + rest.errs, rest.acts)
  }

  lemma ItemStep(e: Element, given: seq<Json>, i: nat, done: seq<Json>, errs: seq<Problem>, acts: seq<Actuator>)
    requires i < |given|
    ensures var c := Verify(e, Some(given[i]), acts);
            c.slot.Some? && Onto(done, errs, VerifyItems(e, given[i..], acts))
            == Onto(done + [c.slot.value], errs + c.errs, VerifyItems(e, given[i + 1..], c.acts))
  {
    var c := Verify(e, Some(given[i]), acts);
    assert c.slot.Some?;
    hide Verify;
    var rest := VerifyItems(e, given[i + 1..], c.acts);
    assert given[i..][0] == given[i] && given[i..][1..] == given[i + 1..];
    assert done + ([c.slot.value] + rest.items) == done + [c.slot.value] + rest.items;
    assert errs + (c.errs + rest.errs) == errs + c.errs + rest.errs;
  }

  lemma Wrapped(e: Element, item: Json, errs: seq<Problem>, acts: seq<Actuator>)
    ensures var c, t := Verify(e, Some(item), acts), After(e, Sheet(map[e.id := item], errs, acts));
            c.slot.Some? && e.id in t.members && t.members[e.id] == c.slot.value
            && t.errs == errs + c.errs && t.acts == c.acts
  {
  }

  // An array's items are wrapped, one at a time, in an object of their own.
  method VerifyEach(e: Element, given: seq<Json>, err: seq<Problem>, acts: seq<Actuator>)
    returns (items: seq<Json>, errs: seq<Problem>, last: seq<Actuator>)
    ensures CheckedItems(items, errs, last) == Onto([], err, VerifyItems(e, given, acts))
    decreases e, 2
  {
    hide *;
    items, errs, last := given, err, acts;
    ghost var whole := Onto([], err, VerifyItems(e, given, acts));
    assert given[0..] == given && items[..0] == [];
    var i := 0;
    while i < |items|
      invariant i <= |items| == |given| && items[i..] == given[i..]
      invariant Onto(items[..i], errs, VerifyItems(e, given[i..], last)) == whole
    {
      ItemStep(e, given, i, items[..i], errs, last);
      assert items[i] == items[i..][0] == given[i];
      Wrapped(e, items[i], errs, last);
      var u := VerifyElement(e, Sheet(map[e.id := items[i]], errs, last));
      ghost var before := items;
      items := items[i := u.members[e.id]];
      assert items[..i + 1] == before[..i] + [items[i]];
      assert items[i + 1..] == before[i..][1..] == given[i..][1..] == given[i + 1..];
      errs, last := u.errs, u.acts;
      i := i + 1;
    }
    assert given[i..] == [] && items[..i] == items;
    NoItems(e, items, errs, last);
  }

  lemma NoItems(e: Element, items: seq<Json>, errs: seq<Problem>, acts: seq<Actuator>)
    ensures Onto(items, errs, VerifyItems(e, [], acts)) == CheckedItems(items, errs, acts)
  {
  }

  lemma ArrayAfter(e: Element, s: Sheet, items: seq<Json>)
    requires e.Array? && (e.id in s.members || Fewest(e) > 0)
    requires items == if e.id in s.members && s.members[e.id].Arr? then s.members[e.id].items else []
    ensures var rest := VerifyItems(e.elm, items, s.acts);
            After(e, s)
            == Sheet(s.members[e.id := Arr(rest.items)], s.errs + (SizeProblems(e, |items|) + rest.errs), rest.acts)
  {
    hide VerifyItems, VerifyAll, SizeProblems;
  }

  lemma SizeAppended(e: Element, errs: seq<Problem>, n: nat)
    requires e.Array?
    ensures var first := if e.most.Some? && n > e.most.value then errs + [AboveMaximum] else errs;
            errs + SizeProblems(e, n) == if n < Fewest(e) then first + [BelowMinimum] else first
  {
  }

  method VerifyArray(e: Element, s: Sheet) returns (t: Sheet)
    requires e.Array?
    ensures t == After(e, s)
    decreases e, 0
  {
    if e.id !in s.members && Fewest(e) == 0 {
      return Sheet(s.members[e.id := Arr([])], s.errs, s.acts);
    }
    var items: seq<Json> := [];
    if e.id in s.members && s.members[e.id].Arr? {
      items := s.members[e.id].items;
    }
    ArrayAfter(e, s, items);
    SizeAppended(e, s.errs, |items|);
    hide After, Verify, VerifyItems, VerifyAll, SizeProblems;
    var err := s.errs;
    if e.most.Some? && |items| > e.most.value {
      err := err + [AboveMaximum];
    }
    if |items| < Fewest(e) {
      err := err + [BelowMinimum];
    }
    ghost var rest := VerifyItems(e.elm, items, s.acts);
    var checked, errs, acts := VerifyEach(e.elm, items, err, s.acts);
    Assoc(s.errs, SizeProblems(e, |items|), rest.errs);
    assert [] + rest.items == rest.items;
    t := Sheet(s.members[e.id := Arr(checked)], errs, acts);
  }

  // The chosen option's sub-element is checked beside the choice itself.
  method VerifySelector(e: Element, s: Sheet) returns (t: Sheet)
    requires e.Selector?
    ensures t == After(e, s)
    decreases e, 0
  {
    var m := map["selected" := Str(e.default)];
    if HasSelection(At(s.members, e.id)) {
      m := s.members[e.id].members;
    }
    var val := m["selected"].s;
    var chosen := OptionActuators(e.choices, val);
    if chosen.None? {
      return Sheet(s.members[e.id := Obj(m)], s.errs + [IllegalOption], s.acts);
    }
    t := Sheet(s.members[e.id := Obj(m)], s.errs, chosen.value);
    var sub := SubElement(e.choices, val);
    if sub.Some? {
      assert exists c :: c in e.choices && c.sub == sub;
      var u := VerifyElement(sub.value, Sheet(m, t.errs, t.acts));
      t := Sheet(s.members[e.id := Obj(u.members)], u.errs, u.acts);
    }
  }

  method VerifyElement(e: Element, s: Sheet) returns (t: Sheet)
    ensures t == After(e, s)
    decreases e, 1
  {
    match e
    case Integral(_, _, _, _, _) => t := VerifyNumber(e, s);
    case Decimal(_, _, _, _, _) => t := VerifyReal(e, s);
    case Complex(_, _) => t := VerifyText(e, s);
    case Text(_, _, _, _, _) => t := VerifyText(e, s);
    case Color(_, _, _, _) => t := VerifyColour(e, s);
    case Tuple(_, _) => t := VerifyTuple(e, s);
    case Array(_, _, _, _) => t := VerifyArray(e, s);
    case Selector(_, _, _) => t := VerifySelector(e, s);
  }
}
