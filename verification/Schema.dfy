/** Parameter documents and the schema elements they are checked against: what
    `verifyElement` makes of one element's place in a document. */
module Schema {
  import opened Formula
  import opened Bytes

  datatype Json =
    | Null
    | Bool(b: bool)
    | Int(i: int)
    | Real(r: real)
    | Str(s: string)
    | Arr(items: seq<Json>)
    | Obj(members: map<string, Json>)

  // What a selector option does to other groups.
  datatype Actuator = Actuator(show: bool, pattern: string)

  datatype Choice = Choice(id: string, actuators: seq<Actuator>, sub: Option<Element>)

  datatype Element =
    | Integral(id: string, allowZero: bool, min: Option<int>, max: Option<int>, givenInt: Option<int>)
    | Decimal(id: string, allowZero: bool, low: Option<real>, high: Option<real>, givenReal: Option<real>)
    | Complex(id: string, default: string)
    | Text(id: string, allowZero: bool, shortest: Option<nat>, longest: Option<nat>, default: string)
    | Selector(id: string, choices: seq<Choice>, default: string)
    | Color(id: string, red: Byte, green: Byte, blue: Byte)
    | Tuple(id: string, elms: seq<Element>)
    | Array(id: string, elm: Element, fewest: int, most: Option<int>)

  datatype Problem = IllegallyZero | AboveMaximum | BelowMinimum | IllegalOption | InvalidColor | JsonFault

  // The element's place afterwards, what was wrong, and the actuators in force.
  datatype Checked = Checked(slot: Option<Json>, errs: seq<Problem>, acts: seq<Actuator>)

  datatype CheckedAll = CheckedAll(members: map<string, Json>, errs: seq<Problem>, acts: seq<Actuator>)

  datatype CheckedItems = CheckedItems(items: seq<Json>, errs: seq<Problem>, acts: seq<Actuator>)

  // ----- Reading numbers -----

  predicate IsNumeric(j: Json) {
    j.Int? || j.Real?
  }

  function Truncate(r: real): int {
    if r >= 0.0 then r.Floor else -(-r).Floor
  }

  function AsInt(j: Json): int
    requires IsNumeric(j)
  {
    if j.Int? then j.i else Truncate(j.r)
  }

  function AsReal(j: Json): real
    requires IsNumeric(j)
  {
    if j.Int? then j.i as real else j.r
  }

  // ----- Constraints -----

  function Unless(ok: bool, p: Problem): seq<Problem> {
    if ok then [] else [p]
  }

  function IntProblems(e: Element, v: int): seq<Problem>
    requires e.Integral?
  {
    Unless(e.allowZero || v != 0, IllegallyZero)
    + Unless(e.max.Some? ==> v <= e.max.value, AboveMaximum)
    + Unless(e.min.Some? ==> v >= e.min.value, BelowMinimum)
  }

  function RealProblems(e: Element, v: real): seq<Problem>
    requires e.Decimal?
  {
    Unless(e.allowZero || v != 0.0, IllegallyZero)
    + Unless(e.high.Some? ==> v <= e.high.value, AboveMaximum)
    + Unless(e.low.Some? ==> v >= e.low.value, BelowMinimum)
  }

  function TextProblems(e: Element, v: string): seq<Problem>
    requires e.Text?
  {
    Unless(e.allowZero || v != "", IllegallyZero)
    + Unless(e.longest.Some? ==> |v| <= e.longest.value, AboveMaximum)
    + Unless(e.shortest.Some? ==> |v| >= e.shortest.value, BelowMinimum)
  }

  // An array's lower bound is never below zero.
  function Fewest(e: Element): nat
    requires e.Array?
  {
    if e.fewest >= 0 then e.fewest else 0
  }

  function SizeProblems(e: Element, n: nat): seq<Problem>
    requires e.Array?
  {
    Unless(e.most.Some? ==> n <= e.most.value, AboveMaximum) + Unless(n >= Fewest(e), BelowMinimum)
  }

  function DefaultInt(e: Element): int
    requires e.Integral?
  {
    if e.givenInt.Some? then e.givenInt.value else if e.min.Some? then e.min.value else 1
  }

  function DefaultReal(e: Element): real
    requires e.Decimal?
  {
    if e.givenReal.Some? then e.givenReal.value else if e.low.Some? then e.low.value else 1.0
  }

  // ----- Selectors -----

  // The options are a map built in order, so the last of a name wins.
  function OptionActuators(choices: seq<Choice>, id: string): Option<seq<Actuator>> {
    if choices == [] then None
    else
      var last := choices[|choices| - 1];
      if last.id == id then Some(last.actuators) else OptionActuators(choices[..|choices| - 1], id)
  }

  // The last choice of the name that has a sub-element.
  function SubElement(choices: seq<Choice>, id: string): (r: Option<Element>)
    ensures r.Some? ==> exists c :: c in choices && c.id == id && c.sub == r
  {
    if choices == [] then None
    else
      var last := choices[|choices| - 1];
      if last.id == id && last.sub.Some? then last.sub else SubElement(choices[..|choices| - 1], id)
  }

  predicate HasSelection(slot: Option<Json>) {
    slot.Some? && slot.value.Obj? && "selected" in slot.value.members && slot.value.members["selected"].Str?
  }

  // ----- Colours -----

  predicate IsChannel(j: Json) {
    IsNumeric(j) && 0 <= AsInt(j) < 0x1_0000_0000
  }

  function VerifyColor(e: Element, slot: Option<Json>, acts: seq<Actuator>): Checked
    requires e.Color?
  {
    if slot.None? || slot.value.Null? || (slot.value.Arr? && |slot.value.items| < 3) then
      Checked(Some(Arr([Int(e.red), Int(e.green), Int(e.blue)])), [], acts)
    else if !slot.value.Arr? then Checked(slot, [JsonFault], acts)
    else
      var a := slot.value.items;
      if !(IsNumeric(a[0]) && IsNumeric(a[1]) && IsNumeric(a[2])) then Checked(slot, [InvalidColor], acts)
      else if !(IsChannel(a[0]) && IsChannel(a[1]) && IsChannel(a[2])) then Checked(slot, [JsonFault], acts)
      else
        Checked(Some(Arr([Int(AsInt(a[0]) % 256), Int(AsInt(a[1]) % 256), Int(AsInt(a[2]) % 256)] + a[3..])), [], acts)
  }

  // ----- Verifying -----

  function At(m: map<string, Json>, id: string): Option<Json> {
    if id in m then Some(m[id]) else None
  }

  function Placed(m: map<string, Json>, id: string, slot: Option<Json>): map<string, Json> {
    if slot.Some? then m[id := slot.value] else m
  }

  function Verify(e: Element, slot: Option<Json>, acts: seq<Actuator>): Checked
    decreases e, 0
  {
    match e
    case Integral(_, _, _, _, _) =>
      var v := if slot.Some? && IsNumeric(slot.value) then AsInt(slot.value) else DefaultInt(e);
      Checked(Some(Int(v)), IntProblems(e, v), acts)
    case Decimal(_, _, _, _, _) =>
      var v := if slot.Some? && IsNumeric(slot.value) then AsReal(slot.value) else DefaultReal(e);
      Checked(Some(Real(v)), RealProblems(e, v), acts)
    case Complex(_, default) =>
      Checked(Some(Str(if slot.Some? && slot.value.Str? then slot.value.s else default)), [], acts)
    case Text(_, _, _, _, default) =>
      var v := if slot.Some? && slot.value.Str? then slot.value.s else default;
      Checked(Some(Str(v)), TextProblems(e, v), acts)
    case Color(_, _, _, _) => VerifyColor(e, slot, acts)
    case Selector(_, choices, default) =>
      var m := if HasSelection(slot) then slot.value.members else map["selected" := Str(default)];
      var v := m["selected"].s;
      var chosen := OptionActuators(choices, v);
      if chosen.None? then Checked(Some(Obj(m)), [IllegalOption], acts)
      else
        var sub := SubElement(choices, v);
        if sub.None? then Checked(Some(Obj(m)), [], chosen.value)
        else
          assert exists c :: c in choices && c.sub == sub;
          var c := Verify(sub.value, At(m, sub.value.id), chosen.value);
          Checked(Some(Obj(Placed(m, sub.value.id, c.slot))), c.errs, c.acts)
    case Tuple(_, elms) =>
      if elms == [] then Checked(slot, [], acts)
      else
        var r := VerifyAll(elms, if slot.Some? && slot.value.Obj? then slot.value.members else map[], acts);
        Checked(Some(Obj(r.members)), r.errs, r.acts)
    case Array(_, elm, _, _) =>
      if slot.None? && Fewest(e) == 0 then Checked(Some(Arr([])), [], acts)
      else
        var items := if slot.Some? && slot.value.Arr? then slot.value.items else [];
        var r := VerifyItems(elm, items, acts);
        Checked(Some(Arr(r.items)), SizeProblems(e, |items|) + r.errs, r.acts)
  }

  // A tuple's elements in turn, each in its own place of the same object.
  function VerifyAll(es: seq<Element>, m: map<string, Json>, acts: seq<Actuator>): CheckedAll
    decreases es, 0
  {
    if es == [] then CheckedAll(m, [], acts)
    else
      var c := Verify(es[0], At(m, es[0].id), acts);
      var r := VerifyAll(es[1..], Placed(m, es[0].id, c.slot), c.acts);
      CheckedAll(r.members, c.errs + r.errs, r.acts)
  }

  function VerifyItems(e: Element, items: seq<Json>, acts: seq<Actuator>): (r: CheckedItems)
    ensures |r.items| == |items|
    decreases e, 1 + |items|
  {
    if items == [] then CheckedItems([], [], acts)
    else
      var c := Verify(e, Some(items[0]), acts);
      var r := VerifyItems(e, items[1..], c.acts);
      CheckedItems([if c.slot.Some? then c.slot.value else Null] + r.items, c.errs + r.errs, r.acts)
  }
}
