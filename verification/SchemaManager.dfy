/** Validation of a whole parameter document: a worklist of groups, extended by
    what the options chosen in one group show and cut by what they hide. */
module SchemaManager {
  import opened Sequences
  import opened Formula
  import opened Schema
  import opened SchemaFixpoint
  import SE = SchemaElement

  // The schema's groups, in the order of their names.
  datatype Group = Group(id: string, active: bool, elms: seq<Element>)

  type Params = map<string, Json>

  function Find(groups: seq<Group>, id: string): (r: Option<Group>)
    ensures r.Some? ==> r.value in groups && r.value.id == id
    ensures r.None? ==> forall g :: g in groups ==> g.id != id
  {
    if groups == [] then None
    else if groups[0].id == id then Some(groups[0])
    else Find(groups[1..], id)
  }

  function Actives(groups: seq<Group>): (r: seq<string>) {
    if groups == [] then []
    else (if groups[0].active then [groups[0].id] else []) + Actives(groups[1..])
  }

  // ----- What actuators match -----

  predicate Contains(s: string, part: string) {
    exists i: nat :: i <= |s| && OccursAt(s, part, i)
  }

  predicate IsWild(pattern: string) {
    pattern != "" && pattern[|pattern| - 1] == '*'
  }

  // "text*" stands for every group whose name has the text anywhere in it.
  function WildMatches(groups: seq<Group>, part: string): seq<string> {
    if groups == [] then []
    else (if Contains(groups[0].id, part) then [groups[0].id] else []) + WildMatches(groups[1..], part)
  }

  function Matches(groups: seq<Group>, pattern: string): seq<string> {
    if IsWild(pattern) then WildMatches(groups, pattern[..|pattern| - 1]) else [pattern]
  }

  // What the actuators of one kind match, in order.
  function MatchesOf(groups: seq<Group>, acts: seq<Actuator>, show: bool): seq<string> {
    if acts == [] then []
    else (if acts[0].show == show then Matches(groups, acts[0].pattern) else []) + MatchesOf(groups, acts[1..], show)
  }

  function Shown(groups: seq<Group>, acts: seq<Actuator>): seq<string> {
    MatchesOf(groups, acts, true)
  }

  function Members(s: seq<string>): set<string> {
    set x | x in s
  }

  // Hidden: matched by a hide and by no show of the same choice.
  function Hidden(groups: seq<Group>, acts: seq<Actuator>): set<string> {
    Members(MatchesOf(groups, acts, false)) - Members(Shown(groups, acts))
  }

  // ----- One group -----

  // Whether a group passed, its part of the document afterwards, and the actuators its
  // passing elements raised.
  datatype GroupCheck = GroupCheck(ok: bool, members: map<string, Json>, raised: seq<seq<Actuator>>)

  // Elements in turn; the first one with a problem ends it.
  function CheckGroup(es: seq<Element>, m: map<string, Json>): GroupCheck {
    if es == [] then GroupCheck(true, m, [])
    else
      var c := Verify(es[0], At(m, es[0].id), []);
      var next := Placed(m, es[0].id, c.slot);
      if c.errs != [] then GroupCheck(false, next, [])
      else
        var r := CheckGroup(es[1..], next);
        GroupCheck(r.ok, r.members, [c.acts] + r.raised)
  }

  function AllShown(groups: seq<Group>, raised: seq<seq<Actuator>>): seq<string> {
    if raised == [] then [] else Shown(groups, raised[0]) + AllShown(groups, raised[1..])
  }

  function AllHidden(groups: seq<Group>, raised: seq<seq<Actuator>>): set<string> {
    if raised == [] then {} else Hidden(groups, raised[0]) + AllHidden(groups, raised[1..])
  }

  function Names(groups: seq<Group>): set<string> {
    set g | g in groups :: g.id
  }

  lemma FewerLeft(names: set<string>, parsed: set<string>, id: string, more: set<string>)
    requires id in names && id !in parsed
    ensures |names - (parsed + {id} + more)| < |names - parsed|
  {
    assert names - (parsed + {id} + more) <= (names - parsed) - {id};
    SmallerSet(names - (parsed + {id} + more), (names - parsed) - {id});
  }

  lemma {:induction false} SmallerSet(a: set<string>, b: set<string>)
    requires a <= b
    ensures |a| <= |b|
  {
    if a != {} {
      var x :| x in a;
      SmallerSet(a - {x}, b - {x});
    }
  }

  // ----- The worklist -----

  // How validation ended: the document as rewritten so far, the groups that passed, in
  // order, those counted as dealt with because hidden, and the group that failed.
  datatype Run =
    | Passed(params: Params, visited: seq<string>, hidden: set<string>)
    | Failed(params: Params, visited: seq<string>, hidden: set<string>, at: string)

  // The group's part of a document, when there is one and the schema knows the group.
  predicate Ready(groups: seq<Group>, params: Params, id: string) {
    id in params && params[id].Obj? && Find(groups, id).Some?
  }

  function CheckOf(groups: seq<Group>, params: Params, id: string): GroupCheck {
    if Ready(groups, params, id) then CheckGroup(Find(groups, id).value.elms, params[id].members)
    else GroupCheck(false, map[], [])
  }

  // The document once a group has been checked in place.
  function Rewritten(groups: seq<Group>, params: Params, id: string): Params {
    if Ready(groups, params, id) then params[id := Obj(CheckOf(groups, params, id).members)] else params
  }

  function Work(groups: seq<Group>, params: Params, queue: seq<string>, parsed: set<string>,
                visited: seq<string>, hidden: set<string>): Run
    decreases |Names(groups) - parsed|, |queue|
  {
    if queue == [] then Passed(params, visited, hidden)
    else
      var id := queue[0];
      if id in parsed then Work(groups, params, queue[1..], parsed, visited, hidden)
      else
        var c := CheckOf(groups, params, id);
        var next := Rewritten(groups, params, id);
        if !c.ok then Failed(next, visited, hidden, id)
        else
          var gone := AllHidden(groups, c.raised);
          FewerLeft(Names(groups), parsed, id, gone);
          Work(groups, next, queue[1..] + AllShown(groups, c.raised),
               parsed + {id} + gone, visited + [id], hidden + gone)
  }

  function Validate(groups: seq<Group>, params: Params): Run {
    Work(groups, params, Actives(groups), {}, [], {})
  }

  lemma CheckReady(groups: seq<Group>, params: Params, id: string)
    requires CheckOf(groups, params, id).ok
    ensures Ready(groups, params, id) && id in Names(groups)
    ensures Rewritten(groups, params, id) == params[id := Obj(CheckOf(groups, params, id).members)]
  {
  }

  // ----- What validation visits -----

  // The groups a group shows and hides, going by its part of the document.
  function ShowsOf(groups: seq<Group>, params: Params, id: string): seq<string> {
    AllShown(groups, CheckOf(groups, params, id).raised)
  }

  function HidesOf(groups: seq<Group>, params: Params, id: string): set<string> {
    AllHidden(groups, CheckOf(groups, params, id).raised)
  }

  predicate IsJoined(s: string, before: string, part: string, after: string) {
    s == before + part + after
  }

  ghost predicate HasPart(s: string, part: string) {
    exists before, after :: IsJoined(s, before, part, after)
  }

  // A pattern calls for the group of that name, or with a final star for every group of
  // the schema whose name has the rest of the pattern somewhere in it.
  ghost predicate CallsFor(groups: seq<Group>, pattern: string, name: string) {
    if pattern != "" && pattern[|pattern| - 1] == '*' then
      && (exists g :: g in groups && g.id == name)
      && HasPart(name, pattern[..|pattern| - 1])
    else name == pattern
  }

  lemma ContainsParts(s: string, part: string)
    ensures Contains(s, part) <==> HasPart(s, part)
  {
    if Contains(s, part) {
      var i: nat :| i <= |s| && OccursAt(s, part, i);
      assert IsJoined(s, s[..i], part, s[i + |part|..]);
    }
    if before, after :| IsJoined(s, before, part, after) {
      assert OccursAt(s, part, |before|);
    }
  }

  lemma {:induction false} WildMatchesIff(groups: seq<Group>, part: string, name: string)
    ensures name in WildMatches(groups, part) <==> (exists g :: g in groups && g.id == name) && Contains(name, part)
    decreases |groups|
  {
    hide Contains;
    if groups != [] {
      WildMatchesIff(groups[1..], part, name);
      assert forall g :: g in groups <==> g == groups[0] || g in groups[1..];
    }
  }

  lemma MatchesIff(groups: seq<Group>, pattern: string, name: string)
    ensures name in Matches(groups, pattern) <==> CallsFor(groups, pattern, name)
  {
    hide Contains;
    if IsWild(pattern) {
      WildMatchesIff(groups, pattern[..|pattern| - 1], name);
      ContainsParts(name, pattern[..|pattern| - 1]);
    }
  }

  lemma {:induction false} MatchesOfIff(groups: seq<Group>, acts: seq<Actuator>, show: bool, name: string)
    ensures name in MatchesOf(groups, acts, show)
       <==> exists a :: a in acts && a.show == show && CallsFor(groups, a.pattern, name)
    decreases |acts|
  {
    if acts != [] {
      MatchesIff(groups, acts[0].pattern, name);
      MatchesOfIff(groups, acts[1..], show, name);
      hide CallsFor, Matches;
      assert forall a :: a in acts <==> a == acts[0] || a in acts[1..];
    }
  }

  // A choice's show actuators show; its hide actuators hide what none of them shows.
  lemma ShownAndHidden(groups: seq<Group>, acts: seq<Actuator>, name: string)
    ensures name in Shown(groups, acts) <==> exists a :: a in acts && a.show && CallsFor(groups, a.pattern, name)
    ensures name in Hidden(groups, acts)
       <==> && (exists a :: a in acts && !a.show && CallsFor(groups, a.pattern, name))
            && !(exists a :: a in acts && a.show && CallsFor(groups, a.pattern, name))
  {
    hide CallsFor, MatchesOf;
    MatchesOfIff(groups, acts, true, name);
    MatchesOfIff(groups, acts, false, name);
  }

  lemma {:induction false} AnyRaised(groups: seq<Group>, raised: seq<seq<Actuator>>, name: string)
    ensures name in AllShown(groups, raised) <==> exists acts :: acts in raised && name in Shown(groups, acts)
    ensures name in AllHidden(groups, raised) <==> exists acts :: acts in raised && name in Hidden(groups, acts)
    decreases |raised|
  {
    hide Shown, Hidden;
    if raised != [] {
      AnyRaised(groups, raised[1..], name);
      assert forall acts :: acts in raised <==> acts == raised[0] || acts in raised[1..];
    }
  }

  // The edges of a group, told from the actuators its elements raise and the groups' names.
  lemma EdgesMean(groups: seq<Group>, params: Params, id: string, name: string)
    ensures var raised := CheckOf(groups, params, id).raised;
            && (name in ShowsOf(groups, params, id)
                <==> exists acts, a :: acts in raised && a in acts && a.show && CallsFor(groups, a.pattern, name))
            && (name in HidesOf(groups, params, id)
                <==> exists acts :: acts in raised
                       && (exists a :: a in acts && !a.show && CallsFor(groups, a.pattern, name))
                       && !(exists a :: a in acts && a.show && CallsFor(groups, a.pattern, name)))
  {
    hide CheckOf, CallsFor, Shown, Hidden, AllShown, AllHidden;
    var raised := CheckOf(groups, params, id).raised;
    EdgesOf(groups, params, id);
    AnyRaised(groups, raised, name);
    forall acts | acts in raised
      ensures name in Shown(groups, acts) <==> exists a :: a in acts && a.show && CallsFor(groups, a.pattern, name)
      ensures name in Hidden(groups, acts)
         <==> && (exists a :: a in acts && !a.show && CallsFor(groups, a.pattern, name))
              && !(exists a :: a in acts && a.show && CallsFor(groups, a.pattern, name))
    {
      ShownAndHidden(groups, acts, name);
    }
  }

  lemma {:induction false} ActivesIff(groups: seq<Group>, name: string)
    ensures name in Actives(groups) <==> exists g :: g in groups && g.active && g.id == name
    decreases |groups|
  {
    if groups != [] {
      ActivesIff(groups[1..], name);
      assert forall g :: g in groups <==> g == groups[0] || g in groups[1..];
    }
  }

  // From an active group along show edges of visited groups.
  ghost predicate Trail(groups: seq<Group>, params: Params, visited: seq<string>, path: seq<string>) {
    && path != [] && path[0] in Actives(groups)
    && forall i :: 0 <= i < |path| - 1 ==> path[i] in visited && path[i + 1] in ShowsOf(groups, params, path[i])
  }

  ghost predicate Reached(groups: seq<Group>, params: Params, visited: seq<string>, id: string) {
    exists path :: Trail(groups, params, visited, path) && path[|path| - 1] == id
  }

  predicate Distinct(s: seq<string>) {
    forall i, j :: 0 <= i < j < |s| ==> s[i] != s[j]
  }

  // Every group an active one or a visited one calls for is visited, hidden or waiting.
  ghost predicate Covered(groups: seq<Group>, params: Params, queue: seq<string>, visited: seq<string>,
                          hidden: set<string>) {
    && (forall a :: a in Actives(groups) ==> a in queue || a in visited || a in hidden)
    && (forall v, s :: v in visited && s in ShowsOf(groups, params, v) ==> s in queue || s in visited || s in hidden)
  }

  ghost predicate HiddenFor(groups: seq<Group>, params: Params, visited: seq<string>, hidden: set<string>) {
    forall h :: h in hidden ==> exists v :: v in visited && h in HidesOf(groups, params, v)
  }

  // What a visited group hides counts as hidden, and is not visited later.
  ghost predicate Skips(groups: seq<Group>, params: Params, visited: seq<string>, hidden: set<string>) {
    && (forall v :: v in visited ==> HidesOf(groups, params, v) <= hidden)
    && (forall i, j :: 0 <= i < j < |visited| ==> visited[j] !in HidesOf(groups, params, visited[i]))
  }

  // Where a group's part of the document is once the touched groups have been rewritten.
  function Expected(groups: seq<Group>, origin: Params, touched: seq<string>, id: string): Option<Json> {
    if id in touched then At(Rewritten(groups, origin, id), id) else At(origin, id)
  }

  ghost predicate Touched(groups: seq<Group>, origin: Params, touched: seq<string>, params: Params) {
    forall id :: At(params, id) == Expected(groups, origin, touched, id)
  }

  predicate AllPassed(groups: seq<Group>, origin: Params, visited: seq<string>) {
    forall v :: v in visited ==> CheckOf(groups, origin, v).ok
  }

  ghost predicate AllReached(groups: seq<Group>, origin: Params, queue: seq<string>, visited: seq<string>) {
    forall q :: q in queue || q in visited ==> Reached(groups, origin, visited, q)
  }

  // What holds while `queue` is still to be worked off: everything is told from the
  // document validation started with, since a group's part changes only when it is visited.
  ghost predicate Accounted(groups: seq<Group>, origin: Params, params: Params, queue: seq<string>,
                            visited: seq<string>, hidden: set<string>) {
    && Distinct(visited)
    && AllPassed(groups, origin, visited)
    && AllReached(groups, origin, queue, visited)
    && Covered(groups, origin, queue, visited, hidden)
    && HiddenFor(groups, origin, visited, hidden)
    && Skips(groups, origin, visited, hidden)
    && Touched(groups, origin, visited, params)
  }

  // A group not yet visited is checked as it was given.
  lemma AsGiven(groups: seq<Group>, origin: Params, visited: seq<string>, params: Params, id: string)
    requires Touched(groups, origin, visited, params) && id !in visited
    ensures CheckOf(groups, params, id) == CheckOf(groups, origin, id)
    ensures Touched(groups, origin, visited + [id], Rewritten(groups, params, id))
  {
    hide CheckGroup, Find;
    assert At(params, id) == Expected(groups, origin, visited, id) == At(origin, id);
    var next := Rewritten(groups, params, id);
    forall x ensures At(next, x) == Expected(groups, origin, visited + [id], x) {
      assert At(params, x) == Expected(groups, origin, visited, x);
    }
  }

  lemma ReachedStill(groups: seq<Group>, origin: Params, visited: seq<string>, id: string, x: string)
    requires Reached(groups, origin, visited, x)
    ensures Reached(groups, origin, visited + [id], x)
  {
    hide ShowsOf;
    var path :| Trail(groups, origin, visited, path) && path[|path| - 1] == x;
    assert Trail(groups, origin, visited + [id], path);
  }

  lemma ReachedNext(groups: seq<Group>, origin: Params, visited: seq<string>, id: string, s: string)
    requires Reached(groups, origin, visited, id) && id in visited && s in ShowsOf(groups, origin, id)
    ensures Reached(groups, origin, visited, s)
  {
    hide ShowsOf;
    var path :| Trail(groups, origin, visited, path) && path[|path| - 1] == id;
    assert Trail(groups, origin, visited, path + [s]);
  }

  lemma VisitReached(groups: seq<Group>, origin: Params, queue: seq<string>, visited: seq<string>)
    requires queue != [] && AllReached(groups, origin, queue, visited)
    ensures AllReached(groups, origin, queue[1..] + ShowsOf(groups, origin, queue[0]), visited + [queue[0]])
  {
    hide Reached, ShowsOf;
    var id := queue[0];
    var seen := visited + [id];
    forall q | q in queue || q in visited ensures Reached(groups, origin, seen, q) {
      ReachedStill(groups, origin, visited, id, q);
    }
    forall s | s in ShowsOf(groups, origin, id) ensures Reached(groups, origin, seen, s) {
      ReachedNext(groups, origin, seen, id, s);
    }
  }

  lemma VisitPassed(groups: seq<Group>, origin: Params, visited: seq<string>, id: string)
    requires AllPassed(groups, origin, visited) && CheckOf(groups, origin, id).ok
    ensures AllPassed(groups, origin, visited + [id])
  {
    hide CheckOf;
  }

  lemma VisitCovers(groups: seq<Group>, origin: Params, queue: seq<string>, visited: seq<string>,
                    hidden: set<string>, gone: set<string>)
    requires queue != [] && Covered(groups, origin, queue, visited, hidden)
    ensures Covered(groups, origin, queue[1..] + ShowsOf(groups, origin, queue[0]), visited + [queue[0]], hidden + gone)
  {
    hide ShowsOf;
    assert forall q :: q in queue ==> q == queue[0] || q in queue[1..];
  }

  lemma VisitHides(groups: seq<Group>, origin: Params, visited: seq<string>, id: string, hidden: set<string>)
    requires HiddenFor(groups, origin, visited, hidden)
    ensures HiddenFor(groups, origin, visited + [id], hidden + HidesOf(groups, origin, id))
  {
    hide HidesOf;
    forall h | h in hidden + HidesOf(groups, origin, id)
      ensures exists v :: v in visited + [id] && h in HidesOf(groups, origin, v)
    {
      if h in hidden {
        var v :| v in visited && h in HidesOf(groups, origin, v);
        assert v in visited + [id];
      } else {
        assert id in visited + [id];
      }
    }
  }

  lemma VisitSkips(groups: seq<Group>, origin: Params, visited: seq<string>, id: string, hidden: set<string>)
    requires Skips(groups, origin, visited, hidden) && id !in hidden
    ensures Skips(groups, origin, visited + [id], hidden + HidesOf(groups, origin, id))
  {
    hide HidesOf;
    assert forall i :: 0 <= i < |visited| ==> visited[i] in visited;
  }

  lemma DistinctNext(visited: seq<string>, id: string)
    requires Distinct(visited) && id !in visited
    ensures Distinct(visited + [id])
  {
  }

  // Visiting one more group.
  lemma VisitOne(groups: seq<Group>, origin: Params, params: Params, queue: seq<string>, visited: seq<string>,
                 hidden: set<string>)
    requires queue != [] && queue[0] !in visited && queue[0] !in hidden && CheckOf(groups, params, queue[0]).ok
    requires Accounted(groups, origin, params, queue, visited, hidden)
    ensures var id, c := queue[0], CheckOf(groups, params, queue[0]);
            Accounted(groups, origin, Rewritten(groups, params, id), queue[1..] + AllShown(groups, c.raised),
                      visited + [id], hidden + AllHidden(groups, c.raised))
  {
    var id := queue[0];
    EdgesOf(groups, origin, id);
    hide CheckOf, AllShown, AllHidden, ShowsOf, HidesOf, Reached, Covered, HiddenFor, Skips;
    hide Distinct, Touched, Rewritten, Actives, AllPassed, AllReached;
    AsGiven(groups, origin, visited, params, id);
    DistinctNext(visited, id);
    VisitPassed(groups, origin, visited, id);
    VisitReached(groups, origin, queue, visited);
    VisitCovers(groups, origin, queue, visited, hidden, HidesOf(groups, origin, id));
    VisitHides(groups, origin, visited, id, hidden);
    VisitSkips(groups, origin, visited, id, hidden);
  }

  lemma EdgesOf(groups: seq<Group>, params: Params, id: string)
    ensures ShowsOf(groups, params, id) == AllShown(groups, CheckOf(groups, params, id).raised)
    ensures HidesOf(groups, params, id) == AllHidden(groups, CheckOf(groups, params, id).raised)
  {
  }

  lemma DropSeen(groups: seq<Group>, origin: Params, params: Params, queue: seq<string>, visited: seq<string>,
                 hidden: set<string>)
    requires queue != [] && Accounted(groups, origin, params, queue, visited, hidden)
    requires queue[0] in visited || queue[0] in hidden
    ensures Accounted(groups, origin, params, queue[1..], visited, hidden)
  {
    hide CheckOf, Reached, ShowsOf, HiddenFor, Skips, Touched, Distinct, Actives;
    assert forall q :: q in queue ==> q == queue[0] || q in queue[1..];
  }

  // The first group that does not pass, where the worklist stops.
  ghost predicate StoppedAt(groups: seq<Group>, origin: Params, r: Run)
    requires r.Failed?
  {
    && r.at !in r.visited && r.at !in r.hidden && Reached(groups, origin, r.visited, r.at)
    && !CheckOf(groups, origin, r.at).ok
  }

  // What holds of a finished run, passed or failed.
  ghost predicate Finished(groups: seq<Group>, origin: Params, r: Run) {
    && Distinct(r.visited)
    && (forall v :: v in r.visited ==> CheckOf(groups, origin, v).ok && Reached(groups, origin, r.visited, v))
    && HiddenFor(groups, origin, r.visited, r.hidden)
    && Skips(groups, origin, r.visited, r.hidden)
    && match r
       case Passed(params, visited, hidden) =>
         Covered(groups, origin, [], visited, hidden) && Touched(groups, origin, visited, params)
       case Failed(params, visited, _, at) =>
         StoppedAt(groups, origin, r) && Touched(groups, origin, visited + [at], params)
  }

  lemma {:induction false} WorkFinishes(groups: seq<Group>, origin: Params, params: Params, queue: seq<string>,
                                        parsed: set<string>, visited: seq<string>, hidden: set<string>)
    requires Accounted(groups, origin, params, queue, visited, hidden) && parsed == Members(visited) + hidden
    ensures Finished(groups, origin, Work(groups, params, queue, parsed, visited, hidden))
    decreases |Names(groups) - parsed|, |queue|
  {
    hide CheckOf, AllHidden, AllShown, Accounted, Finished, Rewritten, Names, Actives;
    if queue == [] {
      PassedFinishes(groups, origin, params, visited, hidden);
    } else if queue[0] in parsed {
      DropSeen(groups, origin, params, queue, visited, hidden);
      WorkFinishes(groups, origin, params, queue[1..], parsed, visited, hidden);
    } else {
      var id := queue[0];
      var c := CheckOf(groups, params, id);
      if c.ok {
        var gone := AllHidden(groups, c.raised);
        CheckReady(groups, params, id);
        FewerLeft(Names(groups), parsed, id, gone);
        VisitOne(groups, origin, params, queue, visited, hidden);
        assert parsed + {id} + gone == Members(visited + [id]) + (hidden + gone);
        WorkFinishes(groups, origin, Rewritten(groups, params, id), queue[1..] + AllShown(groups, c.raised),
                     parsed + {id} + gone, visited + [id], hidden + gone);
      } else {
        FailedFinishes(groups, origin, params, queue, visited, hidden);
      }
    }
  }

  lemma PassedFinishes(groups: seq<Group>, origin: Params, params: Params, visited: seq<string>, hidden: set<string>)
    requires Accounted(groups, origin, params, [], visited, hidden)
    ensures Finished(groups, origin, Passed(params, visited, hidden))
  {
    hide CheckOf, Reached, Covered, HiddenFor, Skips, Touched, Distinct;
  }

  lemma FailedFinishes(groups: seq<Group>, origin: Params, params: Params, queue: seq<string>, visited: seq<string>,
                       hidden: set<string>)
    requires Accounted(groups, origin, params, queue, visited, hidden)
    requires queue != [] && queue[0] !in visited && queue[0] !in hidden && !CheckOf(groups, params, queue[0]).ok
    ensures Finished(groups, origin, Failed(Rewritten(groups, params, queue[0]), visited, hidden, queue[0]))
  {
    hide CheckOf, Reached, Covered, HiddenFor, Skips, Touched, Distinct, Rewritten;
    AsGiven(groups, origin, visited, params, queue[0]);
  }

  lemma ActivesReached(groups: seq<Group>, params: Params)
    ensures Accounted(groups, params, params, Actives(groups), [], {})
  {
    hide ShowsOf, HidesOf, CheckOf, Actives;
    forall a | a in Actives(groups) ensures Reached(groups, params, [], a) {
      assert Trail(groups, params, [], [a]);
    }
  }

  lemma ValidationFinishes(groups: seq<Group>, params: Params)
    ensures Finished(groups, params, Validate(groups, params))
  {
    hide Accounted, Finished, Work, Actives;
    ActivesReached(groups, params);
    WorkFinishes(groups, params, params, Actives(groups), {}, [], {});
  }

  // Whatever the schema and however validation ends: no group is validated twice, each
  // one validated is reached from an active group along show edges, hidden means hidden
  // by a validated group, and no group is validated after one that hides it. A failure is
  // that of a further group so reached.
  lemma ValidationVisits(groups: seq<Group>, params: Params)
    ensures var r := Validate(groups, params);
            && Distinct(r.visited)
            && (forall v :: v in r.visited ==> CheckOf(groups, params, v).ok && Reached(groups, params, r.visited, v))
            && (forall h :: h in r.hidden <==> exists v :: v in r.visited && h in HidesOf(groups, params, v))
            && (forall i, j :: 0 <= i < j < |r.visited| ==> r.visited[j] !in HidesOf(groups, params, r.visited[i]))
            && (r.Failed? ==> StoppedAt(groups, params, r))
  {
    hide Validate, Reached, HidesOf, CheckOf, Distinct, StoppedAt;
    ValidationFinishes(groups, params);
  }

  // ----- In which order -----

  // The active groups still to be dealt with are the first in the queue, and while there
  // are any only active groups have been visited.
  ghost predicate ActivesAhead(groups: seq<Group>, queue: seq<string>, parsed: set<string>, visited: seq<string>,
                               n: nat) {
    && n <= |queue|
    && (forall a :: a in Actives(groups) ==> a in queue[..n] || a in parsed)
    && (n > 0 ==> forall v :: v in visited ==> v in Actives(groups))
  }

  predicate ActivesFirst(groups: seq<Group>, visited: seq<string>) {
    forall i, j :: 0 <= i < j < |visited| && visited[j] in Actives(groups) ==> visited[i] in Actives(groups)
  }

  lemma AheadNext(groups: seq<Group>, queue: seq<string>, more: seq<string>, parsed: set<string>, parsed': set<string>,
                  visited: seq<string>, visited': seq<string>, n: nat)
    requires queue != [] && ActivesAhead(groups, queue, parsed, visited, n) && ActivesFirst(groups, visited)
    requires parsed + {queue[0]} <= parsed' && forall k :: 0 <= k < n ==> queue[k] in Actives(groups)
    requires visited' == visited || (visited' == visited + [queue[0]] && queue[0] !in parsed)
    ensures ActivesAhead(groups, queue[1..] + more, parsed', visited', if n > 0 then n - 1 else 0)
    ensures ActivesFirst(groups, visited')
  {
    hide Actives;
    var m := if n > 0 then n - 1 else 0;
    assert n > 0 ==> queue[..n] == [queue[0]] + (queue[1..] + more)[..m];
    assert n == 0 ==> queue[..n] == [];
  }

  lemma {:induction false} WorkInOrder(groups: seq<Group>, params: Params, queue: seq<string>, parsed: set<string>,
                                       visited: seq<string>, hidden: set<string>, n: nat)
    requires ActivesAhead(groups, queue, parsed, visited, n) && ActivesFirst(groups, visited)
    requires forall k :: 0 <= k < n ==> queue[k] in Actives(groups)
    ensures ActivesFirst(groups, Work(groups, params, queue, parsed, visited, hidden).visited)
    decreases |Names(groups) - parsed|, |queue|
  {
    hide CheckOf, AllHidden, AllShown, Rewritten, Names, Actives, ActivesFirst, ActivesAhead;
    AheadFits(groups, queue, parsed, visited, n);
    if queue != [] {
      var id, m := queue[0], if n > 0 then n - 1 else 0;
      if id in parsed {
        AheadNext(groups, queue, [], parsed, parsed, visited, visited, n);
        assert queue[1..] + [] == queue[1..];
        WorkInOrder(groups, params, queue[1..], parsed, visited, hidden, m);
      } else {
        var c := CheckOf(groups, params, id);
        if c.ok {
          var gone := AllHidden(groups, c.raised);
          var more := queue[1..] + AllShown(groups, c.raised);
          CheckReady(groups, params, id);
          FewerLeft(Names(groups), parsed, id, gone);
          var parsed' := parsed + {id} + gone;
          AheadNext(groups, queue, AllShown(groups, c.raised), parsed, parsed', visited, visited + [id], n);
          assert forall k :: 0 <= k < m ==> more[k] == queue[k + 1];
          WorkInOrder(groups, Rewritten(groups, params, id), more, parsed', visited + [id], hidden + gone, m);
        }
      }
    }
  }

  lemma AheadFits(groups: seq<Group>, queue: seq<string>, parsed: set<string>, visited: seq<string>, n: nat)
    requires ActivesAhead(groups, queue, parsed, visited, n)
    ensures n <= |queue|
  {
  }

  // Every active group comes before any that is only shown.
  lemma ValidationOrder(groups: seq<Group>, params: Params)
    ensures ActivesFirst(groups, Validate(groups, params).visited)
  {
    var queue := Actives(groups);
    assert queue[..|queue|] == queue;
    WorkInOrder(groups, params, queue, {}, [], {}, |queue|);
  }

  // On success every group that was active, or shown by a validated one, was validated or hidden.
  lemma ValidationCloses(groups: seq<Group>, params: Params)
    requires Validate(groups, params).Passed?
    ensures var r := Validate(groups, params);
            && (forall a :: a in Actives(groups) ==> a in r.visited || a in r.hidden)
            && (forall v, s :: v in r.visited && s in ShowsOf(groups, params, v) ==> s in r.visited || s in r.hidden)
  {
    hide Validate, Reached, ShowsOf, HidesOf, CheckOf, Distinct, Actives;
    ValidationFinishes(groups, params);
  }

  // The document afterwards, on success and on failure: each group validated, and the
  // one that failed, rewritten from what was given, and nothing else changed.
  lemma ValidationRewrites(groups: seq<Group>, params: Params, id: string)
    ensures var r := Validate(groups, params);
            At(r.params, id)
            == if id in r.visited || (r.Failed? && id == r.at) then At(Rewritten(groups, params, id), id)
               else At(params, id)
  {
    hide Validate, Reached, Covered, HiddenFor, Rewritten, CheckOf, Distinct, At, StoppedAt;
    ValidationFinishes(groups, params);
    var r := Validate(groups, params);
    var touched := if r.Failed? then r.visited + [r.at] else r.visited;
    assert At(r.params, id) == Expected(groups, params, touched, id);
  }

  // ----- Validation settles -----

  predicate SaneSchema(groups: seq<Group>) {
    forall g :: g in groups ==> SiblingsAgree(g.elms) && AllSane(g.elms)
  }

  lemma {:induction false} GroupSiblingsKeep(a: Element, es: seq<Element>, m: map<string, Json>)
    requires (forall e :: e in es ==> Agree(a, e)) && Meets(a, At(m, a.id)) && CheckGroup(es, m).ok
    ensures At(CheckGroup(es, m).members, a.id) == At(m, a.id)
    decreases |es|
  {
    if es != [] {
      var c := Verify(es[0], At(m, es[0].id), []);
      if es[0].id == a.id {
        SiblingKeeps(a, es[0], At(m, a.id), []);
      }
      hide Verify, Meets, Agree;
      GroupSiblingsKeep(a, es[1..], Placed(m, es[0].id, c.slot));
    }
  }

  lemma {:induction false} GroupSettles(es: seq<Element>, m: map<string, Json>)
    requires SiblingsAgree(es) && AllSane(es) && CheckGroup(es, m).ok
    ensures var c := CheckGroup(es, m);
            MeetsAll(es, c.members) && CheckGroup(es, c.members) == c
    decreases |es|
  {
    if es != [] {
      var id := es[0].id;
      var c := Verify(es[0], At(m, id), []);
      var m1 := Placed(m, id, c.slot);
      var r := CheckGroup(es[1..], m1);
      PassingSettles(es[0], At(m, id), []);
      StaysAbsent(es[0], At(m, id), []);
      hide Verify, Meets, Sane, Agree;
      GroupSettles(es[1..], m1);
      GroupSiblingsKeep(es[0], es[1..], m1);
      assert At(r.members, id) == c.slot;
      assert Placed(r.members, id, c.slot) == r.members;
    }
  }

  // A group whose every element is met where it stands.
  predicate Settled(groups: seq<Group>, params: Params, id: string) {
    Ready(groups, params, id) && MeetsAll(Find(groups, id).value.elms, params[id].members)
  }

  // Where a passing check of a group leads, checking again leads too.
  lemma CheckSettles(groups: seq<Group>, params: Params, id: string, after: Params)
    requires SaneSchema(groups) && CheckOf(groups, params, id).ok
    requires At(after, id) == Some(Obj(CheckOf(groups, params, id).members))
    ensures CheckOf(groups, after, id) == CheckOf(groups, params, id)
    ensures Settled(groups, after, id) && Rewritten(groups, after, id) == after
  {
    var g := Find(groups, id).value;
    GroupSettles(g.elms, params[id].members);
    hide CheckGroup, MeetsAll, Find;
    assert after[id := after[id]] == after;
  }

  // A validated group is settled in the final document, and shows and hides there what
  // it showed and hid when it was visited.
  lemma ValidatedAreSettled(groups: seq<Group>, params: Params, v: string)
    requires SaneSchema(groups) && v in Validate(groups, params).visited
    ensures var r := Validate(groups, params);
            && Settled(groups, r.params, v)
            && ShowsOf(groups, r.params, v) == ShowsOf(groups, params, v)
            && HidesOf(groups, r.params, v) == HidesOf(groups, params, v)
  {
    hide Validate, CheckOf, AllShown, AllHidden, Reached, Settled, SaneSchema, Names;
    var r := Validate(groups, params);
    ValidationVisits(groups, params);
    ValidationRewrites(groups, params, v);
    CheckReady(groups, params, v);
    CheckSettles(groups, params, v, r.params);
  }

  // Groups already dealt with are not touched again.
  lemma {:induction false} ParsedKept(groups: seq<Group>, params: Params, queue: seq<string>, parsed: set<string>,
                                      visited: seq<string>, hidden: set<string>, id: string)
    requires id in parsed
    ensures At(Work(groups, params, queue, parsed, visited, hidden).params, id) == At(params, id)
    decreases |Names(groups) - parsed|, |queue|
  {
    hide CheckOf, AllHidden, AllShown;
    if queue == [] {
    } else if queue[0] in parsed {
      ParsedKept(groups, params, queue[1..], parsed, visited, hidden, id);
    } else {
      var next := queue[0];
      var c := CheckOf(groups, params, next);
      if c.ok {
        var gone := AllHidden(groups, c.raised);
        CheckReady(groups, params, next);
        FewerLeft(Names(groups), parsed, next, gone);
        ParsedKept(groups, params[next := Obj(c.members)], queue[1..] + AllShown(groups, c.raised),
                   parsed + {next} + gone, visited + [next], hidden + gone, id);
      }
    }
  }

  lemma {:induction false} WorkSettles(groups: seq<Group>, params: Params, queue: seq<string>, parsed: set<string>,
                                       visited: seq<string>, hidden: set<string>)
    requires SaneSchema(groups) && Work(groups, params, queue, parsed, visited, hidden).Passed?
    ensures var r := Work(groups, params, queue, parsed, visited, hidden);
            Work(groups, r.params, queue, parsed, visited, hidden) == r
    decreases |Names(groups) - parsed|, |queue|
  {
    hide CheckOf, AllHidden, AllShown, Settled, Rewritten, SaneSchema;
    var r := Work(groups, params, queue, parsed, visited, hidden);
    if queue == [] {
    } else if queue[0] in parsed {
      WorkSettles(groups, params, queue[1..], parsed, visited, hidden);
    } else {
      var id := queue[0];
      var c := CheckOf(groups, params, id);
      var gone := AllHidden(groups, c.raised);
      var next := Rewritten(groups, params, id);
      var more := queue[1..] + AllShown(groups, c.raised);
      CheckReady(groups, params, id);
      FewerLeft(Names(groups), parsed, id, gone);
      WorkSettles(groups, next, more, parsed + {id} + gone, visited + [id], hidden + gone);
      ParsedKept(groups, next, more, parsed + {id} + gone, visited + [id], hidden + gone, id);
      CheckSettles(groups, params, id, r.params);
    }
  }

  // Validating what validation made passes, visits the same groups in the same
  // order, hides the same ones, and changes nothing.
  lemma ValidationSettles(groups: seq<Group>, params: Params)
    requires SaneSchema(groups) && Validate(groups, params).Passed?
    ensures Validate(groups, Validate(groups, params).params) == Validate(groups, params)
  {
    WorkSettles(groups, params, Actives(groups), {}, [], {});
  }

  // ----- The loops -----

  lemma {:induction false} MatchesOfConcat(groups: seq<Group>, a: seq<Actuator>, b: seq<Actuator>, show: bool)
    ensures MatchesOf(groups, a + b, show) == MatchesOf(groups, a, show) + MatchesOf(groups, b, show)
  {
    if a == [] {
      assert a + b == b;
    } else {
      assert (a + b)[1..] == a[1..] + b;
      MatchesOfConcat(groups, a[1..], b, show);
    }
  }

  lemma MatchesOfNext(groups: seq<Group>, acts: seq<Actuator>, i: nat, show: bool)
    requires i < |acts|
    ensures MatchesOf(groups, acts[..i + 1], show) == MatchesOf(groups, acts[..i], show)
              + (if acts[i].show == show then Matches(groups, acts[i].pattern) else [])
  {
    assert acts[..i + 1] == acts[..i] + [acts[i]];
    MatchesOfConcat(groups, acts[..i], [acts[i]], show);
    assert [acts[i]][1..] == [];
  }

  method MatchNames(groups: seq<Group>, pattern: string) returns (names: seq<string>)
    ensures names == Matches(groups, pattern)
  {
    if !IsWild(pattern) {
      return [pattern];
    }
    var part := pattern[..|pattern| - 1];
    names := [];
    var i := 0;
    while i < |groups|
      invariant i <= |groups| && names + WildMatches(groups[i..], part) == WildMatches(groups, part)
    {
      assert groups[i..][1..] == groups[i + 1..];
      if Contains(groups[i].id, part) {
        names := names + [groups[i].id];
      }
      i := i + 1;
    }
  }

  // Hides are collected first, shows queue their groups and take them out again,
  // and what is left counts as already dealt with.
  method InsertMatches(groups: seq<Group>, queue: seq<string>, parsed: set<string>, acts: seq<Actuator>)
    returns (queue': seq<string>, parsed': set<string>)
    ensures queue' == queue + Shown(groups, acts) && parsed' == parsed + Hidden(groups, acts)
  {
    hide Matches, MatchesOf;
    NoMatches(groups);
    var gone: set<string> := {};
    var i := 0;
    while i < |acts|
      invariant i <= |acts| && gone == Members(MatchesOf(groups, acts[..i], false))
    {
      MatchesOfNext(groups, acts, i, false);
      if !acts[i].show {
        var names := MatchNames(groups, acts[i].pattern);
        gone := gone + Members(names);
      }
      i := i + 1;
    }
    assert acts[..i] == acts;
    queue' := queue;
    i := 0;
    while i < |acts|
      invariant i <= |acts| && queue' == queue + MatchesOf(groups, acts[..i], true)
      invariant gone == Members(MatchesOf(groups, acts, false)) - Members(MatchesOf(groups, acts[..i], true))
    {
      MatchesOfNext(groups, acts, i, true);
      if acts[i].show {
        var names := MatchNames(groups, acts[i].pattern);
        queue' := queue' + names;
        gone := gone - Members(names);
      }
      i := i + 1;
    }
    assert acts[..i] == acts;
    parsed' := parsed + gone;
  }

  lemma NoMatches(groups: seq<Group>)
    ensures MatchesOf(groups, [], true) == MatchesOf(groups, [], false) == []
  {
  }

  lemma {:induction false} RaisedNext(groups: seq<Group>, done: seq<seq<Actuator>>, acts: seq<Actuator>)
    ensures AllShown(groups, done + [acts]) == AllShown(groups, done) + Shown(groups, acts)
    ensures AllHidden(groups, done + [acts]) == AllHidden(groups, done) + Hidden(groups, acts)
  {
    hide Shown, Hidden;
    if done == [] {
      assert done + [acts] == [acts] && [acts][1..] == [];
    } else {
      assert (done + [acts])[1..] == done[1..] + [acts];
      RaisedNext(groups, done[1..], acts);
    }
  }

  // A group checked as far as some element, then the rest.
  function Then(done: seq<seq<Actuator>>, rest: GroupCheck): GroupCheck {
    GroupCheck(rest.ok, rest.members, done + rest.raised)
  }

  lemma CheckNext(es: seq<Element>, i: nat, m: map<string, Json>, done: seq<seq<Actuator>>)
    requires i < |es|
    ensures var c := Verify(es[i], At(m, es[i].id), []);
            var next := Placed(m, es[i].id, c.slot);
            Then(done, CheckGroup(es[i..], m))
            == if c.errs != [] then GroupCheck(false, next, done)
               else Then(done + [c.acts], CheckGroup(es[i + 1..], next))
  {
    hide Verify;
    assert es[i..][1..] == es[i + 1..];
    var c := Verify(es[i], At(m, es[i].id), []);
    var r := CheckGroup(es[i + 1..], Placed(m, es[i].id, c.slot));
    assert done + ([c.acts] + r.raised) == done + [c.acts] + r.raised && done + [] == done;
  }

  lemma NothingDone(es: seq<Element>, m: map<string, Json>, done: seq<seq<Actuator>>)
    ensures Then([], CheckGroup(es, m)) == CheckGroup(es, m)
    ensures Then(done, CheckGroup([], m)) == GroupCheck(true, m, done)
  {
    var c := CheckGroup(es, m);
    assert [] + c.raised == c.raised;
    assert done + [] == done;
  }

  // One group: its elements in turn, each followed by what its options show and hide.
  method ValidateGroup(groups: seq<Group>, es: seq<Element>, m: map<string, Json>,
                       queue: seq<string>, parsed: set<string>)
    returns (m': map<string, Json>, queue': seq<string>, parsed': set<string>, ok: bool)
    ensures var c := CheckGroup(es, m);
            && ok == c.ok && m' == c.members
            && (ok ==> queue' == queue + AllShown(groups, c.raised))
            && (ok ==> parsed' == parsed + AllHidden(groups, c.raised))
  {
    hide *;
    m', queue', parsed', ok := m, queue, parsed, true;
    ghost var done: seq<seq<Actuator>> := [];
    NothingDone(es, m, []);
    NoneRaised(groups);
    assert es[0..] == es;
    var i := 0;
    while i < |es|
      invariant i <= |es| && Then(done, CheckGroup(es[i..], m')) == CheckGroup(es, m)
      invariant queue' == queue + AllShown(groups, done) && parsed' == parsed + AllHidden(groups, done)
    {
      CheckNext(es, i, m', done);
      AfterFresh(es[i], m');
      var s := SE.VerifyElement(es[i], SE.Sheet(m', [], []));
      m' := s.members;
      if s.errs != [] {
        ok := false;
        return;
      }
      RaisedNext(groups, done, s.acts);
      queue', parsed' := InsertMatches(groups, queue', parsed', s.acts);
      done := done + [s.acts];
      i := i + 1;
    }
    assert es[i..] == [];
    NothingDone(es, m', done);
  }

  lemma NoneRaised(groups: seq<Group>)
    ensures AllShown(groups, []) == [] && AllHidden(groups, []) == {}
  {
  }

  lemma AfterFresh(e: Element, m: map<string, Json>)
    ensures var c, t := Verify(e, At(m, e.id), []), SE.After(e, SE.Sheet(m, [], []));
            t == SE.Sheet(Placed(m, e.id, c.slot), c.errs, c.acts)
  {
    hide Verify;
    var c := Verify(e, At(m, e.id), []);
    assert [] + c.errs == c.errs;
  }

  method FindConditionlessGroups(groups: seq<Group>) returns (queue: seq<string>)
    ensures queue == Actives(groups)
  {
    queue := [];
    var i := 0;
    while i < |groups|
      invariant i <= |groups| && queue + Actives(groups[i..]) == Actives(groups)
    {
      assert groups[i..][1..] == groups[i + 1..];
      if groups[i].active {
        queue := queue + [groups[i].id];
      }
      i := i + 1;
    }
  }

  // The parameters come back rewritten, and `ok` says no problem was found.
  method ValidateParamaters(groups: seq<Group>, params: Params) returns (out: Params, ok: bool)
    ensures ok == Validate(groups, params).Passed? && out == Validate(groups, params).params
  {
    hide CheckOf, AllHidden, AllShown, CheckGroup, Rewritten;
    var queue := FindConditionlessGroups(groups);
    var parsed: set<string> := {};
    ghost var visited: seq<string> := [];
    ghost var hidden: set<string> := {};
    out, ok := params, true;
    while |queue| > 0
      invariant Work(groups, out, queue, parsed, visited, hidden) == Validate(groups, params)
      decreases |Names(groups) - parsed|, |queue|
    {
      var id := queue[0];
      queue := queue[1..];
      if id in parsed {
        continue;
      }
      CheckOfIs(groups, out, id);
      if id !in out || !out[id].Obj? || Find(groups, id).None? {
        ok := false;
        return;
      }
      ghost var c := CheckOf(groups, out, id);
      ghost var gone := AllHidden(groups, c.raised);
      FewerLeft(Names(groups), parsed, id, gone);
      var members;
      members, queue, parsed, ok :=
        ValidateGroup(groups, Find(groups, id).value.elms, out[id].members, queue, parsed + {id});
      out := out[id := Obj(members)];
      if !ok {
        return;
      }
      visited, hidden := visited + [id], hidden + gone;
    }
  }

  lemma CheckOfIs(groups: seq<Group>, params: Params, id: string)
    ensures Ready(groups, params, id) ==>
      && CheckOf(groups, params, id) == CheckGroup(Find(groups, id).value.elms, params[id].members)
      && Rewritten(groups, params, id) == params[id := Obj(CheckOf(groups, params, id).members)]
    ensures !Ready(groups, params, id) ==> !CheckOf(groups, params, id).ok && Rewritten(groups, params, id) == params
    ensures Ready(groups, params, id) <==> id in params && params[id].Obj? && Find(groups, id).Some?
    ensures Find(groups, id).Some? ==> id in Names(groups)
  {
  }
}
