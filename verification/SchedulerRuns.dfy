/** What every run of the scheduler guarantees. */
module SchedulerRuns {
  import opened Scheduler
  import opened SchedulerSafety

  ghost predicate Reachable(max: nat, lastID: nat, t: State) {
    exists steps :: RunOf(Initial(max, lastID), steps, t)
  }

  lemma ReachableInv(max: nat, lastID: nat, t: State)
    requires Reachable(max, lastID, t)
    ensures Inv(t) && t.max == max
  {
    var steps :| RunOf(Initial(max, lastID), steps, t);
    assert BasesOf([]) == [] && ItemsOf([]) == [];
    KeptByRun(Initial(max, lastID), steps, t);
    MaxFixed(Initial(max, lastID), steps, t);
  }

  lemma {:induction false} MaxFixed(s: State, steps: seq<Step>, t: State)
    requires RunOf(s, steps, t)
    ensures t.max == s.max
    decreases |steps|
  {
    if steps != [] {
      MaxFixed(Apply(s, steps[0]), steps[1..], t);
    }
  }

  // ----- Threads and places -----

  // Never more threads than allowed, and no piece of work in two places, or twice in one.
  lemma BoundedAndUnique(max: nat, lastID: nat, t: State)
    requires Reachable(max, lastID, t)
    ensures |t.running| <= max
    ensures forall x: Item :: Places(t)[x] <= 1
    ensures forall i, j :: 0 <= i < j < |t.submitted| ==> t.submitted[i].jid != t.submitted[j].jid
  {
    ReachableInv(max, lastID, t);
    hide Places;
    forall i, j | 0 <= i < j < |t.submitted| ensures t.submitted[i].jid != t.submitted[j].jid {
      if t.submitted[i].jid == t.submitted[j].jid {
        Twice(BasesOf(t.submitted), i, j);
        AtMostPlaces(t, BasesOf(t.submitted)[i]);
      }
    }
  }

  lemma AtMostPlaces(s: State, x: Item)
    ensures multiset(BasesOf(s.submitted))[x] <= Places(s)[x]
    ensures multiset(s.manual)[x] + multiset(s.auto)[x] + multiset(ItemsOf(s.running))[x] <= Places(s)[x]
  {
  }

  // ----- Animations -----

  // A frame is finished with: it was launched, and it is neither waiting to run nor running.
  ghost predicate Finished(t: State, x: Animation, f: nat) {
    Item(x.id, f) in t.launched && Item(x.id, f) !in Places(t) && f !in x.rendering
  }

  // Each later frame of a live animation is in exactly one of its queue, its list of
  // frames being rendered, and the frames finished with.
  lemma FramesConserved(max: nat, lastID: nat, t: State, x: Animation, f: nat)
    requires Reachable(max, lastID, t) && x in t.anims && 2 <= f <= x.frames
    ensures f in x.queue || f in x.rendering || Finished(t, x, f)
    ensures !(f in x.queue && f in x.rendering) && !(f in x.queue && Finished(t, x, f))
    ensures !(f in x.rendering && Finished(t, x, f))
  {
    ReachableInv(max, lastID, t);
    assert Whole(t, x) && Tracked(t, x);
    if f !in x.queue && f !in x.rendering {
      NotWaiting(t, x, f);
    }
  }

  // An untracked frame of a live animation is nowhere.
  lemma NotWaiting(t: State, x: Animation, f: nat)
    requires Inv(t) && x in t.anims && f >= 2 && f !in x.rendering
    ensures Item(x.id, f) !in Places(t)
  {
    assert Tracked(t, x);
    InPlaces(t, Item(x.id, f));
    hide Places;
  }

  // Muxing starts only when every frame 2..N has been launched and has left the
  // queues and the threads.
  lemma MuxedWhenDone(max: nat, lastID: nat, t: State, a: nat)
    requires Reachable(max, lastID, t) && Enabled(t, Muxing(a))
    ensures forall f: nat :: 2 <= f <= t.anims[a].frames ==> Finished(t, t.anims[a], f)
  {
    hide Places;
    var x := t.anims[a];
    assert x in t.anims;
    forall f: nat | 2 <= f <= x.frames ensures Finished(t, x, f) {
      FramesConserved(max, lastID, t, x, f);
    }
  }

  // ----- Order -----

  ghost predicate Before(q: seq<Item>, x: Item, y: Item) {
    exists i, j :: 0 <= i < j < |q| && q[i] == x && q[j] == y
  }

  predicate Once(q: seq<Item>) {
    forall i, j :: 0 <= i < j < |q| ==> q[i] != q[j]
  }

  lemma QueuesOnce(s: State)
    requires Unique(s)
    ensures Once(s.manual) && Once(s.auto)
  {
    hide Places;
    forall i, j | 0 <= i < j < |s.manual| ensures s.manual[i] != s.manual[j] {
      if s.manual[i] == s.manual[j] {
        Twice(s.manual, i, j);
        AtMostPlaces(s, s.manual[i]);
      }
    }
    forall i, j | 0 <= i < j < |s.auto| ensures s.auto[i] != s.auto[j] {
      if s.auto[i] == s.auto[j] {
        Twice(s.auto, i, j);
        AtMostPlaces(s, s.auto[i]);
      }
    }
  }

  // A queue grows at its end, loses its head, or loses one item somewhere.
  predicate Moved(q: seq<Item>, q': seq<Item>) {
    || q <= q'
    || (q != [] && q' == q[1..])
    || exists m: nat :: m < |q| && q' == Without(q, m)
  }

  lemma OrderedWithout(q: seq<Item>, m: nat, i: nat, j: nat)
    requires i < j < |q| && m < |q| && m != i && m != j
    ensures Before(Without(q, m), q[i], q[j])
  {
    var r := q[..m] + q[m + 1..];
    var i', j' := if i < m then i else i - 1, if j < m then j else j - 1;
    assert r[i'] == q[i] && r[j'] == q[j];
  }

  lemma NotIn(q: seq<Item>, m: nat)
    requires Once(q) && m < |q|
    ensures q[m] !in Without(q, m)
  {
  }

  lemma MovedKeepsOrder(q: seq<Item>, q': seq<Item>, x: Item, y: Item)
    requires Once(q) && Before(q, x, y) && Moved(q, q') && x in q'
    ensures Before(q', x, y) || y !in q'
  {
    hide Without;
    var i: nat, j: nat :| 0 <= i < j < |q| && q[i] == x && q[j] == y;
    if q <= q' {
      assert q'[i] == x && q'[j] == y;
    } else if q != [] && q' == q[1..] {
      assert i > 0;
      assert q'[i - 1] == x && q'[j - 1] == y;
    } else {
      var m: nat :| m < |q| && q' == Without(q, m);
      NotIn(q, m);
      if m != j {
        OrderedWithout(q, m, i, j);
      }
    }
  }

  lemma StepMoves(s: State, step: Step)
    requires Enabled(s, step)
    ensures Moved(s.manual, Apply(s, step).manual) && Moved(s.auto, Apply(s, step).auto)
  {
    hide OtherAnims, FirstOf, FirstAtWork, FrameNumbers;
  }

  // While `x` is ahead of `y` in a queue and stays there, no thread takes `y`.
  lemma NotOvertaken(s: State, step: Step, manual: bool, x: Item, y: Item)
    requires Inv(s) && Enabled(s, step)
    requires var q := if manual then s.manual else s.auto;
             Before(q, x, y)
    requires var t := Apply(s, step);
             x in if manual then t.manual else t.auto
    ensures var t := Apply(s, step);
            Before(if manual then t.manual else t.auto, x, y) || y !in Places(t)
  {
    var t := Apply(s, step);
    QueuesOnce(s);
    StepMoves(s, step);
    MovedKeepsOrder(if manual then s.manual else s.auto, if manual then t.manual else t.auto, x, y);
    if y !in (if manual then t.manual else t.auto) {
      LeftBehind(s, step, manual, x, y);
    }
  }

  // All other places hold no more than before.
  ghost predicate OthersShrink(s: State, t: State, manual: bool) {
    && multiset(BasesOf(t.submitted)) <= multiset(BasesOf(s.submitted))
    && multiset(BasesOf(t.fetched)) <= multiset(BasesOf(s.fetched))
    && multiset(ItemsOf(t.running)) <= multiset(ItemsOf(s.running))
    && if manual then multiset(t.auto) <= multiset(s.auto) else multiset(t.manual) <= multiset(s.manual)
  }

  lemma GoneEverywhere(s: State, t: State, manual: bool, y: Item)
    requires Unique(s) && OthersShrink(s, t, manual)
    requires y in (if manual then s.manual else s.auto) && y !in (if manual then t.manual else t.auto)
    ensures y !in Places(t)
  {
    assert Places(s)[y] <= 1;
  }

  lemma CancelShrinks(s: State, jid: nat, manual: bool)
    ensures OthersShrink(s, CancelJob(s, jid), manual)
  {
    hide OtherAnims, FirstOf, FirstAtWork, Places;
    CancelPlaces(s, jid);
  }

  lemma ReapShrinks(s: State, i: nat, manual: bool)
    requires Enabled(s, Reaping(i))
    ensures OthersShrink(s, ReapOne(s, i), manual)
  {
    hide CancelJob, Without;
    var j := s.running[i];
    var t := if FrameID(j) != 0 && j.progress != Done then CancelJob(s, j.item.jid) else s;
    CancelShrinks(s, j.item.jid, manual);
    CancelPlaces(s, j.item.jid);
    ItemsWithout(t.running, i);
  }

  lemma StartTakesHead(s: State, manual: bool, x: Item, y: Item)
    requires Unique(s) && CanStart(s) && Before(if manual then s.manual else s.auto, x, y)
    ensures y in if manual then StartOne(s).manual else StartOne(s).auto
  {
    var q := if manual then s.manual else s.auto;
    var i: nat, j: nat :| 0 <= i < j < |q| && q[i] == x && q[j] == y;
    assert q[1..][j - 1] == y;
  }

  // An item that stood behind another and is no longer queued was canceled.
  lemma LeftBehind(s: State, step: Step, manual: bool, x: Item, y: Item)
    requires Inv(s) && Enabled(s, step)
    requires Before(if manual then s.manual else s.auto, x, y)
    requires y !in if manual then Apply(s, step).manual else Apply(s, step).auto
    ensures y !in Places(Apply(s, step))
  {
    assert y in if manual then s.manual else s.auto;
    match step
    case Canceling(jid) =>
      CancelShrinks(s, jid, manual);
      hide *;
      GoneEverywhere(s, Apply(s, step), manual, y);
    case Reaping(i) =>
      ReapShrinks(s, i, manual);
      hide *;
      GoneEverywhere(s, Apply(s, step), manual, y);
    case Starting =>
      hide Places, Whole, Tracked, Known, SpawnedOnce;
      StartTakesHead(s, manual, x, y);
    case _ =>
      hide Inv;
      QueuesGrow(s, step);
  }

  // The other steps take nothing off a queue.
  lemma QueuesGrow(s: State, step: Step)
    requires Enabled(s, step) && !step.Canceling? && !step.Reaping? && !step.Starting?
    ensures s.manual <= Apply(s, step).manual && s.auto <= Apply(s, step).auto
  {
    hide FrameNumbers, Without;
  }

  // What a step brings that was not there: a submission's job, or a launched frame.
  function NewWork(s: State, step: Step): multiset<Item>
    requires Enabled(s, step)
  {
    match step
    case Submitting(_) => multiset{Item(s.lastID + 1, 0)}
    case Launching(a) => multiset{Item(s.anims[a].id, s.anims[a].queue[0])}
    case _ => multiset{}
  }

  lemma FlagPlaces(s: State, t: State, i: nat)
    requires i < |s.running| && |t.running| == |s.running| && t.running == s.running[i := t.running[i]]
    requires t.running[i].item == s.running[i].item
    requires t.submitted == s.submitted && t.fetched == s.fetched && t.manual == s.manual && t.auto == s.auto
    ensures Places(t) == Places(s)
  {
    SameItems(s.running, i, t.running[i]);
  }

  lemma ReapPlaces(s: State, i: nat)
    requires Enabled(s, Reaping(i))
    ensures Places(ReapOne(s, i)) <= Places(s)
  {
    hide CancelJob, Without, Places;
    var j := s.running[i];
    var t := if FrameID(j) != 0 && j.progress != Done then CancelJob(s, j.item.jid) else s;
    CancelPlaces(s, j.item.jid);
    RemovalPlaces(t, i);
  }

  lemma AnimPlaces(s: State, t: State)
    requires t.submitted == s.submitted && t.fetched == s.fetched && t.manual == s.manual && t.auto == s.auto
    requires t.running == s.running
    ensures Places(t) == Places(s)
  {
  }

  lemma StepPlaces(s: State, step: Step)
    requires Enabled(s, step)
    ensures Places(Apply(s, step)) <= Places(s) + NewWork(s, step)
  {
    hide Places, OtherAnims, FirstOf, FirstAtWork, FrameNumbers, Without;
    match step
    case Submitting(manual) => SubmitPlaces(s, manual);
    case Fetching => FetchPlaces(s);
    case Posting => PostPlaces(s);
    case Starting => StartPlaces(s);
    case Reaping(i) => ReapPlaces(s, i);
    case Canceling(jid) => CancelPlaces(s, jid);
    case Launching(a) => LaunchPlaces(s, a);
    case Dropping(a, frame) => AnimPlaces(s, Apply(s, step));
    case Muxing(a) => AnimPlaces(s, Apply(s, step));
    case Spawning(i, _, _, _) => FlagPlaces(s, Apply(s, step), i);
    case Marking(i) => FlagPlaces(s, Apply(s, step), i);
    case Advancing(i, _, _) => FlagPlaces(s, Apply(s, step), i);
  }

  lemma StepRemembers(s: State, step: Step)
    requires Enabled(s, step)
    ensures s.lastID <= Apply(s, step).lastID && s.launched <= Apply(s, step).launched
  {
    hide OtherAnims, FirstOf, FirstAtWork, FrameNumbers, Without;
  }

  // Work that has come and gone: its number was given out, and a frame was launched.
  ghost predicate Spent(s: State, y: Item) {
    y !in Places(s) && y.jid <= s.lastID && (y.frame >= 2 ==> y in s.launched)
  }

  lemma SpentStays(s: State, step: Step, y: Item)
    requires Inv(s) && Enabled(s, step) && Spent(s, y)
    ensures Spent(Apply(s, step), y)
  {
    StepPlaces(s, step);
    StepRemembers(s, step);
    assert y !in NewWork(s, step) by {
      if step.Launching? {
        assert s.anims[step.a] in s.anims && s.anims[step.a].queue[0] in s.anims[step.a].queue;
        assert Whole(s, s.anims[step.a]);
      }
    }
    hide *;
  }

  // Over any run, work that has come and gone never comes back.
  lemma {:induction false} SpentForever(s: State, steps: seq<Step>, t: State, y: Item)
    requires Inv(s) && RunOf(s, steps, t) && Spent(s, y)
    ensures Spent(t, y)
    decreases |steps|
  {
    hide Inv, Apply, Enabled, Spent;
    if steps != [] {
      KeptByStep(s, steps[0]);
      SpentStays(s, steps[0], y);
      SpentForever(Apply(s, steps[0]), steps[1..], t, y);
    }
  }

  ghost predicate StaysQueued(s: State, steps: seq<Step>, manual: bool, x: Item)
    decreases |steps|
  {
    && x in (if manual then s.manual else s.auto)
    && (steps != [] ==> Enabled(s, steps[0]) && StaysQueued(Apply(s, steps[0]), steps[1..], manual, x))
  }

  // First in, first out, over any run: as long as `x` waits in a queue, nothing that
  // stood behind it there is ever running.
  lemma {:induction false} FirstInFirstOut(s: State, steps: seq<Step>, t: State, manual: bool, x: Item, y: Item)
    requires Inv(s) && RunOf(s, steps, t) && StaysQueued(s, steps, manual, x)
    requires Before(if manual then s.manual else s.auto, x, y) || Spent(s, y)
    ensures y !in ItemsOf(t.running)
    decreases |steps|
  {
    if steps == [] {
      NotRunning(s, manual, x, y);
    } else {
      var u := Apply(s, steps[0]);
      KeptByStep(s, steps[0]);
      if Spent(s, y) {
        SpentStays(s, steps[0], y);
      } else {
        NotOvertaken(s, steps[0], manual, x, y);
        QueuedKnown(s, manual, x, y);
        StepRemembers(s, steps[0]);
      }
      FirstInFirstOut(u, steps[1..], t, manual, x, y);
    }
  }

  lemma QueuedKnown(s: State, manual: bool, x: Item, y: Item)
    requires Known(s) && Before(if manual then s.manual else s.auto, x, y)
    ensures y.jid <= s.lastID && (y.frame >= 2 ==> y in s.launched)
  {
    assert y in if manual then s.manual else s.auto;
    assert y in Places(s);
  }

  lemma NotRunning(s: State, manual: bool, x: Item, y: Item)
    requires Inv(s) && (Before(if manual then s.manual else s.auto, x, y) || Spent(s, y))
    ensures y !in ItemsOf(s.running)
  {
    if Before(if manual then s.manual else s.auto, x, y) {
      assert y in if manual then s.manual else s.auto;
      AtMostPlaces(s, y);
      hide Places;
    }
  }

  // ----- Starts and submissions -----

  // In any reachable state, an item of the automatic queue starts running only as its
  // head, in a starting step, and only while no manual item waits.
  lemma AutomaticStart(max: nat, lastID: nat, s: State, step: Step, x: Item)
    requires Reachable(max, lastID, s) && Enabled(s, step) && x in s.auto && x in ItemsOf(Apply(s, step).running)
    ensures step.Starting? && s.manual == [] && s.auto[0] == x
  {
    ReachableInv(max, lastID, s);
    AtMostPlaces(s, x);
    assert Places(s)[x] <= 1;
    assert x !in ItemsOf(s.running) && x !in s.manual;
    hide Inv, Places;
    RunningAfter(s, step, x);
  }

  // A step other than a start brings no item into the threads.
  lemma RunningAfter(s: State, step: Step, x: Item)
    requires Enabled(s, step) && x !in ItemsOf(s.running) && x in ItemsOf(Apply(s, step).running)
    ensures step.Starting? && x == if s.manual != [] then s.manual[0] else s.auto[0]
  {
    match step
    case Canceling(jid) => CancelPlaces(s, jid);
    case Reaping(i) =>
      var failed := FrameID(s.running[i]) != 0 && s.running[i].progress != Done;
      var t := if failed then CancelJob(s, s.running[i].item.jid) else s;
      CancelPlaces(s, s.running[i].item.jid);
      ItemsWithout(t.running, i);
    case Spawning(i, _, _, _) => SameItems(s.running, i, Apply(s, step).running[i]);
    case Marking(i) => SameItems(s.running, i, Apply(s, step).running[i]);
    case Advancing(i, _, _) => SameItems(s.running, i, Apply(s, step).running[i]);
    case Starting =>
      var t := StartOne(s);
      assert ItemsOf(t.running) == ItemsOf(s.running) + [t.running[|s.running|].item];
    case _ =>
  }

  // The numbers a run gives out, in order.
  function Numbers(s: State, steps: seq<Step>): seq<nat>
    decreases |steps|
  {
    if steps == [] || !Enabled(s, steps[0]) then []
    else (if steps[0].Submitting? then [s.lastID + 1] else []) + Numbers(Apply(s, steps[0]), steps[1..])
  }

  predicate Rising(ns: seq<nat>, above: nat) {
    && (forall k :: 0 <= k < |ns| ==> ns[k] > above)
    && (forall i, j :: 0 <= i < j < |ns| ==> ns[i] < ns[j])
  }

  lemma RisingOn(ns: seq<nat>, above: nat)
    requires Rising(ns, above + 1)
    ensures Rising(ns, above) && Rising([above + 1] + ns, above)
  {
  }

  lemma StepNumbers(s: State, step: Step)
    requires Enabled(s, step)
    ensures Apply(s, step).lastID == s.lastID + if step.Submitting? then 1 else 0
  {
    hide OtherAnims, FirstOf, FirstAtWork, FrameNumbers, Without;
  }

  lemma NumbersStep(s: State, steps: seq<Step>)
    ensures steps == [] || !Enabled(s, steps[0]) ==> Numbers(s, steps) == []
    ensures steps != [] && Enabled(s, steps[0]) ==>
      var rest := Numbers(Apply(s, steps[0]), steps[1..]);
      Numbers(s, steps) == if steps[0].Submitting? then [s.lastID + 1] + rest else rest
  {
    hide Apply, Enabled;
    if steps != [] && Enabled(s, steps[0]) {
      assert [] + Numbers(Apply(s, steps[0]), steps[1..]) == Numbers(Apply(s, steps[0]), steps[1..]);
    }
  }

  lemma NoNumbers(above: nat)
    ensures Rising([], above)
  {
  }

  // Over any run submissions are numbered upwards from the last number, so no number is given twice.
  lemma {:induction false} NumbersRise(s: State, steps: seq<Step>)
    ensures Rising(Numbers(s, steps), s.lastID)
    decreases |steps|
  {
    hide *;
    NumbersStep(s, steps);
    NoNumbers(s.lastID);
    if steps != [] && Enabled(s, steps[0]) {
      StepNumbers(s, steps[0]);
      NumbersRise(Apply(s, steps[0]), steps[1..]);
      if steps[0].Submitting? {
        RisingOn(Numbers(Apply(s, steps[0]), steps[1..]), s.lastID);
      }
    }
  }
}
