/** Where the work in the scheduler's queues comes from, over whole runs, and what
    cancelling and reaping do to it. */
module SchedulerOrigins {
  import opened Scheduler
  import opened SchedulerSafety
  import opened SchedulerRuns

  // What the clients and render threads asked for so far: the jobs submitted as manual and
  // as automatic, and the jobs whose animation was started as manual and as automatic.
  datatype History = History(manualJobs: set<nat>, autoJobs: set<nat>, manualAnims: set<nat>, autoAnims: set<nat>)

  const NONE := History({}, {}, {}, {})

  function Record(h: History, s: State, step: Step): History
    requires Enabled(s, step)
  {
    match step
    case Submitting(manual) =>
      if manual then h.(manualJobs := h.manualJobs + {s.lastID + 1}) else h.(autoJobs := h.autoJobs + {s.lastID + 1})
    case Spawning(i, _, manual, _) =>
      var jid := s.running[i].item.jid;
      if manual then h.(manualAnims := h.manualAnims + {jid}) else h.(autoAnims := h.autoAnims + {jid})
    case _ => h
  }

  function HistoryOf(h: History, s: State, steps: seq<Step>): History
    decreases |steps|
  {
    if steps == [] || !Enabled(s, steps[0]) then h
    else HistoryOf(Record(h, s, steps[0]), Apply(s, steps[0]), steps[1..])
  }

  // No number is recorded twice over.
  predicate Coherent(h: History, s: State) {
    && (forall id :: id in h.manualJobs ==> id <= s.lastID)
    && (forall id :: id in h.autoJobs ==> id <= s.lastID)
    && h.manualJobs !! h.autoJobs
    && h.manualAnims + h.autoAnims <= s.spawned
    && h.manualAnims !! h.autoAnims
  }

  predicate FromJob(h: History, q: Submission) {
    q.jid in if q.manual then h.manualJobs else h.autoJobs
  }

  predicate FromAnim(h: History, x: Animation) {
    x.id in if x.manual then h.manualAnims else h.autoAnims
  }

  predicate FromManual(h: History, x: Item) {
    x.jid in if x.frame == 0 then h.manualJobs else h.manualAnims
  }

  predicate FromAuto(h: History, x: Item) {
    x.jid in if x.frame == 0 then h.autoJobs else h.autoAnims
  }

  // Every queue holds what was asked to go there.
  predicate Sorted(h: History, s: State) {
    && Coherent(h, s)
    && (forall q :: q in s.submitted + s.fetched ==> FromJob(h, q))
    && (forall x :: x in s.anims ==> FromAnim(h, x))
    && (forall x :: x in s.manual ==> FromManual(h, x))
    && (forall x :: x in s.auto ==> FromAuto(h, x))
  }

  predicate Within(h: History, h': History) {
    && h.manualJobs <= h'.manualJobs && h.autoJobs <= h'.autoJobs
    && h.manualAnims <= h'.manualAnims && h.autoAnims <= h'.autoAnims
  }

  // After a step whatever was there before is still sorted, so only what is new matters.
  lemma NewSorted(h: History, s: State, h': History, t: State)
    requires Sorted(h, s) && Within(h, h') && Coherent(h', t)
    requires forall q :: q in t.submitted + t.fetched ==> q in s.submitted + s.fetched || FromJob(h', q)
    requires forall x :: x in t.anims ==> x in s.anims || FromAnim(h', x)
    requires forall x :: x in t.manual ==> x in s.manual || FromManual(h', x)
    requires forall x :: x in t.auto ==> x in s.auto || FromAuto(h', x)
    ensures Sorted(h', t)
  {
  }

  lemma SortedSubmit(h: History, s: State, manual: bool)
    requires Sorted(h, s) && Inv(s)
    ensures Sorted(Record(h, s, Submitting(manual)), Submit(s, manual))
  {
    hide Inv;
    var h', t := Record(h, s, Submitting(manual)), Submit(s, manual);
    assert FromJob(h', Submission(s.lastID + 1, manual));
    assert Coherent(h', t);
    assert forall q :: q in t.submitted + t.fetched ==> q in s.submitted + s.fetched || FromJob(h', q);
    NewSorted(h, s, h', t);
  }

  lemma SortedPost(h: History, s: State)
    requires Sorted(h, s) && s.fetched != []
    ensures Sorted(h, PostOne(s))
  {
    var q := s.fetched[0];
    assert q in s.submitted + s.fetched && FromJob(h, q);
    NewSorted(h, s, h, PostOne(s));
  }

  lemma SortedStart(h: History, s: State)
    requires Sorted(h, s) && CanStart(s)
    ensures Sorted(h, StartOne(s))
  {
    NewSorted(h, s, h, StartOne(s));
  }

  lemma SortedCancel(h: History, s: State, jid: nat)
    requires Sorted(h, s) && Inv(s)
    ensures Sorted(h, CancelJob(s, jid))
  {
    CancelOnlyRemoves(s, jid);
    CancelKeepsSubmissions(s, jid);
    hide CancelJob, FromJob, FromAnim, FromManual, FromAuto;
    NewSorted(h, s, h, CancelJob(s, jid));
  }

  lemma CancelKeepsSubmissions(s: State, jid: nat)
    ensures CancelJob(s, jid).submitted == s.submitted && CancelJob(s, jid).fetched == s.fetched
  {
    hide OtherAnims, FirstAtWork, FirstOf, Without;
  }

  lemma SortedReap(h: History, s: State, i: nat)
    requires Sorted(h, s) && Inv(s) && i < |s.running| && !s.running[i].busy
    ensures Sorted(h, ReapOne(s, i))
  {
    var j := s.running[i];
    SortedCancel(h, s, j.item.jid);
    KeptByCancel(s, j.item.jid);
    hide CancelJob, Without, Inv, Sorted;
    var u := if FrameID(j) != 0 && j.progress != Done then CancelJob(s, j.item.jid) else s;
    SortedThreads(h, u, Without(u.running, i));
  }

  lemma SortedThreads(h: History, s: State, running: seq<Job>)
    requires Sorted(h, s)
    ensures Sorted(h, s.(running := running))
  {
    hide FromJob, FromAnim, FromManual, FromAuto;
  }

  lemma SortedLaunch(h: History, s: State, a: nat)
    requires Sorted(h, s) && Inv(s) && a < |s.anims| && s.anims[a].queue != []
    ensures Sorted(h, LaunchOne(s, a))
  {
    var x := s.anims[a];
    assert x in s.anims && Whole(s, x) && x.queue[0] in x.queue;
    hide Inv, Whole;
    NewSorted(h, s, h, LaunchOne(s, a));
  }

  lemma SortedSpawn(h: History, s: State, i: nat, frames: nat, manual: bool, mustStop: nat)
    requires Sorted(h, s) && Inv(s) && Enabled(s, Spawning(i, frames, manual, mustStop))
    ensures Sorted(Record(h, s, Spawning(i, frames, manual, mustStop)), Spawn(s, i, frames, manual, mustStop))
  {
    hide FrameNumbers, Places, Unique, Known, Whole, Tracked;
    var h' := Record(h, s, Spawning(i, frames, manual, mustStop));
    assert s.running[i].item.jid !in s.spawned;
    hide Inv, SpawnedOnce;
    NewSorted(h, s, h', Spawn(s, i, frames, manual, mustStop));
  }

  lemma SortedByStep(h: History, s: State, step: Step)
    requires Sorted(h, s) && Inv(s) && Enabled(s, step)
    ensures Sorted(Record(h, s, step), Apply(s, step))
  {
    match step
    case Submitting(manual) => SortedSubmit(h, s, manual);
    case Posting => SortedPost(h, s);
    case Starting => SortedStart(h, s);
    case Reaping(i) => SortedReap(h, s, i);
    case Canceling(jid) => SortedCancel(h, s, jid);
    case Launching(a) => SortedLaunch(h, s, a);
    case Spawning(i, frames, manual, mustStop) => SortedSpawn(h, s, i, frames, manual, mustStop);
    case _ => SortedOtherwise(h, s, step);
  }

  lemma SortedOtherwise(h: History, s: State, step: Step)
    requires Sorted(h, s) && Inv(s) && Enabled(s, step)
    requires step.Fetching? || step.Dropping? || step.Muxing? || step.Marking? || step.Advancing?
    ensures Sorted(Record(h, s, step), Apply(s, step))
  {
    hide Inv;
    var t := Apply(s, step);
    assert step.Dropping? ==> s.anims[step.a] in s.anims;
    assert forall q :: q in t.submitted + t.fetched ==> q in s.submitted + s.fetched;
    assert forall x :: x in t.anims ==> x in s.anims || FromAnim(h, x);
    NewSorted(h, s, h, t);
  }

  lemma {:induction false} SortedByRun(h: History, s: State, steps: seq<Step>, t: State)
    requires Sorted(h, s) && Inv(s) && RunOf(s, steps, t)
    ensures Sorted(HistoryOf(h, s, steps), t)
    decreases |steps|
  {
    hide Sorted, Inv, Apply, Record;
    if steps != [] {
      SortedByStep(h, s, steps[0]);
      KeptByStep(s, steps[0]);
      SortedByRun(Record(h, s, steps[0]), Apply(s, steps[0]), steps[1..], t);
    }
  }

  // ----- What every run guarantees -----

  // Over every run a job waits in the queue it was submitted for, and a later frame in
  // the one its animation was started for; never in the other.
  lemma QueuedAsAsked(max: nat, lastID: nat, steps: seq<Step>, t: State, x: Item)
    requires RunOf(Initial(max, lastID), steps, t)
    ensures var h := HistoryOf(NONE, Initial(max, lastID), steps);
            && (x in t.manual ==> FromManual(h, x) && !FromAuto(h, x))
            && (x in t.auto ==> FromAuto(h, x) && !FromManual(h, x))
  {
    var s := Initial(max, lastID);
    assert BasesOf([]) == [] && ItemsOf([]) == [];
    SortedByRun(NONE, s, steps, t);
  }

  // If animations are started for the queue their job was submitted for, so is every item.
  lemma QueuedAsSubmitted(max: nat, lastID: nat, steps: seq<Step>, t: State, x: Item)
    requires RunOf(Initial(max, lastID), steps, t)
    requires var h := HistoryOf(NONE, Initial(max, lastID), steps);
             h.manualAnims <= h.manualJobs && h.autoAnims <= h.autoJobs
    ensures var h := HistoryOf(NONE, Initial(max, lastID), steps);
            && (x in t.manual ==> x.jid in h.manualJobs && x.jid !in h.autoJobs)
            && (x in t.auto ==> x.jid in h.autoJobs && x.jid !in h.manualJobs)
  {
    var s := Initial(max, lastID);
    assert BasesOf([]) == [] && ItemsOf([]) == [];
    SortedByRun(NONE, s, steps, t);
  }

  // A job submitted as automatic starts only while no posted manual job waits anywhere.
  lemma ManualFirst(max: nat, lastID: nat, steps: seq<Step>, s: State, step: Step, x: Item, y: Item)
    requires RunOf(Initial(max, lastID), steps, s) && Enabled(s, step)
    requires var h := HistoryOf(NONE, Initial(max, lastID), steps);
             x.frame == y.frame == 0 && x.jid in h.autoJobs && y.jid in h.manualJobs
    requires x !in ItemsOf(s.running) && x in ItemsOf(Apply(s, step).running)
    ensures step.Starting? && s.auto != [] && x == s.auto[0] && y !in s.manual + s.auto
  {
    QueuedAsAsked(max, lastID, steps, s, x);
    QueuedAsAsked(max, lastID, steps, s, y);
    hide Apply, ItemsOf, HistoryOf;
    HeadWaits(s.manual);
    RunningAfter(s, step, x);
  }

  lemma HeadWaits(q: seq<Item>)
    ensures q != [] ==> q[0] in q
  {
  }

  // ----- Cancelling and reaping -----

  predicate AtWorkOn(j: Job, jid: nat) {
    j.item.jid == jid && j.progress != Unstarted
  }

  // The queue without the first item of a job, which stands at `k`.
  predicate FirstTaken(q: seq<Item>, q': seq<Item>, jid: nat, k: nat) {
    && k < |q| && q[k].jid == jid && (forall i :: 0 <= i < k ==> q[i].jid != jid)
    && q' == q[..k] + q[k + 1..]
  }

  // The threads with the first one that has something to cancel, at `k`, marked so.
  predicate FirstMarked(r: seq<Job>, r': seq<Job>, jid: nat, k: nat) {
    && k < |r| && AtWorkOn(r[k], jid) && (forall i :: 0 <= i < k ==> !AtWorkOn(r[i], jid))
    && r' == r[k := r[k].(progress := Canceled)]
  }

  predicate Waits(q: seq<Item>, jid: nat) {
    exists x :: x in q && x.jid == jid
  }

  // Cancelling takes the job's animations; then its first thread that has something to
  // cancel ends up cancelled, or else its first item leaves the manual queue, or else the
  // automatic one; nothing else changes.
  lemma CancelTakes(s: State, jid: nat) returns (k: nat)
    ensures var t := Apply(s, Canceling(jid));
            t == s.(anims := t.anims, running := t.running, manual := t.manual, auto := t.auto)
            && forall x :: x in t.anims <==> x in s.anims && x.id != jid
    ensures var t := Apply(s, Canceling(jid));
            if exists j :: j in s.running && AtWorkOn(j, jid) then
              FirstMarked(s.running, t.running, jid, k) && t.manual == s.manual && t.auto == s.auto
            else if Waits(s.manual, jid) then
              t.running == s.running && FirstTaken(s.manual, t.manual, jid, k) && t.auto == s.auto
            else if Waits(s.auto, jid) then
              t.running == s.running && t.manual == s.manual && FirstTaken(s.auto, t.auto, jid, k)
            else t.running == s.running && t.manual == s.manual && t.auto == s.auto
  {
    OtherAnimsMeans(s.anims, jid);
    hide OtherAnims;
    var r, m, a := FirstAtWork(s.running, jid), FirstOf(s.manual, jid), FirstOf(s.auto, jid);
    hide FirstAtWork, FirstOf;
    assert m < |s.manual| ==> s.manual[m] in s.manual;
    assert a < |s.auto| ==> s.auto[a] in s.auto;
    k := if r < |s.running| then r else if m < |s.manual| then m else a;
  }

  // Reaping takes one finished thread. Only a frame that did not get done, or a first frame
  // doing its job's work, takes the job along, and then by cancelling it.
  lemma ReapTakes(s: State, i: nat)
    requires Enabled(s, Reaping(i))
    ensures var t, j := Apply(s, Reaping(i)), s.running[i];
            if (j.item.frame != 0 || j.marked) && j.progress != Done then
              var u := Apply(s, Canceling(j.item.jid));
              t == u.(running := t.running) && |u.running| == |s.running|
              && t.running == u.running[..i] + u.running[i + 1..]
            else
              t == s.(running := s.running[..i] + s.running[i + 1..])
  {
    hide OtherAnims, FirstOf, FirstAtWork;
  }
}
