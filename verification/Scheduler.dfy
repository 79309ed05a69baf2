/** The render scheduler as a state machine: jobs on their way from submission
    through two queues to the render threads, and the animations whose frames
    follow them. The render threads and the clients are environment steps. */
module Scheduler {

  // A piece of rendering: a submitted job itself (frame 0), or one later frame of its animation.
  datatype Item = Item(jid: nat, frame: nat)

  datatype Submission = Submission(jid: nat, manual: bool)

  datatype Progress = Unstarted | Going | Done | Errored | TimedOut | Canceled

  // A render thread's job. A submitted job spawns at most one animation, and only
  // afterwards counts as that animation's first frame.
  datatype Job = Job(item: Item, spawned: bool, marked: bool, busy: bool, progress: Progress)

  datatype Animation = Animation(
    id: nat,
    frames: nat,
    manual: bool,
    mustStop: nat,
    queue: seq<nat>,
    rendering: set<nat>
  )

  // `spawned` and `launched` remember which jobs have had an animation and which
  // frames have ever been handed to a queue.
  datatype State = State(
    max: nat, lastID: nat, submitted: seq<Submission>, fetched: seq<Submission>,
    manual: seq<Item>, auto: seq<Item>, running: seq<Job>, anims: seq<Animation>,
    spawned: set<nat>, launched: set<Item>)

  function FrameID(j: Job): nat {
    if j.item.frame == 0 && j.marked then 1 else j.item.frame
  }

  function Without<T>(s: seq<T>, i: nat): (r: seq<T>)
    requires i < |s|
    ensures |r| == |s| - 1 && multiset(r) + multiset{s[i]} == multiset(s)
    ensures forall x :: x in r ==> x in s
  {
    assert s == s[..i] + [s[i]] + s[i + 1..];
    s[..i] + s[i + 1..]
  }

  function Initial(max: nat, lastID: nat): State {
    State(max, lastID, [], [], [], [], [], [], {}, {})
  }

  // ----- The clients and the hand-off -----

  function Submit(s: State, manual: bool): State {
    s.(lastID := s.lastID + 1, submitted := s.submitted + [Submission(s.lastID + 1, manual)])
  }

  function Fetch(s: State): State
    requires s.fetched == []
  {
    s.(fetched := s.submitted, submitted := [])
  }

  // A fetched job joins its queue; frame numbers cannot be submitted.
  function PostOne(s: State): State
    requires s.fetched != []
  {
    var item := Item(s.fetched[0].jid, 0);
    if s.fetched[0].manual then s.(fetched := s.fetched[1..], manual := s.manual + [item])
    else s.(fetched := s.fetched[1..], auto := s.auto + [item])
  }

  // ----- Starting and finishing jobs -----

  predicate CanStart(s: State) {
    |s.running| < s.max && (s.manual != [] || s.auto != [])
  }

  function Started(item: Item): Job {
    Job(item, false, false, true, Unstarted)
  }

  function StartOne(s: State): State
    requires CanStart(s)
  {
    if s.manual != [] then s.(manual := s.manual[1..], running := s.running + [Started(s.manual[0])])
    else s.(auto := s.auto[1..], running := s.running + [Started(s.auto[0])])
  }

  // The first place of a job in a queue, or its end.
  function FirstOf(q: seq<Item>, jid: nat): (i: nat)
    ensures i <= |q| && (i < |q| ==> q[i].jid == jid) && forall k :: 0 <= k < i ==> q[k].jid != jid
  {
    if q == [] || q[0].jid == jid then 0 else 1 + FirstOf(q[1..], jid)
  }

  // The first thread at work on a job, once it has something to cancel.
  function FirstAtWork(r: seq<Job>, jid: nat): (i: nat)
    ensures i <= |r| && (i < |r| ==> r[i].item.jid == jid && r[i].progress != Unstarted)
    ensures forall k :: 0 <= k < i ==> !(r[k].item.jid == jid && r[k].progress != Unstarted)
  {
    if r == [] || (r[0].item.jid == jid && r[0].progress != Unstarted) then 0 else 1 + FirstAtWork(r[1..], jid)
  }

  function OtherAnims(anims: seq<Animation>, id: nat): seq<Animation> {
    if anims == [] then []
    else (if anims[0].id != id then [anims[0]] else []) + OtherAnims(anims[1..], id)
  }

  // The job's animation goes, and then the first thing found among running and queued.
  function CancelJob(s: State, jid: nat): State {
    var t := s.(anims := OtherAnims(s.anims, jid));
    var r := FirstAtWork(s.running, jid);
    if r < |s.running| then t.(running := s.running[r := s.running[r].(progress := Canceled)])
    else
      var m := FirstOf(s.manual, jid);
      if m < |s.manual| then t.(manual := Without(s.manual, m))
      else
        var a := FirstOf(s.auto, jid);
        if a < |s.auto| then t.(auto := Without(s.auto, a)) else t
  }

  // A finished thread is removed; a frame that failed takes its job along.
  function ReapOne(s: State, i: nat): State
    requires i < |s.running| && !s.running[i].busy
  {
    var j := s.running[i];
    var t := if FrameID(j) != 0 && j.progress != Done then CancelJob(s, j.item.jid) else s;
    t.(running := Without(t.running, i))
  }

  // ----- Animations -----

  function LaunchOne(s: State, a: nat): State
    requires a < |s.anims| && s.anims[a].queue != []
  {
    var x := s.anims[a];
    var item := Item(x.id, x.queue[0]);
    var t := s.(anims := s.anims[a := x.(queue := x.queue[1..], rendering := x.rendering + {item.frame})],
                launched := s.launched + {item});
    if x.manual then t.(manual := s.manual + [item]) else t.(auto := s.auto + [item])
  }

  predicate InThread(r: seq<Job>, jid: nat, frame: nat) {
    exists k :: 0 <= k < |r| && r[k].item.jid == jid && FrameID(r[k]) == frame
  }

  // What the scheduler asks before it takes a frame for finished.
  predicate StillBusy(s: State, x: Animation, frame: nat) {
    Item(x.id, frame) in (if x.manual then s.manual else s.auto) || InThread(s.running, x.id, frame)
  }

  function DropOne(s: State, a: nat, frame: nat): State
    requires a < |s.anims| && frame in s.anims[a].rendering && !StillBusy(s, s.anims[a], frame)
  {
    var x := s.anims[a];
    s.(anims := s.anims[a := x.(rendering := x.rendering - {frame})])
  }

  function MuxOne(s: State, a: nat): State
    requires a < |s.anims| && s.anims[a].queue == [] && s.anims[a].rendering == {}
  {
    s.(anims := Without(s.anims, a))
  }

  // ----- Render threads -----

  function FrameNumbers(frames: nat): (r: seq<nat>)
    ensures DistinctFrames(r) && forall f: nat :: f in r <==> 2 <= f <= frames
    ensures forall i, j :: 0 <= i < j < |r| ==> r[i] < r[j]
  {
    if frames < 2 then []
    else
      var r := FrameNumbers(frames - 1);
      assert forall k :: 0 <= k < |r| ==> r[k] in r;
      r + [frames]
  }

  // A submitted job turns out to be animated: its frames from the second on are queued up.
  function Spawn(s: State, i: nat, frames: nat, manual: bool, mustStop: nat): State
    requires i < |s.running| && s.running[i].busy && s.running[i].item.frame == 0 && !s.running[i].spawned
  {
    var j := s.running[i];
    s.(running := s.running[i := j.(spawned := true)],
       anims := s.anims + [Animation(j.item.jid, frames, manual, mustStop, FrameNumbers(frames), {})],
       spawned := s.spawned + {j.item.jid})
  }

  function Mark(s: State, i: nat): State
    requires i < |s.running| && s.running[i].busy && s.running[i].spawned
  {
    s.(running := s.running[i := s.running[i].(marked := true)])
  }

  // Any other progress a render thread makes, up to its end.
  function Advance(s: State, i: nat, progress: Progress, busy: bool): State
    requires i < |s.running| && s.running[i].busy
  {
    s.(running := s.running[i := s.running[i].(progress := progress, busy := busy)])
  }

  // ----- Runs -----

  datatype Step =
    | Submitting(manual: bool) | Fetching | Posting | Starting | Reaping(i: nat) | Canceling(jid: nat)
    | Launching(a: nat) | Dropping(a: nat, frame: nat) | Muxing(a: nat)
    | Spawning(i: nat, frames: nat, manual: bool, mustStop: nat) | Marking(i: nat)
    | Advancing(i: nat, progress: Progress, busy: bool)

  predicate Enabled(s: State, step: Step) {
    match step
    case Submitting(_) => true
    case Fetching => s.fetched == []
    case Posting => s.fetched != []
    case Starting => CanStart(s)
    case Reaping(i) => i < |s.running| && !s.running[i].busy
    case Canceling(_) => true
    case Launching(a) => a < |s.anims| && s.anims[a].queue != []
    case Dropping(a, frame) => a < |s.anims| && frame in s.anims[a].rendering && !StillBusy(s, s.anims[a], frame)
    case Muxing(a) => a < |s.anims| && s.anims[a].queue == [] && s.anims[a].rendering == {}
    case Spawning(i, _, _, _) =>
      i < |s.running| && s.running[i].busy && s.running[i].item.frame == 0 && !s.running[i].spawned
    case Marking(i) => i < |s.running| && s.running[i].busy && s.running[i].spawned
    case Advancing(i, _, _) => i < |s.running| && s.running[i].busy
  }

  function Apply(s: State, step: Step): State
    requires Enabled(s, step)
  {
    match step
    case Submitting(manual) => Submit(s, manual)
    case Fetching => Fetch(s)
    case Posting => PostOne(s)
    case Starting => StartOne(s)
    case Reaping(i) => ReapOne(s, i)
    case Canceling(jid) => CancelJob(s, jid)
    case Launching(a) => LaunchOne(s, a)
    case Dropping(a, frame) => DropOne(s, a, frame)
    case Muxing(a) => MuxOne(s, a)
    case Spawning(i, frames, manual, mustStop) => Spawn(s, i, frames, manual, mustStop)
    case Marking(i) => Mark(s, i)
    case Advancing(i, progress, busy) => Advance(s, i, progress, busy)
  }

  // A run: every step was enabled when it was taken.
  predicate RunOf(s: State, steps: seq<Step>, t: State)
    decreases |steps|
  {
    if steps == [] then s == t
    else Enabled(s, steps[0]) && RunOf(Apply(s, steps[0]), steps[1..], t)
  }

  // ----- The invariant -----

  function ItemsOf(r: seq<Job>): (q: seq<Item>)
    ensures |q| == |r| && forall k :: 0 <= k < |r| ==> q[k] == r[k].item
  {
    seq(|r|, k requires 0 <= k < |r| => r[k].item)
  }

  function BasesOf(q: seq<Submission>): (r: seq<Item>)
    ensures |r| == |q| && forall k :: 0 <= k < |q| ==> r[k] == Item(q[k].jid, 0)
  {
    seq(|q|, k requires 0 <= k < |q| => Item(q[k].jid, 0))
  }

  // Every piece of work, wherever it is.
  function Places(s: State): multiset<Item> {
    multiset(BasesOf(s.submitted)) + multiset(BasesOf(s.fetched)) + multiset(s.manual) + multiset(s.auto)
    + multiset(ItemsOf(s.running))
  }

  predicate DistinctAnims(anims: seq<Animation>) {
    forall i, j :: 0 <= i < j < |anims| ==> anims[i].id != anims[j].id
  }

  predicate DistinctFrames(q: seq<nat>) {
    forall i, j :: 0 <= i < j < |q| ==> q[i] != q[j]
  }

  ghost predicate Unique(s: State) {
    forall x: Item :: Places(s)[x] <= 1
  }

  // Work has a submitted job's number; a frame was launched from a spawned animation.
  ghost predicate Known(s: State) {
    && (forall x :: x in Places(s) ==> x.jid <= s.lastID && x.frame != 1 && (x.frame >= 2 ==> x in s.launched))
    && (forall x :: x in s.launched ==> x.frame >= 2 && x.jid in s.spawned)
    && (forall id :: id in s.spawned ==> id <= s.lastID)
  }

  // A job has had its animation only if it has run, and at most one.
  ghost predicate SpawnedOnce(s: State) {
    && (forall x :: x in BasesOf(s.submitted) + BasesOf(s.fetched) + s.manual + s.auto && x.frame == 0 ==>
          x.jid !in s.spawned)
    && (forall k :: 0 <= k < |s.running| && s.running[k].item.frame == 0 ==>
          && (s.running[k].spawned <==> s.running[k].item.jid in s.spawned)
          && (s.running[k].marked ==> s.running[k].spawned))
  }

  // An animation's frames 2..N are waiting in it, or were launched; never both.
  ghost predicate Whole(s: State, x: Animation) {
    && x.id in s.spawned && DistinctFrames(x.queue)
    && (forall f :: f in x.queue ==> 2 <= f <= x.frames && f !in x.rendering && Item(x.id, f) !in s.launched)
    && (forall f :: f in x.rendering ==> 2 <= f <= x.frames && Item(x.id, f) in s.launched)
    && (forall f :: 2 <= f <= x.frames ==> f in x.queue || Item(x.id, f) in s.launched)
  }

  // Whatever of the animation is queued or running is on its list, and queued where it looks.
  ghost predicate Tracked(s: State, x: Animation) {
    && (forall y :: y in s.manual && y.jid == x.id && y.frame >= 2 ==> y.frame in x.rendering && x.manual)
    && (forall y :: y in s.auto && y.jid == x.id && y.frame >= 2 ==> y.frame in x.rendering && !x.manual)
    && (forall y :: y in ItemsOf(s.running) && y.jid == x.id && y.frame >= 2 ==> y.frame in x.rendering)
  }

  ghost predicate Inv(s: State) {
    && |s.running| <= s.max
    && Unique(s) && Known(s) && SpawnedOnce(s)
    && DistinctAnims(s.anims)
    && forall x :: x in s.anims ==> Whole(s, x) && Tracked(s, x)
  }
}
