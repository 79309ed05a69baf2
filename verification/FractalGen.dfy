/** The scheduler's own code: `DBManager`'s hand-off, and `FractalGen`'s queues,
    threads and animations as `update` works them off. */
module FractalGen {
  import opened Formula
  import opened Scheduler
  import opened SchedulerSafety
  import opened SchedulerRuns

  // ----- What each part of an update does -----

  // Every thread that has finished, in order.
  function ReapAll(s: State, i: nat): State
    decreases |s.running| - i
  {
    if i >= |s.running| then s
    else if s.running[i].busy then ReapAll(s, i + 1)
    else ReapAll(ReapOne(s, i), i)
  }

  predicate Overdue(x: Animation, now: nat) {
    x.mustStop != 0 && x.mustStop <= now
  }

  function FirstOverdue(anims: seq<Animation>, now: nat): (i: nat)
    ensures i <= |anims| && (i < |anims| ==> Overdue(anims[i], now))
  {
    if anims == [] || Overdue(anims[0], now) then 0 else 1 + FirstOverdue(anims[1..], now)
  }

  // At most one overdue animation is canceled.
  function TimeOut(s: State, now: nat): State {
    var i := FirstOverdue(s.anims, now);
    if i < |s.anims| then CancelJob(s, s.anims[i].id) else s
  }

  // Frames of the animations in turn, up to a number of them.
  function LaunchAll(s: State, a: nat, count: nat): State
    decreases |s.anims| - a, count
  {
    if count == 0 || a >= |s.anims| then s
    else if s.anims[a].queue == [] then LaunchAll(s, a + 1, count)
    else LaunchAll(LaunchOne(s, a), a, count - 1)
  }

  function DropFinished(s: State, a: nat): State
    requires a < |s.anims|
  {
    var x := s.anims[a];
    s.(anims := s.anims[a := x.(rendering := set f | f in x.rendering && StillBusy(s, x, f))])
  }

  // Frames no longer queued or running come off each list; an animation with
  // nothing left goes to the muxer.
  function SettleAll(s: State, a: nat): State
    decreases |s.anims| - a
  {
    if a >= |s.anims| then s
    else
      var t := DropFinished(s, a);
      if t.anims[a].queue == [] && t.anims[a].rendering == {} then SettleAll(MuxOne(t, a), a)
      else SettleAll(t, a + 1)
  }

  function StartNext(s: State): State {
    if CanStart(s) then StartOne(s) else s
  }

  function PostAll(s: State): State
    decreases |s.fetched|
  {
    if s.fetched == [] then s else PostAll(PostOne(s))
  }

  function AddFrames(s: State, now: nat): State {
    var t := TimeOut(s, now);
    SettleAll(LaunchAll(t, 0, if |s.running| <= s.max then s.max - |s.running| else 0), 0)
  }

  // One pass: finished threads, animation frames, one start, new submissions, one request to cancel.
  function Pass(s: State, now: nat, cancel: Option<nat>): State
    requires s.fetched == []
  {
    var t := StartNext(AddFrames(ReapAll(s, 0), now));
    FetchedUntouched(s, now);
    var u := PostAll(Fetch(t));
    if cancel.Some? then CancelJob(u, cancel.value) else u
  }

  lemma FetchedUntouched(s: State, now: nat)
    ensures var t := StartNext(AddFrames(ReapAll(s, 0), now));
            t.fetched == s.fetched && t.submitted == s.submitted
  {
    hide ReapAll, TimeOut, LaunchAll, SettleAll, StartNext;
    ReapKeepsFetched(s, 0);
    var r := ReapAll(s, 0);
    TimeOutKeepsFetched(r, now);
    var t := TimeOut(r, now);
    var count := if |r.running| <= r.max then r.max - |r.running| else 0;
    LaunchKeepsFetched(t, 0, count);
    SettleKeepsFetched(LaunchAll(t, 0, count), 0);
    StartKeepsFetched(AddFrames(r, now));
  }

  lemma TimeOutKeepsFetched(s: State, now: nat)
    ensures var t := TimeOut(s, now);
            t.fetched == s.fetched && t.submitted == s.submitted
  {
    hide OtherAnims, FirstOf, FirstAtWork, Without;
  }

  lemma StartKeepsFetched(s: State)
    ensures StartNext(s).fetched == s.fetched && StartNext(s).submitted == s.submitted
  {
  }

  lemma {:induction false} ReapKeepsFetched(s: State, i: nat)
    ensures ReapAll(s, i).fetched == s.fetched && ReapAll(s, i).max == s.max && ReapAll(s, i).submitted == s.submitted
    decreases |s.running| - i
  {
    if i < |s.running| {
      if s.running[i].busy {
        ReapKeepsFetched(s, i + 1);
      } else {
        ReapKeepsFetched(ReapOne(s, i), i);
      }
    }
  }

  lemma {:induction false} LaunchKeepsFetched(s: State, a: nat, count: nat)
    ensures var t := LaunchAll(s, a, count);
            t.fetched == s.fetched && t.max == s.max && t.submitted == s.submitted
    decreases |s.anims| - a, count
  {
    if count != 0 && a < |s.anims| {
      if s.anims[a].queue == [] {
        LaunchKeepsFetched(s, a + 1, count);
      } else {
        LaunchKeepsFetched(LaunchOne(s, a), a, count - 1);
      }
    }
  }

  lemma {:induction false} SettleKeepsFetched(s: State, a: nat)
    ensures var t := SettleAll(s, a);
            t.fetched == s.fetched && t.max == s.max && t.submitted == s.submitted
    decreases |s.anims| - a
  {
    if a < |s.anims| {
      var t := DropFinished(s, a);
      if t.anims[a].queue == [] && t.anims[a].rendering == {} {
        SettleKeepsFetched(MuxOne(t, a), a);
      } else {
        SettleKeepsFetched(t, a + 1);
      }
    }
  }

  // ----- A pass is a run of the machine -----

  ghost predicate Runs(s: State, t: State) {
    exists steps :: RunOf(s, steps, t)
  }

  lemma RunsNowhere(s: State)
    ensures Runs(s, s)
  {
    assert RunOf(s, [], s);
  }

  lemma {:induction false} RunConcat(s: State, a: seq<Step>, t: State, b: seq<Step>, u: State)
    requires RunOf(s, a, t) && RunOf(t, b, u)
    ensures RunOf(s, a + b, u)
    decreases |a|
  {
    hide Apply;
    if a == [] {
      assert a + b == b;
    } else {
      assert (a + b)[1..] == a[1..] + b;
      RunConcat(Apply(s, a[0]), a[1..], t, b, u);
    }
  }

  lemma RunsOn(s: State, t: State, u: State)
    requires Runs(s, t) && Runs(t, u)
    ensures Runs(s, u)
  {
    var a :| RunOf(s, a, t);
    var b :| RunOf(t, b, u);
    RunConcat(s, a, t, b, u);
  }

  lemma StepRuns(s: State, step: Step)
    requires Enabled(s, step)
    ensures Runs(s, Apply(s, step))
  {
    hide Apply;
    assert [step][1..] == [];
    assert RunOf(Apply(s, step), [], Apply(s, step));
    assert RunOf(s, [step], Apply(s, step));
  }

  lemma {:induction false} ReapRuns(s: State, i: nat)
    ensures Runs(s, ReapAll(s, i))
    decreases |s.running| - i
  {
    hide RunOf, Runs;
    if i >= |s.running| {
      RunsNowhere(s);
    } else if s.running[i].busy {
      ReapRuns(s, i + 1);
    } else {
      var t := ReapOne(s, i);
      StepRuns(s, Reaping(i));
      ReapRuns(t, i);
      RunsOn(s, t, ReapAll(t, i));
    }
  }

  lemma TimeOutRuns(s: State, now: nat)
    ensures Runs(s, TimeOut(s, now))
  {
    hide RunOf, Runs, CancelJob;
    RunsNowhere(s);
    var i := FirstOverdue(s.anims, now);
    if i < |s.anims| {
      StepRuns(s, Canceling(s.anims[i].id));
    }
  }

  lemma {:induction false} LaunchRuns(s: State, a: nat, count: nat)
    ensures Runs(s, LaunchAll(s, a, count))
    decreases |s.anims| - a, count
  {
    hide RunOf, Runs;
    if count == 0 || a >= |s.anims| {
      RunsNowhere(s);
    } else if s.anims[a].queue == [] {
      LaunchRuns(s, a + 1, count);
    } else {
      var t := LaunchOne(s, a);
      StepRuns(s, Launching(a));
      LaunchRuns(t, a, count - 1);
      RunsOn(s, t, LaunchAll(t, a, count - 1));
    }
  }

  // Dropping frames one by one, in any order, drops them all.
  lemma {:induction false} DropRuns(s: State, a: nat, kept: set<nat>)
    requires a < |s.anims| && kept == (set f | f in s.anims[a].rendering && StillBusy(s, s.anims[a], f))
    ensures Runs(s, DropFinished(s, a))
    decreases s.anims[a].rendering
  {
    hide RunOf, Runs;
    var x := s.anims[a];
    if f :| f in x.rendering && f !in kept {
      var t := DropOne(s, a, f);
      assert forall g :: StillBusy(t, t.anims[a], g) == StillBusy(s, x, g);
      assert kept == set g | g in t.anims[a].rendering && StillBusy(t, t.anims[a], g);
      StepRuns(s, Dropping(a, f));
      DropRuns(t, a, kept);
      assert DropFinished(t, a) == DropFinished(s, a);
      RunsOn(s, t, DropFinished(t, a));
    } else {
      assert x.rendering == kept;
      assert DropFinished(s, a) == s;
      RunsNowhere(s);
    }
  }

  lemma {:induction false} SettleRuns(s: State, a: nat)
    ensures Runs(s, SettleAll(s, a))
    decreases |s.anims| - a
  {
    hide RunOf, Runs;
    if a >= |s.anims| {
      RunsNowhere(s);
    } else {
      var t := DropFinished(s, a);
      DropRuns(s, a, set f | f in s.anims[a].rendering && StillBusy(s, s.anims[a], f));
      if t.anims[a].queue == [] && t.anims[a].rendering == {} {
        StepRuns(t, Muxing(a));
        SettleRuns(MuxOne(t, a), a);
        RunsOn(t, MuxOne(t, a), SettleAll(MuxOne(t, a), a));
      } else {
        SettleRuns(t, a + 1);
      }
      RunsOn(s, t, SettleAll(s, a));
    }
  }

  lemma {:induction false} PostRuns(s: State)
    ensures Runs(s, PostAll(s))
    decreases |s.fetched|
  {
    hide RunOf, Runs;
    if s.fetched == [] {
      RunsNowhere(s);
    } else {
      StepRuns(s, Posting);
      PostRuns(PostOne(s));
      RunsOn(s, PostOne(s), PostAll(PostOne(s)));
    }
  }

  lemma AddFramesRuns(s: State, now: nat)
    ensures Runs(s, AddFrames(s, now))
  {
    hide RunOf, Runs, TimeOut, LaunchAll, SettleAll;
    var t := TimeOut(s, now);
    var count := if |s.running| <= s.max then s.max - |s.running| else 0;
    var u := LaunchAll(t, 0, count);
    TimeOutRuns(s, now);
    LaunchRuns(t, 0, count);
    SettleRuns(u, 0);
    RunsOn(s, t, u);
    RunsOn(s, u, SettleAll(u, 0));
  }

  lemma StartRuns(s: State)
    ensures Runs(s, StartNext(s))
  {
    hide RunOf, Runs;
    RunsNowhere(s);
    if CanStart(s) {
      StepRuns(s, Starting);
    }
  }

  // A whole pass is some steps of the machine, so all that holds of runs holds of passes.
  lemma PassRuns(s: State, now: nat, cancel: Option<nat>)
    requires s.fetched == []
    ensures Runs(s, Pass(s, now, cancel))
  {
    hide RunOf, Runs, ReapAll, AddFrames, StartNext, PostAll, CancelJob;
    var a := ReapAll(s, 0);
    var b := AddFrames(a, now);
    var t := StartNext(b);
    FetchedUntouched(s, now);
    ReapRuns(s, 0);
    AddFramesRuns(a, now);
    StartRuns(b);
    StepRuns(t, Fetching);
    PostRuns(Fetch(t));
    RunsOn(s, a, b);
    RunsOn(s, b, t);
    RunsOn(s, t, Fetch(t));
    var u := PostAll(Fetch(t));
    RunsOn(s, Fetch(t), u);
    if cancel.Some? {
      StepRuns(u, Canceling(cancel.value));
      RunsOn(s, u, CancelJob(u, cancel.value));
    }
  }

  // ----- The code -----

  class DBManager {
    var lastID: nat
    var submitted: seq<Submission>

    constructor (lastID: nat)
      ensures this.lastID == lastID && submitted == []
    {
      this.lastID, submitted := lastID, [];
    }

    method SubmitJob(manual: bool) returns (jid: nat)
      modifies this
      ensures jid == lastID == old(lastID) + 1
      ensures submitted == old(submitted) + [Submission(jid, manual)]
    {
      lastID := lastID + 1;
      jid := lastID;
      submitted := submitted + [Submission(jid, manual)];
    }

    method FetchSubmittedJobs() returns (copy: seq<Submission>)
      modifies this
      ensures copy == old(submitted) && submitted == [] && lastID == old(lastID)
    {
      copy, submitted := submitted, [];
    }
  }

  class FractalGen {
    const maxThreads: nat
    const db: DBManager
    var R: seq<Job>
    var JQManual: seq<Item>
    var JQ: seq<Item>
    var A: seq<Animation>
    ghost var spawned: set<nat>
    ghost var launched: set<Item>

    // The machine's state, with the submissions an update is holding.
    ghost function Abs(held: seq<Submission>): State
      reads this, db
    {
      State(maxThreads, db.lastID, db.submitted, held, JQManual, JQ, R, A, spawned, launched)
    }

    // Two threads unless the configuration says otherwise; its number is kept in sixteen
    // bits without a sign, so a negative one becomes a large bound.
    constructor (configured: Option<int>, db: DBManager)
      requires db.submitted == []
      ensures this.maxThreads == (if configured.Some? then configured.value % 0x1_0000 else 2) && this.db == db
      ensures Abs([]) == Initial(this.maxThreads, db.lastID) && Inv(Abs([]))
    {
      this.maxThreads, this.db := if configured.Some? then configured.value % 0x1_0000 else 2, db;
      R, JQManual, JQ, A := [], [], [], [];
      spawned, launched := {}, {};
      new;
      assert BasesOf([]) == [] && ItemsOf([]) == [];
    }

    method CancelAnimation(jid: nat)
      modifies this`A
      ensures A == OtherAnims(old(A), jid)
    {
      hide OtherAnims;
      NoOtherAnims(jid);
      var kept: seq<Animation> := [];
      var i := 0;
      assert A[..0] == [];
      while i < |A|
        invariant i <= |A| && A == old(A) && kept == OtherAnims(A[..i], jid)
      {
        OtherAnimsNext(A, i, jid);
        if A[i].id != jid {
          kept := kept + [A[i]];
        }
        i := i + 1;
      }
      assert A[..i] == A;
      A := kept;
    }

    method FindThread(jid: nat) returns (i: nat)
      ensures i == FirstAtWork(R, jid)
    {
      i := 0;
      while i < |R| && !(R[i].item.jid == jid && R[i].progress != Unstarted)
        invariant i <= |R| && FirstAtWork(R, jid) == i + FirstAtWork(R[i..], jid)
      {
        assert R[i..][1..] == R[i + 1..];
        i := i + 1;
      }
    }

    static method FindQueued(q: seq<Item>, jid: nat) returns (i: nat)
      ensures i == FirstOf(q, jid)
    {
      i := 0;
      while i < |q| && q[i].jid != jid
        invariant i <= |q| && FirstOf(q, jid) == i + FirstOf(q[i..], jid)
      {
        assert q[i..][1..] == q[i + 1..];
        i := i + 1;
      }
    }

    method CancelOne(jid: nat, ghost held: seq<Submission>) returns (found: bool)
      modifies this
      ensures Abs(held) == CancelJob(old(Abs(held)), jid)
      ensures found <==> (
        || (exists j :: j in old(R) && j.item.jid == jid && j.progress != Unstarted)
        || (exists x :: x in old(JQManual) + old(JQ) && x.jid == jid))
    {
      hide OtherAnims, FirstOf, FirstAtWork;
      CancelAnimation(jid);
      var r := FindThread(jid);
      if r < |R| {
        R := R[r := R[r].(progress := Canceled)];
        return true;
      }
      var m := FindQueued(JQManual, jid);
      if m < |JQManual| {
        JQManual := Without(JQManual, m);
        return true;
      }
      var a := FindQueued(JQ, jid);
      if a < |JQ| {
        JQ := Without(JQ, a);
        return true;
      }
      return false;
    }

    method RunThread(item: Item)
      modifies this`R
      ensures R == old(R) + [Started(item)]
    {
      R := R + [Started(item)];
    }

    method PostJob(f: Submission)
      modifies this`JQ, this`JQManual
      ensures JQManual == old(JQManual) + if f.manual then [Item(f.jid, 0)] else []
      ensures JQ == old(JQ) + if f.manual then [] else [Item(f.jid, 0)]
    {
      if f.manual {
        JQManual := JQManual + [Item(f.jid, 0)];
      } else {
        JQ := JQ + [Item(f.jid, 0)];
      }
    }

    method Reap()
      modifies this
      ensures Abs([]) == ReapAll(old(Abs([])), 0)
    {
      hide CancelJob, Without;
      var i := 0;
      while i < |R|
        invariant ReapAll(Abs([]), i) == ReapAll(old(Abs([])), 0)
        decreases |R| - i
      {
        ghost var before := Abs([]);
        if R[i].busy {
          i := i + 1;
          continue;
        }
        CancelPlaces(before, R[i].item.jid);
        if FrameID(R[i]) != 0 && R[i].progress != Done {
          var found := CancelOne(R[i].item.jid, []);
        }
        R := Without(R, i);
        assert Abs([]) == ReapOne(before, i);
      }
    }

    method CancelOverdue(now: nat)
      modifies this
      ensures Abs([]) == TimeOut(old(Abs([])), now)
    {
      hide CancelJob;
      var i := 0;
      while i < |A|
        invariant i <= |A| && Abs([]) == old(Abs([])) && FirstOverdue(A, now) == i + FirstOverdue(A[i..], now)
      {
        assert A[i..][1..] == A[i + 1..];
        if A[i].mustStop == 0 || A[i].mustStop > now {
          i := i + 1;
          continue;
        }
        var found := CancelOne(A[i].id, []);
        return;
      }
    }

    method LaunchFrames(limit: nat)
      modifies this
      ensures Abs([]) == LaunchAll(old(Abs([])), 0, limit)
    {
      var count := limit;
      var a := 0;
      while count > 0 && a < |A|
        invariant LaunchAll(Abs([]), a, count) == LaunchAll(old(Abs([])), 0, limit)
        decreases |A| - a, count
      {
        if A[a].queue == [] {
          a := a + 1;
          continue;
        }
        ghost var before := Abs([]);
        var x := A[a];
        var item := Item(x.id, x.queue[0]);
        if x.manual {
          JQManual := JQManual + [item];
        } else {
          JQ := JQ + [item];
        }
        A := A[a := x.(queue := x.queue[1..], rendering := x.rendering + {item.frame})];
        launched := launched + {item};
        assert Abs([]) == LaunchOne(before, a);
        count := count - 1;
      }
    }

    // Whether a frame is still queued where its animation queues, or in a thread.
    method IsStillBusy(x: Animation, frame: nat) returns (busy: bool)
      ensures busy == StillBusy(Abs([]), x, frame)
    {
      var q := if x.manual then JQManual else JQ;
      var i := 0;
      while i < |q|
        invariant i <= |q| && Item(x.id, frame) !in q[..i]
      {
        if q[i].jid == x.id && q[i].frame == frame {
          return true;
        }
        i := i + 1;
      }
      assert q[..i] == q;
      i := 0;
      while i < |R|
        invariant i <= |R| && forall k :: 0 <= k < i ==> !(R[k].item.jid == x.id && FrameID(R[k]) == frame)
      {
        if R[i].item.jid == x.id && FrameID(R[i]) == frame {
          return true;
        }
        i := i + 1;
      }
      return false;
    }

    method Settle()
      modifies this`A
      ensures Abs([]) == SettleAll(old(Abs([])), 0)
    {
      hide InThread;
      var a := 0;
      while a < |A|
        invariant SettleAll(Abs([]), a) == SettleAll(old(Abs([])), 0)
        decreases |A| - a
      {
        ghost var before := Abs([]);
        var x := A[a];
        var todo, left := x.rendering, x.rendering;
        while todo != {}
          invariant todo <= left <= x.rendering && Abs([]) == before
          invariant forall f :: f in x.rendering && f !in todo ==> (f in left <==> StillBusy(before, x, f))
          decreases todo
        {
          var f :| f in todo;
          var busy := IsStillBusy(x, f);
          if !busy {
            left := left - {f};
          }
          todo := todo - {f};
        }
        assert left == set f | f in x.rendering && StillBusy(before, x, f);
        A := A[a := x.(rendering := left)];
        assert Abs([]) == DropFinished(before, a);
        if A[a].queue == [] && A[a].rendering == {} {
          A := Without(A, a);
        } else {
          a := a + 1;
        }
      }
    }

    method AddAnimationFramesToRenderQueue(count: int, now: nat)
      requires count == maxThreads - |R|
      modifies this
      ensures Abs([]) == AddFrames(old(Abs([])), now)
    {
      hide CancelJob, LaunchAll, SettleAll;
      CancelOverdue(now);
      LaunchFrames(if count > 0 then count else 0);
      Settle();
    }

    // One job, if there is room: a manual one before an automatic one.
    method StartIfFree()
      modifies this
      ensures Abs([]) == StartNext(old(Abs([])))
      ensures |old(R)| < maxThreads && old(JQManual) == [] && old(JQ) != [] ==> R == old(R) + [Started(old(JQ)[0])]
      ensures |old(R)| < maxThreads && old(JQManual) != [] ==>
        JQ == old(JQ) && R == old(R) + [Started(old(JQManual)[0])]
    {
      if |R| < maxThreads {
        if |JQ| > 0 || |JQManual| > 0 {
          if |JQManual| > 0 {
            var p := JQManual[0];
            JQManual := JQManual[1..];
            RunThread(p);
          } else {
            var p := JQ[0];
            JQ := JQ[1..];
            RunThread(p);
          }
        }
      }
    }

    // The submissions made since the last pass.
    method PostSubmitted()
      modifies this, db
      ensures Abs([]) == PostAll(Fetch(old(Abs([]))))
    {
      ghost var start := Abs([]);
      var newJobs := db.FetchSubmittedJobs();
      assert Abs(newJobs) == Fetch(start);
      var i := 0;
      while i < |newJobs|
        invariant i <= |newJobs| && PostAll(Abs(newJobs[i..])) == PostAll(Fetch(start))
      {
        ghost var before := Abs(newJobs[i..]);
        PostJob(newJobs[i]);
        assert newJobs[i..][1..] == newJobs[i + 1..];
        assert Abs(newJobs[i + 1..]) == PostOne(before);
        i := i + 1;
      }
      assert newJobs[i..] == [];
    }

    // One pass, which is a run of the machine and so keeps its invariant.
    method Update(now: nat, cancel: Option<nat>)
      requires Inv(Abs([]))
      modifies this, db
      ensures Abs([]) == Pass(old(Abs([])), now, cancel)
      ensures Runs(old(Abs([])), Abs([])) && Inv(Abs([]))
    {
      hide Inv, Runs, ReapAll, AddFrames, CancelJob, StartNext, PostAll;
      ghost var start := Abs([]);
      FetchedUntouched(start, now);
      PassRuns(start, now, cancel);
      RunsKeepInv(start, Pass(start, now, cancel));
      Reap();
      AddAnimationFramesToRenderQueue(maxThreads - |R|, now);
      StartIfFree();
      PostSubmitted();
      if cancel.Some? {
        var found := CancelOne(cancel.value, []);
      }
    }

    // From a render thread, under the animation lock.
    method AddAnimationToQueue(i: nat, frames: nat, manual: bool, mustStop: nat)
      requires Inv(Abs([])) && Enabled(Abs([]), Spawning(i, frames, manual, mustStop))
      modifies this
      ensures Abs([]) == Spawn(old(Abs([])), i, frames, manual, mustStop) && Inv(Abs([]))
    {
      hide Inv;
      KeptBySpawn(Abs([]), i, frames, manual, mustStop);
      spawned := spawned + {R[i].item.jid};
      A := A + [Animation(R[i].item.jid, frames, manual, mustStop, FrameNumbers(frames), {})];
      R := R[i := R[i].(spawned := true)];
    }
  }

  lemma NoOtherAnims(id: nat)
    ensures OtherAnims([], id) == []
  {
  }

  lemma {:induction false} OtherAnimsConcat(a: seq<Animation>, b: seq<Animation>, id: nat)
    ensures OtherAnims(a + b, id) == OtherAnims(a, id) + OtherAnims(b, id)
  {
    if a == [] {
      assert a + b == b;
    } else {
      assert (a + b)[1..] == a[1..] + b;
      OtherAnimsConcat(a[1..], b, id);
    }
  }

  lemma OtherAnimsNext(anims: seq<Animation>, i: nat, id: nat)
    requires i < |anims|
    ensures OtherAnims(anims[..i + 1], id)
         == if anims[i].id != id then OtherAnims(anims[..i], id) + [anims[i]] else OtherAnims(anims[..i], id)
  {
    assert anims[..i + 1] == anims[..i] + [anims[i]];
    OtherAnimsConcat(anims[..i], [anims[i]], id);
    assert [anims[i]][1..] == [];
  }

  lemma RunsKeepInv(s: State, t: State)
    requires Inv(s) && Runs(s, t)
    ensures Inv(t)
  {
    var steps :| RunOf(s, steps, t);
    KeptByRun(s, steps, t);
  }
}
