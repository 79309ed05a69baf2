/** What each part of the scheduler's pass brings about, beyond being safe. */
module PassEffects {
  import opened Sequences
  import opened Formula
  import opened Scheduler
  import opened SchedulerSafety
  import opened FractalGen

  // ----- Finished threads -----

  // The work of the threads still busy, in order.
  function BusyItems(r: seq<Job>): seq<Item> {
    if r == [] then [] else (if r[0].busy then [r[0].item] else []) + BusyItems(r[1..])
  }

  lemma {:induction false} BusyItemsConcat(a: seq<Job>, b: seq<Job>)
    ensures BusyItems(a + b) == BusyItems(a) + BusyItems(b)
  {
    if a == [] {
      assert a + b == b;
    } else {
      var first := if a[0].busy then [a[0].item] else [];
      assert (a + b)[1..] == a[1..] + b;
      BusyItemsConcat(a[1..], b);
      Assoc(first, BusyItems(a[1..]), BusyItems(b));
    }
  }

  lemma OneBusyItem(j: Job)
    ensures BusyItems([j]) == if j.busy then [j.item] else []
  {
    assert [j][1..] == [];
  }

  lemma BusyItemsAt(r: seq<Job>, i: nat)
    requires i < |r|
    ensures BusyItems(r) == BusyItems(r[..i]) + (if r[i].busy then [r[i].item] else []) + BusyItems(r[i + 1..])
  {
    OneBusyItem(r[i]);
    hide BusyItems;
    Around(r, i);
    BusyItemsConcat(r[..i] + [r[i]], r[i + 1..]);
    BusyItemsConcat(r[..i], [r[i]]);
  }

  // Cancelling changes how far a thread's work is marked, not what or whether it works.
  lemma CancelKeepsThreads(s: State, jid: nat)
    ensures var t := CancelJob(s, jid);
            |t.running| == |s.running| && t.max == s.max
            && forall k :: 0 <= k < |s.running| ==>
                 t.running[k].item == s.running[k].item && t.running[k].busy == s.running[k].busy
  {
    hide OtherAnims, FirstOf, FirstAtWork, Without;
  }

  lemma {:induction false} SameBusy(r: seq<Job>, q: seq<Job>)
    requires |r| == |q| && forall k :: 0 <= k < |r| ==> r[k].item == q[k].item && r[k].busy == q[k].busy
    ensures BusyItems(r) == BusyItems(q)
  {
    if r != [] {
      SameBusy(r[1..], q[1..]);
    }
  }

  lemma ReapOneKeeps(s: State, i: nat)
    requires i < |s.running| && !s.running[i].busy && forall k :: 0 <= k < i ==> s.running[k].busy
    ensures var t := ReapOne(s, i);
            && |t.running| == |s.running| - 1 && t.max == s.max && BusyItems(t.running) == BusyItems(s.running)
            && forall k :: 0 <= k < i ==> t.running[k].busy
  {
    CancelKeepsThreads(s, s.running[i].item.jid);
    var j := s.running[i];
    var u := if FrameID(j) != 0 && j.progress != Done then CancelJob(s, j.item.jid) else s;
    hide CancelJob;
    SameBusy(u.running, s.running);
    BusyItemsAt(u.running, i);
    BusyItemsConcat(u.running[..i], u.running[i + 1..]);
    assert BusyItems(u.running[..i]) + [] == BusyItems(u.running[..i]);
  }

  // No finished thread is left, and every busy one is, in the same order.
  lemma {:induction false} ReapsAllFinished(s: State, i: nat)
    requires i <= |s.running| && forall k :: 0 <= k < i ==> s.running[k].busy
    ensures var t := ReapAll(s, i);
            && (forall j :: j in t.running ==> j.busy)
            && BusyItems(t.running) == BusyItems(s.running) && t.max == s.max
    decreases |s.running| - i
  {
    hide CancelJob, ReapOne;
    if i < |s.running| {
      if s.running[i].busy {
        ReapsAllFinished(s, i + 1);
      } else {
        ReapOneKeeps(s, i);
        ReapsAllFinished(ReapOne(s, i), i);
      }
    }
  }

  // ----- Overdue animations -----

  // The first animation whose time is over is cancelled; a time of nought never ends.
  lemma {:induction false} FirstOverdueFirst(anims: seq<Animation>, now: nat)
    ensures var i := FirstOverdue(anims, now);
            && (forall k :: 0 <= k < i ==> anims[k].mustStop == 0 || anims[k].mustStop > now)
            && (i < |anims| ==> 0 < anims[i].mustStop <= now)
  {
    if anims != [] {
      FirstOverdueFirst(anims[1..], now);
    }
  }

  lemma TimesOutFirst(s: State, now: nat) returns (i: nat)
    ensures i <= |s.anims| && forall k :: 0 <= k < i ==> s.anims[k].mustStop == 0 || s.anims[k].mustStop > now
    ensures i < |s.anims| ==> 0 < s.anims[i].mustStop <= now && TimeOut(s, now) == Apply(s, Canceling(s.anims[i].id))
    ensures i == |s.anims| ==> TimeOut(s, now) == s
  {
    hide CancelJob;
    FirstOverdueFirst(s.anims, now);
    i := FirstOverdue(s.anims, now);
  }

  // ----- Handing out frames -----

  function FramesWaiting(anims: seq<Animation>): nat {
    if anims == [] then 0 else FramesWaiting(anims[..|anims| - 1]) + |anims[|anims| - 1].queue|
  }

  function Queued(s: State): nat {
    |s.manual| + |s.auto|
  }

  lemma {:induction false} OneFrameLess(anims: seq<Animation>, a: nat, x: Animation)
    requires a < |anims| && anims[a].queue != [] && x.queue == anims[a].queue[1..]
    ensures FramesWaiting(anims[a := x]) == FramesWaiting(anims) - 1
    decreases |anims|
  {
    var n := |anims| - 1;
    if a < n {
      OneFrameLess(anims[..n], a, x);
      assert anims[a := x][..n] == anims[..n][a := x];
    } else {
      assert anims[a := x][..n] == anims[..n];
    }
  }

  lemma {:induction false} NoneWaiting(anims: seq<Animation>)
    requires forall x :: x in anims ==> x.queue == []
    ensures FramesWaiting(anims) == 0
  {
    if anims != [] {
      NoneWaiting(anims[..|anims| - 1]);
    }
  }

  function Least(a: nat, b: nat): nat {
    if a <= b then a else b
  }

  // The animations are the same, each with some of its frames taken from the front.
  predicate TakenFromFront(s: State, t: State) {
    && |t.anims| == |s.anims| && t.running == s.running && t.max == s.max
    && forall k :: 0 <= k < |s.anims| ==>
         var before, after := s.anims[k].queue, t.anims[k].queue;
         t.anims[k].id == s.anims[k].id && |after| <= |before| && after == before[|before| - |after|..]
  }

  // An animation's frames are taken only once those of the ones before it are all gone.
  predicate InTurn(s: State, t: State)
    requires |t.anims| == |s.anims|
  {
    forall j, k :: 0 <= j < k < |s.anims| && t.anims[k].queue != s.anims[k].queue ==> t.anims[j].queue == []
  }

  // All animations but one have the same frames left.
  predicate OthersAlike(s: State, t: State, a: nat) {
    |t.anims| == |s.anims| && forall k :: 0 <= k < |s.anims| && k != a ==> t.anims[k].queue == s.anims[k].queue
  }

  lemma StillNone(s: State, t: State, a: nat)
    requires OthersAlike(s, t, a) && a <= |s.anims| && forall k :: 0 <= k < a ==> s.anims[k].queue == []
    ensures |t.anims| == |s.anims| && forall k :: 0 <= k < a ==> t.anims[k].queue == []
  {
  }

  lemma TakenTwice(s: State, t: State, u: State, a: nat)
    requires TakenFromFront(s, t) && TakenFromFront(t, u) && InTurn(t, u) && a < |s.anims| == |t.anims| == |u.anims|
    requires OthersAlike(s, t, a) && forall k :: 0 <= k < a ==> s.anims[k].queue == []
    ensures TakenFromFront(s, u) && InTurn(s, u)
  {
    forall k | 0 <= k < |s.anims|
      ensures u.anims[k].queue == s.anims[k].queue[|s.anims[k].queue| - |u.anims[k].queue|..]
    {
      var x, y, z := s.anims[k].queue, t.anims[k].queue, u.anims[k].queue;
      assert y == x[|x| - |y|..] && z == y[|y| - |z|..];
    }
  }

  // One frame handed out.
  lemma OneLaunched(s: State, a: nat)
    requires a < |s.anims| && s.anims[a].queue != []
    ensures var t := LaunchOne(s, a);
            && TakenFromFront(s, t) && OthersAlike(s, t, a) && |t.anims| == |s.anims|
            && Queued(t) == Queued(s) + 1 && FramesWaiting(t.anims) == FramesWaiting(s.anims) - 1
  {
    hide *;
    LaunchedFields(s, a);
    OneFrameLess(s.anims, a, LaunchOne(s, a).anims[a]);
    TakenAt(s, LaunchOne(s, a), a, LaunchOne(s, a).anims[a]);
  }

  lemma LaunchedFields(s: State, a: nat)
    requires a < |s.anims| && s.anims[a].queue != []
    ensures var t, y := LaunchOne(s, a), LaunchOne(s, a).anims[a];
            && t.anims == s.anims[a := y] && y.queue == s.anims[a].queue[1..] && y.id == s.anims[a].id
            && t.running == s.running && t.max == s.max && Queued(t) == Queued(s) + 1
  {
  }

  lemma TakenAt(s: State, t: State, a: nat, y: Animation)
    requires a < |s.anims| && s.anims[a].queue != [] && t.running == s.running && t.max == s.max
    requires t.anims == s.anims[a := y] && y.queue == s.anims[a].queue[1..] && y.id == s.anims[a].id
    ensures TakenFromFront(s, t) && OthersAlike(s, t, a)
  {
  }

  // As many frames as allowed, or all there are, are handed out, in turn.
  lemma {:induction false} LaunchesAll(s: State, a: nat, count: nat)
    requires a <= |s.anims| && forall k :: 0 <= k < a ==> s.anims[k].queue == []
    ensures var t := LaunchAll(s, a, count);
            && Queued(t) == Queued(s) + Least(count, FramesWaiting(s.anims))
            && |t.anims| == |s.anims| && TakenFromFront(s, t) && InTurn(s, t)
    decreases |s.anims| - a, count
  {
    hide TakenFromFront, InTurn, Queued, FramesWaiting, LaunchOne, OthersAlike;
    if count == 0 {
      TakenNone(s);
    } else if a >= |s.anims| {
      TakenNone(s);
      assert forall x :: x in s.anims ==> x.queue == [];
      NoneWaiting(s.anims);
    } else if s.anims[a].queue == [] {
      LaunchesAll(s, a + 1, count);
    } else {
      var t := LaunchOne(s, a);
      OneLaunched(s, a);
      StillNone(s, t, a);
      LaunchesAll(t, a, count - 1);
      TakenTwice(s, t, LaunchAll(t, a, count - 1), a);
    }
  }

  lemma TakenNone(s: State)
    ensures TakenFromFront(s, s) && InTurn(s, s)
  {
  }

  // ----- Settling animations -----

  // A frame handed out and neither waiting where its animation queues nor in a thread is done.
  predicate FrameBusy(s: State, x: Animation, f: nat) {
    || (x.manual && Item(x.id, f) in s.manual)
    || (!x.manual && Item(x.id, f) in s.auto)
    || exists k :: 0 <= k < |s.running| && s.running[k].item.jid == x.id && FrameID(s.running[k]) == f
  }

  lemma BusyMeans(s: State, x: Animation, f: nat)
    ensures StillBusy(s, x, f) <==> FrameBusy(s, x, f)
  {
  }

  // The animation as it is left: its list shortened to the frames still busy.
  function Left(s: State, x: Animation): Animation {
    x.(rendering := set f | f in x.rendering && StillBusy(s, x, f))
  }

  predicate Over(s: State, x: Animation) {
    x.queue == [] && Left(s, x).rendering == {}
  }

  // The animations not over, in order, each with its list shortened.
  function Unfinished(s: State, anims: seq<Animation>): seq<Animation> {
    if anims == [] then []
    else (if Over(s, anims[0]) then [] else [Left(s, anims[0])]) + Unfinished(s, anims[1..])
  }

  lemma LeftIs(s: State, a: nat)
    requires a < |s.anims|
    ensures var t, x := DropFinished(s, a), Left(s, s.anims[a]);
            && t == s.(anims := s.anims[a := x])
            && (Over(s, s.anims[a]) <==> t.anims[a].queue == [] && t.anims[a].rendering == {})
  {
  }

  // One animation settled, and the rest.
  lemma SettleStep(s: State, a: nat)
    requires a < |s.anims|
    ensures var t := DropFinished(s, a);
            SettleAll(s, a)
            == if t.anims[a].queue == [] && t.anims[a].rendering == {} then SettleAll(MuxOne(t, a), a)
               else SettleAll(t, a + 1)
  {
    hide DropFinished, MuxOne;
  }

  lemma UnfinishedStep(s: State, a: nat)
    requires a < |s.anims|
    ensures var x, rest := s.anims[a], Unfinished(s, s.anims[a + 1..]);
            Unfinished(s, s.anims[a..]) == if Over(s, x) then rest else [Left(s, x)] + rest
  {
    assert s.anims[a..][0] == s.anims[a] && s.anims[a..][1..] == s.anims[a + 1..];
    hide Over, Left;
    assert [] + Unfinished(s, s.anims[a + 1..]) == Unfinished(s, s.anims[a + 1..]);
  }

  lemma NothingToSettle(s: State)
    ensures SettleAll(s, |s.anims|) == s && Unfinished(s, s.anims[|s.anims|..]) == []
    ensures s.anims[..|s.anims|] + [] == s.anims
  {
  }

  lemma {:induction false} SettlesAll(s: State, a: nat)
    requires a <= |s.anims|
    ensures SettleAll(s, a) == s.(anims := s.anims[..a] + Unfinished(s, s.anims[a..]))
    decreases |s.anims| - a
  {
    hide *;
    if a == |s.anims| {
      NothingToSettle(s);
    } else {
      var t, x := DropFinished(s, a), Left(s, s.anims[a]);
      LeftIs(s, a);
      SettleStep(s, a);
      UnfinishedStep(s, a);
      if Over(s, s.anims[a]) {
        var u := MuxOne(t, a);
        MuxedIs(s, t, a, t.anims[a]);
        SettlesAll(u, a);
        SameUnfinished(s, u, s.anims[a + 1..]);
      } else {
        SettlesAll(t, a + 1);
        Replaced(s.anims, a, x);
        SameUnfinished(s, t, s.anims[a + 1..]);
        Assoc(s.anims[..a], [x], Unfinished(s, s.anims[a + 1..]));
      }
    }
  }

  lemma MuxedIs(s: State, t: State, a: nat, x: Animation)
    requires a < |s.anims| && t == s.(anims := s.anims[a := x]) && x.queue == [] && x.rendering == {}
    ensures var u := MuxOne(t, a);
            && u == s.(anims := u.anims)
            && |u.anims| == |s.anims| - 1 && u.anims[..a] == s.anims[..a] && u.anims[a..] == s.anims[a + 1..]
  {
  }

  lemma Replaced<T>(q: seq<T>, a: nat, x: T)
    requires a < |q|
    ensures q[a := x][..a + 1] == q[..a] + [x] && q[a := x][a + 1..] == q[a + 1..]
  {
  }

  lemma {:induction false} SameUnfinished(s: State, t: State, anims: seq<Animation>)
    requires s.manual == t.manual && s.auto == t.auto && s.running == t.running
    ensures Unfinished(s, anims) == Unfinished(t, anims)
    decreases |anims|
  {
    if anims != [] {
      assert forall f :: StillBusy(s, anims[0], f) == StillBusy(t, anims[0], f);
      assert Left(s, anims[0]) == Left(t, anims[0]);
      SameUnfinished(s, t, anims[1..]);
    }
  }

  // After settling exactly the animations with something left are there, and their lists
  // hold exactly the frames that are still busy.
  lemma {:induction false} UnfinishedMeans(s: State, anims: seq<Animation>, y: Animation)
    ensures y in Unfinished(s, anims)
       <==> exists x :: x in anims && y == x.(rendering := y.rendering) && (x.queue != [] || y.rendering != {})
              && forall f :: f in y.rendering <==> f in x.rendering && FrameBusy(s, x, f)
    decreases |anims|
  {
    if anims != [] {
      UnfinishedMeans(s, anims[1..], y);
      var x := anims[0];
      forall f ensures StillBusy(s, x, f) <==> FrameBusy(s, x, f) {
        BusyMeans(s, x, f);
      }
      hide StillBusy, FrameBusy;
      assert y == Left(s, x)
        <==> (y == x.(rendering := y.rendering)
              && forall f :: f in y.rendering <==> f in x.rendering && FrameBusy(s, x, f));
      assert forall z :: z in anims <==> z == x || z in anims[1..];
    }
  }

  // Frames are handed out for the free threads, no more, once the overdue animation is gone.
  lemma FramesForFreeThreads(s: State, now: nat)
    ensures var t, u := TimeOut(s, now), AddFrames(s, now);
            var free: nat := if |s.running| <= s.max then s.max - |s.running| else 0;
            Queued(u) == Queued(t) + Least(free, FramesWaiting(t.anims))
  {
    var t := TimeOut(s, now);
    var free: nat := if |s.running| <= s.max then s.max - |s.running| else 0;
    hide *;
    AddFramesIs(s, now, free);
    LaunchesAll(t, 0, free);
    SettlesAll(LaunchAll(t, 0, free), 0);
    QueuesOnly(LaunchAll(t, 0, free), SettleAll(LaunchAll(t, 0, free), 0));
  }

  lemma AddFramesIs(s: State, now: nat, free: nat)
    requires free == if |s.running| <= s.max then s.max - |s.running| else 0
    ensures AddFrames(s, now) == SettleAll(LaunchAll(TimeOut(s, now), 0, free), 0)
  {
    hide TimeOut, LaunchAll, SettleAll;
  }

  lemma QueuesOnly(s: State, t: State)
    requires t == s.(anims := t.anims)
    ensures Queued(t) == Queued(s)
  {
  }

  // ----- Starting and posting -----

  // A free thread takes the first manual item, or the first automatic one if there is none.
  lemma StartsNext(s: State)
    ensures var t := StartNext(s);
            if |s.running| < s.max && s.manual != [] then
              t == s.(manual := s.manual[1..], running := s.running + [Job(s.manual[0], false, false, true, Unstarted)])
            else if |s.running| < s.max && s.auto != [] then
              t == s.(auto := s.auto[1..], running := s.running + [Job(s.auto[0], false, false, true, Unstarted)])
            else t == s
  {
  }

  // The submissions of one kind, as items, in order.
  function Submitted(q: seq<Submission>, manual: bool): seq<Item> {
    if q == [] then [] else (if q[0].manual == manual then [Item(q[0].jid, 0)] else []) + Submitted(q[1..], manual)
  }

  // Every submission joins the end of its queue, in order.
  lemma {:induction false} PostsAll(s: State)
    ensures PostAll(s) == s.(fetched := [], manual := s.manual + Submitted(s.fetched, true),
                             auto := s.auto + Submitted(s.fetched, false))
    decreases |s.fetched|
  {
    if s.fetched == [] {
      assert s.manual + [] == s.manual && s.auto + [] == s.auto;
    } else {
      PostsAll(PostOne(s));
      var item, rest := Item(s.fetched[0].jid, 0), s.fetched[1..];
      assert s.manual + [item] + Submitted(rest, true) == s.manual + ([item] + Submitted(rest, true));
      assert s.auto + [item] + Submitted(rest, false) == s.auto + ([item] + Submitted(rest, false));
      assert [] + Submitted(rest, true) == Submitted(rest, true);
      assert [] + Submitted(rest, false) == Submitted(rest, false);
    }
  }

  // ----- The whole pass -----

  // What was submitted before a pass is posted by it, behind everything else, and too late
  // to be started by it; a request to cancel comes last of all.
  lemma PassPosts(s: State, now: nat, cancel: nat)
    requires s.fetched == []
    ensures var u, t := StartNext(AddFrames(ReapAll(s, 0), now)), Pass(s, now, None);
            && t == u.(submitted := [], fetched := [], manual := u.manual + Submitted(s.submitted, true),
                       auto := u.auto + Submitted(s.submitted, false))
            && Pass(s, now, Some(cancel)) == Apply(t, Canceling(cancel))
  {
    hide ReapAll, AddFrames, StartNext, CancelJob, PostAll;
    FetchedUntouched(s, now);
    var u := StartNext(AddFrames(ReapAll(s, 0), now));
    PostsAll(Fetch(u));
  }
}
