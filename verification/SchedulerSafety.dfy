/** The scheduler's invariant holds along every run, and what follows from it. */
module SchedulerSafety {
  import opened Scheduler

  // ----- Counting work -----

  // No new work, and no launches forgotten.
  lemma NoNewWork(s: State, t: State)
    requires Unique(s) && Known(s) && Places(t) <= Places(s)
    requires t.launched == s.launched && t.spawned == s.spawned && s.lastID <= t.lastID
    ensures Unique(t) && Known(t)
  {
    hide Places;
    forall x: Item ensures Places(t)[x] <= 1 {
      assert Places(t)[x] <= Places(s)[x];
    }
  }

  lemma SameItems(r: seq<Job>, i: nat, j: Job)
    requires i < |r| && j.item == r[i].item
    ensures ItemsOf(r[i := j]) == ItemsOf(r)
  {
  }

  lemma ItemsWithout(r: seq<Job>, i: nat)
    requires i < |r|
    ensures ItemsOf(Without(r, i)) == Without(ItemsOf(r), i)
  {
    assert r == r[..i] + [r[i]] + r[i + 1..];
  }

  lemma InPlaces(s: State, x: Item)
    ensures x in Places(s) <==>
      x in BasesOf(s.submitted) + BasesOf(s.fetched) + s.manual + s.auto + ItemsOf(s.running)
  {
  }

  // Work moves between places; only a submission and a launch bring new work.
  lemma SubmitPlaces(s: State, manual: bool)
    ensures Places(Submit(s, manual)) == Places(s) + multiset{Item(s.lastID + 1, 0)}
  {
    assert BasesOf(Submit(s, manual).submitted) == BasesOf(s.submitted) + [Item(s.lastID + 1, 0)];
  }

  lemma FetchPlaces(s: State)
    requires s.fetched == []
    ensures Places(Fetch(s)) == Places(s)
  {
    assert BasesOf(Fetch(s).submitted) == [] && BasesOf(s.fetched) == [];
  }

  lemma PostPlaces(s: State)
    requires s.fetched != []
    ensures Places(PostOne(s)) == Places(s)
  {
    assert BasesOf(s.fetched) == [Item(s.fetched[0].jid, 0)] + BasesOf(s.fetched[1..]);
    hide BasesOf, ItemsOf;
  }

  lemma StartPlaces(s: State)
    requires CanStart(s)
    ensures Places(StartOne(s)) == Places(s)
  {
    var t := StartOne(s);
    assert ItemsOf(t.running) == ItemsOf(s.running) + [t.running[|s.running|].item];
    assert s.manual != [] ==> s.manual == [s.manual[0]] + s.manual[1..];
    assert s.auto != [] ==> s.auto == [s.auto[0]] + s.auto[1..];
  }

  lemma CancelPlaces(s: State, jid: nat)
    ensures var t := CancelJob(s, jid);
            Places(t) <= Places(s) && |t.running| == |s.running| && ItemsOf(t.running) == ItemsOf(s.running)
  {
    hide OtherAnims, ItemsOf, BasesOf, Without;
    var r := FirstAtWork(s.running, jid);
    if r < |s.running| {
      SameItems(s.running, r, s.running[r].(progress := Canceled));
    }
    FewerQueued(s, CancelJob(s, jid));
  }

  lemma FewerQueued(s: State, t: State)
    requires t.submitted == s.submitted && t.fetched == s.fetched && ItemsOf(t.running) == ItemsOf(s.running)
    requires multiset(t.manual) <= multiset(s.manual) && multiset(t.auto) <= multiset(s.auto)
    ensures Places(t) <= Places(s)
  {
    hide ItemsOf, BasesOf;
  }

  lemma RemovalPlaces(s: State, i: nat)
    requires i < |s.running|
    ensures Places(s.(running := Without(s.running, i))) <= Places(s)
  {
    ItemsWithout(s.running, i);
    hide Without;
  }

  lemma LaunchPlaces(s: State, a: nat)
    requires a < |s.anims| && s.anims[a].queue != []
    ensures Places(LaunchOne(s, a)) == Places(s) + multiset{Item(s.anims[a].id, s.anims[a].queue[0])}
  {
  }

  // New work under a number of its own.
  lemma OneMore(s: State, t: State, item: Item)
    requires Unique(s) && item !in Places(s) && Places(t) == Places(s) + multiset{item}
    ensures Unique(t)
  {
    hide Places;
    forall x: Item ensures Places(t)[x] <= 1 {
      assert Places(s)[x] <= 1;
    }
  }

  // Nothing that waits to run has had its animation, when it only moved among the waiting.
  lemma StillUnspawned(s: State, t: State)
    requires SpawnedOnce(s) && t.spawned == s.spawned && t.running == s.running
    requires forall x :: x in BasesOf(t.submitted) + BasesOf(t.fetched) + t.manual + t.auto && x.frame == 0 ==>
               x in BasesOf(s.submitted) + BasesOf(s.fetched) + s.manual + s.auto || x.jid !in s.spawned
    ensures SpawnedOnce(t)
  {
  }

  // ----- Clients and hand-off -----

  lemma KeptBySubmit(s: State, manual: bool)
    requires Inv(s)
    ensures Inv(Submit(s, manual))
  {
    var t := Submit(s, manual);
    var item := Item(s.lastID + 1, 0);
    SubmitPlaces(s, manual);
    assert BasesOf(t.submitted) == BasesOf(s.submitted) + [item];
    StillUnspawned(s, t);
    hide Places, SpawnedOnce, BasesOf, Whole, Tracked;
    SubmitKnown(s, t, item);
    OneMore(s, t, item);
    hide Unique, Known;
    KeptAnims(s, t);
  }

  lemma SubmitKnown(s: State, t: State, item: Item)
    requires Known(s) && Places(t) == Places(s) + multiset{item} && item == Item(s.lastID + 1, 0)
    requires t.launched == s.launched && t.spawned == s.spawned && t.lastID == s.lastID + 1
    ensures Known(t) && item !in Places(s)
  {
    hide Places;
    forall y | y in Places(t) ensures y.jid <= t.lastID && y.frame != 1 && (y.frame >= 2 ==> y in t.launched) {
      assert y == item || y in Places(s);
    }
  }

  // An animation is as whole and tracked as before when nothing of it is queued or launched anew.
  lemma KeptAnims(s: State, t: State)
    requires forall x :: x in s.anims ==> Whole(s, x) && Tracked(s, x)
    requires forall x :: x in t.anims ==> x in s.anims
    requires t.launched == s.launched && s.spawned <= t.spawned
    requires forall y :: y in t.manual ==> y in s.manual || y.frame < 2
    requires forall y :: y in t.auto ==> y in s.auto || y.frame < 2
    requires forall y :: y in ItemsOf(t.running) ==> y in ItemsOf(s.running) || y.frame < 2
    ensures forall x :: x in t.anims ==> Whole(t, x) && Tracked(t, x)
  {
    forall x | x in t.anims ensures Whole(t, x) && Tracked(t, x) {
      SameAnim(s, t, x);
    }
  }

  lemma SameAnim(s: State, t: State, x: Animation)
    requires Whole(s, x) && Tracked(s, x)
    requires t.launched == s.launched && s.spawned <= t.spawned
    requires forall y :: y in t.manual ==> y in s.manual || y.frame < 2
    requires forall y :: y in t.auto ==> y in s.auto || y.frame < 2
    requires forall y :: y in ItemsOf(t.running) ==> y in ItemsOf(s.running) || y.frame < 2
    ensures Whole(t, x) && Tracked(t, x)
  {
    hide ItemsOf;
  }

  lemma KeptByFetch(s: State)
    requires Inv(s) && s.fetched == []
    ensures Inv(Fetch(s))
  {
    var t := Fetch(s);
    assert BasesOf(t.submitted) == [];
    StillUnspawned(s, t);
    hide Places, SpawnedOnce, BasesOf;
    FetchPlaces(s);
    NoNewWork(s, t);
    hide Unique, Known;
    KeptAnims(s, t);
  }

  lemma KeptByPost(s: State)
    requires Inv(s) && s.fetched != []
    ensures Inv(PostOne(s))
  {
    var t := PostOne(s);
    PostUnspawned(s);
    PostPlaces(s);
    hide Places, SpawnedOnce, BasesOf, ItemsOf, Whole, Tracked, DistinctAnims, Unique, Known;
    NoNewWork(s, t);
    PostAnims(s);
    hide PostOne;
  }

  lemma PostAnims(s: State)
    requires s.fetched != [] && forall x :: x in s.anims ==> Whole(s, x) && Tracked(s, x)
    ensures forall x :: x in PostOne(s).anims ==> Whole(PostOne(s), x) && Tracked(PostOne(s), x)
  {
    hide Whole, Tracked, ItemsOf;
    KeptAnims(s, PostOne(s));
  }

  lemma PostUnspawned(s: State)
    requires SpawnedOnce(s) && s.fetched != []
    ensures SpawnedOnce(PostOne(s))
  {
    var item := Item(s.fetched[0].jid, 0);
    assert BasesOf(s.fetched) == [item] + BasesOf(s.fetched[1..]);
    assert item in BasesOf(s.fetched);
  }

  // ----- Starting and finishing -----

  lemma KeptByStart(s: State)
    requires Inv(s) && CanStart(s)
    ensures Inv(StartOne(s))
  {
    var t := StartOne(s);
    StartPlaces(s);
    StartUnspawned(s);
    hide Places, SpawnedOnce, Whole, Tracked;
    NoNewWork(s, t);
    hide Unique, Known;
    forall x | x in t.anims ensures Whole(t, x) && Tracked(t, x) {
      StartedAnim(s, x);
    }
  }

  lemma StartUnspawned(s: State)
    requires SpawnedOnce(s) && CanStart(s)
    ensures SpawnedOnce(StartOne(s))
  {
    var item := if s.manual != [] then s.manual[0] else s.auto[0];
    assert item in s.manual || item in s.auto;
  }

  lemma StartedAnim(s: State, x: Animation)
    requires CanStart(s) && Whole(s, x) && Tracked(s, x)
    ensures Whole(StartOne(s), x) && Tracked(StartOne(s), x)
  {
    var t := StartOne(s);
    assert ItemsOf(t.running) == ItemsOf(s.running) + [t.running[|s.running|].item];
  }

  lemma KeptByCancel(s: State, jid: nat)
    requires Inv(s)
    ensures Inv(CancelJob(s, jid)) && |CancelJob(s, jid).running| == |s.running|
  {
    var t := CancelJob(s, jid);
    CancelPlaces(s, jid);
    CancelUnspawned(s, jid);
    CancelOnlyRemoves(s, jid);
    hide Places, SpawnedOnce, ItemsOf, CancelJob, Whole, Tracked;
    NoNewWork(s, t);
    KeptAnims(s, t);
  }

  lemma {:induction false} OtherAnimsMeans(anims: seq<Animation>, id: nat)
    ensures forall a :: a in OtherAnims(anims, id) <==> a in anims && a.id != id
  {
    if anims != [] {
      OtherAnimsMeans(anims[1..], id);
      assert anims == [anims[0]] + anims[1..];
    }
  }

  lemma {:induction false} OtherAnimsDistinct(anims: seq<Animation>, id: nat)
    requires DistinctAnims(anims)
    ensures DistinctAnims(OtherAnims(anims, id))
  {
    if anims != [] {
      OtherAnimsDistinct(anims[1..], id);
      OtherAnimsMeans(anims[1..], id);
    }
  }

  lemma CancelOnlyRemoves(s: State, jid: nat)
    requires DistinctAnims(s.anims)
    ensures var t := CancelJob(s, jid);
            && t.max == s.max && t.lastID == s.lastID && t.launched == s.launched && t.spawned == s.spawned
            && DistinctAnims(t.anims) && (forall x :: x in t.anims ==> x in s.anims && x.id != jid)
            && (forall y :: y in t.manual ==> y in s.manual) && (forall y :: y in t.auto ==> y in s.auto)
  {
    OtherAnimsMeans(s.anims, jid);
    OtherAnimsDistinct(s.anims, jid);
    hide FirstAtWork, FirstOf, OtherAnims;
  }

  lemma CancelUnspawned(s: State, jid: nat)
    requires SpawnedOnce(s)
    ensures SpawnedOnce(CancelJob(s, jid))
  {
    hide OtherAnims, FirstAtWork, FirstOf, Without;
  }

  lemma KeptByRemoval(s: State, i: nat)
    requires Inv(s) && i < |s.running|
    ensures Inv(s.(running := Without(s.running, i)))
  {
    var t := s.(running := Without(s.running, i));
    RemovalPlaces(s, i);
    ItemsWithout(s.running, i);
    RemovalUnspawned(s, i);
    hide Places, SpawnedOnce, ItemsOf, Without;
    NoNewWork(s, t);
    hide Unique, Known;
    KeptAnims(s, t);
  }

  lemma RemovalUnspawned(s: State, i: nat)
    requires SpawnedOnce(s) && i < |s.running|
    ensures SpawnedOnce(s.(running := Without(s.running, i)))
  {
  }

  lemma KeptByReap(s: State, i: nat)
    requires Inv(s) && i < |s.running| && !s.running[i].busy
    ensures Inv(ReapOne(s, i))
  {
    hide Inv, CancelJob;
    var j := s.running[i];
    KeptByCancel(s, j.item.jid);
    var t := if FrameID(j) != 0 && j.progress != Done then CancelJob(s, j.item.jid) else s;
    KeptByRemoval(t, i);
  }

  // ----- Animations -----

  lemma KeptByLaunch(s: State, a: nat)
    requires Inv(s) && a < |s.anims| && s.anims[a].queue != []
    ensures Inv(LaunchOne(s, a))
    ensures var item := Item(s.anims[a].id, s.anims[a].queue[0]);
            && item !in s.launched && item !in Places(s) && Places(LaunchOne(s, a)) == Places(s) + multiset{item}
            && LaunchOne(s, a).anims[a].rendering == s.anims[a].rendering + {item.frame}
            && LaunchOne(s, a).anims[a].queue == s.anims[a].queue[1..]
  {
    var t := LaunchOne(s, a);
    LaunchIsNew(s, a);
    LaunchAnims(s, a);
    assert t.running == s.running && t.max == s.max;
    assert t.anims[a].rendering == s.anims[a].rendering + {s.anims[a].queue[0]};
    assert t.anims[a].queue == s.anims[a].queue[1..];
    hide LaunchOne, DistinctAnims, Places, SpawnedOnce, Unique, Known, Whole, Tracked;
    LaunchUnspawned(s, a);
    LaunchKnown(s, a);
    LaunchPlaces(s, a);
    OneMore(s, t, Item(s.anims[a].id, s.anims[a].queue[0]));
  }

  lemma LaunchIsNew(s: State, a: nat)
    requires Known(s) && a < |s.anims| && s.anims[a].queue != [] && Whole(s, s.anims[a])
    ensures Item(s.anims[a].id, s.anims[a].queue[0]) !in Places(s)
    ensures Item(s.anims[a].id, s.anims[a].queue[0]) !in s.launched
  {
    hide Places;
    assert s.anims[a].queue[0] in s.anims[a].queue;
  }

  lemma LaunchAnims(s: State, a: nat)
    requires a < |s.anims| && s.anims[a].queue != [] && DistinctAnims(s.anims)
    requires forall x :: x in s.anims ==> Whole(s, x) && Tracked(s, x)
    ensures forall x :: x in LaunchOne(s, a).anims ==> Whole(LaunchOne(s, a), x) && Tracked(LaunchOne(s, a), x)
    ensures DistinctAnims(LaunchOne(s, a).anims)
  {
    hide Whole, Tracked;
    var t := LaunchOne(s, a);
    forall i | 0 <= i < |t.anims| ensures Whole(t, t.anims[i]) && Tracked(t, t.anims[i]) {
      LaunchedAnim(s, a, i);
    }
  }

  lemma LaunchKnown(s: State, a: nat)
    requires Known(s) && a < |s.anims| && s.anims[a].queue != [] && Whole(s, s.anims[a])
    ensures Known(LaunchOne(s, a))
  {
    LaunchPlaces(s, a);
    var t, x := LaunchOne(s, a), s.anims[a];
    var item := Item(x.id, x.queue[0]);
    assert x.queue[0] in x.queue && item.frame >= 2 && item.jid in s.spawned;
    assert t.launched == s.launched + {item} && t.spawned == s.spawned && t.lastID == s.lastID;
    hide *;
    KnownWith(s, t, item);
  }

  lemma KnownWith(s: State, t: State, item: Item)
    requires Known(s) && Places(t) == Places(s) + multiset{item} && item.frame >= 2 && item.jid in s.spawned
    requires t.launched == s.launched + {item} && t.spawned == s.spawned && t.lastID == s.lastID
    ensures Known(t)
  {
    hide Places;
    forall y | y in Places(t)
      ensures y.jid <= t.lastID && y.frame != 1 && (y.frame >= 2 ==> y in t.launched)
    {
      assert y == item || y in Places(s);
    }
  }

  lemma LaunchUnspawned(s: State, a: nat)
    requires SpawnedOnce(s) && a < |s.anims| && s.anims[a].queue != [] && Whole(s, s.anims[a])
    ensures SpawnedOnce(LaunchOne(s, a))
  {
    assert s.anims[a].queue[0] in s.anims[a].queue;
  }

  lemma LaunchedAnim(s: State, a: nat, i: nat)
    requires a < |s.anims| && s.anims[a].queue != [] && i < |s.anims| && DistinctAnims(s.anims)
    requires Whole(s, s.anims[a]) && Tracked(s, s.anims[a]) && Whole(s, s.anims[i]) && Tracked(s, s.anims[i])
    ensures Whole(LaunchOne(s, a), LaunchOne(s, a).anims[i]) && Tracked(LaunchOne(s, a), LaunchOne(s, a).anims[i])
  {
    var x := s.anims[a];
    assert x.queue == [x.queue[0]] + x.queue[1..];
    assert i != a ==> s.anims[i].id != x.id;
  }

  lemma KeptByDrop(s: State, a: nat, frame: nat)
    requires Inv(s) && a < |s.anims| && frame in s.anims[a].rendering && !StillBusy(s, s.anims[a], frame)
    ensures Inv(DropOne(s, a, frame))
  {
    var t := DropOne(s, a, frame);
    assert Places(t) == Places(s);
    hide Places;
    NoNewWork(s, t);
    forall i | 0 <= i < |t.anims| ensures Whole(t, t.anims[i]) && Tracked(t, t.anims[i]) {
      assert s.anims[i] in s.anims && s.anims[a] in s.anims;
      DroppedAnim(s, a, frame, i);
    }
  }

  lemma NotInThread(r: seq<Job>, jid: nat, frame: nat)
    requires frame >= 2 && !InThread(r, jid, frame)
    ensures Item(jid, frame) !in ItemsOf(r)
  {
    forall k | 0 <= k < |r| ensures r[k].item != Item(jid, frame) {
    }
  }

  lemma DroppedAnim(s: State, a: nat, frame: nat, i: nat)
    requires a < |s.anims| && frame in s.anims[a].rendering && !StillBusy(s, s.anims[a], frame)
    requires i < |s.anims| && Whole(s, s.anims[a]) && Whole(s, s.anims[i]) && Tracked(s, s.anims[i])
    ensures var t := DropOne(s, a, frame);
            Whole(t, t.anims[i]) && Tracked(t, t.anims[i])
  {
    var x := s.anims[a];
    if i == a {
      NotInThread(s.running, x.id, frame);
    }
  }

  lemma KeptByMux(s: State, a: nat)
    requires Inv(s) && a < |s.anims| && s.anims[a].queue == [] && s.anims[a].rendering == {}
    ensures Inv(MuxOne(s, a))
  {
    var t := MuxOne(s, a);
    assert Places(t) == Places(s);
    hide Places, Whole, Tracked;
    NoNewWork(s, t);
    assert DistinctAnims(t.anims);
    forall x | x in t.anims ensures Whole(t, x) && Tracked(t, x) {
      SameAnim(s, t, x);
    }
  }

  // ----- Render threads -----

  lemma KeptBySpawn(s: State, i: nat, frames: nat, manual: bool, mustStop: nat)
    requires Inv(s) && i < |s.running| && s.running[i].busy && s.running[i].item.frame == 0 && !s.running[i].spawned
    ensures Inv(Spawn(s, i, frames, manual, mustStop))
    ensures var t, jid := Spawn(s, i, frames, manual, mustStop), s.running[i].item.jid;
            && jid !in s.spawned && jid in t.spawned && |t.anims| == |s.anims| + 1 && t.anims[|s.anims|].id == jid
            && t.anims[|s.anims|].rendering == {}
            && forall f: nat :: f in t.anims[|s.anims|].queue <==> 2 <= f <= frames
  {
    var t := Spawn(s, i, frames, manual, mustStop);
    OnlyOne(s, i);
    SpawnedAfter(s, i, frames, manual, mustStop);
    SpawnWork(s, i, frames, manual, mustStop);
    SpawnAnims(s, i, frames, manual, mustStop);
    hide *;
    InvOf(s, t);
  }

  lemma InvOf(s: State, t: State)
    requires |t.running| <= t.max && Unique(t) && Known(t) && SpawnedOnce(t) && DistinctAnims(t.anims)
    requires forall x :: x in t.anims ==> Whole(t, x) && Tracked(t, x)
    ensures Inv(t)
  {
  }

  lemma SpawnAnims(s: State, i: nat, frames: nat, manual: bool, mustStop: nat)
    requires Inv(s) && i < |s.running| && s.running[i].busy && s.running[i].item.frame == 0 && !s.running[i].spawned
    ensures var t := Spawn(s, i, frames, manual, mustStop);
            DistinctAnims(t.anims) && forall x :: x in t.anims ==> Whole(t, x) && Tracked(t, x)
  {
    var t := Spawn(s, i, frames, manual, mustStop);
    assert DistinctAnims(s.anims) && forall x :: x in s.anims ==> x.id in s.spawned && Whole(s, x) && Tracked(s, x);
    SameItems(s.running, i, t.running[i]);
    NewAnim(s, i, frames, manual, mustStop);
    hide Places, FrameNumbers, Unique, Known, SpawnedOnce, Whole, Tracked, ItemsOf, Inv;
    forall x | x in t.anims ensures Whole(t, x) && Tracked(t, x) {
      if x in s.anims {
        SameAnim(s, t, x);
      }
    }
  }

  lemma SpawnWork(s: State, i: nat, frames: nat, manual: bool, mustStop: nat)
    requires Unique(s) && Known(s) && i < |s.running|
    requires s.running[i].busy && s.running[i].item.frame == 0 && !s.running[i].spawned
    ensures var t := Spawn(s, i, frames, manual, mustStop);
            Unique(t) && Known(t) && ItemsOf(t.running) == ItemsOf(s.running)
  {
    var t := Spawn(s, i, frames, manual, mustStop);
    SameItems(s.running, i, t.running[i]);
    assert Places(t) == Places(s);
    assert s.running[i].item in ItemsOf(s.running);
    InPlaces(s, s.running[i].item);
    hide Places;
    assert forall x: Item :: Places(t)[x] == Places(s)[x];
  }

  lemma Twice(q: seq<Item>, lo: nat, hi: nat)
    requires lo < hi < |q| && q[lo] == q[hi]
    ensures multiset(q)[q[lo]] >= 2
  {
    assert q == q[..hi] + [q[hi]] + q[hi + 1..] && q[..hi][lo] == q[lo];
  }

  // A running job is nowhere else.
  lemma OnlyOne(s: State, i: nat)
    requires Unique(s) && i < |s.running|
    ensures var x := s.running[i].item;
            && x !in BasesOf(s.submitted) && x !in BasesOf(s.fetched) && x !in s.manual && x !in s.auto
            && forall k :: 0 <= k < |s.running| && s.running[k].item == x ==> k == i
  {
    var x := s.running[i].item;
    var q := ItemsOf(s.running);
    assert Places(s)[x] <= 1;
    assert q[i] == x;
    assert multiset(q)[x] >= 1;
    forall k | 0 <= k < |s.running| && s.running[k].item == x ensures k == i {
      if k != i {
        Twice(q, if k < i then k else i, if k < i then i else k);
      }
    }
  }

  lemma NewAnim(s: State, i: nat, frames: nat, manual: bool, mustStop: nat)
    requires Known(s) && i < |s.running| && s.running[i].busy && s.running[i].item.frame == 0 && !s.running[i].spawned
    requires s.running[i].item.jid !in s.spawned
    ensures var t := Spawn(s, i, frames, manual, mustStop);
            var x := t.anims[|s.anims|];
            Whole(t, x) && Tracked(t, x)
  {
    var t := Spawn(s, i, frames, manual, mustStop);
    SameItems(s.running, i, t.running[i]);
    hide FrameNumbers, ItemsOf;
    NoFramesYet(s, s.running[i].item.jid);
  }

  // Nothing of a job that has had no animation is a later frame.
  lemma NoFramesYet(s: State, jid: nat)
    requires Known(s) && jid !in s.spawned
    ensures forall y :: y in s.manual || y in s.auto || y in ItemsOf(s.running) ==> !(y.jid == jid && y.frame >= 2)
    ensures forall f: nat :: Item(jid, f) !in s.launched
  {
    forall y | y in s.manual || y in s.auto || y in ItemsOf(s.running) ensures !(y.jid == jid && y.frame >= 2) {
      InPlaces(s, y);
      hide Places;
    }
  }

  lemma SpawnedAfter(s: State, i: nat, frames: nat, manual: bool, mustStop: nat)
    requires SpawnedOnce(s) && i < |s.running|
    requires s.running[i].busy && s.running[i].item.frame == 0 && !s.running[i].spawned
    requires var x := s.running[i].item;
             && x !in BasesOf(s.submitted) && x !in BasesOf(s.fetched) && x !in s.manual && x !in s.auto
             && forall k :: 0 <= k < |s.running| && s.running[k].item == x ==> k == i
    ensures SpawnedOnce(Spawn(s, i, frames, manual, mustStop))
  {
    var t := Spawn(s, i, frames, manual, mustStop);
    var jid := s.running[i].item.jid;
    forall x | x in BasesOf(t.submitted) + BasesOf(t.fetched) + t.manual + t.auto && x.frame == 0
      ensures x.jid !in t.spawned
    {
      assert x != s.running[i].item;
    }
    forall k | 0 <= k < |t.running| && t.running[k].item.frame == 0
      ensures t.running[k].spawned <==> t.running[k].item.jid in t.spawned
    {
      assert t.running[k].item.jid == jid ==> s.running[k].item == s.running[i].item;
    }
  }

  // A thread's own flags and progress do not concern the rest.
  lemma KeptByFlags(s: State, i: nat, j: Job)
    requires Inv(s) && i < |s.running| && j.item == s.running[i].item && j.spawned == s.running[i].spawned
    requires j.marked ==> j.spawned || j.item.frame != 0
    ensures Inv(s.(running := s.running[i := j]))
  {
    var t := s.(running := s.running[i := j]);
    SameItems(s.running, i, j);
    FlagsUnspawned(s, i, j);
    assert Places(t) == Places(s);
    hide Places, ItemsOf, SpawnedOnce, Whole, Tracked;
    NoNewWork(s, t);
    hide Unique, Known;
    KeptAnims(s, t);
  }

  lemma FlagsUnspawned(s: State, i: nat, j: Job)
    requires SpawnedOnce(s) && i < |s.running| && j.item == s.running[i].item && j.spawned == s.running[i].spawned
    requires j.marked ==> j.spawned || j.item.frame != 0
    ensures SpawnedOnce(s.(running := s.running[i := j]))
  {
  }

  lemma KeptByMark(s: State, i: nat)
    requires Inv(s) && i < |s.running| && s.running[i].busy && s.running[i].spawned
    ensures Inv(Mark(s, i))
  {
    KeptByFlags(s, i, s.running[i].(marked := true));
  }

  lemma KeptByAdvance(s: State, i: nat, progress: Progress, busy: bool)
    requires Inv(s) && i < |s.running| && s.running[i].busy
    ensures Inv(Advance(s, i, progress, busy))
  {
    KeptByFlags(s, i, s.running[i].(progress := progress, busy := busy));
  }

  // ----- Every run -----

  lemma KeptByStep(s: State, step: Step)
    requires Inv(s) && Enabled(s, step)
    ensures Inv(Apply(s, step))
  {
    hide Inv;
    match step
    case Submitting(manual) => KeptBySubmit(s, manual);
    case Fetching => KeptByFetch(s);
    case Posting => KeptByPost(s);
    case Starting => KeptByStart(s);
    case Reaping(i) => KeptByReap(s, i);
    case Canceling(jid) => KeptByCancel(s, jid);
    case Launching(a) => KeptByLaunch(s, a);
    case Dropping(a, frame) => KeptByDrop(s, a, frame);
    case Muxing(a) => KeptByMux(s, a);
    case Spawning(i, frames, manual, mustStop) => KeptBySpawn(s, i, frames, manual, mustStop);
    case Marking(i) => KeptByMark(s, i);
    case Advancing(i, progress, busy) => KeptByAdvance(s, i, progress, busy);
  }

  lemma {:induction false} KeptByRun(s: State, steps: seq<Step>, t: State)
    requires Inv(s) && RunOf(s, steps, t)
    ensures Inv(t)
    decreases |steps|
  {
    hide Inv, Apply;
    if steps != [] {
      KeptByStep(s, steps[0]);
      KeptByRun(Apply(s, steps[0]), steps[1..], t);
    }
  }
}
