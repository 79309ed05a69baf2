/** The library update (MDUD) and job context (RCTX) replies: how the server fills
    their buffers, and how the Java client reads them back. */
module Messages {
  import opened Sequences
  import opened Bytes
  import opened Formula

  datatype FractalMeta = FractalMeta(jobID: Int32, userID: Int32, name: seq<Byte>, author: seq<Byte>, status: Int32)

  datatype Artifact = Artifact(kind: seq<Byte>, data: seq<Byte>)

  const MAXSZ: nat := 33554432
  const INT_MAX: nat := 0x7FFF_FFFF
  const IMGS: seq<Byte> := [73, 77, 71, 83]
  const ANIM: seq<Byte> := [65, 78, 73, 77]

  function IntBytes(i: Int32): (r: seq<Byte>)
    ensures |r| == 4
  {
    BigEndian(ToWord(i))
  }

  // A block: its length, then its bytes.
  function Block(b: seq<Byte>): (r: seq<Byte>)
    requires |b| <= INT_MAX
    ensures |r| == 4 + |b|
  {
    IntBytes(|b|) + b
  }

  // [jid][uid][title][author][status][thumbnail]
  function MdudLayout(f: FractalMeta, thumb: seq<Byte>): (r: seq<Byte>)
    requires |f.name| + |f.author| + |thumb| + 24 <= INT_MAX
    ensures |r| == 24 + |f.name| + |f.author| + |thumb|
  {
    IntBytes(f.jobID) + IntBytes(f.userID) + Block(f.name) + Block(f.author) + IntBytes(f.status) + Block(thumb)
  }

  function ArtifactBytes(a: Artifact): seq<Byte>
    requires |a.data| <= INT_MAX
  {
    a.kind + Block(a.data)
  }

  predicate AllSmall(arts: seq<Artifact>) {
    forall k :: 0 <= k < |arts| ==> |arts[k].kind| == 4 && |arts[k].data| <= INT_MAX
  }

  function ArtifactRun(arts: seq<Artifact>): seq<Byte>
    requires AllSmall(arts)
  {
    if arts == [] then [] else ArtifactBytes(arts[0]) + ArtifactRun(arts[1..])
  }

  function ArtifactLayout(arts: seq<Artifact>): seq<Byte>
    requires AllSmall(arts) && |arts| <= INT_MAX
  {
    IntBytes(|arts|) + ArtifactRun(arts)
  }

  // [params][params out][log][artifacts], behind the job id.
  function RctxBody(params: seq<Byte>, paramsOut: seq<Byte>, log: seq<Byte>, arts: seq<Artifact>): seq<Byte>
    requires |params| <= INT_MAX && |paramsOut| <= INT_MAX && |log| <= INT_MAX
    requires AllSmall(arts) && |arts| <= INT_MAX
  {
    Block(params) + Block(paramsOut) + Block(log) + ArtifactLayout(arts)
  }

  // Where the fields of a library update stand.
  lemma MdudFields(f: FractalMeta, thumb: seq<Byte>)
    requires |f.name| + |f.author| + |thumb| + 24 <= INT_MAX
    ensures var r, n, a := MdudLayout(f, thumb), |f.name|, |f.author|;
            && r[0..4] == IntBytes(f.jobID) && r[4..8] == IntBytes(f.userID)
            && r[8..12] == IntBytes(n) && r[12..12 + n] == f.name
            && r[12 + n..16 + n] == IntBytes(a) && r[16 + n..16 + n + a] == f.author
            && r[16 + n + a..20 + n + a] == IntBytes(f.status)
            && r[20 + n + a..24 + n + a] == IntBytes(|thumb|) && r[24 + n + a..] == thumb
  {
    hide IntBytes;
  }

  // Where the blocks of a job's context stand, and how its artifacts are announced.
  lemma RctxFields(params: seq<Byte>, paramsOut: seq<Byte>, log: seq<Byte>, arts: seq<Artifact>)
    requires |params| <= INT_MAX && |paramsOut| <= INT_MAX && |log| <= INT_MAX
    requires AllSmall(arts) && |arts| <= INT_MAX
    ensures var r, p, o, l := RctxBody(params, paramsOut, log, arts), |params|, |paramsOut|, |log|;
            && |r| >= 16 + p + o + l
            && r[0..4] == IntBytes(p) && r[4..4 + p] == params
            && r[4 + p..8 + p] == IntBytes(o) && r[8 + p..8 + p + o] == paramsOut
            && r[8 + p + o..12 + p + o] == IntBytes(l) && r[12 + p + o..12 + p + o + l] == log
            && r[12 + p + o + l..16 + p + o + l] == IntBytes(|arts|)
  {
    hide IntBytes, ArtifactRun;
  }

  // ----- Filling buffers -----

  // memcpy behind what is done; what lies from `keep` on is not touched.
  method Put(buf: array<Byte>, at: nat, b: seq<Byte>, ghost done: seq<Byte>, ghost keep: nat) returns (next: nat)
    requires at + |b| <= keep <= buf.Length && buf[..at] == done
    modifies buf
    ensures next == at + |b| && buf[..next] == done + b
    ensures buf[keep..] == old(buf[keep..])
  {
    forall k | 0 <= k < |b| {
      buf[at + k] := b[k];
    }
    next := at + |b|;
  }

  method PutBlock(buf: array<Byte>, at: nat, b: seq<Byte>, ghost done: seq<Byte>, ghost keep: nat) returns (next: nat)
    requires at + 4 + |b| <= keep <= buf.Length && buf[..at] == done && |b| <= INT_MAX
    modifies buf
    ensures next == at + 4 + |b| && buf[..next] == done + Block(b)
    ensures buf[keep..] == old(buf[keep..])
  {
    next := Put(buf, at, IntBytes(|b|), done, keep);
    next := Put(buf, next, b, done + IntBytes(|b|), keep);
    assert done + IntBytes(|b|) + b == done + Block(b);
  }

  // The thumbnail, placed from the end of the buffer.
  method PutThumbnail(buf: array<Byte>, thumb: Option<seq<Byte>>, ghost image: seq<Byte>)
    requires image == (if thumb.Some? then thumb.value else []) && |image| <= INT_MAX && 4 + |image| <= buf.Length
    modifies buf
    ensures buf[buf.Length - 4 - |image|..] == Block(image)
  {
    hide IntBytes;
    ghost var meet: nat := buf.Length - 4 - |image|;
    if thumb.None? {
      var end := Put(buf, buf.Length - 4, IntBytes(0), buf[..buf.Length - 4], buf.Length);
      assert buf[meet..] == buf[..end][meet..];
    } else {
      var start := buf.Length - 4 - |thumb.value|;
      var at := Put(buf, start, IntBytes(|thumb.value|), buf[..start], buf.Length - |thumb.value|);
      ghost var done := buf[..at];
      var end := Put(buf, at, thumb.value, done, buf.Length);
      assert buf[meet..] == (done + thumb.value)[meet..];
    }
  }

  // The thumbnail goes in from the end, the rest from the front, and they meet:
  // every byte of the buffer is written, and none twice.
  method FillMDUD(f: FractalMeta, thumb: Option<seq<Byte>>) returns (buf: array?<Byte>)
    requires |f.name| + |f.author| + 24 + (if thumb.Some? then |thumb.value| else 0) <= INT_MAX
    ensures buf == null <==> f.jobID < 0
    ensures buf != null ==> fresh(buf)
    ensures buf != null ==> buf[..] == MdudLayout(f, if thumb.Some? then thumb.value else [])
  {
    hide IntBytes, Block;
    if f.jobID < 0 {
      return null;
    }
    ghost var image := if thumb.Some? then thumb.value else [];
    var len := 24 + |f.name| + |f.author| + if thumb.Some? then |thumb.value| else 0;
    var out := new Byte[len];
    PutThumbnail(out, thumb, image);
    ghost var meet: nat := 20 + |f.name| + |f.author|;
    var at := Put(out, 0, IntBytes(f.jobID), [], meet);
    ghost var done := [] + IntBytes(f.jobID);
    at := Put(out, at, IntBytes(f.userID), done, meet);
    done := done + IntBytes(f.userID);
    at := PutBlock(out, at, f.name, done, meet);
    done := done + Block(f.name);
    at := PutBlock(out, at, f.author, done, meet);
    done := done + Block(f.author);
    at := Put(out, at, IntBytes(f.status), done, meet);
    assert out[..] == out[..meet] + out[meet..];
    assert [] + IntBytes(f.jobID) == IntBytes(f.jobID);
    return out;
  }

  // The job's artifacts, counted: the image file if there is one, then a note that
  // the animation can be had from the file server.
  function JobArtifacts(image: Option<seq<Byte>>, animation: bool, port: Int32): seq<Artifact> {
    (if image.Some? then [Artifact(IMGS, image.value)] else [])
    + if animation then [Artifact(ANIM, IntBytes(port))] else []
  }

  lemma RunOne(a: Artifact)
    requires |a.kind| == 4 && |a.data| <= INT_MAX
    ensures AllSmall([a]) && ArtifactRun([a]) == a.kind + Block(a.data)
  {
    assert [a][1..] == [];
  }

  lemma RunTwo(a: Artifact, b: Artifact)
    requires |a.kind| == |b.kind| == 4 && |a.data| <= INT_MAX && |b.data| <= INT_MAX
    ensures AllSmall([a, b]) && ArtifactRun([a, b]) == a.kind + Block(a.data) + (b.kind + Block(b.data))
  {
    assert [a, b][1..] == [b];
    RunOne(b);
  }

  // The artifact bytes, piece by piece.
  lemma JobArtifactRun(image: Option<seq<Byte>>, animation: bool, port: Int32)
    requires image.Some? ==> |image.value| <= INT_MAX
    ensures AllSmall(JobArtifacts(image, animation, port))
    ensures ArtifactRun(JobArtifacts(image, animation, port))
         == (if image.Some? then IMGS + Block(image.value) else [])
          + (if animation then ANIM + Block(IntBytes(port)) else [])
  {
    hide IntBytes, Block;
    if image.Some? {
      RunOne(Artifact(IMGS, image.value));
      if animation {
        RunTwo(Artifact(IMGS, image.value), Artifact(ANIM, IntBytes(port)));
      }
    } else if animation {
      RunOne(Artifact(ANIM, IntBytes(port)));
    }
  }

  lemma JobArtifactLayout(image: Option<seq<Byte>>, animation: bool, port: Int32)
    requires image.Some? ==> |image.value| <= INT_MAX
    ensures AllSmall(JobArtifacts(image, animation, port)) && |JobArtifacts(image, animation, port)| <= 2
    ensures ArtifactLayout(JobArtifacts(image, animation, port))
         == IntBytes((if image.Some? then 1 else 0) + (if animation then 1 else 0))
          + (if image.Some? then IMGS + Block(image.value) else [])
          + (if animation then ANIM + Block(IntBytes(port)) else [])
  {
    JobArtifactRun(image, animation, port);
    hide IntBytes, Block, ArtifactRun;
  }

  method PutArtifact(buf: array<Byte>, at: nat, kind: seq<Byte>, data: seq<Byte>,
                     ghost done: seq<Byte>, ghost keep: nat)
    returns (next: nat)
    requires at + |kind| + 4 + |data| <= keep <= buf.Length && buf[..at] == done && |data| <= INT_MAX
    modifies buf
    ensures next == at + |kind| + 4 + |data| && buf[..next] == done + (kind + Block(data))
  {
    hide Block;
    next := Put(buf, at, kind, done, keep);
    next := PutBlock(buf, next, data, done + kind, keep);
    Assoc(done, kind, Block(data));
  }

  method ReturnArtifacts(image: Option<seq<Byte>>, animation: bool, port: Int32) returns (buf: array<Byte>)
    requires image.Some? ==> |image.value| + 24 <= INT_MAX
    ensures fresh(buf) && AllSmall(JobArtifacts(image, animation, port))
    ensures buf[..] == ArtifactLayout(JobArtifacts(image, animation, port))
  {
    JobArtifactLayout(image, animation, port);
    hide IntBytes, Block, ArtifactLayout, ArtifactRun, JobArtifacts, AllSmall;
    var count: Int32, len := 0, 4;
    if image.Some? {
      count := count + 1;
      len := len + |image.value| + 4 + 4;
    }
    if animation {
      count := count + 1;
      len := len + 4 + 4 + 4;
    }
    buf := new Byte[len];
    ghost var head := IntBytes(count);
    ghost var a := if image.Some? then IMGS + Block(image.value) else [];
    ghost var b := if animation then ANIM + Block(IntBytes(port)) else [];
    assert [] + head == head && head + [] == head && head + a + [] == head + a;
    var at := Put(buf, 0, IntBytes(count), [], len);
    if image.Some? {
      at := PutArtifact(buf, at, IMGS, image.value, head, len);
    }
    assert buf[..at] == head + a && at == |head + a|;
    if animation {
      at := PutArtifact(buf, at, ANIM, IntBytes(port), head + a, len);
    }
    assert buf[..at] == head + a + b && at == len;
    assert buf[..] == buf[..at];
  }

  lemma RctxWhole(jobID: Int32, params: seq<Byte>, paramsOut: seq<Byte>, log: seq<Byte>, arts: seq<Artifact>)
    requires |params| <= INT_MAX && |paramsOut| <= INT_MAX && |log| <= INT_MAX && AllSmall(arts) && |arts| <= INT_MAX
    ensures IntBytes(jobID) + Block(params) + Block(paramsOut) + Block(log) + ArtifactLayout(arts)
         == IntBytes(jobID) + RctxBody(params, paramsOut, log, arts)
  {
    hide IntBytes, Block, ArtifactLayout;
  }

  method FillRCTX(jobID: Int32, params: seq<Byte>, paramsOut: seq<Byte>, log: seq<Byte>, artifacts: array<Byte>,
                  ghost arts: seq<Artifact>) returns (buf: array?<Byte>)
    requires AllSmall(arts) && |arts| <= INT_MAX && artifacts[..] == ArtifactLayout(arts)
    requires 16 + |params| + |paramsOut| + |log| + artifacts.Length <= INT_MAX
    ensures buf == null <==> jobID < 0
    ensures buf != null ==> fresh(buf)
    ensures buf != null ==> buf[..] == IntBytes(jobID) + RctxBody(params, paramsOut, log, arts)
  {
    hide IntBytes, Block, ArtifactLayout, RctxBody;
    if jobID < 0 {
      return null;
    }
    var len := 16 + |paramsOut| + |params| + |log| + artifacts.Length;
    var out := new Byte[len];
    var at := Put(out, 0, IntBytes(jobID), [], len);
    ghost var done := IntBytes(jobID);
    assert [] + done == done;
    at := PutBlock(out, at, params, done, len);
    done := done + Block(params);
    at := PutBlock(out, at, paramsOut, done, len);
    done := done + Block(paramsOut);
    at := PutBlock(out, at, log, done, len);
    done := done + Block(log);
    at := Put(out, at, artifacts[..], done, len);
    assert out[..] == out[..at] == done + ArtifactLayout(arts);
    RctxWhole(jobID, params, paramsOut, log, arts);
    return out;
  }

  // ----- The client's side -----

  lemma IntHead(i: Int32, tail: seq<Byte>)
    ensures var s := IntBytes(i) + tail;
            ToInt(WordAt(s, 0)) == i && s[4..] == tail
  {
    WordInside([], ToWord(i), tail);
    assert [] + BigEndian(ToWord(i)) + tail == IntBytes(i) + tail;
  }

  lemma BlockHead(b: seq<Byte>, tail: seq<Byte>)
    requires |b| <= INT_MAX
    ensures var s := Block(b) + tail;
            ToInt(WordAt(s, 0)) == |b| && s[4..] == b + tail && (b + tail)[..|b|] == b && (b + tail)[|b|..] == tail
  {
    IntHead(|b|, b + tail);
    assert Block(b) + tail == IntBytes(|b|) + (b + tail);
  }

  // Java's DataInputStream over a received packet; `None` is an EOFException.
  class DataInput {
    var rest: seq<Byte>

    constructor (bytes: seq<Byte>)
      ensures rest == bytes
    {
      rest := bytes;
    }

    method ReadInt() returns (v: Option<Int32>)
      modifies this
      ensures |old(rest)| >= 4 ==> v == Some(ToInt(WordAt(old(rest), 0))) && rest == old(rest)[4..]
      ensures |old(rest)| < 4 ==> v == None && rest == []
    {
      if |rest| < 4 {
        rest := [];
        return None;
      }
      v := Some(ToInt(WordAt(rest, 0)));
      rest := rest[4..];
    }

    method ReadFully(n: nat) returns (v: Option<seq<Byte>>)
      modifies this
      ensures |old(rest)| >= n ==> v == Some(old(rest)[..n]) && rest == old(rest)[n..]
      ensures |old(rest)| < n ==> v == None && rest == []
    {
      if |rest| < n {
        rest := [];
        return None;
      }
      v := Some(rest[..n]);
      rest := rest[n..];
    }
  }

  // Length, then text. A missing length or a negative one is an exception; text cut
  // short is caught inside and read as empty.
  method ExtractString(ds: DataInput, ghost b: seq<Byte>, ghost tail: seq<Byte>) returns (v: Option<seq<Byte>>)
    requires |b| <= INT_MAX
    modifies ds
    ensures old(ds.rest) == Block(b) + tail ==> v == Some(b) && ds.rest == tail
  {
    BlockHead(b, tail);
    hide Block, WordAt;
    var n := ds.ReadInt();
    if n.None? || n.value < 0 {
      return None;
    }
    v := ds.ReadFully(n.value);
    if v.None? {
      v := Some([]);
    }
  }

  method NextInt(ds: DataInput, ghost i: Int32, ghost tail: seq<Byte>) returns (v: Option<Int32>)
    modifies ds
    ensures old(ds.rest) == IntBytes(i) + tail ==> v == Some(i) && ds.rest == tail
  {
    IntHead(i, tail);
    v := ds.ReadInt();
  }

  // A counted image, dropped when empty or over the limit.
  method ReadImage(ds: DataInput, ghost thumb: seq<Byte>) returns (image: Option<seq<Byte>>, ok: bool)
    requires |thumb| <= INT_MAX
    modifies ds
    ensures old(ds.rest) == Block(thumb) ==> ok && image == if 0 < |thumb| <= MAXSZ then Some(thumb) else None
  {
    BlockHead(thumb, []);
    assert Block(thumb) + [] == Block(thumb) && thumb + [] == thumb;
    hide Block, WordAt;
    image, ok := None, false;
    var sz := ds.ReadInt();
    if sz.None? { return; }
    if 0 < sz.value <= MAXSZ {
      image := ds.ReadFully(sz.value);
      if image.None? { return; }
    }
    ok := true;
  }

  datatype TileUpdate = TileUpdate(f: FractalMeta, image: Option<seq<Byte>>)

  // The client's reading of an MDUD packet gives back what the server put in; a
  // thumbnail arrives unless it is empty or over the client's size limit.
  method ReadMDUD(ds: DataInput, ghost f: FractalMeta, ghost thumb: seq<Byte>) returns (r: Option<TileUpdate>)
    requires |f.name| + |f.author| + |thumb| + 24 <= INT_MAX
    modifies ds
    ensures old(ds.rest) == MdudLayout(f, thumb) ==>
      r == Some(TileUpdate(f, if 0 < |thumb| <= MAXSZ then Some(thumb) else None))
  {
    hide IntBytes, Block;
    ghost var t5 := Block(thumb);
    ghost var t4 := IntBytes(f.status) + t5;
    ghost var t3 := Block(f.author) + t4;
    ghost var t2 := Block(f.name) + t3;
    ghost var t1 := IntBytes(f.userID) + t2;
    assert MdudLayout(f, thumb) == IntBytes(f.jobID) + t1;
    var jid := NextInt(ds, f.jobID, t1);
    if jid.None? { return None; }
    var uid := NextInt(ds, f.userID, t2);
    if uid.None? { return None; }
    var title := ExtractString(ds, f.name, t3);
    if title.None? { return None; }
    var author := ExtractString(ds, f.author, t4);
    if author.None? { return None; }
    var status := NextInt(ds, f.status, t5);
    if status.None? { return None; }
    var image, ok := ReadImage(ds, thumb);
    if !ok { return None; }
    r := Some(TileUpdate(FractalMeta(jid.value, uid.value, title.value, author.value, status.value), image));
  }

  class Context {
    var jid: Int32
    var rawParams: seq<Byte>
    var rawParamsOut: seq<Byte>
    var log: seq<Byte>
    var artifacts: seq<Artifact>

    constructor (jid: Int32)
      ensures this.jid == jid && rawParams == rawParamsOut == log == [] && artifacts == []
    {
      this.jid := jid;
      rawParams, rawParamsOut, log, artifacts := [], [], [], [];
    }

    // A text block; an empty one leaves the field as it was.
    static method ReadText(ds: DataInput, current: seq<Byte>, ghost b: seq<Byte>, ghost tail: seq<Byte>)
      returns (v: seq<Byte>, ok: bool)
      requires |b| <= INT_MAX
      modifies ds
      ensures old(ds.rest) == Block(b) + tail ==> ok && ds.rest == tail && v == if b != [] then b else current
    {
      BlockHead(b, tail);
      hide Block, WordAt;
      v, ok := current, false;
      var n := ds.ReadInt();
      if n.None? { return; }
      if n.value > 0 {
        var text := ds.ReadFully(n.value);
        if text.None? { return; }
        v := text.value;
      }
      ok := true;
    }

    static method ReadArtifact(ds: DataInput, ghost a: Artifact, ghost more: seq<Byte>) returns (r: Option<Artifact>)
      requires |a.kind| == 4 && |a.data| <= INT_MAX
      modifies ds
      ensures old(ds.rest) == ArtifactBytes(a) + more ==> r == Some(a) && ds.rest == more
    {
      assert ArtifactBytes(a) + more == a.kind + (Block(a.data) + more);
      BlockHead(a.data, more);
      hide Block, WordAt, ArtifactBytes;
      var kind := ds.ReadFully(4);
      if kind.None? { return None; }
      var len := ds.ReadInt();
      if len.None? || len.value < 0 { return None; }
      var data := ds.ReadFully(len.value);
      if data.None? { return None; }
      r := Some(Artifact(kind.value, data.value));
    }

    method ReadArtifacts(ds: DataInput, ghost arts: seq<Artifact>) returns (ok: bool)
      requires AllSmall(arts) && |arts| <= INT_MAX
      modifies this`artifacts, ds
      ensures old(ds.rest) == ArtifactLayout(arts) ==> ok && artifacts == arts && ds.rest == []
    {
      hide IntBytes, ArtifactBytes, WordAt;
      IntHead(|arts|, ArtifactRun(arts));
      ghost var sent := ds.rest == ArtifactLayout(arts);
      artifacts := [];
      var count := ds.ReadInt();
      if count.None? { return false; }
      var i := 0;
      while i < count.value
        invariant sent ==> count.value == |arts| && i <= |arts| && artifacts == arts[..i]
        invariant sent ==> ds.rest == ArtifactRun(arts[i..])
      {
        ghost var a := if sent then arts[i] else Artifact([0, 0, 0, 0], []);
        ghost var more := if sent then ArtifactRun(arts[i + 1..]) else [];
        assert sent ==> arts[i..][1..] == arts[i + 1..];
        var next := ReadArtifact(ds, a, more);
        if next.None? { return false; }
        artifacts := artifacts + [next.value];
        i := i + 1;
      }
      return true;
    }

    method UpdateInfoFromRCTX(ds: DataInput, ghost params: seq<Byte>, ghost out: seq<Byte>, ghost text: seq<Byte>,
                              ghost arts: seq<Artifact>) returns (ok: bool)
      requires |params| <= INT_MAX && |out| <= INT_MAX && |text| <= INT_MAX
      requires AllSmall(arts) && |arts| <= INT_MAX
      modifies this, ds
      ensures jid == old(jid)
      ensures old(ds.rest) == RctxBody(params, out, text, arts) ==>
        && ok && artifacts == arts
        && rawParams == (if params != [] then params else old(rawParams))
        && rawParamsOut == (if out != [] then out else old(rawParamsOut))
        && log == (if text != [] then text else old(log))
    {
      hide IntBytes, Block;
      ghost var t3 := ArtifactLayout(arts);
      ghost var t2 := Block(text) + t3;
      ghost var t1 := Block(out) + t2;
      assert RctxBody(params, out, text, arts) == Block(params) + t1;
      rawParams, ok := ReadText(ds, rawParams, params, t1);
      if !ok { return; }
      rawParamsOut, ok := ReadText(ds, rawParamsOut, out, t2);
      if !ok { return; }
      log, ok := ReadText(ds, log, text, t3);
      if !ok { return; }
      ok := ReadArtifacts(ds, arts);
    }

    // A reply is taken only if it is about this context's job.
    method OnReceiveReply(ds: DataInput, ghost job: Int32, ghost params: seq<Byte>, ghost out: seq<Byte>,
                          ghost text: seq<Byte>, ghost arts: seq<Artifact>)
      requires |params| <= INT_MAX && |out| <= INT_MAX && |text| <= INT_MAX
      requires AllSmall(arts) && |arts| <= INT_MAX
      modifies this, ds
      ensures jid == old(jid)
      ensures old(ds.rest) == IntBytes(job) + RctxBody(params, out, text, arts) && job == jid ==>
        && artifacts == arts
        && rawParams == (if params != [] then params else old(rawParams))
        && rawParamsOut == (if out != [] then out else old(rawParamsOut))
        && log == (if text != [] then text else old(log))
      ensures old(ds.rest) == IntBytes(job) + RctxBody(params, out, text, arts) && job != jid ==>
        artifacts == old(artifacts) && rawParams == old(rawParams)
        && rawParamsOut == old(rawParamsOut) && log == old(log)
    {
      hide RctxBody, WordAt;
      IntHead(job, RctxBody(params, out, text, arts));
      if |ds.rest| >= 4 {
        var j := ds.ReadInt();
        if j == Some(jid) {
          var ok := UpdateInfoFromRCTX(ds, params, out, text, arts);
        }
      }
    }
  }
}
