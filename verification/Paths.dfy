/** Virtual paths as segment lists: what a simplified path is, independently of
    how the server's in-place rewriting gets there. */
module Paths {

  type Segment = string

  predicate SlashFree(s: string) {
    forall k :: 0 <= k < |s| ==> s[k] != '/'
  }

  predicate AllSlashFree(segs: seq<Segment>) {
    forall k :: 0 <= k < |segs| ==> SlashFree(segs[k])
  }

  // "/a/b" for ["a", "b"]; a trailing slash is an empty last segment.
  function Join(segs: seq<Segment>): string {
    if segs == [] then "" else "/" + segs[0] + Join(segs[1..])
  }

  // The characters before the first slash.
  function UpToSlash(s: string): (r: string)
    ensures |r| <= |s| && r == s[..|r|] && SlashFree(r) && (|r| < |s| ==> s[|r|] == '/')
  {
    if s == "" || s[0] == '/' then "" else [s[0]] + UpToSlash(s[1..])
  }

  // A text that is a run of "/segment" pieces, possibly none.
  predicate Rooted(s: string) {
    s != "" ==> s[0] == '/'
  }

  function Split(s: string): (segs: seq<Segment>)
    requires Rooted(s)
    ensures AllSlashFree(segs) && (segs == [] <==> s == "")
    decreases |s|
  {
    if s == "" then [] else
    var seg := UpToSlash(s[1..]);
    [seg] + Split(s[|seg| + 1..])
  }

  // One segment's effect on the directory stack; `..` at the root does nothing.
  function Enter(stack: seq<Segment>, seg: Segment): seq<Segment> {
    if seg == "" || seg == "." then stack
    else if seg == ".." then if stack == [] then [] else stack[..|stack| - 1]
    else stack + [seg]
  }

  function Walk(stack: seq<Segment>, segs: seq<Segment>): seq<Segment>
    decreases |segs|
  {
    if segs == [] then stack else Walk(Enter(stack, segs[0]), segs[1..])
  }

  function Resolve(segs: seq<Segment>): seq<Segment> {
    Walk([], segs)
  }

  function Render(stack: seq<Segment>): string {
    if stack == [] then "/" else Join(stack)
  }

  function Slashed(s: string): (r: string)
    ensures |r| == |s| && forall k :: 0 <= k < |s| ==> r[k] == if s[k] == '\\' then '/' else s[k]
  {
    if s == "" then "" else [if s[0] == '\\' then '/' else s[0]] + Slashed(s[1..])
  }

  predicate Absolute(s: string) {
    s != "" && (s[0] == '/' || s[0] == '\\')
  }

  function Leads(s: string): seq<Segment>
    requires Rooted(s)
  {
    Resolve(Split(s))
  }

  // The directory an absolute path leads to, and its normal form.
  function Target(s: string): seq<Segment>
    requires Absolute(s)
  {
    Leads(Slashed(s))
  }

  function NormalForm(s: string): string
    requires Absolute(s)
  {
    Render(Target(s))
  }

  // ----- Joining and splitting -----

  lemma {:induction false} JoinConcat(a: seq<Segment>, b: seq<Segment>)
    ensures Join(a + b) == Join(a) + Join(b)
  {
    if a == [] {
      assert a + b == b;
    } else {
      assert (a + b)[1..] == a[1..] + b;
      JoinConcat(a[1..], b);
    }
  }

  lemma {:induction false} JoinSplit(s: string)
    requires Rooted(s)
    ensures Join(Split(s)) == s
    decreases |s|
  {
    if s != "" {
      var seg := UpToSlash(s[1..]);
      assert s == "/" + seg + s[|seg| + 1..];
      JoinSplit(s[|seg| + 1..]);
    }
  }

  lemma {:induction false} UpToSlashFound(seg: Segment, rest: string)
    requires SlashFree(seg) && (rest == "" || rest[0] == '/')
    ensures UpToSlash(seg + rest) == seg
  {
    if seg == "" {
      assert seg + rest == rest;
    } else {
      assert (seg + rest)[1..] == seg[1..] + rest;
      UpToSlashFound(seg[1..], rest);
    }
  }

  lemma SplitStep(seg: Segment, rest: string)
    requires SlashFree(seg) && Rooted(rest)
    ensures Split("/" + seg + rest) == [seg] + Split(rest)
  {
    var text := "/" + seg + rest;
    assert text[1..] == seg + rest;
    UpToSlashFound(seg, rest);
    assert text[|seg| + 1..] == rest;
  }

  lemma {:induction false} SplitJoin(segs: seq<Segment>)
    requires AllSlashFree(segs)
    ensures Rooted(Join(segs)) && Split(Join(segs)) == segs
  {
    if segs != [] {
      SplitJoin(segs[1..]);
      SplitStep(segs[0], Join(segs[1..]));
    }
  }

  lemma SplitConcat(x: string, y: string)
    requires Rooted(x) && Rooted(y)
    ensures Rooted(x + y) && Split(x + y) == Split(x) + Split(y)
  {
    JoinSplit(x);
    JoinSplit(y);
    JoinConcat(Split(x), Split(y));
    SplitJoin(Split(x) + Split(y));
  }

  lemma SplitOne(seg: Segment)
    requires SlashFree(seg)
    ensures Split("/" + seg) == [seg]
  {
    assert Join([seg]) == "/" + seg + Join([]) == "/" + seg;
    SplitJoin([seg]);
  }

  // ----- Walking -----

  lemma {:induction false} WalkConcat(stack: seq<Segment>, a: seq<Segment>, b: seq<Segment>)
    ensures Walk(stack, a + b) == Walk(Walk(stack, a), b)
    decreases |a|
  {
    if a == [] {
      assert a + b == b;
    } else {
      assert (a + b)[1..] == a[1..] + b;
      WalkConcat(Enter(stack, a[0]), a[1..], b);
    }
  }

  // A name: a segment that pushes itself.
  predicate IsName(seg: Segment) {
    seg != "" && seg != "." && seg != ".."
  }

  predicate AllNames(segs: seq<Segment>) {
    forall k :: 0 <= k < |segs| ==> IsName(segs[k])
  }

  lemma {:induction false} WalkNames(stack: seq<Segment>, segs: seq<Segment>)
    requires AllNames(segs)
    ensures Walk(stack, segs) == stack + segs
    decreases |segs|
  {
    if segs != [] {
      WalkNames(stack + [segs[0]], segs[1..]);
      assert stack + [segs[0]] + segs[1..] == stack + segs;
    } else {
      assert stack + [] == stack;
    }
  }

  lemma {:induction false} WalkGivesNames(stack: seq<Segment>, segs: seq<Segment>)
    requires AllNames(stack) && AllSlashFree(stack) && AllSlashFree(segs)
    ensures AllNames(Walk(stack, segs)) && AllSlashFree(Walk(stack, segs))
    decreases |segs|
  {
    if segs != [] {
      WalkGivesNames(Enter(stack, segs[0]), segs[1..]);
    }
  }

  // Dropping a segment that does nothing, or a name with the `..` after it, keeps the target.
  lemma DropIdle(a: seq<Segment>, seg: Segment, b: seq<Segment>)
    requires seg == "" || seg == "."
    ensures Resolve(a + [seg] + b) == Resolve(a + b)
  {
    WalkConcat([], a + [seg], b);
    WalkConcat([], a, [seg]);
    WalkConcat([], a, b);
    assert [seg][1..] == [];
  }

  lemma DropPair(a: seq<Segment>, name: Segment, b: seq<Segment>)
    requires IsName(name)
    ensures Resolve(a + [name, ".."] + b) == Resolve(a + b)
  {
    var st := Walk([], a);
    WalkConcat([], a + [name, ".."], b);
    WalkConcat([], a, [name, ".."]);
    WalkConcat([], a, b);
    assert [name, ".."][1..] == [".."] && [".."][1..] == [];
    assert (st + [name])[..|st + [name]| - 1] == st;
    assert Walk(st, [name, ".."]) == Walk(st + [name], [".."]) == Walk(st, []) == st;
  }

  lemma DropRootParent(b: seq<Segment>)
    ensures Resolve([".."] + b) == Resolve(b)
  {
    assert ([".."] + b)[1..] == b;
  }

  // ----- The normal form -----

  // A rendered stack of names is absolute, keeps its target, and has no other normal form.
  lemma RenderedTarget(stack: seq<Segment>)
    requires AllNames(stack) && AllSlashFree(stack)
    ensures Absolute(Render(stack)) && Slashed(Render(stack)) == Render(stack) ==> Target(Render(stack)) == stack
  {
    if stack == [] {
      assert Split("/") == [""];
      assert [""][1..] == [];
    } else {
      SplitJoin(stack);
      WalkNames([], stack);
      assert [] + stack == stack;
    }
  }

  predicate NoBackslash(s: string) {
    forall k :: 0 <= k < |s| ==> s[k] != '\\'
  }

  lemma SlashedStays(s: string)
    requires NoBackslash(s)
    ensures Slashed(s) == s
  {
  }

  lemma {:induction false} JoinNoBackslash(segs: seq<Segment>)
    requires forall k :: 0 <= k < |segs| ==> NoBackslash(segs[k])
    ensures NoBackslash(Join(segs))
  {
    if segs != [] {
      JoinNoBackslash(segs[1..]);
    }
  }

  lemma {:induction false} SplitNoBackslash(s: string)
    requires Rooted(s) && NoBackslash(s)
    ensures forall k :: 0 <= k < |Split(s)| ==> NoBackslash(Split(s)[k])
    decreases |s|
  {
    if s != "" {
      var seg := UpToSlash(s[1..]);
      SplitNoBackslash(s[|seg| + 1..]);
    }
  }

  lemma {:induction false} WalkNoBackslash(stack: seq<Segment>, segs: seq<Segment>)
    requires forall k :: 0 <= k < |stack| ==> NoBackslash(stack[k])
    requires forall k :: 0 <= k < |segs| ==> NoBackslash(segs[k])
    ensures forall k :: 0 <= k < |Walk(stack, segs)| ==> NoBackslash(Walk(stack, segs)[k])
    decreases |segs|
  {
    if segs != [] {
      WalkNoBackslash(Enter(stack, segs[0]), segs[1..]);
    }
  }

  // Segments of a target are names without slashes of either kind.
  lemma TargetIsClean(s: string)
    requires Absolute(s)
    ensures AllNames(Target(s)) && AllSlashFree(Target(s))
    ensures forall k :: 0 <= k < |Target(s)| ==> NoBackslash(Target(s)[k])
  {
    WalkGivesNames([], Split(Slashed(s)));
    SplitNoBackslash(Slashed(s));
    WalkNoBackslash([], Split(Slashed(s)));
  }

  // The normal form is absolute, leads where the path leads, and is its own normal form.
  lemma NormalFormStable(s: string)
    requires Absolute(s)
    ensures Absolute(NormalForm(s)) && Target(NormalForm(s)) == Target(s)
    ensures NormalForm(NormalForm(s)) == NormalForm(s)
  {
    TargetIsClean(s);
    var stack := Target(s);
    if stack != [] {
      JoinNoBackslash(stack);
      SplitJoin(stack);
    }
    SlashedStays(Render(stack));
    RenderedTarget(stack);
  }

  // Two absolute paths have the same normal form exactly when they lead to the same directory.
  lemma NormalFormDecides(s: string, t: string)
    requires Absolute(s) && Absolute(t)
    ensures NormalForm(s) == NormalForm(t) <==> Target(s) == Target(t)
  {
    NormalFormStable(s);
    NormalFormStable(t);
  }
}
