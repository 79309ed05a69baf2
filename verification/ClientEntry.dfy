/** A logged-in FTP client: its working directory, and the paths built from it
    under the user's start directory. */
module ClientEntry {
  import opened Formula
  import opened CString
  import opened Paths
  import opened PathSteps
  import opened CFtpServer

  const MAX_PATH: nat := 4096

  // The virtual path a request names: absolute requests stand alone, others
  // extend the working directory, no request is the working directory itself.
  function VirtualPath(working: string, asked: Option<string>): Option<string>
    requires Absolute(working)
  {
    var path :=
      if asked.None? then working
      else if asked.value != "" && asked.value[0] == '/' then NormalForm(asked.value)
      else NormalForm(Cut(working + "/" + asked.value, MAX_PATH + 3));
    if |path| <= MAX_PATH then Some(path) else None
  }

  // The path on disk: the virtual path below the start directory.
  function RealPath(start: string, working: string, asked: Option<string>): Option<string>
    requires Absolute(start) && Absolute(working)
  {
    var virtual := VirtualPath(working, asked);
    if virtual.None? then None else
    var path := NormalForm(Cut(start + "/" + virtual.value, MAX_PATH + 3));
    if |path| <= MAX_PATH then Some(path) else None
  }

  // ----- Where a request leads -----

  // What of a relative request still fits behind the working directory and a slash.
  function Kept(working: string, asked: string): string {
    if |working| + 1 + |asked| <= MAX_PATH + 3 then asked
    else if |working| < MAX_PATH + 3 then asked[..MAX_PATH + 2 - |working|]
    else ""
  }

  // The directory a request is about: the working directory if nothing is asked for, the
  // place itself if it is given from the root, and else a walk on from the working directory.
  function Destination(working: string, asked: Option<string>): seq<Segment>
    requires Absolute(working)
  {
    match asked
    case None => Target(working)
    case Some(text) =>
      if text != "" && text[0] == '/' then Target(text)
      else Walk(Target(working), Split(Slashed("/" + Kept(working, text))))
  }

  // A working directory followed by a relative request leads on from where it leads.
  lemma LeadsOn(working: string, asked: string)
    requires Absolute(working)
    ensures Absolute(working + "/" + asked)
    ensures Target(working + "/" + asked) == Walk(Target(working), Split(Slashed("/" + asked)))
  {
    hide Split, Walk;
    var below := "/" + asked;
    assert working + "/" + asked == working + below;
    SlashedConcat(working, below);
    SlashedAt(working);
    SlashedAt(below);
    SplitConcat(Slashed(working), Slashed(below));
    WalkConcat([], Split(Slashed(working)), Split(Slashed(below)));
  }

  // A request has a virtual path exactly when that of its destination fits, and then it is that.
  lemma VirtualLeads(working: string, asked: Option<string>)
    requires Absolute(working) && NormalForm(working) == working && |working| <= MAX_PATH
    ensures VirtualPath(working, asked)
         == var text := Render(Destination(working, asked));
            if |text| <= MAX_PATH then Some(text) else None
    ensures var text := Render(Destination(working, asked));
            Absolute(text) && Target(text) == Destination(working, asked)
  {
    hide Split, Walk, Join, Slashed, Render;
    if asked.None? {
      NormalFormStable(working);
    } else if asked.value != "" && asked.value[0] == '/' {
      NormalFormStable(asked.value);
    } else {
      var text := working + "/" + Kept(working, asked.value);
      assert Cut(working + "/" + asked.value, MAX_PATH + 3) == text;
      LeadsOn(working, Kept(working, asked.value));
      NormalFormStable(text);
    }
  }

  // The path on disk, when the joined text fits the buffer: the start directory's names
  // followed by the destination's, if that text is not too long.
  lemma RealPathIs(start: string, working: string, asked: Option<string>)
    requires Absolute(start) && Absolute(working) && NormalForm(working) == working
    requires |start| <= MAX_PATH && |working| <= MAX_PATH
    ensures var names := Destination(working, asked);
            var text := Render(Target(start) + names);
            && (|Render(names)| > MAX_PATH ==> RealPath(start, working, asked).None?)
            && (|Render(names)| <= MAX_PATH && |start| + 1 + |Render(names)| <= MAX_PATH + 3 ==>
                  RealPath(start, working, asked) == if |text| <= MAX_PATH then Some(text) else None)
  {
    hide Split, Walk, Join, IsName, Slashed, Render, Destination;
    VirtualLeads(working, asked);
    if VirtualPath(working, asked).Some? {
      var virtual := VirtualPath(working, asked).value;
      VirtualIsNormal(working, asked);
      TargetIsClean(virtual);
      SlashedAt(start);
      CutSlashed(start, virtual, MAX_PATH + 3);
      CutLeads(Slashed(start), Target(virtual), MAX_PATH + 3);
    }
  }

  // Plain names lead below the working directory, "." nowhere, and ".." to its parent.
  lemma NamesLead(working: string, names: seq<Segment>)
    requires Absolute(working) && names != [] && AllNames(names) && AllSlashFree(names)
    requires forall k :: 0 <= k < |names| ==> NoBackslash(names[k])
    requires |working| + |Join(names)| <= MAX_PATH + 3
    ensures Destination(working, Some(Join(names)[1..])) == Target(working) + names
  {
    hide Split, Walk;
    var asked := Join(names)[1..];
    assert Join(names) == "/" + names[0] + Join(names[1..]);
    assert "/" + asked == Join(names);
    assert asked[0] == names[0][0];
    JoinNoBackslash(names);
    SlashedStays(Join(names));
    SplitJoin(names);
    WalkNames(Target(working), names);
  }

  lemma DotsLead(working: string)
    requires Absolute(working) && |working| <= MAX_PATH
    ensures Destination(working, Some("")) == Destination(working, Some(".")) == Target(working)
    ensures Destination(working, Some("..")) == Parent(Target(working))
  {
    hide Split, Walk, Slashed;
    assert "/" + "" == "/" && "/" + "." == "/." && "/" + ".." == "/..";
    SlashedStays("/");
    SlashedStays("/.");
    SlashedStays("/..");
    SplitOne("");
    SplitOne(".");
    SplitOne("..");
    WalkIdle(Target(working));
    WalkDot(Target(working));
    EnterParent(Target(working));
  }

  lemma WalkDot(stack: seq<Segment>)
    ensures Walk(stack, ["."]) == stack
  {
    assert ["."][1..] == [];
  }

  // ----- What a built path leads to -----

  lemma SlashedConcat(x: string, y: string)
    ensures Slashed(x + y) == Slashed(x) + Slashed(y)
  {
  }

  // A path below another one, with the doubled slash that printing puts between them.
  lemma LeadsBelow(start: string, below: string)
    requires Rooted(start) && Rooted(below)
    ensures Rooted(start + "/" + below)
    ensures Leads(start + "/" + below) == Walk(Leads(start), Split(below))
  {
    hide Split, Walk;
    SplitAround(start, "", below);
    assert start + "/" + "" + below == start + "/" + below;
    DropIdle(Split(start), "", Split(below));
    WalkConcat([], Split(start), Split(below));
  }

  lemma LeadsBelowRendered(start: string, names: seq<Segment>)
    requires Rooted(start) && AllNames(names) && AllSlashFree(names)
    ensures Rooted(Render(names)) && Leads(start + "/" + Render(names)) == Leads(start) + names
  {
    hide Walk;
    if names == [] {
      RootPiece();
      LeadsBelow(start, "/");
      WalkIdle(Leads(start));
      assert Leads(start) + [] == Leads(start);
    } else {
      SplitJoin(names);
      LeadsBelow(start, Join(names));
      WalkNames(Leads(start), names);
    }
  }

  lemma RootPiece()
    ensures Split("/") == [""]
  {
    SplitOne("");
    assert "/" + "" == "/";
  }

  lemma WalkIdle(stack: seq<Segment>)
    ensures Walk(stack, [""]) == stack
  {
    assert [""][1..] == [];
  }

  // Nothing, or a piece shorter than the name it was cut from.
  predicate CutFrom(part: seq<Segment>, name: Segment) {
    part == [] || (|part| == 1 && |part[0]| < |name|)
  }

  // A proper prefix of a rendered path loses at least part of one name.
  lemma {:induction false} SplitPrefix(names: seq<Segment>, m: nat) returns (k: nat, part: seq<Segment>)
    requires AllSlashFree(names) && m < |Join(names)|
    ensures k < |names| && CutFrom(part, names[k])
    ensures k == 0 <==> m <= |names[0]|
    ensures m <= |names[0]| ==> part == if m == 0 then [] else [names[0][..m - 1]]
    ensures Rooted(Join(names)[..m]) && Split(Join(names)[..m]) == names[..k] + part
  {
    hide Split;
    var first, rest := "/" + names[0], Join(names[1..]);
    var text := Join(names)[..m];
    if m == 0 {
      k, part := 0, [];
      assert text == "";
      SplitEmpty();
    } else if m <= |names[0]| {
      k, part := 0, [names[0][..m - 1]];
      assert text == "/" + part[0];
      SplitOne(part[0]);
      assert names[..k] + part == part;
    } else {
      k, part := SplitPrefix(names[1..], m - |first|);
      assert text == first + rest[..m - |first|];
      SplitStep(names[0], rest[..m - |first|]);
      assert names[..k + 1] + part == [names[0]] + (names[1..][..k] + part);
      k := k + 1;
    }
  }

  // Walking only part of the names ends somewhere else.
  lemma WalkCut(stack: seq<Segment>, names: seq<Segment>, k: nat, part: seq<Segment>)
    requires AllNames(names) && k < |names| && CutFrom(part, names[k])
    ensures Walk(stack, names[..k] + part) != stack + names
  {
    WalkConcat(stack, names[..k], part);
    WalkNames(stack, names[..k]);
    var at := stack + names[..k];
    if part != [] {
      assert part[1..] == [];
      assert Walk(at, part) == Enter(at, part[0]);
      assert (at + part)[|at|] == part[0] && (stack + names)[|at|] == names[k];
    }
  }

  lemma CutLeads(start: string, names: seq<Segment>, max: nat)
    requires Rooted(start) && |start| < max && AllNames(names) && AllSlashFree(names)
    ensures var text := Cut(start + "/" + Render(names), max);
            && Rooted(text)
            && (Leads(text) == Leads(start) + names
                <==> |start| + 1 + |Render(names)| <= max || names == [])
  {
    hide Split, Walk, Join, IsName;
    var v := Render(names);
    var m := max - |start| - 1;
    LeadsBelowRendered(start, names);
    if m < |v| {
      assert Cut(start + "/" + v, max) == start + "/" + v[..m];
      if names == [] {
        LeadsBelow(start, "");
        WalkNothing(Leads(start));
        assert v[..m] == "" && start + "/" + "" == start + "/";
      } else {
        var k, part := SplitPrefix(names, m);
        LeadsBelow(start, v[..m]);
        WalkCut(Leads(start), names, k, part);
      }
    }
  }

  lemma WalkNothing(stack: seq<Segment>)
    ensures Walk(stack, Split("")) == stack == stack + []
  {
  }

  lemma CutSlashed(start: string, v: string, max: nat)
    requires NoBackslash(v)
    ensures Slashed(Cut(start + "/" + v, max)) == Cut(Slashed(start) + "/" + v, max)
  {
    hide Slashed;
    SlashedAt(start);
    SlashedAt(Cut(start + "/" + v, max));
  }

  lemma SlashedAt(s: string)
    ensures |Slashed(s)| == |s| && forall k :: 0 <= k < |s| ==> Slashed(s)[k] == if s[k] == '\\' then '/' else s[k]
  {
  }

  // A virtual path is its own normal form, and so carries no backslash.
  lemma VirtualIsNormal(working: string, asked: Option<string>)
    requires Absolute(working) && NormalForm(working) == working && VirtualPath(working, asked).Some?
    ensures var v := VirtualPath(working, asked).value;
            Absolute(v) && NormalForm(v) == v && NoBackslash(v) && Slashed(v) == v
  {
    hide Split, Walk, Join;
    var path :=
      if asked.None? then working
      else if asked.value != "" && asked.value[0] == '/' then asked.value
      else Cut(working + "/" + asked.value, MAX_PATH + 3);
    NormalFormStable(path);
    NormalIsClean(path);
  }

  lemma NormalIsClean(s: string)
    requires Absolute(s)
    ensures NoBackslash(NormalForm(s)) && Slashed(NormalForm(s)) == NormalForm(s)
  {
    TargetIsClean(s);
    JoinNoBackslash(Target(s));
    SlashedStays(NormalForm(s));
  }

  // The path on disk leads exactly where the virtual path says, below the start
  // directory, unless the buffer cut part of a name off.
  lemma RealPathLeads(start: string, working: string, asked: Option<string>)
    requires Absolute(start) && Absolute(working) && NormalForm(working) == working
    requires |start| <= MAX_PATH && RealPath(start, working, asked).Some?
    ensures var virtual := VirtualPath(working, asked).value;
            var path := RealPath(start, working, asked).value;
            && Absolute(virtual) && Absolute(path) && NormalForm(path) == path
            && (Target(path) == Target(start) + Target(virtual)
                <==> |start| + 1 + |virtual| <= MAX_PATH + 3 || virtual == "/")
  {
    hide Split, Walk, Join, IsName, Slashed;
    VirtualIsNormal(working, asked);
    var virtual := VirtualPath(working, asked).value;
    var names := Target(virtual);
    TargetIsClean(virtual);
    SlashedAt(start);
    CutSlashed(start, virtual, MAX_PATH + 3);
    CutLeads(Slashed(start), names, MAX_PATH + 3);
    NormalFormStable(Cut(start + "/" + virtual, MAX_PATH + 3));
    RootOnly(names);
  }

  // Whether cutting the joined text leaves a first segment ".." of what was a longer name.
  predicate CutsToParent(start: string, names: seq<Segment>, max: nat) {
    |start| + 4 == max && names != [] && |names[0]| > 2 && names[0][..2] == ".."
  }

  // A walk from below a directory stays there unless its first step leaves it.
  lemma WalkStays(stack: seq<Segment>, names: seq<Segment>, k: nat, part: seq<Segment>)
    requires AllNames(names) && k < |names| && CutFrom(part, names[k])
    ensures stack <= Walk(stack, names[..k] + part) <==> stack == [] || !(k == 0 && part == [".."])
  {
    WalkConcat(stack, names[..k], part);
    WalkNames(stack, names[..k]);
    var at := stack + names[..k];
    if part != [] {
      assert part[1..] == [];
      assert Walk(at, part) == Enter(at, part[0]);
    }
  }

  // A text cut to the buffer stays below the start directory unless the cut makes "..".
  lemma CutStays(start: string, names: seq<Segment>, max: nat)
    requires Rooted(start) && |start| < max && AllNames(names) && AllSlashFree(names)
    ensures var text := Cut(start + "/" + Render(names), max);
            && Rooted(text)
            && (Leads(start) <= Leads(text) <==> Leads(start) == [] || !CutsToParent(start, names, max))
  {
    hide Split, Walk, Join, IsName;
    var v := Render(names);
    var m := max - |start| - 1;
    CutLeads(start, names, max);
    RootOnly(names);
    FirstFits(names);
    if names != [] && m < |v| {
      assert Cut(start + "/" + v, max) == start + "/" + v[..m];
      var k, part := SplitPrefix(names, m);
      LeadsBelow(start, v[..m]);
      WalkStays(Leads(start), names, k, part);
      assert part == [".."] ==> |part[0]| == 2;
    }
  }

  lemma FirstFits(names: seq<Segment>)
    ensures names != [] ==> |Render(names)| > |names[0]|
  {
  }

  // The path on disk stays inside the user's start directory exactly when the buffer does
  // not cut the first name of the virtual path down to "..".
  lemma StaysInside(start: string, working: string, asked: Option<string>)
    requires Absolute(start) && Absolute(working) && NormalForm(working) == working
    requires |start| <= MAX_PATH && RealPath(start, working, asked).Some?
    ensures var virtual := VirtualPath(working, asked).value;
            var path := RealPath(start, working, asked).value;
            && Absolute(virtual) && Absolute(path)
            && (Target(start) <= Target(path)
                <==> Target(start) == [] || !CutsToParent(start, Target(virtual), MAX_PATH + 3))
  {
    hide Split, Walk, Join, IsName, Slashed;
    VirtualIsNormal(working, asked);
    var virtual := VirtualPath(working, asked).value;
    TargetIsClean(virtual);
    SlashedAt(start);
    CutSlashed(start, virtual, MAX_PATH + 3);
    CutStays(Slashed(start), Target(virtual), MAX_PATH + 3);
    NormalFormStable(Cut(start + "/" + virtual, MAX_PATH + 3));
  }

  // A walk makes the text of the path no longer.
  lemma {:induction false} WalkShort(stack: seq<Segment>, segs: seq<Segment>)
    ensures |Join(Walk(stack, segs))| <= |Join(stack)| + |Join(segs)|
    decreases |segs|
  {
    if segs != [] {
      if stack != [] {
        LastPiece(stack[..|stack| - 1], stack[|stack| - 1]);
        assert stack[..|stack| - 1] + [stack[|stack| - 1]] == stack;
      }
      LastPiece(stack, segs[0]);
      WalkShort(Enter(stack, segs[0]), segs[1..]);
    }
  }

  lemma TargetShort(s: string)
    requires Rooted(s) && s != ""
    ensures |Render(Leads(s))| <= |s|
  {
    WalkShort([], Split(s));
    JoinSplit(s);
  }

  lemma FirstThree(names: seq<Segment>)
    requires names != [] && |names[0]| > 2 && names[0][..2] == ".."
    ensures |Render(names)| > 3 && Render(names)[..3] == "/.."
  {
    var text := Render(names);
    assert text == "/" + names[0] + Join(names[1..]);
    assert text[..3] == "/" + names[0][..2] == "/..";
  }

  // Where the cut does make "..", the client is led out to the start directory's parent.
  lemma LeavesStart(start: string, working: string, asked: Option<string>)
    requires Absolute(start) && Absolute(working) && NormalForm(working) == working
    requires VirtualPath(working, asked).Some?
    ensures var virtual := VirtualPath(working, asked).value;
            && Absolute(virtual)
            && (CutsToParent(start, Target(virtual), MAX_PATH + 3) ==>
              RealPath(start, working, asked) == Some(Render(Parent(Target(start)))))
  {
    hide Split, Walk, Join, IsName, Slashed, Render;
    VirtualIsNormal(working, asked);
    var virtual := VirtualPath(working, asked).value;
    if CutsToParent(start, Target(virtual), MAX_PATH + 3) {
      CutToParent(start, virtual);
    }
  }

  lemma CutToParent(start: string, virtual: string)
    requires Absolute(start) && Absolute(virtual) && NormalForm(virtual) == virtual && NoBackslash(virtual)
    requires CutsToParent(start, Target(virtual), MAX_PATH + 3)
    ensures var text := Cut(start + "/" + virtual, MAX_PATH + 3);
            Absolute(text) && NormalForm(text) == Render(Parent(Target(start))) && |NormalForm(text)| <= MAX_PATH
  {
    hide Split, Walk, Join, IsName, Slashed, Render;
    FirstThree(Target(virtual));
    var text := Cut(start + "/" + virtual, MAX_PATH + 3);
    assert text == start + "/" + "/..";
    CutSlashed(start, virtual, MAX_PATH + 3);
    SlashedAt(start);
    assert Slashed(text) == Slashed(start) + "/" + "/..";
    SplitOne("..");
    assert "/" + ".." == "/..";
    LeadsBelow(Slashed(start), "/..");
    EnterParent(Target(start));
    ParentShorter(Target(start));
    TargetShort(Slashed(start));
  }

  // Such requests exist for every start directory one short of the longest path:
  // "/..foo" from the root leads to its parent.
  lemma AskingOut(start: string)
    requires Absolute(start) && |start| == MAX_PATH - 1
    ensures Absolute("/") && NormalForm("/") == "/"
    ensures RealPath(start, "/", Some("/..foo")) == Some(Render(Parent(Target(start))))
  {
    hide Split, Walk, Join, Slashed;
    RenderedRoot();
    var name := "..foo";
    NamePath(name);
    assert "/" + name == "/..foo";
    assert name[..2] == "..";
    hide Target;
    LeavesStart(start, "/", Some("/..foo"));
  }

  lemma NamePath(name: Segment)
    requires IsName(name) && SlashFree(name) && NoBackslash(name)
    ensures Absolute("/" + name) && Target("/" + name) == [name] && NormalForm("/" + name) == "/" + name
  {
    var text := "/" + name;
    SlashedStays(text);
    SplitOne(name);
    WalkNames([], [name]);
    assert [] + [name] == [name] && [name][1..] == [];
    assert Join([name]) == text + Join([]) == text;
  }

  lemma RenderedRoot()
    ensures Absolute("/") && NormalForm("/") == "/"
  {
    SlashedStays("/");
    RenderedTarget([]);
  }

  lemma RootOnly(names: seq<Segment>)
    requires AllNames(names)
    ensures Render(names) == "/" <==> names == []
  {
    if names != [] {
      assert |Render(names)| >= 1 + |names[0]|;
    }
  }

  // ----- The client -----

  function TextOf(p: array?<char>, text: string): Option<string> {
    if p == null then None else Some(text)
  }

  class Client {
    const workingDir: array<char>
    const startDir: array?<char>
    ghost var working: string
    ghost const start: string

    // The working directory is always a simplified absolute path that fits its buffer.
    ghost predicate Valid()
      reads this, workingDir, startDir
    {
      && workingDir.Length == MAX_PATH + 4 && IsText(workingDir, working)
      && Absolute(working) && NormalForm(working) == working && |working| <= MAX_PATH
      && (startDir != null ==>
        startDir != workingDir && IsText(startDir, start) && |start| <= MAX_PATH)
    }

    // A client starts at the root of its virtual tree; `startDir` is null until it is logged in.
    constructor (startDir: array?<char>, ghost start: string)
      requires startDir != null ==> IsText(startDir, start) && |start| <= MAX_PATH
      ensures Valid() && fresh(workingDir) && working == "/" && this.startDir == startDir && this.start == start
    {
      workingDir := new char[MAX_PATH + 4];
      this.startDir := startDir;
      this.start := start;
      working := "/";
      new;
      workingDir[0], workingDir[1] := '/', NUL;
      RenderedTarget([]);
      SlashedStays("/");
    }

    method BuildVirtualPath(asked: array?<char>, ghost text: string) returns (buffer: array?<char>)
      requires Valid() && (asked != null ==> asked != workingDir && asked != startDir && IsText(asked, text))
      modifies asked
      ensures Valid()
      ensures buffer == null <==> |Render(Destination(working, TextOf(asked, text)))| > MAX_PATH
      ensures buffer != null ==>
        && fresh(buffer) && IsText(buffer, Render(Destination(working, TextOf(asked, text))))
        && VirtualPath(working, TextOf(asked, text)) == Some(Render(Destination(working, TextOf(asked, text))))
    {
      hide Split, Walk, Join, Render, Destination, NormalForm, Target, Kept;
      VirtualLeads(working, TextOf(asked, text));
      var out := new char[MAX_PATH + 4];
      out[0] := NUL;
      if asked == null {
        var n := Append(out, "", 0, workingDir, working);
        assert "" + working == working;
      } else if asked[0] == '/' {
        var ok, path := SimplifyPath(asked, text);
        var len := StrLen(asked, path, 0);
        if len > MAX_PATH {
          return null;
        }
        var n := Append(out, "", 0, asked, path);
        assert "" + path == path;
      } else {
        PrintPath(out, workingDir, working, asked, text);
        ghost var whole := Cut(working + "/" + text, MAX_PATH + 3);
        var ok, path := SimplifyPath(out, whole);
        var len := StrLen(out, path, 0);
        if len > MAX_PATH {
          return null;
        }
      }
      return out;
    }

    // A start directory that is not absolute still gives a path that fits, or none.
    method BuildPath(asked: array?<char>, ghost text: string)
      returns (buffer: array?<char>, virtual: array?<char>, ghost path: string)
      requires Valid() && (asked != null ==> asked != workingDir && asked != startDir && IsText(asked, text))
      modifies asked
      ensures Valid()
      ensures startDir == null || |Render(Destination(working, TextOf(asked, text)))| > MAX_PATH ==> buffer == null
      ensures startDir != null && Absolute(start) ==>
        (buffer == null <==> RealPath(start, working, TextOf(asked, text)).None?)
      ensures buffer != null ==>
        && fresh(buffer) && IsText(buffer, path) && |path| <= MAX_PATH
        && VirtualPath(working, TextOf(asked, text)) == Some(Render(Destination(working, TextOf(asked, text))))
        && virtual != null && fresh(virtual) && IsText(virtual, Render(Destination(working, TextOf(asked, text))))
        && (Absolute(start) ==> RealPath(start, working, TextOf(asked, text)) == Some(path))
    {
      hide Split, Walk, Join, Render, Destination;
      VirtualLeads(working, TextOf(asked, text));
      path := "";
      if startDir == null {
        return null, null, "";
      }
      virtual := BuildVirtualPath(asked, text);
      if virtual == null {
        return null, null, "";
      }
      ghost var v := VirtualPath(working, TextOf(asked, text)).value;
      buffer := new char[MAX_PATH + 4];
      PrintPath(buffer, startDir, start, virtual, v);
      ghost var whole := Cut(start + "/" + v, MAX_PATH + 3);
      var ok;
      ok, path := SimplifyPath(buffer, whole);
      var len := StrLen(buffer, path, 0);
      if len > MAX_PATH {
        return null, null, "";
      }
    }

    // CWD: moves to the asked directory when its path can be built and the disk has it.
    method ChangeDirectory(asked: array<char>, ghost text: string, isDirectory: bool) returns (ok: bool)
      requires Valid() && asked != workingDir && asked != startDir && IsText(asked, text)
      modifies this, workingDir, asked
      ensures Valid()
      ensures ok ==> isDirectory && startDir != null && |Render(Destination(old(working), Some(text)))| <= MAX_PATH
      ensures startDir != null && Absolute(start) ==>
        (ok <==> isDirectory && RealPath(start, old(working), Some(text)).Some?)
      ensures working == if ok then Render(Destination(old(working), Some(text))) else old(working)
      ensures ok ==> Target(working) == Destination(old(working), Some(text))
    {
      hide Split, Walk, Join, Render, Destination;
      VirtualLeads(working, Some(text));
      var buffer, virtual, path := BuildPath(asked, text);
      if buffer == null || !isDirectory {
        return false;
      }
      VirtualIsNormal(working, Some(text));
      ghost var v := VirtualPath(working, Some(text)).value;
      workingDir[0] := NUL;
      var n := Append(workingDir, "", 0, virtual, v);
      assert "" + v == v;
      working := v;
      return true;
    }

    // CDUP: appends "/.." in place and simplifies.
    method ChangeToParent()
      requires Valid()
      modifies this, workingDir
      ensures Valid() && Target(working) == Parent(Target(old(working)))
    {
      hide Split, Walk, Join;
      var up := new char[4];
      up[0], up[1], up[2], up[3] := '/', '.', '.', NUL;
      assert IsText(up, "/..");
      var len := StrLen(workingDir, working, 0);
      var n := Append(workingDir, working, len, up, "/..");
      ghost var whole := working + "/..";
      var ok, path := SimplifyPath(workingDir, whole);
      ParentTarget(working);
      NormalFormStable(whole);
      working := path;
    }
  }

  function Parent(stack: seq<Segment>): seq<Segment> {
    if stack == [] then [] else stack[..|stack| - 1]
  }

  lemma ParentShorter(stack: seq<Segment>)
    ensures |Render(Parent(stack))| <= |Render(stack)|
  {
    if stack != [] {
      assert stack == Parent(stack) + [stack[|stack| - 1]];
      LastPiece(Parent(stack), stack[|stack| - 1]);
    }
  }

  lemma EnterParent(stack: seq<Segment>)
    ensures Walk(stack, [".."]) == Parent(stack)
  {
    assert [".."][1..] == [];
  }

  lemma ParentTarget(s: string)
    requires Absolute(s) && NormalForm(s) == s
    ensures var up := s + "/..";
            Absolute(up) && Target(up) == Parent(Target(s)) && |NormalForm(up)| <= |s|
  {
    hide Split, Walk, Join;
    NormalIsClean(s);
    SlashedConcat(s, "/..");
    SlashedStays("/..");
    SplitAround(s, "..", "");
    SplitEmpty();
    assert s + "/" + ".." + "" == s + "/.." && Split(s) + [".."] + [] == Split(s) + [".."];
    WalkConcat([], Split(s), [".."]);
    EnterParent(Target(s));
    ParentShorter(Target(s));
  }
}
