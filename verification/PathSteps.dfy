/** What each rewrite of the path simplifier does to the segments of a text that
    starts with a slash: why it keeps the directory the path leads to. */
module PathSteps {
  import opened Sequences
  import opened CString
  import opened Paths

  // "/.." as a whole segment.
  predicate ParentAt(text: string, i: nat) {
    OccursAt(text, "/..", i) && (i + 3 == |text| || text[i + 3] == '/')
  }

  predicate NoParentBefore(text: string, hi: nat) {
    forall i: nat :: i < hi ==> !ParentAt(text, i)
  }

  predicate InnerFilled(segs: seq<Segment>) {
    forall k :: 0 <= k < |segs| - 1 ==> segs[k] != ""
  }

  predicate NoInnerDot(segs: seq<Segment>) {
    forall k :: 0 <= k < |segs| - 1 ==> segs[k] != "."
  }

  // No "." and, except at the end, no empty segment.
  predicate Tidy(segs: seq<Segment>) {
    InnerFilled(segs) && forall k :: 0 <= k < |segs| ==> segs[k] != "."
  }

  lemma TidyParts(segs: seq<Segment>)
    requires InnerFilled(segs) && NoInnerDot(segs) && segs != [] && segs[|segs| - 1] != "."
    ensures Tidy(segs)
  {
  }

  // Where a segment of a text stands.
  lemma SegmentAt(text: string, k: nat) returns (i: nat)
    requires Rooted(text) && k < |Split(text)|
    ensures var seg := Split(text)[k];
            var end := i + 1 + |seg|;
            && end <= |text| && text[i..end] == "/" + seg
            && (end == |text| || text[end] == '/') && (k < |Split(text)| - 1 <==> end < |text|)
  {
    var segs := Split(text);
    JoinSplit(text);
    i := |Join(segs[..k])|;
    var rest := Join(segs[k + 1..]);
    assert segs == segs[..k] + [segs[k]] + segs[k + 1..];
    JoinConcat(segs[..k] + [segs[k]], segs[k + 1..]);
    JoinConcat(segs[..k], [segs[k]]);
    assert Join([segs[k]]) == "/" + segs[k] + Join([]) == "/" + segs[k];
    SplitJoin(segs[k + 1..]);
    assert text == Join(segs[..k]) + ("/" + segs[k]) + rest;
  }

  // A text cut at two slashes around one segment.
  lemma SplitAround(x: string, seg: Segment, y: string)
    requires Rooted(x) && SlashFree(seg) && Rooted(y)
    ensures Rooted(x + "/" + seg + y)
    ensures Split(x + "/" + seg + y) == Split(x) + [seg] + Split(y)
  {
    hide Split;
    SplitOne(seg);
    SplitConcat(x, "/" + seg);
    SplitConcat(x + ("/" + seg), y);
    assert x + "/" + seg + y == x + ("/" + seg) + y;
  }

  // Replacing "/seg/" by "/" when the segment is empty or ".".
  lemma IdleStep(text: string, seg: Segment, a: nat)
    requires Rooted(text) && (seg == "" || seg == ".") && OccursAt(text, "/" + seg + "/", a)
    ensures var x, y := text[..a], text[a + 1 + |seg|..];
            && Rooted(x) && Rooted(y) && y != "" && Rooted(x + y) && Leads(x + y) == Leads(text)
            && (InnerFilled(Split(text)) ==> InnerFilled(Split(x + y)))
  {
    var x, y := text[..a], text[a + 1 + |seg|..];
    var pat := "/" + seg + "/";
    assert pat[0] == '/' && pat[1 + |seg|] == '/' && pat[1..1 + |seg|] == seg;
    assert text[a..a + |pat|][0] == text[a] && text[a..a + |pat|][1 + |seg|] == text[a + 1 + |seg|];
    assert text[a..a + |pat|][1..1 + |seg|] == text[a + 1..a + 1 + |seg|];
    assert text == x + "/" + seg + y;
    SplitAround(x, seg, y);
    SplitConcat(x, y);
    DropIdle(Split(x), seg, Split(y));
    if InnerFilled(Split(text)) {
      SubFilled(Split(x), [seg], Split(y));
    }
  }

  // Taking out segments before the last one.
  lemma SubFilled(x: seq<Segment>, m: seq<Segment>, y: seq<Segment>)
    requires InnerFilled(x + m + y) && y != []
    ensures InnerFilled(x + y)
  {
    var segs := x + m + y;
    forall k | 0 <= k < |x + y| - 1 ensures (x + y)[k] != "" {
      if k < |x| {
        assert segs[k] == x[k];
      } else {
        assert segs[k + |m|] == y[k - |x|];
      }
    }
  }

  // When "/seg/" no longer occurs, no segment but the last can be `seg`.
  lemma IdleAbsent(text: string, seg: Segment)
    requires Rooted(text) && NoneIn(text, "/" + seg + "/", 0, |text|)
    ensures forall k :: 0 <= k < |Split(text)| - 1 ==> Split(text)[k] != seg
  {
    forall k | 0 <= k < |Split(text)| - 1 ensures Split(text)[k] != seg {
      if Split(text)[k] == seg {
        var i := SegmentAt(text, k);
        var end := i + 1 + |seg|;
        assert text[i..end + 1] == text[i..end] + [text[end]] == "/" + seg + "/";
        assert OccursAt(text, "/" + seg + "/", i);
      }
    }
  }

  // Cutting the "." of a final "/.".
  lemma FinalDotStep(text: string)
    requires Rooted(text) && 2 <= |text| && text[|text| - 2..] == "/."
    ensures var cut := text[..|text| - 1];
            && Rooted(cut) && Leads(cut) == Leads(text)
            && (InnerFilled(Split(text)) ==> InnerFilled(Split(cut)))
            && (NoInnerDot(Split(text)) ==> NoInnerDot(Split(cut)))
  {
    hide Split, Walk, InnerFilled, NoInnerDot;
    var x := text[..|text| - 2];
    assert text[|text| - 2..][0] == text[|text| - 2] && text[|text| - 2..][1] == text[|text| - 1];
    assert text == x + "/" + "." + "" && text[..|text| - 1] == x + "/" + "" + "";
    SplitAround(x, ".", "");
    SplitAround(x, "", "");
    DropIdle(Split(x), ".", []);
    DropIdle(Split(x), "", []);
    SplitEmpty();
    assert Split(x) + ["."] + [] == Split(x) + ["."] && Split(x) + [""] + [] == Split(x) + [""];
    SameInner(Split(x), ".", "");
  }

  lemma SameInner(x: seq<Segment>, last: Segment, other: Segment)
    ensures InnerFilled(x + [last]) ==> InnerFilled(x + [other])
    ensures NoInnerDot(x + [last]) ==> NoInnerDot(x + [other])
  {
    assert forall k :: 0 <= k < |x| ==> (x + [last])[k] == (x + [other])[k];
  }

  // A last segment "." stands at the very end.
  lemma FinalDotAt(text: string)
    requires Rooted(text) && text != "" && Split(text)[|Split(text)| - 1] == "."
    ensures 2 <= |text| && OccursAt(text, "/.", |text| - 2)
  {
    var i := SegmentAt(text, |Split(text)| - 1);
    assert text[i..i + 2] == "/" + "." == "/.";
  }

  lemma ParentHere(text: string, b: nat, a: nat)
    requires b < a <= |text| && text[b] == '/' && (a == |text| || text[a] == '/') && text[b + 1..a] == ".."
    ensures ParentAt(text, b)
  {
    assert text[b..b + 3] == "/" + text[b + 1..a] == "/..";
  }

  // A text around "/name/..".
  lemma SplitPair(x: string, name: Segment, y: string)
    requires Rooted(x) && SlashFree(name) && Rooted(y)
    ensures var text := x + "/" + name + "/.." + y;
            Rooted(text) && Split(text) == Split(x) + [name, ".."] + Split(y)
    ensures Rooted(x + y) && Split(x + y) == Split(x) + Split(y)
  {
    hide Split;
    SplitAround("", "..", y);
    assert "" + "/" + ".." + y == "/.." + y;
    SplitAround(x, name, "/.." + y);
    assert x + "/" + name + ("/.." + y) == x + "/" + name + "/.." + y;
    SplitConcat(x, y);
    SplitEmpty();
    assert Split(x) + [name] + ([] + [".."] + Split(y)) == Split(x) + [name, ".."] + Split(y);
  }

  lemma SplitEmpty()
    ensures Split("") == []
  {
  }

  // Removing "/name/..".
  lemma PairStep(text: string, b: nat, a: nat)
    requires Rooted(text) && Tidy(Split(text)) && ParentAt(text, a) && NoParentBefore(text, a)
    requires b < a && text[b] == '/' && forall i :: b < i < a ==> text[i] != '/'
    ensures var x, y := text[..b], text[a + 3..];
            && Rooted(x + y) && Leads(x + y) == Leads(text) && Tidy(Split(x + y))
  {
    hide Split, Walk, Tidy;
    var x, name, y := text[..b], text[b + 1..a], text[a + 3..];
    Spelled(text, a);
    if name == ".." {
      ParentHere(text, b, a);
    }
    assert forall k :: 0 <= k < |name| ==> name[k] == text[b + 1 + k];
    assert text == x + "/" + name + "/.." + y;
    SplitPair(x, name, y);
    assert Split(text) == Split(x) + [name, ".."] + Split(y) == Split(x) + [name] + ([".."] + Split(y));
    TidyInner(Split(x), name, [".."] + Split(y));
    DropPair(Split(x), name, Split(y));
    SubTidy(Split(x), [name, ".."], Split(y));
  }

  lemma Spelled(text: string, a: nat)
    requires ParentAt(text, a)
    ensures text[a] == '/' && text[a + 1] == '.' && text[a + 2] == '.'
  {
    assert text[a..a + 3][0] == text[a] && text[a..a + 3][1] == text[a + 1] && text[a..a + 3][2] == text[a + 2];
  }

  lemma TidyInner(x: seq<Segment>, name: Segment, y: seq<Segment>)
    requires Tidy(x + [name] + y) && y != []
    ensures name != "" && name != "."
  {
    assert (x + [name] + y)[|x|] == name;
  }

  // Tidiness survives taking out inner segments.
  lemma SubTidy(x: seq<Segment>, m: seq<Segment>, y: seq<Segment>)
    requires Tidy(x + m + y) && m != []
    ensures Tidy(x + y)
  {
    var segs := x + m + y;
    forall k | 0 <= k < |x + y| ensures (x + y)[k] != "." && (k < |x + y| - 1 ==> (x + y)[k] != "") {
      if k < |x| {
        assert segs[k] == x[k];
      } else {
        assert segs[k + |m|] == y[k - |x|];
      }
    }
  }

  // Removing "/.." from the front.
  lemma RootStep(text: string)
    requires Rooted(text) && Tidy(Split(text)) && ParentAt(text, 0)
    ensures Rooted(text[3..]) && Leads(text[3..]) == Leads(text) && Tidy(Split(text[3..]))
  {
    var y := text[3..];
    assert text == "" + "/" + ".." + y;
    SplitAround("", "..", y);
    DropRootParent(Split(y));
    assert [] + [".."] + Split(y) == [".."] + Split(y);
    SubTidy([], [".."], Split(y));
    assert [] + Split(y) == Split(y);
  }

  // "/" leads to the root, as the empty text does.
  lemma RootText()
    ensures Tidy(Split("/")) && Leads("/") == Leads("") == []
  {
    SplitOne("");
    assert "/" + "" == "/";
    assert [""][1..] == [];
  }

  lemma NoParentSegment(text: string, k: nat)
    requires Rooted(text) && NoParentBefore(text, |text|) && k < |Split(text)|
    ensures Split(text)[k] != ".."
  {
    hide Split;
    var i := SegmentAt(text, k);
    if Split(text)[k] == ".." {
      ParentHere(text, i, i + 3);
    }
  }

  // With every other rewrite exhausted, only a final slash separates a text from its normal form.
  lemma FinalForm(text: string)
    requires text != "" && Rooted(text) && Tidy(Split(text)) && NoParentBefore(text, |text|)
    ensures Render(Leads(text))
         == if |text| > 1 && text[|text| - 1] == '/' then text[..|text| - 1] else text
  {
    hide Split, Walk, Tidy;
    JoinSplit(text);
    forall k | 0 <= k < |Split(text)| ensures Split(text)[k] != ".." {
      NoParentSegment(text, k);
    }
    FinalSegments(Split(text), text);
  }

  lemma LastPiece(names: seq<Segment>, last: Segment)
    ensures Join(names + [last]) == Join(names) + ("/" + last)
  {
    JoinConcat(names, [last]);
    assert Join([last]) == "/" + last + Join([]) == "/" + last;
  }

  lemma EndsInName(names: seq<Segment>, last: Segment)
    requires AllNames(names) && IsName(last) && SlashFree(last)
    ensures var text := Join(names + [last]);
            text != "" && text[|text| - 1] != '/' && Render(Resolve(names + [last])) == text
  {
    LastPiece(names, last);
    hide Walk, Join;
    assert AllNames(names + [last]);
    WalkNames([], names + [last]);
    assert [] + (names + [last]) == names + [last];
    var text := Join(names + [last]);
    assert text[|text| - 1] == last[|last| - 1];
  }

  lemma EndsInSlash(names: seq<Segment>)
    requires AllNames(names)
    ensures var text := Join(names + [""]);
            && text == Join(names) + "/" && (names == [] <==> Join(names) == "")
            && Resolve(names + [""]) == names
  {
    LastPiece(names, "");
    hide Walk;
    DropIdle(names, "", []);
    WalkNames([], names);
    assert names + [""] + [] == names + [""] && names + [] == names == [] + names;
  }

  lemma FinalSegments(segs: seq<Segment>, text: string)
    requires segs != [] && Tidy(segs) && AllSlashFree(segs) && forall k :: 0 <= k < |segs| ==> segs[k] != ".."
    requires text == Join(segs) && text != ""
    ensures Render(Resolve(segs))
         == if |text| > 1 && text[|text| - 1] == '/' then text[..|text| - 1] else text
  {
    hide Walk, Join;
    var n := |segs| - 1;
    assert segs == segs[..n] + [segs[n]];
    if segs[n] == "" {
      EndsInSlash(segs[..n]);
    } else {
      EndsInName(segs[..n], segs[n]);
    }
  }
}
