/** CFtpServer's in-place path simplifier: its passes over the buffer, one method each.
    Every pass is safe on every text; on a rooted one it keeps where the path leads. */
module CFtpServer {
  import opened Sequences
  import opened Formula
  import opened CString
  import opened Paths
  import opened PathSteps

  // isalpha in the "C" locale.
  predicate IsAlpha(c: char) {
    'a' <= c <= 'z' || 'A' <= c <= 'Z'
  }

  // A rewrite of a rooted text that keeps where it leads.
  ghost predicate Keeps(text: string, out: string) {
    text != "" && out != "" && |out| <= |text|
    && (text[0] == '/' ==> out[0] == '/' && Leads(out) == Leads(text))
  }

  method TurnBackslashes(p: array<char>, ghost text: string)
    requires IsText(p, text)
    modifies p
    ensures IsText(p, Slashed(text))
  {
    ghost var turned := Slashed(text);
    hide Slashed;
    var a := 0;
    while p[a] != NUL
      invariant a <= |text| < p.Length && p[|text|] == NUL
      invariant forall k :: 0 <= k < a ==> p[k] == turned[k]
      invariant forall k :: a <= k < |text| ==> p[k] == text[k]
      decreases |text| - a
    {
      if p[a] == '\\' {
        p[a] := '/';
      }
      a := a + 1;
    }
  }

  // Every "/seg/" becomes "/", for the empty segment and for ".".
  method DropIdleSegments(p: array<char>, ghost text: string, seg: Segment) returns (ghost out: string)
    requires IsText(p, text) && text != "" && (seg == "" || seg == ".")
    modifies p
    ensures IsText(p, out) && Keeps(text, out)
    ensures text[0] == '/' ==> forall k :: 0 <= k < |Split(out)| - 1 ==> Split(out)[k] != seg
    ensures text[0] == '/' && InnerFilled(Split(text)) ==> InnerFilled(Split(out))
  {
    hide Split, Walk;
    out := text;
    var pat := "/" + seg + "/";
    var a: Option<nat> := StrStr(p, out, pat, 0);
    while a.Some?
      invariant IsText(p, out) && Keeps(text, out)
      invariant a.Some? ==> OccursAt(out, pat, a.value)
      invariant a.None? ==> NoneIn(out, pat, 0, |out|)
      invariant text[0] == '/' && InnerFilled(Split(text)) ==> InnerFilled(Split(out))
      decreases |out|
    {
      var len := StrLen(p, out, a.value + |seg|);
      if out[0] == '/' {
        IdleStep(out, seg, a.value);
      }
      CloseGap(p, out, a.value, a.value + 1 + |seg|, len);
      out := out[..a.value] + out[a.value + 1 + |seg|..];
      a := StrStr(p, out, pat, 0);
    }
    if out[0] == '/' {
      IdleAbsent(out, seg);
    }
  }

  // "./" and "../" at the front; a rooted text has neither.
  method DropLeadingDots(p: array<char>, ghost text: string) returns (ghost out: string)
    requires IsText(p, text) && text != ""
    modifies p
    ensures IsText(p, out) && Keeps(text, out) && (text[0] == '/' ==> out == text)
  {
    hide Split, Walk;
    out := text;
    var here := StartsAt(p, out, "./", 0);
    if here {
      assert out[0..2][0] == '.' && out[0..2][1] == '/';
      var len := StrLen(p, out, 0);
      CloseGap(p, out, 0, 1, len);
      out := out[..0] + out[1..];
    }
    here := StartsAt(p, out, "../", 0);
    if here {
      assert out[0..3][0] == '.' && out[0..3][2] == '/';
      var len := StrLen(p, out, 1);
      CloseGap(p, out, 0, 2, len);
      out := out[..0] + out[2..];
    }
  }

  // Rewritten at the end only: what held of the inner segments still holds.
  ghost predicate KeepsInner(text: string, out: string) {
    Keeps(text, out)
    && (text[0] == '/' && InnerFilled(Split(text)) ==> InnerFilled(Split(out)))
    && (text[0] == '/' && NoInnerDot(Split(text)) ==> NoInnerDot(Split(out)))
  }

  ghost predicate NoFinalDot(text: string) {
    forall i: nat :: OccursAt(text, "/.", i) ==> i + 2 < |text|
  }

  lemma SlashEnds(text: string)
    requires text != "" && text[|text| - 1] == '/'
    ensures NoFinalDot(text)
  {
    forall i: nat | OccursAt(text, "/.", i)
      ensures i + 2 < |text|
    {
      assert text[i..i + 2][1] == text[i + 1];
    }
  }

  lemma TidyEnd(text: string, out: string)
    requires KeepsInner(text, out) && NoFinalDot(out)
    ensures text[0] == '/' && InnerFilled(Split(text)) && NoInnerDot(Split(text)) ==> Tidy(Split(out))
  {
    if text[0] == '/' && InnerFilled(Split(text)) && NoInnerDot(Split(text)) {
      if Split(out)[|Split(out)| - 1] == "." {
        FinalDotAt(out);
      }
      TidyParts(Split(out));
    }
  }

  // A "/." at the very end loses its dot.
  method CutFinalDot(p: array<char>, ghost text: string, a: nat) returns (ghost out: string)
    requires IsText(p, text) && a + 2 == |text| && OccursAt(text, "/.", a)
    modifies p
    ensures IsText(p, out) && KeepsInner(text, out) && out == text[..a + 1] && NoFinalDot(out)
  {
    hide Split, Walk, InnerFilled, NoInnerDot, NoFinalDot;
    assert text[a..a + 2] == text[a..] && text[a..a + 2][0] == text[a];
    if text[0] == '/' {
      FinalDotStep(text);
    }
    Terminate(p, text, a + 1);
    out := text[..a + 1];
    SlashEnds(out);
  }

  method DropFinalDot(p: array<char>, ghost text: string) returns (ghost out: string)
    requires IsText(p, text) && text != ""
    modifies p
    ensures IsText(p, out) && Keeps(text, out)
    ensures text[0] == '/' && InnerFilled(Split(text)) && NoInnerDot(Split(text)) ==> Tidy(Split(out))
  {
    hide Split, Walk, Leads, InnerFilled, NoInnerDot, Tidy;
    out := text;
    var at: Option<nat> := StrStr(p, out, "/.", 0);
    if at.Some? && p[at.value + 2] == NUL {
      out := CutFinalDot(p, out, at.value);
    }
    var a := 0;
    at := StrStr(p, out, "/.", a);
    while at.Some?
      invariant IsText(p, out) && KeepsInner(text, out) && a <= |out|
      invariant at.Some? ==> a <= at.value && OccursAt(out, "/.", at.value)
      invariant forall i: nat :: OccursAt(out, "/.", i) && (at.Some? ==> i < at.value) ==> i + 2 < |out|
      decreases |out|, |out| - a
    {
      a := at.value;
      if p[a + 2] == NUL {
        out := CutFinalDot(p, out, a);
      } else {
        a := a + 1;
      }
      at := StrStr(p, out, "/.", a);
    }
    TidyEnd(text, out);
  }

  // The last slash before `a`, or the start of the text.
  method ScanBack(p: array<char>, ghost text: string, a: nat) returns (b: nat)
    requires IsText(p, text) && 0 < a <= |text|
    ensures b < a && (b == 0 || text[b] == '/') && forall i :: b < i < a ==> text[i] != '/'
  {
    b := a - 1;
    while p[b] != '/' && b != 0
      invariant b < a && forall i :: b < i < a ==> text[i] != '/'
      decreases b
    {
      b := b - 1;
    }
  }

  // One "/.." with something before it: the segment before it goes too.
  method StepBack(p: array<char>, ghost text: string, a: nat, ghost rooted: bool) returns (ghost out: string)
    requires IsText(p, text) && 0 < a && ParentAt(text, a)
    requires rooted ==> text[0] == '/' && Tidy(Split(text)) && NoParentBefore(text, a)
    modifies p
    ensures IsText(p, out) && 0 < |out| < |text|
    ensures rooted ==> Keeps(text, out) && Tidy(Split(out))
  {
    hide Split, Walk, Tidy;
    var b := ScanBack(p, text, a);
    if rooted {
      PairStep(text, b, a);
      RootText();
    }
    var len := StrLen(p, text, a + 3);
    if p[b] == '/' {
      if b == 0 || (b == 2 && IsAlpha(p[0]) && p[1] == ':') {
        if p[a + 3] == '/' {
          CloseGap(p, text, b, a + 3, len + 1);
          out := text[..b] + text[a + 3..];
        } else {
          Terminate(p, text, b + 1);
          out := text[..b + 1];
          assert b == 0 ==> out == "/" && text[..b] + text[a + 3..] == "";
        }
      } else {
        CloseGap(p, text, b, a + 3, len + 1);
        out := text[..b] + text[a + 3..];
      }
    } else if p[a + 3] == '/' {
      CloseGap(p, text, a, a + 3, len + 1);
      out := text[..a] + text[a + 3..];
    } else {
      Terminate(p, text, a + 1);
      out := text[..a + 1];
    }
  }

  method DropParents(p: array<char>, ghost text: string, ghost rooted: bool) returns (ghost out: string)
    requires IsText(p, text) && text != ""
    requires rooted ==> text[0] == '/' && Tidy(Split(text))
    modifies p
    ensures IsText(p, out) && 0 < |out| <= |text|
    ensures rooted ==> Keeps(text, out) && Tidy(Split(out)) && NoParentBefore(out, |out|)
  {
    hide Split, Walk, Tidy;
    out := text;
    var a: Option<nat> := Some(0);
    while a.Some?
      invariant IsText(p, out) && 0 < |out| <= |text|
      invariant rooted ==> Keeps(text, out) && Tidy(Split(out))
      invariant a.Some? ==> a.value <= |out| && NoParentBefore(out, a.value)
      invariant a.None? ==> NoParentBefore(out, |out|)
      decreases |out|, if a.Some? then 1 + |out| - a.value else 0
    {
      var from: nat := a.value;
      a := StrStr(p, out, "/..", from);
      if a.None? {
        break;
      }
      if p[a.value + 3] == '/' || p[a.value + 3] == NUL {
        assert ParentAt(out, a.value);
        if a.value == 0 {
          if rooted {
            RootText();
            RootStep(out);
          }
          if p[3] == '/' {
            var len := StrLen(p, out, 2);
            CloseGap(p, out, 0, 3, len);
            assert out[..0] + out[3..] == out[3..];
            out := out[3..];
          } else {
            Terminate(p, out, 1);
            assert out[..1] == "/" && out[3..] == "";
            out := "/";
            break;
          }
        } else {
          out := StepBack(p, out, a.value, rooted);
          a := StrStr(p, out, "/..", 0);
        }
      } else {
        a := Some(a.value + 1);
      }
    }
  }

  // A final slash goes, except after the root or a drive.
  method DropFinalSlash(p: array<char>, ghost text: string) returns (ghost out: string)
    requires IsText(p, text) && text != ""
    modifies p
    ensures IsText(p, out) && out != "" && |out| <= |text|
    ensures text[0] == '/' ==> out == if |text| > 1 && text[|text| - 1] == '/' then text[..|text| - 1] else text
  {
    out := text;
    var len := StrLen(p, text, 0);
    if IsAlpha(p[0]) && p[1] == ':' && p[2] == '/' {
      if len > 3 && p[len - 1] == '/' {
        Terminate(p, text, len - 1);
        out := text[..len - 1];
      }
    } else if p[0] == '/' {
      if len > 1 && p[len - 1] == '/' {
        Terminate(p, text, len - 1);
        out := text[..len - 1];
      }
    } else if p[len - 1] == '/' {
      Terminate(p, text, len - 1);
      out := text[..len - 1];
    }
  }

  // What would be left of nothing but dots, or of nothing, becomes the root.
  method ReplaceDots(p: array<char>, ghost text: string) returns (ghost out: string)
    requires IsText(p, text) && text != ""
    modifies p
    ensures IsText(p, out) && out != "" && |out| <= |text| && (text[0] == '/' ==> out == text)
  {
    out := text;
    var parent := StartsAt(p, text, "..", 0);
    var self := StartsAt(p, text, ".", 0);
    if p[0] == NUL || (parent && p[2] == NUL) || (self && p[1] == NUL) {
      p[0] := '/';
      p[1] := NUL;
      out := "/";
    }
  }

  // Safe and terminating on every text; an absolute path becomes its normal form.
  method SimplifyPath(p: array?<char>, ghost text: string) returns (ok: bool, ghost out: string)
    requires p != null ==> IsText(p, text)
    modifies p
    ensures ok <==> p != null && text != ""
    ensures p != null ==> IsText(p, out) && |out| <= |text| && (text != "" ==> out != "")
    ensures ok && Absolute(text) ==> out == NormalForm(text)
  {
    hide Split, Walk, Tidy, Join;
    out := text;
    if p == null || p[0] == NUL {
      return false, text;
    }
    TurnBackslashes(p, text);
    out := Slashed(text);
    out := DropIdleSegments(p, out, "");
    out := DropIdleSegments(p, out, ".");
    out := DropLeadingDots(p, out);
    out := DropFinalDot(p, out);
    ghost var rooted := out[0] == '/' && Absolute(text);
    out := DropParents(p, out, rooted);
    if rooted {
      FinalForm(out);
    }
    out := DropFinalSlash(p, out);
    out := ReplaceDots(p, out);
    ok := true;
  }
}
