/** C strings in place: a NUL-terminated text at the front of a character
    buffer, and the library calls the path code makes on it. */
module CString {
  import opened Sequences
  import opened Formula

  const NUL := '\0'

  predicate NoNul(s: string) {
    forall k :: 0 <= k < |s| ==> s[k] != NUL
  }

  // The buffer holds `text`, terminated; what lies behind the terminator does not matter.
  predicate IsText(p: array<char>, text: string)
    reads p
  {
    && |text| < p.Length && p[|text|] == NUL && NoNul(text)
    && forall k :: 0 <= k < |text| ==> p[k] == text[k]
  }

  // No occurrence starts in the given range.
  predicate NoneIn(text: string, pat: string, lo: nat, hi: nat) {
    forall i: nat :: lo <= i < hi ==> !OccursAt(text, pat, i)
  }

  method StrLen(p: array<char>, ghost text: string, from: nat) returns (n: nat)
    requires IsText(p, text) && from <= |text|
    ensures n == |text| - from
  {
    n := 0;
    while p[from + n] != NUL
      invariant from + n <= |text|
      decreases |text| - n
    {
      n := n + 1;
    }
  }

  // Whether the pattern stands at `i`; compares no further than the first difference.
  method StartsAt(p: array<char>, ghost text: string, pat: string, i: nat) returns (b: bool)
    requires IsText(p, text) && i <= |text| && NoNul(pat)
    ensures b <==> OccursAt(text, pat, i)
  {
    var k := 0;
    while k < |pat|
      invariant k <= |pat| && i + k <= |text| && text[i..i + k] == pat[..k]
    {
      if p[i + k] != pat[k] {
        if i + |pat| <= |text| {
          assert text[i..i + |pat|][k] == text[i + k];
        }
        return false;
      }
      assert i + k < |text| && text[i..i + k + 1] == text[i..i + k] + [text[i + k]];
      k := k + 1;
    }
    assert pat[..k] == pat;
    return true;
  }

  // The first occurrence of the pattern at or after `from`.
  method StrStr(p: array<char>, ghost text: string, pat: string, from: nat) returns (at: Option<nat>)
    requires IsText(p, text) && from <= |text| && pat != "" && NoNul(pat)
    ensures at.Some? ==> from <= at.value && OccursAt(text, pat, at.value) && NoneIn(text, pat, from, at.value)
    ensures at.None? ==> forall i: nat :: from <= i ==> !OccursAt(text, pat, i)
  {
    var i := from;
    while p[i] != NUL
      invariant from <= i <= |text| && NoneIn(text, pat, from, i)
      decreases |text| - i
    {
      var found := StartsAt(p, text, pat, i);
      if found { return Some(i); }
      i := i + 1;
    }
    return None;
  }

  // memmove towards the front.
  method MemMove(p: array<char>, dst: nat, src: nat, count: nat)
    requires dst <= src && src + count <= p.Length
    modifies p
    ensures forall k :: 0 <= k < dst ==> p[k] == old(p[k])
    ensures forall k :: dst <= k < dst + count ==> p[k] == old(p[k + (src - dst)])
  {
    var i := 0;
    while i < count
      invariant i <= count
      invariant forall k :: 0 <= k < dst ==> p[k] == old(p[k])
      invariant forall k :: dst <= k < dst + i ==> p[k] == old(p[k + (src - dst)])
      invariant forall k :: dst + i <= k < p.Length ==> p[k] == old(p[k])
    {
      p[dst + i] := p[src + i];
      i := i + 1;
    }
  }

  // Moves the text from `src` on, its terminator included, down to `dst`.
  method CloseGap(p: array<char>, ghost text: string, dst: nat, src: nat, count: nat)
    requires IsText(p, text) && dst <= src <= |text| && count == |text| - src + 1
    modifies p
    ensures IsText(p, text[..dst] + text[src..])
  {
    MemMove(p, dst, src, count);
    ghost var left := text[..dst] + text[src..];
    forall k | dst <= k < |left| ensures p[k] == left[k] {
      assert left[k] == text[k + (src - dst)];
    }
  }

  method Terminate(p: array<char>, ghost text: string, n: nat)
    requires IsText(p, text) && n <= |text|
    modifies p
    ensures IsText(p, text[..n])
  {
    p[n] := NUL;
  }

  function Cut(s: string, max: nat): string {
    if |s| <= max then s else s[..max]
  }

  // Writes `text` behind what the buffer holds, as far as it fits, and terminates it:
  // strcpy, strncat and the "%s" steps of snprintf.
  method Append(dst: array<char>, ghost done: string, n: nat, src: array<char>, ghost text: string)
    returns (m: nat)
    requires dst != src && IsText(dst, done) && n == |done| && IsText(src, text)
    modifies dst
    ensures IsText(dst, Cut(done + text, dst.Length - 1)) && m == |Cut(done + text, dst.Length - 1)|
  {
    var i := 0;
    while src[i] != NUL && n + i < dst.Length - 1
      invariant i <= |text| && n + i <= dst.Length - 1
      invariant forall k :: 0 <= k < n ==> dst[k] == done[k]
      invariant forall k :: n <= k < n + i ==> dst[k] == text[k - n]
      decreases |text| - i
    {
      dst[n + i] := src[i];
      i := i + 1;
    }
    dst[n + i] := NUL;
    m := n + i;
  }

  lemma CutTwice(a: string, b: string, max: nat)
    ensures Cut(Cut(a, max) + b, max) == Cut(a + b, max)
  {
    assert |a| > max ==> (a + b)[..max] == a[..max] && Cut(a, max) + b == a[..max] + b;
  }

  // A slash behind what the buffer holds, if there is room.
  method AppendSlash(dst: array<char>, ghost done: string, n: nat) returns (m: nat)
    requires IsText(dst, done) && n == |done|
    modifies dst
    ensures IsText(dst, Cut(done + "/", dst.Length - 1)) && m == |Cut(done + "/", dst.Length - 1)|
  {
    m := n;
    if n < dst.Length - 1 {
      dst[n], dst[n + 1] := '/', NUL;
      m := n + 1;
    }
  }

  // snprintf(dst, size, "%s/%s", x, y).
  method PrintPath(dst: array<char>, x: array<char>, ghost xs: string, y: array<char>, ghost ys: string)
    requires dst != x && dst != y && dst.Length > 0 && IsText(x, xs) && IsText(y, ys)
    modifies dst
    ensures IsText(dst, Cut(xs + "/" + ys, dst.Length - 1))
  {
    hide Cut;
    ghost var max: nat := dst.Length - 1;
    dst[0] := NUL;
    var n := Append(dst, "", 0, x, xs);
    assert "" + xs == xs;
    n := AppendSlash(dst, Cut(xs, max), n);
    CutTwice(xs, "/", max);
    n := Append(dst, Cut(xs + "/", max), n, y, ys);
    CutTwice(xs + "/", ys, max);
  }
}
