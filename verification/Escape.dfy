/** Escape-time counting over an image, its histogram, and the palette positions
    computed from the histogram, in exact arithmetic. */
module Escape {
  import opened Formula

  // The fractal: a start point and a step per pixel, and the threshold test.
  type Point(0, !new)

  datatype Fractal = Fractal(start: (nat, nat) -> Point, next: (Point, nat, nat) -> Point, inside: Point -> bool)

  function Orbit(f: Fractal, x: nat, y: nat, n: nat): Point {
    if n == 0 then f.start(x, y) else f.next(Orbit(f, x, y, n - 1), x, y)
  }

  // The orbit leaves the threshold at step n and not before.
  predicate FirstLeaves(f: Fractal, x: nat, y: nat, n: nat) {
    !f.inside(Orbit(f, x, y, n)) && forall k :: 0 <= k < n ==> f.inside(Orbit(f, x, y, k))
  }

  // A pixel's count: the step its orbit first leaves at, or the limit.
  function Count(f: Fractal, x: nat, y: nat, iters: nat): (c: nat)
    ensures c <= iters && forall k :: 0 <= k < c ==> f.inside(Orbit(f, x, y, k))
    ensures c < iters ==> !f.inside(Orbit(f, x, y, c))
  {
    CountFrom(f, x, y, iters, 0)
  }

  function CountFrom(f: Fractal, x: nat, y: nat, iters: nat, n: nat): (c: nat)
    requires n <= iters && forall k :: 0 <= k < n ==> f.inside(Orbit(f, x, y, k))
    ensures n <= c <= iters && forall k :: 0 <= k < c ==> f.inside(Orbit(f, x, y, k))
    ensures c < iters ==> !f.inside(Orbit(f, x, y, c))
    decreases iters - n
  {
    if n == iters || !f.inside(Orbit(f, x, y, n)) then n else CountFrom(f, x, y, iters, n + 1)
  }

  // Below the limit a count says exactly where the orbit first leaves.
  lemma CountMeans(f: Fractal, x: nat, y: nat, iters: nat, k: nat)
    requires k < iters
    ensures Count(f, x, y, iters) == k <==> FirstLeaves(f, x, y, k)
  {
    var c := Count(f, x, y, iters);
    if c < k {
      assert !f.inside(Orbit(f, x, y, c));
    } else if k < c {
      assert f.inside(Orbit(f, x, y, k));
    }
  }

  // ----- The image -----

  // The counts of the pixels scanned before (x, y), column by column.
  function Scan(f: Fractal, iters: nat, height: nat, x: nat, y: nat): (s: seq<nat>)
    requires y <= height
    ensures |s| == x * height + y && forall c :: c in s ==> c <= iters
    decreases x, y
  {
    if y > 0 then Scan(f, iters, height, x, y - 1) + [Count(f, x, y - 1, iters)]
    else if x > 0 then
      assert x * height == (x - 1) * height + height;
      Scan(f, iters, height, x - 1, height)
    else []
  }

  // One pixel, the way the loop counts it: from one, stopping past the limit.
  method CountPixel(f: Fractal, x: nat, y: nat, iters: nat) returns (iteration: nat)
    ensures iteration >= 1
    ensures (if iteration > iters then iters else iteration - 1) == Count(f, x, y, iters)
  {
    var z := f.start(x, y);
    iteration := 1;
    while f.inside(z)
      invariant 1 <= iteration <= iters + 1 && z == Orbit(f, x, y, iteration - 1)
      invariant forall k :: 0 <= k < iteration - 1 ==> f.inside(Orbit(f, x, y, k))
      decreases iters + 1 - iteration
    {
      if iteration > iters {
        break;
      }
      z := f.next(z, x, y);
      iteration := iteration + 1;
    }
    var c := Count(f, x, y, iters);
    if iteration <= iters {
      CountMeans(f, x, y, iters, iteration - 1);
    }
  }

  // The histogram holds how often each count below the limit was seen.
  ghost predicate Tallied(histogram: array<nat>, seen: seq<nat>)
    reads histogram
  {
    forall k :: 0 <= k < histogram.Length ==> histogram[k] == multiset(seen)[k]
  }

  method PassPixel(f: Fractal, iters: nat, image: array2<nat>, histogram: array<nat>, x: nat, y: nat,
                   ghost seen: seq<nat>)
    requires histogram.Length == iters && x < image.Length0 && y < image.Length1 && Tallied(histogram, seen)
    modifies image, histogram
    ensures Tallied(histogram, seen + [Count(f, x, y, iters)])
    ensures image[x, y] == Count(f, x, y, iters)
    ensures forall j :: 0 <= j < image.Length1 && j != y ==> image[x, j] == old(image[x, j])
    ensures forall i, j :: 0 <= i < image.Length0 && 0 <= j < image.Length1 && i != x ==>
      image[i, j] == old(image[i, j])
  {
    var iteration := CountPixel(f, x, y, iters);
    hide Count;
    if iteration > iters {
      image[x, y] := iters;
    } else {
      image[x, y] := iteration - 1;
      histogram[iteration - 1] := histogram[iteration - 1] + 1;
    }
  }

  method PassColumn(f: Fractal, iters: nat, image: array2<nat>, histogram: array<nat>, x: nat)
    requires histogram.Length == iters && x < image.Length0
    requires Tallied(histogram, Scan(f, iters, image.Length1, x, 0))
    modifies image, histogram
    ensures Tallied(histogram, Scan(f, iters, image.Length1, x + 1, 0))
    ensures forall j :: 0 <= j < image.Length1 ==> image[x, j] == Count(f, x, j, iters)
    ensures forall i, j :: 0 <= i < image.Length0 && 0 <= j < image.Length1 && i != x ==>
      image[i, j] == old(image[i, j])
  {
    ghost var height := image.Length1;
    hide *;
    var y := 0;
    while y < image.Length1
      invariant y <= height && Tallied(histogram, Scan(f, iters, height, x, y))
      invariant forall j :: 0 <= j < y ==> image[x, j] == Count(f, x, j, iters)
      invariant forall i, j :: 0 <= i < image.Length0 && 0 <= j < height && i != x ==> image[i, j] == old(image[i, j])
    {
      ScanNext(f, iters, height, x, y);
      PassPixel(f, iters, image, histogram, x, y, Scan(f, iters, height, x, y));
      y := y + 1;
    }
    ScanColumn(f, iters, height, x);
  }

  lemma ScanNext(f: Fractal, iters: nat, height: nat, x: nat, y: nat)
    requires y < height
    ensures Scan(f, iters, height, x, y + 1) == Scan(f, iters, height, x, y) + [Count(f, x, y, iters)]
  {
  }

  lemma ScanColumn(f: Fractal, iters: nat, height: nat, x: nat)
    ensures Scan(f, iters, height, x + 1, 0) == Scan(f, iters, height, x, height)
  {
  }

  method PassAlgoritm(f: Fractal, iters: nat, image: array2<nat>, histogram: array<nat>)
    requires histogram.Length == iters && forall k :: 0 <= k < iters ==> histogram[k] == 0
    modifies image, histogram
    ensures forall x, y :: 0 <= x < image.Length0 && 0 <= y < image.Length1 ==> image[x, y] == Count(f, x, y, iters)
    ensures Tallied(histogram, Scan(f, iters, image.Length1, image.Length0, 0))
  {
    ghost var height := image.Length1;
    assert Tallied(histogram, Scan(f, iters, height, 0, 0));
    hide *;
    var x := 0;
    while x < image.Length0
      invariant x <= image.Length0 && Tallied(histogram, Scan(f, iters, height, x, 0))
      invariant forall i, j :: 0 <= i < x && 0 <= j < height ==> image[i, j] == Count(f, i, j, iters)
    {
      PassColumn(f, iters, image, histogram, x);
      x := x + 1;
    }
  }

  // The pixels scanned before (x, y) that have a count.
  function PixelsWith(f: Fractal, iters: nat, height: nat, x: nat, y: nat, count: nat): set<(nat, nat)> {
    set i: nat, j: nat | i <= x && j < height && (i < x || j < y) && Count(f, i, j, iters) == count :: (i, j)
  }

  lemma OnePixelMore(f: Fractal, iters: nat, height: nat, x: nat, y: nat, count: nat)
    requires 0 < y <= height
    ensures var here := PixelsWith(f, iters, height, x, y, count);
            var before := PixelsWith(f, iters, height, x, y - 1, count);
            |here| == |before| + if Count(f, x, y - 1, iters) == count then 1 else 0
  {
    hide Count;
    var here, before := PixelsWith(f, iters, height, x, y, count), PixelsWith(f, iters, height, x, y - 1, count);
    var last := (x, y - 1);
    forall p | p in here ensures p in before || p == last {
    }
    assert before <= here && last !in before;
    assert last in here <==> Count(f, x, y - 1, iters) == count;
    assert here == if last in here then before + {last} else before;
  }

  // A histogram column is the number of scanned pixels with that count.
  lemma {:induction false} TallyIsPixels(f: Fractal, iters: nat, height: nat, x: nat, y: nat, count: nat)
    requires y <= height
    ensures multiset(Scan(f, iters, height, x, y))[count] == |PixelsWith(f, iters, height, x, y, count)|
    decreases x, y
  {
    hide Count;
    var here := PixelsWith(f, iters, height, x, y, count);
    if y > 0 {
      TallyIsPixels(f, iters, height, x, y - 1, count);
      OnePixelMore(f, iters, height, x, y, count);
    } else if x > 0 {
      TallyIsPixels(f, iters, height, x - 1, height, count);
      assert here == PixelsWith(f, iters, height, x - 1, height, count);
    } else {
      assert here == {};
    }
  }

  // ----- Colour positions -----

  function Sum(s: seq<nat>): nat {
    if s == [] then 0 else Sum(s[..|s| - 1]) + s[|s| - 1]
  }

  function Below(s: seq<nat>, n: nat): (r: seq<nat>)
    ensures |r| <= |s| && forall c :: c in r ==> c in s && c < n
  {
    if s == [] then [] else (if s[0] < n then [s[0]] else []) + Below(s[1..], n)
  }

  lemma {:induction false} BelowNext(s: seq<nat>, n: nat)
    ensures |Below(s, n + 1)| == |Below(s, n)| + multiset(s)[n]
  {
    if s != [] {
      BelowNext(s[1..], n);
      assert s == [s[0]] + s[1..];
    } else {
      assert multiset(s) == multiset{};
    }
  }

  lemma {:induction false} NoneBelow(s: seq<nat>)
    ensures Below(s, 0) == []
  {
    if s != [] {
      NoneBelow(s[1..]);
    }
  }

  // A histogram's first n columns hold the values below n.
  lemma {:induction false} HistogramSum(histogram: seq<nat>, s: seq<nat>, n: nat)
    requires n <= |histogram| && forall k :: 0 <= k < |histogram| ==> histogram[k] == multiset(s)[k]
    ensures Sum(histogram[..n]) == |Below(s, n)| <= |s|
    decreases n
  {
    if n == 0 {
      NoneBelow(s);
    } else {
      HistogramSum(histogram, s, n - 1);
      BelowNext(s, n - 1);
      assert histogram[..n][..n - 1] == histogram[..n - 1];
    }
  }

  // What the colour loop adds up for a count.
  method HistogramPosition(histogram: array<nat>, total: nat, count: nat) returns (position: real)
    requires total > 0 && count <= histogram.Length
    ensures position == Sum(histogram[..count]) as real / total as real
  {
    position := 0.0;
    var i := 0;
    while i < count
      invariant i <= count && position == Sum(histogram[..i]) as real / total as real
    {
      assert histogram[..i + 1][..i] == histogram[..i];
      AddShare(Sum(histogram[..i]), histogram[i], total);
      position := position + histogram[i] as real / total as real;
      i := i + 1;
    }
  }

  lemma AddShare(a: nat, b: nat, total: nat)
    requires total > 0
    ensures a as real / total as real + b as real / total as real == (a + b) as real / total as real
  {
  }

  // The colour a palette of n entries gives a position on [0, 1].
  function PaletteIndex(position: real, n: nat): int
    requires n > 0
  {
    (position * (n - 1) as real + 0.5).Floor
  }

  // A position off the scale gets no entry of the palette.
  method ColorOn1Scale(position: real, n: nat) returns (entry: Option<nat>)
    requires n > 0
    ensures entry.None? <==> position < 0.0 || position > 1.0
    ensures entry.Some? ==> entry.value < n && entry.value == PaletteIndex(position, n)
  {
    if position > 1.0 || position < 0.0 {
      return None;
    }
    IndexInRange(position, n);
    entry := Some(PaletteIndex(position, n));
  }

  // The entry is the nearest one on the scale from the first to the last, halves upwards.
  lemma NearestEntry(position: real, n: nat)
    requires n > 0
    ensures var at, index := position * (n - 1) as real, PaletteIndex(position, n) as real;
            at - 0.5 < index <= at + 0.5
  {
  }

  lemma IndexInRange(position: real, n: nat)
    requires n > 0 && 0.0 <= position <= 1.0
    ensures 0 <= PaletteIndex(position, n) < n
  {
    var top := (n - 1) as real;
    assert 0.0 <= position * top <= top;
  }

  // The scale runs from the first entry to the last, and never back.
  lemma ScaleEnds(n: nat)
    requires n > 0
    ensures PaletteIndex(0.0, n) == 0 && PaletteIndex(1.0, n) == n - 1
  {
  }

  lemma IndexRises(p: real, q: real, n: nat)
    requires n > 0 && p <= q
    ensures PaletteIndex(p, n) <= PaletteIndex(q, n)
  {
    var top := (n - 1) as real;
    assert p * top <= q * top;
  }

  lemma {:induction false} SumRises(s: seq<nat>, a: nat, b: nat)
    requires a <= b <= |s|
    ensures Sum(s[..a]) <= Sum(s[..b])
    decreases b - a
  {
    if a < b {
      assert s[..b][..b - 1] == s[..b - 1];
      SumRises(s, a, b - 1);
    }
  }

  lemma ShareRises(a: nat, b: nat, total: nat)
    requires a <= b && total > 0
    ensures a as real / total as real <= b as real / total as real
  {
  }

  // A higher count's position is no lower.
  lemma PositionsRise(histogram: seq<nat>, total: nat, a: nat, b: nat)
    requires total > 0 && a <= b <= |histogram|
    ensures Sum(histogram[..a]) as real / total as real <= Sum(histogram[..b]) as real / total as real
  {
    SumRises(histogram, a, b);
    ShareRises(Sum(histogram[..a]), Sum(histogram[..b]), total);
  }

  // The pixels of a whole image with a count below the given one.
  function PixelsBelow(f: Fractal, iters: nat, width: nat, height: nat, count: nat): set<(nat, nat)> {
    set i: nat, j: nat | i < width && j < height && Count(f, i, j, iters) < count :: (i, j)
  }

  // The columns before a count add up to the number of pixels with a smaller one.
  lemma {:induction false} SumIsPixels(f: Fractal, iters: nat, width: nat, height: nat, histogram: seq<nat>, count: nat)
    requires |histogram| == iters && count <= iters
    requires forall k :: 0 <= k < iters ==> histogram[k] == multiset(Scan(f, iters, height, width, 0))[k]
    ensures Sum(histogram[..count]) == |PixelsBelow(f, iters, width, height, count)|
    decreases count
  {
    hide Count, Scan;
    if count == 0 {
      assert PixelsBelow(f, iters, width, height, 0) == {};
    } else {
      var last := PixelsWith(f, iters, height, width, 0, count - 1);
      SumIsPixels(f, iters, width, height, histogram, count - 1);
      TallyIsPixels(f, iters, height, width, 0, count - 1);
      assert histogram[..count][..count - 1] == histogram[..count - 1];
      assert PixelsBelow(f, iters, width, height, count)
          == PixelsBelow(f, iters, width, height, count - 1) + last;
      assert PixelsBelow(f, iters, width, height, count - 1) !! last;
    }
  }

  // A pixel's position: the share of the columns before its count.
  function PixelPosition(f: Fractal, iters: nat, histogram: seq<nat>, total: nat, x: nat, y: nat): real
    requires |histogram| == iters && total > 0
  {
    Sum(histogram[..Count(f, x, y, iters)]) as real / total as real
  }

  // A pixel with a higher count gets no earlier a colour.
  lemma HigherCountsLater(f: Fractal, iters: nat, histogram: seq<nat>, total: nat, n: nat,
                          x: nat, y: nat, x': nat, y': nat)
    requires |histogram| == iters && n > 0 && total > 0
    requires Count(f, x, y, iters) <= Count(f, x', y', iters)
    ensures PaletteIndex(PixelPosition(f, iters, histogram, total, x, y), n)
         <= PaletteIndex(PixelPosition(f, iters, histogram, total, x', y'), n)
  {
    PositionsRise(histogram, total, Count(f, x, y, iters), Count(f, x', y', iters));
    hide Count, PaletteIndex, Sum;
    IndexRises(PixelPosition(f, iters, histogram, total, x, y), PixelPosition(f, iters, histogram, total, x', y'), n);
  }

  // In an image's own histogram the position is the share of pixels with a smaller count.
  lemma PositionIsShare(f: Fractal, iters: nat, width: nat, height: nat, histogram: seq<nat>, total: nat,
                        x: nat, y: nat)
    requires |histogram| == iters && total == width * height && total > 0
    requires forall k :: 0 <= k < iters ==> histogram[k] == multiset(Scan(f, iters, height, width, 0))[k]
    ensures PixelPosition(f, iters, histogram, total, x, y)
         == |PixelsBelow(f, iters, width, height, Count(f, x, y, iters))| as real / total as real
  {
    SumIsPixels(f, iters, width, height, histogram, Count(f, x, y, iters));
    hide Count, PixelsBelow, Sum, Scan;
  }

  // For the histogram of an image, every count's position is on [0, 1], and so each
  // picks a colour of the palette.
  lemma PositionsInRange(f: Fractal, iters: nat, width: nat, height: nat, histogram: seq<nat>, count: nat, n: nat)
    requires width > 0 && height > 0 && n > 0 && |histogram| == iters && count <= iters
    requires forall k :: 0 <= k < iters ==> histogram[k] == multiset(Scan(f, iters, height, width, 0))[k]
    ensures width * height > 0
    ensures var position := Sum(histogram[..count]) as real / (width * height) as real;
            0.0 <= position <= 1.0 && 0 <= PaletteIndex(position, n) < n
  {
    assert width * height > 0;
    var s := Scan(f, iters, height, width, 0);
    assert |s| == width * height;
    HistogramSum(histogram, s, count);
    var position := Sum(histogram[..count]) as real / (width * height) as real;
    Share(Sum(histogram[..count]), width * height);
    IndexInRange(position, n);
  }

  lemma Share(a: nat, total: nat)
    requires a <= total && total > 0
    ensures 0.0 <= a as real / total as real <= 1.0
  {
  }

  // ----- Rank order -----

  datatype RankOrder = RankOrder(iter: nat, count: nat)

  // The counts that occur, with how often.
  method Ranks(histogram: array<nat>) returns (v: seq<RankOrder>)
    ensures forall r :: r in v <==> r.iter < histogram.Length && r.count == histogram[r.iter] > 0
    ensures forall i, j :: 0 <= i < j < |v| ==> v[i].iter < v[j].iter
  {
    v := [];
    var i := 0;
    while i < histogram.Length
      invariant i <= histogram.Length
      invariant forall r :: r in v <==> r.iter < i && r.count == histogram[r.iter] > 0
      invariant forall a, b :: 0 <= a < b < |v| ==> v[a].iter < v[b].iter
      invariant forall a :: 0 <= a < |v| ==> v[a] in v
    {
      if histogram[i] > 0 {
        v := v + [RankOrder(i, histogram[i])];
      }
      i := i + 1;
    }
  }

  // A count's place in a ranking, searched from the front.
  method FindRank(v: seq<RankOrder>, count: nat) returns (at: Option<nat>)
    ensures at.Some? ==>
      at.value < |v| && v[at.value].iter == count && forall k :: 0 <= k < at.value ==> v[k].iter != count
    ensures at.None? ==> forall r :: r in v ==> r.iter != count
  {
    var i := 0;
    while i < |v|
      invariant i <= |v| && forall k :: 0 <= k < i ==> v[k].iter != count
    {
      if v[i].iter == count {
        return Some(i);
      }
      i := i + 1;
    }
    return None;
  }

  // However the ranks are sorted, every count some pixel has is among them.
  lemma EscapedIsRanked(f: Fractal, iters: nat, width: nat, height: nat, histogram: seq<nat>, v: seq<RankOrder>,
                        sorted: seq<RankOrder>, x: nat, y: nat)
    requires |histogram| == iters && x < width && y < height && Count(f, x, y, iters) < iters
    requires forall k :: 0 <= k < iters ==> histogram[k] == multiset(Scan(f, iters, height, width, 0))[k]
    requires forall r :: r in v <==> r.iter < iters && r.count == histogram[r.iter] > 0
    requires multiset(sorted) == multiset(v)
    ensures exists i :: 0 <= i < |sorted| && sorted[i].iter == Count(f, x, y, iters)
  {
    var c := Count(f, x, y, iters);
    PixelScanned(f, iters, height, width, 0, x, y);
    assert c in multiset(Scan(f, iters, height, width, 0));
    var r := RankOrder(c, histogram[c]);
    assert r in multiset(v);
    assert r in sorted;
  }

  lemma {:induction false} PixelScanned(f: Fractal, iters: nat, height: nat, x': nat, y': nat, x: nat, y: nat)
    requires y' <= height && y < height && (x < x' || (x == x' && y < y'))
    ensures Count(f, x, y, iters) in Scan(f, iters, height, x', y')
    decreases x', y'
  {
    if y' > 0 {
      if x != x' || y != y' - 1 {
        PixelScanned(f, iters, height, x', y' - 1, x, y);
      }
    } else {
      PixelScanned(f, iters, height, x' - 1, height, x, y);
    }
  }

  // With at least two ranks a rank's position is on [0, 1] and picks a colour; a
  // single rank would divide nought by nought.
  lemma RankInRange(at: nat, ranks: nat, n: nat)
    requires at < ranks && ranks >= 2 && n > 0
    ensures var position := at as real / (ranks - 1) as real;
            0.0 <= position <= 1.0 && 0 <= PaletteIndex(position, n) < n
  {
    Share(at, ranks - 1);
    IndexInRange(at as real / (ranks - 1) as real, n);
  }

  // The palette entry of a count ranked at `at` of `ranks`.
  function RankEntry(at: nat, ranks: nat, n: nat): int
    requires ranks >= 2 && n > 0
  {
    PaletteIndex(at as real / (ranks - 1) as real, n)
  }

  // The colour of a count by its rank; black when it has none.
  method RankColor(v: seq<RankOrder>, count: nat, n: nat) returns (entry: Option<nat>)
    requires |v| >= 2 && n > 0
    ensures entry.None? <==> forall r :: r in v ==> r.iter != count
    ensures entry.Some? ==>
      && entry.value < n
      && exists at: nat :: at < |v| && v[at].iter == count && entry.value == RankEntry(at, |v|, n)
  {
    var at := FindRank(v, count);
    if at.None? {
      return None;
    }
    RankInRange(at.value, |v|, n);
    assert v[at.value] in v;
    entry := ColorOn1Scale(at.value as real / (|v| - 1) as real, n);
  }

  // Ranked by how often they occur, a rarer count gets no later a colour; the rarest gets
  // the first entry, the commonest the last.
  lemma RarerCountsEarlier(v: seq<RankOrder>, i: nat, j: nat, n: nat)
    requires |v| >= 2 && n > 0 && i < |v| && j < |v|
    requires forall a, b :: 0 <= a < b < |v| ==> v[a].count <= v[b].count
    ensures v[i].count < v[j].count ==> RankEntry(i, |v|, n) <= RankEntry(j, |v|, n)
    ensures RankEntry(0, |v|, n) == 0 && RankEntry(|v| - 1, |v|, n) == n - 1
    ensures var at := i as real / (|v| - 1) as real * (n - 1) as real;
            at - 0.5 < RankEntry(i, |v|, n) as real <= at + 0.5
  {
    var top := |v| - 1;
    NearestEntry(i as real / top as real, n);
    ScaleEnds(n);
    Whole(top);
    if v[i].count < v[j].count {
      assert i < j;
      ShareRises(i, j, top);
      IndexRises(i as real / top as real, j as real / top as real, n);
    }
  }

  lemma Whole(top: nat)
    requires top > 0
    ensures 0 as real / top as real == 0.0 && top as real / top as real == 1.0
  {
  }
}
