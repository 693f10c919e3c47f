/**
 The external camera: which formats are kept and for which cropping type, the crop rectangle, and
 the addressing of an I420 frame through it.  Aspect ratios are compared exactly, as fractions.
 */
module ExternalCamera {
  import opened Common

  datatype CroppingType = HORIZONTAL | VERTICAL

  datatype Size = Size(width: nat, height: nat)

  datatype FourCc = MJPEG | YUYV | Z16 | OTHER

  datatype Format = Format(size: Size, fourcc: FourCc)

  datatype Rect = Rect(left: nat, top: nat, width: nat, height: nat)

  const UINT32: nat := 0x1_0000_0000

  predicate Positive(s: Size) {
    s.width > 0 && s.height > 0
  }

  function Abs(x: int): nat {
    if x < 0 then -x else x
  }

  /** |a - b| < 0.025 for the aspect ratios, multiplied out. */
  predicate AspectClose(a: Size, b: Size) {
    40 * Abs(a.width * b.height - b.width * a.height) < a.height * b.height
  }

  /** aspect(a) < aspect(b) */
  predicate Narrower(a: Size, b: Size) {
    a.width * b.height < b.width * a.height
  }

  /** The aspect ratio, width by height. */
  function Aspect(s: Size): real
    requires s.height > 0
  {
    s.width as real / s.height as real
  }

  lemma AspectDifference(a: Size, b: Size)
    requires a.height > 0 && b.height > 0
    ensures (Aspect(a) - Aspect(b)) * (a.height as real * b.height as real)
         == (a.width * b.height - b.width * a.height) as real
  {
    var x, y, h, k := a.width as real, b.width as real, a.height as real, b.height as real;
    assert (x / h) * h == x && (y / k) * k == y;
    assert (x / h - y / k) * (h * k) == (x / h) * h * k - (y / k) * k * h;
  }

  lemma Sign(d: real, p: real)
    requires p > 0.0
    ensures d < 0.0 <==> d * p < 0.0
  {
  }

  lemma Less(d: real, e: real, p: real)
    requires p > 0.0
    ensures d < e <==> d * p < e * p
  {
    Sign(d - e, p);
    assert (d - e) * p == d * p - e * p;
  }

  lemma Fortieth(n: int, q: int)
    ensures n as real < 0.025 * q as real <==> 40 * n < q
  {
    assert 40.0 * (n as real) == (40 * n) as real;
  }

  lemma Below(d: real, q: int, n: int)
    requires q > 0 && d * q as real == n as real
    ensures d < 0.025 <==> 40 * n < q
  {
    Less(d, 0.025, q as real);
    Fortieth(n, q);
  }

  /** Both comparisons are those of the ratios themselves. */
  lemma AspectsCompared(a: Size, b: Size)
    requires a.height > 0 && b.height > 0
    ensures AspectClose(a, b) <==> -0.025 < Aspect(a) - Aspect(b) < 0.025
    ensures Narrower(a, b) <==> Aspect(a) < Aspect(b)
  {
    var d, n := Aspect(a) - Aspect(b), a.width * b.height - b.width * a.height;
    var p, q := a.height as real * b.height as real, a.height * b.height;
    AspectDifference(a, b);
    assert p == q as real && (-d) * p == (-n) as real;
    Below(d, q, n);
    Below(-d, q, -n);
    Sign(d, p);
  }

  function Even(x: nat): nat {
    x - x % 2
  }

  // ---------------------------------------------------------------- getCropRect

  /** The frame height, or width, that shows the output's aspect at full input width, or height, rounded down. */
  function Scaled(ct: CroppingType, input: Size, output: Size): nat
    requires Positive(output)
  {
    if ct.VERTICAL? then output.height * input.width / output.width else output.width * input.height / output.height
  }

  function Limit(ct: CroppingType, input: Size): nat {
    if ct.VERTICAL? then input.height else input.width
  }

  function CropRect(ct: CroppingType, input: Size, output: Size): Option<Rect>
    requires Positive(output)
  {
    if AspectClose(input, output) then Some(Rect(0, 0, input.width, input.height))
    else
      var scaled := Scaled(ct, input, output);
      if scaled > Limit(ct, input) then None else Some(Cut(ct, input, scaled))
  }

  /** The cut side is made even and placed in the middle, at an even offset. */
  function Cut(ct: CroppingType, input: Size, scaled: nat): Rect
    requires scaled <= Limit(ct, input)
  {
    var kept := Even(scaled);
    var margin := Even((Limit(ct, input) - kept) / 2);
    if ct.VERTICAL? then Rect(0, margin, input.width, kept) else Rect(margin, 0, kept, input.height)
  }

  lemma DivBounds(a: nat, b: nat)
    requires b > 0
    ensures (a / b) * b <= a < (a / b) * b + b
  {
  }

  lemma DivAtMost(a: nat, b: nat, limit: nat)
    requires b > 0
    ensures a / b <= limit <==> a < (limit + 1) * b
  {
    DivBounds(a, b);
    if a / b <= limit {
      TimesMonotone(a / b, limit, b);
    } else {
      TimesMonotone(limit + 1, a / b, b);
    }
  }

  lemma TimesMonotone(a: nat, b: nat, c: nat)
    requires a <= b
    ensures a * c <= b * c
    ensures (b + 1) * c == b * c + c
  {
  }

  /** A wider output can always be cut out vertically, a narrower one horizontally. */
  lemma Croppable(ct: CroppingType, input: Size, output: Size)
    requires Positive(output)
    requires AspectClose(input, output) || (if ct.VERTICAL? then Narrower(input, output) else Narrower(output, input))
    ensures CropRect(ct, input, output).Some?
  {
    if ct.VERTICAL? {
      DivAtMost(output.height * input.width, output.width, input.height);
      assert input.height * output.width <= (input.height + 1) * output.width;
    } else {
      DivAtMost(output.width * input.height, output.height, input.width);
      assert input.width * output.height <= (input.width + 1) * output.height;
    }
  }

  /** Exactly when it fails: not close, and the scaled side is larger by a whole pixel. */
  lemma CropFailsIff(ct: CroppingType, input: Size, output: Size)
    requires Positive(output)
    ensures CropRect(ct, input, output).None? <==>
              !AspectClose(input, output)
              && if ct.VERTICAL? then (input.height + 1) * output.width <= output.height * input.width
                 else (input.width + 1) * output.height <= output.width * input.height
  {
    if ct.VERTICAL? {
      DivAtMost(output.height * input.width, output.width, input.height);
    } else {
      DivAtMost(output.width * input.height, output.height, input.width);
    }
  }

  predicate Inside(r: Rect, s: Size) {
    r.left + r.width <= s.width && r.top + r.height <= s.height
  }

  /** The far margin is the near one or up to 3 pixels more. */
  predicate Centred(near: int, kept: int, all: int) {
    0 <= (all - kept - near) - near <= 3
  }

  lemma HalfBounds(n: nat)
    ensures 2 * (n / 2) <= n <= 2 * (n / 2) + 1
  {
  }

  lemma EvenBounds(n: nat)
    ensures n <= Even(n) + 1 && Even(n) <= n && Even(n) % 2 == 0
  {
  }

  lemma CentredMargin(kept: nat, all: nat)
    requires kept <= all
    ensures Centred(Even((all - kept) / 2), kept, all)
    ensures Even((all - kept) / 2) + kept <= all && Even((all - kept) / 2) % 2 == 0
  {
    var half := (all - kept) / 2;
    HalfBounds(all - kept);
    EvenBounds(half);
  }

  lemma WholeIsCentred(all: nat)
    ensures Centred(0, all, all)
  {
  }

  predicate WellPlaced(ct: CroppingType, input: Size, r: Rect) {
    && Inside(r, input) && r.left % 2 == 0 && r.top % 2 == 0
    && Centred(r.left, r.width, input.width) && Centred(r.top, r.height, input.height)
    && (r.width != input.width ==> ct.HORIZONTAL? && r.width % 2 == 0)
    && (r.height != input.height ==> ct.VERTICAL? && r.height % 2 == 0)
  }

  lemma CutIsCentred(ct: CroppingType, input: Size, scaled: nat)
    requires scaled <= Limit(ct, input)
    ensures WellPlaced(ct, input, Cut(ct, input, scaled))
  {
    EvenBounds(scaled);
    var kept := Even(scaled);
    CentredMargin(kept, Limit(ct, input));
    WholeIsCentred(input.width);
    WholeIsCentred(input.height);
  }

  /** The rectangle is inside the input, even where it was cut, and centred. */
  lemma CropRectIsCentred(ct: CroppingType, input: Size, output: Size)
    requires Positive(output) && CropRect(ct, input, output).Some?
    ensures WellPlaced(ct, input, CropRect(ct, input, output).value)
  {
    if !AspectClose(input, output) {
      CutIsCentred(ct, input, Scaled(ct, input, output));
    }
  }

  /** A cut side is less than two pixels short of the side with the exact aspect of the output, and even. */
  lemma CropRectKeepsAspect(ct: CroppingType, input: Size, output: Size)
    requires Positive(output) && CropRect(ct, input, output).Some?
    ensures var r := CropRect(ct, input, output).value;
            if AspectClose(input, output) then r == Rect(0, 0, input.width, input.height)
            else if ct.VERTICAL? then
              && r.width == input.width && r.height % 2 == 0
              && r.height * output.width <= output.height * input.width < (r.height + 2) * output.width
            else
              && r.height == input.height && r.width % 2 == 0
              && r.width * output.height <= output.width * input.height < (r.width + 2) * output.height
  {
    if !AspectClose(input, output) {
      if ct.VERTICAL? {
        EvenSide(output.height * input.width, output.width);
      } else {
        EvenSide(output.width * input.height, output.height);
      }
    }
  }

  lemma EvenSide(a: nat, b: nat)
    requires b > 0
    ensures Even(a / b) * b <= a < (Even(a / b) + 2) * b
  {
    DivBounds(a, b);
    var q := a / b;
    assert Even(q) <= q <= Even(q) + 1;
    assert Even(q) * b <= q * b;
    assert (q + 1) * b <= (Even(q) + 2) * b;
  }

  // ---------------------------------------------------------------- AllocatedFrame

  /** Offsets into the frame's data. */
  datatype Layout = Layout(y: nat, cb: nat, cr: nat, yStride: nat, cStride: nat)

  /** allocate: the size computed in 32 bits; odd dimensions are refused. */
  function AllocatedSize(s: Size): Option<nat> {
    if s.width % 2 != 0 || s.height % 2 != 0 then None
    else Some((s.width * s.height * 3) % UINT32 / 2)
  }

  /** A frame of odd width or height is not allocated; any other one is. */
  lemma AllocatedIffEven(s: Size)
    ensures AllocatedSize(s).Some? <==> s.width % 2 == 0 && s.height % 2 == 0
  {
  }

  function CroppedLayout(s: Size, r: Rect): Option<Layout> {
    if !Inside(r, s) || r.left % 2 != 0 || r.top % 2 != 0 || r.width % 2 != 0 || r.height % 2 != 0 then None
    else
      var cb := s.width * s.height;
      var cr := cb + s.width * s.height / 4;
      var skipped := s.width * r.top / 4 + r.left / 2;
      Some(Layout(s.width * r.top + r.left, cb + skipped, cr + skipped, s.width, s.width / 2))
  }

  lemma EvenProduct(a: nat, b: nat)
    requires a % 2 == 0 && b % 2 == 0
    ensures a * b == 4 * ((a / 2) * (b / 2))
  {
    assert a == 2 * (a / 2) && b == 2 * (b / 2);
  }

  /** The 32-bit size is the size of three I420 planes exactly when three times the pixels fit. */
  lemma AllocatedSizeExactIff(s: Size)
    requires s.width % 2 == 0 && s.height % 2 == 0
    ensures AllocatedSize(s) == Some(s.width * s.height + 2 * ((s.width / 2) * (s.height / 2)))
            <==> s.width * s.height * 3 < UINT32
  {
    EvenProduct(s.width, s.height);
    var quarter := (s.width / 2) * (s.height / 2);
    assert s.width * s.height * 3 == 12 * quarter;
    if 12 * quarter >= UINT32 {
      assert (12 * quarter) % UINT32 < UINT32;
    }
  }

  /** A rectangle from getCropRect is accepted exactly when the sides that were not cut are even. */
  lemma CropRectAcceptedIff(ct: CroppingType, input: Size, output: Size)
    requires Positive(output) && CropRect(ct, input, output).Some?
    ensures CroppedLayout(input, CropRect(ct, input, output).value).Some? <==>
              (AspectClose(input, output) || ct.VERTICAL? ==> input.width % 2 == 0)
              && (AspectClose(input, output) || ct.HORIZONTAL? ==> input.height % 2 == 0)
  {
    CropRectIsCentred(ct, input, output);
    CropRectKeepsAspect(ct, input, output);
  }

  function LumaAt(l: Layout, x: nat, y: nat): nat {
    l.y + y * l.yStride + x
  }

  function CbAt(l: Layout, x: nat, y: nat): nat {
    l.cb + y * l.cStride + x
  }

  function CrAt(l: Layout, x: nat, y: nat): nat {
    l.cr + y * l.cStride + x
  }

  lemma RowMajor(x: nat, y: nat, w: nat, h: nat)
    requires x < w && y < h
    ensures y * w + x < w * h
  {
    assert (y + 1) * w <= h * w;
  }

  lemma Distribute(a: nat, b: nat, c: nat)
    ensures (a + b) * c == a * c + b * c
  {
  }

  lemma HalvedPosition(a: nat, b: nat)
    requires a % 2 == 0
    ensures (a + b) / 2 == a / 2 + b / 2
  {
  }

  lemma Quarter(a: nat, b: nat)
    requires a % 2 == 0 && b % 2 == 0
    ensures a * b / 4 == (a / 2) * (b / 2)
  {
    EvenProduct(a, b);
    FourTimes((a / 2) * (b / 2));
  }

  lemma FourTimes(n: nat)
    ensures 4 * n / 4 == n
  {
  }

  /** Through the layout, pixel (x, y) of the rectangle is pixel (left + x, top + y) of the luma plane. */
  lemma LumaInItsPlane(s: Size, r: Rect, x: nat, y: nat)
    requires CroppedLayout(s, r).Some? && x < r.width && y < r.height
    ensures LumaAt(CroppedLayout(s, r).value, x, y) == (r.top + y) * s.width + (r.left + x) < s.width * s.height
  {
    RowMajor(r.left + x, r.top + y, s.width, s.height);
    Distribute(r.top, y, s.width);
  }

  /** Its Cb sample is the one at the halved position of the second plane, which starts behind the luma plane. */
  lemma CbAtHalvedPosition(s: Size, r: Rect, x: nat, y: nat)
    requires s.width % 2 == 0 && CroppedLayout(s, r).Some?
    ensures CbAt(CroppedLayout(s, r).value, x / 2, y / 2)
         == s.width * s.height + ((r.top + y) / 2) * (s.width / 2) + (r.left + x) / 2
  {
    Quarter(s.width, r.top);
    HalvedPosition(r.top, y);
    HalvedPosition(r.left, x);
    Distribute(r.top / 2, y / 2, s.width / 2);
  }

  /** That position lies inside a chroma plane. */
  lemma HalvedPositionFits(s: Size, r: Rect, x: nat, y: nat)
    requires s.width % 2 == 0 && s.height % 2 == 0 && Inside(r, s) && x < r.width && y < r.height
    ensures ((r.top + y) / 2) * (s.width / 2) + (r.left + x) / 2 < (s.width / 2) * (s.height / 2)
  {
    RowMajor((r.left + x) / 2, (r.top + y) / 2, s.width / 2, s.height / 2);
  }

  /** Its Cr sample lies at the same position of the third plane, one chroma plane further on. */
  lemma CrFollowsCb(s: Size, r: Rect, x: nat, y: nat)
    requires s.width % 2 == 0 && s.height % 2 == 0 && CroppedLayout(s, r).Some?
    ensures var l := CroppedLayout(s, r).value;
            CrAt(l, x / 2, y / 2) == CbAt(l, x / 2, y / 2) + (s.width / 2) * (s.height / 2)
  {
    Quarter(s.width, s.height);
  }

  // ---------------------------------------------------------------- trimSupportedFormats

  /** The order each cropping type sorts by: the side that is never cut first. */
  predicate SortsBefore(ct: CroppingType, a: Size, b: Size) {
    if ct.VERTICAL? then a.width < b.width || (a.width == b.width && a.height < b.height)
    else a.height < b.height || (a.height == b.height && a.width < b.width)
  }

  predicate Sorted(ct: CroppingType, fmts: seq<Format>) {
    forall i, j | 0 <= i < j < |fmts| :: !SortsBefore(ct, fmts[j].size, fmts[i].size)
  }

  /** The order puts the side that is never cut first, then the other one; so the last entry is the largest in this sense. */
  lemma SortedBySides(ct: CroppingType, fmts: seq<Format>, i: nat, j: nat)
    requires Sorted(ct, fmts) && i < j < |fmts|
    ensures var a, b := fmts[i].size, fmts[j].size;
            && UncutSide(ct, a) <= UncutSide(ct, b)
            && (UncutSide(ct, a) == UncutSide(ct, b) ==> Limit(ct, a) <= Limit(ct, b))
  {
  }

  /** Any list that is ordered so counts as sorted. */
  lemma BySidesIsSorted(ct: CroppingType, fmts: seq<Format>)
    requires forall i, j | 0 <= i < j < |fmts| ::
               var a, b := fmts[i].size, fmts[j].size;
               && UncutSide(ct, a) <= UncutSide(ct, b)
               && (UncutSide(ct, a) == UncutSide(ct, b) ==> Limit(ct, a) <= Limit(ct, b))
    ensures Sorted(ct, fmts)
  {
  }

  predicate AllPositive(fmts: seq<Format>) {
    forall i | 0 <= i < |fmts| :: Positive(fmts[i].size)
  }

  predicate HasMjpeg(fmts: seq<Format>) {
    exists i :: 0 <= i < |fmts| && fmts[i].fourcc.MJPEG?
  }

  /** A format is kept if its aspect can be cut out of the largest size. */
  predicate CutFrom(ct: CroppingType, largest: Size, s: Size) {
    AspectClose(s, largest) || (ct.HORIZONTAL? && Narrower(s, largest)) || (ct.VERTICAL? && Narrower(largest, s))
  }

  predicate Kept(ct: CroppingType, fmts: seq<Format>, f: Format)
    requires fmts != []
  {
    CutFrom(ct, fmts[|fmts| - 1].size, f.size) && !(HasMjpeg(fmts) && f.fourcc.YUYV?)
  }

  /** The formats among the first n that stay, in order. */
  function KeptPrefix(ct: CroppingType, fmts: seq<Format>, n: nat): seq<Format>
    requires n <= |fmts|
  {
    if n == 0 then []
    else KeptPrefix(ct, fmts, n - 1) + if Kept(ct, fmts, fmts[n - 1]) then [fmts[n - 1]] else []
  }

  /** trimSupportedFormats, on a list that std::sort has put in order. */
  function Trimmed(ct: CroppingType, sorted: seq<Format>): seq<Format> {
    KeptPrefix(ct, sorted, |sorted|)
  }

  lemma {:induction false} PrefixMembers(ct: CroppingType, fmts: seq<Format>, n: nat, f: Format)
    requires n <= |fmts|
    ensures f in KeptPrefix(ct, fmts, n) <==> n > 0 && f in fmts[..n] && Kept(ct, fmts, f)
  {
    if n == 0 {
    } else {
      PrefixMembers(ct, fmts, n - 1, f);
      assert fmts[..n] == fmts[..n - 1] + [fmts[n - 1]];
    }
  }

  lemma {:induction false} PrefixSorted(ct: CroppingType, fmts: seq<Format>, n: nat)
    requires n <= |fmts| && Sorted(ct, fmts)
    ensures Sorted(ct, KeptPrefix(ct, fmts, n))
  {
    if n == 0 {
    } else {
      PrefixSorted(ct, fmts, n - 1);
      var before := KeptPrefix(ct, fmts, n - 1);
      forall i | 0 <= i < |before| ensures !SortsBefore(ct, fmts[n - 1].size, before[i].size) {
        PrefixMembers(ct, fmts, n - 1, before[i]);
        var j :| 0 <= j < n - 1 && fmts[j] == before[i];
      }
    }
  }

  /**
   Exactly the formats that can be cut from the largest size stay, YUYV only where no format is MJPEG, and in
   order.
   */
  lemma TrimKeeps(ct: CroppingType, sorted: seq<Format>, f: Format)
    requires Sorted(ct, sorted)
    ensures f in Trimmed(ct, sorted) <==> f in sorted && Kept(ct, sorted, f)
    ensures Sorted(ct, Trimmed(ct, sorted))
  {
    PrefixMembers(ct, sorted, |sorted|, f);
    PrefixSorted(ct, sorted, |sorted|);
    assert sorted[..|sorted|] == sorted;
  }

  /** The side that is cut to reach another aspect, and the one that is not. */
  function UncutSide(ct: CroppingType, s: Size): nat {
    if ct.VERTICAL? then s.width else s.height
  }

  /**
   A format passes the test exactly when getCropRect can cut it out of the largest size, unless the largest
   size is so small that a single pixel of it weighs more than the tolerance for the aspect.
   */
  lemma CutFromIff(ct: CroppingType, largest: Size, s: Size)
    requires Positive(s) && 40 * UncutSide(ct, s) <= largest.height * s.height
    ensures CutFrom(ct, largest, s) <==> CropRect(ct, largest, s).Some?
  {
    CropFailsIff(ct, largest, s);
    if ct.VERTICAL? {
      TimesMonotone(largest.height, largest.height, s.width);
    } else {
      TimesMonotone(largest.width, largest.width, s.height);
    }
    if CutFrom(ct, largest, s) {
      Croppable(ct, largest, s);
    }
  }

  /** getCropRect succeeds from the largest sorted size for every format that was kept. */
  lemma KeptFormatsCroppable(ct: CroppingType, sorted: seq<Format>, f: Format)
    requires Sorted(ct, sorted) && AllPositive(sorted) && f in Trimmed(ct, sorted)
    ensures sorted != [] && Positive(f.size)
    ensures CropRect(ct, sorted[|sorted| - 1].size, f.size).Some?
  {
    TrimKeeps(ct, sorted, f);
    Croppable(ct, sorted[|sorted| - 1].size, f.size);
  }

  /** The largest size itself stays, as the last entry, exactly when it is not a YUYV format beside some MJPEG one. */
  lemma LargestStaysIff(ct: CroppingType, sorted: seq<Format>)
    requires Sorted(ct, sorted) && AllPositive(sorted) && sorted != []
    ensures var largest, t := sorted[|sorted| - 1], Trimmed(ct, sorted);
            && (largest in t <==> !(largest.fourcc.YUYV? && HasMjpeg(sorted)))
            && (largest in t ==> t[|t| - 1] == largest)
  {
    TrimKeeps(ct, sorted, sorted[|sorted| - 1]);
  }

  const YUYV_LARGEST := [Format(Size(1280, 960), MJPEG), Format(Size(1920, 1080), MJPEG), Format(Size(1920, 1440), YUYV)]

  /** When it does not, the kept list may hold a format that cannot be cut from the largest one kept. */
  lemma LostLargestBreaksCropping()
    ensures Sorted(VERTICAL, YUYV_LARGEST) && Trimmed(VERTICAL, YUYV_LARGEST) == YUYV_LARGEST[..2]
    ensures CropRect(VERTICAL, YUYV_LARGEST[1].size, YUYV_LARGEST[0].size).None? && !KeptFitLastKept(VERTICAL, YUYV_LARGEST)
  {
    var f := YUYV_LARGEST;
    LostLargestTrimmed();
    CropFailsIff(VERTICAL, f[1].size, f[0].size);
    KeptFromLargestKeptIff(VERTICAL, f);
    var t := f[..2];
    assert t[0] == f[0] && t[|t| - 1] == f[1];
    assert CropRect(VERTICAL, t[|t| - 1].size, t[0].size).None?;
  }

  lemma LostLargestTrimmed()
    ensures Trimmed(VERTICAL, YUYV_LARGEST) == YUYV_LARGEST[..2]
  {
    var f := YUYV_LARGEST;
    assert f[0].fourcc.MJPEG? && HasMjpeg(f);
    assert !AspectClose(f[2].size, f[1].size) && Narrower(f[2].size, f[1].size);
    assert Kept(VERTICAL, f, f[0]) && Kept(VERTICAL, f, f[1]) && !Kept(VERTICAL, f, f[2]);
    assert KeptPrefix(VERTICAL, f, 0) == [] && KeptPrefix(VERTICAL, f, 1) == [f[0]];
    assert KeptPrefix(VERTICAL, f, 2) == [f[0], f[1]] == KeptPrefix(VERTICAL, f, 3);
    assert f[..2] == [f[0], f[1]];
  }

  /** Every one of these formats can be cut from the largest size of the sorted list. */
  predicate AllCroppable(ct: CroppingType, sorted: seq<Format>, fmts: seq<Format>) {
    forall i | 0 <= i < |fmts| ::
      sorted != [] && Positive(fmts[i].size) && CropRect(ct, sorted[|sorted| - 1].size, fmts[i].size).Some?
  }

  lemma KeptListCroppable(ct: CroppingType, sorted: seq<Format>)
    requires Sorted(ct, sorted) && AllPositive(sorted)
    ensures AllCroppable(ct, sorted, Trimmed(ct, sorted))
  {
    var t := Trimmed(ct, sorted);
    forall i | 0 <= i < |t|
      ensures sorted != [] && Positive(t[i].size) && CropRect(ct, sorted[|sorted| - 1].size, t[i].size).Some?
    {
      KeptFormatsCroppable(ct, sorted, t[i]);
    }
  }

  /** The aspect of s is close to that of the size it is cut from, or beyond it by less than a pixel of the cut side. */
  predicate FitsInto(ct: CroppingType, from: Size, s: Size) {
    AspectClose(from, s)
    || if ct.VERTICAL? then s.height * from.width < (from.height + 1) * s.width
       else s.width * from.height < (from.width + 1) * s.height
  }

  /** The last of the first n enumerated formats that is kept. */
  function LastKept(ct: CroppingType, fmts: seq<Format>, n: nat): Option<Format>
    requires n <= |fmts|
  {
    if n == 0 then None
    else if Kept(ct, fmts, fmts[n - 1]) then Some(fmts[n - 1])
    else LastKept(ct, fmts, n - 1)
  }

  /** Every enumerated format that is kept fits into the last one kept. */
  predicate KeptFitLastKept(ct: CroppingType, sorted: seq<Format>) {
    var last := LastKept(ct, sorted, |sorted|);
    last.Some? ==>
      forall i | 0 <= i < |sorted| && Kept(ct, sorted, sorted[i]) :: FitsInto(ct, last.value.size, sorted[i].size)
  }

  lemma {:induction false} PrefixEndsWithLastKept(ct: CroppingType, fmts: seq<Format>, n: nat)
    requires n <= |fmts|
    ensures var t, last := KeptPrefix(ct, fmts, n), LastKept(ct, fmts, n);
            if last.None? then t == [] else t != [] && t[|t| - 1] == last.value
  {
    if n == 0 {
    } else {
      PrefixEndsWithLastKept(ct, fmts, n - 1);
    }
  }

  /**
   Every kept format can be cut from the largest one kept exactly when it fits into the last kept entry
   of the enumeration; so it is whenever the largest size enumerated stays.
   */
  lemma KeptFromLargestKeptIff(ct: CroppingType, sorted: seq<Format>)
    requires Sorted(ct, sorted) && AllPositive(sorted)
    ensures AllCroppable(ct, Trimmed(ct, sorted), Trimmed(ct, sorted)) <==> KeptFitLastKept(ct, sorted)
    ensures sorted != [] && !(sorted[|sorted| - 1].fourcc.YUYV? && HasMjpeg(sorted)) ==>
              AllCroppable(ct, Trimmed(ct, sorted), Trimmed(ct, sorted))
  {
    var t := Trimmed(ct, sorted);
    PrefixEndsWithLastKept(ct, sorted, |sorted|);
    forall f ensures f in t <==> f in sorted && Kept(ct, sorted, f) {
      TrimKeeps(ct, sorted, f);
    }
    forall f | f in t
      ensures Positive(f.size) && (CropRect(ct, t[|t| - 1].size, f.size).Some? <==> FitsInto(ct, t[|t| - 1].size, f.size))
    {
      KeptFormatsCroppable(ct, sorted, f);
      CropFailsIff(ct, t[|t| - 1].size, f.size);
    }
    if KeptFitLastKept(ct, sorted) {
      forall i | 0 <= i < |t| ensures FitsInto(ct, t[|t| - 1].size, t[i].size) {
        assert t[i] in t;
      }
    } else {
      var i :| 0 <= i < |sorted| && Kept(ct, sorted, sorted[i]) && !FitsInto(ct, t[|t| - 1].size, sorted[i].size);
      assert sorted[i] in t;
    }
    if sorted != [] && !(sorted[|sorted| - 1].fourcc.YUYV? && HasMjpeg(sorted)) {
      LargestStaysIff(ct, sorted);
      KeptListCroppable(ct, sorted);
    }
  }

  /** trimSupportedFormats after its sort: the two filtering loops. */
  method TrimSupportedFormats(ct: CroppingType, sorted: seq<Format>) returns (trimmed: seq<Format>)
    ensures trimmed == Trimmed(ct, sorted)
  {
    if |sorted| == 0 {
      return sorted;
    }
    var largest := sorted[|sorted| - 1].size;
    var needTrim := false;
    var out: seq<Format> := [];
    var i := 0;
    while i < |sorted|
      invariant 0 <= i <= |sorted|
      invariant needTrim <==> exists k :: 0 <= k < i && sorted[k].fourcc.MJPEG?
      invariant out == CutPrefix(ct, sorted, i)
    {
      var f := sorted[i];
      if f.fourcc.MJPEG? {
        needTrim := true;
      }
      if AspectClose(f.size, largest)
         || (ct.HORIZONTAL? && Narrower(f.size, largest)) || (ct.VERTICAL? && Narrower(largest, f.size))
      {
        out := out + [f];
      }
      i := i + 1;
    }
    trimmed := [];
    var k := 0;
    while k < |out|
      invariant 0 <= k <= |out|
      invariant trimmed == WithoutYuyv(needTrim, out[..k])
    {
      assert out[..k + 1] == out[..k] + [out[k]];
      if !(needTrim && out[k].fourcc.YUYV?) {
        trimmed := trimmed + [out[k]];
      }
      k := k + 1;
    }
    assert out[..k] == out;
    TwoFiltersAreOne(ct, sorted, |sorted|);
  }

  function CutPrefix(ct: CroppingType, fmts: seq<Format>, n: nat): seq<Format>
    requires n <= |fmts|
  {
    if n == 0 then []
    else CutPrefix(ct, fmts, n - 1) + if CutFrom(ct, fmts[|fmts| - 1].size, fmts[n - 1].size) then [fmts[n - 1]] else []
  }

  function WithoutYuyv(needTrim: bool, fmts: seq<Format>): seq<Format> {
    if fmts == [] then []
    else
      var last := fmts[|fmts| - 1];
      WithoutYuyv(needTrim, fmts[..|fmts| - 1]) + if needTrim && last.fourcc.YUYV? then [] else [last]
  }

  lemma {:induction false} TwoFiltersAreOne(ct: CroppingType, fmts: seq<Format>, n: nat)
    requires n <= |fmts|
    ensures WithoutYuyv(HasMjpeg(fmts), CutPrefix(ct, fmts, n)) == KeptPrefix(ct, fmts, n)
  {
    if n == 0 {
    } else {
      TwoFiltersAreOne(ct, fmts, n - 1);
      var before := CutPrefix(ct, fmts, n - 1);
      assert (before + [fmts[n - 1]])[..|before|] == before;
      assert before + [] == before && KeptPrefix(ct, fmts, n - 1) + [] == KeptPrefix(ct, fmts, n - 1);
    }
  }

  // ---------------------------------------------------------------- initSupportedFormatsLocked

  predicate Covers(a: Size, b: Size) {
    a.width >= b.width && a.height >= b.height
  }

  /** Is the horizontal list the one to use, when neither is empty? */
  predicate PickHorizontal(h: seq<Format>, v: seq<Format>)
    requires h != [] && v != []
  {
    var a, b := h[|h| - 1].size, v[|v| - 1].size;
    if a == b then |h| > |v| else if Covers(a, b) then true else if Covers(b, a) then false else |h| > |v|
  }

  class ExternalCameraDevice {
    var supportedFormats: seq<Format>
    var croppingType: CroppingType

    /**
     initSupportedFormatsLocked on the enumerated formats, as each cropping type sorts them.  The list
     and the type fit: each format chosen can be cut, that way, from the largest size enumerated; and
     from the largest one chosen exactly if it fits into it.
     */
    method InitSupportedFormats(sortedH: seq<Format>, sortedV: seq<Format>)
      requires Sorted(HORIZONTAL, sortedH) && Sorted(VERTICAL, sortedV) && AllPositive(sortedH) && AllPositive(sortedV)
      modifies this
      ensures var h, v := Trimmed(HORIZONTAL, sortedH), Trimmed(VERTICAL, sortedV);
              if h == [] && v == [] then supportedFormats == old(supportedFormats) && croppingType == old(croppingType)
              else
                && supportedFormats == (if croppingType.HORIZONTAL? then h else v) && supportedFormats != []
                && (h != [] && v != [] ==> (croppingType.HORIZONTAL? <==> PickHorizontal(h, v)))
                && var enumerated := if croppingType.HORIZONTAL? then sortedH else sortedV;
                   && AllCroppable(croppingType, enumerated, supportedFormats)
                   && (AllCroppable(croppingType, supportedFormats, supportedFormats)
                       <==> KeptFitLastKept(croppingType, enumerated))
    {
      KeptFromLargestKeptIff(HORIZONTAL, sortedH);
      KeptFromLargestKeptIff(VERTICAL, sortedV);
      KeptListCroppable(HORIZONTAL, sortedH);
      KeptListCroppable(VERTICAL, sortedV);
      var h := TrimSupportedFormats(HORIZONTAL, sortedH);
      var v := TrimSupportedFormats(VERTICAL, sortedV);
      if |h| == 0 && |v| == 0 {
        return;
      }
      if |h| == 0 {
        supportedFormats, croppingType := v, VERTICAL;
        return;
      } else if |v| == 0 {
        supportedFormats, croppingType := h, HORIZONTAL;
        return;
      }
      var a, b := h[|h| - 1].size, v[|v| - 1].size;
      if a.width == b.width && a.height == b.height {
        if |h| > |v| {
          supportedFormats, croppingType := h, HORIZONTAL;
        } else {
          supportedFormats, croppingType := v, VERTICAL;
        }
      } else if a.width >= b.width && a.height >= b.height {
        supportedFormats, croppingType := h, HORIZONTAL;
      } else if a.width <= b.width && a.height <= b.height {
        supportedFormats, croppingType := v, VERTICAL;
      } else {
        if |h| > |v| {
          supportedFormats, croppingType := h, HORIZONTAL;
        } else {
          supportedFormats, croppingType := v, VERTICAL;
        }
      }
    }
  }

  /** The largest output of the list picked is never exceeded in both dimensions by that of the other. */
  lemma PickKeepsLargest(h: seq<Format>, v: seq<Format>)
    requires h != [] && v != []
    ensures var (picked, other) := if PickHorizontal(h, v) then (h, v) else (v, h);
            var a, b := picked[|picked| - 1].size, other[|other| - 1].size;
            && (Covers(b, a) ==> a == b)
            && (a == b || !Covers(a, b) ==> |picked| >= |other|)
  {
  }
}
