/**
 Resolution tables of a camera device: their reordering, the stream configurations advertised from
 them, and the judgement of a stream combination against them.
 */
module Resolutions {
  import opened Common

  const MAX_RESOLUTION_SIZE: nat := 64

  const IMPLEMENTATION_DEFINED: int := 0x22
  const BLOB: int := 0x21
  const YCBCR_420_888: int := 0x23
  const RAW16: int := 0x20
  const OUTPUT: int := 0

  datatype Size = Size(width: int, height: int)

  const HD720 := Size(1280, 720)
  const XGA := Size(1024, 768)

  /** Tables are flat arrays of widths and heights in turn. */
  function SizeAt(t: seq<int>, p: nat): Size
    requires 2 * p + 1 < |t|
  {
    Size(t[2 * p], t[2 * p + 1])
  }

  function Sizes(t: seq<int>): seq<Size> {
    seq(|t| / 2, p requires 0 <= p < |t| / 2 => SizeAt(t, p))
  }

  /** The flat table that holds these sizes. */
  function Flat(s: seq<Size>): seq<int> {
    if s == [] then [] else Flat(s[..|s| - 1]) + [s[|s| - 1].width, s[|s| - 1].height]
  }

  /** Reading a flat table gives back the sizes it was made of. */
  lemma {:induction false} SizesOfFlat(s: seq<Size>)
    ensures |Flat(s)| == 2 * |s| && Sizes(Flat(s)) == s
    decreases |s|
  {
    if s == [] {
    } else {
      var init, last := s[..|s| - 1], s[|s| - 1];
      SizesOfFlat(init);
      forall p | 0 <= p < |s| ensures SizeAt(Flat(s), p) == s[p] {
        if p < |init| {
          assert SizeAt(Flat(init), p) == init[p];
        }
      }
    }
  }

  // ---------------------------------------------------------------- adjustPreviewResolutions, on sizes

  /** The first of the widest among the first n. */
  function Widest(s: seq<Size>, n: nat): (i: nat)
    requires 0 < n <= |s|
    ensures i < n && forall k | 0 <= k < n :: s[k].width <= s[i].width
    ensures forall k | 0 <= k < i :: s[k].width < s[i].width
  {
    if n == 1 then 0
    else
      var i := Widest(s, n - 1);
      if s[n - 1].width > s[i].width then n - 1 else i
  }

  /** The last place of a size among the first n, or -1. */
  function LastOf(s: seq<Size>, z: Size, n: nat): (i: int)
    requires n <= |s|
    ensures -1 <= i < n && (i >= 0 ==> s[i] == z) && forall k | i < k < n :: s[k] != z
  {
    if n == 0 then -1 else if s[n - 1] == z then n - 1 else LastOf(s, z, n - 1)
  }

  function Swap(s: seq<Size>, i: nat, j: nat): seq<Size>
    requires i < |s| && j < |s|
  {
    s[i := s[j]][j := s[i]]
  }

  function WidestFirst(s: seq<Size>): seq<Size>
    requires s != []
  {
    Swap(s, 0, Widest(s, |s|))
  }

  function HdFirst(q: seq<Size>): seq<Size> {
    var hd, xga := LastOf(q, HD720, |q|), LastOf(q, XGA, |q|);
    if hd > 0 && xga > 0 && hd > xga then Swap(q, xga, hd) else q
  }

  function Adjusted(s: seq<Size>): seq<Size>
    requires s != []
  {
    HdFirst(WidestFirst(s))
  }

  lemma SwapPermutes(s: seq<Size>, i: nat, j: nat)
    requires i < |s| && j < |s|
    ensures multiset(Swap(s, i, j)) == multiset(s) && |Swap(s, i, j)| == |s|
  {
  }

  lemma WidestComesFirst(s: seq<Size>)
    requires s != []
    ensures var q := WidestFirst(s);
            && |q| == |s| && multiset(q) == multiset(s)
            && forall k | 0 <= k < |q| :: q[k].width <= q[0].width
  {
    SwapPermutes(s, 0, Widest(s, |s|));
  }

  lemma HdFirstPermutes(q: seq<Size>)
    requires q != [] && forall k | 0 <= k < |q| :: q[k].width <= q[0].width
    ensures |HdFirst(q)| == |q| && multiset(HdFirst(q)) == multiset(q)
    ensures forall k | 0 <= k < |q| :: HdFirst(q)[k].width <= HdFirst(q)[0].width
  {
    var hd, xga := LastOf(q, HD720, |q|), LastOf(q, XGA, |q|);
    if hd > 0 && xga > 0 && hd > xga {
      SwapPermutes(q, xga, hd);
    }
  }

  /** The table is permuted, and a widest entry comes first. */
  lemma AdjustPermutes(s: seq<Size>)
    requires s != []
    ensures multiset(Adjusted(s)) == multiset(s) && |Adjusted(s)| == |s|
    ensures forall k | 0 <= k < |s| :: Adjusted(s)[k].width <= Adjusted(s)[0].width
  {
    WidestComesFirst(s);
    HdFirstPermutes(WidestFirst(s));
  }

  /** No size but the padding occurs twice. */
  predicate DuplicateFree(s: seq<Size>) {
    forall i, j | 0 <= i < j < |s| :: s[i] == s[j] ==> s[i].width == 0
  }

  lemma SwapKeepsDistinct(s: seq<Size>, i: nat, j: nat)
    requires i < |s| && j < |s| && DuplicateFree(s)
    ensures DuplicateFree(Swap(s, i, j))
  {
  }

  /** Where both occur, 1280x720 comes before 1024x768. */
  lemma HdBeforeXga(s: seq<Size>, hd: nat, xga: nat)
    requires s != [] && DuplicateFree(s)
    requires hd < |s| && xga < |s| && Adjusted(s)[hd] == HD720 && Adjusted(s)[xga] == XGA
    ensures hd < xga
  {
    var q, r := WidestFirst(s), Adjusted(s);
    SwapKeepsDistinct(s, 0, Widest(s, |s|));
    AdjustPermutes(s);
    var a, b := LastOf(q, HD720, |q|), LastOf(q, XGA, |q|);
    assert r[0] == q[0] && r[0].width >= 1280;
    assert DuplicateFree(r) by {
      if a > 0 && b > 0 && a > b {
        SwapKeepsDistinct(q, b, a);
      }
    }
    if a > 0 && b > 0 && a > b {
      assert r[b] == HD720 && r[a] == XGA;
    }
  }

  /** The padding stays behind the entries in use. */
  lemma PaddingStays(s: seq<Size>, n: nat)
    requires s != [] && n <= |s|
    requires forall k | 0 <= k < n :: s[k].width > 0
    requires forall k | n <= k < |s| :: s[k] == Size(0, 0)
    ensures forall k | 0 <= k < n :: Adjusted(s)[k].width > 0
    ensures forall k | n <= k < |s| :: Adjusted(s)[k] == Size(0, 0)
  {
    var w := Widest(s, |s|);
    if n > 0 {
      assert s[0].width <= s[w].width;
    }
  }

  lemma SizesSwapped(before: seq<int>, after: seq<int>, p: nat, q: nat)
    requires |before| == |after| && 2 * p + 1 < |before| && 2 * q + 1 < |before|
    requires forall k | 0 <= k < |after| && k / 2 != p && k / 2 != q :: after[k] == before[k]
    requires SizeAt(after, p) == SizeAt(before, q) && SizeAt(after, q) == SizeAt(before, p)
    ensures Sizes(after) == Swap(Sizes(before), p, q)
  {
    forall k | 0 <= k < |after| / 2 ensures Sizes(after)[k] == Swap(Sizes(before), p, q)[k] {
      if k != p && k != q {
        assert (2 * k) / 2 == k && (2 * k + 1) / 2 == k;
      }
    }
  }

  /** The scan for the widest entry. */
  method ScanWidest(t: array<int>, ghost s: seq<Size>) returns (idx: nat)
    requires t.Length == MAX_RESOLUTION_SIZE && s == Sizes(t[..])
    ensures idx == 2 * Widest(s, |s|)
  {
    idx := 0;
    var xMax := t[0];
    var i := 0;
    ghost var p, best := 0, 0;
    while i < MAX_RESOLUTION_SIZE
      invariant 0 <= i == 2 * p && p <= |s|
      invariant best < |s| && best == if p == 0 then 0 else Widest(s, p)
      invariant idx == 2 * best && xMax == s[best].width
    {
      assert s[p] == Size(t[i], t[i + 1]);
      if t[i] > xMax {
        xMax, idx, best := t[i], i, p;
      }
      i, p := i + 2, p + 1;
    }
  }

  /** The scan for the last place of a size. */
  method ScanLast(t: array<int>, z: Size, ghost s: seq<Size>) returns (idx: int)
    requires t.Length == MAX_RESOLUTION_SIZE && s == Sizes(t[..])
    ensures idx == if LastOf(s, z, |s|) < 0 then -1 else 2 * LastOf(s, z, |s|)
  {
    idx := -1;
    var i := 0;
    ghost var p := 0;
    while i < MAX_RESOLUTION_SIZE
      invariant 0 <= i == 2 * p && p <= |s|
      invariant idx == if LastOf(s, z, p) < 0 then -1 else 2 * LastOf(s, z, p)
    {
      assert s[p] == Size(t[i], t[i + 1]);
      if t[i] == z.width && t[i + 1] == z.height {
        idx := i;
      }
      i, p := i + 2, p + 1;
    }
  }

  /** Two entries of the flat table are exchanged. */
  method Exchange(t: array<int>, i: nat, j: nat)
    requires i % 2 == 0 && j % 2 == 0 && i + 1 < t.Length && j + 1 < t.Length
    modifies t
    ensures Sizes(t[..]) == Swap(Sizes(old(t[..])), i / 2, j / 2)
  {
    ghost var before := t[..];
    var x, y, v, w := t[i], t[i + 1], t[j], t[j + 1];
    t[i], t[i + 1] := v, w;
    t[j] := x;
    t[j + 1] := y;
    SizesSwapped(before, t[..], i / 2, j / 2);
  }

  /** adjustPreviewResolutions, in place on the flat table. */
  method AdjustPreviewResolutions(t: array<int>)
    requires t.Length == MAX_RESOLUTION_SIZE
    modifies t
    ensures Sizes(t[..]) == Adjusted(Sizes(old(t[..])))
  {
    ghost var s := Sizes(t[..]);
    MoveWidestFirst(t, s);
    ghost var q := WidestFirst(s);
    MoveHdFirst(t, q);
  }

  method MoveWidestFirst(t: array<int>, ghost s: seq<Size>)
    requires t.Length == MAX_RESOLUTION_SIZE && s == Sizes(t[..])
    modifies t
    ensures Sizes(t[..]) == WidestFirst(s)
  {
    var idx := ScanWidest(t, s);
    Exchange(t, 0, idx);
  }

  method MoveHdFirst(t: array<int>, ghost q: seq<Size>)
    requires t.Length == MAX_RESOLUTION_SIZE && q == Sizes(t[..])
    modifies t
    ensures Sizes(t[..]) == HdFirst(q)
  {
    var idx720 := ScanLast(t, HD720, q);
    var idx768 := ScanLast(t, XGA, q);
    if idx720 > 0 && idx768 > 0 && idx720 > idx768 {
      Exchange(t, idx768, idx720);
    }
  }

  // ---------------------------------------------------------------- the stream configurations of createMetadata

  datatype Row = Row(format: int, size: Size, direction: int)

  function RowsOf(format: int, sizes: seq<Size>): seq<Row> {
    seq(|sizes|, r requires 0 <= r < |sizes| => Row(format, sizes[r], OUTPUT))
  }

  /** Preview sizes, picture sizes, preview sizes as YUV, and for an ISP camera one raw row. */
  function Advertised(preview: seq<Size>, picture: seq<Size>, raw: seq<Size>): seq<Row> {
    ThreeBlocks(preview, picture) + RowsOf(RAW16, raw)
  }

  function ThreeBlocks(preview: seq<Size>, picture: seq<Size>): seq<Row> {
    RowsOf(IMPLEMENTATION_DEFINED, preview) + RowsOf(BLOB, picture) + RowsOf(YCBCR_420_888, preview)
  }

  const MAX_SIZES: nat := MAX_RESOLUTION_SIZE / 2

  /** Both tables are full and the camera adds a raw row. */
  predicate OneRowTooMany(preview: seq<Size>, picture: seq<Size>, raw: seq<Size>) {
    |preview| == |picture| == MAX_SIZES && raw != []
  }

  /** Tables within their arrays give rows within theirs, with that one exception. */
  lemma RowsFitIff(preview: seq<Size>, picture: seq<Size>, raw: seq<Size>)
    requires |preview| <= MAX_SIZES && |picture| <= MAX_SIZES && |raw| <= 1
    ensures 4 * |Advertised(preview, picture, raw)| <= 6 * MAX_RESOLUTION_SIZE <==> !OneRowTooMany(preview, picture, raw)
  {
    assert |Advertised(preview, picture, raw)| == 2 * |preview| + |picture| + |raw|;
  }

  /** Row r of the flat array of four numbers each. */
  function RowAt(config: seq<int>, r: nat): Row
    requires 4 * r + 3 < |config|
  {
    Row(config[4 * r], Size(config[4 * r + 1], config[4 * r + 2]), config[4 * r + 3])
  }

  /** The array holds these rows from row base on. */
  predicate HoldsRows(config: seq<int>, base: nat, rows: seq<Row>) {
    4 * (base + |rows|) <= |config| && forall r | 0 <= r < |rows| :: RowAt(config, base + r) == rows[r]
  }

  /** The numbers of the rows, one after the other, as the metadata tag has them. */
  function FlatRows(rows: seq<Row>): seq<int> {
    if rows == [] then []
    else
      var last := rows[|rows| - 1];
      FlatRows(rows[..|rows| - 1]) + [last.format, last.size.width, last.size.height, last.direction]
  }

  lemma {:induction false} HeldRowsAreFlat(config: seq<int>, base: nat, rows: seq<Row>)
    requires HoldsRows(config, base, rows)
    ensures config[4 * base..4 * (base + |rows|)] == FlatRows(rows)
    decreases |rows|
  {
    if rows == [] {
    } else {
      var n := base + |rows| - 1;
      HeldRowsAreFlat(config, base, rows[..|rows| - 1]);
      assert RowAt(config, n) == rows[|rows| - 1];
      OneMoreRow(config, base, n);
    }
  }

  lemma OneMoreRow(config: seq<int>, base: nat, n: nat)
    requires base <= n && 4 * (n + 1) <= |config|
    ensures config[4 * base..4 * (n + 1)] ==
              config[4 * base..4 * n] + [config[4 * n], config[4 * n + 1], config[4 * n + 2], config[4 * n + 3]]
  {
    assert config[4 * n..4 * (n + 1)] == [config[4 * n], config[4 * n + 1], config[4 * n + 2], config[4 * n + 3]];
  }

  lemma HoldsBoth(config: seq<int>, base: nat, a: seq<Row>, b: seq<Row>)
    requires HoldsRows(config, base, a) && HoldsRows(config, base + |a|, b)
    ensures HoldsRows(config, base, a + b)
  {
    forall r | 0 <= r < |a + b| ensures RowAt(config, base + r) == (a + b)[r] {
      if r >= |a| {
        assert RowAt(config, base + |a| + (r - |a|)) == b[r - |a|];
      }
    }
  }

  /** One of the three loops: base is the index of the block's first number; idx ends at its last row. */
  method FillBlock(config: array<int>, base: nat, format: int, sizes: seq<Size>, idxBefore: nat) returns (idx: nat)
    requires base % 4 == 0 && base + 4 * |sizes| <= config.Length
    modifies config
    ensures HoldsRows(config[..], base / 4, RowsOf(format, sizes))
    ensures forall k | 0 <= k < base :: config[k] == old(config[k])
    ensures idx == if |sizes| == 0 then idxBefore else base + 4 * (|sizes| - 1)
  {
    idx := idxBefore;
    var r := 0;
    while r < |sizes|
      invariant 0 <= r <= |sizes|
      invariant forall k | 0 <= k < base :: config[k] == old(config[k])
      invariant forall q | 0 <= q < r ::
                  && config[base + 4 * q] == format && config[base + 4 * q + 1] == sizes[q].width
                  && config[base + 4 * q + 2] == sizes[q].height && config[base + 4 * q + 3] == OUTPUT
      invariant idx == if r == 0 then idxBefore else base + 4 * (r - 1)
    {
      idx := base + r * 4;
      config[idx] := format;
      config[idx + 1] := sizes[r].width;
      config[idx + 2] := sizes[r].height;
      config[idx + 3] := OUTPUT;
      r := r + 1;
    }
    var block := RowsOf(format, sizes);
    forall q | 0 <= q < |block| ensures RowAt(config[..], base / 4 + q) == block[q] {
      assert 4 * (base / 4 + q) == base + 4 * q;
    }
  }

  lemma RowsUntouched(before: seq<int>, after: seq<int>, base: nat, rows: seq<Row>, limit: nat)
    requires HoldsRows(before, base, rows) && 4 * (base + |rows|) <= limit <= |after| == |before|
    requires forall k | 0 <= k < limit :: after[k] == before[k]
    ensures HoldsRows(after, base, rows)
  {
    forall r | 0 <= r < |rows| ensures RowAt(after, base + r) == rows[r] {
      assert RowAt(before, base + r) == rows[r];
    }
  }

  /** The three blocks, one after the other without gap or overlap; idx is the last row written. */
  method FillThree(preview: seq<Size>, picture: seq<Size>, config: array<int>) returns (idx: nat)
    requires config.Length == 6 * MAX_RESOLUTION_SIZE && |preview| <= MAX_SIZES && |picture| <= MAX_SIZES
    modifies config
    ensures HoldsRows(config[..], 0, ThreeBlocks(preview, picture))
    ensures idx == if preview + picture == [] then 0 else 4 * (|ThreeBlocks(preview, picture)| - 1)
  {
    var np, nq := |preview|, |picture|;
    idx := FillTwo(preview, picture, config);
    ghost var two, second := RowsOf(IMPLEMENTATION_DEFINED, preview) + RowsOf(BLOB, picture), config[..];
    idx := FillBlock(config, 4 * nq + 4 * np, YCBCR_420_888, preview, idx);
    RowsUntouched(second, config[..], 0, two, 4 * (np + nq));
    HoldsBoth(config[..], 0, two, RowsOf(YCBCR_420_888, preview));
  }

  method FillTwo(preview: seq<Size>, picture: seq<Size>, config: array<int>) returns (idx: nat)
    requires config.Length == 6 * MAX_RESOLUTION_SIZE && |preview| <= MAX_SIZES && |picture| <= MAX_SIZES
    modifies config
    ensures HoldsRows(config[..], 0, RowsOf(IMPLEMENTATION_DEFINED, preview) + RowsOf(BLOB, picture))
    ensures idx == if preview + picture == [] then 0 else 4 * (|preview| + |picture| - 1)
  {
    idx := FillBlock(config, 0, IMPLEMENTATION_DEFINED, preview, 0);
    ghost var first := config[..];
    idx := FillBlock(config, 4 * |preview|, BLOB, picture, idx);
    RowsUntouched(first, config[..], 0, RowsOf(IMPLEMENTATION_DEFINED, preview), 4 * |preview|);
    HoldsBoth(config[..], 0, RowsOf(IMPLEMENTATION_DEFINED, preview), RowsOf(BLOB, picture));
  }

  /**
   The table building of createMetadata.  None: the raw row would be written past the array, which is so
   when both tables are full.  Otherwise the rows lie one after the other; count, the length passed on, is
   exact unless both tables are empty, when it takes in one row that was never written.
   */
  method BuildStreamConfig(preview: seq<Size>, picture: seq<Size>, raw: seq<Size>, config: array<int>)
    returns (count: Option<nat>)
    requires config.Length == 6 * MAX_RESOLUTION_SIZE
    requires |preview| <= MAX_SIZES && |picture| <= MAX_SIZES && |raw| <= 1
    modifies config
    ensures count.None? <==> OneRowTooMany(preview, picture, raw)
    ensures count.Some? && preview + picture != [] ==>
              && count.value == 4 * |Advertised(preview, picture, raw)| <= config.Length
              && config[..count.value] == FlatRows(Advertised(preview, picture, raw))
    ensures count.Some? && preview + picture == [] ==>
              && count.value == 4 * (1 + |raw|) <= config.Length
              && config[4..count.value] == FlatRows(Advertised(preview, picture, raw))
  {
    var idx := FillThree(preview, picture, config);
    RowsFitIff(preview, picture, raw);
    count := AddRaw(config, ThreeBlocks(preview, picture), raw, idx);
    if count.Some? {
      var rows := Advertised(preview, picture, raw);
      HeldRowsAreFlat(config[..], if preview + picture == [] then 1 else 0, rows);
      assert config[..][..count.value] == config[..count.value];
    }
  }

  /** The raw row of an ISP camera goes one row past the last one written. */
  method AddRaw(config: array<int>, ghost three: seq<Row>, raw: seq<Size>, last: nat) returns (count: Option<nat>)
    requires |raw| <= 1 && 4 * |three| <= config.Length == 6 * MAX_RESOLUTION_SIZE
    requires HoldsRows(config[..], 0, three) && last == if three == [] then 0 else 4 * (|three| - 1)
    modifies config
    ensures count.None? <==> 4 * (|three| + |raw|) > config.Length
    ensures count.Some? && three != [] ==>
              count.value == 4 * (|three| + |raw|) && HoldsRows(config[..], 0, three + RowsOf(RAW16, raw))
    ensures count.Some? && three == [] ==>
              count.value == 4 * (1 + |raw|) && HoldsRows(config[..], 1, three + RowsOf(RAW16, raw))
  {
    var idx := last;
    if |raw| == 1 {
      idx := idx + 4;
      if idx + 3 >= config.Length {
        return None;
      }
      ghost var before := config[..];
      config[idx] := RAW16;
      config[idx + 1] := raw[0].width;
      config[idx + 2] := raw[0].height;
      config[idx + 3] := OUTPUT;
      RowsUntouched(before, config[..], 0, three, 4 * |three|);
      assert RowAt(config[..], idx / 4) == Row(RAW16, raw[0], OUTPUT);
    }
    if three != [] {
      HoldsBoth(config[..], 0, three, RowsOf(RAW16, raw));
    } else {
      assert three + RowsOf(RAW16, raw) == RowsOf(RAW16, raw);
    }
    count := Some(idx + 4);
  }

  // ---------------------------------------------------------------- StreamCombJudge

  datatype Stream = Stream(isOutput: bool, format: int, size: Size)

  /** FoundResoulution over the first count numbers of a flat table. */
  method FoundResolution(z: Size, t: seq<int>, count: nat) returns (found: bool)
    requires count <= |t| && count % 2 == 0
    ensures found <==> z in Sizes(t[..count])
  {
    var i := 0;
    ghost var s, p := Sizes(t[..count]), 0;
    while i < count
      invariant 0 <= i == 2 * p && p <= |s| && z !in s[..p]
    {
      assert s[p] == Size(t[i], t[i + 1]);
      if z.width == t[i] && z.height == t[i + 1] {
        return true;
      }
      assert s[..p + 1] == s[..p] + [s[p]];
      i, p := i + 2, p + 1;
    }
    assert s[..p] == s;
    found := false;
  }

  predicate Supported(s: Stream, preview: seq<Size>, picture: seq<Size>) {
    s.isOutput && s.format != -1 && s.size in if s.format == BLOB then picture else preview
  }

  /** Every stream must be an output of a size its format's table holds. */
  method StreamCombJudge(streams: seq<Stream>, preview: seq<int>, nPreview: nat, picture: seq<int>, nPicture: nat)
    returns (ok: bool)
    requires nPreview <= |preview| && nPreview % 2 == 0 && nPicture <= |picture| && nPicture % 2 == 0
    ensures ok <==> forall s | s in streams :: Supported(s, Sizes(preview[..nPreview]), Sizes(picture[..nPicture]))
  {
    var k := 0;
    while k < |streams|
      invariant 0 <= k <= |streams|
      invariant forall j | 0 <= j < k :: Supported(streams[j], Sizes(preview[..nPreview]), Sizes(picture[..nPicture]))
    {
      var s := streams[k];
      assert s in streams;
      if !s.isOutput || s.format == -1 {
        return false;
      }
      var found;
      if s.format == BLOB {
        found := FoundResolution(s.size, picture, nPicture);
      } else {
        found := FoundResolution(s.size, preview, nPreview);
      }
      if !found {
        assert !Supported(s, Sizes(preview[..nPreview]), Sizes(picture[..nPicture]));
        return false;
      }
      k := k + 1;
    }
    ok := true;
  }

  function AsStream(r: Row): Stream {
    Stream(r.direction == OUTPUT, r.format, r.size)
  }

  /** Every configuration advertised is accepted; the raw row exactly when its size is a preview size. */
  lemma AdvertisedIsSupported(preview: seq<Size>, picture: seq<Size>, raw: seq<Size>, r: nat)
    requires r < |Advertised(preview, picture, raw)| && |raw| <= 1
    ensures Supported(AsStream(Advertised(preview, picture, raw)[r]), preview, picture)
            <==> r < 2 * |preview| + |picture| || raw[0] in preview
  {
    var rows := Advertised(preview, picture, raw);
    var np, nq := |preview|, |picture|;
    if r < np {
      assert rows[r] == Row(IMPLEMENTATION_DEFINED, preview[r], OUTPUT);
    } else if r < np + nq {
      assert rows[r] == Row(BLOB, picture[r - np], OUTPUT);
    } else if r < 2 * np + nq {
      assert rows[r] == Row(YCBCR_420_888, preview[r - np - nq], OUTPUT);
    } else {
      assert rows[r] == Row(RAW16, raw[0], OUTPUT);
    }
  }

  /** Some configuration of the three blocks has this size, and is a still picture or not as asked. */
  predicate Listed(preview: seq<Size>, picture: seq<Size>, s: Stream) {
    exists r :: 0 <= r < |ThreeBlocks(preview, picture)| && ListedAt(preview, picture, s, r)
  }

  predicate ListedAt(preview: seq<Size>, picture: seq<Size>, s: Stream, r: nat)
    requires r < |ThreeBlocks(preview, picture)|
  {
    var row := ThreeBlocks(preview, picture)[r];
    row.size == s.size && (row.format == BLOB <==> s.format == BLOB)
  }

  /** A stream is supported exactly when it is an output with a format and is listed; any other one is refused. */
  lemma SupportedIffListed(s: Stream, preview: seq<Size>, picture: seq<Size>)
    ensures Supported(s, preview, picture) <==> s.isOutput && s.format != -1 && Listed(preview, picture, s)
  {
    var rows, np, nq := ThreeBlocks(preview, picture), |preview|, |picture|;
    forall r | 0 <= r < |rows|
      ensures rows[r] == if r < np then Row(IMPLEMENTATION_DEFINED, preview[r], OUTPUT)
                         else if r < np + nq then Row(BLOB, picture[r - np], OUTPUT)
                         else Row(YCBCR_420_888, preview[r - np - nq], OUTPUT)
    {
    }
    if s.format == BLOB && s.size in picture {
      var k :| 0 <= k < nq && picture[k] == s.size;
      assert ListedAt(preview, picture, s, np + k);
    } else if s.format != BLOB && s.size in preview {
      var k :| 0 <= k < np && preview[k] == s.size;
      assert ListedAt(preview, picture, s, k);
    }
  }

  /** Reordering the preview table does not change which configurations are supported. */
  lemma AdjustKeepsSupport(s: Stream, preview: seq<Size>, picture: seq<Size>)
    requires preview != []
    ensures Supported(s, Adjusted(preview), picture) <==> Supported(s, preview, picture)
  {
    AdjustPermutes(preview);
    assert s.size in multiset(Adjusted(preview)) <==> s.size in multiset(preview);
  }
}
