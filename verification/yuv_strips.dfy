/**
 YuvToJpegEncoder: the strip loops that feed raw YUV rows to jpeg_write_raw_data, for NV12 (4:2:0
 semi-planar) and YUYV (4:2:2 interleaved) images of even width and height.

 A row pointer is an offset into the buffer it points to.  jpeg_write_raw_data is given 16 luma
 rows, uses those that are inside the image at the time of the call, and advances next_scanline by 16.
 */
module YuvStrips {
  import opened Common

  const LINES: nat := 16         // DEINTERLEAVE_LINES_ONE_TIME

  type Bytes = seq<int>

  // ---------------------------------------------------------------- index arithmetic

  /** a * b as repeated addition: keeps the products that the loops only pass on out of the solver's sight. */
  function Times(a: nat, b: nat): nat {
    if a == 0 then 0 else b + Times(a - 1, b)
  }

  lemma {:induction false} TimesIsProduct(a: nat, b: nat)
    ensures Times(a, b) == a * b
  {
    if a == 0 {
    } else {
      TimesIsProduct(a - 1, b);
      Split(a - 1, 1, b);
    }
  }

  lemma Split(a: nat, b: nat, n: nat)
    ensures (a + b) * n == a * n + b * n
  {
  }

  lemma Monotone(a: nat, b: nat, n: nat)
    requires a <= b
    ensures a * n <= b * n
  {
  }

  lemma RowFits(r: nat, rows: nat, n: nat)
    requires r < rows
    ensures r * n + n == (r + 1) * n <= rows * n
  {
    Split(r, 1, n);
    Monotone(r + 1, rows, n);
  }

  // ---------------------------------------------------------------- the rows an image consists of

  function At(yuv: Bytes, k: nat): int {
    if k < |yuv| then yuv[k] else 0
  }

  /** n samples, the first at start, step bytes apart. */
  function Samples(yuv: Bytes, start: nat, step: nat, n: nat): Bytes {
    seq(n, i requires 0 <= i => At(yuv, start + step * i))
  }

  function Interleave(u: Bytes, v: Bytes): Bytes
    requires |u| == |v|
  {
    seq(2 * |u|, k requires 0 <= k < 2 * |u| => if k % 2 == 0 then u[k / 2] else v[k / 2])
  }

  /** Re-interleaving the two chroma rows gives back the row of the interleaved plane. */
  lemma InterleaveRestores(yuv: Bytes, start: nat, n: nat)
    ensures Interleave(Samples(yuv, start, 2, n), Samples(yuv, start + 1, 2, n)) == Samples(yuv, start, 1, 2 * n)
  {
  }

  /** Row r of each YUYV component. */
  function YuyvY(yuv: Bytes, half: nat, r: nat): Bytes {
    Samples(yuv, 4 * (r * half), 2, 2 * half)
  }

  function YuyvU(yuv: Bytes, half: nat, r: nat): Bytes {
    Samples(yuv, 4 * (r * half) + 1, 4, half)
  }

  function YuyvV(yuv: Bytes, half: nat, r: nat): Bytes {
    Samples(yuv, 4 * (r * half) + 3, 4, half)
  }

  /** Both chroma rows woven together, then with the luma row, are the bytes of the YUYV row. */
  lemma YuyvRestores(yuv: Bytes, half: nat, r: nat)
    ensures Interleave(YuyvU(yuv, half, r), YuyvV(yuv, half, r)) == Samples(yuv, 4 * (r * half) + 1, 2, 2 * half)
    ensures Interleave(YuyvY(yuv, half, r), Interleave(YuyvU(yuv, half, r), YuyvV(yuv, half, r)))
         == Samples(yuv, 4 * (r * half), 1, 4 * half)
  {
    InterleaveRestores(yuv, 4 * (r * half), 2 * half);
  }

  /** Rows r and r + 1 of a plane meet without gap, so the rows in order are the plane. */
  function Flatten(rows: seq<Bytes>): Bytes {
    if rows == [] then [] else Flatten(rows[..|rows| - 1]) + rows[|rows| - 1]
  }

  lemma {:induction false} RowsArePlane(yuv: Bytes, base: nat, width: nat, rows: seq<Bytes>)
    requires forall r | 0 <= r < |rows| :: rows[r] == Samples(yuv, base + r * width, 1, width)
    ensures Flatten(rows) == Samples(yuv, base, 1, |rows| * width)
    decreases |rows|
  {
    if rows == [] {
    } else {
      var n := |rows| - 1;
      RowsArePlane(yuv, base, width, rows[..n]);
      Split(n, 1, width);
      assert Samples(yuv, base, 1, n * width) + Samples(yuv, base + n * width, 1, width) == Samples(yuv, base, 1, (n + 1) * width);
    }
  }

  // ---------------------------------------------------------------- Yuv420SpToJpegEncoder

  /** The inner loop: one row of chroma byte pairs. */
  method DeinterleaveNv12Row(yuv: Bytes, start: nat, uRows: array<int>, vRows: array<int>, at: nat, half: nat)
    requires start + 2 * half <= |yuv| && at + half <= uRows.Length == vRows.Length && uRows != vRows
    modifies uRows, vRows
    ensures forall p | 0 <= p < at :: uRows[p] == old(uRows[p]) && vRows[p] == old(vRows[p])
    ensures forall p | at <= p < at + half ::
              uRows[p] == At(yuv, start + 2 * (p - at)) && vRows[p] == At(yuv, start + 2 * (p - at) + 1)
  {
    var vu, i := start, 0;
    while i < half
      invariant 0 <= i <= half && vu == start + 2 * i
      invariant forall p | 0 <= p < at :: uRows[p] == old(uRows[p]) && vRows[p] == old(vRows[p])
      invariant forall p | at <= p < at + i ::
                  uRows[p] == At(yuv, start + 2 * (p - at)) && vRows[p] == At(yuv, start + 2 * (p - at) + 1)
    {
      uRows[at + i] := yuv[vu];
      vRows[at + i] := yuv[vu + 1];
      vu := vu + 2;
      i := i + 1;
    }
  }

  /** Two chroma bytes go to the two row buffers, for the chroma rows of one strip; top is the first of them. */
  method DeinterleaveNv12(yuv: Bytes, vuPlanar: nat, uRows: array<int>, vRows: array<int>, top: nat, half: nat, rows: nat, n: nat)
    requires top + n <= rows && n * half <= uRows.Length == vRows.Length && uRows != vRows
    requires vuPlanar + 2 * (rows * half) <= |yuv|
    modifies uRows, vRows
    ensures forall p | 0 <= p < n * half ::
              uRows[p] == At(yuv, vuPlanar + 2 * (top * half + p)) && vRows[p] == At(yuv, vuPlanar + 2 * (top * half + p) + 1)
  {
    ghost var first := top * half;
    var row := 0;
    ghost var at := 0;
    while row < n
      invariant 0 <= row <= n && at == row * half
      invariant forall p | 0 <= p < at ::
                  uRows[p] == At(yuv, vuPlanar + 2 * (first + p)) && vRows[p] == At(yuv, vuPlanar + 2 * (first + p) + 1)
    {
      var hoff := top + row;
      if hoff >= rows {
        return;
      }
      RowFits(row, n, half);
      RowFits(hoff, rows, half);
      Split(top, row, half);
      Doubled(hoff, half);
      DeinterleaveNv12Row(yuv, vuPlanar + hoff * (2 * half), uRows, vRows, row * half, half);
      at, row := at + half, row + 1;
    }
  }

  lemma Doubled(a: nat, n: nat)
    ensures a * (2 * n) == 2 * (a * n)
  {
  }

  /**
   Row k of a strip buffer, which starts at place at, is the component row that many rows below the top of the
   strip.
   */
  lemma StripRow(yuv: Bytes, buf: Bytes, start: nat, step: nat, half: nat, first: nat, at: nat)
    requires at + half <= |buf|
    requires forall p | at <= p < at + half :: buf[p] == At(yuv, start + step * (first + p))
    ensures buf[at..at + half] == Samples(yuv, start + step * (first + at), step, half)
  {
    forall i | 0 <= i < half ensures buf[at + i] == At(yuv, start + step * (first + at) + step * i) {
      Scale(step, first + at, i);
      assert buf[at + i] == At(yuv, start + step * (first + (at + i)));
    }
  }

  lemma Scale(step: nat, a: nat, b: nat)
    ensures step * (a + b) == step * a + step * b
  {
  }

  /** The loop that points the row arrays at the strip; slots beyond the strip keep what they had. */
  method PointRows(y: array<int>, cb: array<int>, cr: array<int>, scanline: nat, half: nat, processLines: nat)
    requires y.Length == LINES && cb.Length == cr.Length == LINES / 2 && y != cb && y != cr && cb != cr && processLines <= LINES
    modifies y, cb, cr
    ensures forall j | 0 <= j < LINES :: y[j] == if j < processLines then (scanline + j) * (2 * half) else old(y[j])
    ensures forall j | 0 <= j < (processLines + 1) / 2 :: cb[j] == cr[j] == j * half
    ensures processLines == LINES ==> y[LINES - 1] >= 0
  {
    var i := 0;
    while i < processLines
      invariant 0 <= i <= processLines
      invariant forall j | 0 <= j < LINES :: y[j] == if j < i then (scanline + j) * (2 * half) else old(y[j])
      invariant forall j | 0 <= j < (i + 1) / 2 :: cb[j] == cr[j] == j * half
    {
      y[i] := (scanline + i) * (2 * half);
      if i % 2 == 0 {
        cb[i / 2] := i / 2 * half;
        cr[i / 2] := i / 2 * half;
      }
      i := i + 1;
    }
  }

  /** What jpeg_write_raw_data reads of one component: n rows of the given width, through their pointers. */
  method ReadRows(buf: Bytes, ptrs: array<int>, n: nat, width: nat, sent: seq<Bytes>, ghost expected: seq<Bytes>)
    returns (all: seq<Bytes>)
    requires n <= ptrs.Length && |sent| + n <= |expected| && sent == expected[..|sent|]
    requires forall k | 0 <= k < n :: 0 <= ptrs[k] && ptrs[k] + width <= |buf|
    requires forall k | 0 <= k < n :: buf[ptrs[k]..ptrs[k] + width] == expected[|sent| + k]
    ensures all == expected[..|sent| + n]
  {
    all := sent;
    var k := 0;
    while k < n
      invariant 0 <= k <= n && all == expected[..|sent| + k]
    {
      all := all + [buf[ptrs[k]..ptrs[k] + width]];
      k := k + 1;
    }
  }

  /** Reading the rows of a strip buffer that starts with component row |sent|. */
  method ReadStripRows(yuv: Bytes, buf: Bytes, ptrs: array<int>, start: nat, step: nat, half: nat, n: nat, sent: seq<Bytes>,
                       ghost expected: seq<Bytes>)
    returns (all: seq<Bytes>)
    requires n <= ptrs.Length && |sent| + n <= |expected| && sent == expected[..|sent|] && n * half <= |buf|
    requires forall k | 0 <= k < n :: ptrs[k] == k * half
    requires forall p | 0 <= p < n * half :: buf[p] == At(yuv, start + step * (|sent| * half + p))
    requires forall r | 0 <= r < |expected| :: expected[r] == Samples(yuv, start + step * (r * half), step, half)
    ensures all == expected[..|sent| + n]
  {
    forall k | 0 <= k < n
      ensures 0 <= ptrs[k] && ptrs[k] + half <= |buf| && buf[ptrs[k]..ptrs[k] + half] == expected[|sent| + k]
    {
      RowFits(k, n, half);
      Split(|sent|, k, half);
      StripRow(yuv, buf, start, step, half, |sent| * half, k * half);
    }
    all := ReadRows(buf, ptrs, n, half, sent, expected);
  }

  /** The rows of each component that have gone to the encoder, in the order they went. */
  datatype Sent = Sent(y: seq<Bytes>, cb: seq<Bytes>, cr: seq<Bytes>)

  function AllRows(yuv: Bytes, start: nat, step: nat, width: nat, rows: nat): seq<Bytes> {
    seq(rows, r requires 0 <= r => Samples(yuv, start + step * (r * width), step, width))
  }

  /** All rows of all components of an NV12 image of 2 * half by 2 * rows pixels, whose chroma plane starts at vu. */
  function Nv12Rows(yuv: Bytes, vu: nat, half: nat, rows: nat): Sent {
    Sent(AllRows(yuv, 0, 1, 2 * half, 2 * rows), AllRows(yuv, vu, 2, half, rows), AllRows(yuv, vu + 1, 2, half, rows))
  }

  /** The part of them that lies above a scan line. */
  predicate SentAbove(all: Sent, sent: Sent, scanline: nat, vertical: nat)
    requires vertical > 0
  {
    && scanline <= |all.y| && scanline / vertical <= |all.cb| && scanline / vertical <= |all.cr|
    && sent == Sent(all.y[..scanline], all.cb[..scanline / vertical], all.cr[..scanline / vertical])
  }

  /** Reading luma rows straight from the image. */
  method ReadLumaRows(yuv: Bytes, ptrs: array<int>, n: nat, width: nat, rows: nat, sent: seq<Bytes>, ghost expected: seq<Bytes>)
    returns (all: seq<Bytes>)
    requires n <= ptrs.Length && |sent| + n <= rows && rows * width <= |yuv|
    requires expected == AllRows(yuv, 0, 1, width, rows) && sent == expected[..|sent|]
    requires forall k | 0 <= k < n :: ptrs[k] == (|sent| + k) * width
    ensures all == expected[..|sent| + n]
  {
    forall k | 0 <= k < n
      ensures 0 <= ptrs[k] && ptrs[k] + width <= |yuv| && yuv[ptrs[k]..ptrs[k] + width] == expected[|sent| + k]
    {
      RowFits(|sent| + k, rows, width);
    }
    all := ReadRows(yuv, ptrs, n, width, sent, expected);
  }

  /** Deinterleaving the chroma rows of a strip, pointing at its rows, and reading the chroma rows. */
  method SendNv12Chroma(yuv: Bytes, vuPlanar: nat, half: nat, rows: nat, scanline: nat, processLines: nat,
                        cbSent: seq<Bytes>, crSent: seq<Bytes>,
                        y: array<int>, cb: array<int>, cr: array<int>, uRows: array<int>, vRows: array<int>)
    returns (cbs: seq<Bytes>, crs: seq<Bytes>)
    requires vuPlanar + 2 * (rows * half) <= |yuv|
    requires scanline % 2 == 0 && processLines % 2 == 0 && processLines <= LINES && scanline + processLines <= 2 * rows
    requires uRows.Length == vRows.Length == LINES / 2 * half && uRows != vRows && {uRows, vRows} !! {y, cb, cr}
    requires y.Length == LINES && cb.Length == cr.Length == LINES / 2 && y != cb && y != cr && cb != cr
    requires |cbSent| == |crSent| == scanline / 2
    requires cbSent == AllRows(yuv, vuPlanar, 2, half, rows)[..scanline / 2]
    requires crSent == AllRows(yuv, vuPlanar + 1, 2, half, rows)[..scanline / 2]
    modifies y, cb, cr, uRows, vRows
    ensures forall j | 0 <= j < LINES :: y[j] == if j < processLines then (scanline + j) * (2 * half) else old(y[j])
    ensures processLines == LINES ==> y[LINES - 1] >= 0
    ensures cbs == AllRows(yuv, vuPlanar, 2, half, rows)[..(scanline + processLines) / 2]
    ensures crs == AllRows(yuv, vuPlanar + 1, 2, half, rows)[..(scanline + processLines) / 2]
  {
    var n := processLines / 2;
    Monotone(n, LINES / 2, half);
    DeinterleaveNv12(yuv, vuPlanar, uRows, vRows, scanline / 2, half, rows, n);
    PointRows(y, cb, cr, scanline, half, processLines);
    cbs := ReadStripRows(yuv, uRows[..], cb, vuPlanar, 2, half, n, cbSent, AllRows(yuv, vuPlanar, 2, half, rows));
    crs := ReadStripRows(yuv, vRows[..], cr, vuPlanar + 1, 2, half, n, crSent, AllRows(yuv, vuPlanar + 1, 2, half, rows));
  }

  /** The luma plane comes before vu, the chroma plane from there on. */
  predicate Nv12Fits(yuv: Bytes, vu: nat, half: nat, rows: nat) {
    Times(2 * rows, 2 * half) <= vu && vu + 2 * Times(rows, half) <= |yuv|
  }

  /** The rows of a strip go to the encoder. */
  method SendNv12Lines(yuv: Bytes, vuPlanar: nat, half: nat, rows: nat, scanline: nat, processLines: nat, sent: Sent,
                       y: array<int>, cb: array<int>, cr: array<int>, uRows: array<int>, vRows: array<int>)
    returns (now: Sent)
    requires Nv12Fits(yuv, vuPlanar, half, rows)
    requires scanline % 2 == 0 && processLines % 2 == 0 && processLines <= LINES && scanline + processLines <= 2 * rows
    requires uRows.Length == vRows.Length == LINES / 2 * half && uRows != vRows && {uRows, vRows} !! {y, cb, cr}
    requires y.Length == LINES && cb.Length == cr.Length == LINES / 2 && y != cb && y != cr && cb != cr
    requires SentAbove(Nv12Rows(yuv, vuPlanar, half, rows), sent, scanline, 2)
    modifies y, cb, cr, uRows, vRows
    ensures SentAbove(Nv12Rows(yuv, vuPlanar, half, rows), now, scanline + processLines, 2)
    ensures y[LINES - 1] >= 0 <==> processLines == LINES || old(y[LINES - 1]) >= 0
  {
    TimesIsProduct(2 * rows, 2 * half);
    TimesIsProduct(rows, half);
    var cbs, crs := SendNv12Chroma(yuv, vuPlanar, half, rows, scanline, processLines, sent.cb, sent.cr, y, cb, cr, uRows, vRows);
    var ys := ReadLumaRows(yuv, y, processLines, 2 * half, 2 * rows, sent.y, AllRows(yuv, 0, 1, 2 * half, 2 * rows));
    now := Sent(ys, cbs, crs);
  }

  /** One turn of the strip loop; the strip is shorter at the bottom of the image. */
  method SendNv12Strip(yuv: Bytes, vuPlanar: nat, half: nat, rows: nat, scanline: nat, sent: Sent,
                       y: array<int>, cb: array<int>, cr: array<int>, uRows: array<int>, vRows: array<int>)
    returns (now: Sent)
    requires Nv12Fits(yuv, vuPlanar, half, rows)
    requires scanline % 2 == 0 && scanline < 2 * rows
    requires uRows.Length == vRows.Length == LINES / 2 * half && uRows != vRows && {uRows, vRows} !! {y, cb, cr}
    requires y.Length == LINES && cb.Length == cr.Length == LINES / 2 && y != cb && y != cr && cb != cr
    requires SentAbove(Nv12Rows(yuv, vuPlanar, half, rows), sent, scanline, 2)
    modifies y, cb, cr, uRows, vRows
    ensures SentAbove(Nv12Rows(yuv, vuPlanar, half, rows), now, Min(scanline + LINES, 2 * rows), 2)
    ensures y[LINES - 1] >= 0 <==> scanline + LINES <= 2 * rows || old(y[LINES - 1]) >= 0
  {
    var processLines := LINES;
    if scanline + LINES > 2 * rows {
      processLines := 2 * rows - scanline;
    }
    now := SendNv12Lines(yuv, vuPlanar, half, rows, scanline, processLines, sent, y, cb, cr, uRows, vRows);
  }

  /** The strip loop. */
  method SendNv12(yuv: Bytes, vuPlanar: nat, half: nat, rows: nat) returns (sent: Sent, allSet: bool)
    requires Nv12Fits(yuv, vuPlanar, half, rows)
    ensures sent == Nv12Rows(yuv, vuPlanar, half, rows)
    ensures allSet <==> rows == 0 || 2 * rows >= LINES
  {
    var y, cb, cr := new int[LINES](_ => -1), new int[LINES / 2](_ => -1), new int[LINES / 2](_ => -1);
    var uRows, vRows := new int[LINES / 2 * half], new int[LINES / 2 * half];
    var scanline := 0;
    ghost var all := Nv12Rows(yuv, vuPlanar, half, rows);
    sent, allSet := Sent([], [], []), true;
    while scanline < 2 * rows
      invariant scanline % 2 == 0 && (rows == 0 ==> scanline == 0)
      invariant SentAbove(all, sent, Min(scanline, 2 * rows), 2)
      invariant y[LINES - 1] >= 0 <==> scanline > 0 && 2 * rows >= LINES
      invariant allSet <==> scanline == 0 || 2 * rows >= LINES
      invariant scanline == 0 || scanline >= LINES
    {
      sent := SendNv12Strip(yuv, vuPlanar, half, rows, scanline, sent, y, cb, cr, uRows, vRows);
      allSet := allSet && y[LINES - 1] >= 0;
      scanline := scanline + LINES;
    }
    AllSent(all, sent, 2 * rows, 2);
  }

  /**
   Yuv420SpToJpegEncoder.compress for an image of 2 * half by 2 * rows pixels: every row of every
   component is submitted once, in order.  allSet says that no strip was handed a luma pointer that
   no strip had set: so it is unless the image is lower than one strip.
   */
  method CompressNv12(yuv: Bytes, vuPlanar: nat, half: nat, rows: nat) returns (sent: Sent, allSet: bool)
    requires (2 * rows) * (2 * half) <= vuPlanar && vuPlanar + rows * (2 * half) <= |yuv|
    ensures sent == Nv12Rows(yuv, vuPlanar, half, rows)
    ensures allSet <==> rows == 0 || 2 * rows >= LINES
  {
    TimesIsProduct(2 * rows, 2 * half);
    TimesIsProduct(rows, half);
    Doubled(rows, half);
    sent, allSet := SendNv12(yuv, vuPlanar, half, rows);
  }

  lemma AllSent(all: Sent, sent: Sent, lines: nat, vertical: nat)
    requires vertical > 0 && SentAbove(all, sent, lines, vertical)
    requires |all.y| == lines && |all.cb| == |all.cr| == lines / vertical
    ensures sent == all
  {
  }

  // ---------------------------------------------------------------- Yuv422IToJpegEncoder

  /** The inner loop: four bytes make two luma and two chroma samples. */
  method DeinterleaveYuyvRow(yuv: Bytes, start: nat, yRows: array<int>, uRows: array<int>, vRows: array<int>, at: nat, half: nat)
    requires start + 4 * half <= |yuv| && 2 * (at + half) <= yRows.Length && at + half <= uRows.Length == vRows.Length
    requires yRows != uRows && yRows != vRows && uRows != vRows
    modifies yRows, uRows, vRows
    ensures forall q | 0 <= q < 2 * at :: yRows[q] == old(yRows[q])
    ensures forall q | 2 * at <= q < 2 * (at + half) :: yRows[q] == At(yuv, start + 2 * (q - 2 * at))
    ensures forall p | 0 <= p < at :: uRows[p] == old(uRows[p]) && vRows[p] == old(vRows[p])
    ensures forall p | at <= p < at + half ::
              uRows[p] == At(yuv, start + 4 * (p - at) + 1) && vRows[p] == At(yuv, start + 4 * (p - at) + 3)
  {
    var seg, i := start, 0;
    while i < half
      invariant 0 <= i <= half && seg == start + 4 * i
      invariant forall q | 0 <= q < 2 * at :: yRows[q] == old(yRows[q])
      invariant forall q | 2 * at <= q < 2 * (at + i) :: yRows[q] == At(yuv, start + 2 * (q - 2 * at))
      invariant forall p | 0 <= p < at :: uRows[p] == old(uRows[p]) && vRows[p] == old(vRows[p])
      invariant forall p | at <= p < at + i ::
                  uRows[p] == At(yuv, start + 4 * (p - at) + 1) && vRows[p] == At(yuv, start + 4 * (p - at) + 3)
    {
      var indexY, indexU := 2 * at + 2 * i, at + i;
      yRows[indexY] := yuv[seg];
      yRows[indexY + 1] := yuv[seg + 2];
      uRows[indexU] := yuv[seg + 1];
      vRows[indexU] := yuv[seg + 3];
      seg := seg + 4;
      i := i + 1;
    }
  }

  /** Row by row of one strip; top is the first of them. */
  method DeinterleaveYuyv(yuv: Bytes, yRows: array<int>, uRows: array<int>, vRows: array<int>,
                          top: nat, half: nat, rows: nat, n: nat)
    requires top + n <= rows && 4 * (rows * half) <= |yuv|
    requires 2 * (n * half) <= yRows.Length && n * half <= uRows.Length == vRows.Length
    requires yRows != uRows && yRows != vRows && uRows != vRows
    modifies yRows, uRows, vRows
    ensures forall q | 0 <= q < 2 * (n * half) :: yRows[q] == At(yuv, 2 * (2 * (top * half) + q))
    ensures forall p | 0 <= p < n * half ::
              uRows[p] == At(yuv, 4 * (top * half + p) + 1) && vRows[p] == At(yuv, 4 * (top * half + p) + 3)
  {
    ghost var first := top * half;
    var row := 0;
    ghost var at := 0;
    while row < n
      invariant 0 <= row <= n && at == row * half
      invariant forall q | 0 <= q < 2 * at :: yRows[q] == At(yuv, 2 * (2 * first + q))
      invariant forall p | 0 <= p < at :: uRows[p] == At(yuv, 4 * (first + p) + 1) && vRows[p] == At(yuv, 4 * (first + p) + 3)
    {
      RowFits(row, n, half);
      RowFits(top + row, rows, half);
      Split(top, row, half);
      DeinterleaveYuyvRow(yuv, 4 * ((top + row) * half), yRows, uRows, vRows, row * half, half);
      at, row := at + half, row + 1;
    }
  }

  method PointYuyvRows(y: array<int>, cb: array<int>, cr: array<int>, half: nat, processLines: nat)
    requires y.Length == cb.Length == cr.Length == LINES && y != cb && y != cr && cb != cr && processLines <= LINES
    modifies y, cb, cr
    ensures forall j | 0 <= j < processLines :: y[j] == j * (2 * half) && cb[j] == cr[j] == j * half
  {
    var i := 0;
    while i < processLines
      invariant 0 <= i <= processLines
      invariant forall j | 0 <= j < i :: y[j] == j * (2 * half) && cb[j] == cr[j] == j * half
    {
      y[i] := i * (2 * half);
      cb[i] := i * half;
      cr[i] := i * half;
      i := i + 1;
    }
  }

  /** All rows of all components of a YUYV image of 2 * half by rows pixels. */
  function YuyvRows(yuv: Bytes, half: nat, rows: nat): Sent {
    Sent(AllRows(yuv, 0, 2, 2 * half, rows), AllRows(yuv, 1, 4, half, rows), AllRows(yuv, 3, 4, half, rows))
  }

  /** One turn of the strip loop. */
  method SendYuyvStrip(yuv: Bytes, half: nat, rows: nat, scanline: nat, processLines: nat, sent: Sent,
                       y: array<int>, cb: array<int>, cr: array<int>, yRows: array<int>, uRows: array<int>, vRows: array<int>)
    returns (now: Sent)
    requires 4 * Times(rows, half) <= |yuv| && scanline + processLines <= rows && processLines <= LINES
    requires yRows.Length == LINES * (2 * half) && uRows.Length == vRows.Length == LINES * half
    requires yRows != uRows && yRows != vRows && uRows != vRows && {yRows, uRows, vRows} !! {y, cb, cr}
    requires y.Length == cb.Length == cr.Length == LINES && y != cb && y != cr && cb != cr
    requires SentAbove(YuyvRows(yuv, half, rows), sent, scanline, 1)
    modifies y, cb, cr, yRows, uRows, vRows
    ensures SentAbove(YuyvRows(yuv, half, rows), now, scanline + processLines, 1)
  {
    TimesIsProduct(rows, half);
    Monotone(processLines, LINES, half);
    Doubled(processLines, half);
    Doubled(scanline, half);
    DeinterleaveYuyv(yuv, yRows, uRows, vRows, scanline, half, rows, processLines);
    PointYuyvRows(y, cb, cr, half, processLines);
    var ys := ReadStripRows(yuv, yRows[..], y, 0, 2, 2 * half, processLines, sent.y, AllRows(yuv, 0, 2, 2 * half, rows));
    var cbs := ReadStripRows(yuv, uRows[..], cb, 1, 4, half, processLines, sent.cb, AllRows(yuv, 1, 4, half, rows));
    var crs := ReadStripRows(yuv, vRows[..], cr, 3, 4, half, processLines, sent.cr, AllRows(yuv, 3, 4, half, rows));
    now := Sent(ys, cbs, crs);
  }

  /** The strip loop. */
  method SendYuyv(yuv: Bytes, half: nat, rows: nat) returns (sent: Sent)
    requires 4 * Times(rows, half) <= |yuv|
    ensures sent == YuyvRows(yuv, half, rows)
  {
    var y, cb, cr := new int[LINES](_ => -1), new int[LINES](_ => -1), new int[LINES](_ => -1);
    var yRows, uRows, vRows := new int[LINES * (2 * half)], new int[LINES * half], new int[LINES * half];
    var scanline, processLines := 0, LINES;
    ghost var all := YuyvRows(yuv, half, rows);
    sent := Sent([], [], []);
    while scanline < rows
      invariant scanline % LINES == 0 && (scanline < rows ==> processLines == LINES)
      invariant SentAbove(all, sent, Min(scanline, rows), 1)
    {
      if scanline + LINES > rows {
        processLines := rows - scanline;
      }
      sent := SendYuyvStrip(yuv, half, rows, scanline, processLines, sent, y, cb, cr, yRows, uRows, vRows);
      scanline := scanline + LINES;
    }
    AllSent(all, sent, rows, 1);
  }

  /** Yuv422IToJpegEncoder.compress for an image of 2 * half by rows pixels. */
  method CompressYuyv(yuv: Bytes, half: nat, rows: nat) returns (sent: Sent)
    requires rows * (4 * half) <= |yuv|
    ensures sent == YuyvRows(yuv, half, rows)
  {
    TimesIsProduct(rows, half);
    Doubled(rows, half);
    Doubled(rows, 2 * half);
    sent := SendYuyv(yuv, half, rows);
  }

  // ---------------------------------------------------------------- what was sent is the image

  function Woven(us: seq<Bytes>, vs: seq<Bytes>): seq<Bytes>
    requires |us| == |vs| && forall r | 0 <= r < |us| :: |us[r]| == |vs[r]|
  {
    seq(|us|, r requires 0 <= r < |us| => Interleave(us[r], vs[r]))
  }

  lemma SamplesAreSlice(yuv: Bytes, start: nat, n: nat)
    requires start + n <= |yuv|
    ensures Samples(yuv, start, 1, n) == yuv[start..start + n]
  {
  }

  lemma WovenNv12(yuv: Bytes, vu: nat, half: nat, rows: nat)
    ensures var s := Nv12Rows(yuv, vu, half, rows);
            Flatten(Woven(s.cb, s.cr)) == Samples(yuv, vu, 1, rows * (2 * half))
  {
    var s := Nv12Rows(yuv, vu, half, rows);
    var woven := Woven(s.cb, s.cr);
    forall r | 0 <= r < rows ensures woven[r] == Samples(yuv, vu + r * (2 * half), 1, 2 * half) {
      Doubled(r, half);
      InterleaveRestores(yuv, vu + 2 * (r * half), half);
    }
    RowsArePlane(yuv, vu, 2 * half, woven);
  }

  /** The NV12 rows sent, put back together, are the luma plane and the interleaved chroma plane. */
  lemma Nv12Restored(yuv: Bytes, vu: nat, half: nat, rows: nat)
    requires vu == (2 * rows) * (2 * half) && vu + rows * (2 * half) <= |yuv|
    ensures var s := Nv12Rows(yuv, vu, half, rows);
            Flatten(s.y) == yuv[..vu] && Flatten(Woven(s.cb, s.cr)) == yuv[vu..vu + rows * (2 * half)]
  {
    RowsArePlane(yuv, 0, 2 * half, Nv12Rows(yuv, vu, half, rows).y);
    SamplesAreSlice(yuv, 0, vu);
    WovenNv12(yuv, vu, half, rows);
    SamplesAreSlice(yuv, vu, rows * (2 * half));
  }

  /** The YUYV rows sent, woven back together, are the frame. */
  lemma YuyvRestored(yuv: Bytes, half: nat, rows: nat)
    requires rows * (4 * half) <= |yuv|
    ensures var s := YuyvRows(yuv, half, rows);
            Flatten(Woven(s.y, Woven(s.cb, s.cr))) == yuv[..rows * (4 * half)]
  {
    var s := YuyvRows(yuv, half, rows);
    var woven := Woven(s.y, Woven(s.cb, s.cr));
    forall r | 0 <= r < rows ensures woven[r] == Samples(yuv, r * (4 * half), 1, 4 * half) {
      Doubled(r, half);
      Doubled(r, 2 * half);
      YuyvRestores(yuv, half, r);
      assert s.y[r] == YuyvY(yuv, half, r) && s.cb[r] == YuyvU(yuv, half, r) && s.cr[r] == YuyvV(yuv, half, r);
    }
    RowsArePlane(yuv, 0, 4 * half, woven);
    SamplesAreSlice(yuv, 0, rows * (4 * half));
  }
}
