/**
 JpegBuilder::InsertEXIFAndJpeg: an APP1 segment with the EXIF data is spliced in front of the
 tables of an encoded JPEG.  Offsets and sizes are 32-bit, the length field is computed in 16.
 */
module JpegBuilder {
  import opened Common

  type Byte = b: int | 0 <= b < 256

  const MAX_APP1: nat := 65533        // ExifUtilsImpl::GenerateApp1 refuses more
  const HEAD: nat := 6                // SOI, APP1 marker, APP1 length
  const UINT16: nat := 0x1_0000
  const UINT32: nat := 0x1_0000_0000

  /** DRI or DQT at index i. */
  predicate MarkerAt(d: seq<Byte>, i: nat) {
    i + 1 < |d| && d[i] == 0xff && (d[i + 1] == 0xdd || d[i + 1] == 0xdb)
  }

  /** The first marker that lies wholly in the first size bytes. */
  predicate FirstMarker(d: seq<Byte>, size: nat, i: nat) {
    i + 2 <= size && MarkerAt(d, i) && forall k | 0 <= k < i :: !MarkerAt(d, k)
  }

  predicate HasMarker(d: seq<Byte>, size: nat) {
    exists i :: 0 <= i < size && i + 2 <= size && MarkerAt(d, i)
  }

  /** The markers of ITU-T T.81, table B.1, that start the tables. */
  const DRI: seq<Byte> := [0xff, 0xdd]
  const DQT: seq<Byte> := [0xff, 0xdb]

  /** What the scan stops at is one of these two, wherever either begins. */
  lemma MarkerIsDriOrDqt(d: seq<Byte>, i: nat)
    ensures MarkerAt(d, i) <==> i + 2 <= |d| && (d[i..i + 2] == DRI || d[i..i + 2] == DQT)
  {
    if i + 2 <= |d| {
      assert d[i..i + 2] == [d[i], d[i + 1]];
    }
  }

  // ---------------------------------------------------------------- staying inside the buffers

  /**
   How far into the memory behind pMain the scan looks, from byte i on.  The tests short-circuit, so the
   byte after i is looked at only behind an 0xff; the bound is tested last.
   */
  function Looked(d: seq<Byte>, size: nat, i: nat): nat
    requires i + 1 < |d| && (i + 2 <= size ==> size < |d|)
    decreases size - i
  {
    var top := if d[i] == 0xff then i + 2 else i + 1;
    if MarkerAt(d, i) || i + 2 > size then top else Max(top, Looked(d, size, i + 1))
  }

  /** What the scan needs of a buffer whose first size bytes are the image. */
  predicate ScanFits(main: seq<Byte>, size: nat) {
    && size <= |main|
    && (HasMarker(main, size)
        || var last := Max(size, 1) - 1; last < |main| && (main[last] == 0xff ==> last + 1 < |main|))
  }

  lemma {:induction false} LookedFrom(d: seq<Byte>, size: nat, i: nat)
    requires size + 2 <= |d| && (i == 0 || i < size) && forall k | 0 <= k < i :: !MarkerAt(d, k)
    ensures var last := Max(size, 1) - 1;
            && (HasMarker(d, size) ==> Looked(d, size, i) <= size)
            && (!HasMarker(d, size) ==> Looked(d, size, i) == if d[last] == 0xff then last + 2 else last + 1)
    decreases size - i
  {
    if i + 2 > size {
    } else if MarkerAt(d, i) {
      assert HasMarker(d, size);
    } else {
      LookedFrom(d, size, i + 1);
    }
  }

  /**
   The scan stays inside a buffer of n bytes iff it finds a marker, or n goes past a final 0xff (and past an
   empty image).
   */
  lemma ScanFitsIff(memory: seq<Byte>, n: nat, size: nat)
    requires size <= n <= |memory| && size + 2 <= |memory|
    ensures Looked(memory, size, 0) <= n <==> ScanFits(memory[..n], size)
  {
    LookedFrom(memory, size, 0);
    var main := memory[..n];
    forall i | 0 <= i && i + 2 <= size ensures MarkerAt(memory, i) <==> MarkerAt(main, i) {
    }
  }

  /** One past the last byte of each copy into the destination: SOI, APP1 head, EXIF data, image, EOI. */
  function WriteEnds(offset: nat, exif: nat, mainSize: nat, tables: nat): seq<nat>
    requires tables <= mainSize
  {
    [2, HEAD, HEAD + exif, offset + (mainSize - tables), offset + mainSize + 2]
  }

  predicate SizeChecked(offset: nat, mainSize: nat, dstSize: nat) {
    offset + mainSize + 2 <= dstSize
  }

  predicate WritesFit(offset: nat, exif: nat, mainSize: nat, tables: nat, dstSize: nat)
    requires tables <= mainSize
  {
    forall end | end in WriteEnds(offset, exif, mainSize, tables) :: end <= dstSize
  }

  /**
   The one size check is made with the offset of the first call.  Behind it the copies stay inside this
   destination iff the EXIF data does, and inside every destination that passes iff it ends
   before the image and EOI would with that offset.
   */
  lemma WritesFitIff(offset: nat, exif: nat, mainSize: nat, tables: nat)
    requires HEAD <= offset && tables <= mainSize
    ensures forall dstSize | SizeChecked(offset, mainSize, dstSize) ::
              WritesFit(offset, exif, mainSize, tables, dstSize) <==> HEAD + exif <= dstSize
    ensures (forall dstSize | SizeChecked(offset, mainSize, dstSize) ::
               WritesFit(offset, exif, mainSize, tables, dstSize))
            <==> HEAD + exif <= offset + mainSize + 2
  {
    var ends := WriteEnds(offset, exif, mainSize, tables);
    forall dstSize | SizeChecked(offset, mainSize, dstSize)
      ensures WritesFit(offset, exif, mainSize, tables, dstSize) <==> HEAD + exif <= dstSize
    {
      assert ends[2] in ends;
    }
    assert SizeChecked(offset, mainSize, offset + mainSize + 2);
  }

  // ---------------------------------------------------------------- the length field

  /** (uint16_t)offset - 4, held in 32 bits. */
  function App1Size(offset: nat): nat {
    if offset % UINT16 < 4 then UINT32 + offset % UINT16 - 4 else offset % UINT16 - 4
  }

  function HighByte(size: nat): Byte {
    size / 256 % 256
  }

  function LowByte(size: nat): Byte {
    size % 256
  }

  /** The two bytes count the EXIF data and themselves for every legal size, also where the subtraction wraps. */
  lemma LengthField(exif: nat)
    requires exif <= MAX_APP1
    ensures 256 * HighByte(App1Size(HEAD + exif)) + LowByte(App1Size(HEAD + exif)) == exif + 2
  {
    var size := App1Size(HEAD + exif);
    assert size % UINT16 == exif + 2;
    assert size / 256 % 256 == size % UINT16 / 256;
  }

  /** With an offset taken from another EXIF size, they do so exactly when the sizes agree. */
  lemma LengthFieldIff(first: nat, exif: nat)
    requires first <= MAX_APP1 && exif <= MAX_APP1
    ensures 256 * HighByte(App1Size(HEAD + first)) + LowByte(App1Size(HEAD + first)) == exif + 2 <==> first == exif
  {
    LengthField(first);
  }

  // ---------------------------------------------------------------- reading the result back

  /** SOI, then one APP1 segment: its payload and where the next segment starts (ITU-T T.81, section B.1.1.4). */
  function ParseApp1(d: seq<Byte>): Option<(seq<Byte>, nat)> {
    if |d| < HEAD || d[0] != 0xff || d[1] != 0xd8 || d[2] != 0xff || d[3] != 0xe1 then None
    else
      var length := 256 * (d[4] as int) + d[5] as int;
      if length < 2 || 4 + length > |d| then None else Some((d[HEAD..4 + length], 4 + length))
  }

  /** PastEnd: the next byte to be tested lies behind the buffer. */
  datatype Scan = Found(at: nat) | Missing | PastEnd

  datatype Outcome = Returns(ret: int) | Overruns

  class JpegBuilder {
    var exifData: seq<Byte>
    var requestSize: nat
    var mainJpgOffset: Option<nat>      // the function-local static: set by the first call, for good

    constructor ()
      ensures mainJpgOffset == None && exifData == []
    {
      exifData, requestSize, mainJpgOffset := [], 0, None;
    }

    /** The bytes in front of the main image. */
    method WriteHead(dst: array<Byte>, offset: nat)
      requires HEAD + |exifData| <= dst.Length
      modifies dst
      ensures dst[..HEAD] == [0xff, 0xd8, 0xff, 0xe1, HighByte(App1Size(offset)), LowByte(App1Size(offset))]
      ensures dst[HEAD..HEAD + |exifData|] == exifData
      ensures forall k | HEAD + |exifData| <= k < dst.Length :: dst[k] == old(dst[k])
    {
      dst[0], dst[1] := 0xff, 0xd8;
      dst[2], dst[3], dst[4], dst[5] := 0xff, 0xe1, 0, 0;
      var app1Size := App1Size(offset);
      dst[4] := HighByte(app1Size);
      dst[5] := LowByte(app1Size);
      forall k | 0 <= k < |exifData| {
        dst[HEAD + k] := exifData[k];
      }
    }

    /** The scan for the first DRI or DQT, one byte at a time. */
    method FindTables(main: seq<Byte>, mainSize: nat) returns (scan: Scan)
      requires mainSize <= |main|
      ensures scan.PastEnd? <==> !ScanFits(main, mainSize)
      ensures scan.Found? ==> FirstMarker(main, mainSize, scan.at)
      ensures scan.Missing? ==> !HasMarker(main, mainSize)
    {
      var i := 0;
      while true
        invariant i == 0 || i < mainSize
        invariant forall k | 0 <= k < i :: !MarkerAt(main, k)
        decreases mainSize - i
      {
        if i >= |main| {
          return PastEnd;
        }
        if main[i] == 0xff {
          if i + 1 >= |main| {
            return PastEnd;
          }
          if main[i + 1] == 0xdd || main[i + 1] == 0xdb {
            break;
          }
        }
        if i + 2 > mainSize {
          break;
        }
        i := i + 1;
      }
      assert i < |main| && (main[i] == 0xff ==> i + 1 < |main|);
      assert i + 2 <= mainSize ==> MarkerAt(main, i);
      assert i + 2 > mainSize ==> i == Max(mainSize, 1) - 1;
      scan := if i + 2 > mainSize then Missing else Found(i);
    }

    /** InsertMainJpeg, and the final EOI; i is where the tables start. */
    method WriteMain(main: seq<Byte>, mainSize: nat, dst: array<Byte>, offset: nat) returns (end: Outcome, ghost i: nat)
      requires mainSize <= |main| && offset + mainSize + 2 <= dst.Length
      modifies dst
      ensures end.Overruns? <==> !ScanFits(main, mainSize)
      ensures end.Returns? ==> end.ret == if HasMarker(main, mainSize) then 0 else -1
      ensures forall k | 0 <= k < offset :: dst[k] == old(dst[k])
      ensures end == Returns(0) ==>
                && FirstMarker(main, mainSize, i)
                && (forall k | offset <= k < offset + (mainSize - i) :: dst[k] == main[i + (k - offset)])
                && (forall k | offset + (mainSize - i) <= k < offset + mainSize :: dst[k] == old(dst[k]))
                && dst[offset + mainSize] == 0xff && dst[offset + mainSize + 1] == 0xd9
    {
      var scan := FindTables(main, mainSize);
      i := 0;
      match scan
      case PastEnd => end := Overruns;
      case Missing => end := Returns(-1);
      case Found(start) =>
        i := start;
        forall k | start <= k < mainSize {
          dst[offset + (k - start)] := main[k];
        }
        dst[offset + mainSize], dst[offset + mainSize + 1] := 0xff, 0xd9;
        end := Returns(0);
    }

    /** Where the image goes: the function-local static, or what it is about to be set to. */
    function Offset(): nat
      reads this
    {
      if mainJpgOffset.Some? then mainJpgOffset.value else HEAD + |exifData|
    }

    /**
     InsertEXIFAndJpeg on a buffer main of which mainSize bytes are the image.  Overruns: it would read
     past that buffer, or write past the destination; ScanFitsIff and WritesFitIff say when that is.
     */
    method InsertEXIFAndJpeg(main: seq<Byte>, mainSize: nat, dst: array<Byte>) returns (end: Outcome)
      requires |exifData| <= MAX_APP1 && mainSize + MAX_APP1 + 8 < UINT32
      requires HEAD <= Offset() <= HEAD + MAX_APP1 && mainSize <= |main|
      modifies this`requestSize, this`mainJpgOffset, dst
      ensures mainJpgOffset == Some(old(Offset()))
      ensures requestSize == mainJpgOffset.value + mainSize + 2
      ensures end.Overruns? <==>
                dst.Length >= requestSize && (HEAD + |exifData| > dst.Length || !ScanFits(main, mainSize))
      ensures end.Returns? ==> end.ret == if dst.Length >= requestSize && HasMarker(main, mainSize) then 0 else -1
      ensures dst.Length < requestSize ==> dst[..] == old(dst[..])
      ensures end == Returns(0) && mainJpgOffset == Some(HEAD + |exifData|) ==>
                exists i: nat :: FirstMarker(main, mainSize, i)
                                 && Spliced(dst[..requestSize], old(dst[..]), exifData, main[i..mainSize], mainSize)
    {
      if mainJpgOffset.None? {
        mainJpgOffset := Some(HEAD + |exifData|);
      }
      var offset := mainJpgOffset.value;
      requestSize := offset + mainSize + 2;
      if dst.Length < requestSize {
        return Returns(-1);
      }
      if HEAD + |exifData| > dst.Length {
        return Overruns;
      }
      WriteHead(dst, offset);
      ghost var head, i := dst[..HEAD + |exifData|], 0;
      end, i := WriteMain(main, mainSize, dst, offset);
      if end == Returns(0) && offset == HEAD + |exifData| {
        SplicedFrom(dst[..requestSize], old(dst[..]), exifData, main[i..mainSize], mainSize, head);
      }
    }
  }

  lemma SplicedFrom(d: seq<Byte>, was: seq<Byte>, exif: seq<Byte>, tables: seq<Byte>, mainSize: nat,
                    head: seq<Byte>)
    requires |exif| <= MAX_APP1 && |tables| <= mainSize && |d| == HEAD + |exif| + mainSize + 2 <= |was| && |head| == HEAD + |exif|
    requires head[..HEAD] == [0xff, 0xd8, 0xff, 0xe1, HighByte(App1Size(HEAD + |exif|)), LowByte(App1Size(HEAD + |exif|))]
    requires head[HEAD..] == exif
    requires forall k | 0 <= k < |head| :: d[k] == head[k]
    requires forall k | |head| <= k < |head| + |tables| :: d[k] == tables[k - |head|]
    requires forall k | |head| + |tables| <= k < |head| + mainSize :: d[k] == was[k]
    requires d[|head| + mainSize] == 0xff && d[|head| + mainSize + 1] == 0xd9
    ensures Spliced(d, was, exif, tables, mainSize)
  {
    assert d[..HEAD] == head[..HEAD] && d[HEAD..HEAD + |exif|] == head[HEAD..];
  }

  /** Head with a right length, EXIF data, the image from its tables on, what was there before, EOI. */
  predicate Spliced(d: seq<Byte>, was: seq<Byte>, exif: seq<Byte>, tables: seq<Byte>, mainSize: nat) {
    var offset := HEAD + |exif|;
    && |exif| <= MAX_APP1 && |tables| <= mainSize && |d| == offset + mainSize + 2 <= |was|
    && d[..HEAD] == [0xff, 0xd8, 0xff, 0xe1, HighByte(App1Size(offset)), LowByte(App1Size(offset))]
    && d[HEAD..offset] == exif
    && d[offset..offset + |tables|] == tables
    && d[offset + |tables|..offset + mainSize] == was[offset + |tables|..offset + mainSize]
    && d[offset + mainSize..] == [0xff, 0xd9]
  }

  /**
   What comes out parses back: APP1 holds the EXIF data, the next segment is the image's DRI or DQT, and EOI is
   last.
   */
  lemma SplicedParses(d: seq<Byte>, was: seq<Byte>, exif: seq<Byte>, main: seq<Byte>, mainSize: nat, i: nat)
    requires mainSize <= |main| && FirstMarker(main, mainSize, i) && Spliced(d, was, exif, main[i..mainSize], mainSize)
    ensures ParseApp1(d) == Some((exif, HEAD + |exif|))
    ensures MarkerAt(d, HEAD + |exif|) && main[i..mainSize] <= d[HEAD + |exif|..]
    ensures d[|d| - 2..] == [0xff, 0xd9]
  {
    LengthField(|exif|);
    var offset, tables := HEAD + |exif|, main[i..mainSize];
    assert d[..HEAD][4] == d[4] && d[..HEAD][5] == d[5];
    assert d[..HEAD][0] == d[0] && d[..HEAD][1] == d[1] && d[..HEAD][2] == d[2] && d[..HEAD][3] == d[3];
    assert d[offset..offset + |tables|][0] == d[offset] && d[offset..offset + |tables|][1] == d[offset + 1];
    assert d[offset..][..|tables|] == d[offset..offset + |tables|];
  }
}
