/**
 Splitting a chunk of bytes into Ogg pages (section 6 of RFC 3533), the way the
 page loop of the unified sink does it: it stops at the first position where the
 capture pattern is missing or where the header, the segment table or the body
 runs past the end of the chunk.
 */
module OggPages {
  import opened Base

  const CAPTURE_PATTERN: seq<Byte> := [0x4f, 0x67, 0x67, 0x53]

  datatype Page = Page(granule: int, serial: nat, bytes: seq<Byte>)

  /** Little-endian unsigned 32-bit value. */
  function U32(b: seq<Byte>): (v: nat)
    requires |b| == 4
    ensures v < 0x1_0000_0000
  {
    b[0] as int + 0x100 * (b[1] as int) + 0x1_0000 * (b[2] as int) + 0x100_0000 * (b[3] as int)
  }

  /** Little-endian two's complement 64-bit value. */
  function I64(b: seq<Byte>): (v: int)
    requires |b| == 8
    ensures -0x8000_0000_0000_0000 <= v < 0x8000_0000_0000_0000
  {
    var u := U32(b[..4]) + 0x1_0000_0000 * U32(b[4..]);
    if u < 0x8000_0000_0000_0000 then u else u - 0x1_0000_0000_0000_0000
  }

  function Sum(b: seq<Byte>): (n: nat) {
    if b == [] then 0 else b[0] + Sum(b[1..])
  }

  /** The page at the start of `b`, or None where the loop gives up. */
  function ParsePage(b: seq<Byte>): (r: Option<Page>)
    ensures r.Some? ==> 27 <= |r.value.bytes| <= |b| && r.value.bytes == b[..|r.value.bytes|]
  {
    if |b| < 27 || b[..4] != CAPTURE_PATTERN then None
    else
      var segments := b[26];
      if |b| < 27 + segments then None
      else
        var size := 27 + segments + Sum(b[27..27 + segments]);
        if |b| < size then None
        else Some(Page(I64(b[6..14]), U32(b[14..18]), b[..size]))
  }

  /** Every page the loop sees in a chunk, in order. */
  function Pages(b: seq<Byte>): seq<Page> {
    match ParsePage(b)
    case None => []
    case Some(p) => [p] + Pages(b[|p.bytes|..])
  }

  /** What is left of the chunk when the loop stops. */
  function Leftover(b: seq<Byte>): seq<Byte> {
    match ParsePage(b)
    case None => b
    case Some(p) => Leftover(b[|p.bytes|..])
  }

  function Glue(ps: seq<Page>): seq<Byte> {
    if ps == [] then [] else ps[0].bytes + Glue(ps[1..])
  }

  /** The pages and the leftover are the chunk: no byte is skipped, repeated or reordered. */
  lemma {:induction false} PagesTileChunk(b: seq<Byte>)
    ensures Glue(Pages(b)) + Leftover(b) == b
  {
    match ParsePage(b)
    case None =>
    case Some(p) =>
      PagesTileChunk(b[|p.bytes|..]);
      GlueStep(b, p, Pages(b[|p.bytes|..]), Leftover(b[|p.bytes|..]));
  }

  lemma GlueStep(b: seq<Byte>, p: Page, ps: seq<Page>, left: seq<Byte>)
    requires |p.bytes| <= |b| && p.bytes == b[..|p.bytes|]
    requires Glue(ps) + left == b[|p.bytes|..]
    ensures Glue([p] + ps) + left == b
  {
    assert ([p] + ps)[1..] == ps;
    assert p.bytes + Glue(ps) + left == p.bytes + (Glue(ps) + left);
  }

  /** A page that fits is read the same whatever follows it. */
  lemma ParsePagePrefix(a: seq<Byte>, b: seq<Byte>)
    requires ParsePage(a).Some?
    ensures ParsePage(a + b) == ParsePage(a)
  {
    var c := a + b;
    var segments := a[26];
    assert c[..4] == a[..4] && c[6..14] == a[6..14] && c[14..18] == a[14..18];
    assert c[27..27 + segments] == a[27..27 + segments];
    var size := 27 + segments + Sum(a[27..27 + segments]);
    assert c[..size] == a[..size];
  }

  lemma Unfold(b: seq<Byte>)
    ensures ParsePage(b) == None ==> Pages(b) == [] && Leftover(b) == b
    ensures forall p :: ParsePage(b) == Some(p) ==>
              Pages(b) == [p] + Pages(b[|p.bytes|..]) && Leftover(b) == Leftover(b[|p.bytes|..])
  {
    hide ParsePage;
  }

  /** Whole pages first: the pages of a concatenation are the concatenated pages. */
  lemma {:induction false} PagesOfConcat(a: seq<Byte>, b: seq<Byte>)
    requires Leftover(a) == []
    ensures Pages(a + b) == Pages(a) + Pages(b)
    ensures Leftover(a + b) == Leftover(b)
  {
    hide ParsePage, Pages, Leftover;
    Unfold(a);
    match ParsePage(a)
    case None =>
      assert a + b == b;
    case Some(p) =>
      ParsePagePrefix(a, b);
      Unfold(a + b);
      var rest := a[|p.bytes|..];
      assert (a + b)[|p.bytes|..] == rest + b;
      PagesOfConcat(rest, b);
  }

  /** A page as section 6 of RFC 3533 lays it out: fixed header, segment table, body. */
  function Layout(version: seq<Byte>, granule: seq<Byte>, serial: seq<Byte>, sequenceAndCrc: seq<Byte>,
                  lacing: seq<Byte>, body: seq<Byte>): seq<Byte>
    requires |lacing| < 256
  {
    FixedHeader(version, granule, serial, sequenceAndCrc) + ([|lacing|] + lacing + body)
  }

  function FixedHeader(version: seq<Byte>, granule: seq<Byte>, serial: seq<Byte>, sequenceAndCrc: seq<Byte>)
    : seq<Byte>
  {
    CAPTURE_PATTERN + version + granule + serial + sequenceAndCrc
  }

  lemma FixedFields(version: seq<Byte>, granule: seq<Byte>, serial: seq<Byte>, sequenceAndCrc: seq<Byte>)
    requires |version| == 2 && |granule| == 8 && |serial| == 4 && |sequenceAndCrc| == 8
    ensures var h := FixedHeader(version, granule, serial, sequenceAndCrc);
            |h| == 26 && h[..4] == CAPTURE_PATTERN && h[6..14] == granule && h[14..18] == serial
  {
  }

  /** Any page laid out by the standard, followed by anything, is read back with its granule and serial. */
  lemma StandardPageIsRead(version: seq<Byte>, granule: seq<Byte>, serial: seq<Byte>, sequenceAndCrc: seq<Byte>,
                           lacing: seq<Byte>, body: seq<Byte>, rest: seq<Byte>)
    requires |version| == 2 && |granule| == 8 && |serial| == 4 && |sequenceAndCrc| == 8
    requires |lacing| < 256 && |body| == Sum(lacing)
    ensures ParsePage(Layout(version, granule, serial, sequenceAndCrc, lacing, body) + rest)
         == Some(Page(I64(granule), U32(serial), Layout(version, granule, serial, sequenceAndCrc, lacing, body)))
  {
    var h := FixedHeader(version, granule, serial, sequenceAndCrc);
    FixedFields(version, granule, serial, sequenceAndCrc);
    PageFromParts(h, lacing, body);
    ParsePagePrefix(h + ([|lacing|] + lacing + body), rest);
  }

  lemma PageFromParts(h: seq<Byte>, lacing: seq<Byte>, body: seq<Byte>)
    requires |h| == 26 && h[..4] == CAPTURE_PATTERN
    requires |lacing| < 256 && |body| == Sum(lacing)
    ensures var page := h + ([|lacing|] + lacing + body);
            ParsePage(page) == Some(Page(I64(h[6..14]), U32(h[14..18]), page))
  {
    hide I64, U32, Sum;
    var page := h + ([|lacing|] + lacing + body);
    PartsOfPage(h, lacing, body);
    assert page[..|page|] == page;
    assert page[26] == |lacing| && page[27..27 + page[26] as int] == lacing;
  }

  lemma PartsOfPage(h: seq<Byte>, lacing: seq<Byte>, body: seq<Byte>)
    requires |h| == 26 && |lacing| < 256
    ensures var page := h + ([|lacing|] + lacing + body);
            |page| == 27 + |lacing| + |body| && page[..4] == h[..4] && page[6..14] == h[6..14]
            && page[14..18] == h[14..18] && page[26] == |lacing| && page[27..27 + |lacing|] == lacing
  {
    var page := h + ([|lacing|] + lacing + body);
    assert page[27..27 + |lacing|] == lacing;
    assert page[6..14] == h[6..14];
  }

  // ---------------------------------------------------------------------------------------
  // What the numbers of a page are
  // ---------------------------------------------------------------------------------------

  /** The capture pattern is the four characters of the standard. */
  lemma CapturePatternIsOggS()
    ensures |CAPTURE_PATTERN| == |"OggS"| && forall i | 0 <= i < 4 :: CAPTURE_PATTERN[i] == "OggS"[i] as int
  {
  }

  /** `size` bytes of `v`, the least significant first. */
  function LittleEndian(v: nat, size: nat): (b: seq<Byte>)
    ensures |b| == size
  {
    if size == 0 then [] else [v % 256] + LittleEndian(v / 256, size - 1)
  }

  lemma LittleEndianBytes(v: nat)
    ensures LittleEndian(v, 4) == [v % 256, v / 256 % 256, v / 256 / 256 % 256, v / 256 / 256 / 256 % 256]
  {
    assert LittleEndian(v / 256 / 256 / 256, 1) == [v / 256 / 256 / 256 % 256];
    assert LittleEndian(v / 256 / 256, 2) == [v / 256 / 256 % 256] + LittleEndian(v / 256 / 256 / 256, 1);
    assert LittleEndian(v / 256, 3) == [v / 256 % 256] + LittleEndian(v / 256 / 256, 2);
  }

  /** A 32-bit number is read back from its little-endian bytes. */
  lemma U32IsLittleEndian(v: nat)
    requires v < 0x1_0000_0000
    ensures U32(LittleEndian(v, 4)) == v
  {
    LittleEndianBytes(v);
  }

  lemma LittleEndianHalves(v: nat)
    ensures LittleEndian(v, 8)[..4] == LittleEndian(v, 4)
    ensures LittleEndian(v, 8)[4..] == LittleEndian(v / 0x1_0000_0000, 4)
  {
    LittleEndianSplit(v, 4, 4);
    assert Shifted(v, 1) == v / 256;
    assert Shifted(v, 2) == v / 256 / 256;
    assert Shifted(v, 3) == v / 256 / 256 / 256;
    assert Shifted(v, 4) == v / 256 / 256 / 256 / 256 == v / 0x1_0000_0000;
  }

  /** `v` without its `n` least significant bytes. */
  function Shifted(v: nat, n: nat): nat {
    if n == 0 then v else Shifted(v, n - 1) / 256
  }

  lemma {:induction false} ShiftedFirst(v: nat, n: nat)
    requires n > 0
    ensures Shifted(v, n) == Shifted(v / 256, n - 1)
  {
    if n > 1 {
      ShiftedFirst(v, n - 1);
    }
  }

  lemma {:induction false} LittleEndianSplit(v: nat, n: nat, m: nat)
    ensures LittleEndian(v, n + m) == LittleEndian(v, n) + LittleEndian(Shifted(v, n), m)
  {
    if n == 0 {
      assert [] + LittleEndian(v, m) == LittleEndian(v, m);
    } else {
      LittleEndianSplit(v / 256, n - 1, m);
      ShiftedFirst(v, n);
    }
  }

  function TwosComplement(v: int): (u: nat)
    requires -0x8000_0000_0000_0000 <= v < 0x8000_0000_0000_0000
    ensures u < U64_LIMIT
  {
    if v < 0 then v + U64_LIMIT else v
  }

  /** A signed 64-bit number is read back from the little-endian bytes of its two's complement. */
  lemma I64IsLittleEndian(v: int)
    requires -0x8000_0000_0000_0000 <= v < 0x8000_0000_0000_0000
    ensures I64(LittleEndian(TwosComplement(v), 8)) == v
  {
    var u := TwosComplement(v);
    LittleEndianHalves(u);
    U32IsLittleEndian(u % 0x1_0000_0000);
    U32IsLittleEndian(u / 0x1_0000_0000);
    LowBytes(u);
    hide U32, LittleEndian;
  }

  lemma LowBytes(u: nat)
    ensures LittleEndian(u, 4) == LittleEndian(u % 0x1_0000_0000, 4)
  {
    var w, h := u % 0x1_0000_0000, u / 0x1_0000_0000;
    LittleEndianBytes(u);
    LittleEndianBytes(w);
    hide LittleEndian;
    NextByte(u, w, 0x100_0000 * h);
    NextByte(u / 256, w / 256, 0x1_0000 * h);
    NextByte(u / 256 / 256, w / 256 / 256, 0x100 * h);
    NextByte(u / 256 / 256 / 256, w / 256 / 256 / 256, h);
  }

  lemma NextByte(u: nat, w: nat, k: nat)
    requires u == w + 256 * k
    ensures u % 256 == w % 256 && u / 256 == w / 256 + k
  {
  }

  /** The lacing values of one packet: 255 as often as it fits, then the rest. */
  function Lacing(size: nat): seq<Byte> {
    if size < 255 then [size] else [255] + Lacing(size - 255)
  }

  function Lacings(sizes: seq<nat>): seq<Byte> {
    if sizes == [] then [] else Lacing(sizes[0]) + Lacings(sizes[1..])
  }

  function TotalSize(sizes: seq<nat>): nat {
    if sizes == [] then 0 else sizes[0] + TotalSize(sizes[1..])
  }

  lemma {:induction false} SumConcat(a: seq<Byte>, b: seq<Byte>)
    ensures Sum(a + b) == Sum(a) + Sum(b)
  {
    if a == [] {
      assert a + b == b;
    } else {
      assert (a + b)[1..] == a[1..] + b;
      SumConcat(a[1..], b);
    }
  }

  lemma {:induction false} LacingSums(size: nat)
    ensures Sum(Lacing(size)) == size
  {
    if size >= 255 {
      LacingSums(size - 255);
      assert Lacing(size)[1..] == Lacing(size - 255);
    }
  }

  /** The segment table of any packets sums up to their size. */
  lemma {:induction false} LacingsSum(sizes: seq<nat>)
    ensures Sum(Lacings(sizes)) == TotalSize(sizes)
  {
    if sizes != [] {
      LacingSums(sizes[0]);
      LacingsSum(sizes[1..]);
      SumConcat(Lacing(sizes[0]), Lacings(sizes[1..]));
    }
  }

  /** A page of any packets with any 64-bit granule and 32-bit serial is read back, whatever follows it. */
  lemma PageOfPacketsIsRead(version: seq<Byte>, granule: int, serial: nat, sequenceAndCrc: seq<Byte>,
                            sizes: seq<nat>, body: seq<Byte>, rest: seq<Byte>)
    requires |version| == 2 && |sequenceAndCrc| == 8 && serial < 0x1_0000_0000
    requires -0x8000_0000_0000_0000 <= granule < 0x8000_0000_0000_0000
    requires |Lacings(sizes)| < 256 && |body| == TotalSize(sizes)
    ensures var page := Layout(version, LittleEndian(TwosComplement(granule), 8), LittleEndian(serial, 4),
                               sequenceAndCrc, Lacings(sizes), body);
            ParsePage(page + rest) == Some(Page(granule, serial, page))
  {
    hide ParsePage, Layout, LittleEndian, Lacings, TotalSize, Sum, I64, U32;
    U32IsLittleEndian(serial);
    I64IsLittleEndian(granule);
    LacingsSum(sizes);
    StandardPageIsRead(version, LittleEndian(TwosComplement(granule), 8), LittleEndian(serial, 4), sequenceAndCrc,
                       Lacings(sizes), body, rest);
  }

  /** Nothing else is read as a page: what was read is laid out by the standard. */
  lemma ParsedPageIsStandard(b: seq<Byte>)
    requires ParsePage(b).Some?
    ensures var p := ParsePage(b).value;
            var lacing, body := b[27..27 + b[26] as int], b[27 + b[26] as int..|p.bytes|];
            && |body| == Sum(lacing) && p.granule == I64(b[6..14]) && p.serial == U32(b[14..18])
            && p.bytes == Layout(b[4..6], b[6..14], b[14..18], b[18..26], lacing, body)
  {
    hide I64, U32;
    var segments: int := b[26];
    var size := 27 + segments + Sum(b[27..27 + segments]);
    assert b[..size] == b[..4] + b[4..6] + b[6..14] + b[14..18] + b[18..26] + ([b[26]] + b[27..27 + segments]
                        + b[27 + segments..size]);
  }
}
