/** The Zstandard frame inspector: which byte sequences it accepts and which layout it reports.
    The printer follows sections 3.1.1 and 3.1.2 of RFC 8878; the limits are those of the inspector. */
module ZstdFrames {
  import opened Basics
  import opened Lines
  import opened ByteFields
  import opened FrameReading

  datatype Limits = Limits(logical: nat, window: nat)

  const MAX_FRAMES: nat := 100000
  const MAX_BLOCK: nat := 131072
  const CHUNK_BYTES: nat := 65536
  const ZSTD_MAGIC: nat := 0xFD2FB528
  const SKIPPABLE_MAGIC: nat := 0x184D2A50

  // ---- Frames and how they are written -------------------------------------------------------------

  /** A frame header without its magic. Absent fields are 0; the dictionary identifier is always 0. */
  datatype Header = Header(single: bool, descriptor: nat, sizeFlag: nat, size: nat, dictFlag: nat, checksummed: bool)

  /** Kind 0 is raw, 1 repeats one byte, 2 is compressed. */
  datatype Block = Block(kind: nat, size: nat, body: seq<Byte>)

  datatype Frame =
    | Skippable(variant: nat, payload: seq<Byte>)
    | Zstd(header: Header, blocks: seq<Block>, checksum: nat)

  function DictBytes(flag: nat): nat {
    if flag == 0 then 0 else if flag == 1 then 1 else if flag == 2 then 2 else 4
  }

  function SizeBytes(single: bool, flag: nat): nat {
    if flag == 0 then (if single then 1 else 0) else if flag == 1 then 2 else if flag == 2 then 4 else 8
  }

  function Power2(n: nat): nat {
    if n == 0 then 1 else 2 * Power2(n - 1)
  }

  function ContentSize(h: Header): Option<nat> {
    var n := SizeBytes(h.single, h.sizeFlag);
    if n == 0 then None else Some(h.size + if n == 2 then 256 else 0)
  }

  function WindowSize(h: Header): nat {
    if h.single then (if ContentSize(h).Some? then ContentSize(h).value else 0)
    else
      var base := Power2(10 + h.descriptor / 8);
      base + base / 8 * (h.descriptor % 8)
  }

  function BlockBound(h: Header): nat {
    if WindowSize(h) < MAX_BLOCK then WindowSize(h) else MAX_BLOCK
  }

  function FlagByte(h: Header): nat {
    64 * h.sizeFlag + (if h.single then 32 else 0) + (if h.checksummed then 4 else 0) + h.dictFlag
  }

  predicate HeaderShape(h: Header) {
    && h.sizeFlag < 4 && h.dictFlag < 4 && h.descriptor < 256 && (h.single ==> h.descriptor == 0)
    && h.size < Pow256(SizeBytes(h.single, h.sizeFlag))
  }

  predicate HeaderOk(h: Header, limits: Limits) {
    && HeaderShape(h)
    && WindowSize(h) <= limits.window
    && (ContentSize(h).Some? ==> ContentSize(h).value <= limits.logical)
  }

  function BodyLength(kind: nat, size: nat): nat {
    if kind == 1 then 1 else size
  }

  predicate BlockOk(block: Block, bound: nat) {
    block.kind < 3 && block.size <= bound && |block.body| == BodyLength(block.kind, block.size)
  }

  predicate BlocksOk(blocks: seq<Block>, bound: nat) {
    blocks != [] ==> BlockOk(blocks[0], bound) && BlocksOk(blocks[1..], bound)
  }

  predicate FrameOk(f: Frame, limits: Limits) {
    match f
    case Skippable(variant, payload) => variant < 16 && |payload| < Pow256(4)
    case Zstd(h, blocks, checksum) =>
      && HeaderOk(h, limits) && blocks != [] && BlocksOk(blocks, BlockBound(h))
      && checksum < Pow256(4) && (!h.checksummed ==> checksum == 0)
  }

  function WriteHeader(h: Header): (r: seq<Byte>)
    requires HeaderShape(h)
    ensures |r| > 0
  {
    LeBytes(FlagByte(h), 1) + (LeBytes(h.descriptor, if h.single then 0 else 1)
      + (LeBytes(0, DictBytes(h.dictFlag)) + LeBytes(h.size, SizeBytes(h.single, h.sizeFlag))))
  }

  function BlockHead(kind: nat, size: nat, last: bool): nat {
    (if last then 1 else 0) + 2 * kind + 8 * size
  }

  function WriteBlock(block: Block, last: bool): (r: seq<Byte>)
    ensures |r| == 3 + |block.body|
  {
    LeBytes(BlockHead(block.kind, block.size, last), 3) + block.body
  }

  function WriteBlocks(blocks: seq<Block>): seq<Byte> {
    if |blocks| == 0 then [] else WriteBlock(blocks[0], |blocks| == 1) + WriteBlocks(blocks[1..])
  }

  function WriteFrame(f: Frame, limits: Limits): (r: seq<Byte>)
    requires FrameOk(f, limits)
    ensures |r| > 4
  {
    match f
    case Skippable(variant, payload) => LeBytes(SKIPPABLE_MAGIC + variant, 4) + (LeBytes(|payload|, 4) + payload)
    case Zstd(h, blocks, checksum) =>
      LeBytes(ZSTD_MAGIC, 4) + (WriteHeader(h) + (WriteBlocks(blocks) + LeBytes(checksum, if h.checksummed then 4 else 0)))
  }

  // ---- What the inspector reads --------------------------------------------------------------------

  function ParseHeader(b: seq<Byte>, pos: nat): (r: Option<(Header, nat)>)
    ensures r.Some? ==> pos < r.value.1 <= |b| && HeaderShape(r.value.0)
  {
    if pos + 1 > |b| then None
    else
      var flags := b[pos];
      var single := flags / 32 % 2 == 1;
      var afterWindow := if single then pos + 1 else pos + 2;
      var afterDict := afterWindow + DictBytes(flags % 4);
      var end := afterDict + SizeBytes(single, flags / 64);
      if flags / 8 % 4 != 0 || end > |b| || Num(b, afterWindow, DictBytes(flags % 4)) != 0 then None
      else Some((Header(single, if single then 0 else b[pos + 1], flags / 64,
                        Num(b, afterDict, SizeBytes(single, flags / 64)), flags % 4, flags / 4 % 2 == 1), end))
  }

  type Parsed = Option<(seq<Block>, nat)>

  function ParseBlocks(b: seq<Byte>, pos: nat, bound: nat): (r: Option<(seq<Block>, nat)>)
    ensures r.Some? ==> r.value.0 != [] && pos < r.value.1 <= |b|
    decreases |b| - pos
  {
    if pos + 3 > |b| then None
    else
      var head := Num(b, pos, 3);
      var kind, size := head / 2 % 4, head / 8;
      var end := pos + 3 + BodyLength(kind, size);
      if kind == 3 || size > bound || end > |b| then None
      else
        var block := Block(kind, size, b[pos + 3..end]);
        if head % 2 == 1 then Some(([block], end))
        else
          var rest := ParseBlocks(b, end, bound);
          if rest.None? then None else Some(([block] + rest.value.0, rest.value.1))
  }

  function ParseFrame(b: seq<Byte>, pos: nat, limits: Limits): (r: Option<(Frame, nat)>)
    ensures r.Some? ==> pos < r.value.1 <= |b|
  {
    if pos + 4 > |b| then None
    else
      var magic := Num(b, pos, 4);
      if magic / 16 * 16 == SKIPPABLE_MAGIC then
        if pos + 8 > |b| || pos + 8 + Num(b, pos + 4, 4) > |b| then None
        else
          var end := pos + 8 + Num(b, pos + 4, 4);
          Some((Skippable(magic % 16, b[pos + 8..end]), end))
      else if magic != ZSTD_MAGIC then None
      else
        var header := ParseHeader(b, pos + 4);
        if header.None? || !HeaderOk(header.value.0, limits) then None
        else
          var h := header.value.0;
          var blocks := ParseBlocks(b, header.value.1, BlockBound(h));
          if blocks.None? || (h.checksummed && blocks.value.1 + 4 > |b|) then None
          else
            var end := blocks.value.1;
            Some((Zstd(h, blocks.value.0, if h.checksummed then Num(b, end, 4) else 0), if h.checksummed then end + 4 else end))
  }

  // ---- Reading inverts writing, and only written frames are read ------------------------------------

  lemma Numbers()
    ensures Pow256(0) == 1 && Pow256(1) == 256 && Pow256(2) == 65536 && Pow256(3) == 16777216 && Pow256(4) == 4294967296
  {
    assert Pow256(4) == 256 * (256 * (256 * (256 * Pow256(0))));
  }

  lemma FlagByteDigits(h: Header)
    requires h.sizeFlag < 4 && h.dictFlag < 4
    ensures var f := FlagByte(h);
            && f < 256 && f / 64 == h.sizeFlag && (f / 32 % 2 == 1 <==> h.single) && f / 8 % 4 == 0
            && (f / 4 % 2 == 1 <==> h.checksummed) && f % 4 == h.dictFlag
  {
  }

  lemma FlagByteComposed(f: nat, h: Header)
    requires f < 256 && f / 8 % 4 == 0
    requires h.sizeFlag == f / 64 && (h.single <==> f / 32 % 2 == 1)
    requires (h.checksummed <==> f / 4 % 2 == 1) && h.dictFlag == f % 4
    ensures FlagByte(h) == f
  {
    assert f / 8 == f / 4 / 2 && f / 32 == f / 8 / 4 && f / 64 == f / 32 / 2;
    assert f == 4 * (f / 4) + f % 4 && f / 4 == 2 * (f / 8) + f / 4 % 2;
    assert f / 8 == 4 * (f / 32) && f / 32 == 2 * (f / 64) + f / 32 % 2;
  }

  /** A header is read at a position exactly when its bytes stand there. */
  lemma HeaderField(b: seq<Byte>, pos: nat, h: Header)
    requires HeaderShape(h)
    ensures Has(b, pos, WriteHeader(h)) <==> ParseHeader(b, pos) == Some((h, pos + |WriteHeader(h)|))
  {
    hide LeBytes, Num, Has, ParseHeader;
    Numbers();
    FlagByteDigits(h);
    var w, d, n := (if h.single then 0 else 1), DictBytes(h.dictFlag), SizeBytes(h.single, h.sizeFlag);
    var fb, wb, db, nb := LeBytes(FlagByte(h), 1), LeBytes(h.descriptor, w), LeBytes(0, d), LeBytes(h.size, n);
    HasSplit(b, pos, fb, wb + (db + nb));
    HasSplit(b, pos + 1, wb, db + nb);
    HasSplit(b, pos + 1 + w, db, nb);
    NumberField(b, pos, FlagByte(h), 1);
    NumberField(b, pos + 1, h.descriptor, w);
    NumberField(b, pos + 1 + w, 0, d);
    NumberField(b, pos + 1 + w + d, h.size, n);
    HeaderParts(b, pos, h);
  }

  lemma HeaderParts(b: seq<Byte>, pos: nat, h: Header)
    requires HeaderShape(h)
    ensures var w, d, n := (if h.single then 0 else 1), DictBytes(h.dictFlag), SizeBytes(h.single, h.sizeFlag);
            ParseHeader(b, pos) == Some((h, pos + 1 + w + d + n)) <==>
            && pos + 1 + w + d + n <= |b|
            && Num(b, pos, 1) == FlagByte(h) && Num(b, pos + 1, w) == h.descriptor
            && Num(b, pos + 1 + w, d) == 0 && Num(b, pos + 1 + w + d, n) == h.size
  {
    FlagByteDigits(h);
    if pos < |b| {
      assert Num(b, pos, 1) == b[pos] + 256 * Num(b, pos + 1, 0);
      if pos + 1 < |b| { assert Num(b, pos + 1, 1) == b[pos + 1] + 256 * Num(b, pos + 2, 0); }
      if ParseHeader(b, pos).Some? && ParseHeader(b, pos).value.0 == h { FlagByteComposed(b[pos], h); }
    }
  }

  lemma BlockHeadDigits(last: bool, kind: nat, size: nat)
    requires kind < 4 && size < 2097152
    ensures var v := BlockHead(kind, size, last);
            v < 16777216 && v / 8 == size && v / 2 % 4 == kind && (v % 2 == 1 <==> last)
  {
  }

  lemma BlockHeadComposed(v: nat, last: bool)
    requires last <==> v % 2 == 1
    ensures v == BlockHead(v / 2 % 4, v / 8, last)
  {
    var half := v / 2;
    assert v == 2 * half + v % 2 && half == 4 * (half / 4) + half % 4;
    assert v / 8 == half / 4;
  }

  /** One block that stands at a position is what its header and its bytes say. */
  lemma BlockThere(b: seq<Byte>, pos: nat, k: Block, last: bool, bound: nat)
    requires bound <= MAX_BLOCK && BlockOk(k, bound) && Has(b, pos, WriteBlock(k, last))
    ensures var end := pos + 3 + |k.body|;
            && end <= |b| && |WriteBlock(k, last)| == 3 + |k.body| && b[pos + 3..end] == k.body
            && Num(b, pos, 3) / 8 == k.size && Num(b, pos, 3) / 2 % 4 == k.kind && (Num(b, pos, 3) % 2 == 1 <==> last)
  {
    Numbers();
    BlockHeadDigits(last, k.kind, k.size);
    var head := BlockHead(k.kind, k.size, last);
    HasSplit(b, pos, LeBytes(head, 3), k.body);
    NumberField(b, pos, head, 3);
  }

  /** What the block reader makes of a first block: nothing more is needed about it than this. */
  ghost predicate Prepends(all: Parsed, block: Block, last: bool, end: nat, rest: Parsed) {
    all == if last then Some(([block], end))
           else if rest.None? then None else Some(([block] + rest.value.0, rest.value.1))
  }

  lemma BlockRead(b: seq<Byte>, pos: nat, k: Block, last: bool, bound: nat, end: nat, all: Parsed, rest: Parsed)
    requires bound <= MAX_BLOCK && BlockOk(k, bound)
    requires Has(b, pos, WriteBlock(k, last)) && end == pos + |WriteBlock(k, last)|
    requires all == ParseBlocks(b, pos, bound) && (!last ==> rest == ParseBlocks(b, end, bound))
    ensures Prepends(all, k, last, end, rest)
  {
    BlockThere(b, pos, k, last, bound);
    assert Block(Num(b, pos, 3) / 2 % 4, Num(b, pos, 3) / 8, b[pos + 3..pos + 3 + |k.body|]) == k;
  }

  /** A written list is its first block and the rest. */
  lemma BlocksThere(b: seq<Byte>, pos: nat, blocks: seq<Block>, first: seq<Byte>, rest: seq<Byte>)
    requires blocks != [] && first == WriteBlock(blocks[0], |blocks| == 1) && rest == WriteBlocks(blocks[1..])
    ensures WriteBlocks(blocks) == first + rest
    ensures Has(b, pos, WriteBlocks(blocks)) <==> Has(b, pos, first) && Has(b, pos + |first|, rest)
  {
    HasSplit(b, pos, first, rest);
  }

  lemma FirstAndRest(all: Parsed, rest: Parsed, blocks: seq<Block>, end: nat, total: nat)
    requires blocks != [] && Prepends(all, blocks[0], |blocks| == 1, end, rest)
    requires if |blocks| == 1 then end == total else rest == Some((blocks[1..], total))
    ensures all == Some((blocks, total))
  {
    assert blocks == [blocks[0]] + blocks[1..];
    assert |blocks| == 1 ==> blocks == [blocks[0]];
  }

  /** Blocks that stand at a position are read back. */
  lemma {:induction false} BlocksComplete(b: seq<Byte>, pos: nat, blocks: seq<Block>, bound: nat, bytes: seq<Byte>, parsed: Parsed)
    requires blocks != [] && bound <= MAX_BLOCK && BlocksOk(blocks, bound)
    requires bytes == WriteBlocks(blocks) && Has(b, pos, bytes) && parsed == ParseBlocks(b, pos, bound)
    ensures parsed == Some((blocks, pos + |bytes|))
    decreases |blocks|
  {
    hide WriteBlock, LeBytes, Num, Has, ParseBlocks;
    var first, rest := WriteBlock(blocks[0], |blocks| == 1), WriteBlocks(blocks[1..]);
    BlocksThere(b, pos, blocks, first, rest);
    var end, total := pos + |first|, pos + |bytes|;
    var later := ParseBlocks(b, end, bound);
    BlockRead(b, pos, blocks[0], |blocks| == 1, bound, end, parsed, later);
    if |blocks| > 1 { BlocksComplete(b, end, blocks[1..], bound, rest, later); }
    FirstAndRest(parsed, later, blocks, end, total);
  }

  /** Blocks that are read stand there. */
  lemma {:induction false} BlocksSound(b: seq<Byte>, pos: nat, bound: nat)
    requires bound <= MAX_BLOCK && ParseBlocks(b, pos, bound).Some?
    ensures var (blocks, end) := ParseBlocks(b, pos, bound).value;
            && BlocksOk(blocks, bound)
            && Has(b, pos, WriteBlocks(blocks)) && end == pos + |WriteBlocks(blocks)|
    decreases |b| - pos
  {
    Numbers();
    var blocks := ParseBlocks(b, pos, bound).value.0;
    var head := Num(b, pos, 3);
    var last := head % 2 == 1;
    var k := blocks[0];
    BlockHeadComposed(head, last);
    NumberField(b, pos, head, 3);
    HasSplit(b, pos, LeBytes(head, 3), k.body);
    var end := pos + 3 + |k.body|;
    if last {
      assert blocks[1..] == [] && WriteBlocks([]) == [];
      assert WriteBlocks(blocks) == WriteBlock(k, true);
    } else {
      BlocksSound(b, end, bound);
      assert blocks[1..] == ParseBlocks(b, end, bound).value.0;
      HasSplit(b, pos, WriteBlock(k, false), WriteBlocks(blocks[1..]));
    }
  }

  lemma MagicDigits(variant: nat)
    requires variant < 16
    ensures (SKIPPABLE_MAGIC + variant) / 16 * 16 == SKIPPABLE_MAGIC && (SKIPPABLE_MAGIC + variant) % 16 == variant
    ensures ZSTD_MAGIC / 16 * 16 != SKIPPABLE_MAGIC
  {
  }

  lemma SkippableComplete(b: seq<Byte>, pos: nat, f: Frame, limits: Limits)
    requires f.Skippable? && FrameOk(f, limits) && Has(b, pos, WriteFrame(f, limits))
    ensures ParseFrame(b, pos, limits) == Some((f, pos + |WriteFrame(f, limits)|))
  {
    Numbers();
    MagicDigits(f.variant);
    HasSplit(b, pos, LeBytes(SKIPPABLE_MAGIC + f.variant, 4), LeBytes(|f.payload|, 4) + f.payload);
    HasSplit(b, pos + 4, LeBytes(|f.payload|, 4), f.payload);
    NumberField(b, pos, SKIPPABLE_MAGIC + f.variant, 4);
    NumberField(b, pos + 4, |f.payload|, 4);
  }

  lemma ZstdHeadRead(b: seq<Byte>, pos: nat, h: Header)
    requires HeaderShape(h) && Has(b, pos, LeBytes(ZSTD_MAGIC, 4)) && Has(b, pos + 4, WriteHeader(h))
    ensures pos + 4 <= |b| && Num(b, pos, 4) == ZSTD_MAGIC
    ensures ParseHeader(b, pos + 4) == Some((h, pos + 4 + |WriteHeader(h)|))
  {
    Numbers();
    NumberField(b, pos, ZSTD_MAGIC, 4);
    HeaderField(b, pos + 4, h);
  }

  lemma ChecksumRead(b: seq<Byte>, end: nat, checksum: nat)
    requires checksum < Pow256(4) && Has(b, end, LeBytes(checksum, 4))
    ensures end + 4 <= |b| && Num(b, end, 4) == checksum
  {
    NumberField(b, end, checksum, 4);
  }

  lemma ZstdComplete(b: seq<Byte>, pos: nat, f: Frame, limits: Limits)
    requires f.Zstd? && FrameOk(f, limits) && Has(b, pos, WriteFrame(f, limits))
    ensures ParseFrame(b, pos, limits) == Some((f, pos + |WriteFrame(f, limits)|))
  {
    hide ParseHeader, ParseBlocks, WriteHeader, WriteBlocks, Num, LeBytes, Has;
    var h := f.header;
    var at := pos + 4 + |WriteHeader(h)|;
    var end := at + |WriteBlocks(f.blocks)|;
    ZstdParts(b, pos, f, limits);
    ZstdHeadRead(b, pos, h);
    BlocksComplete(b, at, f.blocks, BlockBound(h), WriteBlocks(f.blocks), ParseBlocks(b, at, BlockBound(h)));
    if h.checksummed { ChecksumRead(b, end, f.checksum); }
    Assembled(b, pos, f, limits, at, end, pos + |WriteFrame(f, limits)|);
  }

  /** The three readings put together. */
  lemma Assembled(b: seq<Byte>, pos: nat, f: Frame, limits: Limits, at: nat, end: nat, next: nat)
    requires f.Zstd? && FrameOk(f, limits) && pos + 4 <= |b| && Num(b, pos, 4) == ZSTD_MAGIC
    requires ParseHeader(b, pos + 4) == Some((f.header, at))
    requires ParseBlocks(b, at, BlockBound(f.header)) == Some((f.blocks, end))
    requires f.header.checksummed ==> end + 4 <= |b| && Num(b, end, 4) == f.checksum
    requires next == if f.header.checksummed then end + 4 else end
    ensures ParseFrame(b, pos, limits) == Some((f, next))
  {
    MagicDigits(0);
  }

  /** A frame that stands at a position is read back, and the inspector moves exactly behind it. */
  lemma FrameComplete(b: seq<Byte>, pos: nat, f: Frame, limits: Limits)
    requires FrameOk(f, limits) && Has(b, pos, WriteFrame(f, limits))
    ensures ParseFrame(b, pos, limits) == Some((f, pos + |WriteFrame(f, limits)|))
  {
    if f.Skippable? { SkippableComplete(b, pos, f, limits); } else { ZstdComplete(b, pos, f, limits); }
  }

  lemma SkippableSound(b: seq<Byte>, pos: nat, limits: Limits)
    requires ParseFrame(b, pos, limits).Some? && ParseFrame(b, pos, limits).value.0.Skippable?
    ensures var (f, end) := ParseFrame(b, pos, limits).value;
            FrameOk(f, limits) && Has(b, pos, WriteFrame(f, limits)) && end == pos + |WriteFrame(f, limits)|
  {
    Numbers();
    var f := ParseFrame(b, pos, limits).value.0;
    HasSplit(b, pos, LeBytes(SKIPPABLE_MAGIC + f.variant, 4), LeBytes(|f.payload|, 4) + f.payload);
    HasSplit(b, pos + 4, LeBytes(|f.payload|, 4), f.payload);
    NumberField(b, pos, SKIPPABLE_MAGIC + f.variant, 4);
    NumberField(b, pos + 4, |f.payload|, 4);
  }

  lemma ZstdSound(b: seq<Byte>, pos: nat, limits: Limits)
    requires ParseFrame(b, pos, limits).Some? && ParseFrame(b, pos, limits).value.0.Zstd?
    ensures var (f, end) := ParseFrame(b, pos, limits).value;
            FrameOk(f, limits) && Has(b, pos, WriteFrame(f, limits)) && end == pos + |WriteFrame(f, limits)|
  {
    hide Has, LeBytes, WriteBlocks, ParseBlocks, ParseHeader;
    var f := ParseFrame(b, pos, limits).value.0;
    var h := f.header;
    var at := ParseHeader(b, pos + 4).value.1;
    HeaderEnd(b, pos + 4);
    HeaderField(b, pos + 4, h);
    BlocksSound(b, at, BlockBound(h));
    NumberField(b, pos, ZSTD_MAGIC, 4);
    NumberField(b, at + |WriteBlocks(f.blocks)|, f.checksum, if h.checksummed then 4 else 0);
    ZstdParts(b, pos, f, limits);
  }

  lemma ZstdParts(b: seq<Byte>, pos: nat, f: Frame, limits: Limits)
    requires f.Zstd? && FrameOk(f, limits)
    ensures var head, body := WriteHeader(f.header), WriteBlocks(f.blocks);
            var tail := LeBytes(f.checksum, if f.header.checksummed then 4 else 0);
            Has(b, pos, WriteFrame(f, limits)) <==>
            && Has(b, pos, LeBytes(ZSTD_MAGIC, 4)) && Has(b, pos + 4, head) && Has(b, pos + 4 + |head|, body)
            && Has(b, pos + 4 + |head| + |body|, tail)
    ensures |WriteFrame(f, limits)|
         == 4 + |WriteHeader(f.header)| + |WriteBlocks(f.blocks)| + (if f.header.checksummed then 4 else 0)
  {
    var head, body, tail := WriteHeader(f.header), WriteBlocks(f.blocks), LeBytes(f.checksum, if f.header.checksummed then 4 else 0);
    HasSplit(b, pos, LeBytes(ZSTD_MAGIC, 4), head + (body + tail));
    HasSplit(b, pos + 4, head, body + tail);
    HasSplit(b, pos + 4 + |head|, body, tail);
  }

  lemma HeaderEnd(b: seq<Byte>, pos: nat)
    requires ParseHeader(b, pos).Some?
    ensures ParseHeader(b, pos).value.1 == pos + |WriteHeader(ParseHeader(b, pos).value.0)|
  {
  }

  /** A frame that is read is a well-formed frame that stands there. */
  lemma FrameSound(b: seq<Byte>, pos: nat, limits: Limits)
    requires ParseFrame(b, pos, limits).Some?
    ensures var (f, end) := ParseFrame(b, pos, limits).value;
            FrameOk(f, limits) && Has(b, pos, WriteFrame(f, limits)) && end == pos + |WriteFrame(f, limits)|
  {
    if ParseFrame(b, pos, limits).value.0.Skippable? { SkippableSound(b, pos, limits); } else { ZstdSound(b, pos, limits); }
  }

  // ---- Whole files ---------------------------------------------------------------------------------

  datatype FrameRecord = FrameRecord(start: nat, end: nat, contentSize: Option<nat>, checksum: Option<nat>, skippable: bool)

  predicate FramesOk(frames: seq<Frame>, limits: Limits) {
    frames != [] ==> FrameOk(frames[0], limits) && FramesOk(frames[1..], limits)
  }

  function WriteAll(frames: seq<Frame>, limits: Limits): seq<Byte>
    requires FramesOk(frames, limits)
  {
    if frames == [] then [] else WriteFrame(frames[0], limits) + WriteAll(frames[1..], limits)
  }

  function RecordFor(f: Frame, start: nat, end: nat): FrameRecord {
    match f
    case Skippable(_, _) => FrameRecord(start, end, None, None, true)
    case Zstd(h, _, checksum) => FrameRecord(start, end, ContentSize(h), if h.checksummed then Some(checksum) else None, false)
  }

  /** The layout that a list of frames must be reported with when it is written from `start` on. */
  function Layout(frames: seq<Frame>, start: nat, limits: Limits): seq<FrameRecord>
    requires FramesOk(frames, limits)
  {
    if frames == [] then []
    else
      var end := start + |WriteFrame(frames[0], limits)|;
      [RecordFor(frames[0], start, end)] + Layout(frames[1..], end, limits)
  }

  function ParseAll(b: seq<Byte>, pos: nat, limits: Limits): Option<seq<Frame>>
    requires pos <= |b|
    decreases |b| - pos
  {
    if pos == |b| then Some([])
    else
      var first := ParseFrame(b, pos, limits);
      if first.None? then None
      else
        var rest := ParseAll(b, first.value.1, limits);
        if rest.None? then None else Some([first.value.0] + rest.value)
  }

  predicate Accepts(b: seq<Byte>, limits: Limits) {
    ParseAll(b, 0, limits).Some? && 1 <= |ParseAll(b, 0, limits).value| <= MAX_FRAMES
  }

  lemma {:induction false} AllComplete(b: seq<Byte>, pos: nat, frames: seq<Frame>, limits: Limits, bytes: seq<Byte>)
    requires FramesOk(frames, limits) && bytes == WriteAll(frames, limits) && Has(b, pos, bytes) && pos + |bytes| == |b|
    ensures ParseAll(b, pos, limits) == Some(frames)
    decreases |frames|
  {
    hide WriteFrame, ParseFrame, FrameOk;
    if frames != [] {
      var first, rest := WriteFrame(frames[0], limits), WriteAll(frames[1..], limits);
      HasSplit(b, pos, first, rest);
      FrameComplete(b, pos, frames[0], limits);
      AllComplete(b, pos + |first|, frames[1..], limits, rest);
      assert frames == [frames[0]] + frames[1..];
    }
  }

  lemma {:induction false} AllSound(b: seq<Byte>, pos: nat, limits: Limits)
    requires pos <= |b| && ParseAll(b, pos, limits).Some?
    ensures var frames := ParseAll(b, pos, limits).value;
            FramesOk(frames, limits) && b[pos..] == WriteAll(frames, limits)
    decreases |b| - pos
  {
    hide WriteFrame, ParseFrame, FrameOk;
    if pos < |b| {
      FrameSound(b, pos, limits);
      var (f, end) := ParseFrame(b, pos, limits).value;
      AllSound(b, end, limits);
      var frames := ParseAll(b, pos, limits).value;
      assert frames[1..] == ParseAll(b, end, limits).value;
      assert b[pos..] == b[pos..end] + b[end..];
    }
  }

  /** Inspecting what was written gives the written frames back. */
  lemma InspectionInvertsWriting(frames: seq<Frame>, limits: Limits)
    requires FramesOk(frames, limits)
    ensures ParseAll(WriteAll(frames, limits), 0, limits) == Some(frames)
    ensures Accepts(WriteAll(frames, limits), limits) <==> 1 <= |frames| <= MAX_FRAMES
  {
    hide WriteFrame, ParseFrame, FrameOk;
    var bytes := WriteAll(frames, limits);
    assert bytes[0..|bytes|] == bytes;
    AllComplete(bytes, 0, frames, limits, bytes);
  }

  /** Only written frames are accepted: the accepted files are exactly the printed lists. */
  lemma AcceptedFilesAreWritten(b: seq<Byte>, limits: Limits)
    ensures Accepts(b, limits) <==>
            exists frames :: FramesOk(frames, limits) && 1 <= |frames| <= MAX_FRAMES && b == WriteAll(frames, limits)
  {
    hide WriteFrame, ParseFrame, FrameOk;
    if Accepts(b, limits) {
      AllSound(b, 0, limits);
      assert b[0..] == b;
    }
    if frames :| FramesOk(frames, limits) && 1 <= |frames| <= MAX_FRAMES && b == WriteAll(frames, limits) {
      InspectionInvertsWriting(frames, limits);
    }
  }

  /** The records of a layout tile the file: each starts where the one before ends, none is empty. */
  ghost predicate Tiles(records: seq<FrameRecord>, start: nat, end: nat) {
    if records == [] then start == end
    else records[0].start == start < records[0].end && Tiles(records[1..], records[0].end, end)
  }

  lemma {:induction false} LayoutTiles(frames: seq<Frame>, start: nat, limits: Limits)
    requires FramesOk(frames, limits)
    ensures Tiles(Layout(frames, start, limits), start, start + |WriteAll(frames, limits)|)
    ensures |Layout(frames, start, limits)| == |frames|
    decreases |frames|
  {
    hide WriteFrame, FrameOk;
    if frames != [] {
      var end := start + |WriteFrame(frames[0], limits)|;
      LayoutTiles(frames[1..], end, limits);
      assert Layout(frames, start, limits)[1..] == Layout(frames[1..], end, limits);
    }
  }

  // ---- What a record says about the bytes ------------------------------------------------------------

  /** Whether a record tells the truth about the frame whose bytes it covers. */
  predicate TellsOf(b: seq<Byte>, r: FrameRecord) {
    && r.start + 8 <= r.end <= |b|
    && (r.skippable <==> SKIPPABLE_MAGIC <= Num(b, r.start, 4) < SKIPPABLE_MAGIC + 16)
    && if r.skippable then
         r.end == r.start + 8 + Num(b, r.start + 4, 4) && r.contentSize == None && r.checksum == None
       else
         Num(b, r.start, 4) == ZSTD_MAGIC && TellsChecksum(b, r) && TellsContentSize(b, r)
  }

  /** There is a checksum iff bit 2 of the flag byte is set, and then it is the number in the last four bytes. */
  predicate TellsChecksum(b: seq<Byte>, r: FrameRecord)
    requires r.start + 8 <= r.end <= |b|
  {
    r.checksum == if b[r.start + 4] / 4 % 2 == 1 then Some(Num(b, r.end - 4, 4)) else None
  }

  /** There is a content size iff bits 6 and 7, or else bit 5, of the flag byte ask for the field; the field lies behind
      window descriptor and dictionary identifier, and its two-byte form counts from 256. */
  predicate TellsContentSize(b: seq<Byte>, r: FrameRecord)
    requires r.start + 8 <= r.end <= |b|
  {
    var flags := b[r.start + 4];
    var single := flags / 32 % 2 == 1;
    var at := r.start + 5 + (if single then 0 else 1) + [0, 1, 2, 4][flags % 4];
    var count := [if single then 1 else 0, 2, 4, 8][flags / 64];
    && at + count <= r.end
    && r.contentSize == if count == 0 then None else Some(Num(b, at, count) + if count == 2 then 256 else 0)
  }

  lemma HeaderTells(b: seq<Byte>, pos: nat, r: FrameRecord)
    requires ParseHeader(b, pos).Some? && r.start + 4 == pos && ParseHeader(b, pos).value.1 + 3 <= r.end <= |b|
    ensures r.start + 8 <= r.end
    ensures r.contentSize == ContentSize(ParseHeader(b, pos).value.0) ==> TellsContentSize(b, r)
    ensures ParseHeader(b, pos).value.0.checksummed <==> b[pos] / 4 % 2 == 1
  {
    hide Num, HeaderShape;
  }

  /** What an accepted frame is reported as is true of its bytes. */
  lemma RecordTells(b: seq<Byte>, pos: nat, limits: Limits)
    requires ParseFrame(b, pos, limits).Some?
    ensures var (f, end) := ParseFrame(b, pos, limits).value; TellsOf(b, RecordFor(f, pos, end))
  {
    hide HeaderOk, ParseHeader, Num, TellsContentSize;
    var (f, end) := ParseFrame(b, pos, limits).value;
    if f.Zstd? {
      HeaderTells(b, pos + 4, RecordFor(f, pos, end));
    }
  }

  /** Whether a record has a frame's own fields. */
  predicate Reports(r: FrameRecord, f: Frame) {
    match f
    case Skippable(_, _) => r.skippable && r.contentSize == None && r.checksum == None
    case Zstd(h, _, checksum) =>
      && !r.skippable && r.checksum == (if h.checksummed then Some(checksum) else None)
      && r.contentSize == if !h.single && h.sizeFlag == 0 then None
                          else Some(if h.sizeFlag == 1 then h.size + 256 else h.size)
  }

  lemma SliceBehind(first: seq<Byte>, rest: seq<Byte>, from: nat, until: nat)
    requires from <= until <= |rest|
    ensures (first + rest)[|first| + from..|first| + until] == rest[from..until]
  {
  }

  /** What a written list of frames is reported as: one record a frame, over its own bytes, with its own fields. */
  lemma {:induction false} LayoutTells(frames: seq<Frame>, start: nat, limits: Limits, i: nat)
    requires FramesOk(frames, limits) && i < |frames|
    ensures |Layout(frames, start, limits)| == |frames| && FrameOk(frames[i], limits)
    ensures var r, written := Layout(frames, start, limits)[i], WriteAll(frames, limits);
            && start <= r.start <= r.end <= start + |written| && Reports(r, frames[i])
            && written[r.start - start..r.end - start] == WriteFrame(frames[i], limits)
    decreases |frames|
  {
    hide WriteFrame, FrameOk;
    var first, rest := WriteFrame(frames[0], limits), WriteAll(frames[1..], limits);
    LayoutTiles(frames, start, limits);
    if i > 0 {
      hide Reports;
      LayoutTells(frames[1..], start + |first|, limits, i - 1);
      var r := Layout(frames[1..], start + |first|, limits)[i - 1];
      assert Layout(frames, start, limits)[i] == r;
      SliceBehind(first, rest, r.start - start - |first|, r.end - start - |first|);
    } else {
      assert (first + rest)[..|first|] == first;
    }
  }

  // ---- The inspector -------------------------------------------------------------------------------

  /** A reader over a file that keeps its size, with room for every field. */
  ghost predicate Ready(reader: FrameReader)
    reads reader, reader.buffer
  {
    reader.Valid() && reader.size == |reader.file| && reader.buffer.Length >= 8
  }

  /** What the header steps leave behind for the rest of the frame. */
  datatype Opening = Opening(window: nat, contentSize: Option<nat>, checksummed: bool, position: nat)

  /** The same from the header that stands at `start`, if it is well-formed and within the limits. */
  function OpeningAt(b: seq<Byte>, start: nat, limits: Limits): Option<Opening> {
    var header := ParseHeader(b, start);
    if header.None? || !HeaderOk(header.value.0, limits) then None
    else
      var h := header.value.0;
      Some(Opening(WindowSize(h), ContentSize(h), h.checksummed, header.value.1))
  }

  /** The fields of the header that stands at `start`: where they are and what is required of them. */
  lemma OpeningFields(b: seq<Byte>, start: nat, limits: Limits)
    requires start < |b|
    ensures var flags, opening := b[start], OpeningAt(b, start, limits);
            var single := flags / 32 % 2 == 1;
            var afterWindow := if single then start + 1 else start + 2;
            var afterDict := afterWindow + DictBytes(flags % 4);
            var count := SizeBytes(single, flags / 64);
            if flags / 8 % 4 != 0 || afterDict + count > |b| || Num(b, afterWindow, DictBytes(flags % 4)) != 0 then opening == None
            else
              var contentSize := if count == 0 then None else Some(Num(b, afterDict, count) + if count == 2 then 256 else 0);
              var window := if single then contentSize.GetOr(0) else WindowAt(b, start + 1);
              opening == if window > limits.window || contentSize.GetOr(0) > limits.logical then None
                         else Some(Opening(window, contentSize, flags / 4 % 2 == 1, afterDict + count))
  {
    hide Num, Power2, HeaderShape;
  }

  lemma NoOpening(b: seq<Byte>, start: nat, limits: Limits)
    requires start >= |b|
    ensures OpeningAt(b, start, limits) == None
  {
  }

  function WindowAt(b: seq<Byte>, at: nat): nat
    requires at < |b|
  {
    var base := Power2(10 + b[at] / 8);
    base + base / 8 * (b[at] % 8)
  }

  /** The window of a descriptor: eight eighths and up to seven more of a power of two, from 1 KiB on. */
  lemma WindowIsEighths(b: seq<Byte>, at: nat)
    requires at < |b|
    ensures WindowAt(b, at) == (8 + b[at] % 8) * Power2(7 + b[at] / 8)
    ensures b[at] == 0 ==> WindowAt(b, at) == 1024
  {
    hide Power2;
    EightTimes(7 + b[at] / 8);
    Eighths(Power2(7 + b[at] / 8), b[at] % 8);
    PowerOfSeven();
  }

  lemma EightTimes(n: nat)
    ensures Power2(n + 3) == 8 * Power2(n)
  {
    assert Power2(n + 1) == 2 * Power2(n) && Power2(n + 2) == 2 * Power2(n + 1) && Power2(n + 3) == 2 * Power2(n + 2);
  }

  lemma Eighths(eighth: nat, more: nat)
    ensures 8 * eighth + 8 * eighth / 8 * more == (8 + more) * eighth
  {
    assert 8 * eighth / 8 == eighth;
  }

  lemma PowerOfSeven()
    ensures Power2(7) == 128
  {
    EightTimes(4);
    EightTimes(1);
  }

  /** The window descriptor of a frame that is not a single segment. */
  method InspectWindow(reader: FrameReader, start: nat) returns (window: Option<nat>)
    requires Ready(reader)
    modifies reader, reader.buffer
    ensures Ready(reader)
    ensures window == if start < |reader.file| then Some(WindowAt(reader.file, start)) else None
  {
    var descriptor := reader.Read(start, 1);
    if descriptor.None? { return None; }
    var windowBase := Power2(10 + descriptor.value[0] / 8);
    window := Some(windowBase + windowBase / 8 * (descriptor.value[0] % 8));
  }

  /** The dictionary identifier, which must be absent or zero. */
  method InspectDictionary(reader: FrameReader, start: nat, count: nat) returns (ok: bool)
    requires Ready(reader) && count <= 4
    modifies reader, reader.buffer
    ensures Ready(reader)
    ensures start + count <= |reader.file| ==> (ok <==> Num(reader.file, start, count) == 0)
    ensures start + count > |reader.file| ==> ok == (count == 0)
  {
    if count == 0 { return true; }
    var identifier := reader.Read(start, count);
    if identifier.None? { return false; }
    ZeroField(reader.file, start, count);
    ok := !exists i | 0 <= i < count :: identifier.value[i] != 0;
    assert forall i | 0 <= i < count :: identifier.value[i] == reader.file[start + i];
    assert forall i | start <= i < start + count :: reader.file[i] == identifier.value[i - start];
  }

  /** The declared content size, if the frame has one. */
  method InspectContentSize(reader: FrameReader, start: nat, count: nat, limits: Limits) returns (contentSize: Option<nat>, ok: bool)
    requires Ready(reader) && count <= 8
    modifies reader, reader.buffer
    ensures Ready(reader)
    ensures count > 0 ==> (ok <==> start + count <= |reader.file| && Num(reader.file, start, count) <= limits.logical)
    ensures count == 0 ==> ok && contentSize == None
    ensures count > 0 && ok ==> contentSize == Some(Num(reader.file, start, count) + if count == 2 then 256 else 0)
  {
    if count == 0 { return None, true; }
    var declared := reader.ReadNumber(start, count);
    if declared.None? || declared.value > limits.logical { return None, false; }
    return Some(declared.value + if count == 2 then 256 else 0), true;
  }

  lemma DictFlagCounts(flag: nat)
    requires flag < 4
    ensures DictBytes(flag) == [0, 1, 2, 4][flag] <= 4
  {
  }

  lemma SizeFlagCounts(single: bool, flag: nat)
    requires flag < 4
    ensures SizeBytes(single, flag) == if flag == 0 then (if single then 1 else 0) else Power2(flag)
    ensures SizeBytes(single, flag) <= 8 && (single ==> SizeBytes(single, flag) > 0)
  {
    assert Power2(1) == 2 && Power2(2) == 4 && Power2(3) == 8;
  }

  /** Flag byte, window descriptor, dictionary identifier and content size, in this order. */
  method InspectHeader(reader: FrameReader, start: nat, limits: Limits) returns (opening: Option<Opening>)
    requires Ready(reader)
    modifies reader, reader.buffer
    ensures Ready(reader)
    ensures opening == OpeningAt(reader.file, start, limits)
  {
    hide FrameReader.Valid, Num, Power2, OpeningAt, ParseHeader, HeaderOk, WindowAt, DictBytes, SizeBytes;
    opening := None;
    var flag := reader.Read(start, 1);
    if flag.None? {
      NoOpening(reader.file, start, limits);
      return;
    }
    OpeningFields(reader.file, start, limits);
    var flags := flag.value[0];
    var position := start + 1;
    if flags / 8 % 4 != 0 { return; }
    var single := flags / 32 % 2 == 1;
    var window: nat := 0;
    if !single {
      var described := InspectWindow(reader, position);
      if described.None? { return; }
      window := described.value;
      position := position + 1;
    }
    var dictionaryBytes := [0, 1, 2, 4][flags % 4];
    DictFlagCounts(flags % 4);
    var ok := InspectDictionary(reader, position, dictionaryBytes);
    if !ok { return; }
    position := position + dictionaryBytes;
    SizeFlagCounts(single, flags / 64);
    var contentBytes := if flags / 64 == 0 then (if single then 1 else 0) else Power2(flags / 64);
    var contentSize;
    contentSize, ok := InspectContentSize(reader, position, contentBytes, limits);
    if !ok { return; }
    position := position + contentBytes;
    if single { window := contentSize.value; }
    if window > limits.window { return; }
    if contentSize.Some? && contentSize.value > limits.logical { return; }
    opening := Some(Opening(window, contentSize, flags / 4 % 2 == 1, position));
  }

  /** What one block decides: the list goes on behind it, ends with it, or is refused at it. */
  lemma BlocksStep(b: seq<Byte>, pos: nat, bound: nat)
    ensures ParseBlocks(b, pos, bound).Some? ==> pos + 3 <= |b|
    ensures pos + 3 <= |b| ==>
              var head := Num(b, pos, 3);
              var end := pos + 3 + BodyLength(head / 2 % 4, head / 8);
              var refused := head / 2 % 4 == 3 || head / 8 > bound || end > |b|;
              var (list, rest) := (ParseBlocks(b, pos, bound), ParseBlocks(b, end, bound));
              && (refused ==> list.None?)
              && (!refused && head % 2 == 1 ==> list.Some? && list.value.1 == end)
              && (!refused && head % 2 == 0 ==> (list.Some? <==> rest.Some?) && (list.Some? ==> list.value.1 == rest.value.1))
  {
    hide Num, BodyLength;
  }

  method InspectBlocks(reader: FrameReader, start: nat, window: nat) returns (position: nat, ok: bool)
    requires Ready(reader)
    modifies reader, reader.buffer
    ensures Ready(reader)
    ensures ok <==> ParseBlocks(reader.file, start, Min(window, MAX_BLOCK)).Some?
    ensures ok ==> position == ParseBlocks(reader.file, start, Min(window, MAX_BLOCK)).value.1
  {
    hide ParseBlocks, Num;
    ghost var b, bound := reader.file, Min(window, MAX_BLOCK);
    position := start;
    while true
      invariant Ready(reader)
      invariant ParseBlocks(b, start, bound).Some? <==> ParseBlocks(b, position, bound).Some?
      invariant ParseBlocks(b, position, bound).Some? ==>
                  ParseBlocks(b, start, bound).value.1 == ParseBlocks(b, position, bound).value.1
      decreases |b| - position
    {
      BlocksStep(b, position, bound);
      var block := reader.ReadNumber(position, 3);
      if block.None? { return position, false; }
      position := position + 3;
      var kind := block.value / 2 % 4;
      var blockSize := block.value / 8;
      if kind == 3 || blockSize > Min(window, MAX_BLOCK) { return position, false; }
      position := position + BodyLength(kind, blockSize);
      if position > reader.size { return position, false; }
      if block.value % 2 == 1 { return position, true; }
    }
  }

  /** One frame from its magic to its end. */
  method InspectFrame(reader: FrameReader, start: nat, limits: Limits) returns (record: FrameRecord, ok: bool)
    requires Ready(reader)
    modifies reader, reader.buffer
    ensures Ready(reader)
    ensures ok <==> ParseFrame(reader.file, start, limits).Some?
    ensures ok ==> var (f, end) := ParseFrame(reader.file, start, limits).value; record == RecordFor(f, start, end)
    ensures ok ==> record.start == start && TellsOf(reader.file, record)
  {
    hide TellsOf, Num, ParseBlocks, ParseHeader;
    if ParseFrame(reader.file, start, limits).Some? { RecordTells(reader.file, start, limits); }
    record := FrameRecord(start, start, None, None, false);
    var magic := reader.ReadNumber(start, 4);
    if magic.None? { return record, false; }
    var position := start + 4;
    if magic.value / 16 * 16 == SKIPPABLE_MAGIC {
      var skipped := reader.ReadNumber(position, 4);
      if skipped.None? { return record, false; }
      position := position + 4 + skipped.value;
      if position > reader.size { return record, false; }
      return FrameRecord(start, position, None, None, true), true;
    }
    if magic.value != ZSTD_MAGIC { return record, false; }
    var opening := InspectHeader(reader, position, limits);
    if opening.None? { return record, false; }
    position, ok := InspectBlocks(reader, opening.value.position, opening.value.window);
    if !ok { return record, false; }
    var checksum: Option<nat> := None;
    if opening.value.checksummed {
      checksum := reader.ReadNumber(position, 4);
      if checksum.None? { return record, false; }
      position := position + 4;
    }
    record := FrameRecord(start, position, opening.value.contentSize, checksum, false);
  }

  /** After `count` frames, `records` is the layout of what was read and the rest of the file is still to come. */
  ghost predicate ReadSoFar(b: seq<Byte>, position: nat, count: nat, records: seq<FrameRecord>, limits: Limits) {
    position <= |b| &&
    var all, rest := ParseAll(b, 0, limits), ParseAll(b, position, limits);
    && (all.Some? <==> rest.Some?)
    && (all.Some? ==>
          && FramesOk(all.value, limits) && FramesOk(rest.value, limits) && |all.value| == count + |rest.value|
          && Layout(all.value, 0, limits) == records + Layout(rest.value, position, limits))
  }

  lemma NothingRead(b: seq<Byte>, limits: Limits)
    ensures ReadSoFar(b, 0, 0, [], limits)
  {
    if ParseAll(b, 0, limits).Some? { AllSound(b, 0, limits); }
  }

  lemma OneMoreRead(b: seq<Byte>, position: nat, count: nat, records: seq<FrameRecord>, limits: Limits)
    requires ReadSoFar(b, position, count, records, limits) && position < |b|
    ensures ParseAll(b, 0, limits).Some? ==> |ParseAll(b, 0, limits).value| > count && ParseFrame(b, position, limits).Some?
    ensures ParseFrame(b, position, limits).Some? ==>
              var (f, end) := ParseFrame(b, position, limits).value;
              ReadSoFar(b, end, count + 1, records + [RecordFor(f, position, end)], limits)
  {
    hide WriteFrame, ParseFrame, FrameOk;
    var all, rest := ParseAll(b, 0, limits), ParseAll(b, position, limits);
    if rest.Some? {
      FrameSound(b, position, limits);
      var (f, end) := ParseFrame(b, position, limits).value;
      var later := ParseAll(b, end, limits).value;
      assert rest.value == [f] + later && rest.value[1..] == later;
      assert Layout(rest.value, position, limits) == [RecordFor(f, position, end)] + Layout(later, end, limits);
    }
  }

  /** Inspects a whole file; `records` holds the layout when the file is accepted. */
  method InspectFrames(file: seq<Byte>, limits: Limits) returns (records: seq<FrameRecord>, accepted: bool)
    ensures accepted <==> Accepts(file, limits)
    ensures accepted ==> FramesOk(ParseAll(file, 0, limits).value, limits)
                         && records == Layout(ParseAll(file, 0, limits).value, 0, limits)
    ensures forall i | 0 <= i < |records| :: TellsOf(file, records[i])
  {
    hide TellsOf;
    var reader := new FrameReader(file, |file|, CHUNK_BYTES);
    records := [];
    var position: nat := 0;
    var frameCount: nat := 0;
    NothingRead(file, limits);
    while position < |file|
      invariant Ready(reader) && reader.file == file && fresh(reader) && fresh(reader.buffer)
      invariant frameCount <= MAX_FRAMES && ReadSoFar(file, position, frameCount, records, limits)
      invariant forall i | 0 <= i < |records| :: TellsOf(file, records[i])
      decreases |file| - position
    {
      OneMoreRead(file, position, frameCount, records, limits);
      frameCount := frameCount + 1;
      if frameCount > MAX_FRAMES { return records, false; }
      var record, ok := InspectFrame(reader, position, limits);
      if !ok { return records, false; }
      records := records + [record];
      position := record.end;
    }
    accepted := frameCount > 0;
  }

  /** What inspecting a file yields: its whole layout, or nothing usable. */
  function Inspected(b: seq<Byte>, limits: Limits): Option<seq<FrameRecord>> {
    if Accepts(b, limits) then
      AllSound(b, 0, limits);
      Some(Layout(ParseAll(b, 0, limits).value, 0, limits))
    else None
  }

  /** On every accepted file the reported records tile it from 0 to its size. */
  lemma AcceptedRecordsTile(b: seq<Byte>, limits: Limits)
    ensures Inspected(b, limits).Some? ==> Tiles(Inspected(b, limits).value, 0, |b|)
  {
    hide WriteFrame, ParseFrame, FrameOk;
    if Accepts(b, limits) {
      AllSound(b, 0, limits);
      assert b[0..] == b;
      LayoutTiles(ParseAll(b, 0, limits).value, 0, limits);
    }
  }
}
