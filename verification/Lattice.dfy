// The Lattice frame: a 96-byte header with a level map and six big-endian
// lengths, followed by the six level payloads (crates/joan-lattice/src/lib.rs),
// and the level spans that the ABI hands out (crates/joan-abi/src/lib.rs).
module Lattice {
  import opened Prelude

  type Byte = b: int | 0 <= b < 0x100

  type Bytes = seq<Byte>

  const LEVEL_COUNT: nat := 6
  const HEADER_LEN: nat := 96
  const MAX_FRAME_LEN: nat := 16 * 1_024 * 1_024
  const MAGIC: Bytes := [0x4A, 0x4E, 0x4C, 0x30]
  const VERSION: Byte := 0
  const SCHEMA_OFFSET: nat := 8
  const INTENT_OFFSET: nat := 40
  const LENGTHS_OFFSET: nat := 72
  const U32_LIMIT: nat := 0x1_0000_0000

  /** What a frame says: two digests, the flags and one payload for each level. */
  datatype FrameParts = FrameParts(schemaDigest: Bytes, intentDigest: Bytes, flags: Byte, levels: seq<Bytes>)

  predicate Fixed(p: FrameParts) {
    |p.schemaDigest| == 32 && |p.intentDigest| == 32 && |p.levels| == LEVEL_COUNT
  }

  datatype Span = Span(offset: nat, length: nat)

  /** A decoded frame keeps no payload of its own: its levels are spans of the input. */
  datatype BorrowedFrame = BorrowedFrame(flags: Byte, schema: Span, intent: Span, levels: seq<Span>)

  datatype FrameError =
    | TruncatedHeader
    | FrameTooLarge(actual: nat, limit: nat)
    | InvalidMagic
    | UnsupportedVersion(version: Byte)
    | UnsupportedFlags(flags: Byte)
    | ReservedBits
    | LengthMismatch
    | NonCanonicalLevelMap

  /** Only the receipt flag, bit 0, is known. */
  predicate KnownFlags(flags: Byte) {
    flags < 2
  }

  // ---------- big-endian integers ----------

  function U16Bytes(n: nat): Bytes
    requires n < 0x1_0000
  {
    [n / 0x100, n % 0x100]
  }

  function U16Of(hi: Byte, lo: Byte): nat {
    hi * 0x100 + lo
  }

  function U32Bytes(n: nat): Bytes
    requires n < U32_LIMIT
  {
    [n / 0x100_0000, n / 0x1_0000 % 0x100, n / 0x100 % 0x100, n % 0x100]
  }

  function U32Of(a: Byte, b: Byte, c: Byte, d: Byte): (n: nat)
    ensures n < U32_LIMIT
  {
    ((a * 0x100 + b) * 0x100 + c) * 0x100 + d
  }

  // ---------- lengths and the level map ----------

  function Sum(lengths: seq<nat>): nat {
    if lengths == [] then 0 else Sum(lengths[..|lengths| - 1]) + lengths[|lengths| - 1]
  }

  function Bit(index: nat): (r: nat)
    ensures r > 0
  {
    if index == 0 then 1 else 2 * Bit(index - 1)
  }

  function LevelBit(index: nat, length: nat): nat {
    if length > 0 then Bit(index) else 0
  }

  /** The bitmap with bit i set for a nonempty level i. */
  function LevelMap(lengths: seq<nat>): nat {
    if lengths == [] then 0
    else LevelMap(lengths[..|lengths| - 1]) + LevelBit(|lengths| - 1, lengths[|lengths| - 1])
  }

  function Lengths(levels: seq<Bytes>): (r: seq<nat>)
    ensures |r| == |levels| && forall i :: 0 <= i < |r| ==> r[i] == |levels[i]|
  {
    seq(|levels|, i requires 0 <= i < |levels| => |levels[i]|)
  }

  function Flatten(levels: seq<Bytes>): Bytes {
    if levels == [] then [] else Flatten(levels[..|levels| - 1]) + levels[|levels| - 1]
  }

  function LengthTable(lengths: seq<nat>): Bytes
    requires forall i :: 0 <= i < |lengths| ==> lengths[i] < U32_LIMIT
  {
    if lengths == [] then [] else LengthTable(lengths[..|lengths| - 1]) + U32Bytes(lengths[|lengths| - 1])
  }

  lemma {:induction false} LevelMapBound(lengths: seq<nat>)
    ensures LevelMap(lengths) < Bit(|lengths|)
  {
    if lengths != [] {
      LevelMapBound(lengths[..|lengths| - 1]);
    }
  }

  lemma {:induction false} SumFlatten(levels: seq<Bytes>)
    ensures Sum(Lengths(levels)) == |Flatten(levels)|
  {
    if levels != [] {
      var front := levels[..|levels| - 1];
      SumFlatten(front);
      assert Lengths(levels)[..|levels| - 1] == Lengths(front);
    }
  }

  lemma {:induction false} SumBound(lengths: seq<nat>, i: nat)
    requires i < |lengths|
    ensures lengths[i] <= Sum(lengths)
  {
    var front := lengths[..|lengths| - 1];
    if i < |front| {
      SumBound(front, i);
    }
  }

  lemma {:induction false} SumPrefix(lengths: seq<nat>, k: nat)
    requires k <= |lengths|
    ensures Sum(lengths[..k]) <= Sum(lengths)
  {
    if k == |lengths| {
      assert lengths[..k] == lengths;
    } else {
      var front := lengths[..|lengths| - 1];
      SumPrefix(front, k);
      assert front[..k] == lengths[..k];
    }
  }

  lemma SumNext(lengths: seq<nat>, k: nat)
    requires k < |lengths|
    ensures Sum(lengths[..k + 1]) == Sum(lengths[..k]) + lengths[k]
  {
    assert lengths[..k + 1][..k] == lengths[..k];
  }

  // ---------- encoding ----------

  function Header(flags: Byte, bitmap: nat, schema: Bytes, intent: Bytes, lengths: seq<nat>): Bytes
    requires bitmap < 0x1_0000
    requires forall i :: 0 <= i < |lengths| ==> lengths[i] < U32_LIMIT
  {
    MAGIC + [VERSION, flags] + U16Bytes(bitmap) + schema + intent + LengthTable(lengths)
  }

  /** The first level whose length does not fit the four bytes of the table. */
  function FirstOversized(levels: seq<Bytes>, from: nat): (r: Option<nat>)
    requires from <= |levels|
    ensures r == None ==> forall i :: from <= i < |levels| ==> |levels[i]| < U32_LIMIT
    ensures r.Some? ==> from <= r.value < |levels| && |levels[r.value]| >= U32_LIMIT
    decreases |levels| - from
  {
    if from == |levels| then None
    else if |levels[from]| >= U32_LIMIT then Some(from)
    else FirstOversized(levels, from + 1)
  }

  lemma MapFits(levels: seq<Bytes>)
    requires |levels| == LEVEL_COUNT
    ensures LevelMap(Lengths(levels)) < 0x40
  {
    LevelMapBound(Lengths(levels));
    assert Bit(1) == 2 && Bit(2) == 4 && Bit(3) == 8 && Bit(4) == 0x10 && Bit(5) == 0x20 && Bit(6) == 0x40;
  }

  /** The bytes of a frame whose lengths fit. */
  function FrameBytes(p: FrameParts): Bytes
    requires Fixed(p)
    requires forall i :: 0 <= i < |p.levels| ==> |p.levels[i]| < U32_LIMIT
  {
    MapFits(p.levels);
    Header(p.flags, LevelMap(Lengths(p.levels)), p.schemaDigest, p.intentDigest, Lengths(p.levels)) + Flatten(p.levels)
  }

  function EncodeFrame(p: FrameParts): Result<Bytes, FrameError>
    requires Fixed(p)
  {
    if !KnownFlags(p.flags) then Err(UnsupportedFlags(p.flags))
    else
      var oversized := FirstOversized(p.levels, 0);
      if oversized.Some? then Err(FrameTooLarge(|p.levels[oversized.value]|, U32_LIMIT - 1))
      else if HEADER_LEN + |Flatten(p.levels)| > MAX_FRAME_LEN then
        Err(FrameTooLarge(HEADER_LEN + |Flatten(p.levels)|, MAX_FRAME_LEN))
      else Ok(FrameBytes(p))
  }

  /** The checked sum of the payload lengths. */
  method PayloadLength(p: FrameParts) returns (r: Result<nat, FrameError>)
    requires Fixed(p)
    ensures var oversized := FirstOversized(p.levels, 0);
      r == if oversized.Some? then Err(FrameTooLarge(|p.levels[oversized.value]|, U32_LIMIT - 1))
           else Ok(|Flatten(p.levels)|)
  {
    var sum := 0;
    var i := 0;
    while i < |p.levels|
      invariant 0 <= i <= |p.levels|
      invariant FirstOversized(p.levels, i) == FirstOversized(p.levels, 0)
      invariant sum == Sum(Lengths(p.levels)[..i])
    {
      if |p.levels[i]| >= U32_LIMIT {
        return Err(FrameTooLarge(|p.levels[i]|, U32_LIMIT - 1));
      }
      SumNext(Lengths(p.levels), i);
      sum := sum + |p.levels[i]|;
      i := i + 1;
    }
    SumFlatten(p.levels);
    assert Lengths(p.levels)[..i] == Lengths(p.levels);
    return Ok(sum);
  }

  /** Appends the length table and collects the level map on the way. */
  method AppendLengths(fixedPart: Bytes, levels: seq<Bytes>) returns (output: Bytes, bitmap: nat)
    requires forall i :: 0 <= i < |levels| ==> |levels[i]| < U32_LIMIT
    ensures output == fixedPart + LengthTable(Lengths(levels))
    ensures bitmap == LevelMap(Lengths(levels))
  {
    output, bitmap := fixedPart, 0;
    ghost var lengths := Lengths(levels);
    var i := 0;
    while i < |levels|
      invariant 0 <= i <= |levels|
      invariant output == fixedPart + LengthTable(lengths[..i])
      invariant bitmap == LevelMap(lengths[..i])
    {
      assert lengths[..i + 1][..i] == lengths[..i];
      if levels[i] != [] {
        bitmap := bitmap + Bit(i);
      }
      output := output + U32Bytes(|levels[i]|);
      i := i + 1;
    }
    assert lengths[..i] == lengths;
  }

  method AppendPayloads(header: Bytes, levels: seq<Bytes>) returns (output: Bytes)
    ensures output == header + Flatten(levels)
  {
    output := header;
    var i := 0;
    while i < |levels|
      invariant 0 <= i <= |levels|
      invariant output == header + Flatten(levels[..i])
    {
      assert levels[..i + 1][..i] == levels[..i];
      output := output + levels[i];
      i := i + 1;
    }
    assert levels[..i] == levels;
  }

  /** Writes the header with an empty level map, patches the bitmap in place and appends the payloads. */
  method Encode(p: FrameParts) returns (r: Result<Bytes, FrameError>)
    requires Fixed(p)
    ensures r == EncodeFrame(p)
  {
    if !KnownFlags(p.flags) {
      return Err(UnsupportedFlags(p.flags));
    }
    var payload := PayloadLength(p);
    if payload.Err? {
      return Err(payload.error);
    }
    var frameLength := HEADER_LEN + payload.value;
    if frameLength > MAX_FRAME_LEN {
      return Err(FrameTooLarge(frameLength, MAX_FRAME_LEN));
    }
    MapFits(p.levels);
    var output := MAGIC;
    output := output + [VERSION] + [p.flags] + [0, 0] + p.schemaDigest + p.intentDigest;
    var bitmap: nat;
    output, bitmap := AppendLengths(output, p.levels);
    output := output[6 := bitmap / 0x100][7 := bitmap % 0x100];
    assert output == Header(p.flags, bitmap, p.schemaDigest, p.intentDigest, Lengths(p.levels));
    output := AppendPayloads(output, p.levels);
    return Ok(output);
  }

  // ---------- decoding ----------

  function DeclaredLength(input: Bytes, index: nat): nat
    requires index < LEVEL_COUNT && HEADER_LEN <= |input|
  {
    var at := LENGTHS_OFFSET + index * 4;
    U32Of(input[at], input[at + 1], input[at + 2], input[at + 3])
  }

  function DeclaredLengths(input: Bytes): (r: seq<nat>)
    requires HEADER_LEN <= |input|
    ensures |r| == LEVEL_COUNT && forall i :: 0 <= i < LEVEL_COUNT ==> r[i] == DeclaredLength(input, i)
  {
    seq(LEVEL_COUNT, i requires 0 <= i < LEVEL_COUNT => DeclaredLength(input, i))
  }

  /** The spans that lie one after the other from `start` on. */
  function Tiles(start: nat, lengths: seq<nat>): (r: seq<Span>)
    ensures |r| == |lengths|
    ensures forall i :: 0 <= i < |r| ==> r[i] == Span(start + Sum(lengths[..i]), lengths[i])
  {
    seq(|lengths|, i requires 0 <= i < |lengths| => Span(start + Sum(lengths[..i]), lengths[i]))
  }

  /** The checks of the decoder in their order, and the frame they leave. */
  function DecodeFrame(input: Bytes): Result<BorrowedFrame, FrameError> {
    if |input| < HEADER_LEN then Err(TruncatedHeader)
    else if |input| > MAX_FRAME_LEN then Err(FrameTooLarge(|input|, MAX_FRAME_LEN))
    else if input[..4] != MAGIC then Err(InvalidMagic)
    else if input[4] != VERSION then Err(UnsupportedVersion(input[4]))
    else if !KnownFlags(input[5]) then Err(UnsupportedFlags(input[5]))
    else if U16Of(input[6], input[7]) >= 0x40 then Err(ReservedBits)
    else if U16Of(input[6], input[7]) != LevelMap(DeclaredLengths(input)) then Err(NonCanonicalLevelMap)
    else if HEADER_LEN + Sum(DeclaredLengths(input)) != |input| then Err(LengthMismatch)
    else Ok(BorrowedFrame(input[5], Span(SCHEMA_OFFSET, 32), Span(INTENT_OFFSET, 32),
                          Tiles(HEADER_LEN, DeclaredLengths(input))))
  }

  /** Reads the length table, adding the lengths up and rebuilding the level map. */
  method ReadLengths(input: Bytes) returns (lengths: seq<nat>, payload: nat, bitmap: nat)
    requires HEADER_LEN <= |input|
    ensures lengths == DeclaredLengths(input)
    ensures payload == Sum(lengths) && bitmap == LevelMap(lengths)
  {
    lengths, payload, bitmap := [], 0, 0;
    var i := 0;
    while i < LEVEL_COUNT
      invariant 0 <= i <= LEVEL_COUNT
      invariant lengths == DeclaredLengths(input)[..i]
      invariant payload == Sum(lengths) && bitmap == LevelMap(lengths)
    {
      var at := LENGTHS_OFFSET + i * 4;
      var length := U32Of(input[at], input[at + 1], input[at + 2], input[at + 3]);
      assert (lengths + [length])[..i] == lengths;
      lengths := lengths + [length];
      payload := payload + length;
      if length > 0 {
        bitmap := bitmap + Bit(i);
      }
      i := i + 1;
    }
  }

  /** Cuts the payload into consecutive spans; None when one would leave the input. */
  method CutLevels(size: nat, lengths: seq<nat>) returns (r: Option<seq<Span>>)
    ensures r == if HEADER_LEN + Sum(lengths) <= size then Some(Tiles(HEADER_LEN, lengths)) else None
  {
    var levels: seq<Span> := [];
    var offset := HEADER_LEN;
    var i := 0;
    while i < |lengths|
      invariant 0 <= i <= |lengths|
      invariant levels == Tiles(HEADER_LEN, lengths)[..i]
      invariant offset == HEADER_LEN + Sum(lengths[..i])
      invariant i > 0 ==> offset <= size
    {
      SumNext(lengths, i);
      SumPrefix(lengths, i + 1);
      var end := offset + lengths[i];
      if end > size {
        return None;
      }
      levels := levels + [Span(offset, lengths[i])];
      offset := end;
      i := i + 1;
    }
    assert lengths[..i] == lengths && Tiles(HEADER_LEN, lengths)[..i] == Tiles(HEADER_LEN, lengths);
    if offset > size {
      return None;
    }
    return Some(levels);
  }

  method Decode(input: Bytes) returns (r: Result<BorrowedFrame, FrameError>)
    ensures r == DecodeFrame(input)
  {
    if |input| < HEADER_LEN {
      return Err(TruncatedHeader);
    }
    if |input| > MAX_FRAME_LEN {
      return Err(FrameTooLarge(|input|, MAX_FRAME_LEN));
    }
    if input[..4] != MAGIC {
      return Err(InvalidMagic);
    }
    if input[4] != VERSION {
      return Err(UnsupportedVersion(input[4]));
    }
    var flags := input[5];
    if !KnownFlags(flags) {
      return Err(UnsupportedFlags(flags));
    }
    var bitmap := U16Of(input[6], input[7]);
    if bitmap >= 0x40 {
      return Err(ReservedBits);
    }
    var lengths, payload, expected := ReadLengths(input);
    if bitmap != expected {
      return Err(NonCanonicalLevelMap);
    }
    if HEADER_LEN + payload != |input| {
      return Err(LengthMismatch);
    }
    var levels := CutLevels(|input|, lengths);
    if levels == None {
      return Err(LengthMismatch);
    }
    return Ok(BorrowedFrame(flags, Span(SCHEMA_OFFSET, 32), Span(INTENT_OFFSET, 32), levels.value));
  }

  // ---------- what a frame borrows ----------

  predicate Within(s: Span, size: nat) {
    s.offset + s.length <= size
  }

  function Slice(input: Bytes, s: Span): Bytes
    requires Within(s, |input|)
  {
    input[s.offset..s.offset + s.length]
  }

  predicate Borrows(input: Bytes, f: BorrowedFrame) {
    Within(f.schema, |input|) && Within(f.intent, |input|)
    && forall i :: 0 <= i < |f.levels| ==> Within(f.levels[i], |input|)
  }

  function LevelBytes(input: Bytes, spans: seq<Span>): (r: seq<Bytes>)
    requires forall i :: 0 <= i < |spans| ==> Within(spans[i], |input|)
    ensures |r| == |spans| && forall i :: 0 <= i < |r| ==> r[i] == Slice(input, spans[i])
  {
    seq(|spans|, i requires 0 <= i < |spans| => Slice(input, spans[i]))
  }

  /** The parts a caller reads through a borrowed frame. */
  function Parts(input: Bytes, f: BorrowedFrame): FrameParts
    requires Borrows(input, f)
  {
    FrameParts(Slice(input, f.schema), Slice(input, f.intent), f.flags, LevelBytes(input, f.levels))
  }
}
