// The Lattice codec is a bijection between frame parts and accepted bytes, and
// the spans of an accepted frame tile everything behind the header.
module LatticeRoundTrip {
  import opened Prelude
  import opened Lattice

  // ---------- the level map ----------

  /** Reading bit i of a bitmap. */
  predicate HasBit(bitmap: nat, i: nat) {
    if i == 0 then bitmap % 2 == 1 else HasBit(bitmap / 2, i - 1)
  }

  lemma {:induction false} NoHighBit(low: nat, k: nat)
    requires low < Bit(k)
    ensures !HasBit(low, k)
  {
    if k > 0 {
      NoHighBit(low / 2, k - 1);
    }
  }

  /** Adding a higher power of two sets its own bit and leaves the lower ones. */
  lemma {:induction false} AddBit(low: nat, k: nat, i: nat)
    requires low < Bit(k) && i <= k
    ensures HasBit(low + Bit(k), i) <==> i == k || HasBit(low, i)
  {
    if k > 0 {
      assert (low + Bit(k)) / 2 == low / 2 + Bit(k - 1) && (low + Bit(k)) % 2 == low % 2;
      if i > 0 {
        AddBit(low / 2, k - 1, i - 1);
      }
    }
  }

  /** Bit i of the level map is set exactly when level i is not empty. */
  lemma {:induction false} LevelMapMarksLevels(lengths: seq<nat>, i: nat)
    requires i < |lengths|
    ensures HasBit(LevelMap(lengths), i) <==> lengths[i] > 0
  {
    var k := |lengths| - 1;
    var front := lengths[..k];
    LevelMapBound(front);
    if i < k {
      LevelMapMarksLevels(front, i);
    } else {
      NoHighBit(LevelMap(front), k);
    }
    if lengths[k] > 0 {
      AddBit(LevelMap(front), k, i);
    }
  }

  // ---------- integers and tables ----------

  lemma U32RoundTrip(n: nat)
    requires n < U32_LIMIT
    ensures var b := U32Bytes(n); U32Of(b[0], b[1], b[2], b[3]) == n
  {
    assert n / 0x1_0000 == n / 0x100 / 0x100;
    assert n / 0x100_0000 == n / 0x1_0000 / 0x100;
  }

  lemma U32BytesOf(a: Byte, b: Byte, c: Byte, d: Byte)
    ensures U32Bytes(U32Of(a, b, c, d)) == [a, b, c, d]
  {
    var ab := a * 0x100 + b;
    var abc := ab * 0x100 + c;
    var n := U32Of(a, b, c, d);
    assert n / 0x100 == abc && n % 0x100 == d;
    assert abc / 0x100 == ab && abc % 0x100 == c;
    assert ab / 0x100 == a && ab % 0x100 == b;
    assert n / 0x1_0000 == ab;
    assert n / 0x100_0000 == a;
  }

  lemma {:induction false} TableLength(lengths: seq<nat>)
    requires forall i :: 0 <= i < |lengths| ==> lengths[i] < U32_LIMIT
    ensures |LengthTable(lengths)| == 4 * |lengths|
  {
    if lengths != [] {
      TableLength(lengths[..|lengths| - 1]);
    }
  }

  lemma {:induction false} TableEntry(lengths: seq<nat>, i: nat)
    requires forall k :: 0 <= k < |lengths| ==> lengths[k] < U32_LIMIT
    requires i < |lengths|
    ensures |LengthTable(lengths)| == 4 * |lengths|
    ensures LengthTable(lengths)[4 * i..4 * i + 4] == U32Bytes(lengths[i])
  {
    var front := lengths[..|lengths| - 1];
    TableLength(lengths);
    TableLength(front);
    if i < |front| {
      TableEntry(front, i);
      assert LengthTable(lengths)[4 * i..4 * i + 4] == LengthTable(front)[4 * i..4 * i + 4];
    }
  }

  /** A table is determined by its entries. */
  lemma {:induction false} TableFromEntries(bytes: Bytes, lengths: seq<nat>)
    requires forall k :: 0 <= k < |lengths| ==> lengths[k] < U32_LIMIT
    requires |bytes| == 4 * |lengths|
    requires forall k :: 0 <= k < |lengths| ==> bytes[4 * k..4 * k + 4] == U32Bytes(lengths[k])
    ensures LengthTable(lengths) == bytes
  {
    if lengths != [] {
      var n := |lengths| - 1;
      var front := bytes[..4 * n];
      forall k | 0 <= k < n ensures front[4 * k..4 * k + 4] == U32Bytes(lengths[..n][k]) {
        assert front[4 * k..4 * k + 4] == bytes[4 * k..4 * k + 4];
      }
      TableFromEntries(front, lengths[..n]);
      assert bytes == front + bytes[4 * n..4 * n + 4];
    }
  }

  // ---------- payloads ----------

  lemma {:induction false} FlattenSlice(levels: seq<Bytes>, i: nat)
    requires i < |levels|
    ensures var at := Sum(Lengths(levels)[..i]);
      at + |levels[i]| <= |Flatten(levels)| && Flatten(levels)[at..at + |levels[i]|] == levels[i]
  {
    var n := |levels| - 1;
    var front := levels[..n];
    SumFlatten(front);
    assert Lengths(levels)[..n] == Lengths(front);
    if i < n {
      FlattenSlice(front, i);
      assert Lengths(front)[..i] == Lengths(levels)[..i];
    }
  }

  /** Consecutive slices put together give back the bytes they were cut from. */
  lemma {:induction false} FlattenTiles(input: Bytes, start: nat, lengths: seq<nat>)
    requires start + Sum(lengths) <= |input|
    ensures forall i :: 0 <= i < |lengths| ==> Within(Tiles(start, lengths)[i], |input|)
    ensures Flatten(LevelBytes(input, Tiles(start, lengths))) == input[start..start + Sum(lengths)]
  {
    TilesWithin(input, start, lengths);
    if lengths != [] {
      var n := |lengths| - 1;
      var front := lengths[..n];
      var middle := start + Sum(front);
      FlattenTiles(input, start, front);
      TilesFront(start, lengths);
      LevelsFront(input, Tiles(start, lengths));
      JoinSlices(input, start, middle, middle + lengths[n]);
    }
  }

  lemma TilesFront(start: nat, lengths: seq<nat>)
    requires lengths != []
    ensures var n := |lengths| - 1;
            && Tiles(start, lengths)[..n] == Tiles(start, lengths[..n])
            && Tiles(start, lengths)[n] == Span(start + Sum(lengths[..n]), lengths[n])
  {
    var n := |lengths| - 1;
    forall i | 0 <= i < n ensures Tiles(start, lengths)[i] == Tiles(start, lengths[..n])[i] {
      assert lengths[..n][..i] == lengths[..i];
    }
  }

  lemma LevelsFront(input: Bytes, spans: seq<Span>)
    requires spans != [] && forall i :: 0 <= i < |spans| ==> Within(spans[i], |input|)
    ensures var n := |spans| - 1;
            && LevelBytes(input, spans)[..n] == LevelBytes(input, spans[..n])
            && Flatten(LevelBytes(input, spans)) == Flatten(LevelBytes(input, spans[..n])) + Slice(input, spans[n])
  {
  }

  lemma JoinSlices(input: Bytes, from: nat, middle: nat, to: nat)
    requires from <= middle <= to <= |input|
    ensures input[from..middle] + input[middle..to] == input[from..to]
  {
  }

  lemma TilesWithin(input: Bytes, start: nat, lengths: seq<nat>)
    requires start + Sum(lengths) <= |input|
    ensures forall i :: 0 <= i < |lengths| ==> Within(Tiles(start, lengths)[i], |input|)
  {
    forall i | 0 <= i < |lengths| ensures Within(Tiles(start, lengths)[i], |input|) {
      SumNext(lengths, i);
      SumPrefix(lengths, i + 1);
    }
  }

  // ---------- the codec ----------

  /** What `encode` accepts: known flags and a frame within the byte bound. */
  lemma EncodesExactly(p: FrameParts)
    requires Fixed(p)
    ensures EncodeFrame(p).Ok? <==> KnownFlags(p.flags) && HEADER_LEN + Sum(Lengths(p.levels)) <= MAX_FRAME_LEN
  {
    SumFlatten(p.levels);
    var oversized := FirstOversized(p.levels, 0);
    if oversized.Some? {
      SumBound(Lengths(p.levels), oversized.value);
    }
  }

  lemma HeaderLayout(flags: Byte, bitmap: nat, schema: Bytes, intent: Bytes, lengths: seq<nat>)
    requires bitmap < 0x1_0000 && |schema| == 32 && |intent| == 32 && |lengths| == LEVEL_COUNT
    requires forall i :: 0 <= i < |lengths| ==> lengths[i] < U32_LIMIT
    ensures var h := Header(flags, bitmap, schema, intent, lengths);
      |h| == HEADER_LEN && h[..4] == MAGIC && h[4] == VERSION && h[5] == flags && U16Of(h[6], h[7]) == bitmap
      && h[8..40] == schema && h[40..72] == intent && h[72..] == LengthTable(lengths)
  {
    TableLength(lengths);
  }

  lemma EncodedLengths(p: FrameParts)
    requires Fixed(p) && EncodeFrame(p).Ok?
    ensures var b := EncodeFrame(p).value;
      HEADER_LEN <= |b| && DeclaredLengths(b) == Lengths(p.levels)
  {
    var lengths := Lengths(p.levels);
    var b := EncodeFrame(p).value;
    MapFits(p.levels);
    HeaderLayout(p.flags, LevelMap(lengths), p.schemaDigest, p.intentDigest, lengths);
    var table := LengthTable(lengths);
    TableLength(lengths);
    assert b[72..96] == table;
    forall i | 0 <= i < LEVEL_COUNT ensures DeclaredLength(b, i) == lengths[i] {
      TableEntry(lengths, i);
      U32RoundTrip(lengths[i]);
      var entry := table[4 * i..4 * i + 4];
      var at := LENGTHS_OFFSET + i * 4;
      assert entry[0] == b[at] && entry[1] == b[at + 1] && entry[2] == b[at + 2] && entry[3] == b[at + 3];
    }
  }

  /** An encoded frame starts with its header, and its payloads lie behind it where the lengths say. */
  lemma EncodedLayout(p: FrameParts)
    requires Fixed(p) && EncodeFrame(p).Ok?
    ensures var b := EncodeFrame(p).value;
            && |b| == HEADER_LEN + Sum(Lengths(p.levels)) <= MAX_FRAME_LEN
            && b[..4] == MAGIC && b[4] == VERSION && b[5] == p.flags && U16Of(b[6], b[7]) == LevelMap(Lengths(p.levels))
            && b[8..40] == p.schemaDigest && b[40..72] == p.intentDigest && b[HEADER_LEN..] == Flatten(p.levels)
  {
    var lengths := Lengths(p.levels);
    MapFits(p.levels);
    SumFlatten(p.levels);
    HeaderLayout(p.flags, LevelMap(lengths), p.schemaDigest, p.intentDigest, lengths);
    var header := Header(p.flags, LevelMap(lengths), p.schemaDigest, p.intentDigest, lengths);
    hide Header, LevelMap, Flatten, Lengths, Sum, U16Of;
    InFront(header, Flatten(p.levels));
  }

  lemma InFront(header: Bytes, payload: Bytes)
    requires |header| == HEADER_LEN
    ensures var b := header + payload;
            && b[..4] == header[..4] && b[4] == header[4] && b[5] == header[5] && b[6] == header[6] && b[7] == header[7]
            && b[8..40] == header[8..40] && b[40..72] == header[40..72] && b[HEADER_LEN..] == payload
  {
  }

  lemma PayloadSlice(b: Bytes, levels: seq<Bytes>, i: nat)
    requires HEADER_LEN <= |b| && b[HEADER_LEN..] == Flatten(levels) && i < |levels|
    ensures var s := Tiles(HEADER_LEN, Lengths(levels))[i];
            Within(s, |b|) && Slice(b, s) == levels[i]
  {
    hide Flatten, Sum;
    FlattenSlice(levels, i);
    SliceBehind(b, Sum(Lengths(levels)[..i]), |levels[i]|);
  }

  lemma SliceBehind(b: Bytes, at: nat, n: nat)
    requires HEADER_LEN + at + n <= |b|
    ensures b[HEADER_LEN + at..HEADER_LEN + at + n] == b[HEADER_LEN..][at..at + n]
  {
  }

  /** Decoding an encoded frame gives its parts back. */
  lemma DecodeEncode(p: FrameParts)
    requires Fixed(p) && EncodeFrame(p).Ok?
    ensures var b := EncodeFrame(p).value;
            DecodeFrame(b).Ok? && Borrows(b, DecodeFrame(b).value) && Parts(b, DecodeFrame(b).value) == p
  {
    var b := EncodeFrame(p).value;
    MapFits(p.levels);
    EncodedLengths(p);
    EncodedLayout(p);
    hide EncodeFrame, LevelMap, Sum, U16Of;
    var f := DecodeFrame(b).value;
    forall i | 0 <= i < LEVEL_COUNT ensures Within(f.levels[i], |b|) && Slice(b, f.levels[i]) == p.levels[i] {
      PayloadSlice(b, p.levels, i);
    }
    assert LevelBytes(b, f.levels) == p.levels;
  }

  /** A decoded frame borrows within its input, and its level lengths are the declared ones. */
  lemma DecodedBorrows(b: Bytes)
    requires DecodeFrame(b).Ok?
    ensures var f := DecodeFrame(b).value;
      Borrows(b, f) && Fixed(Parts(b, f)) && Lengths(Parts(b, f).levels) == DeclaredLengths(b)
      && Flatten(Parts(b, f).levels) == b[HEADER_LEN..]
  {
    FlattenTiles(b, HEADER_LEN, DeclaredLengths(b));
  }

  lemma DeclaredTable(b: Bytes)
    requires HEADER_LEN <= |b|
    ensures forall i :: 0 <= i < LEVEL_COUNT ==> DeclaredLengths(b)[i] < U32_LIMIT
    ensures LengthTable(DeclaredLengths(b)) == b[72..96]
  {
    var lengths := DeclaredLengths(b);
    forall i | 0 <= i < LEVEL_COUNT ensures b[72..96][4 * i..4 * i + 4] == U32Bytes(lengths[i]) {
      TableBytes(b, i);
    }
    TableFromEntries(b[72..96], lengths);
  }

  lemma DecodedHeader(b: Bytes)
    requires HEADER_LEN <= |b| && b[..4] == MAGIC && b[4] == VERSION
    requires U16Of(b[6], b[7]) == LevelMap(DeclaredLengths(b)) < 0x40
    ensures forall i :: 0 <= i < LEVEL_COUNT ==> DeclaredLengths(b)[i] < U32_LIMIT
    ensures Header(b[5], LevelMap(DeclaredLengths(b)), b[8..40], b[40..72], DeclaredLengths(b)) == b[..HEADER_LEN]
  {
    hide LevelMap, LengthTable, DeclaredLength;
    DeclaredTable(b);
    U16BytesOf(b[6], b[7]);
    HeaderPieces(b);
  }

  lemma U16BytesOf(hi: Byte, lo: Byte)
    ensures U16Of(hi, lo) < 0x1_0000 && U16Bytes(U16Of(hi, lo)) == [hi, lo]
  {
  }

  lemma TableBytes(b: Bytes, i: nat)
    requires HEADER_LEN <= |b| && i < LEVEL_COUNT
    ensures b[72..96][4 * i..4 * i + 4] == U32Bytes(DeclaredLength(b, i))
  {
    var at := LENGTHS_OFFSET + i * 4;
    U32BytesOf(b[at], b[at + 1], b[at + 2], b[at + 3]);
    InnerSlice(b, 4 * i);
    FourBytes(b, at);
  }

  lemma InnerSlice(b: Bytes, k: nat)
    requires HEADER_LEN <= |b| && k + 4 <= 24
    ensures b[72..96][k..k + 4] == b[72 + k..72 + k + 4]
  {
  }

  lemma FourBytes(b: Bytes, at: nat)
    requires at + 4 <= |b|
    ensures b[at..at + 4] == [b[at], b[at + 1], b[at + 2], b[at + 3]]
  {
  }

  lemma HeaderPieces(b: Bytes)
    requires HEADER_LEN <= |b|
    ensures b[..HEADER_LEN] == b[..4] + [b[4], b[5]] + [b[6], b[7]] + b[8..40] + b[40..72] + b[72..96]
  {
  }

  /** Accepted bytes are exactly the encoding of the parts they decode to. */
  lemma EncodeDecode(b: Bytes)
    requires DecodeFrame(b).Ok?
    ensures var f := DecodeFrame(b).value;
      Borrows(b, f) && Fixed(Parts(b, f)) && EncodeFrame(Parts(b, f)) == Ok(b)
  {
    DecodedBorrows(b);
    var p := Parts(b, DecodeFrame(b).value);
    EncodesExactly(p);
    SumFlatten(p.levels);
    DecodedHeader(b);
    assert FrameBytes(p) == b[..HEADER_LEN] + b[HEADER_LEN..] == b;
  }

  predicate IsEncoding(b: Bytes, p: FrameParts) {
    Fixed(p) && EncodeFrame(p) == Ok(b)
  }

  /** `decode` accepts the range of `encode` and nothing else. */
  lemma AcceptsExactlyEncodings(b: Bytes)
    ensures DecodeFrame(b).Ok? <==> exists p :: IsEncoding(b, p)
  {
    if DecodeFrame(b).Ok? {
      EncodeDecode(b);
      assert IsEncoding(b, Parts(b, DecodeFrame(b).value));
    }
    if p :| IsEncoding(b, p) {
      DecodeEncode(p);
    }
  }

  /** One meaning has one encoding: two accepted frames with equal parts are equal bytes. */
  lemma OneEncodingPerFrame(a: Bytes, b: Bytes)
    requires DecodeFrame(a).Ok? && DecodeFrame(b).Ok?
    ensures Borrows(a, DecodeFrame(a).value) && Borrows(b, DecodeFrame(b).value)
    ensures Parts(a, DecodeFrame(a).value) == Parts(b, DecodeFrame(b).value) <==> a == b
  {
    EncodeDecode(a);
    EncodeDecode(b);
  }

  // ---------- spans ----------

  /** Spans that lie one behind the other from `from` to `to`. */
  predicate Tile(spans: seq<Span>, from: nat, to: nat) {
    if spans == [] then from == to
    else spans[0].offset == from && Tile(spans[1..], from + spans[0].length, to)
  }

  lemma {:induction false} SumFirst(lengths: seq<nat>)
    requires lengths != []
    ensures Sum(lengths) == lengths[0] + Sum(lengths[1..])
  {
    if |lengths| > 1 {
      var n := |lengths| - 1;
      SumFirst(lengths[..n]);
      assert lengths[..n][1..] == lengths[1..][..n - 1];
    }
  }

  lemma {:induction false} TilesTile(start: nat, lengths: seq<nat>)
    ensures Tile(Tiles(start, lengths), start, start + Sum(lengths))
    decreases |lengths|
  {
    if lengths != [] {
      SumFirst(lengths);
      TilesRest(start, lengths);
      TilesTile(start + lengths[0], lengths[1..]);
    }
  }

  lemma TilesRest(start: nat, lengths: seq<nat>)
    requires lengths != []
    ensures Tiles(start, lengths)[0] == Span(start, lengths[0])
    ensures Tiles(start, lengths)[1..] == Tiles(start + lengths[0], lengths[1..])
  {
    var rest := lengths[1..];
    forall i | 0 <= i < |rest| ensures Tiles(start, lengths)[1..][i] == Tiles(start + lengths[0], rest)[i] {
      SumFirst(lengths[..i + 1]);
      assert lengths[..i + 1][1..] == rest[..i];
    }
  }

  /** Every byte behind the header of an accepted frame lies in exactly one level, in order. */
  lemma SpansTileTheFrame(b: Bytes)
    requires DecodeFrame(b).Ok?
    ensures Tile(DecodeFrame(b).value.levels, HEADER_LEN, |b|)
  {
    TilesTile(HEADER_LEN, DeclaredLengths(b));
  }

  /** The level spans of the ABI view: offset and length of each borrowed level. */
  method ViewLevels(input: Bytes) returns (r: Result<seq<Span>, FrameError>)
    ensures r.Ok? <==> DecodeFrame(input).Ok?
    ensures r.Err? ==> DecodeFrame(input) == Err(r.error)
    ensures r.Ok? ==> |r.value| == LEVEL_COUNT && Tile(r.value, HEADER_LEN, |input|)
    ensures r.Ok? ==> forall i :: 0 <= i < LEVEL_COUNT ==>
              r.value[i].length == DeclaredLength(input, i) && (r.value[i].length > 0 <==> HasBit(U16Of(input[6], input[7]), i))
  {
    hide HasBit, Tile, LevelMap, Sum;
    var frame := Decode(input);
    if frame.Err? {
      return Err(frame.error);
    }
    var levels: array<Span> := new Span[LEVEL_COUNT](_ => Span(0, 0));
    var i := 0;
    while i < LEVEL_COUNT
      invariant 0 <= i <= LEVEL_COUNT
      invariant levels[..i] == frame.value.levels[..i]
    {
      levels[i] := Span(frame.value.levels[i].offset, frame.value.levels[i].length);
      i := i + 1;
    }
    SpansTileTheFrame(input);
    assert levels[..] == frame.value.levels;
    forall k | 0 <= k < LEVEL_COUNT ensures DeclaredLength(input, k) > 0 <==> HasBit(U16Of(input[6], input[7]), k) {
      LevelMapMarksLevels(DeclaredLengths(input), k);
    }
    return Ok(levels[..]);
  }
}
