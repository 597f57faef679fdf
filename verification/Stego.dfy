/**
 * Hiding a message in the least significant bits of an image.
 *
 * The embedding walks rows, columns and channels; the extraction finds bit i by
 * division and remainder. Both are shown to be the same addressing.
 */
module Stego {
  import opened Basics
  import opened BigEndian

  datatype Pixel = Pixel(r: bv8, g: bv8, b: bv8)

  /** A decoded image, indexed [y, x]. */
  type Image = array2<Pixel>

  const HEADER_BYTES := 4
  const MAX_MESSAGE := 100000

  datatype Result<+T> = Ok(value: T) | InvalidLength | ExceedsCapacity | OutOfRange

  function Channel(p: Pixel, channel: nat): bv8
    requires channel < 3
  {
    if channel == 0 then p.r else if channel == 1 then p.g else p.b
  }

  /** Bit i of a byte string, most significant first. */
  function BitOf(bytes: seq<bv8>, i: nat): bv8
    requires i < 8 * |bytes|
  {
    (bytes[i / 8] >> (7 - i % 8)) & 1
  }

  /** A UTF-16 code unit. */
  type CodeUnit = n: nat | n < 0x10000

  /** A byte list keeps the low eight bits of what is put into it. */
  function LowByte(unit: CodeUnit): bv8 { ByteAt(unit, 1) }

  function LowBytes(message: seq<CodeUnit>): seq<bv8> {
    seq(|message|, i requires 0 <= i < |message| => LowByte(message[i]))
  }

  function MessageBytes(message: seq<CodeUnit>): seq<bv8> { LengthBytes(|message|) + LowBytes(message) }

  function WithLowBit(value: bv8, bit: bv8): bv8 { (value & 0xFE) | bit }

  /** A channel value after embedding, if bit i of the payload goes into it. */
  function EmbeddedChannel(value: bv8, bytes: seq<bv8>, i: nat): bv8 {
    if i < 8 * |bytes| then WithLowBit(value, BitOf(bytes, i)) else value
  }

  function EmbeddedPixel(p: Pixel, bytes: seq<bv8>, first: nat): Pixel {
    Pixel(EmbeddedChannel(p.r, bytes, first), EmbeddedChannel(p.g, bytes, first + 1),
          EmbeddedChannel(p.b, bytes, first + 2))
  }

  /** The first bit of the pixel in row y, column x. */
  function FirstBit(y: nat, x: nat, width: nat): nat { 3 * (y * width + x) }

  /** One pixel: R, G, B in turn while bits remain. */
  method EmbedPixel(p: Pixel, bytes: seq<bv8>, start: nat) returns (q: Pixel, bitIdx: nat)
    requires start < 8 * |bytes|
    ensures q == EmbeddedPixel(p, bytes, start)
    ensures bitIdx == if start + 3 <= 8 * |bytes| then start + 3 else 8 * |bytes|
  {
    hide BitOf, WithLowBit;
    var r, g, b := p.r, p.g, p.b;
    bitIdx := start;
    for channel := 0 to 3
      invariant bitIdx == if start + channel <= 8 * |bytes| then start + channel else 8 * |bytes|
      invariant r == if channel > 0 then EmbeddedChannel(p.r, bytes, start) else p.r
      invariant g == if channel > 1 then EmbeddedChannel(p.g, bytes, start + 1) else p.g
      invariant b == if channel > 2 then EmbeddedChannel(p.b, bytes, start + 2) else p.b
    {
      if bitIdx < 8 * |bytes| {
        var bit := BitOf(bytes, bitIdx);
        if channel == 0 { r := WithLowBit(r, bit); }
        if channel == 1 { g := WithLowBit(g, bit); }
        if channel == 2 { b := WithLowBit(b, bit); }
        bitIdx := bitIdx + 1;
      }
    }
    q := Pixel(r, g, b);
  }

  /** embedMessage, between decoding and encoding the file; false where the source throws. */
  method EmbedMessage(image: Image, message: seq<CodeUnit>) returns (fits: bool)
    modifies image
    ensures fits <==> 8 * (4 + |message|) <= 3 * (image.Length0 * image.Length1)
    ensures Done(image, old(Pixels(image)), if fits then MessageBytes(message) else [], image.Length0, 0)
  {
    hide BitOf, WithLowBit, LengthBytes, LowByte, EmbeddedPixel, FirstBit, Done;
    var bytes := MessageBytes(message);
    var capacityBits := image.Length0 * image.Length1 * 3;
    var neededBits := |bytes| * 8;
    NothingDone(image, bytes);
    if neededBits > capacityBits {
      NothingDone(image, []);
      AllDone(image, Pixels(image), [], 0);
      return false;
    }
    var width := image.Length1;
    var bitIdx, y := 0, 0;
    FirstBitSteps(0, 0, width);
    while y < image.Length0 && bitIdx < neededBits
      invariant 0 <= y <= image.Length0
      invariant bitIdx == Capped(FirstBit(y, 0, width), neededBits)
      invariant Done(image, old(Pixels(image)), bytes, y, 0)
    {
      var x := 0;
      while x < width && bitIdx < neededBits
        invariant 0 <= x <= width
        invariant bitIdx == Capped(FirstBit(y, x, width), neededBits)
        invariant Done(image, old(Pixels(image)), bytes, y, x)
      {
        NotYetDone(image, old(Pixels(image)), bytes, y, x);
        var q;
        q, bitIdx := EmbedPixel(image[y, x], bytes, bitIdx);
        FirstBitSteps(y, x, width);
        SetPixel(image, old(Pixels(image)), bytes, y, x, q);
        x := x + 1;
      }
      RowDone(image, old(Pixels(image)), bytes, y, x);
      y := y + 1;
    }
    AllDone(image, old(Pixels(image)), bytes, y);
    return true;
  }

  method SetPixel(image: Image, ghost before: seq<seq<Pixel>>, ghost bytes: seq<bv8>, y: nat, x: nat, q: Pixel)
    requires y < image.Length0 && x < image.Length1 && Done(image, before, bytes, y, x)
    requires q == EmbeddedPixel(before[y][x], bytes, FirstBit(y, x, image.Length1))
    modifies image
    ensures Done(image, before, bytes, y, x + 1)
  {
    hide EmbeddedPixel, FirstBit;
    image[y, x] := q;
  }

  function Capped(n: nat, limit: nat): nat { if n <= limit then n else limit }

  /** The image as a function of position, for comparing states. */
  ghost function Pixels(image: Image): seq<seq<Pixel>>
    reads image
  {
    seq(image.Length0, y requires 0 <= y < image.Length0 reads image =>
      seq(image.Length1, x requires 0 <= x < image.Length1 reads image => image[y, x]))
  }

  /** Pixels before (y, x) are embedded, the others as they were. */
  ghost predicate Done(image: Image, before: seq<seq<Pixel>>, bytes: seq<bv8>, y: nat, x: nat)
    reads image
  {
    && |before| == image.Length0 && (forall i :: 0 <= i < |before| ==> |before[i]| == image.Length1)
    && forall i, j :: 0 <= i < image.Length0 && 0 <= j < image.Length1 ==>
         image[i, j] == if i < y || (i == y && j < x) then EmbeddedPixel(before[i][j], bytes, FirstBit(i, j, image.Length1))
                        else before[i][j]
  }

  lemma NotYetDone(image: Image, before: seq<seq<Pixel>>, bytes: seq<bv8>, y: nat, x: nat)
    requires Done(image, before, bytes, y, x) && y < image.Length0 && x < image.Length1
    ensures |before| == image.Length0 && |before[y]| == image.Length1 && image[y, x] == before[y][x]
  {}

  lemma NothingDone(image: Image, bytes: seq<bv8>)
    ensures Done(image, Pixels(image), bytes, 0, 0)
  {}

  lemma FirstBitSteps(y: nat, x: nat, width: nat)
    ensures FirstBit(0, 0, width) == 0
    ensures FirstBit(y, x + 1, width) == FirstBit(y, x, width) + 3
    ensures FirstBit(y, width, width) == FirstBit(y + 1, 0, width)
  {
    assert (y + 1) * width == y * width + width;
  }

  lemma FirstBitMonotone(y: nat, x: nat, i: nat, j: nat, width: nat)
    requires y < i || (y == i && x <= j)
    requires x <= width
    ensures FirstBit(y, x, width) <= FirstBit(i, j, width)
  {
    if y < i { assert i * width >= (y + 1) * width == y * width + width; }
  }

  lemma Untouched(p: Pixel, bytes: seq<bv8>, first: nat)
    requires first >= 8 * |bytes|
    ensures EmbeddedPixel(p, bytes, first) == p
  {}

  /** The end of a row, reached or made pointless by the end of the payload. */
  lemma RowDone(image: Image, before: seq<seq<Pixel>>, bytes: seq<bv8>, y: nat, x: nat)
    requires y < image.Length0 && x <= image.Length1 && Done(image, before, bytes, y, x)
    requires x == image.Length1 || FirstBit(y, x, image.Length1) >= 8 * |bytes|
    ensures Done(image, before, bytes, y + 1, 0)
    ensures Capped(FirstBit(y, x, image.Length1), 8 * |bytes|)
      == Capped(FirstBit(y + 1, 0, image.Length1), 8 * |bytes|)
  {
    hide EmbeddedPixel, FirstBit;
    var width := image.Length1;
    FirstBitSteps(y, x, width);
    FirstBitMonotone(y, x, y + 1, 0, width);
    forall j | x <= j < width ensures image[y, j] == EmbeddedPixel(before[y][j], bytes, FirstBit(y, j, width)) {
      FirstBitMonotone(y, x, y, j, width);
      Untouched(before[y][j], bytes, FirstBit(y, j, width));
    }
  }

  lemma AllDone(image: Image, before: seq<seq<Pixel>>, bytes: seq<bv8>, y: nat)
    requires y <= image.Length0 && Done(image, before, bytes, y, 0)
    requires y == image.Length0 || FirstBit(y, 0, image.Length1) >= 8 * |bytes|
    ensures Done(image, before, bytes, image.Length0, 0)
  {
    hide EmbeddedPixel, FirstBit;
    var width := image.Length1;
    forall i, j | y <= i < image.Length0 && 0 <= j < width
      ensures image[i, j] == EmbeddedPixel(before[i][j], bytes, FirstBit(i, j, width))
    {
      FirstBitMonotone(y, 0, i, j, width);
      Untouched(before[i][j], bytes, FirstBit(i, j, width));
    }
  }

  /** Where the extraction looks for bit idx: pixel idx / 3 counted along the rows, channel idx % 3. */
  function ChannelAt(image: Image, idx: nat): bv8
    requires idx < 3 * (image.Length0 * image.Length1)
    reads image
  {
    var width := image.Length1;
    InsideImage(idx, image.Length0, width);
    Channel(image[idx / 3 / width, idx / 3 % width], idx % 3)
  }

  lemma InsideImage(idx: nat, height: nat, width: nat)
    requires idx < 3 * (height * width)
    ensures width > 0 && idx / 3 / width < height && idx / 3 % width < width
    ensures idx == FirstBit(idx / 3 / width, idx / 3 % width, width) + idx % 3
  {
    var n := idx / 3;
    assert n == width * (n / width) + n % width;
    if n / width >= height { Product(width, n / width, height); }
  }

  lemma Product(a: nat, b: nat, c: nat)
    requires b >= c
    ensures a * b >= a * c
  {}

  function ReadBit(image: Image, idx: nat): bv8
    requires idx < 3 * (image.Length0 * image.Length1)
    reads image
  {
    ChannelAt(image, idx) & 1
  }

  /** The least significant bits of the image in extraction order. */
  ghost function LowBits(image: Image): (bits: seq<bv8>)
    reads image
    ensures |bits| == 3 * (image.Length0 * image.Length1)
    ensures forall i :: 0 <= i < |bits| ==> bits[i] == ReadBit(image, i)
  {
    seq(3 * (image.Length0 * image.Length1), i requires 0 <= i < 3 * (image.Length0 * image.Length1) reads image =>
      ReadBit(image, i))
  }

  /** What embedding did, seen through the addressing of the extraction. */
  lemma EmbeddedAt(image: Image, before: seq<seq<Pixel>>, bytes: seq<bv8>, idx: nat)
    requires Done(image, before, bytes, image.Length0, 0)
    requires idx < 3 * (image.Length0 * image.Length1)
    ensures var width := image.Length1;
      width > 0 && idx / 3 / width < |before| && idx / 3 % width < |before[idx / 3 / width]|
    ensures var was := Channel(before[idx / 3 / image.Length1][idx / 3 % image.Length1], idx % 3);
      && ChannelAt(image, idx) & 0xFE == was & 0xFE
      && (if idx < 8 * |bytes| then ReadBit(image, idx) == (bytes[idx / 8] >> (7 - idx % 8)) & 1 else ChannelAt(image, idx) == was)
  {
    hide BitOf, FirstBit;
    var width := image.Length1;
    InsideImage(idx, image.Length0, width);
    var y, x := idx / 3 / width, idx / 3 % width;
    var was := Channel(before[y][x], idx % 3);
    assert ChannelAt(image, idx) == EmbeddedChannel(was, bytes, idx);
    if idx < 8 * |bytes| {
      BitIsBit(bytes, idx);
      BitsHighestFirst(bytes, idx);
      LowBitOnly(was, BitOf(bytes, idx));
    }
  }

  lemma BitsHighestFirst(bytes: seq<bv8>, i: nat)
    requires i < 8 * |bytes|
    ensures BitOf(bytes, i) == (bytes[i / 8] >> (7 - i % 8)) & 1
  {}

  lemma BitIsBit(bytes: seq<bv8>, i: nat)
    requires i < 8 * |bytes|
    ensures BitOf(bytes, i) & 1 == BitOf(bytes, i)
  {}

  lemma LowBitOnly(value: bv8, bit: bv8)
    requires bit & 1 == bit
    ensures WithLowBit(value, bit) & 0xFE == value & 0xFE && WithLowBit(value, bit) & 1 == bit
  {}

  /** n bits from `at` on put together into a byte with shifts and ORs. */
  function Gathered(bits: seq<bv8>, at: nat, n: nat): bv8
    requires n <= 8 && at + n <= |bits|
  {
    if n == 0 then 0 else Gathered(bits, at, n - 1) | (bits[at + n - 1] << (8 - n))
  }

  function TopBits(byte: bv8, n: nat): bv8
    requires n <= 8
  {
    byte & (0xFF << (8 - n))
  }

  lemma OneMoreBit(byte: bv8, n: nat)
    requires 0 < n <= 8
    ensures TopBits(byte, n - 1) | (((byte >> (8 - n)) & 1) << (8 - n)) == TopBits(byte, n)
  {
    if n == 1 {} else if n == 2 {} else if n == 3 {} else if n == 4 {}
    else if n == 5 {} else if n == 6 {} else if n == 7 {} else { assert n == 8; }
  }

  lemma BitInByte(bytes: seq<bv8>, k: nat, p: nat)
    requires k < |bytes| && p < 8
    ensures BitOf(bytes, 8 * k + p) == (bytes[k] >> (7 - p)) & 1
  {
    assert (8 * k + p) / 8 == k && (8 * k + p) % 8 == p;
  }

  lemma AllBits(byte: bv8)
    ensures TopBits(byte, 0) == 0 && TopBits(byte, 8) == byte
  {}

  lemma GatheredStep(bits: seq<bv8>, at: nat, n: nat)
    requires n <= 8 && at + n <= |bits|
    ensures Gathered(bits, at, n)
      == if n == 0 then 0 else Gathered(bits, at, n - 1) | (bits[at + n - 1] << (8 - n))
  {}

  lemma {:induction false} GatheredAgain(bits: seq<bv8>, start: nat, bytes: seq<bv8>, k: nat, n: nat)
    requires n <= 8 && k < |bytes| && start + 8 * |bytes| <= |bits|
    requires forall i :: 0 <= i < 8 * |bytes| ==> bits[start + i] == BitOf(bytes, i)
    ensures Gathered(bits, start + 8 * k, n) == TopBits(bytes[k], n)
  {
    hide TopBits, BitOf, Gathered;
    GatheredStep(bits, start + 8 * k, n);
    if n == 0 {
      AllBits(bytes[k]);
    } else {
      GatheredAgain(bits, start, bytes, k, n - 1);
      BitThere(bits, start, bytes, k, n);
      OneMoreBit(bytes[k], n);
    }
  }

  lemma BitThere(bits: seq<bv8>, start: nat, bytes: seq<bv8>, k: nat, n: nat)
    requires 0 < n <= 8 && k < |bytes| && start + 8 * |bytes| <= |bits|
    requires forall i :: 0 <= i < 8 * |bytes| ==> bits[start + i] == BitOf(bytes, i)
    ensures bits[start + 8 * k + n - 1] == (bytes[k] >> (8 - n)) & 1
  {
    hide BitOf;
    BitInByte(bytes, k, n - 1);
    assert bits[start + (8 * k + (n - 1))] == BitOf(bytes, 8 * k + (n - 1));
  }

  /** `count` bytes read from bit `start` on. */
  function Bytes(bits: seq<bv8>, start: nat, count: nat): (bytes: seq<bv8>)
    requires start + 8 * count <= |bits|
    ensures |bytes| == count
  {
    seq(count, k requires 0 <= k < count => Gathered(bits, start + 8 * k, 8))
  }

  lemma BytesAgain(bits: seq<bv8>, start: nat, bytes: seq<bv8>)
    requires start + 8 * |bytes| <= |bits|
    requires forall i :: 0 <= i < 8 * |bytes| ==> bits[start + i] == BitOf(bytes, i)
    ensures Bytes(bits, start, |bytes|) == bytes
  {
    hide BitOf, Gathered;
    forall k | 0 <= k < |bytes| ensures Gathered(bits, start + 8 * k, 8) == bytes[k] {
      GatheredAgain(bits, start, bytes, k, 8);
      AllBits(bytes[k]);
    }
  }

  /** What the extraction answers, in terms of the low bits alone. */
  function Extracted(bits: seq<bv8>): Result<seq<bv8>> {
    if |bits| < 8 * HEADER_BYTES then OutOfRange else
    var n := LengthOf(Bytes(bits, 0, HEADER_BYTES));
    if n > MAX_MESSAGE then InvalidLength
    else if 8 * (HEADER_BYTES + n) > |bits| then ExceedsCapacity
    else Ok(Bytes(bits, 8 * HEADER_BYTES, n))
  }

  /** Which answer the extraction gives: the first 32 bits are a length, which must be at most 100000 and leave room for
      so many bytes; and each byte is the next eight bits, the highest first. */
  lemma ExtractedIs(bits: seq<bv8>)
    ensures |bits| < 32 <==> Extracted(bits) == OutOfRange
    ensures |bits| >= 32 ==>
      var h := Bytes(bits, 0, 4);
      var n := h[0] as nat * 0x1000000 + h[1] as nat * 0x10000 + h[2] as nat * 0x100 + h[3] as nat;
      && (Extracted(bits) == InvalidLength <==> n > 100000)
      && (Extracted(bits) == ExceedsCapacity <==> n <= 100000 && 8 * (4 + n) > |bits|)
      && (Extracted(bits).Ok? ==> Extracted(bits).value == Bytes(bits, 32, n))
  {}

  /** How many of byte k's bits are among the first i. */
  function BitsRead(i: nat, k: nat): (n: nat)
    ensures n <= 8
  {
    if i < 8 * k then 0 else if i > 8 * k + 8 then 8 else i - 8 * k
  }

  lemma BitsReadSteps(bits: seq<bv8>, start: nat, i: nat)
    requires start + i < |bits|
    ensures BitsRead(i, i / 8) == i % 8 && BitsRead(i + 1, i / 8) == i % 8 + 1
    ensures start + 8 * (i / 8) + i % 8 + 1 == start + i + 1
    ensures forall k: nat :: k != i / 8 ==> BitsRead(i + 1, k) == BitsRead(i, k)
    ensures Gathered(bits, start + 8 * (i / 8), i % 8 + 1)
      == Gathered(bits, start + 8 * (i / 8), i % 8) | (bits[start + i] << (7 - i % 8))
  {}

  lemma NoBitsRead(bits: seq<bv8>, start: nat, count: nat)
    requires start + 8 * count <= |bits|
    ensures forall k :: 0 <= k < count ==> BitsRead(0, k) == 0 && Gathered(bits, start + 8 * k, 0) == 0
    ensures forall k :: 0 <= k < count ==> BitsRead(8 * count, k) == 8
  {}

  /** Both reading loops: bits start, start + 1, ... are ORed into zeroed bytes. */
  method ReadBytes(image: Image, start: nat, count: nat) returns (bytes: array<bv8>)
    requires start + 8 * count <= 3 * (image.Length0 * image.Length1)
    ensures fresh(bytes) && bytes[..] == Bytes(LowBits(image), start, count)
  {
    hide ReadBit, BitsRead, Gathered;
    ghost var bits := LowBits(image);
    NoBitsRead(bits, start, count);
    bytes := new bv8[count](_ => 0);
    for i := 0 to 8 * count
      invariant forall k :: 0 <= k < count ==>
        bytes[k] == Gathered(bits, start + 8 * k, BitsRead(i, k))
    {
      BitsReadSteps(bits, start, i);
      var bit := ReadBit(image, start + i);
      bytes[i / 8] := bytes[i / 8] | (bit << (7 - i % 8));
    }
  }

  /** extractMessage, after decoding the file. The result's code units are the bytes read. */
  method ExtractMessage(image: Image) returns (r: Result<seq<bv8>>)
    ensures r == Extracted(LowBits(image))
  {
    hide LowBits, ReadBit, Bytes, LengthOf;
    var capacity := image.Length0 * image.Length1 * 3;
    if capacity < 8 * HEADER_BYTES { return OutOfRange; }
    var header := ReadBytes(image, 0, HEADER_BYTES);
    var n := LengthOf(header[..]);
    if n > MAX_MESSAGE { return InvalidLength; }
    var totalBits := (HEADER_BYTES + n) * 8;
    if totalBits > capacity { return ExceedsCapacity; }
    var payload := ReadBytes(image, 32, n);
    return Ok(payload[..]);
  }

  /** What a message comes back as: as long as it was, each code unit modulo 256. */
  ghost predicate ComesBack(message: seq<CodeUnit>, bytes: seq<bv8>) {
    && |bytes| == |message|
    && forall k :: 0 <= k < |message| ==> bytes[k] as nat == message[k] % 256
  }

  lemma LowBytesComeBack(message: seq<CodeUnit>)
    ensures ComesBack(message, LowBytes(message))
  {
    hide ByteAt;
    forall k | 0 <= k < |message| ensures LowByte(message[k]) as nat == message[k] % 256 {
      ByteAtValue(message[k], 1);
    }
  }

  /** What is embedded: the number of code units in four bytes, the highest first, then the code units modulo 256. */
  lemma PayloadFormat(message: seq<CodeUnit>)
    requires |message| < 0x100000000
    ensures var b := MessageBytes(message);
      && |b| == 4 + |message|
      && b[0] as nat * 0x1000000 + b[1] as nat * 0x10000 + b[2] as nat * 0x100 + b[3] as nat == |message|
      && forall k :: 0 <= k < |message| ==> b[4 + k] as nat == message[k] % 256
  {
    hide LengthBytes, LowByte;
    LengthRoundTrip(|message|);
    LowBytesComeBack(message);
  }

  /**
   * Extraction after embedding gives each code unit modulo 256, exactly for messages of at most 100000 code units: the
   * embedding takes what fits in the image, the extraction refuses longer ones.
   */
  lemma RoundTrip(image: Image, before: seq<seq<Pixel>>, message: seq<CodeUnit>)
    requires 8 * (4 + |message|) <= 3 * (image.Length0 * image.Length1)
    requires Done(image, before, MessageBytes(message), image.Length0, 0)
    ensures var r := Extracted(LowBits(image));
      (&& r.Ok? && |r.value| == |message|
       && forall k :: 0 <= k < |message| ==> r.value[k] as nat == message[k] % 256)
      <==> |message| <= 100000
    ensures 100000 < |message| < 0x100000000 ==> Extracted(LowBits(image)) == InvalidLength
  {
    LowBytesComeBack(message);
    hide Done, BitOf, Bytes, ReadBit, LengthOf, LengthBytes;
    var bits, bytes := LowBits(image), MessageBytes(message);
    forall i | 0 <= i < 8 * |bytes| ensures bits[i] == BitOf(bytes, i) {
      EmbeddedAt(image, before, bytes, i);
      BitsHighestFirst(bytes, i);
    }
    HeaderAndPayload(bits, LengthBytes(|message|), LowBytes(message));
    if |message| < 0x100000000 { LengthRoundTrip(|message|); }
  }

  lemma HeaderAndPayload(bits: seq<bv8>, header: seq<bv8>, payload: seq<bv8>)
    requires 8 * (|header| + |payload|) <= |bits|
    requires forall i :: 0 <= i < 8 * (|header| + |payload|) ==> bits[i] == BitOf(header + payload, i)
    ensures Bytes(bits, 0, |header|) == header && Bytes(bits, 8 * |header|, |payload|) == payload
  {
    forall i | 0 <= i < 8 * |header| ensures bits[0 + i] == BitOf(header, i) {
      assert bits[i] == BitOf(header + payload, i);
    }
    var start := 8 * |header|;
    forall i | 0 <= i < 8 * |payload| ensures bits[start + i] == BitOf(payload, i) {
      assert bits[start + i] == BitOf(header + payload, start + i);
      assert (start + i) / 8 == |header| + i / 8 && (start + i) % 8 == i % 8;
    }
    BytesAgain(bits, 0, header);
    BytesAgain(bits, start, payload);
  }

  lemma SmallUnits(message: seq<CodeUnit>)
    ensures forall k :: 0 <= k < |message| && message[k] < 256 ==> message[k] % 256 == message[k]
  {}

  /** embedMessage then extractMessage, on any image and any message: the image is too small, or the message too long
      for the extraction, or each code unit comes back modulo 256, code units below 256 as they were. */
  method EmbedThenExtract(image: Image, message: seq<CodeUnit>) returns (r: Option<Result<seq<bv8>>>)
    modifies image
    ensures r.Some? <==> 8 * (4 + |message|) <= 3 * (image.Length0 * image.Length1)
    ensures r.Some? ==>
      ((&& r.value.Ok? && |r.value.value| == |message|
        && forall k :: 0 <= k < |message| ==> r.value.value[k] as nat == message[k] % 256)
       <==> |message| <= 100000)
    ensures r.Some? && 100000 < |message| < 0x100000000 ==> r.value == InvalidLength
    ensures r.Some? && |message| <= 100000 && (forall k :: 0 <= k < |message| ==> message[k] < 256) ==>
      forall k :: 0 <= k < |message| ==> r.value.value[k] as nat == message[k]
  {
    hide *;
    ghost var before := Pixels(image);
    var fits := EmbedMessage(image, message);
    if !fits { return None; }
    RoundTrip(image, before, message);
    SmallUnits(message);
    var bytes := ExtractMessage(image);
    return Some(bytes);
  }
}
